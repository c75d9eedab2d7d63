/** Ageing of cached DNS answers (dns/util.go, dns/resolver.go): TTLs are unsigned 32-bit
    numbers whose subtraction wraps; times are nanoseconds. */
module TtlAgeing {
  import opened NetTypes

  const MODULUS := 0x1_0000_0000
  const SECOND := 1_000_000_000
  const NEGATIVE_TTL: u32 := 30
  const STALE_TTL: u32 := 3

  type u32 = x: nat | x < MODULUS

  /** A record: its TTL, whether it is an OPT pseudo-record, and everything else. */
  datatype RR = RR(ttl: u32, opt: bool, data: seq<byte>)

  datatype Msg = Msg(answer: seq<RR>, ns: seq<RR>, extra: seq<RR>)

  function Sub(a: u32, b: u32): u32 { (a - b) % MODULUS }

  function Clamp(v: u32, low: u32, high: u32): u32 {
    if v < low then low else if v > high then high else v
  }

  /** The smallest TTL, or 0 without records. */
  function MinTtl(rs: seq<RR>): u32 {
    if rs == [] then 0
    else if |rs| == 1 then rs[0].ttl
    else var m := MinTtl(rs[..|rs| - 1]); if rs[|rs| - 1].ttl < m then rs[|rs| - 1].ttl else m
  }

  function AgedTtl(ttl: u32, min: u32, target: u32): u32 {
    Clamp(Sub(ttl, Sub(min, target)), 1, ttl)
  }

  function AgedBy(rs: seq<RR>, min: u32, target: u32): seq<RR> {
    seq(|rs|, i requires 0 <= i < |rs| => rs[i].(ttl := AgedTtl(rs[i].ttl, min, target)))
  }

  function Aged(rs: seq<RR>, target: u32): seq<RR> {
    AgedBy(rs, MinTtl(rs), target)
  }

  // ---------------------------------------------------------------- one section

  lemma {:induction false} MinIsLeast(rs: seq<RR>)
    requires rs != []
    ensures forall i :: 0 <= i < |rs| ==> MinTtl(rs) <= rs[i].ttl
    ensures exists i :: 0 <= i < |rs| && rs[i].ttl == MinTtl(rs)
  {
    if |rs| > 1 {
      var front := rs[..|rs| - 1];
      MinIsLeast(front);
      assert forall i :: 0 <= i < |front| ==> front[i] == rs[i];
    } else {
      assert rs[0].ttl == MinTtl(rs);
    }
  }

  lemma LeastIsMin(rs: seq<RR>, m: u32)
    requires rs != [] && (forall i :: 0 <= i < |rs| ==> m <= rs[i].ttl) && exists i :: 0 <= i < |rs| && rs[i].ttl == m
    ensures MinTtl(rs) == m
  {
    MinIsLeast(rs);
  }

  lemma TtlDown(ttl: u32, min: u32, target: u32)
    requires 0 < target <= min <= ttl
    ensures AgedTtl(ttl, min, target) == ttl - (min - target)
  {
  }

  lemma TtlUp(ttl: u32, min: u32, target: u32)
    requires min < target && min <= ttl
    ensures AgedTtl(ttl, min, target) <= ttl
    ensures AgedTtl(ttl, min, target) == ttl <==> ttl == 1 || ttl + (target - min) < MODULUS
  {
    var d := target - min;
    assert Sub(min, target) == MODULUS - d;
    assert Sub(ttl, MODULUS - d) == if ttl + d < MODULUS then ttl + d else ttl + d - MODULUS;
  }

  /** Given a positive target, no TTL is raised, whatever the values. */
  lemma NeverRaised(rs: seq<RR>, target: u32, i: nat)
    requires target > 0 && i < |rs|
    ensures Aged(rs, target)[i].ttl <= rs[i].ttl
  {
    MinIsLeast(rs);
    if target <= MinTtl(rs) {
      TtlDown(rs[i].ttl, MinTtl(rs), target);
    } else {
      TtlUp(rs[i].ttl, MinTtl(rs), target);
    }
  }

  /** The same records in order, each TTL lower by d. */
  predicate Lowered(before: seq<RR>, after: seq<RR>, d: nat) {
    |after| == |before| &&
    forall i :: 0 <= i < |before| ==> after[i] == before[i].(ttl := after[i].ttl) && after[i].ttl + d == before[i].ttl
  }

  /** Down to a target the section can reach, every TTL falls by the same amount and the smallest
      becomes the target. */
  lemma AgedDown(rs: seq<RR>, target: u32)
    requires 0 < target <= MinTtl(rs) && rs != []
    ensures Lowered(rs, Aged(rs, target), MinTtl(rs) - target)
    ensures MinTtl(Aged(rs, target)) == target
  {
    MinIsLeast(rs);
    forall i | 0 <= i < |rs| ensures AgedTtl(rs[i].ttl, MinTtl(rs), target) == rs[i].ttl - (MinTtl(rs) - target) {
      TtlDown(rs[i].ttl, MinTtl(rs), target);
    }
    LoweredMin(rs, Aged(rs, target), MinTtl(rs) - target);
  }

  lemma LoweredMin(rs: seq<RR>, out: seq<RR>, d: nat)
    requires rs != [] && Lowered(rs, out, d)
    ensures MinTtl(out) + d == MinTtl(rs)
  {
    MinIsLeast(rs);
    var i :| 0 <= i < |rs| && rs[i].ttl == MinTtl(rs);
    assert out[i].ttl == MinTtl(rs) - d;
    LeastIsMin(out, out[i].ttl);
  }

  predicate InRange(ttl: u32, d: nat) { ttl == 1 || ttl + d < MODULUS }

  predicate AllInRange(rs: seq<RR>, d: nat) {
    forall i :: 0 <= i < |rs| ==> InRange(rs[i].ttl, d)
  }

  /** A target above the smallest TTL leaves the section as it is exactly when the wrapped
      subtraction stays in range; TTLs below 2^31 (section 8 of RFC 2181) always do. */
  lemma AgedUp(rs: seq<RR>, target: u32)
    requires MinTtl(rs) < target && rs != []
    ensures Aged(rs, target) == rs <==> AllInRange(rs, target - MinTtl(rs))
  {
    MinIsLeast(rs);
    var min := MinTtl(rs);
    forall i | 0 <= i < |rs|
      ensures AgedTtl(rs[i].ttl, min, target) == rs[i].ttl <==> InRange(rs[i].ttl, target - min)
    {
      TtlUp(rs[i].ttl, min, target);
    }
    SameTtls(rs, min, target);
  }

  lemma SameTtls(rs: seq<RR>, min: u32, target: u32)
    ensures AgedBy(rs, min, target) == rs <==>
            forall i :: 0 <= i < |rs| ==> AgedTtl(rs[i].ttl, min, target) == rs[i].ttl
  {
    if AgedBy(rs, min, target) == rs {
      forall i | 0 <= i < |rs| ensures AgedTtl(rs[i].ttl, min, target) == rs[i].ttl {
        assert AgedBy(rs, min, target)[i] == rs[i];
      }
    }
  }

  // ---------------------------------------------------------------- whole messages

  function Overwritten(rs: seq<RR>, ttl: u32, sparing: bool): seq<RR> {
    seq(|rs|, i requires 0 <= i < |rs| => if sparing && rs[i].opt then rs[i] else rs[i].(ttl := ttl))
  }

  function SetAll(m: Msg, ttl: u32): Msg {
    Msg(Overwritten(m.answer, ttl, false), Overwritten(m.ns, ttl, false), Overwritten(m.extra, ttl, true))
  }

  function AgeAll(m: Msg, target: u32): Msg {
    Msg(Aged(m.answer, target), Aged(m.ns, target), Aged(m.extra, target))
  }

  function WithoutOpt(rs: seq<RR>): seq<RR> {
    if rs == [] then [] else WithoutOpt(rs[..|rs| - 1]) + if rs[|rs| - 1].opt then [] else [rs[|rs| - 1]]
  }

  /** What is left of the parts, in order, is what is left of the whole. */
  lemma {:induction false} WithoutOptConcat(a: seq<RR>, b: seq<RR>)
    ensures WithoutOpt(a + b) == WithoutOpt(a) + WithoutOpt(b)
  {
    if b == [] {
      assert a + b == a;
    } else {
      var n := |b| - 1;
      WithoutOptConcat(a, b[..n]);
      assert (a + b)[..|a + b| - 1] == a + b[..n];
    }
  }

  lemma {:induction false} WithoutOptHas(rs: seq<RR>, r: RR)
    ensures r in WithoutOpt(rs) <==> r in rs && !r.opt
  {
    if rs != [] {
      WithoutOptHas(rs[..|rs| - 1], r);
    }
  }

  function Kept(m: Msg): Msg { m.(extra := WithoutOpt(m.extra)) }

  function AllRecords(m: Msg): seq<RR> { m.answer + m.ns + m.extra }

  /** A response without answers whose own TTLs give less than the floor for negative answers. */
  predicate Floored(m: Msg) {
    m.answer == [] && MinTtl(AllRecords(Kept(m))) < NEGATIVE_TTL
  }

  /** The seconds a response is fresh for once it is stored, without its OPT records. */
  function Lifetime(m: Msg): u32 {
    if Floored(m) then NEGATIVE_TTL else MinTtl(AllRecords(Kept(m)))
  }

  /** The whole seconds left until `due`, at least one, as an unsigned 32-bit number. Go's integer
      division rounds toward zero, and anything below one second becomes one. */
  function TargetAt(due: nat, now: nat): u32 {
    var left := if due <= now then 0 else (due - now) / SECOND;
    (if left < 1 then 1 else left) % MODULUS
  }

  /** A cached reply. The clock is read once to tell stale from fresh and once more to age. */
  function Reply(m: Msg, due: Option<nat>, now: nat, later: nat): Msg {
    if due.None? then m
    else if due.value <= now then SetAll(m, STALE_TTL)
    else AgeAll(m, TargetAt(due.value, later))
  }

  /** A stale reply, with all its records in their places: each may be kept for three seconds more, and
      the field of an OPT record that is not a TTL stays. Without a time to be due nothing changes. */
  lemma StaleReplyIsShort(m: Msg, due: Option<nat>, now: nat, later: nat)
    requires due.Some? ==> due.value <= now
    ensures var r := Reply(m, due, now, later);
      && |r.answer| == |m.answer| && |r.ns| == |m.ns| && |r.extra| == |m.extra|
      && (forall i :: 0 <= i < |m.answer| ==> r.answer[i] == if due.Some? then Short(m.answer[i]) else m.answer[i])
      && (forall i :: 0 <= i < |m.ns| ==> r.ns[i] == if due.Some? then Short(m.ns[i]) else m.ns[i])
      && (forall i :: 0 <= i < |m.extra| ==>
            r.extra[i] == if due.Some? && !m.extra[i].opt then Short(m.extra[i]) else m.extra[i])
  {
  }

  function Short(r: RR): RR { RR(3, r.opt, r.data) }

  /** The records a response is judged by: all but the OPT records of its extra section. */
  predicate Judged(m: Msg, r: RR) {
    r in m.answer || r in m.ns || (r in m.extra && !r.opt)
  }

  ghost predicate LeastTtl(m: Msg, t: u32) {
    (forall r :: Judged(m, r) ==> t <= r.ttl) && exists r :: Judged(m, r) && r.ttl == t
  }

  lemma WithoutMembers(rs: seq<RR>)
    ensures rs == [] || exists r :: r in rs
  {
    assert rs != [] ==> rs[0] in rs;
  }

  /** A response is fresh for its smallest TTL, but without answers for no less than 30 seconds. */
  lemma LifetimeIs(m: Msg)
    ensures if exists r :: Judged(m, r) then
              exists t: u32 :: LeastTtl(m, t) && Lifetime(m) == if m.answer == [] && t < 30 then 30 else t
            else Lifetime(m) == 30
  {
    var all := AllRecords(Kept(m));
    forall r ensures r in all <==> Judged(m, r) {
      WithoutOptHas(m.extra, r);
    }
    if r :| Judged(m, r) {
      assert r in all;
      MinIsLeast(all);
      assert LeastTtl(m, MinTtl(all)) by {
        var i :| 0 <= i < |all| && all[i].ttl == MinTtl(all);
        assert Judged(m, all[i]);
      }
    } else {
      WithoutMembers(all);
      WithoutMembers(m.answer);
    }
  }

  lemma MinOfParts(a: seq<RR>, b: seq<RR>, c: seq<RR>)
    ensures a != [] ==> MinTtl(a + b + c) <= MinTtl(a)
    ensures b != [] ==> MinTtl(a + b + c) <= MinTtl(b)
    ensures c != [] ==> MinTtl(a + b + c) <= MinTtl(c)
  {
    var all := a + b + c;
    if all != [] {
      MinIsLeast(all);
    }
    if a != [] {
      MinIsLeast(a);
      var i :| 0 <= i < |a| && a[i].ttl == MinTtl(a);
      assert all[i] == a[i];
    }
    if b != [] {
      MinIsLeast(b);
      var i :| 0 <= i < |b| && b[i].ttl == MinTtl(b);
      assert all[|a| + i] == b[i];
    }
    if c != [] {
      MinIsLeast(c);
      var i :| 0 <= i < |c| && c[i].ttl == MinTtl(c);
      assert all[|a| + |b| + i] == c[i];
    }
  }

  /** How long an answer has been stored when the clock is read to tell stale from fresh, and when
      it is read to age. */
  datatype Ages = Ages(judged: nat, sent: nat)

  /** The target is what is left of the lifetime in whole seconds, but one second in the last one. */
  predicate TargetFits(target: u32, seconds: u32, ages: Ages) {
    && 1 <= target <= seconds && ages.judged < seconds * SECOND
    && if ages.sent + SECOND <= seconds * SECOND
       then target * SECOND <= seconds * SECOND - ages.sent < (target + 1) * SECOND
       else target == 1
  }

  lemma TargetBounds(seconds: u32, stored: nat, now: nat, later: nat)
    requires stored <= now <= later && now < stored + seconds * SECOND && seconds > 0
    ensures TargetFits(TargetAt(stored + seconds * SECOND, later), seconds, Ages(now - stored, later - stored))
  {
  }

  /** A record of an answer that is fresh for `seconds`: at least one second is left to it, and at
      most what it had minus the time it was stored. Only in the last second of the answer is
      that rounded up, by less than a second of what it had when judged fresh. */
  predicate AgedRight(before: RR, after: RR, seconds: u32, ages: Ages) {
    && after == before.(ttl := after.ttl) && after.ttl >= 1
    && if ages.sent + SECOND <= seconds * SECOND then after.ttl * SECOND <= before.ttl * SECOND - ages.sent
       else (after.ttl - 1) * SECOND < before.ttl * SECOND - ages.judged
  }

  /** A section of a fresh reply. */
  predicate SectionAged(before: seq<RR>, after: seq<RR>, seconds: u32, ages: Ages, target: u32) {
    && |after| == |before|
    && (forall i :: 0 <= i < |before| ==> AgedRight(before[i], after[i], seconds, ages))
    && (forall i, j :: 0 <= i < |before| && 0 <= j < |before| ==>
          after[i].ttl - after[j].ttl == before[i].ttl - before[j].ttl)
    && (before != [] ==> MinTtl(after) == target)
  }

  lemma SectionAgesTo(rs: seq<RR>, seconds: u32, target: u32, ages: Ages)
    requires TargetFits(target, seconds, ages) && (rs != [] ==> seconds <= MinTtl(rs))
    ensures SectionAged(rs, Aged(rs, target), seconds, ages, target)
  {
    if rs != [] {
      AgedDown(rs, target);
      LoweredAges(rs, Aged(rs, target), target, seconds, ages);
    }
  }

  lemma LoweredAges(rs: seq<RR>, out: seq<RR>, target: u32, seconds: u32, ages: Ages)
    requires rs != [] && TargetFits(target, seconds, ages) && seconds <= MinTtl(rs)
    requires Lowered(rs, out, MinTtl(rs) - target) && MinTtl(out) == target
    ensures SectionAged(rs, out, seconds, ages, target)
  {
    MinIsLeast(rs);
    forall i | 0 <= i < |rs| ensures AgedRight(rs[i], out[i], seconds, ages) {
      RecordAges(rs[i], out[i], MinTtl(rs), target, seconds, ages);
    }
  }

  lemma RecordAges(before: RR, after: RR, min: u32, target: u32, seconds: u32, ages: Ages)
    requires TargetFits(target, seconds, ages) && seconds <= min <= before.ttl
    requires after == before.(ttl := after.ttl) && after.ttl + (min - target) == before.ttl
    ensures AgedRight(before, after, seconds, ages)
  {
  }

  /** Two messages with the same records, section by section, the second aged right. */
  predicate MessageAged(before: Msg, after: Msg, seconds: u32, ages: Ages, target: u32) {
    && SectionAged(before.answer, after.answer, seconds, ages, target)
    && SectionAged(before.ns, after.ns, seconds, ages, target)
    && SectionAged(before.extra, after.extra, seconds, ages, target)
  }

  lemma MessageAges(m: Msg, r: Msg, seconds: u32, target: u32, ages: Ages)
    requires TargetFits(target, seconds, ages) && seconds == MinTtl(AllRecords(m)) && r == AgeAll(m, target)
    ensures MessageAged(m, r, seconds, ages, target)
  {
    MinOfParts(m.answer, m.ns, m.extra);
    SectionAgesTo(m.answer, seconds, target, ages);
    SectionAgesTo(m.ns, seconds, target, ages);
    SectionAgesTo(m.extra, seconds, target, ages);
  }

  /** Every fresh reply to a question that was answered, or whose own TTLs set its lifetime: aged
      right in all three sections, whose smallest TTLs are the whole seconds that are left. */
  lemma FreshReplyIsAged(m: Msg, stored: nat, now: nat, later: nat, due: nat)
    requires !Floored(m) && stored <= now <= later && now < due == stored + Lifetime(m) * SECOND
    ensures MessageAged(Kept(m), Reply(Kept(m), Some(due), now, later), Lifetime(m),
                        Ages(now - stored, later - stored), TargetAt(due, later))
    ensures TargetFits(TargetAt(due, later), Lifetime(m), Ages(now - stored, later - stored))
  {
    var ages := Ages(now - stored, later - stored);
    TargetBounds(Lifetime(m), stored, now, later);
    MessageAges(Kept(m), Reply(Kept(m), Some(due), now, later), Lifetime(m), TargetAt(due, later), ages);
  }

  /** When a section is sent as it was stored: it is empty, its smallest TTL is the target, or that
      TTL is below the target and no subtraction wraps. */
  predicate Stands(rs: seq<RR>, target: u32) {
    rs == [] || MinTtl(rs) == target || (MinTtl(rs) < target && AllInRange(rs, target - MinTtl(rs)))
  }

  lemma StandsIff(rs: seq<RR>, target: u32)
    requires target > 0
    ensures Aged(rs, target) == rs <==> Stands(rs, target)
  {
    if rs != [] {
      if MinTtl(rs) < target {
        AgedUp(rs, target);
      } else {
        AgedDown(rs, target);
        if MinTtl(rs) == target {
          assert forall i :: 0 <= i < |rs| ==> Aged(rs, target)[i] == rs[i];
        }
      }
    }
  }

  /** The floor is the exception to ageing, since only under it can more seconds be left than a
      section's smallest TTL; a section of such a reply is then sent as it was stored, and
      exactly then or when it has nothing to lose. */
  lemma FlooredReplyStands(m: Msg, stored: nat, now: nat, later: nat, due: nat)
    requires Floored(m) && stored <= now <= later && now < due == stored + Lifetime(m) * SECOND
    ensures var r := Reply(Kept(m), Some(due), now, later);
      && r.answer == []
      && (r.ns == m.ns <==> Stands(m.ns, TargetAt(due, later)))
      && (r.extra == WithoutOpt(m.extra) <==> Stands(WithoutOpt(m.extra), TargetAt(due, later)))
  {
    TargetBounds(Lifetime(m), stored, now, later);
    StandsIff(m.ns, TargetAt(due, later));
    StandsIff(WithoutOpt(m.extra), TargetAt(due, later));
  }

  // ---------------------------------------------------------------- the methods

  method MinimalTtl(a: array<RR>) returns (min: u32)
    ensures min == MinTtl(a[..])
  {
    if a.Length == 0 {
      return 0;
    }
    min := a[0].ttl;
    assert a[..1] == [a[0]];
    var i := 1;
    while i < a.Length
      invariant 1 <= i <= a.Length && min == MinTtl(a[..i])
    {
      assert a[..i + 1][..i] == a[..i];
      if a[i].ttl < min {
        min := a[i].ttl;
      }
      i := i + 1;
    }
    assert a[..i] == a[..];
  }

  /** updateTTL: rewrites the TTLs of a section where they stand. */
  method UpdateTtl(a: array<RR>, target: u32)
    modifies a
    ensures a[..] == Aged(old(a[..]), target)
  {
    if a.Length == 0 {
      return;
    }
    var min := MinimalTtl(a);
    var delta := Sub(min, target);
    ghost var was := a[..];
    var i := 0;
    while i < a.Length
      invariant 0 <= i <= a.Length
      invariant forall k :: 0 <= k < i ==> a[k] == was[k].(ttl := AgedTtl(was[k].ttl, min, target))
      invariant forall k :: i <= k < a.Length ==> a[k] == was[k]
    {
      a[i] := a[i].(ttl := Clamp(Sub(a[i].ttl, delta), 1, a[i].ttl));
      i := i + 1;
    }
  }

  /** One section of setMsgTTL; the TTL of an OPT record is not one (section 6.1.3 of RFC 6891). */
  method SetTtl(a: array<RR>, ttl: u32, sparing: bool)
    modifies a
    ensures a[..] == Overwritten(old(a[..]), ttl, sparing)
  {
    ghost var was := a[..];
    var i := 0;
    while i < a.Length
      invariant 0 <= i <= a.Length
      invariant forall k :: 0 <= k < i ==> a[k] == if sparing && was[k].opt then was[k] else was[k].(ttl := ttl)
      invariant forall k :: i <= k < a.Length ==> a[k] == was[k]
    {
      if !(sparing && a[i].opt) {
        a[i] := a[i].(ttl := ttl);
      }
      i := i + 1;
    }
  }

  method Copy(a: array<RR>) returns (b: array<RR>)
    ensures fresh(b) && b[..] == a[..]
  {
    b := new RR[a.Length](i requires 0 <= i < a.Length reads a => a[i]);
  }

  /** cachedReply: works on copies only, so the cached sections stay as they are. */
  method CachedReply(answer: array<RR>, ns: array<RR>, extra: array<RR>, due: Option<nat>, now: nat, later: nat)
    returns (a: array<RR>, n: array<RR>, e: array<RR>)
    ensures fresh(a) && fresh(n) && fresh(e)
    ensures Msg(a[..], n[..], e[..]) == Reply(Msg(answer[..], ns[..], extra[..]), due, now, later)
  {
    a := Copy(answer);
    n := Copy(ns);
    e := Copy(extra);
    if due.Some? {
      if due.value <= now {
        SetTtl(a, STALE_TTL, false);
        SetTtl(n, STALE_TTL, false);
        SetTtl(e, STALE_TTL, true);
      } else {
        var target := TargetAt(due.value, later);
        UpdateTtl(a, target);
        UpdateTtl(n, target);
        UpdateTtl(e, target);
      }
    }
  }
}
