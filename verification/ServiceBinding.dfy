/** Rewriting of SVCB and HTTPS address hints to fake-IP addresses (dns/fakeip_svcb.go), one
    record's parameters at a time. Keys are those of section 14.3.2 of RFC 9460. The fake-IP
    pools are lookup functions: a pool always answers a name the same way. */
module ServiceBinding {
  import opened NetTypes

  const MANDATORY := 0
  const IPV4HINT := 4
  const IPV6HINT := 6

  /** `net.IP.Equal`: an IPv4 address equals its IPv6-mapped form. */
  predicate SameIp(a: NetIp, b: NetIp) {
    || a == b
    || (|a| == 4 && MapsV4(b) && b[12..] == a)
    || (|b| == 4 && MapsV4(a) && a[12..] == b)
  }

  /** A parameter as decoded. `Local` is an opaque value, which may carry any key at all. */
  datatype Param =
    | Hint4(ips: seq<NetIp>)
    | Hint6(ips: seq<NetIp>)
    | Mandatory(codes: seq<nat>)
    | Local(key: nat, data: seq<byte>)
  {
    function Key(): nat {
      match this
      case Hint4(_) => IPV4HINT
      case Hint6(_) => IPV6HINT
      case Mandatory(_) => MANDATORY
      case Local(k, _) => k
    }
  }

  datatype Pool = Pool(v4: bool, lookup: string -> Option<NetIp>)

  /** What becomes of one family's hints: no hint to look at, all removed, or replaced. */
  datatype Plan = Untouched | Removed | Replaced(ip: NetIp)

  predicate Allowed(pool: Option<Pool>, v4: bool, target: string) {
    target != "" && pool.Some? && pool.value.v4 == v4
  }

  predicate Malformed(params: seq<Param>, key: nat) {
    exists i :: 0 <= i < |params| && params[i].Key() == key && params[i].Local?
  }

  predicate Present(params: seq<Param>, key: nat) {
    exists i :: 0 <= i < |params| && params[i].Key() == key
  }

  function PlanFor(pool: Option<Pool>, v4: bool, target: string, params: seq<Param>): Plan {
    var key := if v4 then IPV4HINT else IPV6HINT;
    if !Allowed(pool, v4, target) || Malformed(params, key) then Removed
    else if !Present(params, key) then Untouched
    else match pool.value.lookup(target) case None => Removed case Some(ip) => Replaced(ip)
  }

  predicate Drops(p4: Plan, p6: Plan, code: nat) {
    (code == IPV4HINT && p4.Removed?) || (code == IPV6HINT && p6.Removed?)
  }

  function KeptCodes(codes: seq<nat>, p4: Plan, p6: Plan): seq<nat> {
    if codes == [] then []
    else
      var c := codes[|codes| - 1];
      KeptCodes(codes[..|codes| - 1], p4, p6) + if Drops(p4, p6, c) then [] else [c]
  }

  lemma {:induction false} KeptHas(codes: seq<nat>, p4: Plan, p6: Plan, c: nat)
    ensures c in KeptCodes(codes, p4, p6) <==> c in codes && !Drops(p4, p6, c)
  {
    if codes != [] {
      KeptHas(codes[..|codes| - 1], p4, p6, c);
    }
  }

  lemma {:induction false} AllKept(codes: seq<nat>, p4: Plan, p6: Plan)
    requires forall i :: 0 <= i < |codes| ==> !Drops(p4, p6, codes[i])
    ensures KeptCodes(codes, p4, p6) == codes
  {
    if codes != [] {
      var n := |codes| - 1;
      AllKept(codes[..n], p4, p6);
      assert codes == codes[..n] + [codes[n]];
    }
  }

  function Single(ips: seq<NetIp>, ip: NetIp): seq<NetIp> {
    if |ips| == 1 && SameIp(ips[0], ip) then ips else [ip]
  }

  /** One parameter's fate. */
  function Fate(v: Param, p4: Plan, p6: Plan): Option<Param> {
    match v
    case Hint4(ips) =>
      (match p4 case Removed => None case Untouched => Some(v) case Replaced(ip) => Some(Hint4(Single(ips, ip))))
    case Hint6(ips) =>
      (match p6 case Removed => None case Untouched => Some(v) case Replaced(ip) => Some(Hint6(Single(ips, ip))))
    case Mandatory(codes) =>
      var kept := KeptCodes(codes, p4, p6);
      if kept == [] then None else Some(Mandatory(kept))
    case Local(key, _) => if key == MANDATORY || Drops(p4, p6, key) then None else Some(v)
  }

  function Fates(params: seq<Param>, p4: Plan, p6: Plan): seq<Option<Param>> {
    seq(|params|, i requires 0 <= i < |params| => Fate(params[i], p4, p6))
  }

  /** What is left, in order. */
  function Remaining(fates: seq<Option<Param>>): (r: seq<Param>)
    ensures |r| <= |fates|
  {
    if fates == [] then []
    else Remaining(fates[..|fates| - 1]) + match fates[|fates| - 1] case Some(v) => [v] case None => []
  }

  function Rewritten(params: seq<Param>, p4: Plan, p6: Plan): seq<Param> {
    Remaining(Fates(params, p4, p6))
  }

  /** The whole rewrite of a ServiceMode record's parameters. */
  function Rewrite(target: string, params: seq<Param>, pool: Option<Pool>, pool6: Option<Pool>): seq<Param> {
    Rewritten(params, PlanFor(pool, true, target, params), PlanFor(pool6, false, target, params))
  }

  // ---------------------------------------------------------------- what the rewrite promises

  lemma {:induction false} LeftHas(fates: seq<Option<Param>>, w: Param)
    ensures w in Remaining(fates) <==> Some(w) in fates
  {
    if fates != [] {
      LeftHas(fates[..|fates| - 1], w);
    }
  }

  lemma RewrittenHas(params: seq<Param>, p4: Plan, p6: Plan, w: Param)
    ensures w in Rewritten(params, p4, p6) <==> exists i :: 0 <= i < |params| && Fate(params[i], p4, p6) == Some(w)
  {
    var fates := Fates(params, p4, p6);
    LeftHas(fates, w);
    assert forall i :: 0 <= i < |params| ==> fates[i] == Fate(params[i], p4, p6);
  }

  lemma SplitAtLast(a: seq<Param>, l: seq<Param>, front: seq<Param>, last: Param)
    requires |a| <= |front| && |l| <= 1
    ensures a + l == front + [last] <==> a == front && l == [last]
  {
    if a + l == front + [last] {
      assert |a + l| == |front| + 1;
      assert (a + l)[..|a|] == a && (front + [last])[..|front|] == front;
      assert (a + l)[|a|] == l[0];
    }
  }

  lemma {:induction false} LeftIsAll(fates: seq<Option<Param>>, params: seq<Param>)
    requires |fates| == |params|
    ensures Remaining(fates) == params <==> forall i :: 0 <= i < |params| ==> fates[i] == Some(params[i])
  {
    if params != [] {
      var n := |params| - 1;
      LeftIsAll(fates[..n], params[..n]);
      assert params == params[..n] + [params[n]];
      var l := match fates[n] case Some(v) => [v] case None => [];
      SplitAtLast(Remaining(fates[..n]), l, params[..n], params[n]);
      assert l == [params[n]] <==> fates[n] == Some(params[n]) by {
        if l == [params[n]] {
          assert l[0] == params[n];
        }
      }
    }
  }

  /** Unchanged means identical, and the other way round: the rewrite leaves the list as it was
      exactly when it leaves every parameter as it was. */
  lemma SameIffAllSame(params: seq<Param>, p4: Plan, p6: Plan)
    ensures Rewritten(params, p4, p6) == params <==>
      forall i :: 0 <= i < |params| ==> Fate(params[i], p4, p6) == Some(params[i])
  {
    var fates := Fates(params, p4, p6);
    LeftIsAll(fates, params);
    assert forall i :: 0 <= i < |params| ==> fates[i] == Fate(params[i], p4, p6);
  }

  /** Every hint that is left is the pool's address for the target. */
  predicate Owned(target: string, w: Param, pool: Option<Pool>, pool6: Option<Pool>) {
    && (w.Key() == IPV4HINT ==> w.Hint4? && Allowed(pool, true, target) && Holds(w.ips, pool.value.lookup(target)))
    && (w.Key() == IPV6HINT ==> w.Hint6? && Allowed(pool6, false, target) && Holds(w.ips, pool6.value.lookup(target)))
  }

  predicate Holds(ips: seq<NetIp>, ip: Option<NetIp>) {
    |ips| == 1 && ip.Some? && SameIp(ips[0], ip.value)
  }

  lemma HintsAreOwned(target: string, params: seq<Param>, pool: Option<Pool>, pool6: Option<Pool>, w: Param)
    requires w in Rewrite(target, params, pool, pool6)
    ensures Owned(target, w, pool, pool6)
  {
    var p4, p6 := PlanFor(pool, true, target, params), PlanFor(pool6, false, target, params);
    RewrittenHas(params, p4, p6, w);
    var i :| 0 <= i < |params| && Fate(params[i], p4, p6) == Some(w);
    assert params[i].Key() == w.Key();
  }

  /** A mandatory list that named only keys that are present still does (section 8 of RFC 9460). */
  predicate Consistent(params: seq<Param>) {
    forall i, c :: 0 <= i < |params| && params[i].Mandatory? && c in params[i].codes ==> Present(params, c)
  }

  /** A key that is not removed and was present stays present. */
  lemma KeyStays(params: seq<Param>, p4: Plan, p6: Plan, code: nat)
    requires Present(params, code) && !Drops(p4, p6, code) && code != MANDATORY
    ensures Present(Rewritten(params, p4, p6), code)
  {
    var i :| 0 <= i < |params| && params[i].Key() == code;
    var w := Fate(params[i], p4, p6).value;
    RewrittenHas(params, p4, p6, w);
    var j :| 0 <= j < |Rewritten(params, p4, p6)| && Rewritten(params, p4, p6)[j] == w;
  }

  lemma CodeStays(params: seq<Param>, p4: Plan, p6: Plan, w: Param, c: nat)
    requires Consistent(params) && w in Rewritten(params, p4, p6) && w.Mandatory? && c in w.codes
    ensures Present(Rewritten(params, p4, p6), c)
  {
    RewrittenHas(params, p4, p6, w);
    var j :| 0 <= j < |params| && Fate(params[j], p4, p6) == Some(w);
    KeptHas(params[j].codes, p4, p6, c);
    if c == MANDATORY {
      assert w.Key() == c;
    } else {
      KeyStays(params, p4, p6, c);
    }
  }

  lemma MandatoryStaysConsistent(target: string, params: seq<Param>, pool: Option<Pool>, pool6: Option<Pool>)
    requires Consistent(params)
    ensures Consistent(Rewrite(target, params, pool, pool6))
  {
    var p4, p6 := PlanFor(pool, true, target, params), PlanFor(pool6, false, target, params);
    var r := Rewritten(params, p4, p6);
    forall i, c | 0 <= i < |r| && r[i].Mandatory? && c in r[i].codes ensures Present(r, c) {
      CodeStays(params, p4, p6, r[i], c);
    }
  }

  /** Nothing but hints and mandatory lists is ever touched. */
  lemma OthersStay(params: seq<Param>, p4: Plan, p6: Plan, v: Param)
    requires v.Local? && v.key !in {MANDATORY, IPV4HINT, IPV6HINT}
    ensures v in Rewritten(params, p4, p6) <==> v in params
  {
    RewrittenHas(params, p4, p6, v);
  }

  // ---------------------------------------------------------------- a second pass

  /** The plan of a second pass removes nothing anew, and concerns hints only as the first did. */
  lemma SecondPlan(target: string, params: seq<Param>, pool: Option<Pool>, pool6: Option<Pool>, v4: bool)
    ensures var key := if v4 then IPV4HINT else IPV6HINT; var p := if v4 then pool else pool6;
      var once := Rewrite(target, params, pool, pool6);
      && (Present(once, key) ==> PlanFor(p, v4, target, once) == PlanFor(p, v4, target, params))
      && (PlanFor(p, v4, target, once).Removed? ==> PlanFor(p, v4, target, params).Removed?)
  {
    var key := if v4 then IPV4HINT else IPV6HINT;
    var once := Rewrite(target, params, pool, pool6);
    forall i | 0 <= i < |once| ensures Owned(target, once[i], pool, pool6) {
      HintsAreOwned(target, params, pool, pool6, once[i]);
    }
    if Present(once, key) {
      var i :| 0 <= i < |once| && once[i].Key() == key;
      assert once[i] in once;
      var p4, p6 := PlanFor(pool, true, target, params), PlanFor(pool6, false, target, params);
      RewrittenHas(params, p4, p6, once[i]);
      var j :| 0 <= j < |params| && Fate(params[j], p4, p6) == Some(once[i]);
      assert params[j].Key() == key;
    }
  }

  /** A parameter that came out of the first pass goes through the second as it is. */
  lemma FateSettles(v: Param, p4: Plan, p6: Plan, q4: Plan, q6: Plan)
    requires Fate(v, p4, p6).Some? && (q4.Removed? ==> p4.Removed?) && (q6.Removed? ==> p6.Removed?)
    requires v.Hint4? ==> q4 == p4
    requires v.Hint6? ==> q6 == p6
    ensures var w := Fate(v, p4, p6).value; Fate(w, q4, q6) == Some(w)
  {
    if v.Mandatory? {
      var kept := KeptCodes(v.codes, p4, p6);
      forall i | 0 <= i < |kept| ensures !Drops(q4, q6, kept[i]) {
        KeptHas(v.codes, p4, p6, kept[i]);
      }
      AllKept(kept, q4, q6);
    }
  }

  lemma SecondPassChangesNothing(target: string, params: seq<Param>, pool: Option<Pool>, pool6: Option<Pool>)
    ensures var once := Rewrite(target, params, pool, pool6); Rewrite(target, once, pool, pool6) == once
  {
    var once := Rewrite(target, params, pool, pool6);
    var p4, p6 := PlanFor(pool, true, target, params), PlanFor(pool6, false, target, params);
    var q4, q6 := PlanFor(pool, true, target, once), PlanFor(pool6, false, target, once);
    SecondPlan(target, params, pool, pool6, true);
    SecondPlan(target, params, pool, pool6, false);
    forall i | 0 <= i < |once| ensures Fate(once[i], q4, q6) == Some(once[i]) {
      RewrittenHas(params, p4, p6, once[i]);
      var j :| 0 <= j < |params| && Fate(params[j], p4, p6) == Some(once[i]);
      FateSettles(params[j], p4, p6, q4, q6);
    }
    SameIffAllSame(once, q4, q6);
  }

  /** A family's hints come through exactly when there are some, their pool can serve the target
      and none of them is malformed. */
  lemma HintsSurviveIff(target: string, params: seq<Param>, pool: Option<Pool>, pool6: Option<Pool>, v4: bool)
    ensures var key := if v4 then IPV4HINT else IPV6HINT; var p := if v4 then pool else pool6;
      Present(Rewrite(target, params, pool, pool6), key) <==>
        Present(params, key) && !Malformed(params, key) && Allowed(p, v4, target) && p.value.lookup(target).Some?
  {
    var key := if v4 then IPV4HINT else IPV6HINT;
    var once := Rewrite(target, params, pool, pool6);
    var p4, p6 := PlanFor(pool, true, target, params), PlanFor(pool6, false, target, params);
    if Present(once, key) {
      var i :| 0 <= i < |once| && once[i].Key() == key;
      RewrittenHas(params, p4, p6, once[i]);
      var j :| 0 <= j < |params| && Fate(params[j], p4, p6) == Some(once[i]);
      assert params[j].Key() == key;
    } else if Present(params, key) && !Drops(p4, p6, key) {
      KeyStays(params, p4, p6, key);
    }
  }

  // ---------------------------------------------------------------- place by place

  /** A family of hints that cannot be served: no pool for it, a malformed hint, or hints whose name
      the pool has no address for. */
  predicate Lost(target: string, params: seq<Param>, pool: Option<Pool>, v4: bool) {
    var key := if v4 then 4 else 6;
    || target == "" || pool.None? || pool.value.v4 != v4
    || (exists i :: 0 <= i < |params| && params[i].Local? && params[i].key == key)
    || ((exists i :: 0 <= i < |params| && params[i].Key() == key) && pool.value.lookup(target).None?)
  }

  predicate LostKey(target: string, params: seq<Param>, pool: Option<Pool>, pool6: Option<Pool>, key: nat) {
    (key == 4 && Lost(target, params, pool, true)) || (key == 6 && Lost(target, params, pool6, false))
  }

  /** A hint that already is the pool's address stays as it is, any other becomes it. */
  predicate Serves(ips: seq<NetIp>, now: seq<NetIp>, ip: Option<NetIp>) {
    ip.Some? && if |ips| == 1 && SameIp(ips[0], ip.value) then now == ips else now == [ip.value]
  }

  /** The codes that are not lost, in order. */
  function Unlost(codes: seq<nat>, lost4: bool, lost6: bool): seq<nat> {
    if codes == [] then []
    else
      (if (codes[0] == 4 && lost4) || (codes[0] == 6 && lost6) then [] else [codes[0]])
      + Unlost(codes[1..], lost4, lost6)
  }

  /** What a parameter becomes, or that it vanishes. */
  predicate Becomes(
    target: string, params: seq<Param>, pool: Option<Pool>, pool6: Option<Pool>, v: Param, w: Option<Param>)
  {
    match v
    case Hint4(ips) =>
      if Lost(target, params, pool, true) then w.None?
      else pool.Some? && w.Some? && w.value.Hint4? && Serves(ips, w.value.ips, pool.value.lookup(target))
    case Hint6(ips) =>
      if Lost(target, params, pool6, false) then w.None?
      else pool6.Some? && w.Some? && w.value.Hint6? && Serves(ips, w.value.ips, pool6.value.lookup(target))
    case Mandatory(codes) =>
      var left := Unlost(codes, Lost(target, params, pool, true), Lost(target, params, pool6, false));
      w == if left == [] then None else Some(Mandatory(left))
    case Local(key, _) => w == if key == 0 || LostKey(target, params, pool, pool6, key) then None else Some(v)
  }

  lemma {:induction false} UnlostMore(codes: seq<nat>, c: nat, lost4: bool, lost6: bool)
    ensures Unlost(codes + [c], lost4, lost6) ==
      Unlost(codes, lost4, lost6) + if (c == 4 && lost4) || (c == 6 && lost6) then [] else [c]
  {
    if codes == [] {
      assert [] + [c] == [c];
    } else {
      UnlostMore(codes[1..], c, lost4, lost6);
      assert (codes + [c])[1..] == codes[1..] + [c];
      JoinCodes(if (codes[0] == 4 && lost4) || (codes[0] == 6 && lost6) then [] else [codes[0]],
                Unlost(codes[1..], lost4, lost6), if (c == 4 && lost4) || (c == 6 && lost6) then [] else [c]);
    }
  }

  lemma JoinCodes(a: seq<nat>, b: seq<nat>, c: seq<nat>)
    ensures a + b + c == a + (b + c)
  {
  }

  lemma {:induction false} KeptIsUnlost(codes: seq<nat>, p4: Plan, p6: Plan)
    ensures KeptCodes(codes, p4, p6) == Unlost(codes, p4.Removed?, p6.Removed?)
  {
    if codes != [] {
      var n := |codes| - 1;
      KeptIsUnlost(codes[..n], p4, p6);
      UnlostMore(codes[..n], codes[n], p4.Removed?, p6.Removed?);
      assert codes == codes[..n] + [codes[n]];
    }
  }

  lemma PlanIsLost(target: string, params: seq<Param>, pool: Option<Pool>, v4: bool)
    ensures PlanFor(pool, v4, target, params).Removed? <==> Lost(target, params, pool, v4)
  {
    var key := if v4 then IPV4HINT else IPV6HINT;
    assert Malformed(params, key) <==> exists i :: 0 <= i < |params| && params[i].Local? && params[i].key == key;
  }

  lemma FateBecomes(target: string, params: seq<Param>, pool: Option<Pool>, pool6: Option<Pool>, i: nat)
    requires i < |params|
    ensures Becomes(target, params, pool, pool6, params[i],
                    Fate(params[i], PlanFor(pool, true, target, params), PlanFor(pool6, false, target, params)))
  {
    var p4, p6 := PlanFor(pool, true, target, params), PlanFor(pool6, false, target, params);
    PlanIsLost(target, params, pool, true);
    PlanIsLost(target, params, pool6, false);
    match params[i]
    case Mandatory(codes) => KeptIsUnlost(codes, p4, p6);
    case Hint4(_) => assert Present(params, IPV4HINT);
    case Hint6(_) => assert Present(params, IPV6HINT);
    case Local(_, _) =>
  }

  /** Each parameter of the result comes from its own place, the places keep their order, and a place
      is left out exactly when its parameter vanishes. */
  ghost predicate PlacesKept(target: string, params: seq<Param>, pool: Option<Pool>, pool6: Option<Pool>,
                             result: seq<Param>, at: seq<nat>)
  {
    && |at| == |result| && (forall i, j :: 0 <= i < j < |at| ==> at[i] < at[j])
    && (forall i :: 0 <= i < |at| ==>
          at[i] < |params| && Becomes(target, params, pool, pool6, params[at[i]], Some(result[i])))
    && forall k :: 0 <= k < |params| && k !in at ==> Becomes(target, params, pool, pool6, params[k], None)
  }

  /** The rewrite, place by place. */
  lemma RewriteIs(target: string, params: seq<Param>, pool: Option<Pool>, pool6: Option<Pool>)
    ensures exists at :: PlacesKept(target, params, pool, pool6, Rewrite(target, params, pool, pool6), at)
  {
    var p4, p6 := PlanFor(pool, true, target, params), PlanFor(pool6, false, target, params);
    var fates := Fates(params, p4, p6);
    var at := PlacesOf(fates);
    forall k | 0 <= k < |params| ensures Becomes(target, params, pool, pool6, params[k], fates[k]) {
      FateBecomes(target, params, pool, pool6, k);
    }
    assert Rewrite(target, params, pool, pool6) == Remaining(fates);
    PlacesBecome(target, params, pool, pool6, fates, at);
  }

  lemma PlacesBecome(target: string, params: seq<Param>, pool: Option<Pool>, pool6: Option<Pool>,
                     fates: seq<Option<Param>>, at: seq<nat>)
    requires |fates| == |params| && PlacesIn(fates, Remaining(fates), at)
    requires forall k :: 0 <= k < |params| ==> Becomes(target, params, pool, pool6, params[k], fates[k])
    ensures PlacesKept(target, params, pool, pool6, Remaining(fates), at)
  {
  }

  /** The places of what is left. */
  ghost predicate PlacesIn(fates: seq<Option<Param>>, left: seq<Param>, at: seq<nat>) {
    && |at| == |left| && (forall i, j :: 0 <= i < j < |at| ==> at[i] < at[j])
    && (forall i :: 0 <= i < |at| ==> at[i] < |fates| && fates[at[i]] == Some(left[i]))
    && forall k :: 0 <= k < |fates| && k !in at ==> fates[k].None?
  }

  lemma OnePlaceMore(fates: seq<Option<Param>>, left: seq<Param>, at: seq<nat>)
    requires fates != [] && PlacesIn(fates[..|fates| - 1], left, at)
    ensures var n := |fates| - 1;
      match fates[n] case None => PlacesIn(fates, left, at) case Some(v) => PlacesIn(fates, left + [v], at + [n])
  {
    var n := |fates| - 1;
    assert forall k :: 0 <= k < n ==> fates[..n][k] == fates[k];
    assert forall k :: k in at ==> k in at + [n];
    assert n in at + [n];
  }

  lemma {:induction false} PlacesOf(fates: seq<Option<Param>>) returns (at: seq<nat>)
    ensures PlacesIn(fates, Remaining(fates), at)
  {
    if fates == [] {
      at := [];
    } else {
      var n := |fates| - 1;
      at := PlacesOf(fates[..n]);
      OnePlaceMore(fates, Remaining(fates[..n]), at);
      if fates[n].Some? {
        at := at + [n];
      } else {
        assert Remaining(fates[..n]) + [] == Remaining(fates[..n]);
      }
    }
  }

  // ---------------------------------------------------------------- the loops

  /** Marks a family whose hints have an unexpected representation. */
  method FindMalformed(params: seq<Param>, out4: bool, out6: bool) returns (removed4: bool, removed6: bool)
    ensures removed4 == (out4 || Malformed(params, IPV4HINT)) && removed6 == (out6 || Malformed(params, IPV6HINT))
  {
    removed4, removed6 := out4, out6;
    var i := 0;
    while i < |params|
      invariant 0 <= i <= |params|
      invariant removed4 == (out4 || Malformed(params[..i], IPV4HINT))
      invariant removed6 == (out6 || Malformed(params[..i], IPV6HINT))
    {
      assert params[..i + 1] == params[..i] + [params[i]];
      assert forall k :: 0 <= k < i ==> params[..i + 1][k] == params[..i][k];
      if params[i].Key() == IPV4HINT {
        if !params[i].Hint4? {
          assert params[..i + 1][i].Local?;
          removed4 := true;
        }
      } else if params[i].Key() == IPV6HINT {
        if !params[i].Hint6? {
          assert params[..i + 1][i].Local?;
          removed6 := true;
        }
      }
      i := i + 1;
    }
    assert params[..i] == params;
  }

  /** One family's lookup: none when there is no hint, one otherwise. */
  method LookUp(target: string, params: seq<Param>, pool: Option<Pool>, v4: bool, out: bool)
    returns (removed: bool, fake: Option<NetIp>)
    requires out == (!Allowed(pool, v4, target) || Malformed(params, if v4 then IPV4HINT else IPV6HINT))
    ensures match PlanFor(pool, v4, target, params)
            case Untouched => !removed && fake == None
            case Removed => removed
            case Replaced(ip) => !removed && fake == Some(ip)
  {
    var key := if v4 then IPV4HINT else IPV6HINT;
    removed, fake := out, None;
    var i := 0;
    while i < |params|
      invariant 0 <= i <= |params|
      invariant out ==> removed
      invariant !out && !Present(params[..i], key) ==> !removed && fake == None
      invariant !out && Present(params[..i], key) ==> fake == pool.value.lookup(target) && removed == fake.None?
    {
      assert params[..i + 1] == params[..i] + [params[i]];
      assert forall k :: 0 <= k < i ==> params[..i + 1][k] == params[..i][k];
      if params[i].Key() == key {
        assert params[..i + 1][i].Key() == key;
        if !removed && fake == None {
          fake := pool.value.lookup(target);
          removed := fake.None?;
        }
      }
      i := i + 1;
    }
    assert params[..i] == params;
  }

  method KeepCodes(codes: seq<nat>, removed4: bool, removed6: bool, ghost p4: Plan, ghost p6: Plan)
    returns (kept: seq<nat>)
    requires removed4 == p4.Removed? && removed6 == p6.Removed?
    ensures kept == KeptCodes(codes, p4, p6)
  {
    kept := [];
    var i := 0;
    while i < |codes|
      invariant 0 <= i <= |codes| && kept == KeptCodes(codes[..i], p4, p6)
    {
      assert codes[..i + 1][..i] == codes[..i];
      if !((codes[i] == IPV4HINT && removed4) || (codes[i] == IPV6HINT && removed6)) {
        kept := kept + [codes[i]];
      }
      i := i + 1;
    }
    assert codes[..i] == codes;
  }

  /** What one pass of the last loop does with a parameter. */
  method RewriteParam(v: Param, removed4: bool, removed6: bool, fake4: Option<NetIp>, fake6: Option<NetIp>,
                      ghost p4: Plan, ghost p6: Plan) returns (w: Option<Param>, changed: bool)
    requires removed4 == p4.Removed? && removed6 == p6.Removed?
    requires v.Key() == IPV4HINT && !removed4 ==> v.Hint4? && fake4.Some? && p4 == Replaced(fake4.value)
    requires v.Key() == IPV6HINT && !removed6 ==> v.Hint6? && fake6.Some? && p6 == Replaced(fake6.value)
    ensures w == Fate(v, p4, p6) && changed == (w != Some(v))
  {
    var key := v.Key();
    if key == IPV4HINT {
      if removed4 {
        return None, true;
      }
      if |v.ips| == 1 && SameIp(v.ips[0], fake4.value) {
        return Some(v), false;
      }
      return Some(Hint4([fake4.value])), true;
    }
    if key == IPV6HINT {
      if removed6 {
        return None, true;
      }
      if |v.ips| == 1 && SameIp(v.ips[0], fake6.value) {
        return Some(v), false;
      }
      return Some(Hint6([fake6.value])), true;
    }
    if key == MANDATORY {
      if !v.Mandatory? {
        return None, true;
      }
      var codes := KeepCodes(v.codes, removed4, removed6, p4, p6);
      if |codes| == 0 {
        return None, true;
      }
      if |codes| == |v.codes| {
        KeptLength(v.codes, p4, p6);
        return Some(v), false;
      }
      return Some(Mandatory(codes)), true;
    }
    return Some(v), false;
  }

  lemma {:induction false} KeptLength(codes: seq<nat>, p4: Plan, p6: Plan)
    ensures |KeptCodes(codes, p4, p6)| <= |codes|
    ensures |KeptCodes(codes, p4, p6)| == |codes| ==> KeptCodes(codes, p4, p6) == codes
  {
    if codes != [] {
      var n := |codes| - 1;
      KeptLength(codes[..n], p4, p6);
      assert codes == codes[..n] + [codes[n]];
    }
  }

  /** rewriteFakeIPSVCBValues: computes the rewrite, and reports a change exactly when there is one. */
  method RewriteParams(target: string, params: seq<Param>, pool: Option<Pool>, pool6: Option<Pool>)
    returns (rewritten: seq<Param>, changed: bool)
    ensures rewritten == Rewrite(target, params, pool, pool6) && changed == (rewritten != params)
  {
    ghost var p4, p6 := PlanFor(pool, true, target, params), PlanFor(pool6, false, target, params);
    var out4, out6 := FindMalformed(params, !Allowed(pool, true, target), !Allowed(pool6, false, target));
    var removed4, fake4 := LookUp(target, params, pool, true, out4);
    var removed6, fake6 := LookUp(target, params, pool6, false, out6);
    rewritten, changed := [], false;
    var i := 0;
    while i < |params|
      invariant 0 <= i <= |params| && rewritten == Rewritten(params[..i], p4, p6)
      invariant changed <==> !AllStay(params[..i], p4, p6)
    {
      HintsAt(target, params, pool, true, i);
      HintsAt(target, params, pool6, false, i);
      var w, other := RewriteParam(params[i], removed4, removed6, fake4, fake6, p4, p6);
      RewrittenMore(params, i, p4, p6);
      if w.Some? {
        rewritten := rewritten + [w.value];
      }
      changed := changed || other;
      i := i + 1;
    }
    assert params[..i] == params;
    SameIffAllSame(params, p4, p6);
  }

  /** Where there is a hint, its family is removed, or replaced with all of it well-formed. */
  lemma HintsAt(target: string, params: seq<Param>, pool: Option<Pool>, v4: bool, i: nat)
    requires i < |params|
    ensures var p := PlanFor(pool, v4, target, params);
      params[i].Key() != (if v4 then IPV4HINT else IPV6HINT) || p.Removed? || (p.Replaced? && !params[i].Local?)
  {
  }

  predicate AllStay(params: seq<Param>, p4: Plan, p6: Plan) {
    forall i :: 0 <= i < |params| ==> Fate(params[i], p4, p6) == Some(params[i])
  }

  lemma RewrittenMore(params: seq<Param>, i: nat, p4: Plan, p6: Plan)
    requires i < |params|
    ensures Rewritten(params[..i + 1], p4, p6) ==
            Rewritten(params[..i], p4, p6) + match Fate(params[i], p4, p6) case Some(v) => [v] case None => []
    ensures AllStay(params[..i + 1], p4, p6) <==>
            AllStay(params[..i], p4, p6) && Fate(params[i], p4, p6) == Some(params[i])
  {
    var fates := Fates(params[..i + 1], p4, p6);
    assert fates[..i] == Fates(params[..i], p4, p6);
    assert params[..i + 1] == params[..i] + [params[i]];
    if AllStay(params[..i + 1], p4, p6) {
      assert params[..i + 1][i] == params[i];
      assert forall k :: 0 <= k < i ==> params[..i][k] == params[..i + 1][k];
    }
  }
}
