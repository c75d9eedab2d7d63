/** The rewrite of a whole DNS message's service bindings (dns/fakeip_svcb.go): ServiceMode
    records get fake-IP hints, signatures over what changed are dropped. Names are compared in
    lower case with a final dot. */
module ServiceMessage {
  import opened NetTypes
  import opened ServiceBinding

  const TYPE_SVCB := 64
  const TYPE_HTTPS := 65

  datatype Record =
    | Service(https: bool, owner: string, ttl: nat, priority: nat, target: string, params: seq<Param>)
    | Signature(name: string, covered: nat, data: seq<byte>)
    | Plain(name: string, kind: nat, ttl: nat, data: seq<byte>)

  datatype RRset = RRset(name: string, kind: nat)

  datatype Message = Message(answer: seq<Record>, ns: seq<Record>, extra: seq<Record>, authenticated: bool)

  datatype Setup = Setup(pool: Option<Pool>, pool6: Option<Pool>, ttl: int)

  predicate EndsInDot(s: string) { s != "" && s[|s| - 1] == '.' }

  function Fqdn(s: string): string { if EndsInDot(s) then s else s + "." }

  function TrimDot(s: string): string { if EndsInDot(s) then s[..|s| - 1] else s }

  function SetOf(name: string, kind: nat): RRset { RRset(Lower(Fqdn(name)), kind) }

  function KindOf(https: bool): nat { if https then TYPE_HTTPS else TYPE_SVCB }

  function EffectiveTarget(owner: string, target: string): string {
    if target == "." then TrimDot(owner) else TrimDot(target)
  }

  /** The TTL is converted to an unsigned 32-bit number. */
  function FreshTtl(ttl: int): nat { (if ttl < 1 then 1 else ttl) % 0x1_0000_0000 }

  predicate ServiceMode(r: Record) { r.Service? && r.priority != 0 }

  function NewParams(r: Record, u: Setup): seq<Param>
    requires r.Service?
  {
    Rewrite(EffectiveTarget(r.owner, r.target), r.params, u.pool, u.pool6)
  }

  predicate Changes(r: Record, u: Setup) {
    ServiceMode(r) && NewParams(r, u) != r.params
  }

  function Touch(r: Record, u: Setup): Record {
    if Changes(r, u) then r.(params := NewParams(r, u), ttl := FreshTtl(u.ttl)) else r
  }

  function Touched(rs: seq<Record>, u: Setup): seq<Record> {
    seq(|rs|, i requires 0 <= i < |rs| => Touch(rs[i], u))
  }

  function SetsOf(r: Record, u: Setup): set<RRset> {
    if Changes(r, u) then {SetOf(r.owner, KindOf(r.https))} else {}
  }

  function Modified(rs: seq<Record>, u: Setup): set<RRset> {
    if rs == [] then {} else Modified(rs[..|rs| - 1], u) + SetsOf(rs[|rs| - 1], u)
  }

  predicate Covered(r: Record, mods: set<RRset>) {
    r.Signature? && SetOf(r.name, r.covered) in mods
  }

  function Kept(rs: seq<Record>, mods: set<RRset>): seq<Record> {
    if rs == [] then []
    else Kept(rs[..|rs| - 1], mods) + if Covered(rs[|rs| - 1], mods) then [] else [rs[|rs| - 1]]
  }

  function AllModified(m: Message, u: Setup): set<RRset> {
    Modified(m.answer, u) + Modified(m.ns, u) + Modified(m.extra, u)
  }

  function RewriteSections(m: Message, u: Setup): Message {
    var mods := AllModified(m, u);
    if mods == {} then m
    else Message(Kept(Touched(m.answer, u), mods), Kept(Touched(m.ns, u), mods), Kept(Touched(m.extra, u), mods), false)
  }

  // ---------------------------------------------------------------- what is kept

  /** Exactly the uncovered records remain... */
  lemma {:induction false} KeptHas(rs: seq<Record>, mods: set<RRset>, r: Record)
    ensures r in Kept(rs, mods) <==> r in rs && !Covered(r, mods)
  {
    if rs != [] {
      KeptHas(rs[..|rs| - 1], mods, r);
    }
  }

  /** ...and in their order: dropping from the parts is dropping from the whole. */
  lemma {:induction false} KeptConcat(a: seq<Record>, b: seq<Record>, mods: set<RRset>)
    ensures Kept(a + b, mods) == Kept(a, mods) + Kept(b, mods)
  {
    if b == [] {
      assert a + b == a;
    } else {
      var n := |b| - 1;
      KeptConcat(a, b[..n], mods);
      assert (a + b)[..|a + b| - 1] == a + b[..n];
    }
  }

  /** A record of the result comes from one of the message's, touched. */
  lemma FromTouched(rs: seq<Record>, u: Setup, mods: set<RRset>, r: Record)
    requires r in Kept(Touched(rs, u), mods) && Modified(rs, u) <= mods
    ensures exists i :: 0 <= i < |rs| && Touch(rs[i], u) == r
    ensures !Covered(r, mods)
  {
    KeptHas(Touched(rs, u), mods, r);
    var i :| 0 <= i < |Touched(rs, u)| && Touched(rs, u)[i] == r;
    assert Touch(rs[i], u) == r;
  }

  lemma {:induction false} NothingModified(rs: seq<Record>, u: Setup)
    ensures Modified(rs, u) == {} <==> forall i :: 0 <= i < |rs| ==> !Changes(rs[i], u)
  {
    if rs != [] {
      var n := |rs| - 1;
      NothingModified(rs[..n], u);
      assert forall i :: 0 <= i < n ==> rs[..n][i] == rs[i];
      assert SetsOf(rs[n], u) == {} <==> !Changes(rs[n], u);
      assert Modified(rs, u) == {} <==> Modified(rs[..n], u) == {} && SetsOf(rs[n], u) == {};
    }
  }

  // ---------------------------------------------------------------- the promises

  predicate InMessage(m: Message, r: Record) { r in m.answer || r in m.ns || r in m.extra }

  predicate AllOwned(r: Record, u: Setup) {
    ServiceMode(r) ==>
      forall i :: 0 <= i < |r.params| ==> Owned(EffectiveTarget(r.owner, r.target), r.params[i], u.pool, u.pool6)
  }

  lemma TouchOwned(r: Record, u: Setup)
    ensures AllOwned(Touch(r, u), u)
  {
    if ServiceMode(r) {
      var t := Touch(r, u);
      forall i | 0 <= i < |t.params| ensures Owned(EffectiveTarget(r.owner, r.target), t.params[i], u.pool, u.pool6) {
        HintsAreOwned(EffectiveTarget(r.owner, r.target), r.params, u.pool, u.pool6, t.params[i]);
      }
    }
  }

  lemma SectionOwned(rs: seq<Record>, u: Setup, mods: set<RRset>, r: Record)
    requires Modified(rs, u) <= mods && (if mods == {} then r in rs else r in Kept(Touched(rs, u), mods))
    ensures AllOwned(r, u)
  {
    if mods == {} {
      NothingModified(rs, u);
      TouchOwned(r, u);
    } else {
      FromTouched(rs, u, mods, r);
      var i :| 0 <= i < |rs| && Touch(rs[i], u) == r;
      TouchOwned(rs[i], u);
    }
  }

  /** After the rewrite every ServiceMode hint in every section is the pool's address for the
      name a client of the record wants. */
  lemma NoForeignHint(m: Message, u: Setup, r: Record)
    requires InMessage(RewriteSections(m, u), r)
    ensures AllOwned(r, u)
    ensures ServiceMode(r) ==>
      forall n, i :: Wanted(r, n) && 0 <= i < |r.params| ==> Owned(n, r.params[i], u.pool, u.pool6)
  {
    if ServiceMode(r) {
      forall n | Wanted(r, n) ensures n == EffectiveTarget(r.owner, r.target) {
        WantedIs(r, n);
      }
    }
    var mods := AllModified(m, u);
    var m' := RewriteSections(m, u);
    if r in m'.answer {
      SectionOwned(m.answer, u, mods, r);
    } else if r in m'.ns {
      SectionOwned(m.ns, u, mods, r);
    } else {
      SectionOwned(m.extra, u, mods, r);
    }
  }

  lemma NotCovered(rs: seq<Record>, mods: set<RRset>, r: Record)
    requires r in Kept(rs, mods)
    ensures !Covered(r, mods)
  {
    KeptHas(rs, mods, r);
  }

  /** No signature over a changed set survives in any section. */
  lemma NoStaleSignature(m: Message, u: Setup, r: Record)
    requires InMessage(RewriteSections(m, u), r)
    ensures !Covered(r, AllModified(m, u))
  {
    var mods := AllModified(m, u);
    var m' := RewriteSections(m, u);
    if mods != {} {
      if r in m'.answer {
        NotCovered(Touched(m.answer, u), mods, r);
      } else if r in m'.ns {
        NotCovered(Touched(m.ns, u), mods, r);
      } else {
        NotCovered(Touched(m.extra, u), mods, r);
      }
    }
  }

  /** Dropping signatures and rewriting hints commute: each record kept is rewritten where it is. */
  lemma {:induction false} KeptInPlace(rs: seq<Record>, u: Setup, mods: set<RRset>)
    ensures Kept(Touched(rs, u), mods) == Touched(Kept(rs, mods), u)
  {
    if rs != [] {
      var n := |rs| - 1;
      KeptInPlace(rs[..n], u, mods);
      assert Touched(rs, u)[..n] == Touched(rs[..n], u);
      if !Covered(rs[n], mods) {
        assert Touched(Kept(rs[..n], mods) + [rs[n]], u) == Touched(Kept(rs[..n], mods), u) + [Touch(rs[n], u)];
      } else {
        assert Kept(rs, mods) == Kept(rs[..n], mods);
      }
    }
  }

  /** AliasMode records, uncovered signatures and records of other types keep their places among
      the records that are kept, and so does every ServiceMode record with all but its hints. */
  lemma OthersStayPut(rs: seq<Record>, u: Setup, mods: set<RRset>, i: nat)
    requires i < |Kept(rs, mods)|
    ensures |Kept(Touched(rs, u), mods)| == |Kept(rs, mods)|
    ensures var (before, after) := (Kept(rs, mods)[i], Kept(Touched(rs, u), mods)[i]);
      if ServiceMode(before) then after.Service? && before == after.(params := before.params, ttl := before.ttl)
      else after == before
  {
    KeptInPlace(rs, u, mods);
  }

  // ---------------------------------------------------------------- record by record

  /** The name without its final dot. */
  predicate Names(n: string, dotted: string) {
    if EndsInDot(dotted) then n + "." == dotted else n == dotted
  }

  /** The name whose address a client of this record will want: the target, or the owner for ".". */
  predicate Wanted(r: Record, n: string)
    requires r.Service?
  {
    Names(n, if r.target == "." then r.owner else r.target)
  }

  lemma WantedIs(r: Record, n: string)
    requires r.Service?
    ensures Wanted(r, n) <==> n == EffectiveTarget(r.owner, r.target)
  {
    var d := if r.target == "." then r.owner else r.target;
    if EndsInDot(d) {
      assert d == d[..|d| - 1] + ".";
      if n + "." == d {
        assert (n + ".")[..|n|] == n;
      }
    }
  }

  /** What a record becomes: a ServiceMode record's parameters are those of the rewrite for the wanted
      name, and if that changes them its TTL is the configured one, at least 1. */
  ghost predicate RecordBecomes(r: Record, t: Record, u: Setup) {
    if !r.Service? || r.priority == 0 then t == r
    else
      && t.Service? && t == r.(params := t.params, ttl := t.ttl)
      && (forall n :: Wanted(r, n) ==> exists at :: PlacesKept(n, r.params, u.pool, u.pool6, t.params, at))
      && (t.params == r.params ==> t.ttl == r.ttl)
      && (t.params != r.params ==> t.ttl == (if u.ttl < 1 then 1 else u.ttl % 0x1_0000_0000))
  }

  lemma TouchBecomes(r: Record, u: Setup)
    ensures RecordBecomes(r, Touch(r, u), u)
  {
    if ServiceMode(r) {
      RewriteIs(EffectiveTarget(r.owner, r.target), r.params, u.pool, u.pool6);
      forall n | Wanted(r, n) ensures n == EffectiveTarget(r.owner, r.target) {
        WantedIs(r, n);
      }
    }
  }

  /** The two names are the same but for case and a final dot. */
  predicate SameName(a: string, b: string) {
    if EndsInDot(a) == EndsInDot(b) then Lower(a) == Lower(b)
    else if EndsInDot(a) then Lower(a) == Lower(b) + "."
    else Lower(a) + "." == Lower(b)
  }

  lemma SameNameIs(a: string, b: string)
    ensures SameName(a, b) <==> Lower(Fqdn(a)) == Lower(Fqdn(b))
  {
    assert Lower(a + ".") == Lower(a) + ".";
    assert Lower(b + ".") == Lower(b) + ".";
    if Lower(a) + "." == Lower(b) + "." {
      assert (Lower(a) + ".")[..|a|] == Lower(a) && (Lower(b) + ".")[..|b|] == Lower(b);
    }
  }

  /** The rewrite changes this record's parameters, and it is of this owner and type. */
  predicate Alters(r: Record, u: Setup, name: string, kind: nat) {
    && ServiceMode(r) && SameName(r.owner, name) && kind == (if r.https then 65 else 64)
    && Touch(r, u).Service? && Touch(r, u).params != r.params
  }

  predicate Altered(rs: seq<Record>, u: Setup, name: string, kind: nat) {
    exists i :: 0 <= i < |rs| && Alters(rs[i], u, name, kind)
  }

  lemma AlteredMore(rs: seq<Record>, r: Record, u: Setup, name: string, kind: nat)
    ensures Altered(rs + [r], u, name, kind) <==> Altered(rs, u, name, kind) || Alters(r, u, name, kind)
  {
    assert forall i :: 0 <= i < |rs| ==> (rs + [r])[i] == rs[i];
    assert (rs + [r])[|rs|] == r;
  }

  lemma SetsOfIs(r: Record, u: Setup, name: string, kind: nat)
    ensures SetOf(name, kind) in SetsOf(r, u) <==> Alters(r, u, name, kind)
  {
    if r.Service? {
      SameNameIs(r.owner, name);
    }
  }

  lemma {:induction false} ModifiedIs(rs: seq<Record>, u: Setup, name: string, kind: nat)
    ensures SetOf(name, kind) in Modified(rs, u) <==> Altered(rs, u, name, kind)
  {
    if rs != [] {
      var front, r := rs[..|rs| - 1], rs[|rs| - 1];
      ModifiedIs(front, u, name, kind);
      SetsOfIs(r, u, name, kind);
      AlteredMore(front, r, u, name, kind);
      assert rs == front + [r];
    }
  }

  ghost predicate AlteredIn(m: Message, u: Setup, name: string, kind: nat) {
    Altered(m.answer, u, name, kind) || Altered(m.ns, u, name, kind) || Altered(m.extra, u, name, kind)
  }

  /** A record that the rewrite leaves out: a signature over an altered set, and no other. */
  ghost predicate LeftOut(m: Message, u: Setup, r: Record) {
    r.Signature? && AlteredIn(m, u, r.name, r.covered)
  }

  /** Each record of the result comes from its own place in the section, in order, as `RecordBecomes`
      says, and the places left out are those of signatures over altered sets. */
  ghost predicate SectionBecomes(m: Message, u: Setup, rs: seq<Record>, result: seq<Record>, at: seq<nat>) {
    && |at| == |result| && (forall i, j :: 0 <= i < j < |at| ==> at[i] < at[j])
    && (forall i :: 0 <= i < |at| ==> at[i] < |rs| && RecordBecomes(rs[at[i]], result[i], u))
    && forall k :: 0 <= k < |rs| ==> (k in at <==> !LeftOut(m, u, rs[k]))
  }

  /** The places of what is kept. */
  ghost predicate KeptAt(rs: seq<Record>, mods: set<RRset>, kept: seq<Record>, at: seq<nat>) {
    && |at| == |kept| && (forall i, j :: 0 <= i < j < |at| ==> at[i] < at[j])
    && (forall i :: 0 <= i < |at| ==> at[i] < |rs| && kept[i] == rs[at[i]])
    && forall k :: 0 <= k < |rs| ==> (k in at <==> !Covered(rs[k], mods))
  }

  lemma OneKeptMore(rs: seq<Record>, mods: set<RRset>, kept: seq<Record>, at: seq<nat>, r: Record)
    requires KeptAt(rs, mods, kept, at)
    ensures if Covered(r, mods) then KeptAt(rs + [r], mods, kept, at)
            else KeptAt(rs + [r], mods, kept + [r], at + [|rs|])
  {
    var more, n := rs + [r], |rs|;
    assert forall k :: 0 <= k < n ==> more[k] == rs[k];
    assert more[n] == r;
    forall k ensures k in at + [n] <==> k in at || k == n {
    }
    forall k | k in at ensures k < n {
    }
  }

  lemma {:induction false} KeptPlaces(rs: seq<Record>, mods: set<RRset>) returns (at: seq<nat>)
    ensures KeptAt(rs, mods, Kept(rs, mods), at)
  {
    if rs == [] {
      at := [];
    } else {
      var front, r := rs[..|rs| - 1], rs[|rs| - 1];
      var before := KeptPlaces(front, mods);
      OneKeptMore(front, mods, Kept(front, mods), before, r);
      assert rs == front + [r];
      if Covered(r, mods) {
        assert Kept(rs, mods) == Kept(front, mods);
        at := before;
      } else {
        at := before + [|front|];
      }
    }
  }

  lemma CoveredIs(m: Message, u: Setup, r: Record)
    ensures Covered(r, AllModified(m, u)) <==> LeftOut(m, u, r)
  {
    if r.Signature? {
      ModifiedIs(m.answer, u, r.name, r.covered);
      ModifiedIs(m.ns, u, r.name, r.covered);
      ModifiedIs(m.extra, u, r.name, r.covered);
    }
  }

  lemma SectionIs(m: Message, u: Setup, rs: seq<Record>, result: seq<Record>)
    requires var mods := AllModified(m, u); Modified(rs, u) <= mods
    requires result == if AllModified(m, u) == {} then rs else Kept(Touched(rs, u), AllModified(m, u))
    ensures exists at :: SectionBecomes(m, u, rs, result, at)
  {
    var mods := AllModified(m, u);
    if mods == {} {
      LeftAlone(rs, u);
      NoneKeptOut(rs);
    }
    var at := KeptPlaces(Touched(rs, u), mods);
    forall k | 0 <= k < |rs| ensures Covered(Touched(rs, u)[k], mods) <==> LeftOut(m, u, rs[k]) {
      CoveredIs(m, u, rs[k]);
    }
    forall i | 0 <= i < |at| ensures RecordBecomes(rs[at[i]], result[i], u) {
      TouchBecomes(rs[at[i]], u);
    }
    assert SectionBecomes(m, u, rs, result, at);
  }

  lemma {:induction false} NoneKeptOut(rs: seq<Record>)
    ensures Kept(rs, {}) == rs
  {
    if rs != [] {
      NoneKeptOut(rs[..|rs| - 1]);
    }
  }

  /** The whole rewrite, record by record in every section: hints belong to the name a client wants,
      TTLs are the configured ones where something changed, signatures over altered sets are gone and
      nothing else is, and the message stays authenticated exactly if it was and nothing changed. */
  lemma MessageBecomes(m: Message, u: Setup)
    ensures var m' := RewriteSections(m, u);
      && (exists at :: SectionBecomes(m, u, m.answer, m'.answer, at))
      && (exists at :: SectionBecomes(m, u, m.ns, m'.ns, at))
      && (exists at :: SectionBecomes(m, u, m.extra, m'.extra, at))
      && (m'.authenticated <==> m.authenticated && m' == m)
  {
    var m' := RewriteSections(m, u);
    SectionIs(m, u, m.answer, m'.answer);
    SectionIs(m, u, m.ns, m'.ns);
    SectionIs(m, u, m.extra, m'.extra);
    UnchangedIsIdentical(m, u);
  }

  // ---------------------------------------------------------------- unchanged means identical

  function Services(rs: seq<Record>): seq<Record> {
    if rs == [] then []
    else Services(rs[..|rs| - 1]) + if rs[|rs| - 1].Service? then [rs[|rs| - 1]] else []
  }

  lemma {:induction false} KeptServices(rs: seq<Record>, mods: set<RRset>)
    ensures Services(Kept(rs, mods)) == Services(rs)
  {
    if rs != [] {
      var n := |rs| - 1;
      KeptServices(rs[..n], mods);
      if !Covered(rs[n], mods) {
        var k := Kept(rs, mods);
        assert k[..|k| - 1] == Kept(rs[..n], mods);
      } else {
        assert Kept(rs, mods) == Kept(rs[..n], mods);
      }
    }
  }

  lemma {:induction false} TouchedServices(rs: seq<Record>, u: Setup)
    ensures |Services(Touched(rs, u))| == |Services(rs)|
    ensures Services(Touched(rs, u)) == Services(rs) ==> forall i :: 0 <= i < |rs| ==> !Changes(rs[i], u)
  {
    if rs != [] {
      var n := |rs| - 1;
      var t := Touched(rs, u);
      assert t[..n] == Touched(rs[..n], u);
      TouchedServices(rs[..n], u);
      assert forall i :: 0 <= i < n ==> rs[..n][i] == rs[i];
      if Services(t) == Services(rs) {
        var k := |Services(rs[..n])|;
        assert Services(t)[..k] == Services(t[..n]) && Services(rs)[..k] == Services(rs[..n]);
        if rs[n].Service? {
          assert Services(t)[k] == t[n] && Services(rs)[k] == rs[n];
        }
      }
    }
  }

  /** A section that comes out as it went in had nothing to change. */
  lemma SameSection(rs: seq<Record>, u: Setup, mods: set<RRset>)
    requires Kept(Touched(rs, u), mods) == rs
    ensures Modified(rs, u) == {}
  {
    KeptServices(Touched(rs, u), mods);
    TouchedServices(rs, u);
    NothingModified(rs, u);
  }

  /** The message is left alone exactly when no set of records was modified. */
  lemma UnchangedIsIdentical(m: Message, u: Setup)
    ensures RewriteSections(m, u) == m <==> AllModified(m, u) == {}
  {
    var mods := AllModified(m, u);
    if mods != {} && RewriteSections(m, u) == m {
      SameSection(m.answer, u, mods);
      SameSection(m.ns, u, mods);
      SameSection(m.extra, u, mods);
    }
  }

  // ---------------------------------------------------------------- a second pass

  lemma TouchSettles(r: Record, u: Setup)
    ensures !Changes(Touch(r, u), u)
  {
    if ServiceMode(r) {
      SecondPassChangesNothing(EffectiveTarget(r.owner, r.target), r.params, u.pool, u.pool6);
    }
  }

  lemma SectionSettles(rs: seq<Record>, u: Setup, mods: set<RRset>)
    requires Modified(rs, u) <= mods
    ensures Modified(Kept(Touched(rs, u), mods), u) == {}
  {
    var k := Kept(Touched(rs, u), mods);
    forall i | 0 <= i < |k| ensures !Changes(k[i], u) {
      FromTouched(rs, u, mods, k[i]);
      var j :| 0 <= j < |rs| && Touch(rs[j], u) == k[i];
      TouchSettles(rs[j], u);
    }
    NothingModified(k, u);
  }

  /** A second pass finds nothing to do. */
  lemma SecondPassIsIdle(m: Message, u: Setup)
    ensures var once := RewriteSections(m, u); AllModified(once, u) == {} && RewriteSections(once, u) == once
  {
    var mods := AllModified(m, u);
    if mods != {} {
      SectionSettles(m.answer, u, mods);
      SectionSettles(m.ns, u, mods);
      SectionSettles(m.extra, u, mods);
    }
  }

  // ---------------------------------------------------------------- the methods

  method RewriteRecord(r: Record, u: Setup, before: set<RRset>) returns (t: Record, mods: set<RRset>)
    ensures t == Touch(r, u) && mods == before + SetsOf(r, u)
    ensures RecordBecomes(r, t, u)
  {
    TouchBecomes(r, u);
    t, mods := r, before;
    if ServiceMode(r) {
      var params, changed := RewriteParams(EffectiveTarget(r.owner, r.target), r.params, u.pool, u.pool6);
      if changed {
        t := r.(params := params, ttl := FreshTtl(u.ttl));
        mods := mods + {SetOf(r.owner, KindOf(r.https))};
      }
    }
  }

  /** Rewrites the records of a section where they stand. */
  method RewriteSection(a: array<Record>, u: Setup, before: set<RRset>) returns (mods: set<RRset>)
    modifies a
    ensures a[..] == Touched(old(a[..]), u) && mods == before + Modified(old(a[..]), u)
  {
    mods := before;
    var i := 0;
    ghost var was := a[..];
    ghost var done: seq<Record> := [];
    while i < a.Length
      invariant 0 <= i <= a.Length && was == old(a[..]) && |done| == i
      invariant forall k :: 0 <= k < i ==> a[k] == done[k]
      invariant forall k :: i <= k < a.Length ==> a[k] == was[k]
      invariant done == Touched(was[..i], u) && mods == before + Modified(was[..i], u)
    {
      assert was[..i + 1][..i] == was[..i];
      TouchedMore(was, i, u);
      var r;
      r, mods := RewriteRecord(a[i], u, mods);
      a[i] := r;
      done := done + [r];
      i := i + 1;
    }
    assert was[..i] == was && a[..] == done;
  }

  lemma TouchedMore(rs: seq<Record>, i: nat, u: Setup)
    requires i < |rs|
    ensures Touched(rs[..i + 1], u) == Touched(rs[..i], u) + [Touch(rs[i], u)]
  {
  }

  /** Drops signatures over modified sets, moving what is kept to the front of the same storage. */
  method RemoveSignatures(a: array<Record>, mods: set<RRset>) returns (n: nat)
    modifies a
    ensures n <= a.Length && a[..n] == Kept(old(a[..]), mods)
  {
    n := 0;
    var i := 0;
    ghost var was := a[..];
    while i < a.Length
      invariant 0 <= n <= i <= a.Length && was == old(a[..])
      invariant a[..n] == Kept(was[..i], mods)
      invariant forall k :: i <= k < a.Length ==> a[k] == was[k]
    {
      assert was[..i + 1][..i] == was[..i];
      var r := a[i];
      if !(r.Signature? && SetOf(r.name, r.covered) in mods) {
        a[n] := r;
        n := n + 1;
        assert a[..n] == a[..n - 1] + [r];
      }
      i := i + 1;
    }
    assert was[..i] == was;
  }

  /** rewriteFakeIPServiceBindings on a message's three record slices. */
  method RewriteBindings(answer: array<Record>, ns: array<Record>, extra: array<Record>, ad: bool, u: Setup)
    returns (changed: bool, answers: nat, authorities: nat, extras: nat, authenticated: bool)
    requires answer != ns && ns != extra && answer != extra
    modifies answer, ns, extra
    ensures answers <= answer.Length && authorities <= ns.Length && extras <= extra.Length
    ensures var m := old(Message(answer[..], ns[..], extra[..], ad));
      && Message(answer[..answers], ns[..authorities], extra[..extras], authenticated) == RewriteSections(m, u)
      && changed == (RewriteSections(m, u) != m)
  {
    ghost var m := Message(answer[..], ns[..], extra[..], ad);
    UnchangedIsIdentical(m, u);
    answers, authorities, extras := answer.Length, ns.Length, extra.Length;
    var mods := RewriteSection(answer, u, {});
    mods := RewriteSection(ns, u, mods);
    mods := RewriteSection(extra, u, mods);
    assert mods == AllModified(m, u);
    if mods == {} {
      LeftAlone(m.answer, u);
      LeftAlone(m.ns, u);
      LeftAlone(m.extra, u);
      return false, answers, authorities, extras, ad;
    }
    answers := RemoveSignatures(answer, mods);
    authorities := RemoveSignatures(ns, mods);
    extras := RemoveSignatures(extra, mods);
    return true, answers, authorities, extras, false;
  }

  lemma LeftAlone(rs: seq<Record>, u: Setup)
    requires Modified(rs, u) == {}
    ensures Touched(rs, u) == rs
  {
    NothingModified(rs, u);
  }
}
