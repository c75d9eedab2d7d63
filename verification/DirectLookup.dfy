/** The progressive lookup over direct name servers (dns/direct_candidates.go): cached addresses
    first, then two or more sources in parallel, then the rest one by one. Every read of a cache
    is an input of its own, since refreshes and the clock may change what the next one sees. */
module DirectLookup {
  import opened NetTypes

  /** A retained answer of one source, and whether it is not due yet. */
  datatype Retained = Retained(ips: seq<Addr>, current: bool)

  type Reads = seq<Option<Retained>>

  datatype Fetch = Answer(ips: seq<Addr>) | Failed

  /** What is sent to the caller; source -1 stands for a cache. */
  datatype Batch = Addresses(ips: seq<Addr>, source: int) | Error

  /** Three readings of the per-source caches, the reading of the aggregate cache, and what each
      source answers when it is asked. */
  datatype World = World(first: Reads, second: Reads, third: Reads, aggregate: Option<Retained>, fetch: seq<Fetch>) {
    predicate Valid(n: nat) { |first| == n && |second| == n && |third| == n && |fetch| == n }
  }

  // ---------------------------------------------------------------- retained addresses

  function Distinct(ips: seq<Addr>): seq<Addr> {
    if ips == [] then []
    else
      var front := Distinct(ips[..|ips| - 1]);
      if ips[|ips| - 1].Unmap() in front then front else front + [ips[|ips| - 1].Unmap()]
  }

  function AllRetained(rs: Reads): seq<Addr> {
    if rs == [] then []
    else AllRetained(rs[..|rs| - 1]) + match rs[|rs| - 1] case Some(r) => r.ips case None => []
  }

  predicate NoTwins(ips: seq<Addr>) {
    forall i, j :: 0 <= i < j < |ips| ==> ips[i] != ips[j]
  }

  lemma {:induction false} DistinctIs(ips: seq<Addr>)
    ensures NoTwins(Distinct(ips))
    ensures forall a :: a in Distinct(ips) <==> exists i :: 0 <= i < |ips| && ips[i].Unmap() == a
  {
    if ips != [] {
      var front := ips[..|ips| - 1];
      DistinctIs(front);
      forall a ensures a in Distinct(ips) <==> exists i :: 0 <= i < |ips| && ips[i].Unmap() == a {
        if i :| 0 <= i < |ips| && ips[i].Unmap() == a {
          if i < |front| {
            assert front[i].Unmap() == a;
          }
        }
        if a in Distinct(front) {
          var i :| 0 <= i < |front| && front[i].Unmap() == a;
          assert ips[i].Unmap() == a;
        }
      }
    }
  }

  lemma DistinctMore(before: seq<Addr>, ip: Addr)
    ensures var sofar := Distinct(before);
      Distinct(before + [ip]) == if ip.Unmap() in sofar then sofar else sofar + [ip.Unmap()]
  {
    assert (before + [ip])[..|before|] == before;
  }

  /** In the order of their first places. */
  lemma {:induction false} DistinctPlaces(ips: seq<Addr>) returns (at: seq<nat>)
    ensures AtFirstPlaces(ips, false, Distinct(ips), at)
  {
    if ips == [] {
      at := [];
    } else {
      var front, ip := ips[..|ips| - 1], ips[|ips| - 1];
      var before := DistinctPlaces(front);
      assert ips == front + [ip];
      at := DistinctPlaceMore(front, ip, ips, before);
    }
  }

  lemma DistinctPlaceMore(front: seq<Addr>, ip: Addr, ips: seq<Addr>, before: seq<nat>) returns (at: seq<nat>)
    requires ips == front + [ip] && AtFirstPlaces(front, false, Distinct(front), before)
    ensures AtFirstPlaces(ips, false, Distinct(ips), at)
  {
    DistinctMore(front, ip);
    at := OnePlaceMore(front, ip, false, Distinct(front), before, Distinct(ips));
  }

  method AddDistinct(sofar: seq<Addr>, ips: seq<Addr>, ghost before: seq<Addr>) returns (candidates: seq<Addr>)
    requires sofar == Distinct(before)
    ensures candidates == Distinct(before + ips)
  {
    candidates := sofar;
    var i := 0;
    assert before + ips[..0] == before;
    while i < |ips|
      invariant 0 <= i <= |ips| && candidates == Distinct(before + ips[..i])
    {
      assert before + ips[..i + 1] == before + ips[..i] + [ips[i]];
      DistinctMore(before + ips[..i], ips[i]);
      var ip := ips[i].Unmap();
      if ip !in candidates {
        candidates := candidates + [ip];
      }
      i := i + 1;
    }
    assert ips[..i] == ips;
  }

  /** directCachedCandidates: each retained address once, unmapped, in the order of the sources. */
  method CachedCandidates(rs: Reads) returns (candidates: seq<Addr>)
    ensures candidates == Distinct(AllRetained(rs))
  {
    candidates := [];
    var i := 0;
    while i < |rs|
      invariant 0 <= i <= |rs| && candidates == Distinct(AllRetained(rs[..i]))
    {
      assert rs[..i + 1][..i] == rs[..i];
      match rs[i] {
        case None =>
          assert AllRetained(rs[..i + 1]) == AllRetained(rs[..i]);
        case Some(r) =>
          candidates := AddDistinct(candidates, r.ips, AllRetained(rs[..i]));
      }
      i := i + 1;
    }
    assert rs[..i] == rs;
  }

  // ---------------------------------------------------------------- the state of the caches

  predicate SomeRetained(rs: Reads) {
    exists i :: 0 <= i < |rs| && rs[i].Some?
  }

  predicate IsFresh(r: Option<Retained>) { r.Some? && r.value.current }

  predicate IsStale(r: Option<Retained>) { r.Some? && !r.value.current }

  predicate AllFresh(rs: Reads) {
    forall i :: 0 <= i < |rs| ==> IsFresh(rs[i])
  }

  predicate SomeFresh(rs: Reads) {
    exists i :: 0 <= i < |rs| && IsFresh(rs[i])
  }

  predicate SomeStale(rs: Reads) {
    exists i :: 0 <= i < |rs| && IsStale(rs[i])
  }

  method Survey(rs: Reads) returns (some: bool, anyFresh: bool, allFresh: bool, stale: bool)
    ensures some == SomeRetained(rs) && anyFresh == SomeFresh(rs)
    ensures allFresh == AllFresh(rs) && stale == SomeStale(rs)
  {
    some, anyFresh, allFresh, stale := false, false, true, false;
    for i := 0 to |rs|
      invariant some <==> exists k :: 0 <= k < i && rs[k].Some?
      invariant anyFresh <==> exists k :: 0 <= k < i && IsFresh(rs[k])
      invariant allFresh <==> forall k :: 0 <= k < i ==> IsFresh(rs[k])
      invariant stale <==> exists k :: 0 <= k < i && IsStale(rs[k])
    {
      match rs[i] {
        case Some(r) =>
          some := true;
          if r.current {
            anyFresh := true;
          } else {
            stale, allFresh := true, false;
          }
        case None => allFresh := false;
      }
    }
  }

  // ---------------------------------------------------------------- asking the sources

  predicate HasAddresses(f: Fetch) { f.Answer? && f.ips != [] }

  predicate Within(order: seq<nat>, n: nat) {
    forall i :: 0 <= i < |order| ==> order[i] < n
  }

  /** One batch for every source that answered, in the order they were heard. */
  function Published(order: seq<nat>, fetch: seq<Fetch>): seq<Batch>
    requires Within(order, |fetch|)
  {
    if order == [] then []
    else Published(order[..|order| - 1], fetch) + BatchOf(order[|order| - 1], fetch)
  }

  function BatchOf(s: nat, fetch: seq<Fetch>): seq<Batch>
    requires s < |fetch|
  {
    match fetch[s] case Answer(ips) => [Addresses(ips, s)] case Failed => []
  }

  lemma {:induction false} PublishedHas(order: seq<nat>, fetch: seq<Fetch>, b: Batch)
    requires Within(order, |fetch|)
    ensures b in Published(order, fetch) <==> exists i :: 0 <= i < |order| && b in BatchOf(order[i], fetch)
  {
    if order != [] {
      var n := |order| - 1;
      var front := order[..n];
      PublishedHas(front, fetch, b);
      assert forall i :: 0 <= i < n ==> front[i] == order[i];
      if b in Published(front, fetch) {
        var i :| 0 <= i < n && b in BatchOf(front[i], fetch);
        assert order[i] == front[i];
      }
    }
  }

  /** The places in the order of those who answered. */
  ghost predicate AnsweredPlaces(order: seq<nat>, fetch: seq<Fetch>, at: seq<nat>)
    requires Within(order, |fetch|)
  {
    && (forall i, j :: 0 <= i < j < |at| ==> at[i] < at[j])
    && forall k :: k in at <==> 0 <= k < |order| && fetch[order[k]].Answer?
  }

  predicate SaysOf(b: Batch, s: nat, fetch: seq<Fetch>)
    requires s < |fetch|
  {
    fetch[s].Answer? && b == Addresses(fetch[s].ips, s)
  }

  /** One batch for each source that answered, with its addresses and its number, as they were heard. */
  ghost predicate HeardAs(order: seq<nat>, fetch: seq<Fetch>, out: seq<Batch>, at: seq<nat>)
    requires Within(order, |fetch|)
  {
    && |at| == |out| && AnsweredPlaces(order, fetch, at)
    && forall i :: 0 <= i < |at| ==> at[i] < |order| && SaysOf(out[i], order[at[i]], fetch)
  }

  lemma OneMoreHeard(order: seq<nat>, fetch: seq<Fetch>, out: seq<Batch>, at: seq<nat>, s: nat)
    requires Within(order + [s], |fetch|) && Within(order, |fetch|) && s < |fetch| && HeardAs(order, fetch, out, at)
    ensures match fetch[s]
      case Failed => HeardAs(order + [s], fetch, out, at)
      case Answer(ips) => HeardAs(order + [s], fetch, out + [Addresses(ips, s)], at + [|order|])
  {
    var more, n := order + [s], |order|;
    assert forall j :: 0 <= j < n ==> more[j] == order[j];
    assert more[n] == s;
    forall k ensures k in at + [n] <==> k in at || k == n {
    }
  }

  lemma {:induction false} PublishedIs(order: seq<nat>, fetch: seq<Fetch>) returns (at: seq<nat>)
    requires Within(order, |fetch|)
    ensures HeardAs(order, fetch, Published(order, fetch), at)
  {
    if order == [] {
      at := [];
    } else {
      var front, s := order[..|order| - 1], order[|order| - 1];
      at := PublishedIs(front, fetch);
      OneMoreHeard(front, fetch, Published(front, fetch), at, s);
      assert front + [s] == order;
      if fetch[s].Answer? {
        at := at + [|front|];
      } else {
        assert Published(order, fetch) == Published(front, fetch);
      }
    }
  }

  predicate Once(order: seq<nat>, n: nat) {
    && Within(order, n)
    && (forall i, j :: 0 <= i < j < |order| ==> order[i] != order[j])
  }

  predicate Heard(order: seq<nat>, fetch: seq<Fetch>)
    requires Within(order, |fetch|)
  {
    exists i :: 0 <= i < |order| && fetch[order[i]].Answer?
  }

  predicate Found(order: seq<nat>, fetch: seq<Fetch>)
    requires Within(order, |fetch|)
  {
    exists i :: 0 <= i < |order| && HasAddresses(fetch[order[i]])
  }

  /** The first two sources and every one whose retained answer is due. */
  predicate Wanted(rs: Reads, s: nat)
    requires s < |rs|
  {
    s < 2 || IsStale(rs[s])
  }

  method WantedSources(rs: Reads) returns (sources: seq<nat>)
    ensures Once(sources, |rs|)
    ensures forall s :: s in sources <==> 0 <= s < |rs| && Wanted(rs, s)
  {
    sources := [];
    for s := 0 to |rs|
      invariant Once(sources, |rs|) && forall x :: x in sources <==> 0 <= x < s && Wanted(rs, x)
    {
      if s < 2 || IsStale(rs[s]) {
        assert forall i :: 0 <= i < |sources| ==> sources[i] in sources;
        sources := sources + [s];
      }
    }
  }

  /** Asks all the given sources at once; their answers come in any order. */
  method AskTogether(sources: seq<nat>, fetch: seq<Fetch>)
    returns (out: seq<Batch>, order: seq<nat>, answered: bool, succeeded: bool)
    requires Once(sources, |fetch|)
    ensures Once(order, |fetch|) && (forall s :: s in order <==> s in sources)
    ensures out == Published(order, fetch)
    ensures answered == Heard(order, fetch) && succeeded == Found(order, fetch)
  {
    out, order, answered, succeeded := [], [], false, false;
    var waiting: set<nat> := set s | s in sources;
    assert forall s :: s in sources ==> s < |fetch|;
    while waiting != {}
      invariant Once(order, |fetch|) && out == Published(order, fetch)
      invariant forall s :: s in sources <==> s in order || s in waiting
      invariant forall s :: s in order ==> s !in waiting
      invariant forall s :: s in waiting ==> s < |fetch|
      invariant answered == Heard(order, fetch) && succeeded == Found(order, fetch)
      decreases |waiting|
    {
      var s :| s in waiting;
      waiting := waiting - {s};
      out, answered, succeeded := Hear(order, s, fetch, out, answered, succeeded);
      order := order + [s];
    }
  }

  /** One answer, or one failure. */
  method Hear(ghost order: seq<nat>, s: nat, fetch: seq<Fetch>, sofar: seq<Batch>, heard: bool, found: bool)
    returns (out: seq<Batch>, answered: bool, succeeded: bool)
    requires Once(order, |fetch|) && s < |fetch| && s !in order
    requires sofar == Published(order, fetch) && heard == Heard(order, fetch) && found == Found(order, fetch)
    ensures Once(order + [s], |fetch|) && out == Published(order + [s], fetch)
    ensures answered == Heard(order + [s], fetch) && succeeded == Found(order + [s], fetch)
  {
    Extended(order, fetch, s);
    out, answered, succeeded := sofar, heard, found;
    match fetch[s] {
      case Failed =>
        assert out == out + [];
      case Answer(ips) =>
        answered := true;
        succeeded := succeeded || |ips| > 0;
        out := out + [Addresses(ips, s)];
    }
  }

  lemma Extended(order: seq<nat>, fetch: seq<Fetch>, s: nat)
    requires Once(order, |fetch|) && s < |fetch| && s !in order
    ensures Once(order + [s], |fetch|)
    ensures Published(order + [s], fetch) == Published(order, fetch) + BatchOf(s, fetch)
    ensures Heard(order + [s], fetch) <==> Heard(order, fetch) || fetch[s].Answer?
    ensures Found(order + [s], fetch) <==> Found(order, fetch) || HasAddresses(fetch[s])
  {
    var more := order + [s];
    assert more[..|order|] == order;
    assert forall i :: 0 <= i < |order| ==> more[i] == order[i];
    assert more[|order|] == s;
  }

  /** Every source before `upTo` has been asked. */
  predicate InTurn(asked: seq<nat>, order: seq<nat>, upTo: nat) {
    forall s :: 0 <= s < upTo ==> s in asked || s in order
  }

  /** The sources asked in turn, with none skipped, and none asked after one that had addresses. */
  predicate StopsAtFirst(asked: seq<nat>, order: seq<nat>, fetch: seq<Fetch>)
    requires Once(order, |fetch|)
  {
    && (forall i :: 0 <= i < |order| - 1 ==> !HasAddresses(fetch[order[i]]))
    && (forall i :: 0 <= i < |order| ==> InTurn(asked, order, order[i]))
  }

  lemma InTurnMore(asked: seq<nat>, order: seq<nat>, source: nat, upTo: nat)
    requires InTurn(asked, order, upTo)
    ensures InTurn(asked, order + [source], upTo)
    ensures upTo == source ==> InTurn(asked, order + [source], source + 1)
  {
    assert forall s :: s in order ==> s in order + [source];
    assert source in order + [source];
  }

  lemma NextInTurn(asked: seq<nat>, order: seq<nat>, fetch: seq<Fetch>, source: nat)
    requires Once(order, |fetch|) && StopsAtFirst(asked, order, fetch) && !Found(order, fetch)
    requires Once(order + [source], |fetch|) && InTurn(asked, order, source)
    ensures StopsAtFirst(asked, order + [source], fetch) && InTurn(asked, order + [source], source + 1)
  {
    var more := order + [source];
    InTurnMore(asked, order, source, source);
    forall i | 0 <= i < |more| ensures InTurn(asked, more, more[i]) {
      if i < |order| {
        assert InTurn(asked, order, order[i]);
        InTurnMore(asked, order, source, order[i]);
      }
    }
    forall i | 0 <= i < |more| - 1 ensures !HasAddresses(fetch[more[i]]) {
      assert more[i] == order[i];
    }
  }

  /** Asks the remaining sources one by one, in their order, until one has addresses. */
  method AskInTurn(asked: seq<nat>, fetch: seq<Fetch>) returns (out: seq<Batch>, order: seq<nat>, answered: bool)
    requires Once(asked, |fetch|)
    ensures Once(order, |fetch|) && (forall s :: s in order ==> s !in asked)
    ensures out == Published(order, fetch) && answered == Heard(order, fetch)
    ensures StopsAtFirst(asked, order, fetch)
    ensures Found(order, fetch) || InTurn(asked, order, |fetch|)
  {
    out, order, answered := [], [], false;
    var source := 0;
    while source < |fetch|
      invariant 0 <= source <= |fetch| && Once(order, |fetch|) && (forall s :: s in order ==> s !in asked && s < source)
      invariant out == Published(order, fetch) && answered == Heard(order, fetch) && !Found(order, fetch)
      invariant StopsAtFirst(asked, order, fetch) && InTurn(asked, order, source)
    {
      if source !in asked {
        var found;
        out, answered, found := Hear(order, source, fetch, out, answered, false);
        NextInTurn(asked, order, fetch, source);
        order := order + [source];
        if found {
          return;
        }
      }
      source := source + 1;
    }
  }

  // ---------------------------------------------------------------- the lookup

  /** What can be published before any source is asked. The aggregate answer counts only while no
      source has an answer of its own, so it cannot bring back addresses a source has dropped. */
  function Opening(w: World): seq<Addr> {
    Distinct(AllRetained(w.first)) +
    if !SomeRetained(w.second) && w.aggregate.Some? then w.aggregate.value.ips else []
  }

  /** Nothing needs to be asked. An empty answer of one source settles nothing for the others. */
  predicate Settled(w: World) {
    if Opening(w) == [] then AllFresh(w.second)
    else if !SomeRetained(w.second) && w.aggregate.Some? then w.aggregate.value.current
    else SomeFresh(w.second) && !SomeStale(w.second)
  }

  /** The aggregate answer, if no source has retained anything. */
  function Fallback(w: World): seq<Addr> {
    if w.aggregate.Some? && forall i :: 0 <= i < |w.second| ==> w.second[i].None? then w.aggregate.value.ips else []
  }

  /** What is published first: every retained address once, the sources' in their order; those of the
      aggregate answer follow if no source has retained anything, and only then. */
  lemma OpeningIs(w: World)
    ensures exists own, at :: AtFirstPlaces(AllRetained(w.first), false, own, at) && Opening(w) == own + Fallback(w)
  {
    var at := DistinctPlaces(AllRetained(w.first));
    assert SomeRetained(w.second) <==> !forall i :: 0 <= i < |w.second| ==> w.second[i].None?;
    assert AtFirstPlaces(AllRetained(w.first), false, Distinct(AllRetained(w.first)), at);
  }

  lemma RetainedMore(rs: Reads, r: Option<Retained>)
    ensures AllRetained(rs + [r]) == AllRetained(rs) + match r case Some(x) => x.ips case None => []
  {
    assert (rs + [r])[..|rs|] == rs;
  }

  /** Retained addresses are those of the sources that have some, source by source. */
  lemma {:induction false} RetainedAre(rs: Reads, more: Reads)
    ensures AllRetained(rs + more) == AllRetained(rs) + AllRetained(more)
  {
    if more == [] {
      assert rs + more == rs;
    } else {
      var front, r := more[..|more| - 1], more[|more| - 1];
      RetainedAre(rs, front);
      RetainedMore(rs + front, r);
      RetainedMore(front, r);
      assert more == front + [r] && rs + more == rs + front + [r];
      JoinAddresses(AllRetained(rs), AllRetained(front), match r case Some(x) => x.ips case None => []);
    }
  }

  lemma JoinAddresses(a: seq<Addr>, b: seq<Addr>, c: seq<Addr>)
    ensures a + b + c == a + (b + c)
  {
  }

  /** Nobody is asked exactly if no source's answer is due and either there is something to publish, from
      a source's answer or a current aggregate, or every source has an answer. */
  lemma SettledIff(w: World)
    ensures Settled(w) <==>
      && (forall i :: 0 <= i < |w.second| && w.second[i].Some? ==> w.second[i].value.current)
      && if Opening(w) == [] then forall i :: 0 <= i < |w.second| ==> w.second[i].Some?
         else (exists i :: 0 <= i < |w.second| && w.second[i].Some?) || (w.aggregate.Some? && w.aggregate.value.current)
  {
    if i :| 0 <= i < |w.second| && w.second[i].Some? {
      assert IsFresh(w.second[i]) || IsStale(w.second[i]);
    }
  }

  function First(w: World): seq<Batch> {
    if Opening(w) == [] then [] else [Addresses(Opening(w), -1)]
  }

  method Open(w: World) returns (candidates: seq<Addr>, settled: bool)
    ensures candidates == Opening(w) && settled == Settled(w)
  {
    candidates := CachedCandidates(w.first);
    var some, anyFresh, allFresh, stale := Survey(w.second);
    settled := anyFresh;
    if !some {
      if w.aggregate.Some? {
        candidates := candidates + w.aggregate.value.ips;
        settled := w.aggregate.value.current && |candidates| > 0;
      }
    }
    settled := settled && !stale;
    if |candidates| == 0 {
      settled := allFresh;
    }
  }

  predicate AllAsked(order: seq<nat>, n: nat) {
    forall s :: 0 <= s < n ==> s in order
  }

  /** What the two phases of asking leave: the sources asked together are exactly those wanted when
      something was published before, the others follow in turn and only until one has
      addresses, and nobody is left out unless addresses were found. */
  ghost predicate Asked(w: World, warm: bool, joint: seq<nat>, turns: seq<nat>) {
    && w.Valid(|w.fetch|) && Once(joint + turns, |w.fetch|) && Once(joint, |w.fetch|) && Once(turns, |w.fetch|)
    && (forall s :: s in joint <==>
          warm && 0 <= s < |w.third| && (s < 2 || (w.third[s].Some? && !w.third[s].value.current)))
    && (Found(joint, w.fetch) ==> turns == [])
    && StopsAtFirst(joint, turns, w.fetch)
    && (Found(joint + turns, w.fetch) || AllAsked(joint + turns, |w.fetch|))
  }

  /** The two phases of asking: together when something was published already, then in turn. */
  method Ask(w: World, warm: bool) returns (out: seq<Batch>, joint: seq<nat>, turns: seq<nat>, answered: bool)
    requires w.Valid(|w.fetch|)
    ensures Asked(w, warm, joint, turns)
    ensures out == Published(joint + turns, w.fetch) && answered == Heard(joint + turns, w.fetch)
  {
    out, joint, turns, answered := [], [], [], false;
    if warm {
      var sources := WantedSources(w.third);
      var succeeded;
      out, joint, answered, succeeded := AskTogether(sources, w.fetch);
      if succeeded {
        assert joint + turns == joint;
        return;
      }
    }
    var more, late;
    more, turns, late := AskInTurn(joint, w.fetch);
    JoinedOnce(joint, turns, w.fetch);
    JoinedPublished(joint, turns, w.fetch);
    AllInTurn(joint, turns, |w.fetch|);
    out, answered := out + more, answered || late;
  }

  lemma AllInTurn(joint: seq<nat>, turns: seq<nat>, n: nat)
    ensures InTurn(joint, turns, n) ==> AllAsked(joint + turns, n)
  {
  }

  predicate AllFailed(w: World, order: seq<nat>) {
    forall s :: 0 <= s < |w.fetch| ==> s in order && w.fetch[s].Failed?
  }

  /** What a lookup over n sources sends, and whom it asks to send it. */
  ghost predicate Searched(n: nat, w: World, out: seq<Batch>, joint: seq<nat>, turns: seq<nat>)
    requires w.Valid(n)
  {
    if n == 0 then out == [Error] && joint == turns == []
    else if Settled(w) then out == [Addresses(Opening(w), -1)] && joint == turns == []
    else
      && Asked(w, Opening(w) != [], joint, turns)
      && out == First(w) + Published(joint + turns, w.fetch) + (if Heard(joint + turns, w.fetch) then [] else [Error])
      && (Error in out <==> AllFailed(w, joint + turns))
  }

  /** LookupIPCandidates without a matching policy. */
  method Lookup(n: nat, w: World) returns (out: seq<Batch>, joint: seq<nat>, turns: seq<nat>)
    requires w.Valid(n)
    ensures Once(joint + turns, n) && 1 <= |out| <= n + 1
    ensures Searched(n, w, out, joint, turns)
  {
    out, joint, turns := [], [], [];
    if n == 0 {
      return [Error], [], [];
    }
    var candidates, settled := Open(w);
    var warm := |candidates| > 0;
    if warm {
      out := out + [Addresses(candidates, -1)];
    }
    if settled {
      if !warm {
        out := out + [Addresses([], -1)];
      }
      return;
    }
    assert out == First(w);
    var more, answered;
    more, joint, turns, answered := Ask(w, warm);
    OnceFits(joint + turns, n);
    PublishedSize(joint + turns, w.fetch);
    out := out + more;
    if !answered {
      out := out + [Error];
    } else {
      assert out == out + [];
    }
    ErrorMeansAllFailed(n, w, joint + turns, out);
  }

  function Below(n: nat): (r: set<nat>)
    ensures |r| == n && forall s: nat :: s in r <==> s < n
  {
    if n == 0 then {} else Below(n - 1) + {n - 1}
  }

  lemma OnceFits(order: seq<nat>, n: nat)
    requires Once(order, n)
    ensures |order| <= n
  {
    OnceWithin(order, Below(n));
  }

  lemma {:induction false} OnceWithin(order: seq<nat>, all: set<nat>)
    requires (forall i :: 0 <= i < |order| ==> order[i] in all)
    requires (forall i, j :: 0 <= i < j < |order| ==> order[i] != order[j])
    ensures |order| <= |all|
  {
    if order != [] {
      var n := |order| - 1;
      OnceWithin(order[..n], all - {order[n]});
    }
  }

  lemma JoinedOnce(a: seq<nat>, b: seq<nat>, fetch: seq<Fetch>)
    requires Once(a, |fetch|) && Once(b, |fetch|) && forall s :: s in b ==> s !in a
    ensures Once(a + b, |fetch|)
    ensures Heard(a + b, fetch) <==> Heard(a, fetch) || Heard(b, fetch)
    ensures Found(a + b, fetch) <==> Found(a, fetch) || Found(b, fetch)
  {
    var ab := a + b;
    assert forall i :: 0 <= i < |a| ==> ab[i] == a[i];
    forall i | 0 <= i < |b| ensures ab[|a| + i] == b[i] && b[i] !in a {
      assert b[i] in b;
    }
    assert Once(ab, |fetch|);
    if i :| 0 <= i < |b| && fetch[b[i]].Answer? {
      assert fetch[ab[|a| + i]].Answer?;
    }
    if i :| 0 <= i < |b| && HasAddresses(fetch[b[i]]) {
      assert HasAddresses(fetch[ab[|a| + i]]);
    }
  }

  lemma {:induction false} JoinedPublished(a: seq<nat>, b: seq<nat>, fetch: seq<Fetch>)
    requires Within(a, |fetch|) && Within(b, |fetch|) && Within(a + b, |fetch|)
    ensures Published(a + b, fetch) == Published(a, fetch) + Published(b, fetch)
  {
    if b == [] {
      assert a + b == a;
    } else {
      var n := |b| - 1;
      var front := a + b[..n];
      assert (a + b)[..|a| + n] == front;
      assert Within(front, |fetch|);
      JoinedPublished(a, b[..n], fetch);
      Regroup(Published(a, fetch), Published(b[..n], fetch), BatchOf(b[n], fetch));
    }
  }

  lemma Regroup(a: seq<Batch>, b: seq<Batch>, c: seq<Batch>)
    ensures a + b + c == a + (b + c)
  {
  }

  /** No more batches than sources, and none at all when none was heard. */
  lemma {:induction false} PublishedSize(order: seq<nat>, fetch: seq<Fetch>)
    requires Within(order, |fetch|)
    ensures |Published(order, fetch)| <= |order|
    ensures Heard(order, fetch) <==> Published(order, fetch) != []
  {
    if order != [] {
      var n := |order| - 1;
      PublishedSize(order[..n], fetch);
      HeardLast(order, fetch);
    }
  }

  lemma HeardLast(order: seq<nat>, fetch: seq<Fetch>)
    requires Within(order, |fetch|) && order != []
    ensures Heard(order, fetch) <==> Heard(order[..|order| - 1], fetch) || fetch[order[|order| - 1]].Answer?
  {
    var front := order[..|order| - 1];
    assert forall i :: 0 <= i < |front| ==> front[i] == order[i];
    if Heard(front, fetch) {
      var i :| 0 <= i < |front| && fetch[front[i]].Answer?;
      assert fetch[order[i]].Answer?;
    }
  }

  /** An error is reported only after every source was asked and failed. */
  lemma ErrorMeansAllFailed(n: nat, w: World, order: seq<nat>, out: seq<Batch>)
    requires n > 0 && w.Valid(n) && Once(order, n)
    requires out == First(w) + Published(order, w.fetch) + (if Heard(order, w.fetch) then [] else [Error])
    requires Found(order, w.fetch) || AllAsked(order, n)
    ensures Error in out <==> AllFailed(w, order)
  {
    FoundIsHeard(order, w.fetch);
    PublishedHas(order, w.fetch, Error);
    if Error in out {
      assert AllAsked(order, n);
      forall s | 0 <= s < n ensures s in order && w.fetch[s].Failed? {
        assert s in order;
        var i :| 0 <= i < |order| && order[i] == s;
        assert !w.fetch[order[i]].Answer?;
      }
    }
  }

  lemma FoundIsHeard(order: seq<nat>, fetch: seq<Fetch>)
    requires Once(order, |fetch|)
    ensures Found(order, fetch) ==> Heard(order, fetch)
  {
    if i :| 0 <= i < |order| && HasAddresses(fetch[order[i]]) {
      assert fetch[order[i]].Answer?;
    }
  }

  /** LookupIPCandidates: with a policy for the name, its servers alone are asked. */
  method LookupCandidates(n: nat, policy: Option<Fetch>, w: World)
    returns (out: seq<Batch>, joint: seq<nat>, turns: seq<nat>)
    requires w.Valid(n)
    ensures Once(joint + turns, n) && 1 <= |out| <= n + 1
    ensures n == 0 || policy.None? ==> Searched(n, w, out, joint, turns)
    ensures n > 0 && policy.Some? ==> joint == turns == [] && |out| == 1
    ensures n > 0 && policy.Some? && w.aggregate.Some? ==> out == [Addresses(w.aggregate.value.ips, -1)]
    ensures n > 0 && policy.Some? && w.aggregate.None? ==>
      match policy.value case Answer(ips) => out == [Addresses(ips, -1)] case Failed => out == [Error]
  {
    if n > 0 && policy.Some? {
      joint, turns := [], [];
      if w.aggregate.Some? {
        out := [Addresses(w.aggregate.value.ips, -1)];
      } else {
        out := [match policy.value case Answer(ips) => Addresses(ips, -1) case Failed => Error];
      }
      return;
    }
    out, joint, turns := Lookup(n, w);
  }
}
