/**
 The per-address clients of a DNS server race (`addressClientEntry`): acquired and
 released by reference count, marked stale by a prune, and reset exactly when they
 leave the map. Entries are numbered, so that an entry created again for the same
 address is a different one.
 */
module AddressPool {
  import opened NetTypes

  datatype Entry = Entry(ip: Addr, users: int, stale: bool)

  /** `doomed` entries have left the map and their connection is about to be reset;
      `resets` are the reset calls made by release and prune so far. */
  datatype Pool = Pool(
    clients: map<Addr, nat>,
    entries: map<nat, Entry>,
    tokens: map<nat, nat>,
    doomed: set<nat>,
    resets: seq<nat>,
    nextId: nat)

  const NO_CLIENTS := Pool(map[], map[], map[], {}, [], 0)

  // ---------------------------------------------------------------- the sections

  /** `acquireLocked`; `token` stands for the release closure it returns. */
  function Acquire(p: Pool, ip: Addr, token: nat): Pool {
    if ip in p.clients && p.clients[ip] in p.entries then
      var id := p.clients[ip];
      var e := p.entries[id];
      p.(entries := p.entries[id := e.(users := e.users + 1, stale := false)], tokens := p.tokens[token := id])
    else
      p.(clients := p.clients[ip := p.nextId], entries := p.entries[p.nextId := Entry(ip, 1, false)],
         tokens := p.tokens[token := p.nextId], nextId := p.nextId + 1)
  }

  /** The locked part of the release closure; without its closure nothing is released. */
  function Release(p: Pool, token: nat): Pool {
    if token !in p.tokens || p.tokens[token] !in p.entries then p
    else
      var id := p.tokens[token];
      var e := p.entries[id];
      var u := p.(entries := p.entries[id := e.(users := e.users - 1)], tokens := p.tokens - {token});
      if e.stale && e.users == 1 then u.(clients := u.clients - {e.ip}, doomed := u.doomed + {id}) else u
  }

  predicate Mapped(p: Pool, id: nat) {
    id in p.entries && p.entries[id].ip in p.clients && p.clients[p.entries[id].ip] == id
  }

  /** The entries a prune retires on the spot. */
  function Unused(p: Pool, keep: set<Addr>): set<nat> {
    set id | id in p.entries && Mapped(p, id) && p.entries[id].ip !in keep && p.entries[id].users == 0
  }

  function Marked(p: Pool, id: nat, keep: set<Addr>): Entry
    requires id in p.entries
  {
    if Mapped(p, id) && p.entries[id].ip !in keep then p.entries[id].(stale := true) else p.entries[id]
  }

  function Prune(p: Pool, keep: set<Addr>): Pool {
    p.(entries := map id | id in p.entries :: Marked(p, id, keep),
       clients := map ip | ip in p.clients && p.clients[ip] !in Unused(p, keep) :: p.clients[ip],
       doomed := p.doomed + Unused(p, keep))
  }

  /** `ResetConnection` after the lock was released. */
  function Reset(p: Pool, id: nat): Pool {
    p.(doomed := p.doomed - {id}, resets := p.resets + [id])
  }

  // ---------------------------------------------------------------- invariant

  function TokensOf(p: Pool, id: nat): set<nat> {
    set t | t in p.tokens && p.tokens[t] == id
  }

  predicate Retired(p: Pool, id: nat) {
    id in p.doomed || id in p.resets
  }

  /** An entry's users are its unreleased tokens; it is in the map or retired, never both;
      a retired entry is unused and stale, and a stale one in the map is used. */
  ghost predicate EntryOk(p: Pool, id: nat) {
    id in p.entries ==>
      && p.entries[id].users == |TokensOf(p, id)|
      && (Mapped(p, id) <==> !Retired(p, id))
      && (Retired(p, id) ==> p.entries[id].users == 0 && p.entries[id].stale)
      && (Mapped(p, id) && p.entries[id].stale ==> p.entries[id].users > 0)
  }

  ghost predicate ClientsNamed(p: Pool) {
    forall ip :: ip in p.clients ==> p.clients[ip] in p.entries && p.entries[p.clients[ip]].ip == ip
  }

  ghost predicate PoolInv(p: Pool) {
    && (forall id :: EntryOk(p, id))
    && ClientsNamed(p)
    && (forall t :: t in p.tokens ==> p.tokens[t] in p.entries)
    && (forall id :: id in p.entries ==> id < p.nextId)
    && (forall id :: Retired(p, id) ==> id in p.entries)
    && (forall i, j :: 0 <= i < j < |p.resets| ==> p.resets[i] != p.resets[j])
    && (forall id :: id in p.doomed ==> id !in p.resets)
  }

  /** A token still to be released keeps its entry in use and in the map. */
  lemma TokenKeepsMapped(p: Pool, token: nat)
    requires PoolInv(p) && token in p.tokens
    ensures var id := p.tokens[token]; id in p.entries && p.entries[id].users > 0 && Mapped(p, id) && !Retired(p, id)
  {
    var id := p.tokens[token];
    assert EntryOk(p, id) && token in TokensOf(p, id);
  }

  lemma AcquireKnown(p: Pool, ip: Addr, token: nat)
    requires PoolInv(p) && token !in p.tokens && ip in p.clients
    ensures PoolInv(Acquire(p, ip, token))
  {
    var u := Acquire(p, ip, token);
    var hit := p.clients[ip];
    var e := p.entries[hit];
    assert u == p.(entries := p.entries[hit := e.(users := e.users + 1, stale := false)],
                   tokens := p.tokens[token := hit]);
    assert Mapped(p, hit) && EntryOk(p, hit);
    assert TokensOf(u, hit) == TokensOf(p, hit) + {token} && token !in TokensOf(p, hit);
    assert EntryOk(u, hit);
    forall id | id != hit ensures EntryOk(u, id) {
      assert EntryOk(p, id);
      assert TokensOf(u, id) == TokensOf(p, id);
      assert Mapped(u, id) <==> Mapped(p, id);
    }
  }

  lemma AcquireNew(p: Pool, ip: Addr, token: nat)
    requires PoolInv(p) && token !in p.tokens && ip !in p.clients
    ensures PoolInv(Acquire(p, ip, token))
  {
    var u := Acquire(p, ip, token);
    var hit := p.nextId;
    assert TokensOf(p, hit) == {};
    assert TokensOf(u, hit) == {token};
    forall id ensures EntryOk(u, id) {
      assert EntryOk(p, id);
      if id != hit {
        assert TokensOf(u, id) == TokensOf(p, id);
        assert Mapped(u, id) <==> Mapped(p, id);
      }
    }
  }

  lemma AcquireKeeps(p: Pool, ip: Addr, token: nat)
    requires PoolInv(p) && token !in p.tokens
    ensures PoolInv(Acquire(p, ip, token))
  {
    if ip in p.clients {
      AcquireKnown(p, ip, token);
    } else {
      AcquireNew(p, ip, token);
    }
  }

  lemma ReleaseKeeps(p: Pool, token: nat)
    requires PoolInv(p) && token in p.tokens
    ensures PoolInv(Release(p, token))
  {
    TokenKeepsMapped(p, token);
    var u := Release(p, token);
    var hit := p.tokens[token];
    forall id ensures EntryOk(u, id) {
      assert EntryOk(p, id);
      assert TokensOf(u, id) == if id == hit then TokensOf(p, id) - {token} else TokensOf(p, id);
    }
  }

  lemma PruneKeeps(p: Pool, keep: set<Addr>)
    requires PoolInv(p)
    ensures PoolInv(Prune(p, keep))
  {
    var u := Prune(p, keep);
    forall id ensures EntryOk(u, id) {
      assert EntryOk(p, id);
      assert TokensOf(u, id) == TokensOf(p, id);
      assert Mapped(u, id) <==> Mapped(p, id) && id !in Unused(p, keep);
    }
    forall id | id in Unused(p, keep) ensures !Retired(p, id) {
      assert EntryOk(p, id);
    }
  }

  lemma ResetKeeps(p: Pool, id: nat)
    requires PoolInv(p) && id in p.doomed
    ensures PoolInv(Reset(p, id))
  {
    var u := Reset(p, id);
    forall k ensures EntryOk(u, k) {
      assert EntryOk(p, k);
      assert TokensOf(u, k) == TokensOf(p, k);
      assert Mapped(u, k) == Mapped(p, k);
    }
  }

  // ---------------------------------------------------------------- the object

  class ClientPool {
    var clients: map<Addr, nat>
    var entries: map<nat, Entry>
    var tokens: map<nat, nat>
    var nextId: nat
    ghost var doomed: set<nat>
    ghost var resets: seq<nat>

    ghost function View(): Pool
      reads this
    {
      Pool(clients, entries, tokens, doomed, resets, nextId)
    }

    constructor ()
      ensures View() == NO_CLIENTS && PoolInv(View())
    {
      clients, entries, tokens, nextId, doomed, resets := map[], map[], map[], 0, {}, [];
      new;
      assert forall id :: EntryOk(NO_CLIENTS, id);
    }

    method AcquireClient(ip: Addr, token: nat) returns (id: nat)
      requires PoolInv(View()) && token !in tokens
      modifies this
      ensures View() == Acquire(old(View()), ip, token) && PoolInv(View())
      ensures ip in clients && id == clients[ip] && tokens[token] == id
    {
      AcquireKeeps(View(), ip, token);
      if ip !in clients {
        clients, entries, nextId := clients[ip := nextId], entries[nextId := Entry(ip, 0, false)], nextId + 1;
      }
      id := clients[ip];
      entries := entries[id := entries[id].(users := entries[id].users + 1, stale := false)];
      tokens := tokens[token := id];
    }

    /** Says whether the caller must reset the client after unlocking. */
    method ReleaseClient(token: nat) returns (close: bool)
      requires PoolInv(View()) && token in tokens
      modifies this
      ensures View() == Release(old(View()), token) && PoolInv(View())
      ensures close <==> old(tokens)[token] in doomed
    {
      TokenKeepsMapped(View(), token);
      ReleaseKeeps(View(), token);
      var id := tokens[token];
      entries := entries[id := entries[id].(users := entries[id].users - 1)];
      tokens := tokens - {token};
      close := entries[id].stale && entries[id].users == 0;
      if close {
        clients, doomed := clients - {entries[id].ip}, doomed + {id};
      }
    }

    /** Visits the clients in any order and returns the retired ones, to be reset. */
    method PruneClients(keep: set<Addr>) returns (retired: set<nat>)
      requires PoolInv(View())
      modifies this
      ensures View() == Prune(old(View()), keep) && PoolInv(View())
      ensures retired == Unused(old(View()), keep)
    {
      ghost var p := View();
      var left, marked;
      left, marked, retired := MarkStale(clients, entries, keep, p);
      PruneKeeps(p, keep);
      clients, entries, doomed := left, marked, doomed + retired;
    }

    static method MarkOne(ip: Addr, id: nat, left: map<Addr, nat>, marked: map<nat, Entry>, retired: set<nat>,
                          ghost p: Pool, ghost keep: set<Addr>)
      returns (left': map<Addr, nat>, marked': map<nat, Entry>, retired': set<nat>)
      requires ClientsNamed(p) && ip in p.clients && id == p.clients[ip] && ip in keep
      requires left == Prune(p, keep).clients && marked == Prune(p, keep).entries && retired == Unused(p, keep)
      ensures left' == Prune(p, keep - {ip}).clients && marked' == Prune(p, keep - {ip}).entries
      ensures retired' == Unused(p, keep - {ip})
    {
      PruneOneMore(p, keep, ip);
      left', retired' := left, retired;
      marked' := marked[id := marked[id].(stale := true)];
      if marked'[id].users == 0 {
        left', retired' := left - {ip}, retired + {id};
      }
    }

    static method MarkStale(clients: map<Addr, nat>, entries: map<nat, Entry>, keep: set<Addr>, ghost p: Pool)
      returns (left: map<Addr, nat>, marked: map<nat, Entry>, retired: set<nat>)
      requires ClientsNamed(p) && clients == p.clients && entries == p.entries
      ensures left == Prune(p, keep).clients && marked == Prune(p, keep).entries && retired == Unused(p, keep)
    {
      left, marked, retired := clients, entries, {};
      var unseen := clients.Keys;
      PruneNone(p, keep + unseen);
      while unseen != {}
        invariant unseen <= clients.Keys
        invariant left == Prune(p, keep + unseen).clients && marked == Prune(p, keep + unseen).entries
        invariant retired == Unused(p, keep + unseen)
        decreases |unseen|
      {
        var ip :| ip in unseen;
        VisitOne(keep, unseen, ip);
        if ip !in keep {
          left, marked, retired := MarkOne(ip, clients[ip], left, marked, retired, p, keep + unseen);
        }
        unseen := unseen - {ip};
      }
      assert keep + unseen == keep;
    }
  }

  lemma VisitOne(keep: set<Addr>, unseen: set<Addr>, ip: Addr)
    requires ip in unseen
    ensures keep + (unseen - {ip}) == if ip in keep then keep + unseen else keep + unseen - {ip}
    ensures |unseen - {ip}| < |unseen|
  {
  }

  lemma PruneNone(p: Pool, keep: set<Addr>)
    requires p.clients.Keys <= keep
    ensures Prune(p, keep).clients == p.clients && Prune(p, keep).entries == p.entries && Unused(p, keep) == {}
  {
  }

  /** What visiting one more client adds to a prune. */
  lemma PruneOneMore(p: Pool, keep: set<Addr>, ip: Addr)
    requires ClientsNamed(p) && ip in p.clients && ip in keep
    ensures var (u, v, id) := (Prune(p, keep), Prune(p, keep - {ip}), p.clients[ip]);
      && id in u.entries && u.entries[id].users == p.entries[id].users
      && v.entries == u.entries[id := u.entries[id].(stale := true)]
      && Unused(p, keep - {ip}) == Unused(p, keep) + (if p.entries[id].users == 0 then {id} else {})
      && v.clients == if p.entries[id].users == 0 then u.clients - {ip} else u.clients
  {
    var (u, v, id) := (Prune(p, keep), Prune(p, keep - {ip}), p.clients[ip]);
    assert Mapped(p, id);
    assert forall k :: k in p.entries && Mapped(p, k) && p.entries[k].ip == ip ==> k == id;
    assert Unused(p, keep - {ip}) == Unused(p, keep) + (if p.entries[id].users == 0 then {id} else {});
    assert id !in Unused(p, keep);
  }
}
