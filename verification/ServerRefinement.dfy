/** The storage server's calls are steps of the lease protocol.

    A state of the protocol mirrors the server if it has the same clock and the same store, and its
    books are the server's ledgers read as maps.  Then a read of the server is an answer of the
    protocol, and a write is a run of it: the lock is taken, each tenant in turn is skipped, or called
    and waited for, and the change is committed. */
module ServerRefinement {
  import opened Ordered
  import opened KeyCodec
  import opened LeaseRpc
  import opened ClientCache
  import opened LeaseProtocol
  import opened StorageServer
  import L = ListStore

  ghost predicate AreLedgers(tenants: Tenancy) {
    forall k | k in tenants :: IsLedger(tenants[k])
  }

  ghost predicate Mirrors(s: State, now: int, storage: L.Storage, tenants: Tenancy) {
    && s.now == now && s.storage == storage && AreLedgers(tenants)
    && s.ledger.Keys == tenants.Keys
    && (forall k | k in tenants :: s.ledger[k] == LedgerMap(tenants[k]))
  }

  lemma MirroredTenants(s: State, now: int, storage: L.Storage, tenants: Tenancy, key: Key)
    requires Mirrors(s, now, storage, tenants)
    ensures IsLedger(LedgerAt(tenants, key)) && Tenants(s, key) == LedgerMap(LedgerAt(tenants, key))
  {
  }

  lemma MirrorLedger(s: State, s': State, now: int, storage: L.Storage, tenants: Tenancy, key: Key, longer: seq<string>)
    requires Mirrors(s, now, storage, tenants) && IsLedger(longer)
    requires s'.now == now && s'.storage == storage && s'.ledger == s.ledger[key := LedgerMap(longer)]
    ensures Mirrors(s', now, storage, tenants[key := longer])
  {
  }

  lemma AnswerNotes(s: State, id: nat)
    requires Enabled(s, Serve(id)) && s.flights[id].site.key in s.storage && s.flights[id].want
    ensures var f, s' := s.flights[id], Apply(s, Serve(id));
            var noted := Noted(Tenants(s, f.site.key), f.site.host, s.now);
            && s'.now == s.now && s'.storage == s.storage && s'.ledger == s.ledger[f.site.key := noted]
            && id in s'.flights && s'.flights[id].reply.Some?
            && s'.flights[id].reply.value.value == View(f.kind, s.storage[f.site.key])
            && s'.flights[id].reply.value.stamp == noted[f.site.host]
  {
  }

  /** A leased read.  `longer` is the key's ledger after `AddLease`. */
  lemma ReadIsAnAnswer(s: State, now: int, storage: L.Storage, tenants: Tenancy, id: nat, longer: seq<string>)
    requires Mirrors(s, now, storage, tenants) && Enabled(s, Serve(id))
    requires s.flights[id].site.key in storage && s.flights[id].want
    requires Lent(LedgerAt(tenants, s.flights[id].site.key), longer, s.flights[id].site.host, now)
    ensures var f, s' := s.flights[id], Apply(s, Serve(id));
            && Mirrors(s', now, storage, tenants[f.site.key := longer])
            && id in s'.flights && s'.flights[id].reply.Some?
            && s'.flights[id].reply.value.value == View(f.kind, storage[f.site.key])
  {
    var key := s.flights[id].site.key;
    MirroredTenants(s, now, storage, tenants, key);
    AnswerNotes(s, id);
    MirrorLedger(s, Apply(s, Serve(id)), now, storage, tenants, key, longer);
  }

  /** A read without a lease, or of a key that is not stored, leaves the server as it is; the second kind
      is not answered with a value. */
  lemma OtherReadIsAnAnswer(s: State, now: int, storage: L.Storage, tenants: Tenancy, id: nat)
    requires Mirrors(s, now, storage, tenants) && Enabled(s, Serve(id))
    requires !s.flights[id].want || s.flights[id].site.key !in storage
    ensures var f, s' := s.flights[id], Apply(s, Serve(id));
            && Mirrors(s', now, storage, tenants)
            && (id in s'.flights <==> f.site.key in storage)
            && (f.site.key in storage ==>
                  s'.flights[id].reply.Some? && s'.flights[id].reply.value.value == View(f.kind, storage[f.site.key]))
  {
  }

  /** `GetList` answers all items, `Get` the first, or an empty string if there is none. */
  lemma ViewIsAnswer(v: Value)
    ensures View(List, v) == v
    ensures |View(Scalar, v)| == 1 && (v != [] ==> View(Scalar, v)[0] == v[0]) && (v == [] ==> View(Scalar, v)[0] == "")
  {
  }

  // ---- runs from a given state ----

  ghost predicate Path(s: State, steps: seq<Step>, s': State)
    decreases steps
  {
    if steps == [] then s == s' else Enabled(s, steps[0]) && Path(Apply(s, steps[0]), steps[1..], s')
  }

  lemma {:induction false} PathJoin(s: State, a: seq<Step>, s1: State, b: seq<Step>, s2: State)
    requires Path(s, a, s1) && Path(s1, b, s2)
    ensures Path(s, a + b, s2)
    decreases a
  {
    if a == [] {
      assert a + b == b;
    } else {
      PathJoin(Apply(s, a[0]), a[1..], s1, b, s2);
      assert (a + b)[0] == a[0] && (a + b)[1..] == a[1..] + b;
    }
  }

  lemma PathOne(s: State, step: Step, s1: State)
    requires Enabled(s, step) && s1 == Apply(s, step)
    ensures Path(s, [step], s1)
  {
    assert [step][1..] == [];
    assert Path(s1, [], s1);
  }

  lemma PathMore(s: State, steps: seq<Step>, s1: State, step: Step, s2: State)
    requires Path(s, steps, s1) && Enabled(s1, step) && s2 == Apply(s1, step)
    ensures Path(s, steps + [step], s2)
  {
    PathOne(s1, step, s2);
    PathJoin(s, steps, s1, [step], s2);
  }

  // ---- one tenant ----

  /** Every client with the key cached has a record of it, so callbacks do what they should. */
  ghost predicate CallbacksWork(s: State, key: Key) {
    forall h :: CachedHasRecord(SlotAt(s, Site(h, key)))
  }

  /** The write of `key` is about to deal with the hosts of `list`. */
  ghost predicate AtTenants(s: State, key: Key, op: L.Op, list: seq<string>) {
    && s.lock.Some? && s.lock.value.key == key && s.lock.value.op == op && !s.lock.value.calling
    && AreRecords(list) && s.lock.value.todo == HostsOf(list)
    && (forall r | r in list :: RecordHost(r) in Tenants(s, key) && Tenants(s, key)[RecordHost(r)] == RecordTime(r))
    && CallbacksWork(s, key)
  }

  function HostsOf(list: seq<string>): (hosts: seq<Host>)
    ensures |hosts| == |list|
  {
    seq(|list|, i requires 0 <= i < |list| => HostOf(list[i]))
  }

  lemma TenantGone(s: State, s': State, key: Key, op: L.Op, list: seq<string>)
    requires list != [] && AtTenants(s, key, op, list) && SameData(s, s') && CallbacksWork(s', key)
    requires s'.lock.Some? && s'.lock.value.key == key && s'.lock.value.op == op && !s'.lock.value.calling
    requires s'.lock.value.todo == s.lock.value.todo[1..]
    ensures AtTenants(s', key, op, list[1..])
  {
    assert HostsOf(list)[1..] == HostsOf(list[1..]);
    assert forall r | r in list[1..] :: r in list;
  }

  lemma SkipPath(s: State, key: Key, op: L.Op, list: seq<string>) returns (steps: seq<Step>, s': State)
    requires list != [] && AtTenants(s, key, op, list) && Expiry(RecordTime(list[0])) < s.now
    ensures Path(s, steps, s') && SameData(s, s') && s'.now == s.now && AtTenants(s', key, op, list[1..])
  {
    assert list[0] in list;
    s' := Apply(s, Skip);
    steps := [Skip];
    PathOne(s, Skip, s');
    TenantGone(s, s', key, op, list);
  }

  /** The first tenant is called, and `d` seconds pass. */
  lemma CallPath(s: State, key: Key, op: L.Op, list: seq<string>, d: nat) returns (steps: seq<Step>, s': State)
    requires list != [] && AtTenants(s, key, op, list) && Expiry(RecordTime(list[0])) >= s.now
    ensures Path(s, steps, s')
    ensures s' == s.(now := s.now + d, lock := Some(s.lock.value.(calling := true)))
  {
    assert list[0] in list;
    var s1 := s.(lock := Some(s.lock.value.(calling := true)));
    s' := s1.(now := s.now + d);
    PathOne(s, Call, s1);
    PathMore(s, [Call], s1, Tick(d), s');
    steps := [Call] + [Tick(d)];
  }

  lemma TimeoutPath(s: State, key: Key, op: L.Op, list: seq<string>) returns (steps: seq<Step>, s': State)
    requires list != [] && AtTenants(s, key, op, list) && Expiry(RecordTime(list[0])) >= s.now
    ensures Path(s, steps, s') && SameData(s, s') && s'.now == Expiry(RecordTime(list[0])) && AtTenants(s', key, op, list[1..])
  {
    var called, s1 := CallPath(s, key, op, list, Expiry(RecordTime(list[0])) - s.now);
    assert list[0] in list;
    s' := Apply(s1, Timeout);
    PathMore(s, called, s1, Timeout, s');
    steps := called + [Timeout];
    assert forall site :: SlotAt(s', site) == SlotAt(s, site);
    TenantGone(s, s', key, op, list);
  }

  /** The callback of the tenant that is waited for, and the acknowledgement. */
  lemma AckStates(s: State, site: Site) returns (s1: State, s2: State)
    requires Waiting(s) && site == Site(s.lock.value.todo[0], s.lock.value.key) && CachedHasRecord(SlotAt(s, site))
    ensures Enabled(s, Callback(site)) && s1 == Apply(s, Callback(site))
    ensures Enabled(s1, Ack) && s2 == Apply(s1, Ack)
    ensures SameData(s, s2) && s2.now == s.now && s2.lock.Some?
    ensures var w, w' := s.lock.value, s2.lock.value;
            w'.key == w.key && w'.op == w.op && !w'.calling && w'.todo == w.todo[1..]
    ensures SlotAt(s2, site).cached.None? && forall x | x != site :: SlotAt(s2, x) == SlotAt(s, x)
  {
    s1 := Apply(s, Callback(site));
    s2 := Apply(s1, Ack);
  }

  /** The tenant answers after `d` seconds: it has run the callback. */
  lemma AnswerPath(s: State, key: Key, op: L.Op, list: seq<string>, d: nat) returns (steps: seq<Step>, s': State)
    requires list != [] && AtTenants(s, key, op, list) && Expiry(RecordTime(list[0])) >= s.now
    ensures Path(s, steps, s') && SameData(s, s') && s'.now == s.now + d && AtTenants(s', key, op, list[1..])
    ensures SlotAt(s', Site(HostOf(list[0]), key)).cached.None?
  {
    var called, s1 := CallPath(s, key, op, list, d);
    var site := Site(HostOf(list[0]), key);
    assert forall x :: SlotAt(s1, x) == SlotAt(s, x);
    assert CachedHasRecord(SlotAt(s, site));
    var s2;
    s2, s' := AckStates(s1, site);
    PathMore(s, called, s1, Callback(site), s2);
    PathMore(s, called + [Callback(site)], s2, Ack, s');
    steps := called + [Callback(site)] + [Ack];
    forall h ensures CachedHasRecord(SlotAt(s', Site(h, key))) { assert CachedHasRecord(SlotAt(s, Site(h, key))); }
    TenantGone(s, s', key, op, list);
  }

  // ---- the whole loop, and the whole write ----

  lemma TenantPath(s: State, key: Key, op: L.Op, list: seq<string>, answers: string -> Option<nat>) returns (steps: seq<Step>, s': State)
    requires list != [] && AtTenants(s, key, op, list)
    ensures Path(s, steps, s') && SameData(s, s') && AtTenants(s', key, op, list[1..])
    ensures s'.now == DoneWith(list[0], answers, s.now)
  {
    var expiry, answer := Expiry(RecordTime(list[0])), answers(RecordHost(list[0]));
    if expiry < s.now {
      steps, s' := SkipPath(s, key, op, list);
    } else if answer.Some? && s.now + answer.value <= expiry {
      steps, s' := AnswerPath(s, key, op, list, answer.value);
    } else {
      steps, s' := TimeoutPath(s, key, op, list);
    }
  }

  lemma {:induction false} LoopPath(s: State, key: Key, op: L.Op, list: seq<string>, answers: string -> Option<nat>)
    returns (steps: seq<Step>, s': State)
    requires AtTenants(s, key, op, list)
    ensures Path(s, steps, s') && SameData(s, s') && AtTenants(s', key, op, [])
    ensures s'.now == LoopEnd(list, answers, s.now)
    decreases |list|
  {
    if list == [] {
      steps, s' := [], s;
    } else {
      var first, s1 := TenantPath(s, key, op, list, answers);
      var rest;
      rest, s' := LoopPath(s1, key, op, list[1..], answers);
      steps := first + rest;
      PathJoin(s, first, s1, rest, s');
    }
  }

  lemma BeginPath(s: State, key: Key, op: L.Op, list: seq<string>) returns (step: Step, s': State)
    requires s.lock.None? && IsLedger(list) && Tenants(s, key) == LedgerMap(list) && CallbacksWork(s, key)
    requires var e := L.Plan(L.Lookup(s.storage, key), op); e.Replace? && e.revokes
    ensures Enabled(s, step) && s' == Apply(s, step) && s'.now == s.now
    ensures SameData(s, s') && AtTenants(s', key, op, list)
  {
    step := BeginWrite(key, op, HostsOf(list));
    HostsAreTenants(list);
    s' := s.(lock := Some(WriteLock(key, op, s.now, HostsOf(list), false, {}, {})));
    forall h ensures CachedHasRecord(SlotAt(s', Site(h, key))) { assert CachedHasRecord(SlotAt(s, Site(h, key))); }
  }

  lemma HostsAreTenants(list: seq<string>)
    requires IsLedger(list)
    ensures Elems(HostsOf(list)) == LedgerMap(list).Keys
  {
    forall h ensures h in HostsOf(list) <==> h in LedgerMap(list) {
      if h in LedgerMap(list) {
        var r :| r in list && RecordHost(r) == h;
        var i :| 0 <= i < |list| && list[i] == r;
        assert HostsOf(list)[i] == h;
      }
    }
  }

  lemma CommitEnds(s: State, key: Key, op: L.Op)
    requires AtTenants(s, key, op, [])
    ensures Enabled(s, Commit)
    ensures var s' := Apply(s, Commit);
            && s'.lock.None? && s'.now == s.now
            && s'.storage == L.Apply(s.storage, key, op) && s'.ledger == s.ledger - {key}
  {
  }

  /** A write that calls leases in. */
  lemma RevokingWriteIsARun(
    s: State, now: int, storage: L.Storage, tenants: Tenancy, key: Key, op: L.Op, answers: string -> Option<nat>)
    returns (steps: seq<Step>, s': State)
    requires Mirrors(s, now, storage, tenants) && s.lock.None? && CallbacksWork(s, key)
    requires var e := L.Plan(L.Lookup(storage, key), op); e.Replace? && e.revokes
    ensures AreRecords(LedgerAt(tenants, key)) && Path(s, steps, s') && s'.lock.None?
    ensures Mirrors(s', LoopEnd(LedgerAt(tenants, key), answers, now), L.Apply(storage, key, op), tenants - {key})
  {
    var list := LedgerAt(tenants, key);
    MirroredTenants(s, now, storage, tenants, key);
    var begin, s1 := BeginPath(s, key, op, list);
    PathOne(s, begin, s1);
    var loop, s2 := LoopPath(s1, key, op, list, answers);
    PathJoin(s, [begin], s1, loop, s2);
    CommitEnds(s2, key, op);
    s' := Apply(s2, Commit);
    PathMore(s, [begin] + loop, s2, Commit, s');
    steps := [begin] + loop + [Commit];
  }

  /** Every write call of the server is a run of the protocol, whatever the clients are doing, as long
      as the callbacks it sends can be answered. */
  lemma WriteIsARun(
    s: State, now: int, storage: L.Storage, tenants: Tenancy, key: Key, op: L.Op, answers: string -> Option<nat>,
    end: int, storage': L.Storage, tenants': Tenancy)
    returns (steps: seq<Step>, s': State)
    requires Mirrors(s, now, storage, tenants) && s.lock.None? && CallbacksWork(s, key)
    requires Writes(now, storage, tenants, key, op, answers, end, storage', tenants')
    ensures Path(s, steps, s') && s'.lock.None? && Mirrors(s', end, storage', tenants')
  {
    var plan := L.Plan(L.Lookup(storage, key), op);
    if plan.Refuse? {
      steps, s' := [], s;
    } else if plan.revokes {
      steps, s' := RevokingWriteIsARun(s, now, storage, tenants, key, op, answers);
    } else {
      s' := Apply(s, QuietWrite(key, op));
      steps := [QuietWrite(key, op)];
      PathOne(s, QuietWrite(key, op), s');
    }
  }
}
