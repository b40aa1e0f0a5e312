/** The storage server's tables and calls (src/storageserver/storageserver_impl.go). */
module StorageServer {
  import opened Ordered
  import opened KeyCodec
  import opened LeaseRpc
  import opened ListStore
  import opened HashRing

  // ---- the lease ledger of one key ----

  /** Lease records sorted by host, one for each host. */
  ghost predicate IsLedger(list: seq<string>) {
    && (forall r | r in list :: '~' in r)
    && AscendingBy(list, RecordHost, StringLess)
  }

  /** A ledger has one record for each host. */
  lemma OneRecordPerHost(list: seq<string>, r: string, q: string)
    requires IsLedger(list) && r in list && q in list && RecordHost(r) == RecordHost(q)
    ensures r == q
  {
    StringOrder();
    var i :| 0 <= i < |list| && list[i] == r;
    var j :| 0 <= j < |list| && list[j] == q;
  }

  function HostOf(r: string): Host {
    FirstPartHasNoSeparator(r, '~');
    RecordHost(r)
  }

  /** So it is a map: which host was first leased the key when. */
  ghost function LedgerMap(list: seq<string>): (m: map<Host, int>)
    requires IsLedger(list)
    ensures forall r | r in list :: RecordHost(r) in m && m[RecordHost(r)] == RecordTime(r)
    ensures forall h | h in m :: exists r | r in list :: RecordHost(r) == h
  {
    assert forall r, q | r in list && q in list && RecordHost(r) == RecordHost(q) :: r == q by {
      forall r, q | r in list && q in list && RecordHost(r) == RecordHost(q) ensures r == q { OneRecordPerHost(list, r, q); }
    }
    map r | r in list :: HostOf(r) := RecordTime(r)
  }

  /** Adding a record at the slot of its host keeps a ledger a ledger if the host is new to it. */
  lemma LedgerInsert(list: seq<string>, i: nat, rec: string)
    requires IsLedger(list) && '~' in rec && i <= |list| && RecordHost(rec) !in LedgerMap(list)
    requires forall j | 0 <= j < i :: StringLess(RecordHost(list[j]), RecordHost(rec))
    requires forall j | i <= j < |list| :: !StringLess(RecordHost(list[j]), RecordHost(rec))
    ensures var longer := list[..i] + [rec] + list[i..];
            IsLedger(longer) && LedgerMap(longer) == LedgerMap(list)[HostOf(rec) := RecordTime(rec)]
  {
    StringOrder();
    var longer := list[..i] + [rec] + list[i..];
    forall j | i <= j < |list| ensures StringLess(RecordHost(rec), RecordHost(list[j])) {
      assert list[j] in list;
    }
    SpliceAscendingBy(list, i, rec, RecordHost, StringLess);
    SpliceElems(list, i, rec);
    assert forall r :: r in longer <==> r in Elems(longer);
    LedgerInsertMap(list, longer, rec);
  }

  lemma NewHostInLedger(list: seq<string>, i: nat, rec: string)
    requires i <= |list| && IsLedger(list[..i] + [rec] + list[i..])
    ensures forall r | r in list :: RecordHost(r) != RecordHost(rec)
  {
    StringOrder();
    var longer := list[..i] + [rec] + list[i..];
    forall r | r in list ensures RecordHost(r) != RecordHost(rec) {
      var j :| 0 <= j < |list| && list[j] == r;
      assert longer[i] == rec && longer[if j < i then j else j + 1] == r;
    }
  }

  /** Otherwise it is none. */
  lemma InsertedLedger(list: seq<string>, i: nat, rec: string)
    requires IsLedger(list) && '~' in rec && i <= |list|
    requires forall j | 0 <= j < i :: StringLess(RecordHost(list[j]), RecordHost(rec))
    requires forall j | i <= j < |list| :: !StringLess(RecordHost(list[j]), RecordHost(rec))
    requires RecordHost(rec) in LedgerMap(list) ==> i < |list| && RecordHost(list[i]) == RecordHost(rec)
    ensures var longer := list[..i] + [rec] + list[i..];
            && (IsLedger(longer) <==> RecordHost(rec) !in LedgerMap(list))
            && (IsLedger(longer) ==> LedgerMap(longer) == LedgerMap(list)[HostOf(rec) := RecordTime(rec)])
  {
    if RecordHost(rec) in LedgerMap(list) {
      if IsLedger(list[..i] + [rec] + list[i..]) { NewHostInLedger(list, i, rec); }
    } else {
      LedgerInsert(list, i, rec);
    }
  }

  lemma LedgerInsertMap(list: seq<string>, longer: seq<string>, rec: string)
    requires IsLedger(list) && IsLedger(longer) && RecordHost(rec) !in LedgerMap(list)
    requires forall r :: r in longer <==> r in list || r == rec
    ensures LedgerMap(longer) == LedgerMap(list)[HostOf(rec) := RecordTime(rec)]
  {
  }

  /** The first time at which a host is leased a key goes on its ledger, and nothing else does. */
  ghost predicate Lent(list: seq<string>, longer: seq<string>, host: Host, now: int) {
    IsLedger(list) && IsLedger(longer) && LedgerMap(longer) == Noted(LedgerMap(list), host, now)
  }

  /** One more record, somewhere. */
  ghost predicate AddsRecord(list: seq<string>, longer: seq<string>, rec: string) {
    exists i | 0 <= i <= |list| :: longer == list[..i] + [rec] + list[i..]
  }

  /** `recordLease`: the first time a host is leased a key is kept.  The result is a ledger again unless
      a host whose name holds a tilde reads back as a host already there.  Such a host is never found,
      so every lease of it adds a record. */
  method AddLease(list: seq<string>, host: string, now: int64) returns (longer: seq<string>)
    requires IsLedger(list)
    ensures '~' !in host ==> Lent(list, longer, host, now)
    ensures '~' in host ==> AddsRecord(list, longer, FormatLeaseRecord(host, now))
    ensures IsLedger(longer) <==> '~' !in host || RecordHost(FormatLeaseRecord(host, now)) !in LedgerMap(list)
  {
    StringOrder();
    var rec := FormatLeaseRecord(host, now);
    LeaseRecordRoundTrip(host, now);
    var i := BinarySearch(list, RecordHost, RecordHost(rec), StringLess);
    if i < |list| { FirstPartHasNoSeparator(list[i], '~'); }
    assert '~' in host ==> i >= |list| || RecordHost(list[i]) != host;
    if i >= |list| || RecordHost(list[i]) != host {
      longer := list[..i] + [rec] + list[i..];
      InsertedLedger(list, i, rec);
    } else {
      longer := list;
      assert list[i] in list;
    }
  }

  // ---- calling leases in ----

  /** By time `e` the lease has run out, or the client that was called at time `from` has answered.
      `answers` gives for each host how many seconds its callback takes, if it ever comes back. */
  predicate Over(rec: string, answers: string -> Option<nat>, from: int, e: int)
    requires '~' in rec
  {
    Expiry(RecordTime(rec)) <= e || (answers(RecordHost(rec)).Some? && from + answers(RecordHost(rec)).value <= e)
  }

  /** When the server is done with a tenant that it comes to at time `from`: at once if the lease has
      run out, and else when the answer comes or the lease runs out, whichever is first. */
  function DoneWith(rec: string, answers: string -> Option<nat>, from: int): (done: int)
    requires '~' in rec
    ensures from <= done && Over(rec, answers, from, done)
    ensures forall e | from <= e < done :: !Over(rec, answers, from, e)
  {
    var expiry, answer := Expiry(RecordTime(rec)), answers(RecordHost(rec));
    if expiry < from then from
    else if answer.Some? && from + answer.value <= expiry then from + answer.value
    else expiry
  }

  ghost predicate AreRecords(list: seq<string>) {
    forall r | r in list :: '~' in r
  }

  /** When the server is done with all of them. */
  ghost function LoopEnd(list: seq<string>, answers: string -> Option<nat>, from: int): (end: int)
    requires AreRecords(list)
    ensures from <= end
  {
    if list == [] then from else LoopEnd(list[1..], answers, DoneWith(list[0], answers, from))
  }

  /** The whole wait ends no later than the latest lease that is waited for runs out: one lease and its
      guard bound it, not one for each tenant. */
  lemma {:induction false} LoopEndBound(list: seq<string>, answers: string -> Option<nat>, from: int, start: int)
    requires AreRecords(list) && start <= from <= Expiry(start) && Past(list, start)
    ensures LoopEnd(list, answers, from) <= Expiry(start)
    ensures LoopEnd(list, answers, from) == from || exists r | r in list :: LoopEnd(list, answers, from) <= Expiry(RecordTime(r))
  {
    if list != [] {
      assert list[0] in list;
      LoopEndBound(list[1..], answers, DoneWith(list[0], answers, from), start);
    }
  }

  /** If every client answers within `d` seconds, the write waits at most so long for each of them. */
  lemma {:induction false} LoopEndIfAllAnswer(list: seq<string>, answers: string -> Option<nat>, from: int, d: nat)
    requires AreRecords(list) && forall r | r in list :: AnswersWithin(r, answers, d)
    ensures LoopEnd(list, answers, from) <= from + |list| * d
  {
    if list != [] {
      var r, rest := list[0], list[1..];
      assert AnswersWithin(r, answers, d) && Over(r, answers, from, from + d);
      LoopEndIfAllAnswer(rest, answers, DoneWith(r, answers, from), d);
      OneTimeMore(|rest|, d);
    }
  }

  predicate AnswersWithin(r: string, answers: string -> Option<nat>, d: nat) {
    answers(RecordHost(r)).Some? && answers(RecordHost(r)).value <= d
  }

  lemma OneTimeMore(n: nat, d: nat)
    ensures (n + 1) * d == n * d + d
  {
  }

  /** If none answers, it waits until all leases have run out, and no longer. */
  lemma {:induction false} LoopEndIfNoneAnswers(list: seq<string>, answers: string -> Option<nat>, from: int)
    requires AreRecords(list) && forall r | r in list :: answers(RecordHost(r)) == None
    ensures forall r | r in list :: Expiry(RecordTime(r)) <= LoopEnd(list, answers, from)
    ensures LoopEnd(list, answers, from) == from || exists r | r in list :: LoopEnd(list, answers, from) == Expiry(RecordTime(r))
  {
    if list != [] {
      var done := DoneWith(list[0], answers, from);
      assert list[0] in list && (done == from || !Over(list[0], answers, from, done - 1));
      LoopEndIfNoneAnswers(list[1..], answers, done);
      assert list[0] in list && forall r | r in list :: r == list[0] || r in list[1..];
    }
  }

  /** The server has come to the tenant and is done with it by `end`: the lease has run out, or the client
      has answered. */
  ghost predicate DealtWith(rec: string, answers: string -> Option<nat>, from: int, end: int) {
    '~' in rec && exists called, done | from <= called <= done <= end :: Over(rec, answers, called, done)
  }

  /** Every tenant is dealt with when the loop ends. */
  lemma {:induction false} LoopDealsWithAll(list: seq<string>, answers: string -> Option<nat>, from: int)
    requires AreRecords(list)
    ensures forall r | r in list :: DealtWith(r, answers, from, LoopEnd(list, answers, from))
  {
    if list != [] {
      var done, end := DoneWith(list[0], answers, from), LoopEnd(list, answers, from);
      assert list[0] in list;
      LoopDealsWithAll(list[1..], answers, done);
      assert DealtWith(list[0], answers, from, end);
      forall r | r in list[1..] ensures DealtWith(r, answers, from, end) {
        var called, done' :| done <= called <= done' <= end && Over(r, answers, called, done');
      }
      assert forall r | r in list :: r == list[0] || r in list[1..];
    }
  }

  lemma {:induction false} LoopEndSplit(a: seq<string>, b: seq<string>, answers: string -> Option<nat>, from: int)
    requires AreRecords(a) && AreRecords(b)
    ensures AreRecords(a + b) && LoopEnd(a + b, answers, from) == LoopEnd(b, answers, LoopEnd(a, answers, from))
  {
    if a == [] {
      assert a + b == b;
    } else {
      LoopEndSplit(a[1..], b, answers, DoneWith(a[0], answers, from));
      LoopEndCons(a[0], a[1..] + b, answers, from);
      assert a == [a[0]] + a[1..];
      Assoc([a[0]], a[1..], b);
    }
  }

  lemma LoopEndCons(r: string, list: seq<string>, answers: string -> Option<nat>, from: int)
    requires '~' in r && AreRecords(list)
    ensures AreRecords([r] + list) && LoopEnd([r] + list, answers, from) == LoopEnd(list, answers, DoneWith(r, answers, from))
  {
    assert ([r] + list)[1..] == list;
  }

  /** The loop is at tenant `i` at time `now`. */
  ghost predicate AtTenant(list: seq<string>, answers: string -> Option<nat>, start: int, i: nat, now: int) {
    && i <= |list| && AreRecords(list) && AreRecords(list[i..])
    && LoopEnd(list[i..], answers, now) == LoopEnd(list, answers, start)
  }

  lemma FirstTenant(list: seq<string>, answers: string -> Option<nat>, start: int)
    requires AreRecords(list)
    ensures AtTenant(list, answers, start, 0, start)
  {
    assert list[0..] == list;
  }

  lemma OneTenant(list: seq<string>, answers: string -> Option<nat>, start: int, i: nat, now: int)
    requires i < |list| && AtTenant(list, answers, start, i, now)
    ensures '~' in list[i] && AtTenant(list, answers, start, i + 1, DoneWith(list[i], answers, now))
  {
    assert list[i..] == [list[i]] + list[i + 1..];
    LoopEndCons(list[i], list[i + 1..], answers, now);
  }

  /** Waits for one tenant, unless its lease has run out. */
  method WaitFor(rec: string, answers: string -> Option<nat>, now: int) returns (done: int)
    requires '~' in rec
    ensures done == DoneWith(rec, answers, now)
  {
    done := now;
    var expiry := Expiry(RecordTime(rec));
    if expiry >= now {
      var answer := answers(RecordHost(rec));
      if answer.Some? && answer.value <= expiry - now {
        done := now + answer.value;
      } else {
        done := expiry;
      }
    }
  }

  /** `revokeLease` for one ledger. */
  method CallIn(list: seq<string>, answers: string -> Option<nat>, start: int) returns (end: int)
    requires AreRecords(list)
    ensures end == LoopEnd(list, answers, start)
    ensures Past(list, start) ==> end <= Expiry(start)
  {
    end := start;
    FirstTenant(list, answers, start);
    for i := 0 to |list|
      invariant AtTenant(list, answers, start, i, end)
    {
      OneTenant(list, answers, start, i, end);
      end := WaitFor(list[i], answers, end);
    }
    if Past(list, start) { LoopEndBound(list, answers, start, start); }
  }

  // ---- a write ----

  type Tenancy = map<Key, seq<string>>

  /** The ledger of a key, empty if it has none. */
  function LedgerAt(tenants: Tenancy, key: Key): seq<string> {
    if key in tenants then tenants[key] else []
  }

  /** Ledgers are ledgers of stored keys, and no lease is from the future. */
  ghost predicate InForce(tenants: Tenancy, storage: Storage, now: int) {
    forall k | k in tenants :: k in storage && IsLedger(tenants[k]) && Past(tenants[k], now)
  }

  lemma InForceLater(tenants: Tenancy, storage: Storage, now: int, later: int, storage': Storage, tenants': Tenancy, key: Key)
    requires InForce(tenants, storage, now) && now <= later
    requires tenants' - {key} == tenants - {key} && forall k | k in storage && k != key :: k in storage'
    requires key in tenants' ==> key in storage' && IsLedger(tenants'[key]) && Past(tenants'[key], later)
    ensures InForce(tenants', storage', later)
  {
    forall k | k in tenants' && k != key ensures k in storage' && IsLedger(tenants'[k]) && Past(tenants'[k], later) {
      assert k in tenants' - {key} && k in tenants - {key} && tenants'[k] == tenants[k];
    }
  }

  lemma LentInForce(tenants: Tenancy, storage: Storage, now: int, key: Key, longer: seq<string>, host: Host, at: int)
    requires InForce(tenants, storage, now) && now <= at && key in storage && Lent(LedgerAt(tenants, key), longer, host, at)
    ensures InForce(tenants[key := longer], storage, at)
  {
    PastLonger(LedgerAt(tenants, key), longer, host, at);
    InForceLater(tenants, storage, now, at, storage, tenants[key := longer], key);
  }

  /** What a write that begins at `now` leaves behind at `end`: the stored value the plan asks for and no
      other change to the store.  If the plan calls leases in, none is left on the key, and `end` is when
      the loop is done with them; if not, no time has passed. */
  ghost predicate Writes(
    now: int, storage: Storage, tenants: Tenancy, key: Key, op: Op, answers: string -> Option<nat>,
    end: int, storage': Storage, tenants': Tenancy)
  {
    var plan := Plan(Lookup(storage, key), op);
    && storage' == ListStore.Apply(storage, key, op)
    && if plan.Replace? && plan.revokes
       then tenants' == tenants - {key} && AreRecords(LedgerAt(tenants, key)) && end == LoopEnd(LedgerAt(tenants, key), answers, now)
       else tenants' == tenants && end == now
  }

  /** Every write that changes a stored value calls the leases on it in, but for an append to an empty
      list: none is left on the books, and every client was called and has answered, or its lease ran out. */
  lemma WriteCallsLeasesIn(
    now: int, storage: Storage, tenants: Tenancy, key: Key, op: Op, answers: string -> Option<nat>,
    end: int, storage': Storage, tenants': Tenancy)
    requires Writes(now, storage, tenants, key, op, answers, end, storage', tenants')
    requires key in storage && Reply(storage, key, op) == OK && !(op.AppendToList? && storage[key] == [])
    ensures key !in tenants' && forall r | r in LedgerAt(tenants, key) :: DealtWith(r, answers, now, end)
  {
    WhichWritesRevoke(Lookup(storage, key), op);
    LoopDealsWithAll(LedgerAt(tenants, key), answers, now);
  }

  // ---- hosts with a tilde ----

  /** When the server takes the lease of such a host to run out, whenever it was given. */
  function MisreadExpiry(host: string): int
    requires '~' in host
  {
    Expiry(ParseInt(Split(host, '~')[1]))
  }

  /** A record makes no difference to the loop, whatever the clients answer. */
  ghost predicate NotWaitedFor(list: seq<string>, longer: seq<string>, from: int)
    requires AreRecords(list) && AreRecords(longer)
  {
    forall answers: string -> Option<nat> :: LoopEnd(longer, answers, from) == LoopEnd(list, answers, from)
  }

  lemma SplicedLoop(list: seq<string>, i: nat, rec: string, answers: string -> Option<nat>, from: int)
    requires AreRecords(list) && '~' in rec && i <= |list|
    ensures AreRecords(list[..i] + [rec] + list[i..])
    ensures LoopEnd(list, answers, from) == LoopEnd(list[i..], answers, LoopEnd(list[..i], answers, from))
    ensures LoopEnd(list[..i] + [rec] + list[i..], answers, from)
         == LoopEnd(list[i..], answers, DoneWith(rec, answers, LoopEnd(list[..i], answers, from)))
  {
    assert list == list[..i] + list[i..];
    LoopEndSplit(list[..i], list[i..], answers, from);
    LoopEndSplit(list[..i], [rec], answers, from);
    LoopEndSplit(list[..i] + [rec], list[i..], answers, from);
  }

  /** All answer at once but one, which never does. */
  function AllBut(host: string): string -> Option<nat> {
    (h: string) => if h == host then None else Some(0)
  }

  lemma {:induction false} NoWaitForOthers(list: seq<string>, host: string, from: int)
    requires AreRecords(list) && forall r | r in list :: RecordHost(r) != host
    ensures LoopEnd(list, AllBut(host), from) == from
  {
    if list != [] { NoWaitForOthers(list[1..], host, from); }
  }

  lemma SplicedNotWaitedForIff(list: seq<string>, i: nat, rec: string, from: int)
    requires AreRecords(list) && '~' in rec && i <= |list| && forall r | r in list :: RecordHost(r) != RecordHost(rec)
    ensures AreRecords(list[..i] + [rec] + list[i..])
    ensures NotWaitedFor(list, list[..i] + [rec] + list[i..], from) <==> Expiry(RecordTime(rec)) <= from
  {
    var longer := list[..i] + [rec] + list[i..];
    SplicedLoop(list, i, rec, AllBut(RecordHost(rec)), from);
    if Expiry(RecordTime(rec)) <= from {
      forall answers: string -> Option<nat> ensures LoopEnd(longer, answers, from) == LoopEnd(list, answers, from) {
        SplicedLoop(list, i, rec, answers, from);
      }
    } else {
      var answers := AllBut(RecordHost(rec));
      NoWaitForOthers(list[..i], RecordHost(rec), from);
      NoWaitForOthers(list[i..], RecordHost(rec), from);
      NoWaitForOthers(list[i..], RecordHost(rec), Expiry(RecordTime(rec)));
      assert LoopEnd(longer, answers, from) != LoopEnd(list, answers, from);
    }
  }

  /** The lease of a host with a tilde holds no write up, whatever the clients answer, exactly if the time
      in the host's name has run out.  When the lease was given has nothing to do with it. */
  lemma TildeLeaseNotWaitedForIff(list: seq<string>, longer: seq<string>, host: string, at: int64, from: int)
    requires IsLedger(list) && IsLedger(longer) && '~' in host && AddsRecord(list, longer, FormatLeaseRecord(host, at))
    ensures NotWaitedFor(list, longer, from) <==> MisreadExpiry(host) <= from
  {
    var rec := FormatLeaseRecord(host, at);
    var i :| 0 <= i <= |list| && longer == list[..i] + [rec] + list[i..];
    TildeHostReadsBack(host, at);
    NewHostInLedger(list, i, rec);
    SplicedNotWaitedForIff(list, i, rec, from);
  }

  /** Then a write commits at once, however long the lease has still to run. */
  lemma WriteOverTildeLease(
    now: int, storage: Storage, tenants: Tenancy, key: Key, value: string, host: string, at: int64,
    answers: string -> Option<nat>, end: int, storage': Storage, tenants': Tenancy)
    requires '~' in host && LedgerAt(tenants, key) == [FormatLeaseRecord(host, at)] && MisreadExpiry(host) <= now
    requires Writes(now, storage, tenants, key, Op.Put(value), answers, end, storage', tenants')
    ensures end == now && storage' == storage[key := [value]] && key !in tenants'
  {
    TildeHostReadsBack(host, at);
    LoopOfOne(FormatLeaseRecord(host, at), answers, now);
  }

  lemma LoopOfOne(rec: string, answers: string -> Option<nat>, from: int)
    requires '~' in rec
    ensures AreRecords([rec]) && LoopEnd([rec], answers, from) == DoneWith(rec, answers, from)
  {
    assert [rec][1..] == [];
  }

  lemma LedgerOfOne(rec: string)
    requires '~' in rec
    ensures IsLedger([rec]) && LedgerMap([rec]) == map[HostOf(rec) := RecordTime(rec)]
  {
    assert forall r :: r in [rec] <==> r == rec;
  }

  lemma SameHostSpoils(list: seq<string>, longer: seq<string>, rec: string, r: string)
    requires AddsRecord(list, longer, rec) && r in list && RecordHost(r) == RecordHost(rec)
    ensures !IsLedger(longer)
  {
    var i :| 0 <= i <= |list| && longer == list[..i] + [rec] + list[i..];
    if IsLedger(longer) { NewHostInLedger(list, i, rec); }
  }

  /** If the host whose name it reads back as has a lease already, the ledger is out of order. */
  lemma TildeSpoilsLedger(host: string, another: Host, first: int64, at: int64, longer: seq<string>)
    requires '~' in host && another == Split(host, '~')[0]
    requires AddsRecord([FormatLeaseRecord(another, first)], longer, FormatLeaseRecord(host, at))
    ensures IsLedger([FormatLeaseRecord(another, first)]) && !IsLedger(longer)
  {
    LeaseRecordRoundTrip(another, first);
    TildeHostReadsBack(host, at);
    OneSpoiled(FormatLeaseRecord(another, first), longer, FormatLeaseRecord(host, at));
  }

  lemma OneSpoiled(r: string, longer: seq<string>, rec: string)
    requires '~' in r && AddsRecord([r], longer, rec) && RecordHost(r) == RecordHost(rec)
    ensures IsLedger([r]) && !IsLedger(longer)
  {
    LedgerOfOne(r);
    SameHostSpoils([r], longer, rec, r);
  }

  /** If it has none, it will not get one: it is found under the other's record and time. */
  lemma TildeTakesAnothersPlace(host: string, at: int64, another: Host, later: int64, longer: seq<string>)
    requires '~' in host && another == Split(host, '~')[0]
    requires Lent([FormatLeaseRecord(host, at)], longer, another, later)
    ensures LedgerMap(longer) == map[another := ParseInt(Split(host, '~')[1])]
  {
    TildeHostReadsBack(host, at);
    LedgerOfOne(FormatLeaseRecord(host, at));
  }

  // ---- the server ----

  datatype Lease = Lease(granted: bool, validSeconds: int)

  class StorageServer {
    const nodeID: NodeID
    const ring: seq<NodeID>
    const fnv: string -> NodeID
    var storage: Storage
    var tenants: Tenancy
    var now: int

    /** Lists are sorted, ledgers are ledgers of stored keys, and no lease is from the future. */
    ghost predicate Valid()
      reads this
    {
      && ring != [] && Ascending(ring, IdLess)
      && Sorted(storage)
      && InForce(tenants, storage, now)
    }

    predicate Mine(key: Key)
      requires ring != []
    {
      Owner(ring, StoreHash(key, fnv)) == nodeID
    }

    /** A server takes a key for its own exactly if it is the successor of the key's hash. */
    lemma MineIsSuccessor(key: Key)
      requires Valid()
      ensures Mine(key) <==> Successor(Elems(ring), StoreHash(key, fnv), nodeID)
    {
      OwnerIsSuccessor(ring, StoreHash(key, fnv));
    }

    constructor (nodeID: NodeID, ring: seq<NodeID>, fnv: string -> NodeID, now: int)
      requires ring != [] && Ascending(ring, IdLess)
      ensures Valid() && storage == map[] && tenants == map[]
      ensures this.nodeID == nodeID && this.ring == ring && this.fnv == fnv && this.now == now
    {
      this.nodeID, this.ring, this.fnv, this.now := nodeID, ring, fnv, now;
      storage, tenants := map[], map[];
    }

    /** `recordLease` for a stored key. */
    method Lend(key: Key, host: string, at: int64)
      requires Valid() && now <= at && key in storage
      modifies this`tenants, this`now
      ensures now == at && tenants == old(tenants)[key := LedgerAt(tenants, key)]
      ensures '~' !in host ==>
                Valid() && Lent(LedgerAt(old(tenants), key), LedgerAt(tenants, key), host, at)
      ensures '~' in host ==> AddsRecord(LedgerAt(old(tenants), key), LedgerAt(tenants, key), FormatLeaseRecord(host, at))
    {
      var longer := AddLease(LedgerAt(tenants, key), host, at);
      if '~' !in host {
        LentInForce(tenants, storage, now, key, longer, host, at);
      }
      tenants, now := tenants[key := longer], at;
    }

    /** `GetList` at time `at`; `Get` answers the first item only. */
    method Read(key: Key, wantLease: bool, host: string, at: int64) returns (status: Status, value: Value, lease: Lease)
      requires Valid() && now <= at
      modifies this`tenants, this`now
      ensures now == at
      ensures status == if !Mine(key) then WrongServer else if key in storage then OK else KeyNotFound
      ensures status == OK ==> value == storage[key]
      ensures lease == if status == OK && wantLease then Lease(true, LEASE_SECONDS) else Lease(false, 0)
      ensures status != OK || !wantLease ==> Valid() && tenants == old(tenants)
      ensures status == OK && wantLease ==> tenants == old(tenants)[key := LedgerAt(tenants, key)]
      ensures status == OK && wantLease && '~' !in host ==>
                Valid() && Lent(LedgerAt(old(tenants), key), LedgerAt(tenants, key), host, at)
      ensures status == OK && wantLease && '~' in host ==>
                AddsRecord(LedgerAt(old(tenants), key), LedgerAt(tenants, key), FormatLeaseRecord(host, at))
    {
      value, lease := [], Lease(false, 0);
      var id := SearchHashRing(ring, key, fnv);
      if id != nodeID {
        now := at;
        return WrongServer, value, lease;
      }
      if key !in storage {
        now := at;
        return KeyNotFound, value, lease;
      }
      status, value := OK, storage[key];
      if wantLease {
        lease := Lease(true, LEASE_SECONDS);
        Lend(key, host, at);
      } else {
        now := at;
      }
    }

    /** `revokeLease`: the leases on a key are called in while the lock is held. */
    method RevokeLease(key: Key, answers: string -> Option<nat>)
      requires Valid()
      modifies this`tenants, this`now
      ensures Valid() && CalledIn(key, answers) && now <= Expiry(old(now))
    {
      if key in tenants {
        var end := CallIn(tenants[key], answers, now);
        InForceLater(tenants, storage, now, end, storage, tenants - {key}, key);
        now, tenants := end, tenants - {key};
      }
    }

    /** The leases on the key are off the books, and the time is that at which the loop over them ends.  Then
        every tenant has answered or its lease has run out (`LoopDealsWithAll`). */
    twostate predicate CalledIn(key: Key, answers: string -> Option<nat>)
      reads this
    {
      && tenants == old(tenants) - {key}
      && AreRecords(LedgerAt(old(tenants), key))
      && now == LoopEnd(LedgerAt(old(tenants), key), answers, old(now))
    }

    /** What every write call does: nothing on the wrong server, and else the planned write, within one
        lease and its guard. */
    twostate predicate Wrote(key: Key, op: Op, status: Status, answers: string -> Option<nat>)
      requires ring != []
      reads this
    {
      if !Mine(key) then
        status == WrongServer && storage == old(storage) && tenants == old(tenants) && now == old(now)
      else
        && status == Reply(old(storage), key, op) && now <= Expiry(old(now))
        && Writes(old(now), old(storage), old(tenants), key, op, answers, now, storage, tenants)
    }

    /** Stores a value, or removes the key, once the leases on it are dealt with. */
    method Change(key: Key, next: Option<Value>, answers: string -> Option<nat>)
      requires Valid() && (next.Some? ==> Ascending(next.value, StringLess))
      modifies this`storage, this`tenants, this`now
      ensures Valid() && storage == Store(old(storage), key, next)
      ensures CalledIn(key, answers) && now <= Expiry(old(now))
    {
      RevokeLease(key, answers);
      InForceLater(tenants, storage, now, now, Store(storage, key, next), tenants, key);
      storage := if next.Some? then storage[key := next.value] else storage - {key};
    }

    method Put(key: Key, value: string, answers: string -> Option<nat>) returns (status: Status)
      requires Valid()
      modifies this`storage, this`tenants, this`now
      ensures Valid() && Wrote(key, Op.Put(value), status, answers)
      ensures status == OK ==> CalledIn(key, answers) && storage == old(storage)[key := [value]]
    {
      var id := SearchHashRing(ring, key, fnv);
      if id != nodeID {
        return WrongServer;
      }
      Change(key, Some([value]), answers);
      status := OK;
    }

    method Delete(key: Key, answers: string -> Option<nat>) returns (status: Status)
      requires Valid()
      modifies this`storage, this`tenants, this`now
      ensures Valid() && Wrote(key, Op.Delete, status, answers)
      ensures status == OK ==> CalledIn(key, answers) && key in old(storage) && storage == old(storage) - {key}
    {
      var id := SearchHashRing(ring, key, fnv);
      if id != nodeID {
        return WrongServer;
      }
      if key in storage {
        Change(key, None, answers);
        status := OK;
      } else {
        status := KeyNotFound;
      }
    }

    method AppendToList(key: Key, item: string, answers: string -> Option<nat>) returns (status: Status)
      requires Valid()
      modifies this`storage, this`tenants, this`now
      ensures Valid() && Wrote(key, Op.AppendToList(item), status, answers)
      ensures status == OK && key in old(storage) && old(storage)[key] != [] ==> CalledIn(key, answers)
    {
      var id := SearchHashRing(ring, key, fnv);
      if id != nodeID {
        return WrongServer;
      }
      if key !in storage || |storage[key]| < 1 {
        storage := storage[key := [item]];
        return OK;
      }
      status := AppendToItems(key, item, answers);
    }

    /** An append to a list that is not empty. */
    method AppendToItems(key: Key, item: string, answers: string -> Option<nat>) returns (status: Status)
      requires Valid() && key in storage && storage[key] != [] && Mine(key)
      modifies this`storage, this`tenants, this`now
      ensures Valid() && Wrote(key, Op.AppendToList(item), status, answers)
      ensures status == OK ==> CalledIn(key, answers)
    {
      var values := storage[key];
      if StringLess(values[|values| - 1], item) {
        AppendAtEnd(values, item);
        Change(key, Some(values + [item]), answers);
        return OK;
      }
      var i := FindItem(values, item);
      if values[i] == item {
        return ItemExists;
      }
      Change(key, Some(values[..i] + [item] + values[i..]), answers);
      status := OK;
    }

    method RemoveFromList(key: Key, item: string, answers: string -> Option<nat>) returns (status: Status)
      requires Valid()
      modifies this`storage, this`tenants, this`now
      ensures Valid() && Wrote(key, Op.RemoveFromList(item), status, answers)
      ensures status == OK ==> CalledIn(key, answers)
    {
      var id := SearchHashRing(ring, key, fnv);
      if id != nodeID {
        return WrongServer;
      }
      if key !in storage || |storage[key]| < 1 {
        return ItemNotFound;
      }
      var values := storage[key];
      var mid := FindItem(values, item);
      if mid < |values| && values[mid] == item {
        Change(key, Some(values[..mid] + values[mid + 1..]), answers);
        return OK;
      }
      status := ItemNotFound;
    }
  }

  /** `BinarySearchString` on a sorted list: where the item is, or where it belongs. */
  method FindItem(values: seq<string>, item: string) returns (i: nat)
    requires Ascending(values, StringLess)
    ensures i <= |values|
    ensures item in values <==> i < |values| && values[i] == item
    ensures values != [] && !StringLess(values[|values| - 1], item) ==> i < |values|
    ensures item in values ==>
              values[..i] + values[i + 1..] == Remove(values, item) && Ascending(Remove(values, item), StringLess)
    ensures item !in values ==>
              && values[..i] + [item] + values[i..] == Insert(values, item, StringLess)
              && Ascending(Insert(values, item, StringLess), StringLess)
  {
    StringOrder();
    i := BinarySearch(values, (s: string) => s, item, StringLess);
    RankIsTheSlot(values, item, i, StringLess);
    RankSlot(values, item, StringLess);
    InsertKeepsOrder(values, item, StringLess);
    if i < |values| && values[i] == item {
      RemoveAt(values, i, StringLess);
      RemoveKeepsOrder(values, item, StringLess);
    }
  }

  /** An item above the last one goes to the end. */
  lemma AppendAtEnd(values: seq<string>, item: string)
    requires Ascending(values, StringLess) && values != [] && StringLess(values[|values| - 1], item)
    ensures item !in values && Insert(values, item, StringLess) == values + [item]
    ensures Ascending(values + [item], StringLess)
  {
    StringOrder();
    RankSlot(values, item, StringLess);
    RankIsTheSlot(values, item, |values|, StringLess);
    InsertKeepsOrder(values, item, StringLess);
  }

  ghost predicate Past(list: seq<string>, now: int) {
    forall r | r in list :: '~' in r && RecordTime(r) <= now
  }

  lemma PastLonger(list: seq<string>, longer: seq<string>, host: Host, now: int)
    requires Past(list, now) && Lent(list, longer, host, now)
    ensures Past(longer, now)
  {
    forall h | h in LedgerMap(list) ensures LedgerMap(list)[h] <= now {
      var q :| q in list && RecordHost(q) == h;
    }
  }
}
