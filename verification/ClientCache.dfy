/** The lease constants of src/rpc/storagerpc/proto.go. */
module LeaseRpc {
  const QUERY_CACHE_SECONDS: int := 10
  const QUERY_CACHE_THRESH: nat := 3
  const LEASE_SECONDS: int := 10
  const LEASE_GUARD_SECONDS: int := 2

  /** The last second in which the server still waits for a lease recorded at `t`. */
  function Expiry(t: int): int { t + LEASE_SECONDS + LEASE_GUARD_SECONDS }

  /** The server notes the first time at which it leases a key to a host. */
  function Noted(leases: map<Host, int>, host: Host, now: int): map<Host, int> {
    if host in leases then leases else leases[host := now]
  }

  /** A client's callback address.  The server writes it in its lease records in front of a tilde; what
      becomes of an address that has a tilde itself is shown in StorageServer. */
  type Host = h: string | '~' !in h

  datatype Mode = Never | Normal | Always
}

/** What a libstore does to the cache slot of one key (src/libstore/libstore_impl.go).

    A read drops the client's lock around its call to the server, so it comes in two halves, `Begin`
    and `Finish`.  Between them the record it looked up may be recycled or replaced; records therefore
    carry an identity, and `Finish` updates the record that `Begin` saw, which may no longer be the
    one in the table. */
module ClientCache {
  import opened Ordered
  import opened LeaseRpc

  /** The last few query times of a record: never empty, never more than the threshold. */
  type History = h: seq<int> | 1 <= |h| <= QUERY_CACHE_THRESH witness [0]

  datatype Record = Record(id: nat, granted: bool, validSeconds: int, history: History)

  /** One key of a client: its entry in `records` and its entry in `cache`.  `C` is what is cached. */
  datatype Slot<C> = Slot(rec: Option<Record>, cached: Option<C>)

  function Push(h: seq<int>, t: int): History {
    var g := h + [t];
    if |g| > QUERY_CACHE_THRESH then g[|g| - QUERY_CACHE_THRESH..] else g
  }

  predicate Lapsed(r: Record, now: int) {
    r.history[|r.history| - 1] < now - r.validSeconds
  }

  predicate Frequent(h: History, now: int) {
    |h| >= QUERY_CACHE_THRESH && h[0] > now - QUERY_CACHE_SECONDS
  }

  /** The first half of a read: a cache hit, a question for the server (and the record it will
      update), or the process exit the original takes when a granted key is not cached. */
  datatype Decision<C> = Hit(copy: C) | Miss(wantLease: bool, ticket: Option<nat>) | CacheInconsistent

  function Begin<C>(slot: Slot<C>, mode: Mode, now: int): (Slot<C>, Decision<C>) {
    var ticket := if slot.rec.Some? then Some(slot.rec.value.id) else None;
    match mode
    case Never => (slot, Miss(false, ticket))
    case Always => (slot, Miss(true, ticket))
    case Normal =>
      if slot.rec.None? then (slot, Miss(false, None))
      else
        var r := slot.rec.value;
        var r1 := if Lapsed(r, now) then r.(granted := false) else r;
        if r1.granted then
          (slot.(rec := Some(r1.(history := Push(r1.history, now)))),
           if slot.cached.Some? then Hit(slot.cached.value) else CacheInconsistent)
        else (slot.(rec := Some(r1)), Miss(Frequent(r1.history, now), ticket))
  }

  /** The second half, after a successful reply.  Without a ticket a new record, numbered `newId`,
      goes into the table; with one, the record is updated if it is still there. */
  function Finish<C>(slot: Slot<C>, ticket: Option<nat>, newId: nat, wantLease: bool, copy: C, now: int): Slot<C> {
    Slot(FinishRecord(slot.rec, ticket, newId, wantLease, now), if wantLease then Some(copy) else slot.cached)
  }

  function FinishRecord(rec: Option<Record>, ticket: Option<nat>, newId: nat, wantLease: bool, now: int): Option<Record> {
    if ticket.None? then Some(Record(newId, wantLease, LEASE_SECONDS, [now]))
    else if rec.None? || rec.value.id != ticket.value then rec
    else
      var r := rec.value.(history := Push(rec.value.history, now));
      Some(if wantLease then r.(granted := true, validSeconds := LEASE_SECONDS) else r)
  }

  /** The callback from the server; `None` is the nil dereference of a cached key without a record. */
  function Revoke<C>(slot: Slot<C>): Option<Slot<C>> {
    if slot.cached.None? then Some(slot)
    else if slot.rec.None? then None
    else Some(Slot(Some(slot.rec.value.(granted := false)), None))
  }

  function Recycle<C>(slot: Slot<C>, now: int): Slot<C> {
    if slot.rec.Some? && (Lapsed(slot.rec.value, now) || !slot.rec.value.granted) then Slot(None, None) else slot
  }

  predicate GrantedIsCached<C>(slot: Slot<C>) {
    slot.rec.Some? && slot.rec.value.granted ==> slot.cached.Some?
  }

  predicate CachedHasRecord<C>(slot: Slot<C>) {
    slot.cached.Some? ==> slot.rec.Some?
  }

  // ---- the bounded history against all queries ever made ----

  /** The last `QUERY_CACHE_THRESH` query times. */
  function Tail(ts: seq<int>): seq<int> {
    if |ts| > QUERY_CACHE_THRESH then ts[|ts| - QUERY_CACHE_THRESH..] else ts
  }

  ghost predicate NonDecreasing(ts: seq<int>) {
    forall i, j | 0 <= i < j < |ts| :: ts[i] <= ts[j]
  }

  /** How many queries came after `since`. */
  function CountAfter(ts: seq<int>, since: int): nat {
    if ts == [] then 0
    else CountAfter(ts[..|ts| - 1], since) + if ts[|ts| - 1] > since then 1 else 0
  }

  /** What is left of a record's history after queries at `ts`, each pushed in turn. */
  function Recall(ts: seq<int>): History
    requires ts != []
  {
    if |ts| == 1 then [ts[0]] else Push(Recall(ts[..|ts| - 1]), ts[|ts| - 1])
  }

  /** The times run forward, and none is later than `clock`. */
  predicate InOrder(ts: seq<int>, clock: int) {
    ts == [] || (ts[|ts| - 1] <= clock && InOrder(ts[..|ts| - 1], ts[|ts| - 1]))
  }

  lemma {:induction false} RecallIsTail(ts: seq<int>)
    requires ts != []
    ensures Recall(ts) == Tail(ts)
  {
    if |ts| > 1 { RecallIsTail(ts[..|ts| - 1]); }
  }

  lemma {:induction false} InOrderMeansNonDecreasing(ts: seq<int>, clock: int)
    requires InOrder(ts, clock)
    ensures NonDecreasing(ts) && forall i | 0 <= i < |ts| :: ts[i] <= clock
  {
    if ts != [] { InOrderMeansNonDecreasing(ts[..|ts| - 1], ts[|ts| - 1]); }
  }

  lemma {:induction false} CountInOrder(ts: seq<int>, since: int, n: nat)
    requires NonDecreasing(ts) && n > 0
    ensures CountAfter(ts, since) >= n <==> |ts| >= n && ts[|ts| - n] > since
  {
    if ts != [] {
      var init := ts[..|ts| - 1];
      if n > 1 {
        CountInOrder(init, since, n - 1);
      }
      CountInOrder(init, since, n);
    }
  }

  /** The query times of a slot's record, after the first half of a read: only a hit is a query yet. */
  function AskLog<C>(log: seq<int>, d: Decision<C>, now: int): seq<int> {
    if d.Hit? then log + [now] else log
  }

  /** Does an answer reach a record?  One without a ticket makes a new one; one with a ticket reaches
      the record that was looked up, if it is still there. */
  predicate Reaches(rec: Option<Record>, ticket: Option<nat>) {
    ticket.None? || (rec.Some? && rec.value.id == ticket.value)
  }

  /** And after the second half: a new record has one query, any other that is reached has one more. */
  function ReplyLog(log: seq<int>, rec: Option<Record>, ticket: Option<nat>, now: int): seq<int> {
    if ticket.None? then [now] else if Reaches(rec, ticket) then log + [now] else log
  }

  /** Three remembered times decide what all of them would: a lease is asked for exactly when at
      least the threshold of all queries so far falls in the last `QUERY_CACHE_SECONDS`. */
  lemma HistorySuffices(ts: seq<int>, clock: int, now: int)
    requires ts != [] && InOrder(ts, clock)
    ensures Recall(ts) == Tail(ts)
    ensures Frequent(Recall(ts), now) <==> CountAfter(ts, now - QUERY_CACHE_SECONDS) >= QUERY_CACHE_THRESH
  {
    RecallIsTail(ts);
    InOrderMeansNonDecreasing(ts, clock);
    CountInOrder(ts, now - QUERY_CACHE_SECONDS, QUERY_CACHE_THRESH);
  }
}
