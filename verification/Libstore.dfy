/** The client library's tables (src/libstore/libstore_impl.go). */
module Libstore {
  import opened Ordered
  import opened LeaseRpc
  import opened ClientCache
  import L = ListStore

  type Value = L.Value

  /** The remembered history of a record is what is left of all its query times `ts`. */
  ghost predicate Remembers(r: Record, ts: seq<int>, clock: int, nextId: nat) {
    ts != [] && InOrder(ts, clock) && r.history == Recall(ts) && r.id < nextId
  }

  ghost predicate KeyConsistent(
    records: map<string, Record>, queries: map<string, seq<int>>, clock: int, nextId: nat, k: string)
    requires k in records
  {
    k in queries && Remembers(records[k], queries[k], clock, nextId)
  }

  ghost predicate Consistent(records: map<string, Record>, queries: map<string, seq<int>>, clock: int, nextId: nat) {
    forall k {:trigger KeyConsistent(records, queries, clock, nextId, k)} | k in records ::
      KeyConsistent(records, queries, clock, nextId, k)
  }

  lemma StaysConsistent(records: map<string, Record>, queries: map<string, seq<int>>, c: int, n: nat, c': int, n': nat)
    requires Consistent(records, queries, c, n) && c <= c' && n <= n'
    ensures Consistent(records, queries, c', n')
  {
    forall k | k in records ensures KeyConsistent(records, queries, c', n', k) {
      assert KeyConsistent(records, queries, c, n, k);
    }
  }

  /** Replacing one record by one that is well remembered. */
  lemma StillConsistent(records: map<string, Record>, queries: map<string, seq<int>>, c: int, n: nat, key: string, r: Record, ts: seq<int>)
    requires Consistent(records, queries, c, n) && Remembers(r, ts, c, n)
    ensures Consistent(records[key := r], queries[key := ts], c, n)
  {
    var records', queries' := records[key := r], queries[key := ts];
    forall k | k in records' ensures KeyConsistent(records', queries', c, n, k) {
      if k != key { assert KeyConsistent(records, queries, c, n, k); }
    }
  }

  lemma FewerConsistent(records: map<string, Record>, queries: map<string, seq<int>>, c: int, n: nat, key: string)
    requires Consistent(records, queries, c, n)
    ensures Consistent(records - {key}, queries, c, n)
  {
    var fewer := records - {key};
    forall k | k in fewer ensures KeyConsistent(fewer, queries, c, n, k) {
      assert KeyConsistent(records, queries, c, n, k);
    }
  }

  /** One more query, at the present time. */
  lemma RemembersMore(r: Record, ts: seq<int>, clock: int, nextId: nat, now: int)
    requires Remembers(r, ts, clock, nextId) && clock <= now
    ensures Remembers(r.(history := Push(r.history, now)), ts + [now], now, nextId)
  {
  }

  /** How a callback ends: the last is a crash. */
  datatype Revocation = Revoked | KeyNotFound | NilDereference

  class Libstore {
    const mode: Mode
    var cache: map<string, Value>
    var records: map<string, Record>
    var nextId: nat

    // For the specification: the clock, and for each key the time of every query noted since its record
    // was made.
    ghost var clock: int
    ghost var queries: map<string, seq<int>>

    function SlotOf(key: string): Slot<Value>
      reads this
    {
      Slot(if key in records then Some(records[key]) else None, if key in cache then Some(cache[key]) else None)
    }

    /** The query times noted for a key. */
    ghost function LogOf(key: string): seq<int>
      reads this
    {
      if key in queries then queries[key] else []
    }

    ghost predicate Valid()
      reads this
    {
      && Consistent(records, queries, clock, nextId)
      && (forall k | k in records && records[k].granted :: k in cache)
    }

    constructor (mode: Mode, ghost now: int)
      ensures Valid() && this.mode == mode && clock == now
      ensures cache == map[] && records == map[] && queries == map[]
    {
      this.mode := mode;
      cache, records, nextId := map[], map[], 0;
      clock, queries := now, map[];
    }

    /** Three remembered times stand for all of them: the history of a record is the tail of all its
        query times, and it counts as frequent exactly when they do. */
    lemma HistoryStandsForQueries(key: string, now: int)
      requires Valid() && key in records
      ensures key in queries && records[key].history == Tail(queries[key]) && NonDecreasing(queries[key])
      ensures Frequent(records[key].history, now)
         <==> CountAfter(queries[key], now - QUERY_CACHE_SECONDS) >= QUERY_CACHE_THRESH
    {
      assert KeyConsistent(records, queries, clock, nextId, key);
      HistorySuffices(queries[key], clock, now);
      InOrderMeansNonDecreasing(queries[key], clock);
    }

    /** Time passes, and record numbers are handed out. */
    method Advance(ghost now: int, ids: nat)
      requires Valid() && clock <= now
      modifies this`clock, this`nextId
      ensures Valid() && clock == now && nextId == old(nextId) + ids
    {
      StaysConsistent(records, queries, clock, nextId, now, nextId + ids);
      clock, nextId := now, nextId + ids;
    }

    /** Puts a record in the table; `ts` are its query times. */
    method SetRecord(key: string, rec: Record, ghost ts: seq<int>)
      requires Valid() && Remembers(rec, ts, clock, nextId)
      requires rec.granted ==> key in cache
      modifies this`records, this`queries
      ensures Valid() && records == old(records)[key := rec] && queries == old(queries)[key := ts]
      ensures records - {key} == old(records) - {key}
    {
      StillConsistent(records, queries, clock, nextId, key, rec, ts);
      records, queries := records[key := rec], queries[key := ts];
    }

    /** Notes a query in the record `rec` of the key. */
    method Note(key: string, rec: Record, now: int)
      requires Valid() && key in records && clock == now
      requires rec.history == records[key].history && rec.id == records[key].id
      requires rec.granted ==> key in cache
      modifies this`records, this`queries
      ensures Valid()
      ensures records == old(records)[key := rec.(history := Push(rec.history, now))]
      ensures records - {key} == old(records) - {key}
      ensures key in old(queries) && queries == old(queries)[key := old(queries)[key] + [now]]
    {
      assert KeyConsistent(records, queries, clock, nextId, key);
      RemembersMore(rec, queries[key], clock, nextId, now);
      SetRecord(key, rec.(history := Push(rec.history, now)), queries[key] + [now]);
    }

    /** Takes the grant away without a query. */
    method Lapse(key: string, rec: Record)
      requires Valid() && key in records && rec == records[key].(granted := false)
      modifies this`records, this`queries
      ensures Valid() && records == old(records)[key := rec] && queries == old(queries)
      ensures records - {key} == old(records) - {key}
    {
      assert KeyConsistent(records, queries, clock, nextId, key);
      SetRecord(key, rec, queries[key]);
      assert queries == old(queries);
    }

    /** The lookup of a client in normal mode, for a key that has a record. */
    method Consult(key: string, now: int) returns (d: Decision<Value>)
      requires Valid() && key in records && clock == now && mode.Normal?
      modifies this`records, this`queries
      ensures Valid()
      ensures (SlotOf(key), d) == Begin(old(SlotOf(key)), mode, now)
      ensures records - {key} == old(records) - {key}
      ensures queries == if d.Hit? then old(queries)[key := AskLog(old(LogOf(key)), d, now)] else old(queries)
    {
      var rec := records[key];
      if rec.history[|rec.history| - 1] < now - rec.validSeconds {
        rec := rec.(granted := false);
      }
      if rec.granted {
        d := Hit(cache[key]);
        Note(key, rec, now);
      } else {
        d := Want(key, rec, now);
      }
    }

    /** No hit: with or without a lease? */
    method Want(key: string, rec: Record, now: int) returns (d: Decision<Value>)
      requires Valid() && key in records && rec == records[key].(granted := false)
      modifies this`records, this`queries
      ensures Valid() && records == old(records)[key := rec] && queries == old(queries)
      ensures records - {key} == old(records) - {key}
      ensures d == Miss(Frequent(rec.history, now), Some(rec.id))
    {
      Lapse(key, rec);
      var wantLease := |rec.history| >= QUERY_CACHE_THRESH && rec.history[0] > now - QUERY_CACHE_SECONDS;
      d := Miss(wantLease, Some(rec.id));
    }

    /** `Get` and `GetList` up to the call of the server. */
    method BeginRead(key: string, now: int) returns (d: Decision<Value>)
      requires Valid() && clock <= now
      modifies this
      ensures Valid() && clock == now
      ensures (SlotOf(key), d) == Begin(old(SlotOf(key)), mode, now)
      ensures cache == old(cache) && records - {key} == old(records) - {key} && nextId == old(nextId)
      ensures !d.CacheInconsistent?
      ensures mode.Never? ==> d.Miss? && !d.wantLease && records == old(records)
      ensures mode.Always? ==> d.Miss? && d.wantLease && records == old(records)
      ensures queries == if d.Hit? then old(queries)[key := AskLog(old(LogOf(key)), d, now)] else old(queries)
    {
      Advance(now, 0);
      var ticket := if key in records then Some(records[key].id) else None;
      match mode {
        case Never => d := Miss(false, ticket);
        case Always => d := Miss(true, ticket);
        case Normal =>
          if key in records {
            d := Consult(key, now);
          } else {
            d := Miss(false, None);
          }
      }
    }

    /** The record of a key whose read has been answered. */
    method NoteReply(key: string, ticket: Option<nat>, newId: nat, wantLease: bool, now: int)
      requires Valid() && clock == now && newId < nextId && (wantLease ==> key in cache)
      modifies this`records, this`queries
      ensures Valid()
      ensures SlotOf(key).rec == FinishRecord(old(SlotOf(key)).rec, ticket, newId, wantLease, now)
      ensures records - {key} == old(records) - {key}
      ensures queries == if Reaches(old(SlotOf(key)).rec, ticket)
                         then old(queries)[key := ReplyLog(old(LogOf(key)), old(SlotOf(key)).rec, ticket, now)] else old(queries)
    {
      if ticket.None? {
        SetRecord(key, Record(newId, wantLease, LEASE_SECONDS, [now]), [now]);
      } else if key in records && records[key].id == ticket.value {
        var rec := records[key];
        if wantLease {
          rec := rec.(granted := true, validSeconds := LEASE_SECONDS);
        }
        Note(key, rec, now);
      }
    }

    /** The rest of the read, after an `OK` reply carrying `value`. */
    method FinishRead(key: string, ticket: Option<nat>, wantLease: bool, value: Value, now: int)
      requires Valid() && clock <= now
      modifies this
      ensures Valid() && clock == now
      ensures SlotOf(key) == Finish(old(SlotOf(key)), ticket, old(nextId), wantLease, value, now)
      ensures cache - {key} == old(cache) - {key} && records - {key} == old(records) - {key}
      ensures queries == if Reaches(old(SlotOf(key)).rec, ticket)
                         then old(queries)[key := ReplyLog(old(LogOf(key)), old(SlotOf(key)).rec, ticket, now)] else old(queries)
    {
      var newId := nextId;
      Advance(now, 1);
      if wantLease {
        cache := cache[key := value];
      }
      NoteReply(key, ticket, newId, wantLease, now);
    }

    /** The callback.  The original looks the record up without a check; by then the key has left the
        cache. */
    method RevokeLease(key: string) returns (reply: Revocation)
      requires Valid()
      modifies this`cache, this`records, this`queries
      ensures Valid()
      ensures reply.KeyNotFound? <==> key !in old(cache)
      ensures reply.NilDereference? <==> Revoke(old(SlotOf(key))).None?
      ensures !reply.NilDereference? ==> Revoke(old(SlotOf(key))) == Some(SlotOf(key))
      ensures cache == old(cache) - {key} && records - {key} == old(records) - {key} && queries == old(queries)
    {
      if key !in cache {
        return KeyNotFound;
      }
      reply := NilDereference;
      if key in records {
        Lapse(key, records[key].(granted := false));
        reply := Revoked;
      }
      cache := cache - {key};
    }

    /** What the recycler does with one key. */
    method RecycleKey(key: string, now: int)
      requires Valid() && clock <= now
      modifies this
      ensures Valid() && clock == now && nextId == old(nextId)
      ensures SlotOf(key) == Recycle(old(SlotOf(key)), now)
      ensures cache - {key} == old(cache) - {key} && records - {key} == old(records) - {key} && queries == old(queries)
    {
      Advance(now, 0);
      if key in records {
        var rec := records[key];
        if rec.history[|rec.history| - 1] < now - rec.validSeconds || !rec.granted {
          FewerConsistent(records, queries, clock, nextId, key);
          cache, records := cache - {key}, records - {key};
        }
      }
    }
  }
}
