/** What the write calls of a storage server do to one key (src/storageserver/storageserver_impl.go),
    and the proof that its sorted lists are sets. */
module ListStore {
  import opened Ordered

  type Key = string
  type Value = seq<string>

  datatype Status = OK | KeyNotFound | ItemNotFound | WrongServer | ItemExists | NotReady

  datatype Op = Put(value: string) | AppendToList(item: string) | RemoveFromList(item: string) | Delete

  /** A call is refused, or it replaces the stored value.  `revokes` says whether the leases on the
      key are called in first. */
  datatype Effect =
    | Refuse(status: Status)
    | Replace(revokes: bool, next: Option<Value>)

  function Plan(stored: Option<Value>, op: Op): Effect {
    match op
    case Put(v) => Replace(true, Some([v]))
    case Delete => if stored.None? then Refuse(KeyNotFound) else Replace(true, None)
    case AppendToList(v) =>
      if stored.None? || stored.value == [] then Replace(false, Some([v]))
      else if v in stored.value then Refuse(ItemExists)
      else Replace(true, Some(Insert(stored.value, v, StringLess)))
    case RemoveFromList(v) =>
      if stored.None? || v !in stored.value then Refuse(ItemNotFound)
      else Replace(true, Some(Remove(stored.value, v)))
  }

  /** A call that changes anything calls leases in, unless it appends to a list that is empty or absent;
      and only calls that leave the value as it is are refused. */
  lemma WhichWritesRevoke(stored: Option<Value>, op: Op)
    ensures var e := Plan(stored, op);
            && (e.Replace? ==> (e.revokes <==> !(op.AppendToList? && (stored.None? || stored.value == []))))
            && (e.Refuse? ==> e.status != OK)
  {
  }

  type Storage = map<Key, Value>

  function Lookup<V>(m: map<Key, V>, key: Key): Option<V> {
    if key in m then Some(m[key]) else None
  }

  /** The list under a key, empty if there is none. */
  function Contents(m: Storage, key: Key): Value {
    if key in m then m[key] else []
  }

  function Store<V>(m: map<Key, V>, key: Key, next: Option<V>): map<Key, V> {
    if next.None? then m - {key} else m[key := next.value]
  }

  function Apply(m: Storage, key: Key, op: Op): Storage {
    var e := Plan(Lookup(m, key), op);
    if e.Refuse? then m else Store(m, key, e.next)
  }

  function Reply(m: Storage, key: Key, op: Op): Status {
    var e := Plan(Lookup(m, key), op);
    if e.Refuse? then e.status else OK
  }

  ghost predicate Sorted(m: Storage) {
    forall k | k in m :: Ascending(m[k], StringLess)
  }

  // ---- the simple form: a map from keys to finite sets ----

  type SetStore = map<Key, set<string>>

  function Items(held: Option<set<string>>): set<string> {
    if held.Some? then held.value else {}
  }

  function SetNext(held: Option<set<string>>, op: Op): Option<set<string>> {
    match op
    case Put(v) => Some({v})
    case Delete => None
    case AppendToList(v) => Some(Items(held) + {v})
    case RemoveFromList(v) => if held.Some? then Some(held.value - {v}) else None
  }

  function SetStatus(held: Option<set<string>>, op: Op): Status {
    match op
    case Put(_) => OK
    case Delete => if held.Some? then OK else KeyNotFound
    case AppendToList(v) => if v in Items(held) then ItemExists else OK
    case RemoveFromList(v) => if v in Items(held) then OK else ItemNotFound
  }

  function SetApply(m: SetStore, key: Key, op: Op): SetStore {
    Store(m, key, SetNext(Lookup(m, key), op))
  }

  function SetReply(m: SetStore, key: Key, op: Op): Status {
    SetStatus(Lookup(m, key), op)
  }

  function AbstractValue(v: Option<Value>): Option<set<string>> {
    if v.Some? then Some(Elems(v.value)) else None
  }

  function Abstract(m: Storage): SetStore {
    map k | k in m :: Elems(m[k])
  }

  datatype Call = Call(key: Key, op: Op)

  function Run(m: Storage, calls: seq<Call>): Storage
    decreases calls
  {
    if calls == [] then m else Run(Apply(m, calls[0].key, calls[0].op), calls[1..])
  }

  function Replies(m: Storage, calls: seq<Call>): seq<Status>
    decreases calls
  {
    if calls == [] then []
    else [Reply(m, calls[0].key, calls[0].op)] + Replies(Apply(m, calls[0].key, calls[0].op), calls[1..])
  }

  function SetRun(m: SetStore, calls: seq<Call>): SetStore
    decreases calls
  {
    if calls == [] then m else SetRun(SetApply(m, calls[0].key, calls[0].op), calls[1..])
  }

  function SetReplies(m: SetStore, calls: seq<Call>): seq<Status>
    decreases calls
  {
    if calls == [] then []
    else [SetReply(m, calls[0].key, calls[0].op)] + SetReplies(SetApply(m, calls[0].key, calls[0].op), calls[1..])
  }

  /** What one call leaves behind is ascending and is the set the simple form leaves; its reply is
      decided by membership; and it changes the length by at most one item. */
  lemma PlanRefinesSets(stored: Option<Value>, op: Op)
    requires stored.Some? ==> Ascending(stored.value, StringLess)
    ensures var e := Plan(stored, op);
            var left := if e.Refuse? then stored else e.next;
            && (left.Some? ==> Ascending(left.value, StringLess))
            && AbstractValue(left) == SetNext(AbstractValue(stored), op)
            && (if e.Refuse? then e.status else OK) == SetStatus(AbstractValue(stored), op)
            && (e.Replace? && op.AppendToList? && stored.Some? ==> |left.value| == |stored.value| + 1)
            && (e.Replace? && op.RemoveFromList? ==> |left.value| == |stored.value| - 1)
  {
    StringOrder();
    if stored.Some? && op.AppendToList? {
      InsertKeepsOrder(stored.value, op.item, StringLess);
    } else if stored.Some? && op.RemoveFromList? {
      RemoveKeepsOrder(stored.value, op.item, StringLess);
    }
    match op
    case Put(v) => assert Elems([v]) == {v};
    case AppendToList(v) =>
      assert Elems([v]) == {v};
      assert {} + {v} == {v};
      if stored.Some? && v in stored.value { assert Elems(stored.value) + {v} == Elems(stored.value); }
      if stored.Some? && stored.value == [] { assert Elems(stored.value) == {}; }
    case RemoveFromList(v) =>
      if stored.Some? && v !in stored.value { assert Elems(stored.value) - {v} == Elems(stored.value); }
    case Delete =>
  }

  lemma ApplyRefinesSets(m: Storage, key: Key, op: Op)
    requires Sorted(m)
    ensures Sorted(Apply(m, key, op))
    ensures Abstract(Apply(m, key, op)) == SetApply(Abstract(m), key, op)
    ensures Reply(m, key, op) == SetReply(Abstract(m), key, op)
  {
    PlanRefinesSets(Lookup(m, key), op);
    assert Lookup(Abstract(m), key) == AbstractValue(Lookup(m, key));
    var e := Plan(Lookup(m, key), op);
    var left := if e.Refuse? then Lookup(m, key) else e.next;
    assert Apply(m, key, op) == Store(m, key, left);
    AbstractStore(m, key, left);
  }

  lemma AbstractStore(m: Storage, key: Key, next: Option<Value>)
    ensures Abstract(Store(m, key, next)) == Store(Abstract(m), key, AbstractValue(next))
  {
  }

  /** Over any sequence of calls the sorted lists behave as sets: same contents, same replies. */
  lemma {:induction false} ListsRefineSets(m: Storage, calls: seq<Call>)
    requires Sorted(m)
    ensures Sorted(Run(m, calls))
    ensures Abstract(Run(m, calls)) == SetRun(Abstract(m), calls)
    ensures Replies(m, calls) == SetReplies(Abstract(m), calls)
    decreases calls
  {
    if calls != [] {
      ApplyRefinesSets(m, calls[0].key, calls[0].op);
      ListsRefineSets(Apply(m, calls[0].key, calls[0].op), calls[1..]);
    }
  }

  /** Two histories that reach the same sets hold identical lists, order included. */
  lemma HistoryIndependence(a: seq<Call>, b: seq<Call>)
    requires SetRun(map[], a) == SetRun(map[], b)
    ensures Run(map[], a) == Run(map[], b)
  {
    ListsRefineSets(map[], a);
    ListsRefineSets(map[], b);
    assert Abstract(map[]) == map[];
    SameSetsSameStore(Run(map[], a), Run(map[], b));
  }

  /** Appends commute. */
  lemma AppendsCommute(m: Storage, key: Key, v: string, w: string)
    requires Sorted(m)
    ensures Apply(Apply(m, key, AppendToList(v)), key, AppendToList(w))
         == Apply(Apply(m, key, AppendToList(w)), key, AppendToList(v))
  {
    TwoCalls(m, key, AppendToList(v), AppendToList(w));
    TwoCalls(m, key, AppendToList(w), AppendToList(v));
    SetAppendsCommute(Abstract(m), key, v, w);
    SameSetsSameStore(Apply(Apply(m, key, AppendToList(v)), key, AppendToList(w)),
                      Apply(Apply(m, key, AppendToList(w)), key, AppendToList(v)));
  }

  lemma TwoCalls(m: Storage, key: Key, a: Op, b: Op)
    requires Sorted(m)
    ensures Sorted(Apply(Apply(m, key, a), key, b))
    ensures Abstract(Apply(Apply(m, key, a), key, b)) == SetApply(SetApply(Abstract(m), key, a), key, b)
  {
    ApplyRefinesSets(m, key, a);
    ApplyRefinesSets(Apply(m, key, a), key, b);
  }

  lemma SetAppendsCommute(m: SetStore, key: Key, v: string, w: string)
    ensures SetApply(SetApply(m, key, AppendToList(v)), key, AppendToList(w))
         == SetApply(SetApply(m, key, AppendToList(w)), key, AppendToList(v))
  {
    var held := Items(Lookup(m, key));
    assert held + {v} + {w} == held + {w} + {v};
  }

  /** Removing a newly appended item restores the store; a key that was absent is left empty. */
  lemma RemoveUndoesAppend(m: Storage, key: Key, v: string)
    requires Sorted(m)
    requires key in m ==> v !in m[key]
    ensures Apply(Apply(m, key, AppendToList(v)), key, RemoveFromList(v))
         == if key in m then m else m[key := []]
  {
    var target := if key in m then m else m[key := []];
    TwoCalls(m, key, AppendToList(v), RemoveFromList(v));
    AbstractOrEmpty(m, key);
    SetRemoveUndoesAppend(Abstract(m), key, v);
    SameSetsSameStore(Apply(Apply(m, key, AppendToList(v)), key, RemoveFromList(v)), target);
  }

  lemma AbstractOrEmpty(m: Storage, key: Key)
    ensures Abstract(if key in m then m else m[key := []]) == Store(Abstract(m), key, Some(Items(Lookup(Abstract(m), key))))
    ensures Items(Lookup(Abstract(m), key)) == if key in m then Elems(m[key]) else {}
  {
    var kept: Value := if key in m then m[key] else [];
    AbstractStore(m, key, Some(kept));
    assert Store(m, key, Some(kept)) == if key in m then m else m[key := []];
    if key !in m { assert Elems(kept) == {}; }
  }

  lemma SetRemoveUndoesAppend(m: SetStore, key: Key, v: string)
    requires v !in Items(Lookup(m, key))
    ensures SetApply(SetApply(m, key, AppendToList(v)), key, RemoveFromList(v)) == Store(m, key, Some(Items(Lookup(m, key))))
  {
  }

  lemma SameSetsSameStore(m: Storage, n: Storage)
    requires Sorted(m) && Sorted(n) && Abstract(m) == Abstract(n)
    ensures m == n
  {
    StringOrder();
    assert m.Keys == Abstract(m).Keys && n.Keys == Abstract(n).Keys;
    forall k | k in m ensures m[k] == n[k] {
      assert Abstract(m)[k] == Abstract(n)[k];
      AscendingIsCanonical(m[k], n[k], StringLess);
    }
  }
}
