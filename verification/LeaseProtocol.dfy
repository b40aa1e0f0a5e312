/** The lease protocol between one storage server and its clients, as a state machine.

    A state is a moment between two critical sections of the code; a step is one critical section,
    or the passing of time.  Reads come in three steps (the client asks, the server answers, the
    answer lands in the client), so other steps can fall between them.  A write that calls leases in
    takes the server's lock, deals with the tenants one at a time and then commits; the lock keeps
    other reads and writes of that server out, but clients, callbacks and the clock run on. */
module LeaseProtocol {
  import opened Ordered
  import opened LeaseRpc
  import opened ClientCache
  import L = ListStore

  type Key = L.Key
  type Value = L.Value

  /** `Get` caches the first item only, `GetList` the whole list. */
  datatype Kind = Scalar | List

  /** What the server answers to a read of a stored value. */
  function View(kind: Kind, v: Value): Value {
    if kind.List? then v else [if |v| > 0 then v[0] else ""]
  }

  /** A value handed out under a lease.  `serve` numbers the server's answer, `stamp` is the time the
      server keeps for this host and key, and `epoch` counts the writes to the key up to then.
      `crossed` says that a callback reached the client while the answer was on its way. */
  datatype Copy = Copy(value: Value, kind: Kind, serve: nat, stamp: int, epoch: nat, crossed: bool)

  ghost predicate SameRead(a: Copy, b: Copy) {
    a.(crossed := true) == b.(crossed := true)
  }

  datatype Site = Site(host: Host, key: Key)

  /** A read under way: asked, and answered once `reply` is there. */
  datatype Flight = Flight(site: Site, kind: Kind, want: bool, ticket: Option<nat>, reply: Option<Copy>)

  /** The server's lock, held by a write that is calling leases in.  `calling` says that the callback
      to the first host of `todo` is out. */
  datatype WriteLock = WriteLock(
    key: Key, op: L.Op, start: int,
    todo: seq<Host>, calling: bool, answered: set<Host>, lost: set<Host>)

  datatype State = State(
    now: int,
    storage: L.Storage,
    epochs: map<Key, nat>,
    ledger: map<Key, map<Host, int>>,
    lock: Option<WriteLock>,
    slots: map<Site, Slot<Copy>>,
    flights: map<nat, Flight>,
    next: nat)

  datatype Step =
    | Tick(seconds: nat)
    // clients
    | Ask(site: Site, kind: Kind, mode: Mode)  // first half of a read; a hit ends here
    | Land(flight: nat)                        // second half of a read
    | DropReply(flight: nat)                   // the read's call returns an error
    | RecycleKey(site: Site)                   // one round of the cache recycler
    | Callback(site: Site)                     // the client runs RevokeLease, in time or late
    // the server
    | Serve(flight: nat)
    | QuietWrite(key: Key, op: L.Op)           // a write that calls no leases in
    | BeginWrite(key: Key, op: L.Op, order: seq<Host>)
    | Skip                                     // the first tenant's lease ran out already
    | Call                                     // send the callback to the first tenant
    | Ack                                      // its answer is in
    | Timeout                                  // its lease ran out while waiting
    | CallFailed                               // the call ended with an error, which goes unread
    | Commit

  function Init(t: int): State {
    State(t, map[], map[], map[], None, map[], map[], 0)
  }

  function SlotAt(s: State, site: Site): Slot<Copy> {
    if site in s.slots then s.slots[site] else Slot(None, None)
  }

  function Tenants(s: State, key: Key): map<Host, int> {
    if key in s.ledger then s.ledger[key] else map[]
  }

  function Epoch(s: State, key: Key): nat {
    if key in s.epochs then s.epochs[key] else 0
  }

  predicate Enabled(s: State, step: Step) {
    match step
    case Tick(_) => true
    case Ask(site, _, mode) => !Begin(SlotAt(s, site), mode, s.now).1.CacheInconsistent?
    case Land(id) => id in s.flights && s.flights[id].reply.Some?
    case DropReply(id) => id in s.flights
    case RecycleKey(_) => true
    case Callback(site) => Revoke(SlotAt(s, site)).Some?
    case Serve(id) => s.lock.None? && id in s.flights && s.flights[id].reply.None?
    case QuietWrite(key, op) =>
      s.lock.None? && var e := L.Plan(L.Lookup(s.storage, key), op); e.Replace? && !e.revokes
    case BeginWrite(key, op, order) =>
      && s.lock.None?
      && (var e := L.Plan(L.Lookup(s.storage, key), op); e.Replace? && e.revokes)
      && Elems(order) == Tenants(s, key).Keys
    case Skip => s.lock.Some? && s.lock.value.todo != [] && !s.lock.value.calling && FirstExpiry(s) < s.now
    case Call => s.lock.Some? && s.lock.value.todo != [] && !s.lock.value.calling && FirstExpiry(s) >= s.now
    case Ack => Waiting(s) && s.lock.value.todo[0] in s.lock.value.answered
    case Timeout => Waiting(s) && s.now >= FirstExpiry(s)
    case CallFailed => Waiting(s)
    case Commit => s.lock.Some? && s.lock.value.todo == []
  }

  /** The one write to a stored key that calls no leases in is an append to an empty list. */
  lemma QuietWriteIff(s: State, key: Key, op: L.Op)
    requires key in s.storage
    ensures Enabled(s, QuietWrite(key, op)) <==> s.lock.None? && op.AppendToList? && s.storage[key] == []
  {
    L.WhichWritesRevoke(L.Lookup(s.storage, key), op);
  }

  predicate Waiting(s: State) {
    s.lock.Some? && s.lock.value.todo != [] && s.lock.value.calling
  }

  /** The expiry of the lease of the first host still to deal with. */
  function FirstExpiry(s: State): int
    requires s.lock.Some? && s.lock.value.todo != []
  {
    var t := Tenants(s, s.lock.value.key);
    var h := s.lock.value.todo[0];
    if h in t then Expiry(t[h]) else s.now
  }

  function Apply(s: State, step: Step): State
    requires Enabled(s, step)
  {
    match step
    case Tick(d) => s.(now := s.now + d)
    case Ask(site, kind, mode) =>
      var (slot, d) := Begin(SlotAt(s, site), mode, s.now);
      var s1 := s.(slots := s.slots[site := slot]);
      if d.Hit? then s1
      else s1.(flights := s.flights[s.next := Flight(site, kind, d.wantLease, d.ticket, None)], next := s.next + 1)
    case Land(id) =>
      var f := s.flights[id];
      s.(slots := s.slots[f.site := Finish(SlotAt(s, f.site), f.ticket, s.next, f.want, f.reply.value, s.now)],
         flights := s.flights - {id}, next := s.next + 1)
    case DropReply(id) => s.(flights := s.flights - {id})
    case RecycleKey(site) => s.(slots := s.slots[site := Recycle(SlotAt(s, site), s.now)])
    case Callback(site) =>
      s.(slots := s.slots[site := Revoke(SlotAt(s, site)).value],
         flights := map id | id in s.flights :: Cross(s.flights[id], site),
         lock := if Waiting(s) && site == Site(s.lock.value.todo[0], s.lock.value.key)
                 then Some(s.lock.value.(answered := s.lock.value.answered + {site.host})) else s.lock)
    case Serve(id) => Answer(s, id)
    case QuietWrite(key, op) => Overwrite(s, key, op)
    case BeginWrite(key, op, order) => s.(lock := Some(WriteLock(key, op, s.now, order, false, {}, {})))
    case Skip => NextTenant(s)
    case Call => s.(lock := Some(s.lock.value.(calling := true)))
    case Ack => NextTenant(s)
    case Timeout => NextTenant(s)
    case CallFailed => NextTenant(s.(lock := Some(s.lock.value.(lost := s.lock.value.lost + {s.lock.value.todo[0]}))))
    case Commit => Overwrite(s, s.lock.value.key, s.lock.value.op).(ledger := s.ledger - {s.lock.value.key}, lock := None)
  }

  function Cross(f: Flight, site: Site): Flight {
    if f.site == site && f.reply.Some? then f.(reply := Some(f.reply.value.(crossed := true))) else f
  }

  function NextTenant(s: State): State
    requires s.lock.Some? && s.lock.value.todo != []
  {
    s.(lock := Some(s.lock.value.(todo := s.lock.value.todo[1..], calling := false)))
  }

  /** The server answers a read.  The first time it leases a key to a host it notes the time; later
      leases to that host keep the first time. */
  function Answer(s: State, id: nat): State
    requires id in s.flights
  {
    var f := s.flights[id];
    var k := f.site.key;
    if k !in s.storage then s.(flights := s.flights - {id})
    else
      var leases := Noted(Tenants(s, k), f.site.host, s.now);
      var copy := Copy(View(f.kind, s.storage[k]), f.kind, s.next, leases[f.site.host], Epoch(s, k), false);
      s.(ledger := if f.want then s.ledger[k := leases] else s.ledger,
         flights := s.flights[id := f.(reply := Some(copy))],
         next := s.next + 1)
  }

  function Overwrite(s: State, key: Key, op: L.Op): State {
    s.(storage := L.Apply(s.storage, key, op), epochs := s.epochs[key := Epoch(s, key) + 1])
  }

  // ---- runs ----

  /** The state after a sequence of steps; a step that is not enabled is passed over. */
  function Exec(t: int, steps: seq<Step>): State {
    if steps == [] then Init(t)
    else
      var s := Exec(t, steps[..|steps| - 1]);
      if Enabled(s, steps[|steps| - 1]) then Apply(s, steps[|steps| - 1]) else s
  }

  // ---- leases in the hands of clients ----

  ghost predicate InFlight(s: State, site: Site, c: Copy) {
    exists id | id in s.flights :: s.flights[id].site == site && s.flights[id].want && s.flights[id].reply == Some(c)
  }

  ghost predicate Held(s: State, site: Site, c: Copy) {
    SlotAt(s, site).cached == Some(c) || InFlight(s, site, c)
  }

  /** The copy is what the server holds now, and the server still has the lease on its books. */
  ghost predicate Backed(s: State, site: Site, c: Copy) {
    && site.key in s.storage
    && c.value == View(c.kind, s.storage[site.key])
    && c.epoch == Epoch(s, site.key)
    && site.host in Tenants(s, site.key)
    && Tenants(s, site.key)[site.host] == c.stamp
  }

  /** The four ways a write gets past a lease. */
  ghost predicate Cause(s: State, step: Step, site: Site, c: Copy) {
    && Enabled(s, step)
    && match step
       case QuietWrite(key, _) => key == site.key && key in s.storage
       case Commit =>
         && s.lock.value.key == site.key
         && (site.host in s.lock.value.lost || c.crossed || Expiry(c.stamp) <= s.now)
       case _ => false
  }

  ghost predicate EscapesAt(t: int, steps: seq<Step>, w: nat, site: Site, c: Copy)
    requires w < |steps|
  {
    var s := Exec(t, steps[..w]);
    exists c0 :: Held(s, site, c0) && SameRead(c0, c) && Cause(s, steps[w], site, c0)
  }

  ghost predicate Escaped(t: int, steps: seq<Step>, site: Site, c: Copy) {
    exists w: nat | w < |steps| :: EscapesAt(t, steps, w, site, c)
  }

  // ---- the invariant ----

  ghost predicate LedgerInv(s: State) {
    && (forall k | k in s.ledger :: k in s.storage)
    && (forall k, h | k in s.ledger && h in s.ledger[k] :: s.ledger[k][h] <= s.now)
  }

  ghost predicate Settled(s: State, w: WriteLock, h: Host) {
    h in w.answered || h in w.lost || (h in Tenants(s, w.key) && Expiry(Tenants(s, w.key)[h]) <= s.now)
  }

  /** The lock's books: every tenant is still to do or settled, and no lease is younger than the write. */
  ghost predicate LockBooks(s: State) {
    s.lock.Some? ==>
      var w := s.lock.value;
      && (w.calling ==> w.todo != [])
      && (forall h | h in w.todo :: h in Tenants(s, w.key))
      && (forall h | h in Tenants(s, w.key) :: h in w.todo || Settled(s, w, h))
      && (forall h | h in Tenants(s, w.key) :: Tenants(s, w.key)[h] <= w.start)
      && w.start <= s.now
      && L.Plan(L.Lookup(s.storage, w.key), w.op).Replace?
  }

  /** And a host that has answered holds nothing but answers that the callback overtook. */
  ghost predicate LockInv(s: State) {
    && LockBooks(s)
    && (s.lock.Some? ==>
          forall h, c | h in s.lock.value.answered && Held(s, Site(h, s.lock.value.key), c) :: c.crossed)
  }

  ghost predicate HeldInv(s: State) {
    forall site, c | Held(s, site, c) :: c.serve < s.next && c.epoch <= Epoch(s, site.key)
  }

  ghost predicate GoodSlot(slot: Slot<Copy>) {
    GrantedIsCached(slot) && (slot.rec.Some? ==> slot.rec.value.validSeconds == LEASE_SECONDS)
  }

  ghost predicate SlotInv(s: State) {
    forall site | site in s.slots :: GoodSlot(s.slots[site])
  }

  ghost predicate Inv(s: State) {
    LedgerInv(s) && LockInv(s) && HeldInv(s) && SlotInv(s)
  }

  // ---- one step ----

  /** Steps of the lock and the clock leave the stored data and the clients alone. */
  predicate LockStep(step: Step) {
    step.Tick? || step.BeginWrite? || step.Skip? || step.Call? || step.Ack? || step.Timeout? || step.CallFailed?
  }

  predicate ClientStep(step: Step) {
    step.Ask? || step.Land? || step.DropReply? || step.RecycleKey? || step.Callback?
  }

  predicate WriteStep(step: Step) {
    step.QuietWrite? || step.Commit?
  }

  lemma StepKinds(s: State, step: Step)
    requires Enabled(s, step)
    ensures var s' := Apply(s, step);
            && (LockStep(step) || ClientStep(step) || WriteStep(step) || step.Serve?)
            && (LockStep(step) || WriteStep(step) ==> s'.slots == s.slots && s'.flights == s.flights && s'.next == s.next)
            && (step.Serve? ==> s'.slots == s.slots)
            && (LockStep(step) || ClientStep(step) ==> SameData(s, s'))
            && (!step.Tick? ==> s'.now == s.now)
            && s.now <= s'.now
  {
    StepClients(s, step);
    StepData(s, step);
    StepTime(s, step);
  }

  lemma StepClients(s: State, step: Step)
    requires Enabled(s, step)
    ensures var s' := Apply(s, step);
            && (LockStep(step) || WriteStep(step) ==> s'.slots == s.slots && s'.flights == s.flights && s'.next == s.next)
            && (step.Serve? ==> s'.slots == s.slots)
  {
  }

  ghost predicate SameData(s: State, s': State) {
    s'.storage == s.storage && s'.epochs == s.epochs && s'.ledger == s.ledger
  }

  lemma StepData(s: State, step: Step)
    requires Enabled(s, step)
    ensures LockStep(step) || ClientStep(step) ==> SameData(s, Apply(s, step))
  {
    if LockStep(step) {
      LockStepData(s, step);
    } else if ClientStep(step) {
      ClientStepData(s, step);
    }
  }

  lemma LockStepData(s: State, step: Step)
    requires Enabled(s, step) && LockStep(step)
    ensures SameData(s, Apply(s, step))
  {
  }

  lemma ClientStepData(s: State, step: Step)
    requires Enabled(s, step) && ClientStep(step)
    ensures SameData(s, Apply(s, step))
  {
  }

  lemma StepTime(s: State, step: Step)
    requires Enabled(s, step)
    ensures Apply(s, step).now == s.now + if step.Tick? then step.seconds else 0
  {
  }

  /** Where a copy comes from: the server handed it out just now, or it was held before. */
  ghost predicate Stems(s: State, site: Site, c: Copy) {
    exists c0 :: Held(s, site, c0) && SameRead(c0, c) && (c0.crossed ==> c.crossed)
  }

  lemma SelfStems(s: State, site: Site, c: Copy)
    requires Held(s, site, c)
    ensures Stems(s, site, c)
  {
  }

  lemma Origin(s: State, step: Step, site: Site, c: Copy)
    requires Enabled(s, step) && Held(Apply(s, step), site, c)
    ensures Stems(s, site, c) || (step.Serve? && c.serve == s.next && Backed(Apply(s, step), site, c))
  {
    match step
    case Ask(_, _, _) => OriginAsk(s, step, site, c);
    case Land(_) => OriginLand(s, step, site, c);
    case DropReply(_) => SelfStems(s, site, c);
    case RecycleKey(_) => SelfStems(s, site, c);
    case Callback(_) => OriginCallback(s, step, site, c);
    case Serve(_) => OriginServe(s, step, site, c);
    case _ =>
      StepKinds(s, step);
      SelfStems(s, site, c);
  }

  lemma AskKeepsCache(s: State, step: Step, site: Site)
    requires step.Ask? && Enabled(s, step)
    ensures SlotAt(Apply(s, step), site).cached == SlotAt(s, site).cached
  {
  }

  lemma AskKeepsReplies(s: State, step: Step, id: nat)
    requires step.Ask? && Enabled(s, step) && id in Apply(s, step).flights && Apply(s, step).flights[id].reply.Some?
    ensures id in s.flights && s.flights[id] == Apply(s, step).flights[id]
  {
  }

  lemma OriginAsk(s: State, step: Step, site: Site, c: Copy)
    requires step.Ask? && Enabled(s, step) && Held(Apply(s, step), site, c)
    ensures Stems(s, site, c)
  {
    var s' := Apply(s, step);
    AskKeepsCache(s, step, site);
    if InFlight(s', site, c) {
      var id :| id in s'.flights && s'.flights[id].site == site && s'.flights[id].want && s'.flights[id].reply == Some(c);
      AskKeepsReplies(s, step, id);
      assert InFlight(s, site, c);
    }
    SelfStems(s, site, c);
  }

  lemma OriginLand(s: State, step: Step, site: Site, c: Copy)
    requires step.Land? && Enabled(s, step) && Held(Apply(s, step), site, c)
    ensures Stems(s, site, c)
  {
  }

  lemma OriginCallback(s: State, step: Step, site: Site, c: Copy)
    requires step.Callback? && Enabled(s, step) && Held(Apply(s, step), site, c)
    ensures Stems(s, site, c)
    ensures step.site == site ==> c.crossed && SlotAt(Apply(s, step), site).cached.None?
  {
  }

  lemma OriginServe(s: State, step: Step, site: Site, c: Copy)
    requires step.Serve? && Enabled(s, step) && Held(Apply(s, step), site, c)
    ensures Stems(s, site, c) || (c.serve == s.next && Backed(Apply(s, step), site, c))
  {
  }

  lemma OtherKeysKept(m: L.Storage, key: Key, op: L.Op, k: Key)
    requires k != key
    ensures L.Lookup(L.Apply(m, key, op), k) == L.Lookup(m, k)
  {
  }

  lemma BackedWrite(s: State, step: Step, site: Site, c: Copy)
    requires Inv(s) && WriteStep(step) && Enabled(s, step) && Held(s, site, c) && Backed(s, site, c)
    ensures Backed(Apply(s, step), site, c) || Cause(s, step, site, c)
  {
  }

  lemma BackedServe(s: State, step: Step, site: Site, c: Copy)
    requires step.Serve? && Enabled(s, step) && Backed(s, site, c)
    ensures Backed(Apply(s, step), site, c)
  {
  }

  /** A backed copy stays backed, unless the step is one of the four causes. */
  lemma BackedStep(s: State, step: Step, site: Site, c: Copy)
    requires Inv(s) && Enabled(s, step) && Held(s, site, c) && Backed(s, site, c)
    ensures Backed(Apply(s, step), site, c) || Cause(s, step, site, c)
  {
    if WriteStep(step) {
      BackedWrite(s, step, site, c);
    } else if step.Serve? {
      BackedServe(s, step, site, c);
    } else {
      StepKinds(s, step);
    }
  }

  lemma LedgerStep(s: State, step: Step)
    requires LedgerInv(s) && LockInv(s) && Enabled(s, step)
    ensures LedgerInv(Apply(s, step))
  {
    StepKinds(s, step);
    if WriteStep(step) {
      LedgerWrite(s, step);
    } else if step.Serve? {
      LedgerServe(s, step);
    }
  }

  lemma LedgerServe(s: State, step: Step)
    requires LedgerInv(s) && Enabled(s, step) && step.Serve?
    ensures LedgerInv(Apply(s, step))
  {
  }

  lemma LedgerWrite(s: State, step: Step)
    requires LedgerInv(s) && Enabled(s, step) && WriteStep(step)
    ensures LedgerInv(Apply(s, step))
  {
    var key := if step.Commit? then s.lock.value.key else step.key;
    var op := if step.Commit? then s.lock.value.op else step.op;
    forall k | k in Apply(s, step).ledger ensures k in Apply(s, step).storage {
      if k != key { OtherKeysKept(s.storage, key, op, k); }
    }
  }

  lemma HeldStep(s: State, step: Step)
    requires HeldInv(s) && Enabled(s, step)
    ensures HeldInv(Apply(s, step))
  {
    var s' := Apply(s, step);
    StepCounts(s, step);
    forall site, c | Held(s', site, c) ensures c.serve < s'.next && c.epoch <= Epoch(s', site.key) {
      Origin(s, step, site, c);
    }
  }

  lemma StepCounts(s: State, step: Step)
    requires Enabled(s, step)
    ensures s.next <= Apply(s, step).next
    ensures forall k :: Epoch(s, k) <= Epoch(Apply(s, step), k)
  {
    StepNumbers(s, step);
    StepEpochs(s, step);
  }

  lemma StepNumbers(s: State, step: Step)
    requires Enabled(s, step)
    ensures s.next <= Apply(s, step).next
  {
  }

  lemma StepEpochs(s: State, step: Step)
    requires Enabled(s, step)
    ensures forall k :: Epoch(s, k) <= Epoch(Apply(s, step), k)
  {
    StepData(s, step);
  }

  lemma GoodBegin(slot: Slot<Copy>, mode: Mode, now: int)
    requires GoodSlot(slot)
    ensures GoodSlot(Begin(slot, mode, now).0)
  {
  }

  lemma GoodFinish(slot: Slot<Copy>, f: Flight, newId: nat, copy: Copy, now: int)
    requires GoodSlot(slot)
    ensures GoodSlot(Finish(slot, f.ticket, newId, f.want, copy, now))
  {
  }

  lemma OneSlot(s: State, s': State, site: Site)
    requires SlotInv(s) && site in s'.slots && s'.slots == s.slots[site := s'.slots[site]] && GoodSlot(s'.slots[site])
    ensures SlotInv(s')
  {
  }

  lemma SlotStep(s: State, step: Step)
    requires SlotInv(s) && Enabled(s, step)
    ensures SlotInv(Apply(s, step))
  {
    StepKinds(s, step);
    if ClientStep(step) { ClientSlotStep(s, step); }
  }

  lemma ClientSlotStep(s: State, step: Step)
    requires SlotInv(s) && Enabled(s, step) && ClientStep(step)
    ensures SlotInv(Apply(s, step))
  {
    var s' := Apply(s, step);
    match step
    case Ask(site, _, mode) =>
      GoodBegin(SlotAt(s, site), mode, s.now);
      OneSlot(s, s', site);
    case Land(id) =>
      var f := s.flights[id];
      GoodFinish(SlotAt(s, f.site), f, s.next, f.reply.value, s.now);
      OneSlot(s, s', f.site);
    case RecycleKey(site) => OneSlot(s, s', site);
    case Callback(site) => OneSlot(s, s', site);
    case DropReply(_) =>
  }

  /** A host is put down as answered by its callback, and by nothing else. */
  lemma AnsweredByCallback(s: State, step: Step, h: Host)
    requires Enabled(s, step) && Apply(s, step).lock.Some? && h in Apply(s, step).lock.value.answered
    ensures s.lock.Some? && s.lock.value.key == Apply(s, step).lock.value.key
    ensures h in s.lock.value.answered || step == Callback(Site(h, s.lock.value.key))
  {
  }

  /** No answered host holds a copy whose answer did not cross the callback. */
  lemma AnsweredStep(s: State, step: Step, h: Host, c: Copy)
    requires LockInv(s) && Enabled(s, step) && Apply(s, step).lock.Some?
    requires h in Apply(s, step).lock.value.answered && Held(Apply(s, step), Site(h, Apply(s, step).lock.value.key), c)
    ensures c.crossed
  {
    AnsweredByCallback(s, step, h);
    var site := Site(h, s.lock.value.key);
    if h in s.lock.value.answered {
      Origin(s, step, site, c);
    } else {
      OriginCallback(s, step, site, c);
    }
  }

  /** The first host of `todo` is dealt with. */
  lemma TenantDone(s: State)
    requires LockBooks(s) && s.lock.Some? && s.lock.value.todo != [] && Settled(s, s.lock.value, s.lock.value.todo[0])
    ensures LockBooks(NextTenant(s))
  {
  }

  /** A step that leaves the data alone, or at most notes an answer or a call. */
  lemma LockBooksFrame(s: State, s': State)
    requires LockBooks(s) && s.lock.Some? && s'.lock.Some? && s'.ledger == s.ledger && s'.storage == s.storage && s.now <= s'.now
    requires var w, w' := s.lock.value, s'.lock.value;
             && w'.key == w.key && w'.op == w.op && w'.start == w.start && w'.todo == w.todo
             && (w'.calling ==> w.todo != []) && w.answered <= w'.answered && w'.lost == w.lost
    ensures LockBooks(s')
  {
  }

  /** The tenant loop goes on. */
  lemma LoopBooks(s: State, step: Step)
    requires LockBooks(s) && Enabled(s, step) && (step.Skip? || step.Ack? || step.Timeout?)
    ensures LockBooks(Apply(s, step))
  {
    assert s.lock.value.todo[0] in Tenants(s, s.lock.value.key);
    TenantDone(s);
  }

  lemma FailedBooks(s: State)
    requires LockBooks(s) && Enabled(s, CallFailed)
    ensures LockBooks(Apply(s, CallFailed))
  {
    var w := s.lock.value;
    var s1 := s.(lock := Some(w.(lost := w.lost + {w.todo[0]})));
    assert LockBooks(s1);
    TenantDone(s1);
  }

  lemma BeginBooks(s: State, step: Step)
    requires LedgerInv(s) && Enabled(s, step) && step.BeginWrite?
    ensures LockBooks(Apply(s, step))
  {
    assert forall h :: h in step.order <==> h in Elems(step.order);
  }

  lemma OtherBooks(s: State, step: Step)
    requires LockBooks(s) && Enabled(s, step) && (step.Tick? || step.Call? || ClientStep(step))
    ensures LockBooks(Apply(s, step))
  {
    StepKinds(s, step);
    if s.lock.Some? { LockBooksFrame(s, Apply(s, step)); }
  }

  lemma LockBooksStep(s: State, step: Step)
    requires LedgerInv(s) && LockBooks(s) && Enabled(s, step)
    ensures LockBooks(Apply(s, step))
  {
    if step.Skip? || step.Ack? || step.Timeout? {
      LoopBooks(s, step);
    } else if step.CallFailed? {
      FailedBooks(s);
    } else if step.BeginWrite? {
      BeginBooks(s, step);
    } else if step.Tick? || step.Call? || ClientStep(step) {
      OtherBooks(s, step);
    } else {
      assert Apply(s, step).lock.None?;
    }
  }

  lemma LockStepKeeps(s: State, step: Step)
    requires LedgerInv(s) && LockInv(s) && Enabled(s, step)
    ensures LockInv(Apply(s, step))
  {
    var s' := Apply(s, step);
    LockBooksStep(s, step);
    if s'.lock.Some? {
      forall h, c | h in s'.lock.value.answered && Held(s', Site(h, s'.lock.value.key), c) ensures c.crossed {
        AnsweredStep(s, step, h, c);
      }
    }
  }

  lemma InvStep(s: State, step: Step)
    requires Inv(s) && Enabled(s, step)
    ensures Inv(Apply(s, step))
  {
    LedgerStep(s, step);
    LockStepKeeps(s, step);
    HeldStep(s, step);
    SlotStep(s, step);
  }

  lemma InvInit(t: int)
    ensures Inv(Init(t))
  {
  }
}
