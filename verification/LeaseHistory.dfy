/** What the bounded histories of the clients mean over whole runs of the protocol. */
module LeaseHistory {
  import opened Ordered
  import opened LeaseRpc
  import opened ClientCache
  import opened LeaseProtocol
  import opened LeaseRuns

  /** The times of all queries that have reached the record of a client's key since it was made: hits,
      and answers that landed while the record they were asked under was still there. */
  ghost function Log(t: int, steps: seq<Step>, site: Site): seq<int> {
    if steps == [] then []
    else
      var init, step := steps[..|steps| - 1], steps[|steps| - 1];
      StepLog(Log(t, init, site), Exec(t, init), step, site)
  }

  ghost function StepLog(log: seq<int>, s: State, step: Step, site: Site): seq<int> {
    if !Enabled(s, step) then log
    else if step.Ask? && step.site == site then AskLog(log, Begin(SlotAt(s, site), step.mode, s.now).1, s.now)
    else if step.Land? && s.flights[step.flight].site == site
    then ReplyLog(log, SlotAt(s, site).rec, s.flights[step.flight].ticket, s.now)
    else log
  }

  /** The record's history is what is left of the log. */
  ghost predicate Keeps(rec: Option<Record>, log: seq<int>, now: int) {
    rec.Some? ==> log != [] && InOrder(log, now) && rec.value.history == Recall(log)
  }

  lemma OneMore(log: seq<int>, clock: int)
    requires log != [] && InOrder(log, clock)
    ensures InOrder(log + [clock], clock) && Recall(log + [clock]) == Push(Recall(log), clock)
  {
    assert (log + [clock])[..|log|] == log;
  }

  lemma AskKeeps(slot: Slot<Copy>, mode: Mode, log: seq<int>, now: int)
    requires GrantedIsCached(slot) && Keeps(slot.rec, log, now)
    ensures var (slot1, d) := Begin(slot, mode, now); Keeps(slot1.rec, AskLog(log, d, now), now)
  {
    if slot.rec.Some? { OneMore(log, now); }
  }

  lemma LandKeeps(rec: Option<Record>, ticket: Option<nat>, newId: nat, want: bool, log: seq<int>, now: int)
    requires Keeps(rec, log, now)
    ensures Keeps(FinishRecord(rec, ticket, newId, want, now), ReplyLog(log, rec, ticket, now), now)
  {
    if rec.Some? { OneMore(log, now); }
  }

  /** Time passes, or the record loses its grant or is thrown away. */
  lemma KeepsLater(rec: Option<Record>, rec': Option<Record>, log: seq<int>, now: int, later: int)
    requires Keeps(rec, log, now) && now <= later
    requires rec'.Some? ==> rec.Some? && rec'.value.history == rec.value.history
    ensures Keeps(rec', log, later)
  {
  }

  lemma OtherStep(s: State, step: Step, site: Site)
    requires Enabled(s, step) && !(step.Ask? && step.site == site) && !(step.Land? && s.flights[step.flight].site == site)
    ensures var rec, rec' := SlotAt(s, site).rec, SlotAt(Apply(s, step), site).rec;
            rec'.Some? ==> rec.Some? && rec'.value.history == rec.value.history
  {
    StepKinds(s, step);
  }

  lemma KeepsStep(s: State, step: Step, site: Site, log: seq<int>)
    requires Enabled(s, step) && GrantedIsCached(SlotAt(s, site)) && Keeps(SlotAt(s, site).rec, log, s.now)
    ensures Keeps(SlotAt(Apply(s, step), site).rec, StepLog(log, s, step, site), Apply(s, step).now)
  {
    StepTime(s, step);
    if step.Ask? && step.site == site {
      AskKeeps(SlotAt(s, site), step.mode, log, s.now);
    } else if step.Land? && s.flights[step.flight].site == site {
      var f := s.flights[step.flight];
      LandKeeps(SlotAt(s, site).rec, f.ticket, s.next, f.want, log, s.now);
    } else {
      OtherStep(s, step, site);
      KeepsLater(SlotAt(s, site).rec, SlotAt(Apply(s, step), site).rec, log, s.now, Apply(s, step).now);
    }
  }

  lemma {:induction false} HistoryIsKept(t: int, steps: seq<Step>, site: Site)
    ensures Keeps(SlotAt(Exec(t, steps), site).rec, Log(t, steps, site), Exec(t, steps).now)
  {
    if steps != [] {
      var init, step := steps[..|steps| - 1], steps[|steps| - 1];
      HistoryIsKept(t, init, site);
      InvHolds(t, init);
      if Enabled(Exec(t, init), step) { KeepsStep(Exec(t, init), step, site, Log(t, init, site)); }
    }
  }

  /** In every state of every run, a record's history is the last three of all the queries that have
      reached the record since it was made, in order. */
  lemma HistoryIsTail(t: int, steps: seq<Step>, site: Site)
    requires SlotAt(Exec(t, steps), site).rec.Some?
    ensures var log := Log(t, steps, site);
            SlotAt(Exec(t, steps), site).rec.value.history == Tail(log) && log != [] && NonDecreasing(log)
  {
    HistoryIsKept(t, steps, site);
    RecallIsTail(Log(t, steps, site));
    InOrderMeansNonDecreasing(Log(t, steps, site), Exec(t, steps).now);
  }

  /** A client in normal mode that misses asks for a lease exactly if it has a record of the key and at
      least three of all its queries fall in the last ten seconds. */
  lemma MissWantsLeaseIff(t: int, steps: seq<Step>, site: Site)
    requires Begin(SlotAt(Exec(t, steps), site), Normal, Exec(t, steps).now).1.Miss?
    ensures Begin(SlotAt(Exec(t, steps), site), Normal, Exec(t, steps).now).1.wantLease
       <==> OftenAsked(SlotAt(Exec(t, steps), site), Log(t, steps, site), Exec(t, steps).now)
  {
    HistoryIsKept(t, steps, site);
    KeptDecides(SlotAt(Exec(t, steps), site), Log(t, steps, site), Exec(t, steps).now);
  }

  ghost predicate OftenAsked(slot: Slot<Copy>, log: seq<int>, now: int) {
    slot.rec.Some? && CountAfter(log, now - QUERY_CACHE_SECONDS) >= QUERY_CACHE_THRESH
  }

  lemma KeptDecides(slot: Slot<Copy>, log: seq<int>, now: int)
    requires Keeps(slot.rec, log, now) && Begin(slot, Normal, now).1.Miss?
    ensures Begin(slot, Normal, now).1.wantLease <==> OftenAsked(slot, log, now)
  {
    if slot.rec.Some? { HistorySuffices(log, now, now); }
  }

  // ---- what a read leaves in a client's tables ----

  /** A read that goes to the server remembers the record of its key, if there is one. */
  lemma MissRemembersRecord(slot: Slot<Copy>, mode: Mode, now: int)
    ensures var d := Begin(slot, mode, now).1;
            d.Miss? ==> d.ticket == if slot.rec.Some? then Some(slot.rec.value.id) else None
  {
  }

  /** The answer reaches a record: a new one, or the one that was looked up, if it is still there. */
  ghost predicate Reached(s: State, f: Flight) {
    f.ticket.None? || (SlotAt(s, f.site).rec.Some? && SlotAt(s, f.site).rec.value.id == f.ticket.value)
  }

  /** An answer with a lease is cached, and the record it reaches is granted for the lease seconds; one without
      a lease changes neither the cache nor a grant.  Either way the query is the record's last. */
  lemma LandEffect(s: State, id: nat)
    requires Enabled(s, Land(id))
    ensures var f := s.flights[id];
            var slot, slot' := SlotAt(s, f.site), SlotAt(Apply(s, Land(id)), f.site);
            && slot'.cached == (if f.want then f.reply else slot.cached)
            && (if !Reached(s, f) then slot'.rec == slot.rec
                else
                  && slot'.rec.Some? && var rec := slot'.rec.value;
                  && rec.history[|rec.history| - 1] == s.now
                  && (f.want ==> rec.granted && rec.validSeconds == LEASE_SECONDS)
                  && (!f.want ==> rec.granted == (f.ticket.Some? && slot.rec.value.granted))
                  && (f.ticket.Some? ==> rec.id == f.ticket.value)
                  && (f.ticket.None? ==> rec.history == [s.now] && rec.validSeconds == LEASE_SECONDS))
  {
  }

  // ---- what stays in a client's tables ----

  /** The grant has been used within its time: the recycler leaves the record alone. */
  ghost predicate InUse(rec: Record, now: int) {
    rec.granted && rec.history[|rec.history| - 1] + rec.validSeconds >= now
  }

  /** A record leaves the table exactly when the recycler looks at it and it is not in use. */
  lemma RecordLeavesIff(s: State, step: Step, site: Site)
    requires Enabled(s, step) && SlotAt(s, site).rec.Some?
    ensures SlotAt(Apply(s, step), site).rec.None? <==> Recycled(s, step, site)
  {
    StepKinds(s, step);
  }

  ghost predicate Recycled(s: State, step: Step, site: Site) {
    step == RecycleKey(site) && SlotAt(s, site).rec.Some? && !InUse(SlotAt(s, site).rec.value, s.now)
  }

  /** A copy leaves the cache exactly when a callback takes it, or with its record. */
  lemma CopyLeavesIff(s: State, step: Step, site: Site)
    requires Enabled(s, step) && SlotAt(s, site).cached.Some?
    ensures SlotAt(Apply(s, step), site).cached.None? <==> step == Callback(site) || Recycled(s, step, site)
  {
    StepClients(s, step);
    if step.Ask? { AskKeepsCache(s, step, site); }
  }

  /** A callback takes the grant and leaves the rest of the record, with its history, as it was. */
  lemma CallbackKeepsHistory(s: State, site: Site)
    requires Enabled(s, Callback(site))
    ensures var slot, slot' := SlotAt(s, site), SlotAt(Apply(s, Callback(site)), site);
            if slot.cached.None? then slot' == slot
            else slot.rec.Some? && slot' == Slot(Some(slot.rec.value.(granted := false)), None)
  {
  }

  /** In every state of every run a read in normal mode is a hit exactly if the record is in use, and it hands
      out what is cached. */
  lemma HitIff(t: int, steps: seq<Step>, site: Site)
    ensures var s := Exec(t, steps);
            var slot, d := SlotAt(s, site), Begin(SlotAt(s, site), Normal, s.now).1;
            (d.Hit? <==> slot.rec.Some? && InUse(slot.rec.value, s.now)) && (d.Hit? ==> slot.cached == Some(d.copy))
  {
    InvHolds(t, steps);
    assert GrantedIsCached(SlotAt(Exec(t, steps), site));
  }

  /** In every run a record in use is there until its time is over: nothing but a recycler that finds it
      lapsed or without a grant takes it away, and a lease is lost to the callback or to that recycler. */
  lemma RecordInUseStays(t: int, steps: seq<Step>, step: Step, site: Site)
    requires var s := Exec(t, steps);
             Enabled(s, step) && SlotAt(s, site).rec.Some? && InUse(SlotAt(s, site).rec.value, s.now)
    ensures var s' := Exec(t, steps + [step]);
            && SlotAt(s', site).rec.Some?
            && (step != Callback(site) ==> SlotAt(s', site).cached.Some?)
  {
    var s := Exec(t, steps);
    InvHolds(t, steps);
    assert (steps + [step])[..|steps|] == steps;
    assert GrantedIsCached(SlotAt(s, site));
    RecordLeavesIff(s, step, site);
    CopyLeavesIff(s, step, site);
  }

  // ---- what stays on the server's books ----

  /** The server answers a read of the client with a lease. */
  ghost predicate Leases(s: State, step: Step, site: Site) {
    && step.Serve? && Enabled(s, step)
    && s.flights[step.flight].site == site && s.flights[step.flight].want && site.key in s.storage
  }

  ghost predicate CommitsKey(s: State, step: Step, key: Key) {
    step.Commit? && Enabled(s, step) && s.lock.value.key == key
  }

  /** A host comes on the books at the time of an answer with a lease. */
  lemma NewOnBooks(s: State, step: Step, site: Site)
    requires Enabled(s, step) && site.host !in Tenants(s, site.key)
    ensures site.host in Tenants(Apply(s, step), site.key) <==> Leases(s, step, site)
    ensures Leases(s, step, site) ==> Tenants(Apply(s, step), site.key)[site.host] == s.now
  {
    StepKinds(s, step);
  }

  /** It stays there, with that time, until a write of the key commits. */
  lemma StaysOnBooks(s: State, step: Step, site: Site)
    requires Enabled(s, step) && site.host in Tenants(s, site.key)
    ensures site.host in Tenants(Apply(s, step), site.key) <==> !CommitsKey(s, step, site.key)
    ensures !CommitsKey(s, step, site.key) ==> Tenants(Apply(s, step), site.key)[site.host] == Tenants(s, site.key)[site.host]
  {
    StepKinds(s, step);
  }

  /** Step `w` is the first answer with a lease since the key's last commit. */
  ghost predicate FirstLeaseAt(t: int, steps: seq<Step>, w: nat, site: Site) {
    && w < |steps|
    && Leases(Exec(t, steps[..w]), steps[w], site) && site.host !in Tenants(Exec(t, steps[..w]), site.key)
    && forall v: nat {:trigger CommitsAfter(t, steps, v, site.key)} | w < v < |steps| :: !CommitsAfter(t, steps, v, site.key)
  }

  ghost predicate CommitsAfter(t: int, steps: seq<Step>, v: nat, key: Key) {
    v < |steps| && CommitsKey(Exec(t, steps[..v]), steps[v], key)
  }

  lemma FirstLeaseStays(t: int, steps: seq<Step>, w: nat, site: Site)
    requires steps != [] && FirstLeaseAt(t, steps[..|steps| - 1], w, site)
    requires !CommitsKey(Exec(t, steps[..|steps| - 1]), steps[|steps| - 1], site.key)
    ensures FirstLeaseAt(t, steps, w, site) && steps[..|steps| - 1][..w] == steps[..w]
  {
    var init := steps[..|steps| - 1];
    assert init[..w] == steps[..w] && init[w] == steps[w];
    forall v: nat | w < v < |steps| ensures !CommitsAfter(t, steps, v, site.key) {
      if v < |init| {
        assert init[..v] == steps[..v] && init[v] == steps[v];
        assert !CommitsAfter(t, init, v, site.key);
      }
    }
  }

  /** The time on the books is that of the first answer with a lease since the key was last written, however
      many leases the client has been given since. */
  lemma {:induction false} BooksHaveFirstTime(t: int, steps: seq<Step>, site: Site)
    requires site.host in Tenants(Exec(t, steps), site.key)
    ensures exists w: nat | FirstLeaseAt(t, steps, w, site) ::
              Tenants(Exec(t, steps), site.key)[site.host] == Exec(t, steps[..w]).now
  {
    var n := |steps| - 1;
    var init := steps[..n];
    var s := Exec(t, init);
    if site.host in Tenants(s, site.key) {
      if Enabled(s, steps[n]) { StaysOnBooks(s, steps[n], site); }
      BooksHaveFirstTime(t, init, site);
      var w: nat :| FirstLeaseAt(t, init, w, site) && Tenants(s, site.key)[site.host] == Exec(t, init[..w]).now;
      FirstLeaseStays(t, steps, w, site);
    } else {
      if Enabled(s, steps[n]) { NewOnBooks(s, steps[n], site); }
      assert FirstLeaseAt(t, steps, n, site);
    }
  }
}
