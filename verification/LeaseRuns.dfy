/** What the lease protocol guarantees over whole runs. */
module LeaseRuns {
  import opened Ordered
  import opened LeaseRpc
  import opened ClientCache
  import opened LeaseProtocol
  import L = ListStore

  lemma {:induction false} InvHolds(t: int, steps: seq<Step>)
    ensures Inv(Exec(t, steps))
  {
    if steps == [] {
      InvInit(t);
    } else {
      InvHolds(t, steps[..|steps| - 1]);
      var s, step := Exec(t, steps[..|steps| - 1]), steps[|steps| - 1];
      if Enabled(s, step) { InvStep(s, step); }
    }
  }

  /** Time and write counts never go back. */
  lemma {:induction false} Monotone(t: int, steps: seq<Step>, w: nat, key: Key)
    requires w <= |steps|
    ensures Exec(t, steps[..w]).now <= Exec(t, steps).now
    ensures Epoch(Exec(t, steps[..w]), key) <= Epoch(Exec(t, steps), key)
  {
    if w == |steps| {
      assert steps[..w] == steps;
    } else {
      var init := steps[..|steps| - 1];
      assert init[..w] == steps[..w];
      Monotone(t, init, w, key);
      var s, step := Exec(t, init), steps[|steps| - 1];
      if Enabled(s, step) {
        StepKinds(s, step);
        StepCounts(s, step);
      }
    }
  }

  lemma EscapeStays(t: int, steps: seq<Step>, site: Site, c0: Copy, c: Copy)
    requires steps != [] && SameRead(c0, c) && Escaped(t, steps[..|steps| - 1], site, c0)
    ensures Escaped(t, steps, site, c)
  {
    var init := steps[..|steps| - 1];
    var w: nat :| w < |init| && EscapesAt(t, init, w, site, c0);
    assert init[..w] == steps[..w] && init[w] == steps[w];
    assert EscapesAt(t, steps, w, site, c);
  }

  /** A copy under lease is current, or one of the four causes let a write past it. */
  lemma {:induction false} BackedOrEscaped(t: int, steps: seq<Step>, site: Site, c: Copy)
    requires Held(Exec(t, steps), site, c)
    ensures Backed(Exec(t, steps), site, c) || Escaped(t, steps, site, c)
  {
    if steps != [] {
      var n := |steps| - 1;
      var s, step := Exec(t, steps[..n]), steps[n];
      InvHolds(t, steps[..n]);
      if !Enabled(s, step) {
        BackedOrEscaped(t, steps[..n], site, c);
        if Escaped(t, steps[..n], site, c) { EscapeStays(t, steps, site, c, c); }
      } else {
        Origin(s, step, site, c);
        if Stems(s, site, c) {
          var c0 :| Held(s, site, c0) && SameRead(c0, c) && (c0.crossed ==> c.crossed);
          BackedOrEscaped(t, steps[..n], site, c0);
          if Escaped(t, steps[..n], site, c0) {
            EscapeStays(t, steps, site, c0, c);
          } else {
            BackedStep(s, step, site, c0);
            assert Cause(s, step, site, c0) ==> EscapesAt(t, steps, n, site, c);
          }
        }
      }
    }
  }

  /** An escaped copy is out of date for good: its key has been written since. */
  lemma EscapedIsOutdated(t: int, steps: seq<Step>, site: Site, c: Copy)
    requires Escaped(t, steps, site, c)
    ensures c.epoch < Epoch(Exec(t, steps), site.key)
  {
    var w: nat :| w < |steps| && EscapesAt(t, steps, w, site, c);
    var s := Exec(t, steps[..w]);
    InvHolds(t, steps[..w]);
    assert steps[..w + 1][..w] == steps[..w];
    assert Exec(t, steps[..w + 1]) == Apply(s, steps[w]);
    Monotone(t, steps, w + 1, site.key);
  }

  /** Exactly when a lease fails.  In every state of every run, a copy held under lease is out of date
      if and only if, since it was handed out, a write to its key went past it because its lease had
      run out by the server's clock, because the callback's error went unread, because the callback
      overtook the answer, or because the write was an append to an empty list. */
  lemma OutdatedIffEscaped(t: int, steps: seq<Step>, site: Site, c: Copy)
    requires Held(Exec(t, steps), site, c)
    ensures Backed(Exec(t, steps), site, c) <==> !Escaped(t, steps, site, c)
    ensures c.epoch == Epoch(Exec(t, steps), site.key) <==> !Escaped(t, steps, site, c)
  {
    BackedOrEscaped(t, steps, site, c);
    if Escaped(t, steps, site, c) { EscapedIsOutdated(t, steps, site, c); }
  }

  /** After `w` steps the server would answer a read of the key with this copy's value. */
  ghost predicate AnsweredAt(t: int, steps: seq<Step>, w: nat, site: Site, c: Copy)
    requires w <= |steps|
  {
    var s := Exec(t, steps[..w]);
    site.key in s.storage && c.value == View(c.kind, s.storage[site.key])
  }

  ghost predicate AnsweredOnce(t: int, steps: seq<Step>, site: Site, c: Copy) {
    exists w: nat :: w <= |steps| && AnsweredAt(t, steps, w, site, c)
  }

  /** A copy that is no longer current is still what the server would have answered at some moment: a hit
      reflects the store at one moment of the run, never a mixture. */
  lemma {:induction false} CopyReflectsOneMoment(t: int, steps: seq<Step>, site: Site, c: Copy)
    requires Held(Exec(t, steps), site, c)
    ensures AnsweredOnce(t, steps, site, c)
  {
    var n := |steps| - 1;
    var init := steps[..n];
    if Enabled(Exec(t, init), steps[n]) {
      Origin(Exec(t, init), steps[n], site, c);
      if Stems(Exec(t, init), site, c) {
        var c0 :| Held(Exec(t, init), site, c0) && SameRead(c0, c) && (c0.crossed ==> c.crossed);
        CopyReflectsOneMoment(t, init, site, c0);
        EarlierMoment(t, steps, site, c0, c);
      } else {
        assert steps[..|steps|] == steps;
        assert AnsweredAt(t, steps, |steps|, site, c);
      }
    } else {
      CopyReflectsOneMoment(t, init, site, c);
      EarlierMoment(t, steps, site, c, c);
    }
  }

  lemma EarlierMoment(t: int, steps: seq<Step>, site: Site, c0: Copy, c: Copy)
    requires steps != [] && c0.value == c.value && c0.kind == c.kind
    requires AnsweredOnce(t, steps[..|steps| - 1], site, c0)
    ensures AnsweredOnce(t, steps, site, c)
  {
    var init := steps[..|steps| - 1];
    var w: nat :| w <= |init| && AnsweredAt(t, init, w, site, c0);
    assert init[..w] == steps[..w];
    assert AnsweredAt(t, steps, w, site, c);
  }

  /** A client never reads a granted key that it has not cached, and no ledger entry outlives its key. */
  lemma NoInconsistentCache(t: int, steps: seq<Step>, site: Site, kind: Kind, mode: Mode)
    ensures Enabled(Exec(t, steps), Ask(site, kind, mode))
    ensures forall k | k in Exec(t, steps).ledger :: k in Exec(t, steps).storage
  {
    InvHolds(t, steps);
    var s := Exec(t, steps);
    assert GrantedIsCached(SlotAt(s, site));
  }

  // ---- runs without mishaps ----

  ghost predicate CleanStep(s: State, step: Step) {
    match step
    case QuietWrite(key, _) => key !in s.storage
    case CallFailed => !Enabled(s, step)
    case Callback(site) => forall c :: !InFlight(s, site, c)
    case _ => true
  }

  /** No call fails, no callback overtakes an answer, nothing is appended to an empty list. */
  ghost predicate Clean(t: int, steps: seq<Step>) {
    forall w: nat | w < |steps| :: CleanStep(Exec(t, steps[..w]), steps[w])
  }

  ghost predicate CleanState(s: State) {
    && (s.lock.Some? ==> s.lock.value.lost == {})
    && (forall site, c | Held(s, site, c) :: !c.crossed)
  }

  lemma CleanPrefix(t: int, steps: seq<Step>, n: nat)
    requires Clean(t, steps) && n <= |steps|
    ensures Clean(t, steps[..n])
  {
    forall w: nat | w < n ensures CleanStep(Exec(t, steps[..n][..w]), steps[..n][w]) {
      assert steps[..n][..w] == steps[..w];
      assert CleanStep(Exec(t, steps[..w]), steps[w]);
    }
  }

  lemma CleanStepKeeps(s: State, step: Step)
    requires CleanState(s) && Enabled(s, step) && CleanStep(s, step)
    ensures CleanState(Apply(s, step))
  {
    var s' := Apply(s, step);
    StepKinds(s, step);
    forall site, c | Held(s', site, c) ensures !c.crossed {
      if step.Callback? {
        OriginCallback(s, step, site, c);
        CallbackCrosses(s, step.site, site, c);
      } else {
        NotCallbackKeepsCrossed(s, step, site, c);
      }
    }
  }

  lemma CallbackCrosses(s: State, called: Site, site: Site, c: Copy)
    requires Enabled(s, Callback(called)) && Held(Apply(s, Callback(called)), site, c)
    requires forall c0 :: !InFlight(s, called, c0)
    ensures Held(s, site, c)
  {
    var s' := Apply(s, Callback(called));
    if SlotAt(s', site).cached != Some(c) {
      var id :| id in s'.flights && s'.flights[id].site == site && s'.flights[id].want && s'.flights[id].reply == Some(c);
      assert s'.flights[id] == Cross(s.flights[id], called);
      assert InFlight(s, site, s.flights[id].reply.value);
    }
  }

  lemma NotCallbackKeepsCrossed(s: State, step: Step, site: Site, c: Copy)
    requires Enabled(s, step) && !step.Callback? && Held(Apply(s, step), site, c)
    ensures Held(s, site, c) || !c.crossed
  {
    StepKinds(s, step);
    if step.Ask? {
      AskKeepsCache(s, step, site);
      if InFlight(Apply(s, step), site, c) { AskKeepsFlight(s, step, site, c); }
    } else if step.Serve? {
      ServeIsUncrossed(s, step, site, c);
    } else if ClientStep(step) {
      ClientKeepsHeld(s, step, site, c);
    }
  }

  lemma AskKeepsFlight(s: State, step: Step, site: Site, c: Copy)
    requires step.Ask? && Enabled(s, step) && InFlight(Apply(s, step), site, c)
    ensures InFlight(s, site, c)
  {
    var s' := Apply(s, step);
    var id :| id in s'.flights && s'.flights[id].site == site && s'.flights[id].want && s'.flights[id].reply == Some(c);
    AskKeepsReplies(s, step, id);
  }

  lemma ServeIsUncrossed(s: State, step: Step, site: Site, c: Copy)
    requires step.Serve? && Enabled(s, step) && Held(Apply(s, step), site, c)
    ensures Held(s, site, c) || !c.crossed
  {
  }

  lemma ClientKeepsHeld(s: State, step: Step, site: Site, c: Copy)
    requires Enabled(s, step) && (step.Land? || step.DropReply? || step.RecycleKey?) && Held(Apply(s, step), site, c)
    ensures Held(s, site, c)
  {
    if step.Land? && SlotAt(Apply(s, step), site).cached == Some(c) && SlotAt(s, site).cached != Some(c) {
      assert s.flights[step.flight].site == site;
    }
  }

  lemma {:induction false} CleanRun(t: int, steps: seq<Step>)
    requires Clean(t, steps)
    ensures CleanState(Exec(t, steps))
  {
    if steps != [] {
      var n := |steps| - 1;
      CleanPrefix(t, steps, n);
      CleanRun(t, steps[..n]);
      assert CleanStep(Exec(t, steps[..n]), steps[n]);
      if Enabled(Exec(t, steps[..n]), steps[n]) { CleanStepKeeps(Exec(t, steps[..n]), steps[n]); }
    }
  }

  /** A write that commits to `site.key` at step `w`, no sooner than the lease recorded at `stamp`
      runs out. */
  ghost predicate ExpiredCommitAt(t: int, steps: seq<Step>, w: nat, site: Site, stamp: int)
    requires w < |steps|
  {
    var s := Exec(t, steps[..w]);
    && steps[w].Commit?
    && Enabled(s, steps[w])
    && s.lock.value.key == site.key
    && Expiry(stamp) <= s.now
  }

  /** In a clean run expiry by the server's clock is the only cause of staleness. */
  lemma CleanCause(t: int, steps: seq<Step>, site: Site, c: Copy)
    requires Clean(t, steps) && Escaped(t, steps, site, c)
    ensures exists w: nat | w < |steps| :: ExpiredCommitAt(t, steps, w, site, c.stamp)
    ensures Expiry(c.stamp) <= Exec(t, steps).now
  {
    var w: nat :| w < |steps| && EscapesAt(t, steps, w, site, c);
    assert CleanStep(Exec(t, steps[..w]), steps[w]);
    CleanPrefix(t, steps, w);
    CleanRun(t, steps[..w]);
    assert ExpiredCommitAt(t, steps, w, site, c.stamp);
    Monotone(t, steps, w, site.key);
  }

  /** The lease promise.  In a clean run a copy is what the server holds, at every moment before its
      lease runs out by the time the server noted, in the middle of writes too. */
  lemma CurrentWithinLease(t: int, steps: seq<Step>, site: Site, c: Copy)
    requires Clean(t, steps) && Held(Exec(t, steps), site, c)
    requires Exec(t, steps).now < Expiry(c.stamp)
    ensures Backed(Exec(t, steps), site, c)
  {
    BackedOrEscaped(t, steps, site, c);
    if Escaped(t, steps, site, c) { CleanCause(t, steps, site, c); }
  }

  /** What the guard seconds buy: in a clean run a cache hit is current if the client's last query
      before it came less than `LEASE_GUARD_SECONDS` after the time the server noted. */
  lemma HitWithinGuardIsCurrent(t: int, steps: seq<Step>, site: Site, c: Copy)
    requires Clean(t, steps)
    requires Begin(SlotAt(Exec(t, steps), site), Normal, Exec(t, steps).now).1 == Hit(c)
    requires var h := SlotAt(Exec(t, steps), site).rec.value.history;
             h[|h| - 1] < c.stamp + LEASE_GUARD_SECONDS
    ensures Backed(Exec(t, steps), site, c)
  {
    InvHolds(t, steps);
    CurrentWithinLease(t, steps, site, c);
  }

  // ---- coherence by the ledger, when a read's answer lands at once ----

  ghost predicate CoherentAt(s: State, site: Site) {
    site.host in Tenants(s, site.key) && SlotAt(s, site).cached.Some? ==>
      var c := SlotAt(s, site).cached.value;
      site.key in s.storage && c.value == View(c.kind, s.storage[site.key])
  }

  /** Answers land with no step in between, and nothing is appended to an empty list. */
  ghost predicate AtomicReads(t: int, steps: seq<Step>) {
    && (forall i: nat | i + 1 < |steps| :: steps[i].Serve? ==> steps[i + 1] == Land(steps[i].flight))
    && (forall w: nat | w < |steps| :: steps[w].QuietWrite? ==> steps[w].key !in Exec(t, steps[..w]).storage)
  }

  /** The answer on its way, if any, and what it will overwrite when it lands. */
  ghost predicate Pending(s: State, step: Step, site: Site) {
    && step.Serve?
    && step.flight in s.flights
    && s.flights[step.flight].site == site
    && s.flights[step.flight].want
    && s.flights[step.flight].reply.Some?
  }

  ghost predicate AtomicInv(s: State, last: Step) {
    && (forall id | id in s.flights && s.flights[id].reply.Some? :: last == Serve(id))
    && (forall site :: CoherentAt(s, site) || Pending(s, last, site))
    && (forall site | Pending(s, last, site) :: Backed(s, site, s.flights[last.flight].reply.value))
  }

  lemma AtomicStep(s: State, last: Step, step: Step)
    requires Inv(s) && AtomicInv(s, last) && Enabled(s, step)
    requires last.Serve? ==> step == Land(last.flight)
    requires step.QuietWrite? ==> step.key !in s.storage
    ensures AtomicInv(Apply(s, step), step)
  {
    var s' := Apply(s, step);
    AtomicFlights(s, last, step);
    forall site
      ensures CoherentAt(s', site) || Pending(s', step, site)
      ensures Pending(s', step, site) ==> Backed(s', site, s'.flights[step.flight].reply.value)
    {
      if step.Land? {
        AtomicLand(s, last, step, site);
      } else {
        assert CoherentAt(s, site);
        AtomicOther(s, step, site);
      }
    }
  }

  lemma AtomicFlights(s: State, last: Step, step: Step)
    requires AtomicInv(s, last) && Enabled(s, step)
    requires last.Serve? ==> step == Land(last.flight)
    ensures forall id | id in Apply(s, step).flights && Apply(s, step).flights[id].reply.Some? :: step == Serve(id)
  {
  }

  lemma AtomicOther(s: State, step: Step, site: Site)
    requires Inv(s) && !step.Land? && Enabled(s, step) && CoherentAt(s, site)
    requires step.QuietWrite? ==> step.key !in s.storage
    ensures var s' := Apply(s, step);
            && (CoherentAt(s', site) || Pending(s', step, site))
            && (Pending(s', step, site) ==> Backed(s', site, s'.flights[step.flight].reply.value))
  {
    if WriteStep(step) {
      AtomicWrite(s, step, site);
    } else if step.Serve? {
      AtomicServe(s, step, site);
    } else {
      AtomicQuiet(s, step, site);
    }
  }

  lemma AtomicQuiet(s: State, step: Step, site: Site)
    requires (LockStep(step) || (ClientStep(step) && !step.Land?)) && Enabled(s, step) && CoherentAt(s, site)
    ensures CoherentAt(Apply(s, step), site)
  {
    StepKinds(s, step);
    if ClientStep(step) { ClientDropsOrKeeps(s, step, site); }
  }

  lemma ClientDropsOrKeeps(s: State, step: Step, site: Site)
    requires ClientStep(step) && !step.Land? && Enabled(s, step)
    ensures SlotAt(Apply(s, step), site).cached.None? || SlotAt(Apply(s, step), site).cached == SlotAt(s, site).cached
  {
    if step.Ask? { AskKeepsCache(s, step, site); }
  }

  lemma AtomicLand(s: State, last: Step, step: Step, site: Site)
    requires AtomicInv(s, last) && step.Land? && Enabled(s, step)
    ensures CoherentAt(Apply(s, step), site)
  {
    assert last == Serve(step.flight);
    var s', f := Apply(s, step), s.flights[step.flight];
    if f.site == site && f.want {
      assert SlotAt(s', site).cached == f.reply;
      assert Pending(s, last, site);
    } else {
      assert SlotAt(s', site).cached == SlotAt(s, site).cached;
      assert !Pending(s, last, site) && CoherentAt(s, site);
    }
  }

  lemma AtomicServe(s: State, step: Step, site: Site)
    requires step.Serve? && Enabled(s, step) && CoherentAt(s, site)
    ensures var s' := Apply(s, step);
            && (CoherentAt(s', site) || Pending(s', step, site))
            && (Pending(s', step, site) ==> Backed(s', site, s'.flights[step.flight].reply.value))
  {
  }

  lemma AtomicWrite(s: State, step: Step, site: Site)
    requires Inv(s) && WriteStep(step) && Enabled(s, step) && CoherentAt(s, site)
    requires step.QuietWrite? ==> step.key !in s.storage
    ensures CoherentAt(Apply(s, step), site)
  {
  }

  lemma {:induction false} AtomicRun(t: int, steps: seq<Step>)
    requires AtomicReads(t, steps)
    ensures AtomicInv(Exec(t, steps), if steps == [] then Tick(0) else steps[|steps| - 1])
  {
    if steps != [] {
      var n := |steps| - 1;
      var init := steps[..n];
      forall w: nat | w < n ensures init[..w] == steps[..w] {}
      assert AtomicReads(t, init);
      AtomicRun(t, init);
      InvHolds(t, init);
      var last := if init == [] then Tick(0) else init[n - 1];
      assert init == [] || init[n - 1] == steps[n - 1];
      if Enabled(Exec(t, init), steps[n]) {
        AtomicStep(Exec(t, init), last, steps[n]);
      }
    }
  }

  /** Cache coherence by the server's books.  If every answer lands at once and nothing is appended to
      an empty list, then in every state, in the middle of writes too, whatever a client has cached
      under a lease that the server still records is what the server would answer now. */
  lemma LedgerCoherence(t: int, steps: seq<Step>, site: Site)
    requires AtomicReads(t, steps)
    requires steps == [] || !steps[|steps| - 1].Serve?
    ensures CoherentAt(Exec(t, steps), site)
  {
    AtomicRun(t, steps);
  }

  // ---- how long a write can be held up ----

  /** Time passes during a write only while it waits for an answer, and never past the moment its
      timer fires. */
  ghost predicate PromptServer(t: int, steps: seq<Step>) {
    forall w: nat | w < |steps| && steps[w].Tick? :: PromptTick(Exec(t, steps[..w]), steps[w].seconds)
  }

  ghost predicate PromptTick(s: State, d: nat) {
    s.lock.Some? ==> Waiting(s) && s.lock.value.todo[0] !in s.lock.value.answered && s.now + d <= FirstExpiry(s)
  }

  ghost predicate BlockedBy(s: State) {
    s.lock.Some? ==>
      var w := s.lock.value;
      s.now <= w.start || exists h | h in Tenants(s, w.key) :: s.now <= Expiry(Tenants(s, w.key)[h])
  }

  lemma BlockStep(s: State, step: Step)
    requires LockBooks(s) && BlockedBy(s) && Enabled(s, step) && (step.Tick? ==> PromptTick(s, step.seconds))
    ensures BlockedBy(Apply(s, step))
  {
    StepKinds(s, step);
    if step.Tick? && s.lock.Some? {
      var w := s.lock.value;
      assert w.todo[0] in Tenants(Apply(s, step), w.key);
      assert Apply(s, step).now <= Expiry(Tenants(Apply(s, step), w.key)[w.todo[0]]);
    } else if Apply(s, step).lock.Some? && s.lock.Some? {
      LockStays(s, step);
    }
  }

  /** While the lock is held the books of its key do not change. */
  lemma LockStays(s: State, step: Step)
    requires Enabled(s, step) && s.lock.Some? && Apply(s, step).lock.Some?
    ensures var w, w' := s.lock.value, Apply(s, step).lock.value;
            w'.key == w.key && w'.start == w.start && Tenants(Apply(s, step), w.key) == Tenants(s, w.key)
  {
    StepKinds(s, step);
  }

  /** A write waits no longer than the latest lease on its key, and so no longer than one lease and
      its guard in all, whatever the number of tenants and whichever of them answer. */
  lemma {:induction false} BoundedBlocking(t: int, steps: seq<Step>)
    requires PromptServer(t, steps)
    ensures BlockedBy(Exec(t, steps))
    ensures Exec(t, steps).lock.Some? ==>
              Exec(t, steps).now <= Exec(t, steps).lock.value.start + LEASE_SECONDS + LEASE_GUARD_SECONDS
  {
    InvHolds(t, steps);
    if steps != [] {
      var n := |steps| - 1;
      var init := steps[..n];
      forall w: nat | w < n ensures init[..w] == steps[..w] {}
      BoundedBlocking(t, init);
      InvHolds(t, init);
      assert steps[n].Tick? ==> PromptTick(Exec(t, init), steps[n].seconds);
      if Enabled(Exec(t, init), steps[n]) { BlockStep(Exec(t, init), steps[n]); }
    }
  }

  // ---- a write under way can finish ----

  /** One step more. */
  lemma Go(t: int, steps: seq<Step>, step: Step) returns (more: seq<Step>)
    requires Enabled(Exec(t, steps), step)
    ensures more == steps + [step]
    ensures Exec(t, more) == Apply(Exec(t, steps), step)
    ensures Clean(t, steps) && CleanStep(Exec(t, steps), step) ==> Clean(t, more)
  {
    more := steps + [step];
    var n := |steps|;
    assert more[..n] == steps && more[n] == step;
    if Clean(t, steps) && CleanStep(Exec(t, steps), step) {
      forall w: nat | w < |more| ensures CleanStep(Exec(t, more[..w]), more[w]) {
        if w < n {
          assert more[..w] == steps[..w];
          assert CleanStep(Exec(t, steps[..w]), steps[w]);
        }
      }
    }
  }

  /** What the server and the clock can do alone. */
  predicate ServerStep(step: Step) {
    step.Tick? || step.Skip? || step.Call? || step.Timeout? || step.Commit?
  }

  ghost predicate ServerGoesOn(steps: seq<Step>, more: seq<Step>) {
    && |steps| <= |more| && more[..|steps|] == steps
    && forall i | |steps| <= i < |more| :: ServerStep(more[i])
  }

  /** The latest a write can have to wait: one lease and its guard after it began. */
  function Deadline(s: State): int
    requires s.lock.Some?
  {
    if s.now < Expiry(s.lock.value.start) then Expiry(s.lock.value.start) else s.now
  }

  /** The same write, `n` tenants on; nothing else has changed. */
  ghost predicate TenantsOn(s: State, s': State, n: nat) {
    && s.lock.Some? && n <= |s.lock.value.todo|
    && s' == s.(now := s'.now, lock := s'.lock)
    && s'.lock.Some? && s.now <= s'.now <= Deadline(s)
    && var w, w' := s.lock.value, s'.lock.value;
    && w'.key == w.key && w'.op == w.op && w'.start == w.start && w'.todo == w.todo[n..]
  }

  lemma TenantsAdd(s: State, s1: State, s2: State, n: nat, m: nat)
    requires TenantsOn(s, s1, n) && TenantsOn(s1, s2, m)
    ensures TenantsOn(s, s2, n + m)
  {
  }

  /** The states of a server that waits until the lease of the tenant it has called runs out. */
  lemma WaitStates(s: State) returns (d: nat, s1: State, s2: State)
    requires LockBooks(s) && Waiting(s)
    ensures Enabled(s, Tick(d)) && s1 == Apply(s, Tick(d))
    ensures Enabled(s1, Timeout) && s2 == Apply(s1, Timeout)
    ensures TenantsOn(s, s2, 1)
  {
    assert s.lock.value.todo[0] in Tenants(s, s.lock.value.key);
    d := if s.now < FirstExpiry(s) then FirstExpiry(s) - s.now else 0;
    s1 := s.(now := s.now + d);
    s2 := Apply(s1, Timeout);
  }

  /** Or that has not called it yet. */
  lemma NextStates(s: State) returns (step: Step, s1: State)
    requires s.lock.Some? && s.lock.value.todo != [] && !s.lock.value.calling
    ensures Enabled(s, step) && ServerStep(step) && s1 == Apply(s, step)
    ensures TenantsOn(s, s1, 1) || (TenantsOn(s, s1, 0) && Waiting(s1))
  {
    step := if FirstExpiry(s) < s.now then Skip else Call;
    s1 := Apply(s, step);
  }

  lemma ServerGoes(t: int, steps: seq<Step>, more: seq<Step>, step: Step, s1: State) returns (more1: seq<Step>)
    requires ServerGoesOn(steps, more) && ServerStep(step) && Enabled(Exec(t, more), step) && s1 == Apply(Exec(t, more), step)
    ensures ServerGoesOn(steps, more1) && Exec(t, more1) == s1
  {
    more1 := Go(t, more, step);
  }

  lemma WaitOut(t: int, steps: seq<Step>) returns (more: seq<Step>)
    requires Waiting(Exec(t, steps))
    ensures ServerGoesOn(steps, more) && TenantsOn(Exec(t, steps), Exec(t, more), 1)
  {
    InvHolds(t, steps);
    var d, s1, s2 := WaitStates(Exec(t, steps));
    var waited := ServerGoes(t, steps, steps, Tick(d), s1);
    more := ServerGoes(t, steps, waited, Timeout, s2);
  }

  lemma ServerGoesFurther(steps: seq<Step>, more: seq<Step>, most: seq<Step>)
    requires ServerGoesOn(steps, more) && ServerGoesOn(more, most)
    ensures ServerGoesOn(steps, most)
  {
    assert most[..|steps|] == more[..|steps|];
    forall i | |steps| <= i < |most| ensures ServerStep(most[i]) {
      if i < |more| { assert most[i] == most[..|more|][i]; }
    }
  }

  lemma NextDone(t: int, steps: seq<Step>) returns (more: seq<Step>)
    requires Exec(t, steps).lock.Some? && Exec(t, steps).lock.value.todo != []
    ensures ServerGoesOn(steps, more) && TenantsOn(Exec(t, steps), Exec(t, more), 1)
  {
    if Exec(t, steps).lock.value.calling {
      more := WaitOut(t, steps);
    } else {
      var step, s1 := NextStates(Exec(t, steps));
      var called := ServerGoes(t, steps, steps, step, s1);
      if TenantsOn(Exec(t, steps), s1, 1) {
        more := called;
      } else {
        more := WaitOut(t, called);
        ServerGoesFurther(steps, called, more);
        TenantsAdd(Exec(t, steps), s1, Exec(t, more), 0, 1);
      }
    }
  }

  lemma AllDone(t: int, steps: seq<Step>) returns (more: seq<Step>)
    requires Exec(t, steps).lock.Some?
    ensures ServerGoesOn(steps, more)
    ensures TenantsOn(Exec(t, steps), Exec(t, more), |Exec(t, steps).lock.value.todo|)
    decreases |Exec(t, steps).lock.value.todo|
  {
    var n := |Exec(t, steps).lock.value.todo|;
    if n == 0 {
      more := steps;
    } else {
      var next := NextDone(t, steps);
      more := AllDone(t, next);
      ServerGoesFurther(steps, next, more);
      TenantsAdd(Exec(t, steps), Exec(t, next), Exec(t, more), 1, n - 1);
    }
  }

  /** `more` ends the write that is under way after `steps`: its change is made, its key has no leases
      left, and no client has moved. */
  ghost predicate Finishes(t: int, steps: seq<Step>, more: seq<Step>) {
    var s, s' := Exec(t, steps), Exec(t, more);
    && s.lock.Some? && ServerGoesOn(steps, more)
    && s'.lock.None? && s'.now <= Deadline(s)
    && s'.storage == L.Apply(s.storage, s.lock.value.key, s.lock.value.op)
    && s'.ledger == s.ledger - {s.lock.value.key}
    && s'.slots == s.slots && s'.flights == s.flights
  }

  /** From every moment of every run, a write under way can be finished by the server alone, within
      one lease and its guard of its beginning, or at once if that has passed. */
  lemma WriteCanFinish(t: int, steps: seq<Step>)
    requires Exec(t, steps).lock.Some?
    ensures exists more :: Finishes(t, steps, more)
  {
    var done := AllDone(t, steps);
    var more := Go(t, done, Commit);
    assert Finishes(t, steps, more);
  }

  // ---- the client's record of a cached key ----

  /** No answer lands under a record that has been recycled in the meantime. */
  ghost predicate NoOrphans(t: int, steps: seq<Step>) {
    forall w: nat | w < |steps| && steps[w].Land? :: LandsOnRecord(Exec(t, steps[..w]), steps[w].flight)
  }

  ghost predicate LandsOnRecord(s: State, id: nat) {
    Enabled(s, Land(id)) ==> var f := s.flights[id]; !(f.want && f.ticket.Some? && SlotAt(s, f.site).rec.None?)
  }

  /** Then a cached key always has a record, and the callback's lookup of it succeeds. */
  lemma {:induction false} CallbackFindsRecord(t: int, steps: seq<Step>, site: Site)
    requires NoOrphans(t, steps)
    ensures CachedHasRecord(SlotAt(Exec(t, steps), site))
    ensures Enabled(Exec(t, steps), Callback(site))
  {
    if steps != [] {
      var n := |steps| - 1;
      var init := steps[..n];
      forall w: nat | w < n ensures init[..w] == steps[..w] {}
      CallbackFindsRecord(t, init, site);
      assert steps[n].Land? ==> LandsOnRecord(Exec(t, init), steps[n].flight);
      if Enabled(Exec(t, init), steps[n]) { StepKinds(Exec(t, init), steps[n]); }
    }
  }

  /** An answer that lands under a recycled record leaves the key cached without one. */
  lemma OrphanBreaksCallback(s: State, id: nat)
    requires Enabled(s, Land(id)) && !LandsOnRecord(s, id)
    ensures !Enabled(Apply(s, Land(id)), Callback(s.flights[id].site))
  {
  }

  ghost predicate CallbackSafe(t: int, steps: seq<Step>, w: nat, site: Site)
    requires w <= |steps|
  {
    Enabled(Exec(t, steps[..w]), Callback(site))
  }

  /** No callback can ever dereference nil, exactly when no answer lands under a recycled record. */
  lemma CallbacksSafeIffNoOrphans(t: int, steps: seq<Step>)
    ensures NoOrphans(t, steps) <==> forall w: nat, site | w <= |steps| :: CallbackSafe(t, steps, w, site)
  {
    if NoOrphans(t, steps) {
      forall w: nat, site | w <= |steps| ensures CallbackSafe(t, steps, w, site) {
        forall v: nat | v < w ensures steps[..w][..v] == steps[..v] {}
        assert NoOrphans(t, steps[..w]);
        CallbackFindsRecord(t, steps[..w], site);
      }
    } else {
      var w: nat :| w < |steps| && steps[w].Land? && !LandsOnRecord(Exec(t, steps[..w]), steps[w].flight);
      var s := Exec(t, steps[..w]);
      OrphanBreaksCallback(s, steps[w].flight);
      assert steps[..w + 1][..w] == steps[..w];
      assert !CallbackSafe(t, steps, w + 1, s.flights[steps[w].flight].site);
    }
  }
}
