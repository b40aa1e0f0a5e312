/** What the modes of a client mean over whole runs. */
module LeaseModes {
  import opened Ordered
  import opened LeaseRpc
  import opened ClientCache
  import opened LeaseProtocol
  import opened LeaseRuns

  /** All reads of the client are in one mode, as they are in the code. */
  ghost predicate InMode(steps: seq<Step>, host: Host, mode: Mode) {
    forall w | 0 <= w < |steps| && steps[w].Ask? && steps[w].site.host == host :: steps[w].mode == mode
  }

  lemma InModePrefix(steps: seq<Step>, host: Host, mode: Mode)
    requires steps != [] && InMode(steps, host, mode)
    ensures InMode(steps[..|steps| - 1], host, mode)
    ensures var last := steps[|steps| - 1]; last.Ask? && last.site.host == host ==> last.mode == mode
  {
  }

  // ---- never ----

  ghost predicate NoLeases(s: State, host: Host) {
    && (forall k :: host !in Tenants(s, k))
    && (forall k :: SlotAt(s, Site(host, k)).cached.None?)
    && (forall id | id in s.flights && s.flights[id].site.host == host :: !s.flights[id].want)
  }

  lemma NeverBooks(s: State, step: Step, host: Host, key: Key)
    requires NoLeases(s, host) && Enabled(s, step)
    ensures host !in Tenants(Apply(s, step), key)
  {
    StepKinds(s, step);
    assert host !in Tenants(s, key);
  }

  lemma NeverCaches(s: State, step: Step, host: Host, key: Key)
    requires NoLeases(s, host) && Enabled(s, step)
    ensures SlotAt(Apply(s, step), Site(host, key)).cached.None?
  {
    StepClients(s, step);
    assert SlotAt(s, Site(host, key)).cached.None?;
    if step.Ask? { AskKeepsCache(s, step, Site(host, key)); }
  }

  lemma NeverWants(s: State, step: Step, host: Host, id: nat)
    requires NoLeases(s, host) && Enabled(s, step)
    requires step.Ask? && step.site.host == host ==> step.mode == Never
    requires id in Apply(s, step).flights && Apply(s, step).flights[id].site.host == host
    ensures !Apply(s, step).flights[id].want
  {
    StepClients(s, step);
  }

  /** A client that never wants leases has none: it is on no ledger, has nothing cached and asks for none. */
  lemma {:induction false} NeverHasNoLeases(t: int, steps: seq<Step>, host: Host)
    requires InMode(steps, host, Never)
    ensures NoLeases(Exec(t, steps), host)
  {
    if steps != [] {
      var init, step := steps[..|steps| - 1], steps[|steps| - 1];
      InModePrefix(steps, host, Never);
      NeverHasNoLeases(t, init, host);
      var s := Exec(t, init);
      if Enabled(s, step) {
        forall k ensures host !in Tenants(Apply(s, step), k) { NeverBooks(s, step, host, k); }
        forall k ensures SlotAt(Apply(s, step), Site(host, k)).cached.None? { NeverCaches(s, step, host, k); }
        forall id | id in Apply(s, step).flights && Apply(s, step).flights[id].site.host == host
          ensures !Apply(s, step).flights[id].want
        {
          NeverWants(s, step, host, id);
        }
      }
    }
  }

  // ---- always ----

  ghost predicate AllWant(s: State, host: Host) {
    forall id | id in s.flights && s.flights[id].site.host == host :: s.flights[id].want
  }

  lemma AlwaysWants(s: State, step: Step, host: Host)
    requires AllWant(s, host) && Enabled(s, step)
    requires step.Ask? && step.site.host == host ==> step.mode == Always
    ensures AllWant(Apply(s, step), host)
  {
    StepClients(s, step);
  }

  lemma {:induction false} AlwaysAsksForLeases(t: int, steps: seq<Step>, host: Host)
    requires InMode(steps, host, Always)
    ensures AllWant(Exec(t, steps), host)
  {
    if steps != [] {
      InModePrefix(steps, host, Always);
      AlwaysAsksForLeases(t, steps[..|steps| - 1], host);
      var s, step := Exec(t, steps[..|steps| - 1]), steps[|steps| - 1];
      if Enabled(s, step) { AlwaysWants(s, step, host); }
    }
  }

  /** A client that always wants leases gets one with every answer: the server notes it. */
  lemma AlwaysIsNoted(t: int, steps: seq<Step>, id: nat)
    requires Enabled(Exec(t, steps), Serve(id))
    requires var f := Exec(t, steps).flights[id]; InMode(steps, f.site.host, Always) && f.site.key in Exec(t, steps).storage
    ensures var f := Exec(t, steps).flights[id]; f.site.host in Tenants(Apply(Exec(t, steps), Serve(id)), f.site.key)
  {
    AlwaysAsksForLeases(t, steps, Exec(t, steps).flights[id].site.host);
  }

  /** And none of its reads is a hit: each one goes to the server. */
  lemma AlwaysGoesToTheServer(t: int, steps: seq<Step>, site: Site, kind: Kind)
    ensures Enabled(Exec(t, steps), Ask(site, kind, Always))
    ensures var s' := Apply(Exec(t, steps), Ask(site, kind, Always));
            && Exec(t, steps).next in s'.flights
            && var f := s'.flights[Exec(t, steps).next]; f.site == site && f.kind == kind && f.want && f.reply.None?
  {
  }

  /** So does one that never wants leases. */
  lemma NeverGoesToTheServer(t: int, steps: seq<Step>, site: Site, kind: Kind)
    ensures Enabled(Exec(t, steps), Ask(site, kind, Never))
    ensures var s' := Apply(Exec(t, steps), Ask(site, kind, Never));
            && Exec(t, steps).next in s'.flights
            && var f := s'.flights[Exec(t, steps).next]; f.site == site && f.kind == kind && !f.want && f.reply.None?
  {
  }
}
