/** Reads of two kinds share one cache: `Get` caches the first item of a value, `GetList` all of it, and a
    hit hands out what is cached, whichever kind was asked for. */
module LeaseKinds {
  import opened Ordered
  import opened KeyCodec
  import opened LeaseRpc
  import opened ClientCache
  import opened LeaseProtocol
  import opened LeaseRuns
  import L = ListStore

  /** Every key is read in one way only. */
  ghost predicate OneKind(kinds: Key -> Kind, steps: seq<Step>) {
    forall w | 0 <= w < |steps| && steps[w].Ask? :: steps[w].kind == kinds(steps[w].site.key)
  }

  ghost predicate GoodFlight(kinds: Key -> Kind, f: Flight) {
    f.kind == kinds(f.site.key) && (f.reply.Some? ==> f.reply.value.kind == f.kind)
  }

  ghost predicate GoodCopy(kinds: Key -> Kind, slot: Slot<Copy>, key: Key) {
    slot.cached.Some? ==> slot.cached.value.kind == kinds(key)
  }

  ghost predicate KindInv(kinds: Key -> Kind, s: State) {
    && (forall id | id in s.flights :: GoodFlight(kinds, s.flights[id]))
    && (forall site :: GoodCopy(kinds, SlotAt(s, site), site.key))
  }

  lemma FlightsStep(kinds: Key -> Kind, s: State, step: Step)
    requires KindInv(kinds, s) && Enabled(s, step) && (step.Ask? ==> step.kind == kinds(step.site.key))
    ensures forall id | id in Apply(s, step).flights :: GoodFlight(kinds, Apply(s, step).flights[id])
  {
    StepClients(s, step);
  }

  lemma CopiesStep(kinds: Key -> Kind, s: State, step: Step, site: Site)
    requires KindInv(kinds, s) && Enabled(s, step)
    ensures GoodCopy(kinds, SlotAt(Apply(s, step), site), site.key)
  {
    StepClients(s, step);
    assert GoodCopy(kinds, SlotAt(s, site), site.key);
    if step.Ask? {
      AskKeepsCache(s, step, site);
    } else if step.Land? {
      assert GoodFlight(kinds, s.flights[step.flight]);
    }
  }

  lemma {:induction false} KindRun(kinds: Key -> Kind, t: int, steps: seq<Step>)
    requires OneKind(kinds, steps)
    ensures KindInv(kinds, Exec(t, steps))
  {
    if steps != [] {
      var n := |steps| - 1;
      KindRun(kinds, t, steps[..n]);
      var s := Exec(t, steps[..n]);
      if Enabled(s, steps[n]) {
        FlightsStep(kinds, s, steps[n]);
        forall site ensures GoodCopy(kinds, SlotAt(Exec(t, steps), site), site.key) { CopiesStep(kinds, s, steps[n], site); }
      }
    }
  }

  /** Then a hit has the kind that was asked for, and a current one is what the server would answer. */
  lemma HitHasKindAsked(kinds: Key -> Kind, t: int, steps: seq<Step>, site: Site, kind: Kind, c: Copy)
    requires OneKind(kinds, steps + [Ask(site, kind, Normal)])
    requires Begin(SlotAt(Exec(t, steps), site), Normal, Exec(t, steps).now).1 == Hit(c)
    ensures c.kind == kind
    ensures Backed(Exec(t, steps), site, c) ==> c.value == View(kind, Exec(t, steps).storage[site.key])
  {
    var more := steps + [Ask(site, kind, Normal)];
    assert forall w | 0 <= w < |steps| :: more[w] == steps[w];
    assert more[|steps|] == Ask(site, kind, Normal);
    KindRun(kinds, t, steps);
    assert GoodCopy(kinds, SlotAt(Exec(t, steps), site), site.key);
  }

  /** The application reads users and posts with `Get`, and lists with `GetList`. */
  ghost function KindOfKey(key: Key): Kind {
    if exists a: AppKey :: Format(a) == key && (a.SubList? || a.PostList?) then List else Scalar
  }

  /** No key has two kinds. */
  lemma KeysHaveOneKind(a: AppKey)
    ensures KindOfKey(Format(a)) == if a.SubList? || a.PostList? then List else Scalar
  {
    forall b: AppKey | Format(b) == Format(a) ensures b == a { FormatInjective(a, b); }
  }
}
