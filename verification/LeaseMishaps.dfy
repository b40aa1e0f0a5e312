/** Each cause of a stale lease occurs: one run of the protocol for each, for every client and key.

    All runs use a client in normal mode, which asks for a lease with its fourth query. */
module LeaseMishaps {
  import opened Ordered
  import opened LeaseRpc
  import opened ClientCache
  import opened LeaseProtocol
  import opened LeaseRuns
  import L = ListStore

  /** The client's next read of the key is a cache hit that differs from what is stored. */
  ghost predicate StaleHit(t: int, steps: seq<Step>, site: Site) {
    var s := Exec(t, steps);
    var d := Begin(SlotAt(s, site), Normal, s.now).1;
    d.Hit? && site.key in s.storage && d.copy.value != View(d.copy.kind, s.storage[site.key])
  }

  /** Every stale hit has one of the four causes. */
  lemma StaleHitHasCause(t: int, steps: seq<Step>, site: Site)
    requires StaleHit(t, steps, site)
    ensures SlotAt(Exec(t, steps), site).cached.Some?
    ensures Escaped(t, steps, site, SlotAt(Exec(t, steps), site).cached.value)
  {
    BackedOrEscaped(t, steps, site, SlotAt(Exec(t, steps), site).cached.value);
  }

  lemma Go2(t: int, steps: seq<Step>, a: Step, b: Step, s1: State, s2: State) returns (more: seq<Step>)
    requires Enabled(Exec(t, steps), a) && s1 == Apply(Exec(t, steps), a)
    requires Enabled(s1, b) && s2 == Apply(s1, b)
    ensures more == steps + [a] + [b] && Exec(t, more) == s2
    ensures Clean(t, steps) && Tame(a) && Tame(b) ==> Clean(t, more)
  {
    var one := Go(t, steps, a);
    more := Go(t, one, b);
  }

  lemma Go3(t: int, steps: seq<Step>, a: Step, b: Step, c: Step, s1: State, s2: State, s3: State) returns (more: seq<Step>)
    requires Enabled(Exec(t, steps), a) && s1 == Apply(Exec(t, steps), a)
    requires Enabled(s1, b) && s2 == Apply(s1, b)
    requires Enabled(s2, c) && s3 == Apply(s2, c)
    ensures Exec(t, more) == s3
    ensures Clean(t, steps) && Tame(a) && Tame(b) && Tame(c) ==> Clean(t, more)
  {
    var one := Go(t, steps, a);
    var two := Go(t, one, b);
    more := Go(t, two, c);
  }

  /** A step that is never a mishap. */
  predicate Tame(step: Step) {
    step.Tick? || step.Ask? || step.Serve? || step.Land? || step.Call? || step.Timeout? || step.Commit? || step.BeginWrite?
  }

  /** No lock held, no read under way. */
  ghost predicate Idle(s: State) {
    s.lock.None? && s.flights == map[]
  }

  lemma AskMisses(s: State, site: Site, kind: Kind)
    requires Idle(s) && Begin(SlotAt(s, site), Normal, s.now).1.Miss?
    ensures Enabled(s, Ask(site, kind, Normal))
    ensures var (slot, d) := Begin(SlotAt(s, site), Normal, s.now);
            Apply(s, Ask(site, kind, Normal))
              == s.(slots := s.slots[site := slot],
                    flights := map[s.next := Flight(site, kind, d.wantLease, d.ticket, None)],
                    next := s.next + 1)
  {
  }

  function Stamp(s: State, site: Site): int {
    if site.host in Tenants(s, site.key) then Tenants(s, site.key)[site.host] else s.now
  }

  function Books(s: State, site: Site, want: bool): map<Key, map<Host, int>> {
    if want then s.ledger[site.key := Tenants(s, site.key)[site.host := Stamp(s, site)]] else s.ledger
  }

  lemma ServeAnswers(s: State, id: nat, f: Flight)
    requires s.lock.None? && s.flights == map[id := f] && f.reply.None? && f.site.key in s.storage
    ensures Enabled(s, Serve(id))
    ensures var copy := Copy(View(f.kind, s.storage[f.site.key]), f.kind, s.next, Stamp(s, f.site), Epoch(s, f.site.key), false);
            Apply(s, Serve(id))
              == s.(ledger := Books(s, f.site, f.want), flights := map[id := f.(reply := Some(copy))], next := s.next + 1)
  {
    var t := Tenants(s, f.site.key);
    if f.site.host in t { assert t[f.site.host := t[f.site.host]] == t; }
  }

  lemma LandFinishes(s: State, id: nat, f: Flight)
    requires s.flights == map[id := f] && f.reply.Some?
    ensures Enabled(s, Land(id))
    ensures Apply(s, Land(id))
              == s.(slots := s.slots[f.site := Finish(SlotAt(s, f.site), f.ticket, s.next, f.want, f.reply.value, s.now)],
                    flights := map[], next := s.next + 1)
  {
  }

  /** The copy handed out by a read begun in state `s`. */
  function ReadCopy(s: State, site: Site, kind: Kind): Copy
    requires site.key in s.storage
  {
    Copy(View(kind, s.storage[site.key]), kind, s.next + 1, Stamp(s, site), Epoch(s, site.key), false)
  }

  /** The state after a whole read that misses the cache. */
  ghost predicate AfterRead(s: State, s': State, site: Site, kind: Kind)
    requires site.key in s.storage && Begin(SlotAt(s, site), Normal, s.now).1.Miss?
  {
    var (slot, d) := Begin(SlotAt(s, site), Normal, s.now);
    && Idle(s')
    && s'.now == s.now && s'.storage == s.storage && s'.epochs == s.epochs
    && s'.ledger == Books(s, site, d.wantLease)
    && SlotAt(s', site) == Finish(slot, d.ticket, s.next + 2, d.wantLease, ReadCopy(s, site, kind), s.now)
  }

  lemma ReadStates(s: State, site: Site, kind: Kind) returns (s1: State, s2: State, s3: State)
    requires Idle(s) && site.key in s.storage && Begin(SlotAt(s, site), Normal, s.now).1.Miss?
    ensures Enabled(s, Ask(site, kind, Normal)) && s1 == Apply(s, Ask(site, kind, Normal))
    ensures Enabled(s1, Serve(s.next)) && s2 == Apply(s1, Serve(s.next))
    ensures Enabled(s2, Land(s.next)) && s3 == Apply(s2, Land(s.next))
    ensures AfterRead(s, s3, site, kind)
  {
    var (slot, d) := Begin(SlotAt(s, site), Normal, s.now);
    var f := Flight(site, kind, d.wantLease, d.ticket, None);
    AskMisses(s, site, kind);
    s1 := Apply(s, Ask(site, kind, Normal));
    ServeAnswers(s1, s.next, f);
    s2 := Apply(s1, Serve(s.next));
    assert Stamp(s1, site) == Stamp(s, site) && Books(s1, site, f.want) == Books(s, site, f.want);
    LandFinishes(s2, s.next, f.(reply := Some(ReadCopy(s, site, kind))));
    s3 := Apply(s2, Land(s.next));
    assert SlotAt(s2, site) == slot;
  }

  lemma Read(t: int, steps: seq<Step>, site: Site, kind: Kind) returns (more: seq<Step>)
    requires Idle(Exec(t, steps)) && site.key in Exec(t, steps).storage
    requires Begin(SlotAt(Exec(t, steps), site), Normal, Exec(t, steps).now).1.Miss?
    ensures AfterRead(Exec(t, steps), Exec(t, more), site, kind)
    ensures Clean(t, steps) ==> Clean(t, more)
  {
    var id := Exec(t, steps).next;
    var s1, s2, s3 := ReadStates(Exec(t, steps), site, kind);
    more := Go3(t, steps, Ask(site, kind, Normal), Serve(id), Land(id), s1, s2, s3);
  }

  /** The client holds the key's value under a lease it was just granted. */
  ghost predicate Leased(s: State, site: Site, kind: Kind) {
    && Idle(s)
    && site.key in s.storage
    && Tenants(s, site.key) == map[site.host := s.now]
    && var slot := SlotAt(s, site);
    && slot.rec.Some? && slot.rec.value.granted
    && slot.rec.value.validSeconds == LEASE_SECONDS && slot.rec.value.history == [s.now, s.now, s.now]
    && slot.cached.Some?
    && slot.cached.value.value == View(kind, s.storage[site.key]) && slot.cached.value.kind == kind
    && slot.cached.value.stamp == s.now
  }

  /** Three queries in one second, none of them leased; the fourth will be. */
  ghost predicate Warm(s: State, site: Site) {
    Warming(s, site, [s.now, s.now, s.now])
  }

  /** The client has made the queries `h`, all in this second and without a lease. */
  ghost predicate Warming(s: State, site: Site, h: seq<int>) {
    && Idle(s)
    && site.key in s.storage
    && Tenants(s, site.key) == map[]
    && var slot := SlotAt(s, site);
    && slot.rec.Some? && !slot.rec.value.granted && slot.cached.None?
    && slot.rec.value.validSeconds == LEASE_SECONDS && slot.rec.value.history == h
  }

  lemma FirstQuery(t: int, steps: seq<Step>, site: Site, kind: Kind) returns (more: seq<Step>)
    requires Idle(Exec(t, steps)) && site.key in Exec(t, steps).storage
    requires SlotAt(Exec(t, steps), site) == Slot(None, None) && Tenants(Exec(t, steps), site.key) == map[]
    ensures var s, s' := Exec(t, steps), Exec(t, more);
            Warming(s', site, [s.now]) && s'.storage == s.storage && s'.now == s.now
    ensures Clean(t, steps) ==> Clean(t, more)
  {
    more := Read(t, steps, site, kind);
  }

  lemma NextQuery(t: int, steps: seq<Step>, site: Site, kind: Kind, h: seq<int>) returns (more: seq<Step>)
    requires Warming(Exec(t, steps), site, h) && 1 <= |h| <= 2 && h[|h| - 1] == Exec(t, steps).now
    ensures var s, s' := Exec(t, steps), Exec(t, more);
            Warming(s', site, h + [s.now]) && s'.storage == s.storage && s'.now == s.now
    ensures Clean(t, steps) ==> Clean(t, more)
  {
    more := Read(t, steps, site, kind);
  }

  lemma WarmUp(t: int, steps: seq<Step>, site: Site, kind: Kind) returns (more: seq<Step>)
    requires Idle(Exec(t, steps)) && site.key in Exec(t, steps).storage
    requires SlotAt(Exec(t, steps), site) == Slot(None, None) && Tenants(Exec(t, steps), site.key) == map[]
    ensures Warm(Exec(t, more), site) && Exec(t, more).storage == Exec(t, steps).storage && Exec(t, more).now == Exec(t, steps).now
    ensures Clean(t, steps) ==> Clean(t, more)
  {
    var now := Exec(t, steps).now;
    var one := FirstQuery(t, steps, site, kind);
    var two := NextQuery(t, one, site, kind, [now]);
    more := NextQuery(t, two, site, kind, [now, now]);
  }

  lemma TakeLease(t: int, steps: seq<Step>, site: Site, kind: Kind) returns (more: seq<Step>)
    requires Warm(Exec(t, steps), site)
    ensures Leased(Exec(t, more), site, kind)
    ensures Exec(t, more).storage == Exec(t, steps).storage && Exec(t, more).now == Exec(t, steps).now
    ensures Clean(t, steps) ==> Clean(t, more)
  {
    more := Read(t, steps, site, kind);
  }

  /** One stored string, nobody reading it yet. */
  ghost predicate Stored(s: State, site: Site, v: string) {
    Idle(s) && s.storage == map[site.key := [v]] && s.ledger == map[] && s.slots == map[] && s.now == 0
  }

  lemma PutStates(site: Site, v: string)
    ensures var begin := BeginWrite(site.key, L.Put(v), []);
            && Enabled(Init(0), begin)
            && Enabled(Apply(Init(0), begin), Commit)
            && Stored(Apply(Apply(Init(0), begin), Commit), site, v)
  {
  }

  lemma PutFirst(site: Site, v: string) returns (steps: seq<Step>)
    ensures Stored(Exec(0, steps), site, v) && Clean(0, steps)
  {
    PutStates(site, v);
    assert Exec(0, []) == Init(0) && Clean(0, []);
    var begun := Go(0, [], BeginWrite(site.key, L.Put(v), []));
    steps := Go(0, begun, Commit);
  }

  /** A put begins and calls its one tenant. */
  lemma CallStates(s: State, site: Site, w: string) returns (s1: State, s2: State)
    requires s.lock.None? && Tenants(s, site.key).Keys == {site.host}
    requires s.now <= Expiry(Tenants(s, site.key)[site.host])
    ensures var begin := BeginWrite(site.key, L.Put(w), [site.host]);
            Enabled(s, begin) && s1 == Apply(s, begin)
    ensures Enabled(s1, Call) && s2 == Apply(s1, Call)
    ensures s2 == s.(lock := Some(WriteLock(site.key, L.Put(w), s.now, [site.host], true, {}, {})))
  {
    assert Elems([site.host]) == {site.host};
    assert L.Plan(L.Lookup(s.storage, site.key), L.Put(w)) == L.Replace(true, Some([w]));
    s1 := s.(lock := Some(WriteLock(site.key, L.Put(w), s.now, [site.host], false, {}, {})));
    s2 := s1.(lock := Some(s1.lock.value.(calling := true)));
  }

  /** It goes on after `end`, and commits. */
  lemma EndStates(s: State, site: Site, w: string, end: Step) returns (s1: State, s2: State)
    requires site.host in Tenants(s, site.key)
    requires s.lock == Some(WriteLock(site.key, L.Put(w), s.now, [site.host], true, {}, {}))
    requires end == CallFailed || (end == Timeout && s.now == Expiry(Tenants(s, site.key)[site.host]))
    ensures Enabled(s, end) && s1 == Apply(s, end)
    ensures Enabled(s1, Commit) && s2 == Apply(s1, Commit)
    ensures s2.now == s.now && s2.slots == s.slots && s2.storage == s.storage[site.key := [w]]
    ensures s2.lock.None? && s2.flights == s.flights
  {
    assert L.Plan(L.Lookup(s.storage, site.key), L.Put(w)) == L.Replace(true, Some([w]));
    s1 := Apply(s, end);
    s2 := Apply(s1, Commit);
  }

  lemma Write(t: int, steps: seq<Step>, site: Site, w: string, end: Step) returns (more: seq<Step>)
    requires Idle(Exec(t, steps)) && Tenants(Exec(t, steps), site.key).Keys == {site.host}
    requires Exec(t, steps).now <= Expiry(Tenants(Exec(t, steps), site.key)[site.host])
    requires end == CallFailed || (end == Timeout && Exec(t, steps).now == Expiry(Tenants(Exec(t, steps), site.key)[site.host]))
    ensures var s, s' := Exec(t, steps), Exec(t, more);
            s'.now == s.now && s'.storage == s.storage[site.key := [w]] && s'.slots == s.slots && Idle(s')
    ensures Clean(t, steps) && end == Timeout ==> Clean(t, more)
    ensures |more| > 0 && CommitsAt(t, more, |more| - 1, site.key)
  {
    var s1, s2 := CallStates(Exec(t, steps), site, w);
    var s3, s4 := EndStates(s2, site, w, end);
    var more1 := Go(t, steps, BeginWrite(site.key, L.Put(w), [site.host]));
    var more2 := Go(t, more1, Call);
    var more3 := Go(t, more2, end);
    more := Go(t, more3, Commit);
  }

  /** The client's last query of the key. */
  ghost function LastQuery(s: State, site: Site): int {
    var rec := SlotAt(s, site).rec;
    if rec.Some? then rec.value.history[|rec.value.history| - 1] else s.now
  }

  /** The next read of a client is a hit of `c`. */
  ghost predicate HitNext(s: State, site: Site, c: Copy) {
    Begin(SlotAt(s, site), Normal, s.now).1 == Hit(c)
  }

  /** A hit notes the query, so it renews the lease in the client's own table. */
  lemma HitStates(s: State, site: Site, kind: Kind, c: Copy, d: nat) returns (s1: State, s2: State)
    requires Idle(s) && SlotInv(s) && HitNext(s, site, c) && d <= LEASE_SECONDS
    ensures Enabled(s, Ask(site, kind, Normal)) && s1 == Apply(s, Ask(site, kind, Normal)) && s2 == Apply(s1, Tick(d))
    ensures Idle(s2) && s2.storage == s.storage && s2.ledger == s.ledger && s2.epochs == s.epochs && s2.now == s.now + d
    ensures HitNext(s2, site, c) && LastQuery(s2, site) == s.now
  {
    s1 := Apply(s, Ask(site, kind, Normal));
    s2 := Apply(s1, Tick(d));
  }

  /** A hit, and then `d` seconds of sleep. */
  lemma HitAndSleep(steps: seq<Step>, site: Site, c: Copy, d: nat) returns (more: seq<Step>)
    requires Idle(Exec(0, steps)) && HitNext(Exec(0, steps), site, c) && d <= LEASE_SECONDS
    ensures var s, s' := Exec(0, steps), Exec(0, more);
            && Idle(s') && s'.storage == s.storage && s'.ledger == s.ledger && s'.now == s.now + d
            && HitNext(s', site, c) && LastQuery(s', site) == s.now
    ensures Clean(0, steps) ==> Clean(0, more)
    ensures more == steps + [Ask(site, c.kind, Normal)] + [Tick(d)]
  {
    InvHolds(0, steps);
    var s1, s2 := HitStates(Exec(0, steps), site, c.kind, c, d);
    more := Go2(0, steps, Ask(site, c.kind, Normal), Tick(d), s1, s2);
  }

  /** Step `w` commits a write to `key`. */
  ghost predicate CommitsAt(t: int, steps: seq<Step>, w: nat, key: Key) {
    w < |steps| && steps[w].Commit? && Enabled(Exec(t, steps[..w]), Commit) && Exec(t, steps[..w]).lock.value.key == key
  }

  /** Without any mishap, a client hits a stale copy `n` seconds after the write that outdated it. */
  ghost predicate StaleAfter(steps: seq<Step>, w: nat, site: Site, n: nat) {
    && Clean(0, steps) && StaleHit(0, steps, site)
    && CommitsAt(0, steps, w, site.key) && Exec(0, steps).now == Exec(0, steps[..w]).now + n
  }

  /** A lease taken at time 0, in use at the client, has just run out at the server. */
  ghost predicate InUse(s: State, site: Site, v: string, c: Copy) {
    && Idle(s) && s.now == Expiry(0)
    && s.storage == map[site.key := [v]] && Tenants(s, site.key) == map[site.host := 0]
    && HitNext(s, site, c) && c.stamp == 0 && c.kind == Scalar && c.value == [v]
  }

  /** The client uses it at the end of the guard seconds and again `d` seconds after it was taken. */
  lemma TakeAndUse(site: Site, v: string, d: nat) returns (used: seq<Step>, c: Copy)
    requires LEASE_GUARD_SECONDS <= d <= Expiry(0)
    ensures InUse(Exec(0, used), site, v, c) && LastQuery(Exec(0, used), site) == d && Clean(0, used)
  {
    var put := PutFirst(site, v);
    var warm := WarmUp(0, put, site, Scalar);
    var leased := TakeLease(0, warm, site, Scalar);
    c := SlotAt(Exec(0, leased), site).cached.value;
    used := Use(leased, site, c, d);
  }

  /** Then the server writes. */
  lemma FirstStaleHit(site: Site, v: string, w: string, d: nat) returns (steps: seq<Step>, c: Copy)
    requires v != w && LEASE_GUARD_SECONDS <= d <= Expiry(0)
    ensures |steps| > 0 && StaleAfter(steps, |steps| - 1, site, 0) && Exec(0, steps).now == Expiry(0)
    ensures Idle(Exec(0, steps)) && HitNext(Exec(0, steps), site, c) && c.stamp == 0 && LastQuery(Exec(0, steps), site) == d
  {
    var used;
    used, c := TakeAndUse(site, v, d);
    steps := Write(0, used, site, w, Timeout);
    CommitKeepsTime(steps);
    SameSlotSameHit(Exec(0, used), Exec(0, steps), site, c);
  }

  lemma SameSlotSameHit(s: State, s': State, site: Site, c: Copy)
    requires s'.now == s.now && s'.slots == s.slots && HitNext(s, site, c)
    ensures HitNext(s', site, c) && LastQuery(s', site) == LastQuery(s, site)
  {
  }

  lemma Use(leased: seq<Step>, site: Site, c: Copy, d: nat) returns (used: seq<Step>)
    requires Leased(Exec(0, leased), site, Scalar) && Exec(0, leased).now == 0 && Clean(0, leased)
    requires SlotAt(Exec(0, leased), site).cached == Some(c) && LEASE_GUARD_SECONDS <= d <= Expiry(0)
    ensures var s, s' := Exec(0, leased), Exec(0, used);
            && Idle(s') && s'.storage == s.storage && s'.ledger == s.ledger && s'.now == Expiry(0)
            && HitNext(s', site, c) && LastQuery(s', site) == d
    ensures Clean(0, used)
  {
    var waited := Go(0, leased, Tick(LEASE_GUARD_SECONDS));
    var once := HitAndSleep(waited, site, c, d - LEASE_GUARD_SECONDS);
    used := HitAndSleep(once, site, c, Expiry(0) - d);
  }

  lemma CommitKeepsTime(steps: seq<Step>)
    requires |steps| > 0 && steps[|steps| - 1].Commit?
    ensures Exec(0, steps).now == Exec(0, steps[..|steps| - 1]).now
  {
  }

  lemma CommitStays(steps: seq<Step>, more: seq<Step>, w: nat, key: Key)
    requires CommitsAt(0, steps, w, key) && |steps| <= |more| && more[..|steps|] == steps
    ensures CommitsAt(0, more, w, key) && Exec(0, more[..w]) == Exec(0, steps[..w])
  {
    assert more[..w] == steps[..w] && more[w] == steps[w];
  }

  lemma OneSecondMore(steps: seq<Step>, w: nat, site: Site, n: nat, c: Copy) returns (more: seq<Step>)
    requires StaleAfter(steps, w, site, n) && Idle(Exec(0, steps)) && HitNext(Exec(0, steps), site, c)
    ensures StaleAfter(more, w, site, n + 1) && Idle(Exec(0, more)) && HitNext(Exec(0, more), site, c)
    ensures LastQuery(Exec(0, more), site) == Exec(0, steps).now && Exec(0, more).now == Exec(0, steps).now + 1
  {
    more := HitAndSleep(steps, site, c, 1);
    CommitStays(steps, more, w, site.key);
  }

  lemma {:induction false} KeepsHitting(steps: seq<Step>, w: nat, site: Site, n: nat, c: Copy) returns (more: seq<Step>)
    requires StaleAfter(steps, w, site, 0) && Idle(Exec(0, steps)) && HitNext(Exec(0, steps), site, c)
    ensures StaleAfter(more, w, site, n) && Idle(Exec(0, more)) && HitNext(Exec(0, more), site, c)
    ensures Exec(0, more).now == Exec(0, steps).now + n
    ensures n > 0 ==> LastQuery(Exec(0, more), site) == Exec(0, steps).now + n - 1
  {
    if n == 0 {
      more := steps;
    } else {
      var before := KeepsHitting(steps, w, site, n - 1, c);
      more := OneSecondMore(before, w, site, n - 1, c);
    }
  }

  /** The client that keeps asking keeps its lease by its own clock, but the server goes by the first
      time it noted, and calls it no more: a hit just after the guard seconds is enough for stale hits
      as long after the write as one likes, in a run without any mishap. */
  lemma ClientExtendsItsLease(site: Site, v: string, w: string, n: nat)
    requires v != w
    ensures exists steps, i :: StaleAfter(steps, i, site, n)
  {
    var first, c := FirstStaleHit(site, v, w, LEASE_GUARD_SECONDS);
    var steps := KeepsHitting(first, |first| - 1, site, n, c);
  }

  // ---- how long a hit can be trusted ----

  /** In a run without mishaps the client's next read is a hit of `c`, and its last query before that came
      `d` seconds after the time the server noted for the lease. */
  ghost predicate HitAfter(t: int, steps: seq<Step>, site: Site, c: Copy, d: int) {
    && Clean(t, steps) && HitNext(Exec(t, steps), site, c)
    && LastQuery(Exec(t, steps), site) == c.stamp + d
  }

  /** For every `d` from the guard seconds on there is such a hit that is not current. */
  lemma LateHit(site: Site, v: string, w: string, d: nat) returns (steps: seq<Step>, c: Copy)
    requires v != w && LEASE_GUARD_SECONDS <= d
    ensures HitAfter(0, steps, site, c, d) && !Backed(Exec(0, steps), site, c)
  {
    if d <= Expiry(0) {
      steps, c := FirstStaleHit(site, v, w, d);
    } else {
      var first;
      first, c := FirstStaleHit(site, v, w, Expiry(0));
      steps := KeepsHitting(first, |first| - 1, site, d - Expiry(0) + 1, c);
    }
  }

  /** A hit can be trusted exactly up to the guard seconds: whether all hits of all runs without mishaps
      whose last query came `d` seconds after the noted time are current depends on `d` alone. */
  lemma HitIsCurrentIff(d: int)
    ensures (forall t, steps, site, c | HitAfter(t, steps, site, c, d) :: Backed(Exec(t, steps), site, c))
       <==> d < LEASE_GUARD_SECONDS
  {
    if d < LEASE_GUARD_SECONDS {
      forall t, steps, site, c | HitAfter(t, steps, site, c, d) ensures Backed(Exec(t, steps), site, c) {
        HitWithinGuardIsCurrent(t, steps, site, c);
      }
    } else {
      var steps, c := LateHit(Site("", ""), "", "0", d);
    }
  }

  /** An error of the callback goes unread: the write commits at once over a live lease. */
  lemma CallbackErrorUnread(site: Site, v: string, w: string)
    requires v != w
    ensures exists steps :: StaleHit(0, steps, site) && Exec(0, steps).now == 0
  {
    var put := PutFirst(site, v);
    var warm := WarmUp(0, put, site, Scalar);
    var leased := TakeLease(0, warm, site, Scalar);
    var written := Write(0, leased, site, w, CallFailed);
    assert StaleHit(0, written, site);
  }

  lemma CallbackCrossesOne(s: State, id: nat, f: Flight)
    requires Waiting(s) && f.site == Site(s.lock.value.todo[0], s.lock.value.key)
    requires s.flights == map[id := f] && SlotAt(s, f.site).cached.None?
    ensures Enabled(s, Callback(f.site))
    ensures Apply(s, Callback(f.site))
         == s.(slots := s.slots[f.site := SlotAt(s, f.site)], flights := map[id := Cross(f, f.site)],
               lock := Some(s.lock.value.(answered := s.lock.value.answered + {f.site.host})))
  {
  }

  /** A write calls the tenant while the answer `f` to it is under way, and the callback comes first. */
  lemma OvertakeStates(s: State, id: nat, f: Flight, w: string) returns (s1: State, s2: State, s3: State)
    requires s.lock.None? && s.flights == map[id := f] && f.reply.Some?
    requires Tenants(s, f.site.key) == map[f.site.host := s.now]
    requires SlotAt(s, f.site).cached.None?
    ensures var begin := BeginWrite(f.site.key, L.Put(w), [f.site.host]);
            Enabled(s, begin) && s1 == Apply(s, begin)
    ensures Enabled(s1, Call) && s2 == Apply(s1, Call)
    ensures Enabled(s2, Callback(f.site)) && s3 == Apply(s2, Callback(f.site))
    ensures s3.now == s.now && s3.storage == s.storage
    ensures s3.flights == map[id := Cross(f, f.site)] && SlotAt(s3, f.site) == SlotAt(s, f.site)
    ensures s3.lock == Some(WriteLock(f.site.key, L.Put(w), s.now, [f.site.host], true, {f.site.host}, {}))
  {
    s1, s2 := CallStates(s, f.site, w);
    assert SlotAt(s2, f.site) == SlotAt(s, f.site);
    CallbackCrossesOne(s2, id, f);
    s3 := Apply(s2, Callback(f.site));
    assert {} + {f.site.host} == {f.site.host};
  }

  /** The write goes on, and then the answer lands. */
  lemma LandLateStates(s: State, id: nat, f: Flight, w: string) returns (s1: State, s2: State, s3: State)
    requires s.flights == map[id := f] && f.want && f.reply.Some?
    requires s.lock == Some(WriteLock(f.site.key, L.Put(w), s.now, [f.site.host], true, {f.site.host}, {}))
    requires SlotAt(s, f.site).rec.Some? && f.ticket == Some(SlotAt(s, f.site).rec.value.id)
    ensures Enabled(s, Ack) && s1 == Apply(s, Ack)
    ensures Enabled(s1, Commit) && s2 == Apply(s1, Commit)
    ensures Enabled(s2, Land(id)) && s3 == Apply(s2, Land(id))
    ensures s3.now == s.now && s3.storage == s.storage[f.site.key := [w]]
    ensures Begin(SlotAt(s3, f.site), Normal, s.now).1 == Hit(f.reply.value)
  {
    assert L.Plan(L.Lookup(s.storage, f.site.key), L.Put(w)) == L.Replace(true, Some([w]));
    s1 := Apply(s, Ack);
    s2 := Apply(s1, Commit);
    LandFinishes(s2, id, f);
    s3 := Apply(s2, Land(id));
  }

  /** A callback that overtakes an answer finds nothing to revoke: the answer lands stale. */
  lemma CallbackOvertakesAnswer(site: Site, v: string, w: string)
    requires v != w
    ensures exists steps :: StaleHit(0, steps, site) && Exec(0, steps).now == 0
  {
    var put := PutFirst(site, v);
    var warm := WarmUp(0, put, site, Scalar);
    var id := Exec(0, warm).next;
    var asked, f := AskForLease(warm, site);
    var s1, s2, s3 := OvertakeStates(Exec(0, asked), id, f, w);
    var s4, s5, s6 := LandLateStates(s3, id, Cross(f, site), w);
    var called := Go3(0, asked, BeginWrite(site.key, L.Put(w), [site.host]), Call, Callback(site), s1, s2, s3);
    var steps := Go3(0, called, Ack, Commit, Land(id), s4, s5, s6);
    assert StaleHit(0, steps, site);
  }

  /** The fourth query is asked and answered, and the answer is on its way. */
  lemma AskForLease(warm: seq<Step>, site: Site) returns (asked: seq<Step>, f: Flight)
    requires Warm(Exec(0, warm), site)
    ensures var s, s' := Exec(0, warm), Exec(0, asked);
            && s'.lock.None? && s'.now == s.now && s'.storage == s.storage
            && s'.flights == map[s.next := f] && Tenants(s', site.key) == map[site.host := s.now]
            && SlotAt(s', site).cached.None? && SlotAt(s', site).rec.Some? && f.ticket == Some(SlotAt(s', site).rec.value.id)
            && f.site == site && f.want
            && f.reply == Some(ReadCopy(s, site, Scalar))
  {
    var s := Exec(0, warm);
    var (slot, d) := Begin(SlotAt(s, site), Normal, s.now);
    AskMisses(s, site, Scalar);
    var s1 := Apply(s, Ask(site, Scalar, Normal));
    ServeAnswers(s1, s.next, Flight(site, Scalar, d.wantLease, d.ticket, None));
    var s2 := Apply(s1, Serve(s.next));
    assert Stamp(s1, site) == Stamp(s, site) && Books(s1, site, true) == Books(s, site, true);
    asked := Go2(0, warm, Ask(site, Scalar, Normal), Serve(s.next), s1, s2);
    f := s2.flights[s.next];
  }

  lemma EmptyListStates(site: Site, v: string) returns (s1: State, s2: State, s3: State)
    ensures var append := QuietWrite(site.key, L.AppendToList(v));
            Enabled(Init(0), append) && s1 == Apply(Init(0), append)
    ensures var remove := BeginWrite(site.key, L.RemoveFromList(v), []);
            Enabled(s1, remove) && s2 == Apply(s1, remove)
    ensures Enabled(s2, Commit) && s3 == Apply(s2, Commit)
    ensures Idle(s3) && s3.storage == map[site.key := []] && s3.ledger == map[] && s3.slots == map[] && s3.now == 0
  {
    assert Elems<Host>([]) == {};
    assert L.Plan(None, L.AppendToList(v)) == L.Replace(false, Some([v]));
    s1 := Apply(Init(0), QuietWrite(site.key, L.AppendToList(v)));
    assert s1.storage == map[site.key := [v]];
    assert Remove([v], v) == [];
    assert L.Plan(Some([v]), L.RemoveFromList(v)) == L.Replace(true, Some([]));
    s2 := Apply(s1, BeginWrite(site.key, L.RemoveFromList(v), []));
    s3 := Apply(s2, Commit);
  }

  lemma QuietAppend(s: State, site: Site, v: string)
    requires Leased(s, site, List) && s.storage == map[site.key := []]
    ensures var append := QuietWrite(site.key, L.AppendToList(v));
            && Enabled(s, append)
            && Apply(s, append).storage == map[site.key := [v]]
            && Apply(s, append).slots == s.slots && Apply(s, append).now == s.now
  {
  }

  /** An empty list is stored, and nobody has read it. */
  lemma EmptyList(site: Site, v: string) returns (steps: seq<Step>)
    ensures var s := Exec(0, steps);
            Idle(s) && s.storage == map[site.key := []] && s.ledger == map[] && s.slots == map[] && s.now == 0
  {
    var s1, s2, s3 := EmptyListStates(site, v);
    assert Exec(0, []) == Init(0);
    steps := Go3(0, [], QuietWrite(site.key, L.AppendToList(v)), BeginWrite(site.key, L.RemoveFromList(v), []), Commit, s1, s2, s3);
  }

  /** An append to an empty list calls no leases in. */
  lemma AppendToEmptyListIsQuiet(site: Site, v: string)
    ensures exists steps :: StaleHit(0, steps, site) && Exec(0, steps).now == 0
  {
    var emptied := EmptyList(site, v);
    var warm := WarmUp(0, emptied, site, List);
    var leased := TakeLease(0, warm, site, List);
    QuietAppend(Exec(0, leased), site, v);
    var steps := Go(0, leased, QuietWrite(site.key, L.AppendToList(v)));
    assert StaleHit(0, steps, site);
  }

  // ---- two kinds of reads of one key ----

  lemma TwoItems(v: string, w: string)
    requires v != w
    ensures |Insert([v], w, StringLess)| == 2
  {
    StringOrder();
    InsertKeepsOrder([v], w, StringLess);
  }

  lemma TwoItemStates(site: Site, v: string, w: string) returns (s1: State, s2: State, s3: State)
    requires v != w
    ensures var append := QuietWrite(site.key, L.AppendToList(v));
            Enabled(Init(0), append) && s1 == Apply(Init(0), append)
    ensures var another := BeginWrite(site.key, L.AppendToList(w), []);
            Enabled(s1, another) && s2 == Apply(s1, another)
    ensures Enabled(s2, Commit) && s3 == Apply(s2, Commit)
    ensures Idle(s3) && s3.ledger == map[] && s3.slots == map[] && s3.now == 0
    ensures site.key in s3.storage && |s3.storage[site.key]| == 2
  {
    assert Elems<Host>([]) == {};
    TwoItems(v, w);
    assert L.Plan(None, L.AppendToList(v)) == L.Replace(false, Some([v]));
    s1 := Apply(Init(0), QuietWrite(site.key, L.AppendToList(v)));
    assert s1.storage == map[site.key := [v]];
    assert L.Plan(Some([v]), L.AppendToList(w)) == L.Replace(true, Some(Insert([v], w, StringLess)));
    s2 := Apply(s1, BeginWrite(site.key, L.AppendToList(w), []));
    s3 := Apply(s2, Commit);
  }

  /** The client's next read, of whatever kind, is a hit of the first item of a longer list. */
  ghost predicate PartialHit(s: State, site: Site) {
    var d := Begin(SlotAt(s, site), Normal, s.now).1;
    && d.Hit? && site.key in s.storage && |s.storage[site.key]| > 1
    && d.copy.value == [s.storage[site.key][0]]
  }

  /** If a key is read with `Get` and then with `GetList`, the list that comes from the cache has its first
      item only, though nothing has been written. */
  lemma MixedKindsCutLists(site: Site, v: string, w: string)
    requires v != w
    ensures exists steps :: PartialHit(Exec(0, steps), site)
  {
    var s1, s2, s3 := TwoItemStates(site, v, w);
    assert Exec(0, []) == Init(0);
    var two := Go3(0, [], QuietWrite(site.key, L.AppendToList(v)), BeginWrite(site.key, L.AppendToList(w), []), Commit, s1, s2, s3);
    var warm := WarmUp(0, two, site, Scalar);
    var leased := TakeLease(0, warm, site, Scalar);
    assert PartialHit(Exec(0, leased), site);
  }

  // ---- a cached key without a record ----

  /** A lapsed record is recycled while the read that will renew it is under way. */
  lemma OrphanStates(s: State, site: Site) returns (s1: State, s2: State, s3: State, s4: State)
    requires Idle(s) && site.key in s.storage
    requires SlotAt(s, site).rec.Some? && !SlotAt(s, site).rec.value.granted
    requires SlotAt(s, site).rec.value.history == [s.now, s.now, s.now]
    requires SlotAt(s, site).rec.value.validSeconds == LEASE_SECONDS
    ensures Enabled(s, Ask(site, Scalar, Normal)) && s1 == Apply(s, Ask(site, Scalar, Normal))
    ensures Enabled(s1, Serve(s.next)) && s2 == Apply(s1, Serve(s.next))
    ensures s3 == Apply(s2, RecycleKey(site))
    ensures Enabled(s3, Land(s.next)) && s4 == Apply(s3, Land(s.next))
    ensures !Enabled(s4, Callback(site))
  {
    var (slot, d) := Begin(SlotAt(s, site), Normal, s.now);
    var f := Flight(site, Scalar, d.wantLease, d.ticket, None);
    AskMisses(s, site, Scalar);
    s1 := Apply(s, Ask(site, Scalar, Normal));
    ServeAnswers(s1, s.next, f);
    s2 := Apply(s1, Serve(s.next));
    s3 := Apply(s2, RecycleKey(site));
    assert SlotAt(s3, site) == Slot(None, None);
    LandFinishes(s3, s.next, s2.flights[s.next]);
    s4 := Apply(s3, Land(s.next));
  }

  lemma ReadUnleased(t: int, steps: seq<Step>, site: Site, h: seq<int>) returns (more: seq<Step>)
    requires Idle(Exec(t, steps)) && site.key in Exec(t, steps).storage
    requires var slot := SlotAt(Exec(t, steps), site);
             && slot.rec.Some? && slot.cached.Some?
             && slot.rec.value.history == h && slot.rec.value.validSeconds == LEASE_SECONDS
             && |h| == 3 && h[0] == Exec(t, steps).now - 11
             && (slot.rec.value.granted ==> h[2] == h[0])
    ensures var s, s' := Exec(t, steps), Exec(t, more);
            && Idle(s') && s'.storage == s.storage && s'.now == s.now
            && var slot := SlotAt(s', site);
            && slot.rec.Some? && slot.cached.Some? && !slot.rec.value.granted
            && slot.rec.value.history == [h[1], h[2], s.now] && slot.rec.value.validSeconds == LEASE_SECONDS
  {
    more := Read(t, steps, site, Scalar);
  }

  /** Eleven seconds after the lease, three queries without one. */
  lemma Lapse(t: int, steps: seq<Step>, site: Site) returns (more: seq<Step>)
    requires Leased(Exec(t, steps), site, Scalar)
    ensures var s := Exec(t, more);
            && Idle(s) && site.key in s.storage
            && var slot := SlotAt(s, site);
            && slot.rec.Some? && !slot.rec.value.granted && slot.cached.Some?
            && slot.rec.value.history == [s.now, s.now, s.now] && slot.rec.value.validSeconds == LEASE_SECONDS
  {
    var now := Exec(t, steps).now;
    more := Go(t, steps, Tick(LEASE_SECONDS + 1));
    assert SlotAt(Exec(t, more), site) == SlotAt(Exec(t, steps), site);
    more := ReadUnleased(t, more, site, [now, now, now]);
    more := ReadUnleased(t, more, site, [now, now, now + 11]);
    more := ReadUnleased(t, more, site, [now, now + 11, now + 11]);
  }

  /** Then the key is cached without a record, and the server's next callback dereferences nil. */
  lemma RecycledRecordOrphansCache(site: Site, v: string)
    ensures exists steps :: !Enabled(Exec(0, steps), Callback(site))
  {
    var put := PutFirst(site, v);
    var warm := WarmUp(0, put, site, Scalar);
    var leased := TakeLease(0, warm, site, Scalar);
    var lapsed := Lapse(0, leased, site);
    var s := Exec(0, lapsed);
    var s1, s2, s3, s4 := OrphanStates(s, site);
    var steps := Go(0, lapsed, Ask(site, Scalar, Normal));
    steps := Go(0, steps, Serve(s.next));
    steps := Go(0, steps, RecycleKey(site));
    steps := Go(0, steps, Land(s.next));
  }
}
