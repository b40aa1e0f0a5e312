/** What requests do to users, subscriptions, posts and their contents, over whole runs. */
module AppEffects {
  import opened Ordered
  import opened KeyCodec
  import opened AppProtocol
  import opened AppRuns
  import opened AppTimelines
  import opened Newest
  import opened Timeline
  import L = ListStore

  // ---- one storage call ----

  ghost predicate Appends(s: State, step: Step, u: string, v: string) {
    step.Continue? && step.id in s.procs && s.procs[step.id] == SubscribeReady(u, v)
  }

  ghost predicate Removes(s: State, step: Step, u: string, v: string) {
    step.Continue? && step.id in s.procs && s.procs[step.id] == UnsubscribeReady(u, v)
  }

  ghost predicate ListsPost(s: State, step: Step, u: string, t: int64) {
    step.Continue? && step.id in s.procs && s.procs[step.id] == PostStored(u, t)
  }

  ghost predicate UnlistsPost(s: State, step: Step, u: string, k: string) {
    step.Continue? && step.id in s.procs && s.procs[step.id] == DeleteReady(u, k)
  }

  ghost predicate Creates(s: State, step: Step, u: string) {
    step.Continue? && step.id in s.procs && s.procs[step.id] == CreateReady(u)
  }

  /** The lists of other kinds and of other users are out of reach of a storage call. */
  lemma ListKept(ks: Keys, s: State, id: nat, a: AppKey)
    requires Distinct(ks) && Inv(ks, s) && id in s.procs && !a.Post? && Target(ks, s.procs[id]) != ks.enc(a)
    ensures L.Lookup(Resume(ks, s, id).storage, ks.enc(a)) == L.Lookup(s.storage, ks.enc(a))
  {
    ResumeChangesTarget(ks, s, id);
  }

  lemma SubsTarget(ks: Keys, s: State, id: nat, u: string)
    requires Distinct(ks) && Inv(ks, s) && id in s.procs && Target(ks, s.procs[id]) == ks.enc(SubList(u))
    ensures s.procs[id].user == u && (s.procs[id].SubscribeReady? || s.procs[id].UnsubscribeReady?)
  {
    DeletedIsPost(ks, s, id);
    assert ks.dec(ks.enc(SubList(u))) == SubList(u);
    assert ks.dec(Target(ks, s.procs[id])) == SubList(u);
  }

  lemma PostsTarget(ks: Keys, s: State, id: nat, u: string)
    requires Distinct(ks) && Inv(ks, s) && id in s.procs && Target(ks, s.procs[id]) == ks.enc(PostList(u))
    ensures s.procs[id].user == u && (s.procs[id].PostStored? || s.procs[id].DeleteReady?)
  {
    DeletedIsPost(ks, s, id);
    assert ks.dec(ks.enc(PostList(u))) == PostList(u);
    assert ks.dec(Target(ks, s.procs[id])) == PostList(u);
  }

  /** A subscription list changes by the appends and removals of its user, one name at a time. */
  lemma SubsStep(ks: Keys, s: State, step: Step, u: string, v: string)
    requires Distinct(ks) && Inv(ks, s) && Enabled(ks, s, step)
    ensures v in Subs(ks, Apply(ks, s, step).storage, u)
       <==> Appends(s, step, u, v) || (v in Subs(ks, s.storage, u) && !Removes(s, step, u, v))
  {
    if step.Continue? {
      var key := ks.enc(SubList(u));
      if Target(ks, s.procs[step.id]) != key {
        ListKept(ks, s, step.id, SubList(u));
      } else {
        SubsTarget(ks, s, step.id, u);
        var x := s.procs[step.id].target;
        AppendEffect(s.storage, key, x);
        RemoveEffect(s.storage, key, x);
      }
    }
  }

  lemma PostsStep(ks: Keys, s: State, step: Step, u: string, t: int64)
    requires Distinct(ks) && Inv(ks, s) && Enabled(ks, s, step)
    ensures ks.enc(AppKey.Post(u, t)) in Posts(ks, Apply(ks, s, step).storage, u)
       <==> ListsPost(s, step, u, t)
            || (ks.enc(AppKey.Post(u, t)) in Posts(ks, s.storage, u) && !UnlistsPost(s, step, u, ks.enc(AppKey.Post(u, t))))
  {
    if step.Continue? {
      var key, p := ks.enc(PostList(u)), s.procs[step.id];
      if Target(ks, p) != key {
        ListKept(ks, s, step.id, PostList(u));
      } else {
        PostsTarget(ks, s, step.id, u);
        if p.PostStored? {
          AppendEffect(s.storage, key, ks.enc(AppKey.Post(u, p.time)));
          assert ks.dec(ks.enc(AppKey.Post(u, p.time))) == AppKey.Post(u, p.time);
          assert ks.dec(ks.enc(AppKey.Post(u, t))) == AppKey.Post(u, t);
        } else {
          RemoveEffect(s.storage, key, p.postKey);
        }
      }
    }
  }

  lemma UsersStep(ks: Keys, s: State, step: Step, u: string)
    requires Distinct(ks) && Inv(ks, s) && Enabled(ks, s, step)
    ensures ks.enc(User(u)) in Apply(ks, s, step).storage <==> Creates(s, step, u) || ks.enc(User(u)) in s.storage
  {
    if ks.enc(User(u)) in s.storage {
      UserStays(ks, s, step, u);
    } else if step.Continue? {
      var p := s.procs[step.id];
      if Target(ks, p) != ks.enc(User(u)) {
        ListKept(ks, s, step.id, User(u));
      } else {
        assert ks.dec(Target(ks, p)) == User(u);
        DeletedIsPost(ks, s, step.id);
        assert p.CreateReady? ==> p.user == u;
      }
    }
  }

  // ---- the last call counts ----

  /** Before moment `w` something was put in, and has not been taken out since. */
  ghost predicate Standing(put: nat -> bool, taken: nat -> bool, w: nat) {
    exists i: nat {:trigger put(i)} | i < w && put(i) :: UntakenUntil(taken, i, w)
  }

  ghost predicate UntakenUntil(taken: nat -> bool, i: nat, w: nat) {
    forall j: nat | i < j < w :: !taken(j)
  }

  lemma StandingNext(put: nat -> bool, taken: nat -> bool, w: nat)
    requires !(put(w) && taken(w))
    ensures Standing(put, taken, w + 1) <==> put(w) || (Standing(put, taken, w) && !taken(w))
  {
    if put(w) {
      assert UntakenUntil(taken, w, w + 1);
    }
    if Standing(put, taken, w) && !taken(w) {
      var i: nat :| i < w && put(i) && UntakenUntil(taken, i, w);
      assert UntakenUntil(taken, i, w + 1);
    }
    if Standing(put, taken, w + 1) && !put(w) {
      var i: nat :| i < w + 1 && put(i) && UntakenUntil(taken, i, w + 1);
      assert UntakenUntil(taken, i, w);
    }
  }

  ghost function AppendsAt(steps: seq<Step>, u: string, v: string): nat -> bool {
    (i: nat) => i < |steps| && Appends(At(steps, i), steps[i], u, v)
  }

  ghost function RemovesAt(steps: seq<Step>, u: string, v: string): nat -> bool {
    (i: nat) => i < |steps| && Removes(At(steps, i), steps[i], u, v)
  }

  /** A name is on a subscription list exactly if an append put it there and no removal has followed. */
  lemma {:induction false} SubscribedIff(steps: seq<Step>, w: nat, u: string, v: string)
    requires w <= |steps|
    ensures v in Subscriptions(At(steps, w).storage, u) <==> Standing(AppendsAt(steps, u, v), RemovesAt(steps, u, v), w)
  {
    assert Subs(StoreKeys(), At(steps, w).storage, u) == Subscriptions(At(steps, w).storage, u);
    if w > 0 {
      SubscribedIff(steps, w - 1, u, v);
      assert Subs(StoreKeys(), At(steps, w - 1).storage, u) == Subscriptions(At(steps, w - 1).storage, u);
      StandingNext(AppendsAt(steps, u, v), RemovesAt(steps, u, v), w - 1);
      Holds(steps[..w - 1]);
      AtNext(steps, w - 1);
      if Enabled(StoreKeys(), At(steps, w - 1), steps[w - 1]) { SubsStep(StoreKeys(), At(steps, w - 1), steps[w - 1], u, v); }
    }
  }

  ghost function ListsAt(steps: seq<Step>, u: string, t: int64): nat -> bool {
    (i: nat) => i < |steps| && ListsPost(At(steps, i), steps[i], u, t)
  }

  ghost function UnlistsAt(steps: seq<Step>, u: string, k: string): nat -> bool {
    (i: nat) => i < |steps| && UnlistsPost(At(steps, i), steps[i], u, k)
  }

  /** A post is listed exactly if its own request has listed it and no deletion has taken it off since. */
  lemma {:induction false} ListedIff(steps: seq<Step>, w: nat, u: string, t: int64)
    requires w <= |steps|
    ensures FormatPostKey(u, t) in PostsOf(At(steps, w).storage, u)
       <==> Standing(ListsAt(steps, u, t), UnlistsAt(steps, u, FormatPostKey(u, t)), w)
  {
    assert Posts(StoreKeys(), At(steps, w).storage, u) == PostsOf(At(steps, w).storage, u);
    if w > 0 {
      ListedIff(steps, w - 1, u, t);
      assert Posts(StoreKeys(), At(steps, w - 1).storage, u) == PostsOf(At(steps, w - 1).storage, u);
      StandingNext(ListsAt(steps, u, t), UnlistsAt(steps, u, FormatPostKey(u, t)), w - 1);
      Holds(steps[..w - 1]);
      AtNext(steps, w - 1);
      assert StoreKeys().enc(AppKey.Post(u, t)) == FormatPostKey(u, t);
      if Enabled(StoreKeys(), At(steps, w - 1), steps[w - 1]) { PostsStep(StoreKeys(), At(steps, w - 1), steps[w - 1], u, t); }
    }
  }

  ghost function CreatesAt(steps: seq<Step>, u: string): nat -> bool {
    (i: nat) => i < |steps| && Creates(At(steps, i), steps[i], u)
  }

  function Nothing(): nat -> bool { (i: nat) => false }

  /** A user exists exactly if a request has created it; nothing takes a user away. */
  lemma {:induction false} UserExistsIff(steps: seq<Step>, w: nat, u: string)
    requires w <= |steps|
    ensures FormatUserKey(u) in At(steps, w).storage <==> Standing(CreatesAt(steps, u), Nothing(), w)
  {
    if w > 0 {
      UserExistsIff(steps, w - 1, u);
      StandingNext(CreatesAt(steps, u), Nothing(), w - 1);
      Holds(steps[..w - 1]);
      AtNext(steps, w - 1);
      assert StoreKeys().enc(User(u)) == FormatUserKey(u);
      if Enabled(StoreKeys(), At(steps, w - 1), steps[w - 1]) { UsersStep(StoreKeys(), At(steps, w - 1), steps[w - 1], u); }
    }
  }

  // ---- whose posts can be deleted ----

  /** A deletion goes on only for a key that names its user as the author. */
  ghost predicate AuthorInv(ks: Keys, s: State) {
    forall id | id in s.procs && s.procs[id].DeleteReady? :: ks.author(s.procs[id].postKey) == Some(s.procs[id].user)
  }

  lemma AuthorStep(ks: Keys, s: State, step: Step)
    requires AuthorInv(ks, s) && Enabled(ks, s, step)
    ensures AuthorInv(ks, Apply(ks, s, step))
  {
  }

  lemma {:induction false} AuthorHolds(steps: seq<Step>)
    ensures AuthorInv(StoreKeys(), After(steps))
  {
    if steps != [] {
      var n := |steps| - 1;
      AuthorHolds(steps[..n]);
      if Enabled(StoreKeys(), After(steps[..n]), steps[n]) { AuthorStep(StoreKeys(), After(steps[..n]), steps[n]); }
    }
  }

  lemma NeverUnlisted(steps: seq<Step>, u: string, t: int64, i: nat)
    requires ':' in u
    ensures !UnlistsAt(steps, u, FormatPostKey(u, t))(i)
  {
    AuthorHolds(if i <= |steps| then steps[..i] else steps);
    PostKeyRoundTrip(u, t);
  }

  lemma StandingStays(put: nat -> bool, taken: nat -> bool, w1: nat, w2: nat)
    requires w1 <= w2 && Standing(put, taken, w1) && forall j: nat :: !taken(j)
    ensures Standing(put, taken, w2)
  {
    var i: nat :| i < w1 && put(i) && UntakenUntil(taken, i, w1);
    assert UntakenUntil(taken, i, w2);
  }

  /** No run takes a post off the list of a user with a colon in the name, whatever keys are supplied. */
  lemma ColonPostsStay(steps: seq<Step>, w1: nat, w2: nat, u: string, t: int64)
    requires w1 <= w2 <= |steps| && ':' in u && FormatPostKey(u, t) in PostsOf(At(steps, w1).storage, u)
    ensures FormatPostKey(u, t) in PostsOf(At(steps, w2).storage, u)
  {
    ListedIff(steps, w1, u, t);
    ListedIff(steps, w2, u, t);
    forall j: nat ensures !UnlistsAt(steps, u, FormatPostKey(u, t))(j) { NeverUnlisted(steps, u, t, j); }
    StandingStays(ListsAt(steps, u, t), UnlistsAt(steps, u, FormatPostKey(u, t)), w1, w2);
  }

  // ---- what was posted is what is stored and shown ----

  /** Step `i` is the request of user `u` to post `c` at time `t`, and the user exists. */
  ghost predicate MadeAt(steps: seq<Step>, i: nat, u: string, t: int64, c: string) {
    && i < |steps| && steps[i].Post?
    && steps[i].user == u && steps[i].time == t && steps[i].contents == c
    && Enabled(StoreKeys(), At(steps, i), steps[i])
    && FormatUserKey(u) in At(steps, i).storage
  }

  ghost predicate Made(steps: seq<Step>, w: nat, u: string, t: int64, c: string) {
    exists i: nat {:trigger MadeAt(steps, i, u, t, c)} | i < w :: MadeAt(steps, i, u, t, c)
  }

  /** A request that is about to put contents puts those it was given, and those are what is stored. */
  ghost predicate ContentsInv(steps: seq<Step>, w: nat) {
    && (forall id | id in At(steps, w).procs && At(steps, w).procs[id].PostReady? :: ReadyMade(steps, w, At(steps, w).procs[id]))
    && (forall u, t | FormatPostKey(u, t) in At(steps, w).storage :: StoredMade(steps, w, u, t))
  }

  ghost predicate ReadyMade(steps: seq<Step>, w: nat, p: Process)
    requires p.PostReady?
  {
    Made(steps, w, p.user, p.time, p.contents)
  }

  ghost predicate StoredMade(steps: seq<Step>, w: nat, u: string, t: int64) {
    var k := FormatPostKey(u, t);
    k in At(steps, w).storage && exists c | Made(steps, w, u, t, c) :: At(steps, w).storage[k] == [c]
  }

  lemma MadeLater(steps: seq<Step>, w: nat, u: string, t: int64, c: string)
    requires Made(steps, w, u, t, c)
    ensures Made(steps, w + 1, u, t, c)
  {
    var i: nat :| i < w && MadeAt(steps, i, u, t, c);
  }

  lemma ReadyStep(steps: seq<Step>, w: nat, id: nat)
    requires w < |steps| && ContentsInv(steps, w)
    requires id in At(steps, w + 1).procs && At(steps, w + 1).procs[id].PostReady?
    ensures ReadyMade(steps, w + 1, At(steps, w + 1).procs[id])
  {
    AtNext(steps, w);
    var s, p := At(steps, w), At(steps, w + 1).procs[id];
    if id in s.procs && s.procs[id] == p {
      assert ReadyMade(steps, w, p);
      MadeLater(steps, w, p.user, p.time, p.contents);
    } else {
      NewReady(StoreKeys(), s, steps[w], id);
      assert StoreKeys().enc(User(p.user)) == FormatUserKey(p.user);
      assert MadeAt(steps, w, p.user, p.time, p.contents);
    }
  }

  lemma NewReady(ks: Keys, s: State, step: Step, id: nat)
    requires Enabled(ks, s, step) && id in Apply(ks, s, step).procs && Apply(ks, s, step).procs[id].PostReady?
    requires id in s.procs ==> s.procs[id] != Apply(ks, s, step).procs[id]
    ensures var p := Apply(ks, s, step).procs[id];
            && step.Post? && step.user == p.user && step.time == p.time && step.contents == p.contents
            && ks.enc(User(p.user)) in s.storage
  {
  }

  /** A stored post is put by its own request, or was there before. */
  lemma StoredStep(ks: Keys, s: State, step: Step, a: AppKey)
    requires Distinct(ks) && Inv(ks, s) && Enabled(ks, s, step) && a.Post? && ks.enc(a) in Apply(ks, s, step).storage
    requires PostedInv(ks, Apply(ks, s, step))
    ensures || (ks.enc(a) in s.storage && Apply(ks, s, step).storage[ks.enc(a)] == s.storage[ks.enc(a)])
            || (Puts(ks, s, step, ks.enc(a)) && var p := s.procs[step.id];
                p.user == a.user && p.time == a.time && Apply(ks, s, step).storage[ks.enc(a)] == [p.contents])
  {
    if ks.enc(a) in s.storage {
      StoredIsLive(ks, s, a);
      if Drops(s, step, ks.enc(a)) {
        DropStep(ks, s, step, ks.enc(a));
      } else {
        LiveStep(ks, s, step, ks.enc(a));
      }
    } else {
      NewlyStored(ks, s, step, a);
      var p := s.procs[step.id];
      assert ks.dec(ks.enc(AppKey.Post(p.user, p.time))) == ks.dec(ks.enc(a));
      PutEffect(s.storage, ks.enc(a), p.contents);
    }
  }

  lemma StoredMadeStep(steps: seq<Step>, w: nat, u: string, t: int64)
    requires w < |steps| && ContentsInv(steps, w) && FormatPostKey(u, t) in At(steps, w + 1).storage
    ensures StoredMade(steps, w + 1, u, t)
  {
    var ks, s, k := StoreKeys(), At(steps, w), FormatPostKey(u, t);
    Holds(steps[..w]);
    Holds(steps[..w + 1]);
    AtNext(steps, w);
    assert ks.enc(AppKey.Post(u, t)) == k;
    if Enabled(ks, s, steps[w]) {
      StoredStep(ks, s, steps[w], AppKey.Post(u, t));
    }
    if k in s.storage && At(steps, w + 1).storage[k] == s.storage[k] {
      assert StoredMade(steps, w, u, t);
      var c :| Made(steps, w, u, t, c) && s.storage[k] == [c];
      MadeLater(steps, w, u, t, c);
    } else {
      var p := s.procs[steps[w].id];
      assert ReadyMade(steps, w, p);
      MadeLater(steps, w, u, t, p.contents);
    }
  }

  lemma {:induction false} ContentsHold(steps: seq<Step>, w: nat)
    requires w <= |steps|
    ensures ContentsInv(steps, w)
  {
    if w > 0 {
      ContentsHold(steps, w - 1);
      forall id | id in At(steps, w).procs && At(steps, w).procs[id].PostReady?
        ensures ReadyMade(steps, w, At(steps, w).procs[id])
      {
        ReadyStep(steps, w - 1, id);
      }
      forall u, t: int64 | FormatPostKey(u, t) in At(steps, w).storage ensures StoredMade(steps, w, u, t) {
        StoredMadeStep(steps, w - 1, u, t);
      }
    }
  }

  /** At every moment of every run, what is stored for a post is what its user asked to post at that time. */
  lemma StoredIsWhatWasPosted(steps: seq<Step>, w: nat, u: string, t: int64)
    requires w <= |steps| && FormatPostKey(u, t) in At(steps, w).storage
    ensures exists c | Made(steps, w, u, t, c) :: At(steps, w).storage[FormatPostKey(u, t)] == [c]
  {
    ContentsHold(steps, w);
    assert StoredMade(steps, w, u, t);
  }

  lemma PostedStep(ks: Keys, s: State, step: Step, k: string)
    requires Enabled(ks, s, step) && k in s.posted
    ensures k in Apply(ks, s, step).posted
  {
    if step.Continue? { ResumePosted(ks, s, step.id); }
  }

  lemma {:induction false} PostedStays(steps: seq<Step>, w1: nat, w2: nat, k: string)
    requires w1 <= w2 <= |steps| && k in At(steps, w1).posted
    ensures k in At(steps, w2).posted
    decreases w2
  {
    if w1 < w2 {
      PostedStays(steps, w1, w2 - 1, k);
      AtNext(steps, w2 - 1);
      if Enabled(StoreKeys(), At(steps, w2 - 1), steps[w2 - 1]) { PostedStep(StoreKeys(), At(steps, w2 - 1), steps[w2 - 1], k); }
    }
  }

  /** There is but one such request, so the contents are determined. */
  lemma MadeOnce(steps: seq<Step>, i: nat, j: nat, u: string, t: int64, c: string, d: string)
    requires i <= j && MadeAt(steps, i, u, t, c) && MadeAt(steps, j, u, t, d)
    ensures i == j && c == d
  {
    if i < j {
      AtNext(steps, i);
      assert StoreKeys().enc(AppKey.Post(u, t)) == FormatPostKey(u, t) && StoreKeys().enc(User(u)) == FormatUserKey(u);
      PostedStays(steps, i + 1, j, FormatPostKey(u, t));
    }
  }

  /** A fetched post has the contents that its user asked to post. */
  lemma RenderedIsWhatWasPosted(steps: seq<Step>, w: nat, u: string, t: int64, post: Post) returns (c: string)
    requires w <= |steps| && Rendered(At(steps, w).storage, FormatPostKey(u, t), post)
    ensures Made(steps, w, u, t, c) && post.contents == c
  {
    StoredIsWhatWasPosted(steps, w, u, t);
    c :| Made(steps, w, u, t, c) && At(steps, w).storage[FormatPostKey(u, t)] == [c];
  }

  /** Every post of a user's timeline has the contents that the user asked to post. */
  lemma UserTimelineShowsWhatWasPosted(
    steps: seq<Step>, at: nat -> nat, stores: nat -> L.Storage, user: string, reply: TimelineReply, keys: seq<string>, i: nat)
    returns (t: int64, c: string)
    requires Moments(steps, at, stores) && UserAnswer(stores, user, reply, keys) && reply.Found? && i < |keys|
    ensures |reply.posts| == |keys| && keys[i] == FormatPostKey(user, t)
    ensures Made(steps, at(2 + i), user, t, c) && reply.posts[i].contents == c
  {
    t := UserTimelineShowsPostsIff(steps, at, stores, user, reply, keys, i);
    assert Rendered(stores(2 + i), keys[i], reply.posts[i]);
    assert Reflects(steps, at, stores, 2 + i);
    c := RenderedIsWhatWasPosted(steps, at(2 + i), user, t, reply.posts[i]);
  }

  /** The post is one of a subscribed user, with the contents that this user asked to post before moment `w`. */
  ghost predicate PostMade(steps: seq<Step>, w: nat, slist: seq<string>, k: string, post: Post) {
    exists v, t, c :: WasMade(steps, w, slist, k, post, v, t, c)
  }

  ghost predicate WasMade(steps: seq<Step>, w: nat, slist: seq<string>, k: string, post: Post, v: string, t: int64, c: string) {
    v in slist && k == FormatPostKey(v, t) && Made(steps, w, v, t, c) && post.contents == c
  }

  ghost predicate AllMade(steps: seq<Step>, at: nat -> nat, slist: seq<string>, keys: seq<string>, posts: seq<Post>) {
    |posts| == |keys| && forall i: nat | i < |keys| :: PostMade(steps, at(2 + |slist| + i), slist, keys[i], posts[i])
  }

  /** Every post of a home timeline has the contents that a subscribed user asked to post. */
  lemma HomeTimelineShowsWhatWasPosted(
    steps: seq<Step>, at: nat -> nat, stores: nat -> L.Storage, user: string, reply: TimelineReply, keys: seq<string>)
    requires Moments(steps, at, stores) && HomeAnswer(stores, user, reply, keys) && reply.Found?
    ensures AllMade(steps, at, Subscriptions(stores(1), user), keys, reply.posts)
  {
    var slist := Subscriptions(stores(1), user);
    ShownAreListed(stores, slist, keys);
    FetchedIsWhatWasPosted(steps, at, stores, slist, reply, keys);
  }

  lemma FetchedIsWhatWasPosted(
    steps: seq<Step>, at: nat -> nat, stores: nat -> L.Storage, slist: seq<string>, reply: TimelineReply, keys: seq<string>)
    requires Moments(steps, at, stores) && AllListed(stores, slist, keys)
    requires Fetched(stores, 2 + |slist|, keys, reply) && reply.Found?
    ensures AllMade(steps, at, slist, keys, reply.posts)
  {
    forall i: nat | i < |keys| ensures PostMade(steps, at(2 + |slist| + i), slist, keys[i], reply.posts[i]) {
      assert Rendered(stores(2 + |slist| + i), keys[i], reply.posts[i]);
      OneIsWhatWasPosted(steps, at, stores, slist, 2 + |slist| + i, keys[i], reply.posts[i]);
    }
  }

  lemma OneIsWhatWasPosted(
    steps: seq<Step>, at: nat -> nat, stores: nat -> L.Storage, slist: seq<string>, m: nat, k: string, post: Post)
    requires Moments(steps, at, stores) && Listed(stores, slist, k) && Rendered(stores(m), k, post)
    ensures PostMade(steps, at(m), slist, k, post)
  {
    var v, t := ListedBy(steps, at, stores, slist, k);
    assert Reflects(steps, at, stores, m);
    var c := RenderedIsWhatWasPosted(steps, at(m), v, t, post);
    assert WasMade(steps, at(m), slist, k, post, v, t, c);
  }

  lemma ListedBy(steps: seq<Step>, at: nat -> nat, stores: nat -> L.Storage, slist: seq<string>, k: string) returns (v: string, t: int64)
    requires Moments(steps, at, stores) && Listed(stores, slist, k)
    ensures v in slist && k == FormatPostKey(v, t)
  {
    var n: nat :| ListedIn(stores, slist, n, k);
    v := slist[n];
    assert Reflects(steps, at, stores, 2 + n);
    t := ListedPost(steps, at(2 + n), v, k);
  }
}
