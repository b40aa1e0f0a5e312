/** Runs in which the application does not do what one would expect of it. */
module AppMishaps {
  import opened Ordered
  import opened KeyCodec
  import opened AppProtocol
  import opened AppRuns
  import opened AppTimelines
  import opened Newest
  import opened Timeline
  import L = ListStore

  // ---- whole requests, one after the other ----

  lemma Go(ks: Keys, steps: seq<Step>, step: Step) returns (more: seq<Step>)
    requires Enabled(ks, Exec(ks, steps), step)
    ensures more == steps + [step] && Exec(ks, more) == Apply(ks, Exec(ks, steps), step)
  {
    more := steps + [step];
    assert more[..|steps|] == steps;
  }

  ghost predicate Idle(s: State) {
    s.procs == map[]
  }

  lemma CreateStates(ks: Keys, s: State, u: string)
    requires Idle(s) && ks.enc(User(u)) !in s.storage
    ensures Enabled(ks, s, CreateUser(0, u))
    ensures var s1 := Apply(ks, s, CreateUser(0, u));
            && Enabled(ks, s1, Continue(0))
            && Apply(ks, s1, Continue(0)) == s.(storage := L.Apply(s.storage, ks.enc(User(u)), L.Put("")))
  {
    assert s.procs[0 := CreateReady(u)] - {0} == map[];
  }

  /** A user is there after an attempt to create it, whether or not it was before. */
  lemma Create(ks: Keys, steps: seq<Step>, u: string) returns (more: seq<Step>)
    requires Idle(Exec(ks, steps))
    ensures var s, s' := Exec(ks, steps), Exec(ks, more);
            s' == s.(storage := if ks.enc(User(u)) in s.storage then s.storage
                                else L.Apply(s.storage, ks.enc(User(u)), L.Put("")))
  {
    more := steps;
    if ks.enc(User(u)) !in Exec(ks, steps).storage {
      CreateStates(ks, Exec(ks, steps), u);
      more := Go(ks, more, CreateUser(0, u));
      more := Go(ks, more, Continue(0));
    }
  }

  lemma SubscribeStates(ks: Keys, s: State, u: string, v: string)
    requires Idle(s) && ks.enc(User(u)) in s.storage && ks.enc(User(v)) in s.storage
    ensures Enabled(ks, s, Subscribe(0, u, v))
    ensures var s1 := Apply(ks, s, Subscribe(0, u, v));
            && Enabled(ks, s1, Continue(0))
            && var s2 := Apply(ks, s1, Continue(0));
            && Enabled(ks, s2, Continue(0))
            && Apply(ks, s2, Continue(0)) == s.(storage := L.Apply(s.storage, ks.enc(SubList(u)), L.AppendToList(v)))
  {
    var s1 := s.(procs := map[0 := SubscribeAsked(u, v)]);
    assert Apply(ks, s, Subscribe(0, u, v)) == s1;
    var s2 := s.(procs := map[0 := SubscribeReady(u, v)]);
    assert Apply(ks, s1, Continue(0)) == s2;
    assert s2.procs - {0} == map[];
  }

  lemma DoSubscribe(ks: Keys, steps: seq<Step>, u: string, v: string) returns (more: seq<Step>)
    requires Idle(Exec(ks, steps)) && ks.enc(User(u)) in Exec(ks, steps).storage && ks.enc(User(v)) in Exec(ks, steps).storage
    ensures var s := Exec(ks, steps);
            Exec(ks, more) == s.(storage := L.Apply(s.storage, ks.enc(SubList(u)), L.AppendToList(v)))
  {
    SubscribeStates(ks, Exec(ks, steps), u, v);
    more := Go(ks, steps, Subscribe(0, u, v));
    more := Go(ks, more, Continue(0));
    more := Go(ks, more, Continue(0));
  }

  /** The store after a post. */
  function Posted(ks: Keys, m: Storage, u: string, t: int64, c: string): Storage {
    var k := ks.enc(AppKey.Post(u, t));
    L.Apply(L.Apply(m, k, L.Put(c)), ks.enc(PostList(u)), L.AppendToList(k))
  }

  lemma PostStates(ks: Keys, s: State, u: string, t: int64, c: string)
    requires Idle(s) && s.claims == map[] && ks.enc(User(u)) in s.storage && ks.enc(AppKey.Post(u, t)) !in s.posted
    ensures Enabled(ks, s, Step.Post(0, u, t, c))
    ensures var s1 := Apply(ks, s, Step.Post(0, u, t, c));
            && Enabled(ks, s1, Continue(0))
            && var s2 := Apply(ks, s1, Continue(0));
            && Enabled(ks, s2, Continue(0))
            && Apply(ks, s2, Continue(0))
               == s.(storage := Posted(ks, s.storage, u, t, c),
                     posted := s.posted[ks.enc(AppKey.Post(u, t)) := AppKey.Post(u, t)])
  {
    var k := ks.enc(AppKey.Post(u, t));
    var s1 := s.(procs := map[0 := PostReady(u, t, c)], posted := s.posted[k := AppKey.Post(u, t)], claims := map[k := 0]);
    assert Apply(ks, s, Step.Post(0, u, t, c)) == s1;
    var s2 := s1.(storage := L.Apply(s.storage, k, L.Put(c)), procs := map[0 := PostStored(u, t)]);
    assert Apply(ks, s1, Continue(0)) == s2;
    assert s2.procs - {0} == map[] && s2.claims - {k} == map[];
  }

  lemma DoPost(ks: Keys, steps: seq<Step>, u: string, t: int64, c: string) returns (more: seq<Step>)
    requires Idle(Exec(ks, steps)) && Exec(ks, steps).claims == map[]
    requires ks.enc(User(u)) in Exec(ks, steps).storage && ks.enc(AppKey.Post(u, t)) !in Exec(ks, steps).posted
    ensures var s := Exec(ks, steps);
            Exec(ks, more) == s.(storage := Posted(ks, s.storage, u, t, c),
                                 posted := s.posted[ks.enc(AppKey.Post(u, t)) := AppKey.Post(u, t)])
  {
    PostStates(ks, Exec(ks, steps), u, t, c);
    more := Go(ks, steps, Step.Post(0, u, t, c));
    more := Go(ks, more, Continue(0));
    more := Go(ks, more, Continue(0));
  }

  lemma DeleteStates(ks: Keys, s: State, u: string, k: string)
    requires Idle(s) && L.Sorted(s.storage) && ks.enc(User(u)) in s.storage && ks.author(k) == Some(u) && k in Posts(ks, s.storage, u)
    ensures Enabled(ks, s, DeletePost(0, u, k))
    ensures var s1 := Apply(ks, s, DeletePost(0, u, k));
            && Enabled(ks, s1, Continue(0))
            && var s2 := Apply(ks, s1, Continue(0));
            && Enabled(ks, s2, Continue(0))
            && k !in Apply(ks, s2, Continue(0)).storage
  {
    var s1 := s.(procs := map[0 := DeleteReady(u, k)]);
    assert Apply(ks, s, DeletePost(0, u, k)) == s1;
    RemoveEffect(s.storage, ks.enc(PostList(u)), k);
    var s2 := Apply(ks, s1, Continue(0));
    assert s2.procs[0] == DeleteRemoved(u, k);
    RemoveEffect(s.storage, ks.enc(PostList(u)), k);
    DeleteEffect(s2.storage, k);
  }

  lemma DoDelete(ks: Keys, steps: seq<Step>, u: string, k: string) returns (more: seq<Step>)
    requires Idle(Exec(ks, steps)) && L.Sorted(Exec(ks, steps).storage) && ks.enc(User(u)) in Exec(ks, steps).storage
    requires ks.author(k) == Some(u) && k in Posts(ks, Exec(ks, steps).storage, u)
    ensures |steps| <= |more| && more[..|steps|] == steps && k !in Exec(ks, more).storage
  {
    DeleteStates(ks, Exec(ks, steps), u, k);
    more := Go(ks, steps, DeletePost(0, u, k));
    more := Go(ks, more, Continue(0));
    more := Go(ks, more, Continue(0));
  }

  // ---- what they leave behind ----

  lemma CreateEffect(ks: Keys, m: Storage, u: string, n: Storage)
    requires Distinct(ks) && L.Sorted(m)
    requires n == if ks.enc(User(u)) in m then m else L.Apply(m, ks.enc(User(u)), L.Put(""))
    ensures L.Sorted(n) && ks.enc(User(u)) in n && UsersKept(ks, m, n)
    ensures (forall v :: Posts(ks, n, v) == Posts(ks, m, v)) && (forall v :: Subs(ks, n, v) == Subs(ks, m, v))
  {
    if ks.enc(User(u)) !in m {
      PutEffect(m, ks.enc(User(u)), "");
      FrameAt(ks, m, n, User(u));
    }
  }

  ghost predicate UsersKept(ks: Keys, m: Storage, n: Storage) {
    forall v :: ks.enc(User(v)) in m ==> ks.enc(User(v)) in n
  }

  lemma SubscribeEffect(ks: Keys, m: Storage, u: string, w: string)
    requires Distinct(ks) && L.Sorted(m)
    ensures var n := L.Apply(m, ks.enc(SubList(u)), L.AppendToList(w));
            && L.Sorted(n) && UsersKept(ks, m, n)
            && (forall v :: Posts(ks, n, v) == Posts(ks, m, v))
            && (forall v :: v in Subs(ks, n, u) <==> v == w || v in Subs(ks, m, u))
  {
    AppendEffect(m, ks.enc(SubList(u)), w);
    FrameAt(ks, m, L.Apply(m, ks.enc(SubList(u)), L.AppendToList(w)), SubList(u));
  }

  lemma PostEffect(ks: Keys, m: Storage, u: string, t: int64, c: string)
    requires Distinct(ks) && L.Sorted(m)
    ensures var n, k := Posted(ks, m, u, t, c), ks.enc(AppKey.Post(u, t));
            && L.Sorted(n) && UsersKept(ks, m, n)
            && (forall v :: Subs(ks, n, v) == Subs(ks, m, v)) && (forall v | v != u :: Posts(ks, n, v) == Posts(ks, m, v))
            && (forall x :: x in Posts(ks, n, u) <==> x == k || x in Posts(ks, m, u))
            && |Posts(ks, n, u)| == (if k in Posts(ks, m, u) then |Posts(ks, m, u)| else |Posts(ks, m, u)| + 1)
  {
    var k := ks.enc(AppKey.Post(u, t));
    PutEffect(m, k, c);
    var m1 := m[k := [c]];
    FrameAt(ks, m, m1, AppKey.Post(u, t));
    AppendEffect(m1, ks.enc(PostList(u)), k);
    FrameAt(ks, m1, L.Apply(m1, ks.enc(PostList(u)), L.AppendToList(k)), PostList(u));
  }

  /** Anyone can post, whatever the name. */
  lemma MakePost(ks: Keys, u: string, t: int64, c: string) returns (steps: seq<Step>)
    requires Distinct(ks)
    ensures var s := Exec(ks, steps);
            && Idle(s) && L.Sorted(s.storage) && ks.enc(User(u)) in s.storage
            && Posts(ks, s.storage, u) == [ks.enc(AppKey.Post(u, t))]
  {
    assert Exec(ks, []) == Init();
    var created := Create(ks, [], u);
    CreateEffect(ks, map[], u, Exec(ks, created).storage);
    PostEffect(ks, Exec(ks, created).storage, u, t, c);
    steps := DoPost(ks, created, u, t, c);
    var posts := Posts(ks, Exec(ks, steps).storage, u);
    assert |posts| == 1 && posts[0] in posts;
  }

  lemma AnyoneCanPost(u: string, t: int64)
    ensures exists steps :: FormatPostKey(u, t) in PostsOf(After(steps).storage, u)
  {
    StoreKeysDistinct();
    var steps := MakePost(StoreKeys(), u, t, "");
    assert PostsOf(After(steps).storage, u)[0] == FormatPostKey(u, t);
  }

  // ---- a deletion between two reads ----

  /** Post `k` is the one post of user `u` after `w` steps, and gone at the end. */
  ghost predicate ListedThenGone(steps: seq<Step>, w: nat, u: string, k: string) {
    && w <= |steps|
    && FormatUserKey(u) in At(steps, w).storage
    && PostsOf(At(steps, w).storage, u) == [k]
    && k !in At(steps, |steps|).storage
  }

  lemma PostAndDelete(u: string, t: int64) returns (steps: seq<Step>, w: nat)
    requires ':' !in u
    ensures ListedThenGone(steps, w, u, FormatPostKey(u, t))
  {
    StoreKeysDistinct();
    PostKeyRoundTrip(u, t);
    var k := FormatPostKey(u, t);
    var posted := MakePost(StoreKeys(), u, t, "");
    assert Posts(StoreKeys(), After(posted).storage, u)[0] == k;
    steps := DoDelete(StoreKeys(), posted, u, k);
    w := |posted|;
    assert steps[..|steps|] == steps && steps[..w] == posted;
  }

  /** The request fails whatever its sort does. */
  ghost predicate AlwaysMissing(stores: nat -> L.Storage, u: string, k: string) {
    forall reply, keys | UserAnswer(stores, u, reply, keys) :: reply == PostMissing(k)
  }

  lemma MissingIfGone(stores: nat -> L.Storage, u: string, k: string)
    requires FormatUserKey(u) in stores(0) && PostsOf(stores(1), u) == [k] && k !in stores(2)
    ensures AlwaysMissing(stores, u, k)
  {
    forall reply, keys | UserAnswer(stores, u, reply, keys) ensures reply == PostMissing(k) {
      assert |keys| == 1 && multiset(keys) <= multiset{k};
      assert keys[0] in multiset(keys);
      FoundIff(stores, 2, keys, reply);
      assert keys[0] == k;
    }
  }

  /** A timeline fails if a post of its list is deleted before it is fetched: there is a run, with the
      request's calls spread over it, in which every answer is the error. */
  lemma DeletionBetweenReads(u: string, t: int64)
    requires ':' !in u
    ensures exists steps, at, stores :: Moments(steps, at, stores) && AlwaysMissing(stores, u, FormatPostKey(u, t))
  {
    var steps, w := PostAndDelete(u, t);
    var at := (n: nat) => if n < 2 then w else |steps|;
    var stores := (n: nat) => At(steps, at(n)).storage;
    MissingIfGone(stores, u, FormatPostKey(u, t));
    assert Moments(steps, at, stores);
  }

  // ---- a newer post that is never shown ----

  /** Reader `r` has subscribed to `u`, who has posted once, at time `late`, and to `c`, who has posted
      `n` times, at times 1 to `n`. */
  ghost predicate Scene(ks: Keys, s: State, r: string, u: string, late: int64, c: string, n: nat) {
    && Idle(s) && s.claims == map[] && L.Sorted(s.storage)
    && ks.enc(User(r)) in s.storage && ks.enc(User(c)) in s.storage
    && (forall v :: v in Subs(ks, s.storage, r) <==> v == u || v == c)
    && (forall x :: x in Posts(ks, s.storage, u) <==> x == ks.enc(AppKey.Post(u, late)))
    && |Posts(ks, s.storage, c)| == n
    && (forall x | x in Posts(ks, s.storage, c) :: PostedEarly(ks, c, n, x))
    && (forall t: int64 | t > n :: ks.enc(AppKey.Post(c, t)) !in s.posted)
  }

  ghost predicate PostedEarly(ks: Keys, c: string, n: nat, x: string) {
    exists t: int64 | 1 <= t <= n :: x == ks.enc(AppKey.Post(c, t))
  }

  /** Nothing has been done but to create users. */
  ghost predicate OnlyUsers(ks: Keys, s: State) {
    && s == Init().(storage := s.storage) && L.Sorted(s.storage)
    && (forall v :: Posts(ks, s.storage, v) == []) && (forall v :: Subs(ks, s.storage, v) == [])
  }

  lemma OneUserMore(ks: Keys, steps: seq<Step>, u: string) returns (more: seq<Step>)
    requires Distinct(ks) && OnlyUsers(ks, Exec(ks, steps))
    ensures OnlyUsers(ks, Exec(ks, more)) && ks.enc(User(u)) in Exec(ks, more).storage
    ensures UsersKept(ks, Exec(ks, steps).storage, Exec(ks, more).storage)
  {
    more := Create(ks, steps, u);
    CreateEffect(ks, Exec(ks, steps).storage, u, Exec(ks, more).storage);
  }

  lemma ThreeUsers(ks: Keys, r: string, u: string, c: string) returns (steps: seq<Step>)
    requires Distinct(ks)
    ensures OnlyUsers(ks, Exec(ks, steps))
    ensures var m := Exec(ks, steps).storage; ks.enc(User(r)) in m && ks.enc(User(u)) in m && ks.enc(User(c)) in m
  {
    assert Exec(ks, []) == Init();
    var one := OneUserMore(ks, [], r);
    var two := OneUserMore(ks, one, u);
    steps := OneUserMore(ks, two, c);
  }

  lemma TwoSubscriptions(ks: Keys, r: string, u: string, c: string) returns (steps: seq<Step>)
    requires Distinct(ks)
    ensures var s := Exec(ks, steps);
            && s == Init().(storage := s.storage) && L.Sorted(s.storage)
            && ks.enc(User(r)) in s.storage && ks.enc(User(u)) in s.storage && ks.enc(User(c)) in s.storage
            && (forall v :: Posts(ks, s.storage, v) == [])
            && (forall v :: v in Subs(ks, s.storage, r) <==> v == u || v == c)
  {
    var users := ThreeUsers(ks, r, u, c);
    SubscribeEffect(ks, Exec(ks, users).storage, r, u);
    var one := DoSubscribe(ks, users, r, u);
    SubscribeEffect(ks, Exec(ks, one).storage, r, c);
    steps := DoSubscribe(ks, one, r, c);
  }

  lemma SetScene(ks: Keys, r: string, u: string, late: int64, c: string) returns (steps: seq<Step>)
    requires Distinct(ks) && u != c
    ensures Scene(ks, Exec(ks, steps), r, u, late, c, 0)
  {
    var subscribed := TwoSubscriptions(ks, r, u, c);
    PostEffect(ks, Exec(ks, subscribed).storage, u, late, "");
    steps := DoPost(ks, subscribed, u, late, "");
    forall t: int64 ensures ks.enc(AppKey.Post(c, t)) !in Exec(ks, steps).posted {
      assert ks.dec(ks.enc(AppKey.Post(c, t))) != ks.dec(ks.enc(AppKey.Post(u, late)));
    }
  }

  lemma {:induction false} KeepPosting(ks: Keys, r: string, u: string, late: int64, c: string, n: nat) returns (steps: seq<Step>)
    requires Distinct(ks) && u != c && n <= LIMIT
    ensures Scene(ks, Exec(ks, steps), r, u, late, c, n)
  {
    if n == 0 {
      steps := SetScene(ks, r, u, late, c);
    } else {
      var before := KeepPosting(ks, r, u, late, c, n - 1);
      steps := DoPost(ks, before, c, n, "");
      OnePostMore(ks, Exec(ks, before), Exec(ks, steps), r, u, late, c, n);
    }
  }

  lemma OnePostMore(ks: Keys, s: State, s': State, r: string, u: string, late: int64, c: string, n: nat)
    requires Distinct(ks) && u != c && 0 < n <= LIMIT && Scene(ks, s, r, u, late, c, n - 1)
    requires s' == s.(storage := Posted(ks, s.storage, c, n, ""), posted := s.posted[ks.enc(AppKey.Post(c, n)) := AppKey.Post(c, n)])
    ensures Scene(ks, s', r, u, late, c, n)
  {
    var k := ks.enc(AppKey.Post(c, n));
    PostEffect(ks, s.storage, c, n, "");
    forall t: int64 | t != n ensures ks.enc(AppKey.Post(c, t)) != k {
      assert ks.dec(ks.enc(AppKey.Post(c, t))) != ks.dec(k);
    }
    forall x | x in Posts(ks, s.storage, c) ensures x != k && PostedEarly(ks, c, n, x) {
      var t: int64 :| 1 <= t <= n - 1 && x == ks.enc(AppKey.Post(c, t));
    }
    assert PostedEarly(ks, c, n, k);
  }

  lemma PostedAtIs(u: string, t: int64)
    ensures PostedAt(FormatPostKey(u, t)) == t
  {
    FormatInjective(Unformat(FormatPostKey(u, t)), AppKey.Post(u, t));
  }

  lemma EarlyTimes(c: string, x: string)
    requires ':' !in c && PostedEarly(StoreKeys(), c, LIMIT, x)
    ensures PostTime(x) > 0 && PostedAt(x) <= LIMIT
  {
    var t: int64 :| 1 <= t <= LIMIT && x == StoreKeys().enc(AppKey.Post(c, t));
    assert x == FormatPostKey(c, t);
    PostKeyRoundTrip(c, t);
    PostedAtIs(c, t);
  }

  ghost predicate FullList(posts: seq<string>) {
    |posts| == LIMIT && forall x | x in posts :: PostTime(x) > 0 && PostedAt(x) <= LIMIT
  }

  /** Every list a home timeline reads has `k` alone, or a hundred older posts that read as newer. */
  ghost predicate OldAndFull(stores: nat -> L.Storage, slist: seq<string>, k: string) {
    && (forall n: nat, x | ListedIn(stores, slist, n, x) :: x == k || PostedAt(x) <= LIMIT)
    && (exists n: nat :: FullCall(stores, slist, n))
  }

  ghost predicate FullCall(stores: nat -> L.Storage, slist: seq<string>, n: nat) {
    n < |slist| && FullList(PostsOf(stores(2 + n), slist[n]))
  }

  /** Every home timeline is full of posts that were made before `k`. */
  ghost predicate NeverShown(stores: nat -> L.Storage, slist: seq<string>, k: string) {
    forall keys | IsTop(PostTime, LIMIT, keys, AllPosts(stores, 2, slist)) :: AllOlder(keys, k)
  }

  ghost predicate AllOlder(keys: seq<string>, k: string) {
    |keys| == LIMIT && forall x | x in keys :: PostedAt(x) < PostedAt(k)
  }

  lemma FullListCrowds(posts: seq<string>, all: multiset<string>, k: string)
    requires FullList(posts) && multiset(posts) <= all && PostTime(k) <= 0
    ensures CrowdedOut(PostTime, LIMIT, all, k) && |all| >= LIMIT
  {
    forall x | x in multiset(posts) ensures PostTime(x) > PostTime(k) { assert x in posts; }
    assert Crowds(PostTime, LIMIT, multiset(posts), all, k);
    SubSize(multiset(posts), all);
  }

  lemma CrowdedByOlder(all: multiset<string>, k: string)
    requires CrowdedOut(PostTime, LIMIT, all, k) && |all| >= LIMIT
    requires PostedAt(k) > LIMIT && forall x | x in all :: x == k || PostedAt(x) <= LIMIT
    ensures forall keys | IsTop(PostTime, LIMIT, keys, all) :: AllOlder(keys, k)
  {
    forall keys | IsTop(PostTime, LIMIT, keys, all) ensures AllOlder(keys, k) {
      CrowdedNotSelected(PostTime, LIMIT, keys, all, k);
      forall x | x in keys ensures PostedAt(x) < PostedAt(k) {
        assert x in multiset(keys);
      }
    }
  }

  lemma MergedIsFull(stores: nat -> L.Storage, slist: seq<string>, k: string, n: nat)
    requires FullCall(stores, slist, n) && PostTime(k) <= 0
    ensures CrowdedOut(PostTime, LIMIT, AllPosts(stores, 2, slist), k) && |AllPosts(stores, 2, slist)| >= LIMIT
  {
    AllPostsHas(stores, 2, slist, n);
    FullListCrowds(PostsOf(stores(2 + n), slist[n]), AllPosts(stores, 2, slist), k);
  }

  lemma MergedIsOld(stores: nat -> L.Storage, slist: seq<string>, k: string, x: string)
    requires OldAndFull(stores, slist, k) && x in AllPosts(stores, 2, slist)
    ensures x == k || PostedAt(x) <= LIMIT
  {
    MergedIsListed(stores, slist, x);
  }

  lemma FullListHides(stores: nat -> L.Storage, slist: seq<string>, k: string)
    requires OldAndFull(stores, slist, k) && PostTime(k) <= 0 && PostedAt(k) > LIMIT
    ensures NeverShown(stores, slist, k)
  {
    forall x | x in AllPosts(stores, 2, slist) ensures x == k || PostedAt(x) <= LIMIT { MergedIsOld(stores, slist, k, x); }
    var n: nat :| FullCall(stores, slist, n);
    MergedIsFull(stores, slist, k, n);
    CrowdedByOlder(AllPosts(stores, 2, slist), k);
  }

  /** One store, at every call. */
  function Still(m: L.Storage): nat -> L.Storage { (n: nat) => m }

  /** With no other request under way, a home timeline of `r` shows a hundred posts older than `k`, a
      post of the subscribed user `u`, and not `k`. */
  ghost predicate LeftOut(m: L.Storage, r: string, u: string, k: string) {
    && FormatUserKey(r) in m && u in Subscriptions(m, r) && k in PostsOf(m, u)
    && NeverShown(Still(m), Subscriptions(m, r), k)
  }

  /** A reader of two users does not see the newest post of all if the name of its author has a colon
      and the time read out of it is not positive: the home timeline is full of older posts. */
  lemma NewestPostLeftOut(r: string, u: string, late: int64, c: string)
    requires ':' in u && PostTime(FormatPostKey(u, 0)) <= 0 && late > LIMIT && ':' !in c
    ensures exists steps :: LeftOut(After(steps).storage, r, u, FormatPostKey(u, late))
  {
    StoreKeysDistinct();
    var steps := KeepPosting(StoreKeys(), r, u, late, c, LIMIT);
    SceneHidesPost(After(steps), r, u, late, c);
  }

  lemma SceneHidesPost(s: State, r: string, u: string, late: int64, c: string)
    requires ':' in u && PostTime(FormatPostKey(u, 0)) <= 0 && late > LIMIT && ':' !in c
    requires Scene(StoreKeys(), s, r, u, late, c, LIMIT)
    ensures LeftOut(s.storage, r, u, FormatPostKey(u, late))
  {
    var m, k := s.storage, FormatPostKey(u, late);
    SceneLists(s, r, u, late, c);
    ColonTimeIsConstant(u, late, 0);
    PostedAtIs(u, late);
    StillLists(m, Subscriptions(m, r), u, c, k);
    FullListHides(Still(m), Subscriptions(m, r), k);
  }

  lemma StillLists(m: L.Storage, slist: seq<string>, u: string, c: string, k: string)
    requires forall v :: v in slist <==> v == u || v == c
    requires (forall x | x in PostsOf(m, u) :: x == k) && FullList(PostsOf(m, c))
    ensures OldAndFull(Still(m), slist, k)
  {
    var stores := Still(m);
    assert c in slist;
    var n: nat :| n < |slist| && slist[n] == c;
    assert FullCall(stores, slist, n);
    forall n: nat, x | ListedIn(stores, slist, n, x) ensures x == k || PostedAt(x) <= LIMIT {
      assert slist[n] in slist;
      assert x in PostsOf(m, slist[n]);
    }
  }

  lemma SceneLists(s: State, r: string, u: string, late: int64, c: string)
    requires ':' !in c && Scene(StoreKeys(), s, r, u, late, c, LIMIT)
    ensures FormatUserKey(r) in s.storage
    ensures forall v :: v in Subscriptions(s.storage, r) <==> v == u || v == c
    ensures forall x :: x in PostsOf(s.storage, u) <==> x == FormatPostKey(u, late)
    ensures FullList(PostsOf(s.storage, c))
  {
    var ks, m := StoreKeys(), s.storage;
    assert Subs(ks, m, r) == Subscriptions(m, r) && Posts(ks, m, u) == PostsOf(m, u) && Posts(ks, m, c) == PostsOf(m, c);
    assert ks.enc(User(r)) == FormatUserKey(r) && ks.enc(AppKey.Post(u, late)) == FormatPostKey(u, late);
    forall x | x in PostsOf(m, c) ensures PostTime(x) > 0 && PostedAt(x) <= LIMIT {
      EarlyTimes(c, x);
    }
  }

  /** Such an author is anyone whose name has one colon and no underscore after it. */
  lemma NoTimeInName(a: string, b: string, t: int64)
    requires ':' !in a && ':' !in b && '_' !in b
    ensures ':' in a + [':'] + b && PostTime(FormatPostKey(a + [':'] + b, t)) == 0
  {
    var u := a + [':'] + b;
    assert u[|a|] == ':';
    SplitJoin(u, Suffix(AppKey.Post(u, t)), ':');
    CutOnce(a, b, ':');
    SplitNone(b, '_');
    assert Split(FormatPostKey(u, t), ':')[1] == b;
  }

  // ---- two posts with one key ----

  /** Runs in which a post may have a key that was used before. */
  function ExecAny(ks: Keys, steps: seq<Step>): State {
    if steps == [] then Init()
    else
      var s := ExecAny(ks, steps[..|steps| - 1]);
      if Possible(s, steps[|steps| - 1]) then Apply(ks, s, steps[|steps| - 1]) else s
  }

  ghost predicate FreshAt(ks: Keys, steps: seq<Step>, w: nat)
    requires w < |steps|
  {
    Possible(ExecAny(ks, steps[..w]), steps[w]) ==> Fresh(ks, ExecAny(ks, steps[..w]), steps[w])
  }

  /** If no user posts twice in one nanosecond, these are the runs of the protocol, with its invariant. */
  lemma {:induction false} FreshRunsKeepInv(ks: Keys, steps: seq<Step>)
    requires Distinct(ks) && forall w: nat | w < |steps| :: FreshAt(ks, steps, w)
    ensures ExecAny(ks, steps) == Exec(ks, steps) && Inv(ks, ExecAny(ks, steps))
  {
    InvHolds(ks, steps);
    if steps != [] {
      var n := |steps| - 1;
      var init := steps[..n];
      forall w: nat | w < n ensures FreshAt(ks, init, w) {
        assert init[..w] == steps[..w] && init[w] == steps[w];
        assert FreshAt(ks, steps, w);
      }
      FreshRunsKeepInv(ks, init);
      assert FreshAt(ks, steps, n);
    }
  }

  lemma GoAny(ks: Keys, steps: seq<Step>, step: Step, s1: State) returns (more: seq<Step>)
    requires Possible(ExecAny(ks, steps), step) && s1 == Apply(ks, ExecAny(ks, steps), step)
    ensures ExecAny(ks, more) == s1
  {
    more := steps + [step];
    assert more[..|steps|] == steps;
  }

  /** A request takes the post off its list. */
  lemma UnlistStates(ks: Keys, s: State, u: string, k: string) returns (s1: State, s2: State)
    requires L.Sorted(s.storage) && ks.enc(User(u)) in s.storage && ks.author(k) == Some(u)
    requires Idle(s) && k in Posts(ks, s.storage, u)
    ensures Possible(s, DeletePost(0, u, k)) && s1 == Apply(ks, s, DeletePost(0, u, k))
    ensures Possible(s1, Continue(0)) && s2 == Apply(ks, s1, Continue(0))
    ensures s2.procs == map[0 := DeleteRemoved(u, k)] && L.Sorted(s2.storage) && ks.enc(User(u)) in s2.storage
  {
    s1 := s.(procs := map[0 := DeleteReady(u, k)]);
    assert Apply(ks, s, DeletePost(0, u, k)) == s1;
    RemoveEffect(s.storage, ks.enc(PostList(u)), k);
    s2 := Apply(ks, s1, Continue(0));
  }

  /** Another request of the user puts it again. */
  lemma RepostStates(ks: Keys, s: State, a: AppKey) returns (s1: State, s2: State)
    requires a.Post? && L.Sorted(s.storage) && ks.enc(User(a.user)) in s.storage
    requires s.procs == map[0 := DeleteRemoved(a.user, ks.enc(a))]
    ensures var again := Step.Post(1, a.user, a.time, ""); Possible(s, again) && s1 == Apply(ks, s, again)
    ensures Possible(s1, Continue(1)) && s2 == Apply(ks, s1, Continue(1))
    ensures s2.procs == map[0 := DeleteRemoved(a.user, ks.enc(a)), 1 := PostStored(a.user, a.time)] && L.Sorted(s2.storage)
  {
    s1 := Apply(ks, s, Step.Post(1, a.user, a.time, ""));
    assert s1.procs[1] == PostReady(a.user, a.time, "");
    s2 := Apply(ks, s1, Continue(1));
    PutEffect(s.storage, ks.enc(a), "");
  }

  /** It is listed again, and then the deletion drops its contents. */
  lemma DropStates(ks: Keys, s: State, a: AppKey) returns (s1: State, s2: State)
    requires Distinct(ks) && a.Post? && L.Sorted(s.storage)
    requires s.procs == map[0 := DeleteRemoved(a.user, ks.enc(a)), 1 := PostStored(a.user, a.time)]
    ensures Possible(s, Continue(1)) && s1 == Apply(ks, s, Continue(1))
    ensures Possible(s1, Continue(0)) && s2 == Apply(ks, s1, Continue(0))
    ensures ks.enc(a) in Posts(ks, s2.storage, a.user) && ks.enc(a) !in s2.storage
  {
    var u, k := a.user, ks.enc(a);
    s1 := Apply(ks, s, Continue(1));
    AppendEffect(s.storage, ks.enc(PostList(u)), k);
    assert k in Posts(ks, s1.storage, u);
    assert s1.procs[0] == DeleteRemoved(u, k);
    s2 := Apply(ks, s1, Continue(0));
    DeleteEffect(s1.storage, k);
    assert ks.dec(ks.enc(PostList(u))) != ks.dec(k);
  }

  /** Two posts with one key, and a deletion between them, leave a listed post without contents: the
      invariant needs that no user posts twice in one nanosecond. */
  lemma RepeatedKeyDangles(u: string, t: int64)
    requires ':' !in u
    ensures exists steps :: FormatPostKey(u, t) in PostsOf(ExecAny(StoreKeys(), steps).storage, u)
                         && FormatPostKey(u, t) !in ExecAny(StoreKeys(), steps).storage
  {
    StoreKeysDistinct();
    PostKeyRoundTrip(u, t);
    var ks, a := StoreKeys(), AppKey.Post(u, t);
    var posted := MakeAny(ks, u, t);
    var s1, s2 := UnlistStates(ks, ExecAny(ks, posted), u, ks.enc(a));
    var s3, s4 := RepostStates(ks, s2, a);
    var s5, s6 := DropStates(ks, s4, a);
    var one := GoAny(ks, posted, DeletePost(0, u, ks.enc(a)), s1);
    var two := GoAny(ks, one, Continue(0), s2);
    var three := GoAny(ks, two, Step.Post(1, u, t, ""), s3);
    var four := GoAny(ks, three, Continue(1), s4);
    var five := GoAny(ks, four, Continue(1), s5);
    var six := GoAny(ks, five, Continue(0), s6);
    assert ks.enc(a) in PostsOf(ExecAny(ks, six).storage, u);
  }

  /** A user is created and posts. */
  lemma MakeAny(ks: Keys, u: string, t: int64) returns (steps: seq<Step>)
    requires Distinct(ks)
    ensures var s := ExecAny(ks, steps);
            && Idle(s) && s.claims == map[] && L.Sorted(s.storage) && ks.enc(User(u)) in s.storage
            && ks.enc(AppKey.Post(u, t)) in Posts(ks, s.storage, u)
  {
    var s0 := Init();
    CreateStates(ks, s0, u);
    var s1 := Apply(ks, s0, CreateUser(0, u));
    var s2 := Apply(ks, s1, Continue(0));
    CreateEffect(ks, s0.storage, u, s2.storage);
    PostStates(ks, s2, u, t, "");
    var s3 := Apply(ks, s2, Step.Post(0, u, t, ""));
    var s4 := Apply(ks, s3, Continue(0));
    var s5 := Apply(ks, s4, Continue(0));
    PostEffect(ks, s2.storage, u, t, "");
    assert ExecAny(ks, []) == s0;
    steps := GoAny(ks, [], CreateUser(0, u), s1);
    steps := GoAny(ks, steps, Continue(0), s2);
    steps := GoAny(ks, steps, Step.Post(0, u, t, ""), s3);
    steps := GoAny(ks, steps, Continue(0), s4);
    steps := GoAny(ks, steps, Continue(0), s5);
  }
}
