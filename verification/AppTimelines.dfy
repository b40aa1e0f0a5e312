/** Timelines among other requests: what a timeline shows when its storage calls are spread over a run. */
module AppTimelines {
  import opened Ordered
  import opened KeyCodec
  import opened AppProtocol
  import opened AppRuns
  import opened Newest
  import opened Timeline
  import L = ListStore

  // ---- the fate of a post ----

  ghost predicate Live(s: State, k: string) {
    k in s.posted && k in s.storage
  }

  ghost predicate Gone(s: State, k: string) {
    k in s.posted && k !in s.storage && k !in s.claims
  }

  /** The step by which a deletion drops the contents of post `k`. */
  ghost predicate Drops(s: State, step: Step, k: string) {
    && step.Continue? && step.id in s.procs
    && s.procs[step.id].DeleteRemoved? && s.procs[step.id].postKey == k
  }

  /** The step by which a request puts the contents of post `k`. */
  ghost predicate Puts(ks: Keys, s: State, step: Step, k: string) {
    && step.Continue? && step.id in s.procs
    && s.procs[step.id].PostReady? && Claim(ks, s.procs[step.id]) == Some(k)
  }

  /** Storage calls about a post come from the request that has claimed it. */
  lemma TargetIsPost(ks: Keys, s: State, id: nat, k: string)
    requires Distinct(ks) && Inv(ks, s) && id in s.procs && k in s.posted && Target(ks, s.procs[id]) == k
    ensures s.procs[id].PostReady? || s.procs[id].DeleteRemoved?
    ensures k in s.claims && s.claims[k] == id
  {
    var a := s.posted[k];
    assert ks.enc(a) == k && ks.dec(k) == a && a.Post?;
    assert s.procs[id].PostReady? || s.procs[id].DeleteRemoved?;
    assert Claim(ks, s.procs[id]) == Some(k);
  }

  /** A stored post is not put again. */
  lemma LiveIsNotPut(ks: Keys, s: State, step: Step, k: string)
    requires ClaimInv(ks, s) && k in s.storage
    ensures !Puts(ks, s, step, k)
  {
  }

  lemma LiveStep(ks: Keys, s: State, step: Step, k: string)
    requires Distinct(ks) && Inv(ks, s) && Enabled(ks, s, step) && Live(s, k) && !Drops(s, step, k)
    ensures Live(Apply(ks, s, step), k) && Apply(ks, s, step).storage[k] == s.storage[k]
  {
    if step.Continue? {
      LiveStorage(ks, s, step.id, k);
      ResumePosted(ks, s, step.id);
    }
  }

  lemma LiveStorage(ks: Keys, s: State, id: nat, k: string)
    requires Distinct(ks) && Inv(ks, s) && id in s.procs && Live(s, k) && !Drops(s, Continue(id), k)
    ensures k in Resume(ks, s, id).storage && Resume(ks, s, id).storage[k] == s.storage[k]
  {
    ResumeChangesTarget(ks, s, id);
    LiveIsNotPut(ks, s, Continue(id), k);
    if Target(ks, s.procs[id]) == k { TargetIsPost(ks, s, id, k); }
    assert L.Lookup(Resume(ks, s, id).storage, k) == L.Lookup(s.storage, k);
  }

  lemma ResumePosted(ks: Keys, s: State, id: nat)
    requires id in s.procs
    ensures Resume(ks, s, id).posted == s.posted
  {
  }

  lemma GoneStep(ks: Keys, s: State, step: Step, k: string)
    requires Distinct(ks) && Inv(ks, s) && Enabled(ks, s, step) && Gone(s, k)
    ensures Gone(Apply(ks, s, step), k) && !Drops(s, step, k)
  {
    if step.Continue? {
      var id := step.id;
      ResumeChangesTarget(ks, s, id);
      if Target(ks, s.procs[id]) == k { TargetIsPost(ks, s, id, k); }
      assert L.Lookup(Resume(ks, s, id).storage, k) == L.Lookup(s.storage, k);
      GoneClaim(ks, s, id, k);
    }
  }

  lemma GoneClaim(ks: Keys, s: State, id: nat, k: string)
    requires Inv(ks, s) && id in s.procs && Gone(s, k)
    ensures k in Resume(ks, s, id).posted && k !in Resume(ks, s, id).claims
  {
    if s.procs[id].DeleteReady? {
      var u := s.procs[id].user;
      RemoveEffect(s.storage, ks.enc(PostList(u)), s.procs[id].postKey);
      assert k !in Posts(ks, s.storage, u);
    }
  }

  lemma DropStep(ks: Keys, s: State, step: Step, k: string)
    requires Inv(ks, s) && Enabled(ks, s, step) && Live(s, k) && Drops(s, step, k)
    ensures Gone(Apply(ks, s, step), k)
  {
    DeleteEffect(s.storage, k);
  }

  // ---- over runs ----

  ghost function At(steps: seq<Step>, w: nat): State {
    After(if w <= |steps| then steps[..w] else steps)
  }

  /** A deletion drops the contents of `k` at a step from `w1` on and before `w2`. */
  ghost predicate Dropped(steps: seq<Step>, w1: nat, w2: nat, k: string) {
    exists i: nat {:trigger DropsAt(steps, i, k)} | w1 <= i < w2 :: DropsAt(steps, i, k)
  }

  ghost predicate DropsAt(steps: seq<Step>, i: nat, k: string) {
    i < |steps| && Drops(At(steps, i), steps[i], k)
  }

  lemma AtNext(steps: seq<Step>, w: nat)
    requires w < |steps|
    ensures At(steps, w + 1)
         == if Enabled(StoreKeys(), At(steps, w), steps[w]) then Apply(StoreKeys(), At(steps, w), steps[w]) else At(steps, w)
  {
    assert steps[..w + 1][..w] == steps[..w];
  }

  /** A request puts the contents of `k` at a step from `w1` on and before `w2`. */
  ghost predicate PutIn(steps: seq<Step>, w1: nat, w2: nat, k: string) {
    exists i: nat {:trigger PutsAt(steps, i, k)} | w1 <= i < w2 :: PutsAt(steps, i, k)
  }

  ghost predicate PutsAt(steps: seq<Step>, i: nat, k: string) {
    i < |steps| && Puts(StoreKeys(), At(steps, i), steps[i], k)
  }

  /** Since `w1`, when it was stored, post `k` has kept its contents until a deletion dropped them, and then
      it is gone for good.  It was not put again. */
  ghost predicate Fate(steps: seq<Step>, w1: nat, w2: nat, k: string) {
    && !PutIn(steps, w1, w2, k)
    && if Dropped(steps, w1, w2, k) then Gone(At(steps, w2), k)
       else Live(At(steps, w2), k) && L.Lookup(At(steps, w2).storage, k) == L.Lookup(At(steps, w1).storage, k)
  }

  lemma FateNext(steps: seq<Step>, w1: nat, w: nat, k: string)
    requires w1 <= w < |steps| && Fate(steps, w1, w, k)
    ensures Fate(steps, w1, w + 1, k)
  {
    Holds(steps[..w]);
    AtNext(steps, w);
    DroppedNext(steps, w1, w, k);
    PutNext(steps, w1, w, k);
    FateStep(StoreKeys(), At(steps, w), steps[w], k, At(steps, w + 1));
  }

  lemma {:induction false} PostFate(steps: seq<Step>, w1: nat, w2: nat, k: string)
    requires w1 <= w2 <= |steps| && Live(At(steps, w1), k)
    ensures Fate(steps, w1, w2, k)
    decreases w2
  {
    if w1 < w2 {
      PostFate(steps, w1, w2 - 1, k);
      FateNext(steps, w1, w2 - 1, k);
    } else {
      FateStart(steps, w1, k);
    }
  }

  lemma FateStart(steps: seq<Step>, w: nat, k: string)
    requires Live(At(steps, w), k)
    ensures Fate(steps, w, w, k)
  {
  }

  /** A post that is stored and was not before has been put in between. */
  lemma {:induction false} StoredWasPut(steps: seq<Step>, w1: nat, w2: nat, a: AppKey)
    requires w1 <= w2 <= |steps| && a.Post?
    requires Format(a) !in At(steps, w1).storage && Format(a) in At(steps, w2).storage
    ensures PutIn(steps, w1, w2, Format(a))
    decreases w2
  {
    var w := w2 - 1;
    AtNext(steps, w);
    if Format(a) in At(steps, w).storage {
      StoredWasPut(steps, w1, w, a);
      var i: nat :| w1 <= i < w && PutsAt(steps, i, Format(a));
    } else {
      Holds(steps[..w]);
      Holds(steps[..w2]);
      assert StoreKeys().enc(a) == Format(a);
      NewlyStored(StoreKeys(), At(steps, w), steps[w], a);
      assert PutsAt(steps, w, Format(a));
    }
  }

  lemma NewlyStored(ks: Keys, s: State, step: Step, a: AppKey)
    requires Distinct(ks) && Inv(ks, s) && Enabled(ks, s, step) && a.Post? && PostedInv(ks, Apply(ks, s, step))
    requires ks.enc(a) !in s.storage && ks.enc(a) in Apply(ks, s, step).storage
    ensures Puts(ks, s, step, ks.enc(a))
  {
    var id := step.id;
    ResumePosted(ks, s, id);
    ResumeChangesTarget(ks, s, id);
    assert L.Lookup(Resume(ks, s, id).storage, ks.enc(a)) != L.Lookup(s.storage, ks.enc(a));
    TargetIsPost(ks, s, id, ks.enc(a));
    if s.procs[id].DeleteRemoved? { DeleteEffect(s.storage, ks.enc(a)); }
  }

  lemma DroppedNext(steps: seq<Step>, w1: nat, w: nat, k: string)
    requires w1 <= w < |steps|
    ensures Dropped(steps, w1, w + 1, k) <==> Dropped(steps, w1, w, k) || Drops(At(steps, w), steps[w], k)
  {
    assert DropsAt(steps, w, k) <==> Drops(At(steps, w), steps[w], k);
  }

  lemma PutNext(steps: seq<Step>, w1: nat, w: nat, k: string)
    requires w1 <= w < |steps|
    ensures PutIn(steps, w1, w + 1, k) <==> PutIn(steps, w1, w, k) || Puts(StoreKeys(), At(steps, w), steps[w], k)
  {
    assert PutsAt(steps, w, k) <==> Puts(StoreKeys(), At(steps, w), steps[w], k);
  }

  lemma FateStep(ks: Keys, s: State, step: Step, k: string, s': State)
    requires Inv(ks, s) && Distinct(ks) && (Live(s, k) || Gone(s, k))
    requires s' == if Enabled(ks, s, step) then Apply(ks, s, step) else s
    ensures Live(s, k) && !Drops(s, step, k) ==> Live(s', k) && s'.storage[k] == s.storage[k]
    ensures Live(s, k) && Drops(s, step, k) ==> Gone(s', k)
    ensures Gone(s, k) ==> Gone(s', k) && !Drops(s, step, k)
    ensures !Puts(ks, s, step, k)
  {
    if Live(s, k) { LiveIsNotPut(ks, s, step, k); }
    if Enabled(ks, s, step) {
      if Gone(s, k) {
        GoneStep(ks, s, step, k);
      } else if Drops(s, step, k) {
        DropStep(ks, s, step, k);
      } else {
        LiveStep(ks, s, step, k);
      }
    }
  }

  /** Between the moment `w1` at which a list was read and the moment `w2`, post `k` was dropped; or, if
      `w2` is the earlier one, it had not been put by then. */
  ghost predicate Missing(steps: seq<Step>, w1: nat, w2: nat, k: string) {
    if w1 <= w2 then Dropped(steps, w1, w2, k) else PutIn(steps, w2, w1, k)
  }

  /** A listed post is there at another moment, with the same contents, exactly if no deletion has dropped
      it by then and, for an earlier moment, it had been put by then. */
  lemma ListedPostIsThereIff(steps: seq<Step>, w1: nat, w2: nat, u: string, k: string)
    requires w1 <= |steps| && w2 <= |steps| && k in PostsOf(At(steps, w1).storage, u)
    ensures k in At(steps, w1).storage
    ensures k in At(steps, w2).storage <==> !Missing(steps, w1, w2, k)
    ensures k in At(steps, w2).storage ==> At(steps, w2).storage[k] == At(steps, w1).storage[k]
  {
    ListedIsLive(steps, w1, u, k);
    if w1 <= w2 {
      PostFate(steps, w1, w2, k);
    } else {
      var t := ListedPost(steps, w1, u, k);
      if k in At(steps, w2).storage {
        Holds(steps[..w2]);
        StoredIsLive(StoreKeys(), At(steps, w2), AppKey.Post(u, t));
        PostFate(steps, w2, w1, k);
      } else {
        StoredWasPut(steps, w2, w1, AppKey.Post(u, t));
      }
    }
  }

  lemma ListedIsLive(steps: seq<Step>, w: nat, u: string, k: string)
    requires k in PostsOf(At(steps, w).storage, u)
    ensures Live(At(steps, w), k)
  {
    Holds(if w <= |steps| then steps[..w] else steps);
    assert k in Posts(StoreKeys(), At(steps, w).storage, u);
  }

  lemma StoredIsLive(ks: Keys, s: State, a: AppKey)
    requires PostedInv(ks, s) && a.Post? && ks.enc(a) in s.storage
    ensures Live(s, ks.enc(a))
  {
  }

  // ---- timelines ----

  /** The storage calls of a request during a run: the answer to call `n` reflects the store `stores(n)`
      that there is after `at(n)` steps.  That is the moment of the call if the server answers it, and
      an earlier one if the answer comes from the client's cache, so the moments need not be in order. */
  ghost predicate Moments(steps: seq<Step>, at: nat -> nat, stores: nat -> L.Storage) {
    forall n: nat {:trigger Reflects(steps, at, stores, n)} :: Reflects(steps, at, stores, n)
  }

  ghost predicate Reflects(steps: seq<Step>, at: nat -> nat, stores: nat -> L.Storage, n: nat) {
    at(n) <= |steps| && stores(n) == At(steps, at(n)).storage
  }

  /** A user's timeline answers with posts exactly if none of them is missing at the moment of its own
      answer: deleted since the moment of the list, or not yet put. */
  lemma UserTimelineSucceedsIff(steps: seq<Step>, at: nat -> nat, stores: nat -> L.Storage, user: string, reply: TimelineReply, keys: seq<string>)
    requires Moments(steps, at, stores) && UserAnswer(stores, user, reply, keys) && !reply.NoSuchUser?
    ensures reply.Found? <==> forall i: nat | i < |keys| :: !Missing(steps, at(1), at(2 + i), keys[i])
  {
    var posts := PostsOf(stores(1), user);
    TopIsFrom(PostTime, LIMIT, keys, multiset(posts));
    assert forall i | 0 <= i < |keys| :: keys[i] in posts;
    ListedSucceedsIff(steps, at, stores, user, reply, keys);
  }

  lemma ListedSucceedsIff(steps: seq<Step>, at: nat -> nat, stores: nat -> L.Storage, user: string, reply: TimelineReply, keys: seq<string>)
    requires Moments(steps, at, stores) && Fetched(stores, 2, keys, reply)
    requires forall i | 0 <= i < |keys| :: keys[i] in PostsOf(stores(1), user)
    ensures reply.Found? <==> forall i: nat | i < |keys| :: !Missing(steps, at(1), at(2 + i), keys[i])
  {
    forall i: nat | i < |keys| ensures keys[i] in stores(2 + i) <==> !Missing(steps, at(1), at(2 + i), keys[i]) {
      assert Reflects(steps, at, stores, 1) && Reflects(steps, at, stores, 2 + i);
      ListedPostIsThereIff(steps, at(1), at(2 + i), user, keys[i]);
    }
    FoundIff(stores, 2, keys, reply);
  }

  lemma FoundIff(stores: nat -> L.Storage, first: nat, keys: seq<string>, reply: TimelineReply)
    requires Fetched(stores, first, keys, reply)
    ensures reply.Found? <==> forall i: nat | i < |keys| :: keys[i] in stores(first + i)
  {
    if reply.Found? {
      forall i: nat | i < |keys| ensures keys[i] in stores(first + i) {
        assert Rendered(stores(first + i), keys[i], reply.posts[i]);
      }
    } else {
      var i: nat :| i < |keys| && keys[i] == reply.key && StopsAt(stores, first, keys, i);
    }
  }

  /** The list read in call `2 + n` has post `k`. */
  ghost predicate ListedIn(stores: nat -> L.Storage, slist: seq<string>, n: nat, k: string) {
    n < |slist| && k in PostsOf(stores(2 + n), slist[n])
  }

  ghost predicate Listed(stores: nat -> L.Storage, slist: seq<string>, k: string) {
    exists n: nat :: ListedIn(stores, slist, n, k)
  }

  lemma MergedIsListed(stores: nat -> L.Storage, slist: seq<string>, k: string)
    requires k in AllPosts(stores, 2, slist)
    ensures Listed(stores, slist, k)
  {
    var n := AllPostsFrom(stores, 2, slist, k);
    assert ListedIn(stores, slist, n, k);
  }

  ghost predicate AllListed(stores: nat -> L.Storage, slist: seq<string>, keys: seq<string>) {
    forall k | k in keys :: Listed(stores, slist, k)
  }

  lemma ShownAreListed(stores: nat -> L.Storage, slist: seq<string>, keys: seq<string>)
    requires IsTop(PostTime, LIMIT, keys, AllPosts(stores, 2, slist))
    ensures AllListed(stores, slist, keys)
  {
    forall k | k in keys ensures Listed(stores, slist, k) {
      assert k in multiset(keys);
      MergedIsListed(stores, slist, k);
    }
  }

  /** Post `k`, by any list that has it, is not missing in call `m`. */
  ghost predicate ThereIn(steps: seq<Step>, at: nat -> nat, stores: nat -> L.Storage, slist: seq<string>, m: nat, k: string) {
    forall n: nat | ListedIn(stores, slist, n, k) :: !Missing(steps, at(2 + n), at(m), k)
  }

  /** No post is missing in the call that fetches it. */
  ghost predicate AllThere(steps: seq<Step>, at: nat -> nat, stores: nat -> L.Storage, slist: seq<string>, keys: seq<string>) {
    forall i: nat | i < |keys| :: ThereIn(steps, at, stores, slist, 2 + |slist| + i, keys[i])
  }

  lemma ThereIff(steps: seq<Step>, at: nat -> nat, stores: nat -> L.Storage, slist: seq<string>, m: nat, k: string)
    requires Moments(steps, at, stores) && 2 + |slist| <= m && Listed(stores, slist, k)
    ensures k in stores(m) <==> ThereIn(steps, at, stores, slist, m, k)
  {
    forall n: nat | ListedIn(stores, slist, n, k) ensures k in stores(m) <==> !Missing(steps, at(2 + n), at(m), k) {
      assert Reflects(steps, at, stores, 2 + n) && Reflects(steps, at, stores, m);
      ListedPostIsThereIff(steps, at(2 + n), at(m), slist[n], k);
    }
  }

  /** And so does a home timeline, where each post counts from the call that read its list. */
  lemma HomeTimelineSucceedsIff(steps: seq<Step>, at: nat -> nat, stores: nat -> L.Storage, user: string, reply: TimelineReply, keys: seq<string>)
    requires Moments(steps, at, stores) && HomeAnswer(stores, user, reply, keys) && !reply.NoSuchUser?
    ensures reply.Found? <==> AllThere(steps, at, stores, Subscriptions(stores(1), user), keys)
  {
    var slist := Subscriptions(stores(1), user);
    ShownAreListed(stores, slist, keys);
    MergedSucceedsIff(steps, at, stores, slist, reply, keys);
  }

  lemma MergedSucceedsIff(steps: seq<Step>, at: nat -> nat, stores: nat -> L.Storage, slist: seq<string>, reply: TimelineReply, keys: seq<string>)
    requires Moments(steps, at, stores) && Fetched(stores, 2 + |slist|, keys, reply) && AllListed(stores, slist, keys)
    ensures reply.Found? <==> AllThere(steps, at, stores, slist, keys)
  {
    FoundIff(stores, 2 + |slist|, keys, reply);
    forall i: nat | i < |keys|
      ensures keys[i] in stores(2 + |slist| + i) <==> ThereIn(steps, at, stores, slist, 2 + |slist| + i, keys[i])
    {
      ThereIff(steps, at, stores, slist, 2 + |slist| + i, keys[i]);
    }
  }

  // ---- by whom and when ----

  /** When the post with this key was made. */
  ghost function PostedAt(k: string): int {
    if Unformat(k).Post? then Unformat(k).time else 0
  }

  /** A listed key is the key of a post of that user. */
  lemma ListedPost(steps: seq<Step>, w: nat, u: string, k: string) returns (t: int64)
    requires k in PostsOf(At(steps, w).storage, u)
    ensures k == FormatPostKey(u, t) && t == PostedAt(k)
  {
    ListedPostsAreStored(if w <= |steps| then steps[..w] else steps, u, k);
    t :| k == FormatPostKey(u, t);
    FormatInjective(Unformat(k), AppKey.Post(u, t));
  }

  /** A timeline shows a post under its author and time exactly if the author's name has no colon. */
  lemma ShownAsPostedIff(u: string, t: int64, m: L.Storage)
    requires FormatPostKey(u, t) in m
    ensures var k := FormatPostKey(u, t);
            Render(m, k) == Post.Post(u, FormatInt(t), Text(m, k)) <==> ':' !in u
  {
    PostKeyRoundTrip(u, t);
  }

  /** The time read out of a key is the time of posting for a user without a colon in the name, and
      for any other user it is the same for all posts. */
  lemma ListedTimes(steps: seq<Step>, w: nat, u: string, k: string)
    requires k in PostsOf(At(steps, w).storage, u)
    ensures ':' !in u ==> PostTime(k) == PostedAt(k)
    ensures ':' in u ==> PostTime(k) == PostTime(FormatPostKey(u, 0))
  {
    var t := ListedPost(steps, w, u, k);
    PostKeyRoundTrip(u, t);
    if ':' in u { ColonTimeIsConstant(u, t, 0); }
  }

  /** Two listed posts of a user were made at different times. */
  lemma PostingTimesDiffer(steps: seq<Step>, w: nat, u: string)
    requires |PostsOf(At(steps, w).storage, u)| > 1
    ensures var posts := PostsOf(At(steps, w).storage, u); PostedAt(posts[0]) != PostedAt(posts[1])
  {
    var posts := PostsOf(At(steps, w).storage, u);
    Holds(if w <= |steps| then steps[..w] else steps);
    StringOrder();
    assert posts[0] != posts[1];
    var t0 := ListedPost(steps, w, u, posts[0]);
    var t1 := ListedPost(steps, w, u, posts[1]);
  }

  /** Whatever the sort does with ties, a user's timeline shows the newest posts by the time of
      posting, in that order, exactly if the user's name has no colon or there is but one post. */
  lemma UserTimelineIsChronologicalIff(steps: seq<Step>, w: nat, u: string)
    ensures var posts := PostsOf(At(steps, w).storage, u);
            (forall keys | IsTop(PostTime, LIMIT, keys, multiset(posts)) :: IsTop(PostedAt, LIMIT, keys, multiset(posts)))
              <==> ':' !in u || |posts| <= 1
  {
    SelectionIsActualIff(PostTime, PostedAt, LIMIT, multiset(PostsOf(At(steps, w).storage, u)));
    UserTimesTrustedIff(steps, w, u);
  }

  lemma UserTimesTrustedIff(steps: seq<Step>, w: nat, u: string)
    ensures var posts := PostsOf(At(steps, w).storage, u);
            Trustworthy(PostTime, PostedAt, LIMIT, multiset(posts)) <==> ':' !in u || |posts| <= 1
  {
    var posts := PostsOf(At(steps, w).storage, u);
    forall x | x in multiset(posts)
      ensures ':' !in u ==> PostTime(x) == PostedAt(x)
      ensures ':' in u ==> PostTime(x) == PostTime(FormatPostKey(u, 0))
    {
      assert x in posts;
      ListedTimes(steps, w, u, x);
    }
    if ':' !in u {
      EqualTimesTrusted(PostTime, PostedAt, LIMIT, multiset(posts));
    } else if |posts| > 1 {
      PostingTimesDiffer(steps, w, u);
      FirstTwoTied(posts);
    } else {
      AtMostOneTrusted(posts);
    }
  }

  lemma FirstTwoTied(posts: seq<string>)
    requires |posts| > 1 && PostedAt(posts[0]) != PostedAt(posts[1])
    requires forall x, y | x in multiset(posts) && y in multiset(posts) :: PostTime(x) == PostTime(y)
    ensures !Trustworthy(PostTime, PostedAt, LIMIT, multiset(posts))
  {
    var m := multiset(posts);
    assert posts[0] in m && posts[1] in m;
    if PostedAt(posts[0]) < PostedAt(posts[1]) {
      TiesNotTrusted(PostTime, PostedAt, LIMIT, m, posts[0], posts[1]);
    } else {
      TiesNotTrusted(PostTime, PostedAt, LIMIT, m, posts[1], posts[0]);
    }
  }

  lemma AtMostOneTrusted(posts: seq<string>)
    requires |posts| <= 1
    ensures Trustworthy(PostTime, PostedAt, LIMIT, multiset(posts))
  {
    assert forall x | x in multiset(posts) :: x in posts && x == posts[0];
  }

  /** A home timeline whose subscriptions have no colon in their names shows the newest posts of all by
      the time of posting, in that order, each under its author, its time and the contents it had when
      its list was read. */
  lemma HomeTimelineIsChronological(steps: seq<Step>, at: nat -> nat, stores: nat -> L.Storage, user: string, reply: TimelineReply, keys: seq<string>)
    requires Moments(steps, at, stores) && HomeAnswer(stores, user, reply, keys) && !reply.NoSuchUser?
    requires NoColons(Subscriptions(stores(1), user))
    ensures IsTop(PostedAt, LIMIT, keys, AllPosts(stores, 2, Subscriptions(stores(1), user)))
    ensures reply.Found? ==> AllShown(stores, Subscriptions(stores(1), user), keys, reply.posts)
  {
    var slist := Subscriptions(stores(1), user);
    ShownAreListed(stores, slist, keys);
    if reply.Found? { FetchedIsShown(steps, at, stores, slist, reply, keys); }
    HomeTimesTrusted(steps, at, stores, slist);
    TrustedTop(PostTime, PostedAt, LIMIT, keys, AllPosts(stores, 2, slist));
  }

  ghost predicate NoColons(slist: seq<string>) {
    forall v | v in slist :: ':' !in v
  }

  /** The post is shown as one of a subscribed user, with the contents it had when that list was read. */
  ghost predicate ShownAsListed(stores: nat -> L.Storage, slist: seq<string>, k: string, post: Post) {
    exists n: nat, t: int64 :: ShownFromCall(stores, slist, n, k, t, post)
  }

  ghost predicate ShownFromCall(stores: nat -> L.Storage, slist: seq<string>, n: nat, k: string, t: int64, post: Post) {
    ListedIn(stores, slist, n, k) && ShownFrom(stores(2 + n), k, slist[n], t, post)
  }

  ghost predicate ShownFrom(m: L.Storage, k: string, u: string, t: int64, post: Post) {
    k == FormatPostKey(u, t) && k in m && post == Post.Post(u, FormatInt(t), Text(m, k))
  }

  ghost predicate AllShown(stores: nat -> L.Storage, slist: seq<string>, keys: seq<string>, posts: seq<Post>) {
    |posts| == |keys| && forall i: nat | i < |keys| :: ShownAsListed(stores, slist, keys[i], posts[i])
  }

  lemma FetchedIsShown(steps: seq<Step>, at: nat -> nat, stores: nat -> L.Storage, slist: seq<string>, reply: TimelineReply, keys: seq<string>)
    requires Moments(steps, at, stores) && NoColons(slist) && AllListed(stores, slist, keys)
    requires Fetched(stores, 2 + |slist|, keys, reply) && reply.Found?
    ensures AllShown(stores, slist, keys, reply.posts)
  {
    forall i: nat | i < |keys| ensures ShownAsListed(stores, slist, keys[i], reply.posts[i]) {
      assert Rendered(stores(2 + |slist| + i), keys[i], reply.posts[i]);
      ShownIsListed(steps, at, stores, slist, 2 + |slist| + i, keys[i], reply.posts[i]);
    }
  }

  lemma ShownIsListed(steps: seq<Step>, at: nat -> nat, stores: nat -> L.Storage, slist: seq<string>, m: nat, k: string, post: Post)
    requires Moments(steps, at, stores) && NoColons(slist) && 2 + |slist| <= m
    requires Rendered(stores(m), k, post) && Listed(stores, slist, k)
    ensures ShownAsListed(stores, slist, k, post)
  {
    var n: nat :| ListedIn(stores, slist, n, k);
    assert Reflects(steps, at, stores, 2 + n) && Reflects(steps, at, stores, m);
    assert slist[n] in slist;
    var t := ShownFromList(steps, at(2 + n), at(m), slist[n], k, post);
    assert ShownFromCall(stores, slist, n, k, t, post);
  }

  lemma ShownFromList(steps: seq<Step>, w1: nat, w2: nat, u: string, k: string, post: Post) returns (t: int64)
    requires w1 <= |steps| && w2 <= |steps| && k in PostsOf(At(steps, w1).storage, u)
    requires Rendered(At(steps, w2).storage, k, post)
    ensures k == FormatPostKey(u, t)
    ensures ShownFrom(At(steps, w1).storage, k, u, t, post) <==> ':' !in u
  {
    t := ListedPost(steps, w1, u, k);
    ListedPostIsThereIff(steps, w1, w2, u, k);
    ShownAsPostedIff(u, t, At(steps, w2).storage);
  }

  /** A user's timeline shows each post under that user, the time of posting and the contents it had
      when the list was read, exactly if the user's name has no colon. */
  lemma UserTimelineShowsPostsIff(
    steps: seq<Step>, at: nat -> nat, stores: nat -> L.Storage, user: string, reply: TimelineReply, keys: seq<string>, i: nat)
    returns (t: int64)
    requires Moments(steps, at, stores) && UserAnswer(stores, user, reply, keys) && reply.Found? && i < |keys|
    ensures keys[i] == FormatPostKey(user, t) && |reply.posts| == |keys|
    ensures ShownFrom(stores(1), keys[i], user, t, reply.posts[i]) <==> ':' !in user
  {
    TopIsFrom(PostTime, LIMIT, keys, multiset(PostsOf(stores(1), user)));
    assert Rendered(stores(2 + i), keys[i], reply.posts[i]);
    assert Reflects(steps, at, stores, 1) && Reflects(steps, at, stores, 2 + i);
    t := ShownFromList(steps, at(1), at(2 + i), user, keys[i], reply.posts[i]);
  }

  lemma HomeTimesTrusted(steps: seq<Step>, at: nat -> nat, stores: nat -> L.Storage, slist: seq<string>)
    requires Moments(steps, at, stores) && NoColons(slist)
    ensures Trustworthy(PostTime, PostedAt, LIMIT, AllPosts(stores, 2, slist))
  {
    var m := AllPosts(stores, 2, slist);
    forall k | k in m ensures PostTime(k) == PostedAt(k) {
      MergedIsListed(stores, slist, k);
      MergedTime(steps, at, stores, slist, k);
    }
    EqualTimesTrusted(PostTime, PostedAt, LIMIT, m);
  }

  lemma MergedTime(steps: seq<Step>, at: nat -> nat, stores: nat -> L.Storage, slist: seq<string>, k: string)
    requires Moments(steps, at, stores) && NoColons(slist) && Listed(stores, slist, k)
    ensures PostTime(k) == PostedAt(k)
  {
    var n: nat :| ListedIn(stores, slist, n, k);
    assert slist[n] in slist;
    assert Reflects(steps, at, stores, 2 + n);
    ListedTimes(steps, at(2 + n), slist[n], k);
  }

  /** The author of the post with this key has a colon in the name. */
  ghost predicate ByColonUser(k: string) {
    ':' in Unformat(k).user
  }

  /** No post that can be shown stands, by the time in its key, before or level with a newer one, where
      one of the two is by a user with a colon in the name. */
  ghost predicate ColonPostsInPlace(all: multiset<string>) {
    forall x, y | x in all && y in all && PostTime(x) >= PostTime(y) && PostedAt(x) < PostedAt(y) && (ByColonUser(x) || ByColonUser(y)) ::
      CrowdedOut(PostTime, LIMIT, all, x)
  }

  /** Whatever the sort does with ties, a home timeline shows the newest posts by the time of posting, in
      that order, exactly if the posts of users with a colon are in place. */
  lemma HomeTimelineIsChronologicalIff(steps: seq<Step>, at: nat -> nat, stores: nat -> L.Storage, slist: seq<string>)
    requires Moments(steps, at, stores)
    ensures var all := AllPosts(stores, 2, slist);
            (forall keys | IsTop(PostTime, LIMIT, keys, all) :: IsTop(PostedAt, LIMIT, keys, all)) <==> ColonPostsInPlace(all)
  {
    var all := AllPosts(stores, 2, slist);
    forall k | k in all && !ByColonUser(k) ensures PostTime(k) == PostedAt(k) {
      MergedIsListed(stores, slist, k);
      OtherTime(steps, at, stores, slist, k);
    }
    InPlaceIsTrusted(all);
    SelectionIsActualIff(PostTime, PostedAt, LIMIT, all);
  }

  lemma InPlaceIsTrusted(all: multiset<string>)
    requires forall k | k in all && !ByColonUser(k) :: PostTime(k) == PostedAt(k)
    ensures Trustworthy(PostTime, PostedAt, LIMIT, all) <==> ColonPostsInPlace(all)
  {
    if ColonPostsInPlace(all) {
      forall x, y | x in all && y in all && PostTime(x) >= PostTime(y) && PostedAt(x) < PostedAt(y)
        ensures CrowdedOut(PostTime, LIMIT, all, x)
      {
        assert ByColonUser(x) || ByColonUser(y);
      }
    }
  }

  lemma OtherTime(steps: seq<Step>, at: nat -> nat, stores: nat -> L.Storage, slist: seq<string>, k: string)
    requires Moments(steps, at, stores) && Listed(stores, slist, k) && !ByColonUser(k)
    ensures PostTime(k) == PostedAt(k)
  {
    var n: nat :| ListedIn(stores, slist, n, k);
    assert Reflects(steps, at, stores, 2 + n);
    var t := ListedPost(steps, at(2 + n), slist[n], k);
    FormatInjective(Unformat(k), AppKey.Post(slist[n], t));
    ListedTimes(steps, at(2 + n), slist[n], k);
  }
}
