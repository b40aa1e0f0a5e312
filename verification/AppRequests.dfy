/** What each request does and answers, when nothing else runs between its storage calls. */
module AppRequests {
  import opened Ordered
  import opened KeyCodec
  import opened AppProtocol
  import opened AppRuns
  import opened AppTimelines
  import opened AppEffects
  import L = ListStore

  // ---- the answers ----

  datatype AppStatus = Done | NoSuchUser | NoSuchTargetUser | NoSuchPost | Exists

  /** What a request answers if this step is its last. */
  function Answer(ks: Keys, s: State, step: Step): Option<AppStatus>
    requires Possible(s, step)
  {
    match step
    case CreateUser(_, u) => if ks.enc(User(u)) in s.storage then Some(Exists) else None
    case DeletePost(_, u, k) =>
      if ks.enc(User(u)) !in s.storage then Some(NoSuchUser)
      else if ks.author(k) != Some(u) then Some(NoSuchPost) else None
    case Continue(id) => Final(ks, s, s.procs[id])
    case _ => if ks.enc(User(step.user)) in s.storage then None else Some(NoSuchUser)
  }

  function Final(ks: Keys, s: State, p: Process): Option<AppStatus> {
    match p
    case CreateReady(_) => Some(Done)
    case SubscribeAsked(_, v) => if ks.enc(User(v)) in s.storage then None else Some(NoSuchTargetUser)
    case SubscribeReady(u, v) =>
      if L.Reply(s.storage, ks.enc(SubList(u)), L.AppendToList(v)) == L.OK then Some(Done) else Some(Exists)
    case UnsubscribeAsked(_, v) => if ks.enc(User(v)) in s.storage then None else Some(NoSuchTargetUser)
    case UnsubscribeReady(u, v) =>
      if L.Reply(s.storage, ks.enc(SubList(u)), L.RemoveFromList(v)) == L.OK then Some(Done) else Some(NoSuchTargetUser)
    case PostReady(_, _, _) => None
    case PostStored(_, _) => Some(Done)
    case DeleteReady(u, k) =>
      if L.Reply(s.storage, ks.enc(PostList(u)), L.RemoveFromList(k)) == L.OK then None else Some(NoSuchPost)
    case DeleteRemoved(_, k) => if L.Reply(s.storage, k, L.Delete) == L.OK then Some(Done) else Some(NoSuchPost)
  }

  /** A request answers exactly when it ends. */
  lemma AnswersWhenItEnds(ks: Keys, s: State, step: Step)
    requires Enabled(ks, s, step)
    ensures Answer(ks, s, step).Some? <==> step.id !in Apply(ks, s, step).procs
  {
  }

  /** A request of an unknown user, to create a known one, or to delete under another's name changes nothing,
      and no other first call ends a request. */
  lemma FirstCall(ks: Keys, s: State, step: Step)
    requires Enabled(ks, s, step) && !step.Continue?
    ensures var known := ks.enc(User(step.user)) in s.storage;
            var refused := if step.CreateUser? then known else !known || (step.DeletePost? && ks.author(step.postKey) != Some(step.user));
            && Apply(ks, s, step).storage == s.storage
            && (refused ==> Apply(ks, s, step) == s && Answer(ks, s, step).Some? && Answer(ks, s, step) != Some(Done))
            && (!refused ==> step.id in Apply(ks, s, step).procs && Answer(ks, s, step).None?)
  {
  }

  /** The answer tells whether a name or a post was on the list, or came onto it. */
  lemma FinalTellsMembership(ks: Keys, s: State, id: nat)
    requires Distinct(ks) && Inv(ks, s) && id in s.procs
    ensures var p, answer := s.procs[id], Answer(ks, s, Continue(id));
            && (p.SubscribeReady? ==> answer == Some(if p.target in Subs(ks, s.storage, p.user) then Exists else Done))
            && (p.UnsubscribeReady? ==> answer == Some(if p.target in Subs(ks, s.storage, p.user) then Done else NoSuchTargetUser))
            && (p.DeleteReady? ==> answer == if p.postKey in Posts(ks, s.storage, p.user) then None else Some(NoSuchPost))
            && (p.DeleteRemoved? ==> answer == Some(Done))
            && (p.CreateReady? || p.PostStored? ==> answer == Some(Done))
  {
    var p := s.procs[id];
    match p
    case SubscribeReady(u, v) => L.PlanRefinesSets(L.Lookup(s.storage, ks.enc(SubList(u))), L.AppendToList(v));
    case UnsubscribeReady(u, v) => RemoveEffect(s.storage, ks.enc(SubList(u)), v);
    case DeleteReady(u, k) => RemoveEffect(s.storage, ks.enc(PostList(u)), k);
    case DeleteRemoved(_, k) =>
      RemovedIsStored(ks, s, id);
      DeleteEffect(s.storage, k);
    case _ =>
  }

  // ---- requests that run alone ----

  /** The same users, subscriptions and posts, listed and stored, apart from what is named. */
  ghost predicate SameBut(ks: Keys, m: Storage, n: Storage, user: Option<string>, subs: Option<string>, posts: Option<string>, post: Option<AppKey>) {
    && (forall u | user != Some(u) :: ks.enc(User(u)) in n <==> ks.enc(User(u)) in m)
    && (forall u | subs != Some(u) :: Subs(ks, n, u) == Subs(ks, m, u))
    && (forall u | posts != Some(u) :: Posts(ks, n, u) == Posts(ks, m, u))
    && (forall a: AppKey | a.Post? && post != Some(a) :: L.Lookup(n, ks.enc(a)) == L.Lookup(m, ks.enc(a)))
  }

  function Changed(a: AppKey, isOne: bool): Option<string> {
    if isOne then Some(a.user) else None
  }

  lemma SameAt(ks: Keys, m: Storage, n: Storage, a: AppKey)
    requires Distinct(ks) && OnlyAt(m, n, ks.enc(a))
    ensures SameBut(ks, m, n, Changed(a, a.User?), Changed(a, a.SubList?), Changed(a, a.PostList?), if a.Post? then Some(a) else None)
  {
    FrameAt(ks, m, n, a);
    forall b: AppKey | b.Post? && b != a ensures L.Lookup(n, ks.enc(b)) == L.Lookup(m, ks.enc(b)) { FrameLookup(ks, m, n, a, b); }
  }

  lemma SameTwice(ks: Keys, m: Storage, m1: Storage, n: Storage, u: string, a: AppKey)
    requires || (SameBut(ks, m, m1, None, None, None, Some(a)) && SameBut(ks, m1, n, None, None, Some(u), None))
             || (SameBut(ks, m, m1, None, None, Some(u), None) && SameBut(ks, m1, n, None, None, None, Some(a)))
    ensures SameBut(ks, m, n, None, None, Some(u), Some(a))
  {
  }

  /** The request runs to its end while no other request moves. */
  function Alone(ks: Keys, s: State, step: Step): State
    requires Possible(s, step)
  {
    Rest(ks, Apply(ks, s, step), step.id, 2)
  }

  function Rest(ks: Keys, s: State, id: nat, n: nat): State
    decreases n
  {
    if n == 0 || id !in s.procs then s else Rest(ks, Resume(ks, s, id), id, n - 1)
  }

  /** How many storage calls a request has still to make. */
  function CallsLeft(p: Process): nat {
    match p
    case SubscribeAsked(_, _) => 2
    case UnsubscribeAsked(_, _) => 2
    case PostReady(_, _, _) => 2
    case DeleteReady(_, _) => 2
    case _ => 1
  }

  lemma OneCallLess(ks: Keys, s: State, id: nat)
    requires id in s.procs
    ensures id in Resume(ks, s, id).procs ==> CallsLeft(Resume(ks, s, id).procs[id]) < CallsLeft(s.procs[id])
  {
  }

  lemma {:induction false} RestEnds(ks: Keys, s: State, id: nat, n: nat)
    requires id in s.procs ==> CallsLeft(s.procs[id]) <= n
    ensures id !in Rest(ks, s, id, n).procs
    decreases n
  {
    if id in s.procs {
      OneCallLess(ks, s, id);
      RestEnds(ks, Resume(ks, s, id), id, n - 1);
    }
  }

  /** No request makes more than three storage calls. */
  lemma AloneEnds(ks: Keys, s: State, step: Step)
    requires Enabled(ks, s, step) && !step.Continue?
    ensures step.id !in Alone(ks, s, step).procs
  {
    RestEnds(ks, Apply(ks, s, step), step.id, 2);
  }

  lemma AloneCreate(ks: Keys, s: State, id: nat, u: string)
    requires Distinct(ks) && Inv(ks, s) && Enabled(ks, s, CreateUser(id, u))
    ensures var m, n := s.storage, Alone(ks, s, CreateUser(id, u)).storage;
            ks.enc(User(u)) in n && SameBut(ks, m, n, Some(u), None, None, None)
  {
    var m := s.storage;
    if ks.enc(User(u)) !in m {
      PutEffect(m, ks.enc(User(u)), "");
      SameAt(ks, m, m[ks.enc(User(u)) := [""]], User(u));
      assert Alone(ks, s, CreateUser(id, u)).storage == m[ks.enc(User(u)) := [""]];
    }
  }

  lemma SubscribeStates(ks: Keys, s: State, id: nat, u: string, v: string)
    requires Enabled(ks, s, Subscribe(id, u, v))
    ensures Alone(ks, s, Subscribe(id, u, v)).storage
         == if ks.enc(User(u)) in s.storage && ks.enc(User(v)) in s.storage
            then L.Apply(s.storage, ks.enc(SubList(u)), L.AppendToList(v)) else s.storage
  {
    if ks.enc(User(u)) in s.storage {
      var s1 := Apply(ks, s, Subscribe(id, u, v));
      assert s1.procs[id] == SubscribeAsked(u, v);
      assert Alone(ks, s, Subscribe(id, u, v)) == Rest(ks, Resume(ks, s1, id), id, 1);
    }
  }

  /** A subscription puts the target on the list if both users exist, and changes nothing else. */
  lemma AloneSubscribe(ks: Keys, s: State, id: nat, u: string, v: string)
    requires Distinct(ks) && Inv(ks, s) && Enabled(ks, s, Subscribe(id, u, v))
    ensures var m, n := s.storage, Alone(ks, s, Subscribe(id, u, v)).storage;
            && SameBut(ks, m, n, None, Some(u), None, None)
            && var both := ks.enc(User(u)) in m && ks.enc(User(v)) in m;
            forall x :: x in Subs(ks, n, u) <==> (both && x == v) || x in Subs(ks, m, u)
  {
    SubscribeStates(ks, s, id, u, v);
    AppendEffect(s.storage, ks.enc(SubList(u)), v);
    CallChangesKey(s.storage, ks.enc(SubList(u)), L.AppendToList(v));
    SameAt(ks, s.storage, L.Apply(s.storage, ks.enc(SubList(u)), L.AppendToList(v)), SubList(u));
  }

  lemma UnsubscribeStates(ks: Keys, s: State, id: nat, u: string, v: string)
    requires Enabled(ks, s, Unsubscribe(id, u, v))
    ensures Alone(ks, s, Unsubscribe(id, u, v)).storage
         == if ks.enc(User(u)) in s.storage && ks.enc(User(v)) in s.storage
            then L.Apply(s.storage, ks.enc(SubList(u)), L.RemoveFromList(v)) else s.storage
  {
    if ks.enc(User(u)) in s.storage {
      var s1 := Apply(ks, s, Unsubscribe(id, u, v));
      assert s1.procs[id] == UnsubscribeAsked(u, v);
      assert Alone(ks, s, Unsubscribe(id, u, v)) == Rest(ks, Resume(ks, s1, id), id, 1);
    }
  }

  /** An unsubscription takes the target off the list if both users exist, and changes nothing else. */
  lemma AloneUnsubscribe(ks: Keys, s: State, id: nat, u: string, v: string)
    requires Distinct(ks) && Inv(ks, s) && Enabled(ks, s, Unsubscribe(id, u, v))
    ensures var m, n := s.storage, Alone(ks, s, Unsubscribe(id, u, v)).storage;
            && SameBut(ks, m, n, None, Some(u), None, None)
            && var both := ks.enc(User(u)) in m && ks.enc(User(v)) in m;
            forall x :: x in Subs(ks, n, u) <==> x in Subs(ks, m, u) && !(both && x == v)
  {
    UnsubscribeStates(ks, s, id, u, v);
    RemoveEffect(s.storage, ks.enc(SubList(u)), v);
    CallChangesKey(s.storage, ks.enc(SubList(u)), L.RemoveFromList(v));
    SameAt(ks, s.storage, L.Apply(s.storage, ks.enc(SubList(u)), L.RemoveFromList(v)), SubList(u));
  }

  lemma PostStates(ks: Keys, s: State, id: nat, a: AppKey, c: string) returns (m1: Storage, n: Storage)
    requires a.Post? && Enabled(ks, s, Step.Post(id, a.user, a.time, c)) && ks.enc(User(a.user)) in s.storage
    ensures m1 == L.Apply(s.storage, ks.enc(a), L.Put(c)) && n == L.Apply(m1, ks.enc(PostList(a.user)), L.AppendToList(ks.enc(a)))
    ensures Alone(ks, s, Step.Post(id, a.user, a.time, c)).storage == n
  {
    var s1 := Apply(ks, s, Step.Post(id, a.user, a.time, c));
    assert s1.procs[id] == PostReady(a.user, a.time, c);
    var s2 := Resume(ks, s1, id);
    assert s2.procs[id] == PostStored(a.user, a.time);
    m1 := s2.storage;
    n := Resume(ks, s2, id).storage;
    assert Alone(ks, s, Step.Post(id, a.user, a.time, c)) == Rest(ks, s2, id, 1);
  }

  /** A post of an existing user is stored with its contents and listed, and nothing else changes. */
  lemma AlonePost(ks: Keys, s: State, id: nat, a: AppKey, c: string)
    requires Distinct(ks) && Inv(ks, s) && a.Post? && Enabled(ks, s, Step.Post(id, a.user, a.time, c))
    ensures var m, n := s.storage, Alone(ks, s, Step.Post(id, a.user, a.time, c)).storage;
            if ks.enc(User(a.user)) !in m then n == m
            else
              && SameBut(ks, m, n, None, None, Some(a.user), Some(a))
              && L.Lookup(n, ks.enc(a)) == Some([c])
              && forall x :: x in Posts(ks, n, a.user) <==> x == ks.enc(a) || x in Posts(ks, m, a.user)
  {
    if ks.enc(User(a.user)) in s.storage {
      var m1, n := PostStates(ks, s, id, a, c);
      PutEffect(s.storage, ks.enc(a), c);
      CallChangesKey(s.storage, ks.enc(a), L.Put(c));
      SameAt(ks, s.storage, m1, a);
      AppendEffect(m1, ks.enc(PostList(a.user)), ks.enc(a));
      CallChangesKey(m1, ks.enc(PostList(a.user)), L.AppendToList(ks.enc(a)));
      SameAt(ks, m1, n, PostList(a.user));
      SameTwice(ks, s.storage, m1, n, a.user, a);
    }
  }

  lemma DeleteStates(ks: Keys, s: State, id: nat, u: string, k: string) returns (m1: Storage, n: Storage)
    requires Enabled(ks, s, DeletePost(id, u, k)) && L.Sorted(s.storage)
    requires ks.enc(User(u)) in s.storage && ks.author(k) == Some(u) && k in Posts(ks, s.storage, u)
    ensures m1 == L.Apply(s.storage, ks.enc(PostList(u)), L.RemoveFromList(k)) && n == L.Apply(m1, k, L.Delete)
    ensures Alone(ks, s, DeletePost(id, u, k)).storage == n
  {
    var s1 := Apply(ks, s, DeletePost(id, u, k));
    assert s1.procs[id] == DeleteReady(u, k);
    RemoveEffect(s.storage, ks.enc(PostList(u)), k);
    var s2 := Resume(ks, s1, id);
    assert s2.procs[id] == DeleteRemoved(u, k);
    m1 := s2.storage;
    n := Resume(ks, s2, id).storage;
    assert Alone(ks, s, DeletePost(id, u, k)) == Rest(ks, s2, id, 1);
  }

  lemma NoDeletion(ks: Keys, s: State, id: nat, u: string, k: string)
    requires Enabled(ks, s, DeletePost(id, u, k)) && L.Sorted(s.storage)
    requires !(ks.enc(User(u)) in s.storage && ks.author(k) == Some(u) && k in Posts(ks, s.storage, u))
    ensures Alone(ks, s, DeletePost(id, u, k)).storage == s.storage
  {
    RemoveEffect(s.storage, ks.enc(PostList(u)), k);
    var s1 := Apply(ks, s, DeletePost(id, u, k));
    if id in s1.procs {
      assert s1.procs[id] == DeleteReady(u, k);
      assert Alone(ks, s, DeletePost(id, u, k)) == Rest(ks, Resume(ks, s1, id), id, 1);
    }
  }

  lemma DeletedBut(ks: Keys, m: Storage, u: string, a: AppKey)
    requires Distinct(ks) && L.Sorted(m) && a.Post?
    ensures var k := ks.enc(a);
            var n := L.Apply(L.Apply(m, ks.enc(PostList(u)), L.RemoveFromList(k)), k, L.Delete);
            && SameBut(ks, m, n, None, None, Some(u), Some(a)) && k !in n
            && forall x :: x in Posts(ks, n, u) <==> x != k && x in Posts(ks, m, u)
  {
    var k := ks.enc(a);
    var m1 := L.Apply(m, ks.enc(PostList(u)), L.RemoveFromList(k));
    RemoveEffect(m, ks.enc(PostList(u)), k);
    CallChangesKey(m, ks.enc(PostList(u)), L.RemoveFromList(k));
    SameAt(ks, m, m1, PostList(u));
    DeleteEffect(m1, k);
    CallChangesKey(m1, k, L.Delete);
    SameAt(ks, m1, m1 - {k}, a);
    SameTwice(ks, m, m1, m1 - {k}, u, a);
  }

  /** A deletion of a listed post by its author takes the post off the list and drops its contents; any other
      deletion changes nothing.  Nothing else changes either way. */
  lemma AloneDelete(ks: Keys, s: State, id: nat, u: string, k: string)
    requires Distinct(ks) && Inv(ks, s) && Enabled(ks, s, DeletePost(id, u, k))
    ensures var m, n := s.storage, Alone(ks, s, DeletePost(id, u, k)).storage;
            if ks.enc(User(u)) in m && ks.author(k) == Some(u) && k in Posts(ks, m, u)
            then
              && k in s.posted && SameBut(ks, m, n, None, None, Some(u), Some(s.posted[k]))
              && k in m && k !in n
              && forall x :: x in Posts(ks, n, u) <==> x != k && x in Posts(ks, m, u)
            else n == m
  {
    var m := s.storage;
    if ks.enc(User(u)) in m && ks.author(k) == Some(u) && k in Posts(ks, m, u) {
      var m1, n := DeleteStates(ks, s, id, u, k);
      assert ks.enc(s.posted[k]) == k;
      DeletedBut(ks, m, u, s.posted[k]);
    } else {
      NoDeletion(ks, s, id, u, k);
    }
  }
}
