/** The application server's calls (src/stwserver/stwserver_impl.go) as interleaved storage calls.

    Each request runs as a process that makes one storage call per step; the steps of different
    requests interleave freely. */
module AppProtocol {
  import opened Ordered
  import opened KeyCodec
  import L = ListStore

  type Storage = L.Storage

  /** The key formats: `enc` names a key, `author` reads a post key back, and `dec` is there to say
      that no two keys have the same name. */
  datatype Keys = Keys(enc: AppKey -> string, dec: string -> AppKey, author: string -> Option<string>)

  ghost predicate Distinct(ks: Keys) {
    forall a :: ks.dec(ks.enc(a)) == a
  }

  /** A request between two of its storage calls. */
  datatype Process =
    | CreateReady(user: string)                            // the name was free
    | SubscribeAsked(user: string, target: string)         // the user exists
    | SubscribeReady(user: string, target: string)         // so does the target
    | UnsubscribeAsked(user: string, target: string)
    | UnsubscribeReady(user: string, target: string)
    | PostReady(user: string, time: int64, contents: string)
    | PostStored(user: string, time: int64)                // the contents are in
    | DeleteReady(user: string, postKey: string)           // the key names the user
    | DeleteRemoved(user: string, postKey: string)         // it is off the list

  /** Two books are kept for the proof alone: `posted` has every post key ever chosen, `claims` the
      request that is putting up or taking down a post.  Nothing but the choice of a new key reads them. */
  datatype State = State(
    storage: Storage, procs: map<nat, Process>,
    posted: map<string, AppKey>, claims: map<string, nat>)

  datatype Step =
    | CreateUser(id: nat, user: string)
    | Subscribe(id: nat, user: string, target: string)
    | Unsubscribe(id: nat, user: string, target: string)
    | Post(id: nat, user: string, time: int64, contents: string)
    | DeletePost(id: nat, user: string, postKey: string)
    | Continue(id: nat)

  function Init(): State { State(map[], map[], map[], map[]) }

  /** A new request has a new number. */
  predicate Possible(s: State, step: Step) {
    if step.Continue? then step.id in s.procs else step.id !in s.procs
  }

  /** A new post has a key that was never used: its user has not posted in the same nanosecond before. */
  predicate Fresh(ks: Keys, s: State, step: Step) {
    step.Post? ==> ks.enc(AppKey.Post(step.user, step.time)) !in s.posted
  }

  predicate Enabled(ks: Keys, s: State, step: Step) {
    Possible(s, step) && Fresh(ks, s, step)
  }

  /** The first storage call of a request asks whether the user exists. */
  function Apply(ks: Keys, s: State, step: Step): State
    requires Possible(s, step)
  {
    match step
    case Continue(id) => Resume(ks, s, id)
    case CreateUser(id, u) =>
      if ks.enc(User(u)) in s.storage then s else s.(procs := s.procs[id := CreateReady(u)])
    case Subscribe(id, u, t) =>
      if ks.enc(User(u)) in s.storage then s.(procs := s.procs[id := SubscribeAsked(u, t)]) else s
    case Unsubscribe(id, u, t) =>
      if ks.enc(User(u)) in s.storage then s.(procs := s.procs[id := UnsubscribeAsked(u, t)]) else s
    case Post(id, u, t, c) =>
      if ks.enc(User(u)) in s.storage
      then s.(procs := s.procs[id := PostReady(u, t, c)],
              posted := s.posted[ks.enc(AppKey.Post(u, t)) := AppKey.Post(u, t)],
              claims := s.claims[ks.enc(AppKey.Post(u, t)) := id])
      else s
    case DeletePost(id, u, k) =>
      if ks.enc(User(u)) in s.storage && ks.author(k) == Some(u)
      then s.(procs := s.procs[id := DeleteReady(u, k)]) else s
  }

  /** The next storage call of a request. */
  function Resume(ks: Keys, s: State, id: nat): State
    requires id in s.procs
  {
    var done := s.(procs := s.procs - {id});
    match s.procs[id]
    case CreateReady(u) => done.(storage := L.Apply(s.storage, ks.enc(User(u)), L.Put("")))
    case SubscribeAsked(u, t) =>
      if ks.enc(User(t)) in s.storage then s.(procs := s.procs[id := SubscribeReady(u, t)]) else done
    case SubscribeReady(u, t) => done.(storage := L.Apply(s.storage, ks.enc(SubList(u)), L.AppendToList(t)))
    case UnsubscribeAsked(u, t) =>
      if ks.enc(User(t)) in s.storage then s.(procs := s.procs[id := UnsubscribeReady(u, t)]) else done
    case UnsubscribeReady(u, t) => done.(storage := L.Apply(s.storage, ks.enc(SubList(u)), L.RemoveFromList(t)))
    case PostReady(u, t, c) =>
      s.(storage := L.Apply(s.storage, ks.enc(AppKey.Post(u, t)), L.Put(c)), procs := s.procs[id := PostStored(u, t)])
    case PostStored(u, t) =>
      var k := ks.enc(AppKey.Post(u, t));
      done.(storage := L.Apply(s.storage, ks.enc(PostList(u)), L.AppendToList(k)), claims := s.claims - {k})
    case DeleteReady(u, k) =>
      if L.Reply(s.storage, ks.enc(PostList(u)), L.RemoveFromList(k)) == L.OK
      then s.(storage := L.Apply(s.storage, ks.enc(PostList(u)), L.RemoveFromList(k)),
              procs := s.procs[id := DeleteRemoved(u, k)], claims := s.claims[k := id])
      else done
    case DeleteRemoved(u, k) => done.(storage := L.Apply(s.storage, k, L.Delete), claims := s.claims - {k})
  }

  function Exec(ks: Keys, steps: seq<Step>): State {
    if steps == [] then Init()
    else
      var s := Exec(ks, steps[..|steps| - 1]);
      if Enabled(ks, s, steps[|steps| - 1]) then Apply(ks, s, steps[|steps| - 1]) else s
  }

  // ---- what storage calls do to lists ----

  lemma AppendEffect(m: Storage, key: string, v: string)
    requires L.Sorted(m)
    ensures var n := L.Apply(m, key, L.AppendToList(v));
            && L.Sorted(n) && n.Keys == m.Keys + {key}
            && (forall k | k in m && k != key :: n[k] == m[k])
            && (forall x :: x in L.Contents(n, key) <==> x == v || x in L.Contents(m, key))
            && |L.Contents(n, key)| == (if v in L.Contents(m, key) then |L.Contents(m, key)| else |L.Contents(m, key)| + 1)
  {
    L.PlanRefinesSets(L.Lookup(m, key), L.AppendToList(v));
    var n := L.Apply(m, key, L.AppendToList(v));
    assert Elems(L.Contents(n, key)) == Elems(L.Contents(m, key)) + {v};
    forall x ensures x in L.Contents(n, key) <==> x == v || x in L.Contents(m, key) {
      assert x in Elems(L.Contents(n, key)) <==> x in Elems(L.Contents(m, key)) + {v};
    }
  }

  lemma RemoveEffect(m: Storage, key: string, v: string)
    requires L.Sorted(m)
    ensures var n := L.Apply(m, key, L.RemoveFromList(v));
            && L.Sorted(n) && n.Keys == m.Keys
            && (forall k | k in m && k != key :: n[k] == m[k])
            && (forall x :: x in L.Contents(n, key) <==> x != v && x in L.Contents(m, key))
            && (L.Reply(m, key, L.RemoveFromList(v)) == L.OK <==> v in L.Contents(m, key))
            && |L.Contents(n, key)| == (if v in L.Contents(m, key) then |L.Contents(m, key)| - 1 else |L.Contents(m, key)|)
  {
    L.PlanRefinesSets(L.Lookup(m, key), L.RemoveFromList(v));
    var n := L.Apply(m, key, L.RemoveFromList(v));
    assert Elems(L.Contents(n, key)) == Elems(L.Contents(m, key)) - {v};
    forall x ensures x in L.Contents(n, key) <==> x != v && x in L.Contents(m, key) {
      assert x in Elems(L.Contents(n, key)) <==> x in Elems(L.Contents(m, key)) - {v};
    }
  }

  lemma PutEffect(m: Storage, key: string, v: string)
    requires L.Sorted(m)
    ensures L.Apply(m, key, L.Put(v)) == m[key := [v]] && L.Sorted(m[key := [v]])
  {
  }

  lemma DeleteEffect(m: Storage, key: string)
    requires L.Sorted(m)
    ensures L.Apply(m, key, L.Delete) == m - {key} && L.Sorted(m - {key})
    ensures L.Reply(m, key, L.Delete) == L.OK <==> key in m
  {
  }

  // ---- the invariant ----

  function Posts(ks: Keys, m: Storage, u: string): seq<string> { L.Contents(m, ks.enc(PostList(u))) }

  function Subs(ks: Keys, m: Storage, u: string): seq<string> { L.Contents(m, ks.enc(SubList(u))) }

  /** The post key a request is putting up or taking down. */
  function Claim(ks: Keys, p: Process): Option<string> {
    match p
    case PostReady(u, t, _) => Some(ks.enc(AppKey.Post(u, t)))
    case PostStored(u, t) => Some(ks.enc(AppKey.Post(u, t)))
    case DeleteRemoved(_, k) => Some(k)
    case _ => None
  }

  /** Only posts made by someone are stored under post keys. */
  ghost predicate PostedInv(ks: Keys, s: State) {
    && (forall k | k in s.posted :: s.posted[k].Post? && ks.enc(s.posted[k]) == k)
    && (forall a: AppKey | a.Post? :: ks.enc(a) in s.storage ==> ks.enc(a) in s.posted)
  }

  /** A listed post is its user's own, has contents, and no request is working on it. */
  ghost predicate ListInv(ks: Keys, s: State) {
    forall u, k | k in Posts(ks, s.storage, u) ::
      k in s.posted && s.posted[k].user == u && k in s.storage && k !in s.claims
  }

  /** A stored post is listed, unless a request is working on it. */
  ghost predicate StoredInv(ks: Keys, s: State) {
    forall k | k in s.posted && k in s.storage :: k in Posts(ks, s.storage, s.posted[k].user) || k in s.claims
  }

  ghost predicate ClaimInv(ks: Keys, s: State) {
    && (forall id | id in s.procs && Claim(ks, s.procs[id]).Some? ::
          Claim(ks, s.procs[id]).value in s.claims && s.claims[Claim(ks, s.procs[id]).value] == id)
    && (forall k | k in s.claims ::
          && s.claims[k] in s.procs
          && var p := s.procs[s.claims[k]];
          && Claim(ks, p) == Some(k)
          && k in s.posted && s.posted[k].user == p.user && (k in s.storage <==> !p.PostReady?))
  }

  /** Every subscription names a user, and so does every one about to be made. */
  ghost predicate UserInv(ks: Keys, s: State) {
    && (forall u, v | v in Subs(ks, s.storage, u) :: ks.enc(User(v)) in s.storage)
    && (forall id | id in s.procs && s.procs[id].SubscribeReady? :: ks.enc(User(s.procs[id].target)) in s.storage)
  }

  ghost predicate Inv(ks: Keys, s: State) {
    && L.Sorted(s.storage)
    && PostedInv(ks, s) && ListInv(ks, s) && StoredInv(ks, s) && ClaimInv(ks, s) && UserInv(ks, s)
  }

  // ---- steps, by what they change ----

  /** Posts and post lists stay as they are. */
  ghost predicate PostsKept(ks: Keys, m: Storage, m': Storage) {
    forall a: AppKey | a.Post? || a.PostList? :: L.Lookup(m', ks.enc(a)) == L.Lookup(m, ks.enc(a))
  }

  /** A request without a claim moves on, ends or begins. */
  lemma QuietMove(ks: Keys, s: State, s': State, id: nat)
    requires Distinct(ks) && Inv(ks, s)
    requires s'.posted == s.posted && s'.claims == s.claims && PostsKept(ks, s.storage, s'.storage)
    requires s'.procs - {id} == s.procs - {id}
    requires id in s.procs ==> Claim(ks, s.procs[id]).None?
    requires id in s'.procs ==> Claim(ks, s'.procs[id]).None?
    ensures PostedInv(ks, s') && ListInv(ks, s') && StoredInv(ks, s') && ClaimInv(ks, s')
  {
    forall a: AppKey | a.Post? ensures ks.enc(a) in s'.storage <==> ks.enc(a) in s.storage {
      assert L.Lookup(s'.storage, ks.enc(a)) == L.Lookup(s.storage, ks.enc(a));
    }
    forall k | k in s.posted ensures k in s'.storage <==> k in s.storage {
      assert ks.enc(s.posted[k]) == k;
    }
    forall u ensures Posts(ks, s'.storage, u) == Posts(ks, s.storage, u) {
      assert L.Lookup(s'.storage, ks.enc(PostList(u))) == L.Lookup(s.storage, ks.enc(PostList(u)));
    }
    QuietClaims(ks, s, s', id);
  }

  lemma QuietClaims(ks: Keys, s: State, s': State, id: nat)
    requires ClaimInv(ks, s) && s'.posted == s.posted && s'.claims == s.claims && s'.procs - {id} == s.procs - {id}
    requires id in s.procs ==> Claim(ks, s.procs[id]).None?
    requires id in s'.procs ==> Claim(ks, s'.procs[id]).None?
    requires forall k | k in s.posted :: k in s'.storage <==> k in s.storage
    ensures ClaimInv(ks, s')
  {
    assert forall i | i != id :: i in s'.procs <==> i in s'.procs - {id};
    assert forall i | i != id :: i in s.procs <==> i in s.procs - {id};
    assert forall i | i != id && i in s.procs :: s'.procs[i] == s.procs[i];
  }

  lemma NewPost(ks: Keys, s: State, id: nat, a: AppKey, c: string)
    requires Distinct(ks) && Inv(ks, s) && id !in s.procs && a.Post? && ks.enc(a) !in s.posted
    ensures Inv(ks, s.(procs := s.procs[id := PostReady(a.user, a.time, c)],
                       posted := s.posted[ks.enc(a) := a], claims := s.claims[ks.enc(a) := id]))
  {
    var s' := s.(procs := s.procs[id := PostReady(a.user, a.time, c)],
                 posted := s.posted[ks.enc(a) := a], claims := s.claims[ks.enc(a) := id]);
    assert ks.enc(a) !in s.storage;
    NewClaim(ks, s, s', id, a, c);
    NewBooks(ks, s, s', id, a);
    assert UserInv(ks, s');
  }

  lemma NewBooks(ks: Keys, s: State, s': State, id: nat, a: AppKey)
    requires PostedInv(ks, s) && ListInv(ks, s) && StoredInv(ks, s) && a.Post? && ks.enc(a) !in s.posted
    requires s'.storage == s.storage && s'.posted == s.posted[ks.enc(a) := a] && s'.claims == s.claims[ks.enc(a) := id]
    ensures PostedInv(ks, s') && ListInv(ks, s') && StoredInv(ks, s')
  {
  }

  lemma NewClaim(ks: Keys, s: State, s': State, id: nat, a: AppKey, c: string)
    requires ClaimInv(ks, s) && id !in s.procs && a.Post? && ks.enc(a) !in s.posted && ks.enc(a) !in s.storage
    requires s'.procs == s.procs[id := PostReady(a.user, a.time, c)] && s'.storage == s.storage
    requires s'.posted == s.posted[ks.enc(a) := a] && s'.claims == s.claims[ks.enc(a) := id]
    ensures ClaimInv(ks, s')
  {
  }

  /** Everything but the one key `k` is kept. */
  ghost predicate OnlyAt(m: Storage, m': Storage, k: string) {
    forall x | x != k :: L.Lookup(m', x) == L.Lookup(m, x)
  }

  lemma FrameAt(ks: Keys, m: Storage, m': Storage, a: AppKey)
    requires Distinct(ks) && OnlyAt(m, m', ks.enc(a))
    ensures forall u | PostList(u) != a :: Posts(ks, m', u) == Posts(ks, m, u)
    ensures forall u | SubList(u) != a :: Subs(ks, m', u) == Subs(ks, m, u)
    ensures forall b: AppKey | b != a :: ks.enc(b) in m' <==> ks.enc(b) in m
  {
    forall u | PostList(u) != a ensures Posts(ks, m', u) == Posts(ks, m, u) {
      FrameLookup(ks, m, m', a, PostList(u));
    }
    forall u | SubList(u) != a ensures Subs(ks, m', u) == Subs(ks, m, u) {
      FrameLookup(ks, m, m', a, SubList(u));
    }
    forall b: AppKey | b != a ensures ks.enc(b) in m' <==> ks.enc(b) in m {
      FrameLookup(ks, m, m', a, b);
    }
  }

  lemma FrameLookup(ks: Keys, m: Storage, m': Storage, a: AppKey, b: AppKey)
    requires Distinct(ks) && OnlyAt(m, m', ks.enc(a)) && b != a
    ensures L.Lookup(m', ks.enc(b)) == L.Lookup(m, ks.enc(b))
  {
  }

  lemma FramePosts(ks: Keys, m: Storage, m': Storage, a: AppKey)
    requires Distinct(ks) && OnlyAt(m, m', ks.enc(a)) && (a.User? || a.SubList?)
    ensures PostsKept(ks, m, m')
  {
  }

  lemma PutPost(ks: Keys, s: State, id: nat, a: AppKey, m: Storage)
    requires Distinct(ks) && Inv(ks, s) && a.Post?
    requires id in s.procs && s.procs[id].PostReady? && Claim(ks, s.procs[id]) == Some(ks.enc(a)) && s.procs[id].user == a.user
    requires OnlyAt(s.storage, m, ks.enc(a)) && ks.enc(a) in m && L.Sorted(m)
    ensures Inv(ks, s.(storage := m, procs := s.procs[id := PostStored(a.user, a.time)]))
  {
    var s' := s.(storage := m, procs := s.procs[id := PostStored(a.user, a.time)]);
    FrameAt(ks, s.storage, m, a);
    PostedKept(ks, s, m, a);
    PutClaims(ks, s, s', id, a);
    RestKept(ks, s, s', a);
    BooksKept(ks, s, s', ks.enc(a));
  }

  lemma PutClaims(ks: Keys, s: State, s': State, id: nat, a: AppKey)
    requires ClaimInv(ks, s) && a.Post? && id in s.procs && s.procs[id].PostReady?
    requires Claim(ks, s.procs[id]) == Some(ks.enc(a)) && s.procs[id].user == a.user
    requires s'.procs == s.procs[id := PostStored(a.user, a.time)] && s'.claims == s.claims && s'.posted == s.posted
    requires ks.enc(a) in s'.storage
    requires forall x | x in s.posted && x != ks.enc(a) :: x in s'.storage <==> x in s.storage
    ensures ClaimInv(ks, s')
  {
  }

  /** Other post keys are stored as before. */
  lemma PostedKept(ks: Keys, s: State, m: Storage, a: AppKey)
    requires Distinct(ks) && PostedInv(ks, s) && OnlyAt(s.storage, m, ks.enc(a))
    ensures forall k | k in s.posted && k != ks.enc(a) :: k in m <==> k in s.storage
  {
    forall k | k in s.posted && k != ks.enc(a) ensures k in m <==> k in s.storage {
      assert L.Lookup(m, k) == L.Lookup(s.storage, k);
    }
  }

  /** A change to one post or post list does not reach users, subscriptions or unknown posts. */
  lemma RestKept(ks: Keys, s: State, s': State, a: AppKey)
    requires Distinct(ks) && PostedInv(ks, s) && UserInv(ks, s) && OnlyAt(s.storage, s'.storage, ks.enc(a))
    requires a.PostList? || (a.Post? && ks.enc(a) in s.posted)
    requires s'.posted == s.posted
    requires forall id | id in s'.procs && s'.procs[id].SubscribeReady? :: id in s.procs && s.procs[id] == s'.procs[id]
    ensures PostedInv(ks, s') && UserInv(ks, s')
  {
    FrameAt(ks, s.storage, s'.storage, a);
  }

  /** Only the post `k` changes its standing. */
  lemma BooksKept(ks: Keys, s: State, s': State, k: string)
    requires ListInv(ks, s) && StoredInv(ks, s) && s'.posted == s.posted && k in s.posted
    requires forall u, x | x != k :: x in Posts(ks, s'.storage, u) <==> x in Posts(ks, s.storage, u)
    requires forall x | x in s.posted && x != k :: x in s'.storage <==> x in s.storage
    requires forall x | x != k :: x in s'.claims <==> x in s.claims
    requires forall u | u != s.posted[k].user :: k !in Posts(ks, s'.storage, u)
    requires var listed := k in Posts(ks, s'.storage, s.posted[k].user);
             && (listed ==> k in s'.storage && k !in s'.claims)
             && (k in s'.storage ==> listed || k in s'.claims)
    ensures ListInv(ks, s') && StoredInv(ks, s')
  {
  }

  lemma ListPost(ks: Keys, s: State, id: nat, a: AppKey, m: Storage)
    requires Distinct(ks) && Inv(ks, s) && a.Post?
    requires id in s.procs && s.procs[id].PostStored? && Claim(ks, s.procs[id]) == Some(ks.enc(a)) && s.procs[id].user == a.user
    requires OnlyAt(s.storage, m, ks.enc(PostList(a.user))) && L.Sorted(m)
    requires forall x :: x in Posts(ks, m, a.user) <==> x == ks.enc(a) || x in Posts(ks, s.storage, a.user)
    ensures Inv(ks, s.(storage := m, procs := s.procs - {id}, claims := s.claims - {ks.enc(a)}))
  {
    var s' := s.(storage := m, procs := s.procs - {id}, claims := s.claims - {ks.enc(a)});
    FrameAt(ks, s.storage, m, PostList(a.user));
    PostedKept(ks, s, m, PostList(a.user));
    NotAPost(ks, s, PostList(a.user));
    DropClaim(ks, s, s', id, ks.enc(a));
    ListBooks(ks, s, s', id, a);
    RestKept(ks, s, s', PostList(a.user));
  }

  lemma ListBooks(ks: Keys, s: State, s': State, id: nat, a: AppKey)
    requires ListInv(ks, s) && StoredInv(ks, s) && ClaimInv(ks, s) && a.Post?
    requires id in s.procs && s.procs[id].PostStored? && Claim(ks, s.procs[id]) == Some(ks.enc(a)) && s.procs[id].user == a.user
    requires s'.posted == s.posted && s'.claims == s.claims - {ks.enc(a)}
    requires forall v | v != a.user :: Posts(ks, s'.storage, v) == Posts(ks, s.storage, v)
    requires forall x :: x in Posts(ks, s'.storage, a.user) <==> x == ks.enc(a) || x in Posts(ks, s.storage, a.user)
    requires forall x | x in s.posted :: x in s'.storage <==> x in s.storage
    ensures ListInv(ks, s') && StoredInv(ks, s')
  {
    BooksKept(ks, s, s', ks.enc(a));
  }

  lemma NotAPost(ks: Keys, s: State, a: AppKey)
    requires Distinct(ks) && PostedInv(ks, s) && !a.Post?
    ensures ks.enc(a) !in s.posted
  {
  }

  lemma DropClaim(ks: Keys, s: State, s': State, id: nat, k: string)
    requires ClaimInv(ks, s) && id in s.procs && Claim(ks, s.procs[id]) == Some(k)
    requires s'.procs == s.procs - {id} && s'.claims == s.claims - {k} && s'.posted == s.posted
    requires forall x | x in s.posted && x != k :: x in s'.storage <==> x in s.storage
    ensures ClaimInv(ks, s')
  {
  }

  lemma UnlistPost(ks: Keys, s: State, id: nat, u: string, k: string, m: Storage)
    requires Distinct(ks) && Inv(ks, s)
    requires id in s.procs && s.procs[id] == DeleteReady(u, k) && k in Posts(ks, s.storage, u)
    requires OnlyAt(s.storage, m, ks.enc(PostList(u))) && L.Sorted(m)
    requires forall x :: x in Posts(ks, m, u) <==> x != k && x in Posts(ks, s.storage, u)
    ensures Inv(ks, s.(storage := m, procs := s.procs[id := DeleteRemoved(u, k)], claims := s.claims[k := id]))
  {
    var s' := s.(storage := m, procs := s.procs[id := DeleteRemoved(u, k)], claims := s.claims[k := id]);
    FrameAt(ks, s.storage, m, PostList(u));
    PostedKept(ks, s, m, PostList(u));
    NotAPost(ks, s, PostList(u));
    UnlistClaims(ks, s, s', id, u, k);
    UnlistBooks(ks, s, s', id, u, k);
    RestKept(ks, s, s', PostList(u));
  }

  lemma UnlistBooks(ks: Keys, s: State, s': State, id: nat, u: string, k: string)
    requires ListInv(ks, s) && StoredInv(ks, s) && k in Posts(ks, s.storage, u)
    requires s'.posted == s.posted && s'.claims == s.claims[k := id]
    requires forall v | v != u :: Posts(ks, s'.storage, v) == Posts(ks, s.storage, v)
    requires forall x :: x in Posts(ks, s'.storage, u) <==> x != k && x in Posts(ks, s.storage, u)
    requires forall x | x in s.posted :: x in s'.storage <==> x in s.storage
    ensures ListInv(ks, s') && StoredInv(ks, s')
  {
    BooksKept(ks, s, s', k);
  }

  lemma UnlistClaims(ks: Keys, s: State, s': State, id: nat, u: string, k: string)
    requires ClaimInv(ks, s) && id in s.procs && s.procs[id] == DeleteReady(u, k)
    requires k in s.posted && s.posted[k].user == u && k in s.storage && k !in s.claims
    requires s'.procs == s.procs[id := DeleteRemoved(u, k)] && s'.claims == s.claims[k := id] && s'.posted == s.posted
    requires forall x | x in s.posted :: x in s'.storage <==> x in s.storage
    ensures ClaimInv(ks, s')
  {
  }

  lemma DropPost(ks: Keys, s: State, id: nat, u: string, k: string, m: Storage)
    requires Distinct(ks) && Inv(ks, s)
    requires id in s.procs && s.procs[id] == DeleteRemoved(u, k)
    requires OnlyAt(s.storage, m, k) && k !in m && L.Sorted(m)
    ensures Inv(ks, s.(storage := m, procs := s.procs - {id}, claims := s.claims - {k}))
  {
    var s' := s.(storage := m, procs := s.procs - {id}, claims := s.claims - {k});
    assert Claim(ks, s.procs[id]) == Some(k);
    FrameAt(ks, s.storage, m, s.posted[k]);
    PostedKept(ks, s, m, s.posted[k]);
    DropClaim(ks, s, s', id, k);
    DropBooks(ks, s, s', id, u, k);
    RestKept(ks, s, s', s.posted[k]);
  }

  lemma DropBooks(ks: Keys, s: State, s': State, id: nat, u: string, k: string)
    requires ListInv(ks, s) && StoredInv(ks, s) && ClaimInv(ks, s)
    requires id in s.procs && s.procs[id] == DeleteRemoved(u, k)
    requires s'.posted == s.posted && s'.claims == s.claims - {k} && k !in s'.storage
    requires forall v :: Posts(ks, s'.storage, v) == Posts(ks, s.storage, v)
    requires forall x | x in s.posted && x != k :: x in s'.storage <==> x in s.storage
    ensures ListInv(ks, s') && StoredInv(ks, s')
  {
    assert Claim(ks, s.procs[id]) == Some(k);
    BooksKept(ks, s, s', k);
  }

  // ---- which key a call is about ----

  /** The key that the next storage call of a request is about. */
  function Target(ks: Keys, p: Process): string {
    match p
    case CreateReady(u) => ks.enc(User(u))
    case SubscribeAsked(_, v) => ks.enc(User(v))
    case SubscribeReady(u, _) => ks.enc(SubList(u))
    case UnsubscribeAsked(_, v) => ks.enc(User(v))
    case UnsubscribeReady(u, _) => ks.enc(SubList(u))
    case PostReady(u, t, _) => ks.enc(AppKey.Post(u, t))
    case PostStored(u, _) => ks.enc(PostList(u))
    case DeleteReady(u, _) => ks.enc(PostList(u))
    case DeleteRemoved(_, k) => k
  }

  lemma CallChangesKey(m: L.Storage, key: string, op: L.Op)
    ensures OnlyAt(m, L.Apply(m, key, op), key)
  {
  }

  lemma ResumeChangesTarget(ks: Keys, s: State, id: nat)
    requires id in s.procs
    ensures OnlyAt(s.storage, Resume(ks, s, id).storage, Target(ks, s.procs[id]))
  {
    var key := Target(ks, s.procs[id]);
    match s.procs[id]
    case CreateReady(_) => CallChangesKey(s.storage, key, L.Put(""));
    case SubscribeReady(_, v) => CallChangesKey(s.storage, key, L.AppendToList(v));
    case UnsubscribeReady(_, v) => CallChangesKey(s.storage, key, L.RemoveFromList(v));
    case PostReady(_, _, c) => CallChangesKey(s.storage, key, L.Put(c));
    case PostStored(u, t) => CallChangesKey(s.storage, key, L.AppendToList(ks.enc(AppKey.Post(u, t))));
    case DeleteReady(_, k) => CallChangesKey(s.storage, key, L.RemoveFromList(k));
    case DeleteRemoved(_, _) => CallChangesKey(s.storage, key, L.Delete);
    case _ =>
  }

  // ---- every step ----

  lemma Moved(ks: Keys, s: State, id: nat, p: Process)
    requires Distinct(ks) && Inv(ks, s) && Claim(ks, p).None? && (id in s.procs ==> Claim(ks, s.procs[id]).None?)
    requires p.SubscribeReady? ==> ks.enc(User(p.target)) in s.storage
    ensures Inv(ks, s.(procs := s.procs[id := p]))
  {
    var s' := s.(procs := s.procs[id := p]);
    assert s'.procs - {id} == s.procs - {id};
    QuietMove(ks, s, s', id);
  }

  lemma Ended(ks: Keys, s: State, id: nat)
    requires Distinct(ks) && Inv(ks, s) && id in s.procs && Claim(ks, s.procs[id]).None?
    ensures Inv(ks, s.(procs := s.procs - {id}))
  {
  }

  lemma RequestStep(ks: Keys, s: State, step: Step)
    requires Distinct(ks) && Inv(ks, s) && Enabled(ks, s, step) && !step.Continue?
    ensures Inv(ks, Apply(ks, s, step))
  {
    match step
    case CreateUser(id, u) => Moved(ks, s, id, CreateReady(u));
    case Subscribe(id, u, v) => Moved(ks, s, id, SubscribeAsked(u, v));
    case Unsubscribe(id, u, v) => Moved(ks, s, id, UnsubscribeAsked(u, v));
    case Post(id, u, t, c) => NewPost(ks, s, id, AppKey.Post(u, t), c);
    case DeletePost(id, u, k) => Moved(ks, s, id, DeleteReady(u, k));
  }

  lemma CreateStep(ks: Keys, s: State, id: nat)
    requires Distinct(ks) && Inv(ks, s) && id in s.procs && s.procs[id].CreateReady?
    ensures Inv(ks, Resume(ks, s, id))
  {
    var a := User(s.procs[id].user);
    PutEffect(s.storage, ks.enc(a), "");
    var m := s.storage[ks.enc(a) := [""]];
    FrameAt(ks, s.storage, m, a);
    FramePosts(ks, s.storage, m, a);
    QuietMove(ks, s, s.(storage := m, procs := s.procs - {id}), id);
  }

  /** Both kinds of subscription call. */
  lemma SubscriptionStep(ks: Keys, s: State, id: nat)
    requires Distinct(ks) && Inv(ks, s) && id in s.procs
    requires s.procs[id].SubscribeReady? || s.procs[id].UnsubscribeReady?
    ensures Inv(ks, Resume(ks, s, id))
  {
    var p := s.procs[id];
    var key := ks.enc(SubList(p.user));
    if p.SubscribeReady? {
      AppendEffect(s.storage, key, p.target);
      SubListChanged(ks, s, id, L.Apply(s.storage, key, L.AppendToList(p.target)));
    } else {
      RemoveEffect(s.storage, key, p.target);
      SubListChanged(ks, s, id, L.Apply(s.storage, key, L.RemoveFromList(p.target)));
    }
  }

  lemma SubListChanged(ks: Keys, s: State, id: nat, m: Storage)
    requires Distinct(ks) && Inv(ks, s) && id in s.procs && L.Sorted(m)
    requires s.procs[id].SubscribeReady? || s.procs[id].UnsubscribeReady?
    requires OnlyAt(s.storage, m, ks.enc(SubList(s.procs[id].user)))
    requires forall x | x in Subs(ks, m, s.procs[id].user) ::
               x in Subs(ks, s.storage, s.procs[id].user) || (s.procs[id].SubscribeReady? && x == s.procs[id].target)
    ensures Inv(ks, s.(storage := m, procs := s.procs - {id}))
  {
    var s' := s.(storage := m, procs := s.procs - {id});
    FrameAt(ks, s.storage, m, SubList(s.procs[id].user));
    FramePosts(ks, s.storage, m, SubList(s.procs[id].user));
    QuietMove(ks, s, s', id);
    assert UserInv(ks, s');
  }

  lemma AskedStep(ks: Keys, s: State, id: nat)
    requires Distinct(ks) && Inv(ks, s) && id in s.procs
    requires s.procs[id].SubscribeAsked? || s.procs[id].UnsubscribeAsked?
    ensures Inv(ks, Resume(ks, s, id))
  {
    var p := s.procs[id];
    if ks.enc(User(p.target)) !in s.storage {
      Ended(ks, s, id);
    } else if p.SubscribeAsked? {
      Moved(ks, s, id, SubscribeReady(p.user, p.target));
    } else {
      Moved(ks, s, id, UnsubscribeReady(p.user, p.target));
    }
  }

  lemma PostStep(ks: Keys, s: State, id: nat)
    requires Distinct(ks) && Inv(ks, s) && id in s.procs && (s.procs[id].PostReady? || s.procs[id].PostStored?)
    ensures Inv(ks, Resume(ks, s, id))
  {
    var a := AppKey.Post(s.procs[id].user, s.procs[id].time);
    if s.procs[id].PostReady? {
      var c := s.procs[id].contents;
      PutEffect(s.storage, ks.enc(a), c);
      PutPost(ks, s, id, a, s.storage[ks.enc(a) := [c]]);
    } else {
      AppendEffect(s.storage, ks.enc(PostList(a.user)), ks.enc(a));
      ListPost(ks, s, id, a, L.Apply(s.storage, ks.enc(PostList(a.user)), L.AppendToList(ks.enc(a))));
    }
  }

  lemma DeleteStep(ks: Keys, s: State, id: nat)
    requires Distinct(ks) && Inv(ks, s) && id in s.procs && (s.procs[id].DeleteReady? || s.procs[id].DeleteRemoved?)
    ensures Inv(ks, Resume(ks, s, id))
  {
    var u, k := s.procs[id].user, s.procs[id].postKey;
    if s.procs[id].DeleteReady? {
      RemoveEffect(s.storage, ks.enc(PostList(u)), k);
      if k in Posts(ks, s.storage, u) {
        UnlistPost(ks, s, id, u, k, L.Apply(s.storage, ks.enc(PostList(u)), L.RemoveFromList(k)));
      } else {
        Ended(ks, s, id);
      }
    } else {
      DeleteEffect(s.storage, k);
      DropPost(ks, s, id, u, k, s.storage - {k});
    }
  }

  lemma InvStep(ks: Keys, s: State, step: Step)
    requires Distinct(ks) && Inv(ks, s) && Enabled(ks, s, step)
    ensures Inv(ks, Apply(ks, s, step))
  {
    if !step.Continue? {
      RequestStep(ks, s, step);
    } else {
      match s.procs[step.id]
      case CreateReady(_) => CreateStep(ks, s, step.id);
      case SubscribeAsked(_, _) => AskedStep(ks, s, step.id);
      case UnsubscribeAsked(_, _) => AskedStep(ks, s, step.id);
      case SubscribeReady(_, _) => SubscriptionStep(ks, s, step.id);
      case UnsubscribeReady(_, _) => SubscriptionStep(ks, s, step.id);
      case PostReady(_, _, _) => PostStep(ks, s, step.id);
      case PostStored(_, _) => PostStep(ks, s, step.id);
      case DeleteReady(_, _) => DeleteStep(ks, s, step.id);
      case DeleteRemoved(_, _) => DeleteStep(ks, s, step.id);
    }
  }

  lemma {:induction false} InvHolds(ks: Keys, steps: seq<Step>)
    requires Distinct(ks)
    ensures Inv(ks, Exec(ks, steps))
  {
    if steps != [] {
      InvHolds(ks, steps[..|steps| - 1]);
      var s, step := Exec(ks, steps[..|steps| - 1]), steps[|steps| - 1];
      if Enabled(ks, s, step) { InvStep(ks, s, step); }
    }
  }
}
