/** What the application's requests guarantee over whole runs, with the real key formats. */
module AppRuns {
  import opened Ordered
  import opened KeyCodec
  import opened AppProtocol
  import L = ListStore
  import Timeline

  /** The author that DeletePost reads out of a post key. */
  function Author(k: string): Option<string> {
    var p := ParsePostKey(k);
    if p.ok then Some(p.user) else None
  }

  /** The author of a key is what comes before its first colon, if an underscore comes before a second. */
  lemma AuthorIff(k: string, u: string)
    ensures Author(k) == Some(u) <==>
              && |Split(k, ':')| >= 2 && Split(k, ':')[0] == u && '_' in Split(k, ':')[1]
  {
    if |Split(k, ':')| >= 2 && '_' !in Split(k, ':')[1] { SplitNone(Split(k, ':')[1], '_'); }
  }

  ghost function Unformat(s: string): AppKey {
    if exists a :: Format(a) == s then var a :| Format(a) == s; a else User("")
  }

  ghost function StoreKeys(): Keys {
    Keys((a: AppKey) => Format(a), (s: string) => Unformat(s), (k: string) => Author(k))
  }

  lemma StoreKeysDistinct()
    ensures Distinct(StoreKeys())
  {
    forall a ensures Unformat(Format(a)) == a {
      FormatInjective(Unformat(Format(a)), a);
    }
  }

  ghost function After(steps: seq<Step>): State { Exec(StoreKeys(), steps) }

  lemma Holds(steps: seq<Step>)
    ensures Inv(StoreKeys(), After(steps)) && Distinct(StoreKeys())
  {
    StoreKeysDistinct();
    InvHolds(StoreKeys(), steps);
  }

  /** At every moment, in the middle of requests too, every key in a post list has contents, and is
      a post of that list's user. */
  lemma ListedPostsAreStored(steps: seq<Step>, u: string, k: string)
    requires k in Timeline.PostsOf(After(steps).storage, u)
    ensures k in After(steps).storage
    ensures exists t :: k == FormatPostKey(u, t)
  {
    Holds(steps);
    var s := After(steps);
    assert k in Posts(StoreKeys(), s.storage, u);
    assert k == FormatPostKey(u, s.posted[k].time);
  }

  /** Once a post is off its list, deleting its contents succeeds. */
  lemma DeleteAfterRemoveSucceeds(steps: seq<Step>, id: nat)
    requires id in After(steps).procs && After(steps).procs[id].DeleteRemoved?
    ensures L.Reply(After(steps).storage, After(steps).procs[id].postKey, L.Delete) == L.OK
  {
    Holds(steps);
    RemovedIsStored(StoreKeys(), After(steps), id);
  }

  lemma RemovedIsStored(ks: Keys, s: State, id: nat)
    requires ClaimInv(ks, s) && id in s.procs && s.procs[id].DeleteRemoved?
    ensures s.procs[id].postKey in s.storage
  {
    assert Claim(ks, s.procs[id]) == Some(s.procs[id].postKey);
  }

  /** When no request is under way, the stored posts are exactly the listed ones. */
  lemma StoredIffListed(steps: seq<Step>, u: string, t: int64)
    requires After(steps).procs == map[]
    ensures FormatPostKey(u, t) in After(steps).storage <==> FormatPostKey(u, t) in Timeline.PostsOf(After(steps).storage, u)
  {
    Holds(steps);
    var s, ks, a := After(steps), StoreKeys(), AppKey.Post(u, t);
    assert ks.enc(a) == FormatPostKey(u, t);
    assert Posts(ks, s.storage, u) == Timeline.PostsOf(s.storage, u);
    if ks.enc(a) in s.storage {
      assert ks.enc(a) in s.posted;
      assert ks.dec(ks.enc(s.posted[ks.enc(a)])) == s.posted[ks.enc(a)];
      assert ks.dec(ks.enc(a)) == a;
      assert s.posted[ks.enc(a)] == a;
    }
  }

  /** Every subscription names an existing user. */
  lemma SubscriptionsNeverDangle(steps: seq<Step>, u: string, v: string)
    requires v in Timeline.Subscriptions(After(steps).storage, u)
    ensures FormatUserKey(v) in After(steps).storage
  {
    Holds(steps);
    assert v in Subs(StoreKeys(), After(steps).storage, u);
    assert StoreKeys().enc(User(v)) == FormatUserKey(v);
  }

  /** A user, once created, is there for good. */
  lemma {:induction false} UsersPersist(steps: seq<Step>, w: nat, u: string)
    requires w <= |steps| && FormatUserKey(u) in After(steps[..w]).storage
    ensures FormatUserKey(u) in After(steps).storage
  {
    if w == |steps| {
      assert steps[..w] == steps;
    } else {
      var n := |steps| - 1;
      assert steps[..n][..w] == steps[..w];
      UsersPersist(steps[..n], w, u);
      Holds(steps[..n]);
      if Enabled(StoreKeys(), After(steps[..n]), steps[n]) {
        UserStays(StoreKeys(), After(steps[..n]), steps[n], u);
      }
    }
  }

  lemma UserStays(ks: Keys, s: State, step: Step, u: string)
    requires Distinct(ks) && Inv(ks, s) && Enabled(ks, s, step) && ks.enc(User(u)) in s.storage
    ensures ks.enc(User(u)) in Apply(ks, s, step).storage
  {
    if step.Continue? {
      var id, key := step.id, ks.enc(User(u));
      ResumeChangesTarget(ks, s, id);
      DeletedIsPost(ks, s, id);
      if Target(ks, s.procs[id]) == key {
        UserIsNotDeleted(ks, s, id, u);
      } else {
        assert L.Lookup(Resume(ks, s, id).storage, key) == L.Lookup(s.storage, key);
      }
    }
  }

  lemma DeletedIsPost(ks: Keys, s: State, id: nat)
    requires Distinct(ks) && Inv(ks, s) && id in s.procs
    ensures s.procs[id].DeleteRemoved? ==> ks.dec(s.procs[id].postKey).Post?
  {
    if s.procs[id].DeleteRemoved? {
      assert Claim(ks, s.procs[id]) == Some(s.procs[id].postKey);
      assert ks.dec(ks.enc(s.posted[s.procs[id].postKey])).Post?;
    }
  }

  /** A storage call about a user reads it or puts it. */
  lemma UserIsNotDeleted(ks: Keys, s: State, id: nat, u: string)
    requires Distinct(ks) && id in s.procs && (s.procs[id].DeleteRemoved? ==> ks.dec(s.procs[id].postKey).Post?)
    requires Target(ks, s.procs[id]) == ks.enc(User(u)) && ks.enc(User(u)) in s.storage
    ensures ks.enc(User(u)) in Resume(ks, s, id).storage
  {
    var p := s.procs[id];
    assert ks.dec(ks.enc(User(u))) == User(u);
    assert p.CreateReady? || p.SubscribeAsked? || p.UnsubscribeAsked?;
  }

  /** What a timeline of `v` is made of: the list and the contents of its posts. */
  ghost predicate SameTimeline(ks: Keys, m: Storage, m': Storage, v: string) {
    && Posts(ks, m', v) == Posts(ks, m, v)
    && forall k | k in Posts(ks, m, v) :: k in m' && k in m && m'[k] == m[k]
  }

  /** A deletion by `u`, whatever key was supplied, takes at most one post off `u`'s list, one that `u`
      posted, and leaves the timeline of everyone else as it was.  Its last call, which drops the
      contents, changes nobody's timeline. */
  lemma DeletionIsolation(steps: seq<Step>, id: nat, v: string)
    requires var s := After(steps); id in s.procs && (s.procs[id].DeleteReady? || s.procs[id].DeleteRemoved?)
    ensures var s, s' := After(steps), Resume(StoreKeys(), After(steps), id);
            var u, k := s.procs[id].user, s.procs[id].postKey;
            && (v != u || s.procs[id].DeleteRemoved? ==> SameTimeline(StoreKeys(), s.storage, s'.storage, v))
            && |Posts(StoreKeys(), s'.storage, u)| >= |Posts(StoreKeys(), s.storage, u)| - 1
            && (forall x | x in Posts(StoreKeys(), s.storage, u) && x !in Posts(StoreKeys(), s'.storage, u) ::
                  x == k && exists t :: k == FormatPostKey(u, t))
  {
    Holds(steps);
    var s := After(steps);
    var k := s.procs[id].postKey;
    if s.procs[id].DeleteReady? {
      RemovalIsolation(StoreKeys(), s, id, v);
      if k in Posts(StoreKeys(), s.storage, s.procs[id].user) {
        ListedPostsAreStored(steps, s.procs[id].user, k);
      }
    } else {
      DropIsolation(StoreKeys(), s, id, v);
      DropIsolation(StoreKeys(), s, id, s.procs[id].user);
    }
  }

  lemma RemovalIsolation(ks: Keys, s: State, id: nat, v: string)
    requires Distinct(ks) && Inv(ks, s) && id in s.procs && s.procs[id].DeleteReady?
    ensures var s', u := Resume(ks, s, id), s.procs[id].user;
            && (v != u ==> SameTimeline(ks, s.storage, s'.storage, v))
            && |Posts(ks, s'.storage, u)| >= |Posts(ks, s.storage, u)| - 1
            && (forall x :: x in Posts(ks, s.storage, u) && x !in Posts(ks, s'.storage, u) ==> x == s.procs[id].postKey)
  {
    var u, k := s.procs[id].user, s.procs[id].postKey;
    var a := PostList(u);
    RemoveEffect(s.storage, ks.enc(a), k);
    var m := L.Apply(s.storage, ks.enc(a), L.RemoveFromList(k));
    FrameAt(ks, s.storage, m, a);
    if v != u {
      forall x | x in Posts(ks, s.storage, v) ensures x in m && x in s.storage && m[x] == s.storage[x] {
        assert x in s.posted && s.posted[x] != a;
        assert x != ks.enc(a);
      }
    }
  }

  lemma DropIsolation(ks: Keys, s: State, id: nat, v: string)
    requires Distinct(ks) && Inv(ks, s) && id in s.procs && s.procs[id].DeleteRemoved?
    ensures SameTimeline(ks, s.storage, Resume(ks, s, id).storage, v)
  {
    var k := s.procs[id].postKey;
    DeleteEffect(s.storage, k);
    assert Claim(ks, s.procs[id]) == Some(k);
    assert k in s.claims;
    FrameAt(ks, s.storage, s.storage - {k}, s.posted[k]);
  }

  /** A user can delete a listed post exactly when the user's name has no colon. */
  lemma DeletableIffNoColon(steps: seq<Step>, u: string, k: string)
    requires k in Timeline.PostsOf(After(steps).storage, u)
    ensures Author(k) == Some(u) <==> ':' !in u
  {
    ListedPostsAreStored(steps, u, k);
    var t :| k == FormatPostKey(u, t);
    PostKeyRoundTrip(u, t);
  }
}
