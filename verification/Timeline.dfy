/** The newest few of a collection, and how truncating the parts first does not change the answer. */
module Newest {

  ghost predicate NewestFirst<T>(time: T -> int, s: seq<T>) {
    forall i, j | 0 <= i < j < |s| :: time(s[i]) >= time(s[j])
  }

  function Least(a: nat, b: nat): nat { if a < b then a else b }

  /** `r` is a newest-first selection of `k` elements of `m` (all of them if there are fewer), and no
      element left out is newer than one selected. */
  ghost predicate IsTop<T(!new)>(time: T -> int, k: nat, r: seq<T>, m: multiset<T>) {
    && NewestFirst(time, r)
    && |r| == Least(k, |m|)
    && multiset(r) <= m
    && forall x, y | x in m - multiset(r) && y in r :: time(x) <= time(y)
  }

  /** `q` is a witness that `x` is no candidate: `k` elements of `p` are at least as new. */
  ghost predicate Outranks<T(!new)>(time: T -> int, k: nat, q: multiset<T>, p: multiset<T>, x: T) {
    |q| == k && q <= p && forall y | y in q :: time(y) >= time(x)
  }

  /** The part `p` of `m` is enough to find the newest `k` of `m`. */
  ghost predicate Suffices<T(!new)>(time: T -> int, k: nat, p: multiset<T>, m: multiset<T>) {
    && p <= m
    && forall x | x in m - p :: exists q :: Outranks(time, k, q, p, x)
  }

  lemma TopIsFrom<T(!new)>(time: T -> int, k: nat, r: seq<T>, m: multiset<T>)
    requires IsTop(time, k, r, m)
    ensures forall i | 0 <= i < |r| :: r[i] in m
  {
    forall i | 0 <= i < |r| ensures r[i] in m {
      assert r[i] in multiset(r);
    }
  }

  lemma SplitMultiset<T>(s: seq<T>, n: nat)
    requires n <= |s|
    ensures multiset(s) == multiset(s[..n]) + multiset(s[n..])
    ensures multiset(s) - multiset(s[..n]) == multiset(s[n..])
  {
    assert s == s[..n] + s[n..];
  }

  lemma PrefixIsTop<T(!new)>(time: T -> int, k: nat, s: seq<T>)
    requires NewestFirst(time, s)
    ensures IsTop(time, k, s[..Least(k, |s|)], multiset(s))
  {
    SplitMultiset(s, Least(k, |s|));
    PrefixIsNewer(time, s, Least(k, |s|));
  }

  lemma PrefixIsNewer<T(!new)>(time: T -> int, s: seq<T>, n: nat)
    requires NewestFirst(time, s) && n <= |s|
    ensures forall x, y | x in multiset(s[n..]) && y in s[..n] :: time(x) <= time(y)
  {
  }

  lemma TopSuffices<T(!new)>(time: T -> int, k: nat, r: seq<T>, m: multiset<T>)
    requires IsTop(time, k, r, m)
    ensures Suffices(time, k, multiset(r), m)
  {
    forall x | x in m - multiset(r) ensures exists q :: Outranks(time, k, q, multiset(r), x) {
      if |r| < k { SameSize(multiset(r), m); }
      assert Outranks(time, k, multiset(r), multiset(r), x);
    }
  }

  lemma SameSize<T>(a: multiset<T>, b: multiset<T>)
    requires a <= b && |b| <= |a|
    ensures a == b
  {
    assert b == a + (b - a);
    assert |b| == |a| + |b - a|;
  }

  lemma SufficesSum<T(!new)>(time: T -> int, k: nat, p: multiset<T>, m: multiset<T>, p': multiset<T>, m': multiset<T>)
    requires Suffices(time, k, p, m) && Suffices(time, k, p', m')
    ensures Suffices(time, k, p + p', m + m')
  {
    forall x | x in (m + m') - (p + p') ensures exists q :: Outranks(time, k, q, p + p', x) {
      if x in m - p {
        var q :| Outranks(time, k, q, p, x);
        assert Outranks(time, k, q, p + p', x);
      } else {
        assert x in m' - p';
        var q :| Outranks(time, k, q, p', x);
        assert Outranks(time, k, q, p + p', x);
      }
    }
  }

  lemma SubSize<T>(a: multiset<T>, b: multiset<T>)
    requires a <= b
    ensures |a| <= |b|
  {
    assert b == a + (b - a);
    assert |b| == |a| + |b - a|;
  }

  /** A selected element is not older than one that `k` others outrank. */
  lemma SelectedIsNewer<T(!new)>(time: T -> int, k: nat, r: seq<T>, p: multiset<T>, q: multiset<T>, x: T, y: T)
    requires IsTop(time, k, r, p) && Outranks(time, k, q, p, x) && y in r
    ensures time(x) <= time(y)
  {
    if y !in q {
      var missing := exists z :: z in q && p[z] > multiset(r)[z];
      if missing {
        var z :| z in q && p[z] > multiset(r)[z];
        assert z in p - multiset(r);
      } else {
        assert q <= multiset(r);
        SameSize(q, multiset(r));
      }
    }
  }

  lemma SufficientSize<T(!new)>(time: T -> int, k: nat, p: multiset<T>, m: multiset<T>)
    requires Suffices(time, k, p, m)
    ensures Least(k, |p|) == Least(k, |m|)
  {
    SubSize(p, m);
    if |p| < |m| {
      assert m == p + (m - p);
      assert |m| == |p| + |m - p|;
      var x :| x in m - p;
      var q :| Outranks(time, k, q, p, x);
      SubSize(q, p);
    }
  }

  /** The newest of a sufficient part are the newest of the whole. */
  lemma TopOfSufficient<T(!new)>(time: T -> int, k: nat, r: seq<T>, p: multiset<T>, m: multiset<T>)
    requires IsTop(time, k, r, p) && Suffices(time, k, p, m)
    ensures IsTop(time, k, r, m)
  {
    SufficientSize(time, k, p, m);
    forall x, y | x in m - multiset(r) && y in r ensures time(x) <= time(y) {
      if x !in p - multiset(r) {
        assert x in m - p;
        var q :| Outranks(time, k, q, p, x);
        SelectedIsNewer(time, k, r, p, q, x, y);
      }
    }
  }

  function Times<T>(time: T -> int, s: seq<T>): seq<int> {
    seq(|s|, i requires 0 <= i < |s| => time(s[i]))
  }

  /** An element of `m` newer than `b[i]` is found in `b` before position `i`. */
  lemma NewerComesBefore<T(!new)>(time: T -> int, k: nat, b: seq<T>, m: multiset<T>, i: nat, x: T)
    requires IsTop(time, k, b, m) && i < |b| && time(x) > time(b[i])
    ensures m[x] <= multiset(b[..i])[x]
  {
    SplitMultiset(b, i);
    assert b[i] in b;
    assert x !in m - multiset(b);
    assert x !in b[i..];
  }

  /** So are all the elements of `a` up to one that is newer than `b[i]`. */
  lemma HeadComesBefore<T(!new)>(time: T -> int, k: nat, a: seq<T>, b: seq<T>, m: multiset<T>, i: nat)
    requires IsTop(time, k, a, m) && IsTop(time, k, b, m) && i < |a| && time(a[i]) > time(b[i])
    ensures multiset(a[..i + 1]) <= multiset(b[..i])
  {
    var head := multiset(a[..i + 1]);
    SplitMultiset(a, i + 1);
    forall x | x in head ensures head[x] <= multiset(b[..i])[x] {
      var j :| 0 <= j < i + 1 && a[j] == x;
      assert time(a[j]) >= time(a[i]);
      NewerComesBefore(time, k, b, m, i, x);
    }
  }

  lemma NoLaterTime<T(!new)>(time: T -> int, k: nat, a: seq<T>, b: seq<T>, m: multiset<T>, i: nat)
    requires IsTop(time, k, a, m) && IsTop(time, k, b, m) && i < |a|
    ensures time(a[i]) <= time(b[i])
  {
    if time(a[i]) > time(b[i]) {
      HeadComesBefore(time, k, a, b, m, i);
      SubSize(multiset(a[..i + 1]), multiset(b[..i]));
    }
  }

  /** The times of the newest `k` are determined, whatever sort broke the ties. */
  lemma TopTimesUnique<T(!new)>(time: T -> int, k: nat, a: seq<T>, b: seq<T>, m: multiset<T>)
    requires IsTop(time, k, a, m) && IsTop(time, k, b, m)
    ensures Times(time, a) == Times(time, b)
  {
    forall i | 0 <= i < |a| ensures time(a[i]) == time(b[i]) {
      NoLaterTime(time, k, a, b, m, i);
      NoLaterTime(time, k, b, a, m, i);
    }
  }

  // ---- two ways of telling the time ----

  /** `k` elements of `m` are newer than `x`, so `x` is never selected. */
  ghost predicate CrowdedOut<T(!new)>(time: T -> int, k: nat, m: multiset<T>, x: T) {
    exists q :: Crowds(time, k, q, m, x)
  }

  ghost predicate Crowds<T(!new)>(time: T -> int, k: nat, q: multiset<T>, m: multiset<T>, x: T) {
    |q| == k && q <= m && forall y | y in q :: time(y) > time(x)
  }

  lemma CrowdedNotSelected<T(!new)>(time: T -> int, k: nat, r: seq<T>, m: multiset<T>, x: T)
    requires IsTop(time, k, r, m) && CrowdedOut(time, k, m, x)
    ensures x !in r
  {
    if x in r {
      var q :| Crowds(time, k, q, m, x);
      forall z | z in q ensures q[z] <= multiset(r)[z] {
        assert z !in m - multiset(r);
      }
      assert q + multiset{x} <= multiset(r);
      SubSize(q + multiset{x}, multiset(r));
    }
  }

  /** What `seen` makes newest is newest by `actual` time as well: no element that can be selected is
      actually older than one that does not seem newer. */
  ghost predicate Trustworthy<T(!new)>(seen: T -> int, actual: T -> int, k: nat, m: multiset<T>) {
    forall x, y | x in m && y in m && seen(x) >= seen(y) && actual(x) < actual(y) :: CrowdedOut(seen, k, m, x)
  }

  lemma EqualTimesTrusted<T(!new)>(seen: T -> int, actual: T -> int, k: nat, m: multiset<T>)
    requires forall x | x in m :: seen(x) == actual(x)
    ensures Trustworthy(seen, actual, k, m)
  {
  }

  lemma TiesNotTrusted<T(!new)>(seen: T -> int, actual: T -> int, k: nat, m: multiset<T>, x: T, y: T)
    requires k > 0 && x in m && y in m && actual(x) < actual(y)
    requires forall z | z in m :: seen(z) == seen(x)
    ensures !Trustworthy(seen, actual, k, m)
  {
    forall q | |q| == k && q <= m ensures !Crowds(seen, k, q, m, x) {
      var z :| z in q;
      assert z in m;
    }
  }

  lemma {:induction false} SomeOrder<T(!new)>(time: T -> int, m: multiset<T>) returns (s: seq<T>)
    ensures multiset(s) == m && NewestFirst(time, s)
    decreases |m|
  {
    if |m| == 0 {
      s := [];
    } else {
      var x :| x in m;
      var rest := SomeOrder(time, m - multiset{x});
      s := SomePlace(time, rest, x);
    }
  }

  lemma {:induction false} SomePlace<T(!new)>(time: T -> int, s: seq<T>, x: T) returns (longer: seq<T>)
    requires NewestFirst(time, s)
    ensures NewestFirst(time, longer) && multiset(longer) == multiset(s) + multiset{x}
  {
    if s == [] || time(x) >= time(s[0]) {
      longer := [x] + s;
    } else {
      var rest := SomePlace(time, s[1..], x);
      longer := [s[0]] + rest;
      assert s == [s[0]] + s[1..];
      OldestLast(time, s, x, rest);
    }
  }

  lemma OldestLast<T(!new)>(time: T -> int, s: seq<T>, x: T, rest: seq<T>)
    requires s != [] && NewestFirst(time, s) && time(s[0]) >= time(x)
    requires NewestFirst(time, rest) && multiset(rest) == multiset(s[1..]) + multiset{x}
    ensures NewestFirst(time, [s[0]] + rest)
  {
    forall y | y in rest ensures time(s[0]) >= time(y) {
      assert y in multiset(rest);
      assert y == x || y in s[1..];
    }
  }

  lemma SwapTies<T(!new)>(time: T -> int, s: seq<T>, i: nat, j: nat)
    requires NewestFirst(time, s) && i < |s| && j < |s| && time(s[i]) == time(s[j])
    ensures NewestFirst(time, s[i := s[j]][j := s[i]]) && multiset(s[i := s[j]][j := s[i]]) == multiset(s)
  {
  }

  /** An element that is not crowded out can be selected, ahead of all that do not seem newer. */
  lemma CanComeFirst<T(!new)>(time: T -> int, k: nat, m: multiset<T>, x: T) returns (s: seq<T>, i: nat)
    requires x in m && !CrowdedOut(time, k, m, x)
    ensures multiset(s) == m && NewestFirst(time, s)
    ensures i < |s| && i < k && s[i] == x && forall j | 0 <= j < i :: time(s[j]) > time(x)
  {
    var sorted := SomeOrder(time, m);
    assert x in multiset(sorted);
    i := FirstNotNewer(time, sorted, x);
    var j: nat :| i <= j < |sorted| && sorted[j] == x;
    s := sorted[i := sorted[j]][j := sorted[i]];
    SwapTies(time, sorted, i, j);
    if i >= k { CrowdedByPrefix(time, k, sorted, x); }
  }

  lemma CrowdedByPrefix<T(!new)>(time: T -> int, k: nat, s: seq<T>, x: T)
    requires k <= |s| && forall j | 0 <= j < k :: time(s[j]) > time(x)
    ensures CrowdedOut(time, k, multiset(s), x)
  {
    SplitMultiset(s, k);
    assert Crowds(time, k, multiset(s[..k]), multiset(s), x);
  }

  lemma FirstNotNewer<T(!new)>(time: T -> int, s: seq<T>, x: T) returns (i: nat)
    requires NewestFirst(time, s) && x in s
    ensures i < |s| && time(s[i]) == time(x) && forall j | 0 <= j < i :: time(s[j]) > time(x)
    ensures x in s[i..]
  {
    i := 0;
    while time(s[i]) > time(x)
      invariant i < |s| && forall j | 0 <= j < i :: time(s[j]) > time(x)
      invariant exists j :: i <= j < |s| && s[j] == x
      decreases |s| - i
    {
      i := i + 1;
    }
  }

  lemma TrustedTop<T(!new)>(seen: T -> int, actual: T -> int, k: nat, r: seq<T>, m: multiset<T>)
    requires Trustworthy(seen, actual, k, m) && IsTop(seen, k, r, m)
    ensures IsTop(actual, k, r, m)
  {
    forall x, y | x in r && y in m && seen(x) >= seen(y) ensures actual(x) >= actual(y) {
      assert x in multiset(r);
      if actual(x) < actual(y) { CrowdedNotSelected(seen, k, r, m, x); }
    }
    forall i, j | 0 <= i < j < |r| ensures actual(r[i]) >= actual(r[j]) {
      assert r[j] in multiset(r);
    }
  }

  /** An actually older element ahead of a newer one spoils the selection. */
  lemma WrongOrder<T(!new)>(actual: T -> int, k: nat, s: seq<T>, i: nat, j: nat)
    requires i < j < |s| && i < k && actual(s[i]) < actual(s[j])
    ensures !IsTop(actual, k, s[..Least(k, |s|)], multiset(s))
  {
    var n := Least(k, |s|);
    var r := s[..n];
    assert r[i] == s[i];
    if j < n {
      assert r[j] == s[j];
    } else {
      SplitMultiset(s, n);
      assert s[n..][j - n] == s[j];
      assert s[j] in multiset(s) - multiset(r);
    }
  }

  lemma UntrustedTop<T(!new)>(seen: T -> int, actual: T -> int, k: nat, m: multiset<T>, x: T, y: T) returns (r: seq<T>)
    requires x in m && y in m && seen(x) >= seen(y) && actual(x) < actual(y) && !CrowdedOut(seen, k, m, x)
    ensures IsTop(seen, k, r, m) && !IsTop(actual, k, r, m)
  {
    var s, i := CanComeFirst(seen, k, m, x);
    r := s[..Least(k, |s|)];
    PrefixIsTop(seen, k, s);
    assert y in multiset(s);
    var j: nat :| j < |s| && s[j] == y;
    WrongOrder(actual, k, s, i, j);
  }

  /** Selecting by `seen` time is selecting by `actual` time, whatever is done with ties, exactly when
      `seen` can be trusted. */
  lemma SelectionIsActualIff<T(!new)>(seen: T -> int, actual: T -> int, k: nat, m: multiset<T>)
    ensures Trustworthy(seen, actual, k, m) <==> forall r | IsTop(seen, k, r, m) :: IsTop(actual, k, r, m)
  {
    if Trustworthy(seen, actual, k, m) {
      forall r | IsTop(seen, k, r, m) ensures IsTop(actual, k, r, m) { TrustedTop(seen, actual, k, r, m); }
    } else {
      var x, y :| x in m && y in m && seen(x) >= seen(y) && actual(x) < actual(y) && !CrowdedOut(seen, k, m, x);
      var r := UntrustedTop(seen, actual, k, m, x, y);
    }
  }

  method InsertNewestFirst<T>(time: T -> int, s: seq<T>, x: T) returns (longer: seq<T>)
    requires NewestFirst(time, s)
    ensures NewestFirst(time, longer) && multiset(longer) == multiset(s) + multiset{x}
  {
    var i := 0;
    while i < |s| && time(s[i]) >= time(x)
      invariant 0 <= i <= |s|
      invariant forall j | 0 <= j < i :: time(s[j]) >= time(x)
    {
      i := i + 1;
    }
    longer := s[..i] + [x] + s[i..];
    InsertMultiset(s, i, x);
  }

  lemma InsertMultiset<T>(s: seq<T>, i: nat, x: T)
    requires i <= |s|
    ensures multiset(s[..i] + [x] + s[i..]) == multiset(s) + multiset{x}
  {
    SplitMultiset(s, i);
  }

  /** Stands for `sort.Sort`: an ordered permutation, ties in any order. */
  method SortNewestFirst<T>(time: T -> int, s: seq<T>) returns (sorted: seq<T>)
    ensures multiset(sorted) == multiset(s) && NewestFirst(time, sorted)
  {
    sorted := [];
    for n := 0 to |s|
      invariant multiset(sorted) == multiset(s[..n]) && NewestFirst(time, sorted)
    {
      sorted := InsertNewestFirst(time, sorted, s[n]);
      assert s[..n + 1] == s[..n] + [s[n]];
    }
    assert s[..|s|] == s;
  }
}

/** The timelines of the application server (src/stwserver/stwserver_impl.go).

    A timeline makes one storage call after another, and other requests may change the store in
    between: `stores(n)` is the store at the request's call number `n`. */
module Timeline {
  import opened KeyCodec
  import opened ListStore
  import opened Newest

  const LIMIT: nat := 100

  /** The time read out of a post key; for which users it is the time of posting is shown in AppTimelines. */
  function PostTime(key: string): int { ParsePostKey(key).time }

  datatype Post = Post(user: string, posted: string, contents: string)

  datatype TimelineReply = NoSuchUser | Found(posts: seq<Post>) | PostMissing(key: string)

  function PostsOf(m: Storage, user: string): seq<string> { Contents(m, FormatPostListKey(user)) }

  function Subscriptions(m: Storage, user: string): seq<string> { Contents(m, FormatSubListKey(user)) }

  /** All posts of all the given users, each list read in a call of its own, from call `first` on. */
  function AllPosts(stores: nat -> Storage, first: nat, users: seq<string>): multiset<string> {
    if users == [] then multiset{}
    else
      var n := |users| - 1;
      AllPosts(stores, first, users[..n]) + multiset(PostsOf(stores(first + n), users[n]))
  }

  lemma AllPostsNext(stores: nat -> Storage, first: nat, users: seq<string>, n: nat)
    requires n < |users|
    ensures AllPosts(stores, first, users[..n + 1]) == AllPosts(stores, first, users[..n]) + multiset(PostsOf(stores(first + n), users[n]))
  {
    assert users[..n + 1][..n] == users[..n] && users[..n + 1][n] == users[n];
  }

  /** A post in there is from one of the lists, and every list is in there. */
  lemma {:induction false} AllPostsFrom(stores: nat -> Storage, first: nat, users: seq<string>, k: string) returns (n: nat)
    requires k in AllPosts(stores, first, users)
    ensures n < |users| && k in PostsOf(stores(first + n), users[n])
  {
    var last := |users| - 1;
    if k in AllPosts(stores, first, users[..last]) {
      n := AllPostsFrom(stores, first, users[..last], k);
    } else {
      n := last;
      assert k in multiset(PostsOf(stores(first + n), users[n]));
    }
  }

  lemma {:induction false} AllPostsHas(stores: nat -> Storage, first: nat, users: seq<string>, n: nat)
    requires n < |users|
    ensures multiset(PostsOf(stores(first + n), users[n])) <= AllPosts(stores, first, users)
  {
    if n < |users| - 1 { AllPostsHas(stores, first, users[..|users| - 1], n); }
  }

  /** The contents of a post, as a read of its key answers. */
  function Text(m: Storage, key: string): string
    requires key in m
  {
    if |m[key]| > 0 then m[key][0] else ""
  }

  function Render(m: Storage, key: string): Post
    requires key in m
  {
    var p := ParsePostKey(key);
    Post.Post(p.user, FormatInt(p.time), Text(m, key))
  }

  ghost predicate Rendered(m: Storage, key: string, post: Post) {
    key in m && post == Render(m, key)
  }

  /** The posts with the given keys, each fetched in a call of its own, from call `first` on; or the
      first of them that is missing when its turn comes. */
  ghost predicate Fetched(stores: nat -> Storage, first: nat, keys: seq<string>, reply: TimelineReply) {
    match reply
    case NoSuchUser => false
    case Found(posts) => |posts| == |keys| && forall i: nat | i < |keys| :: Rendered(stores(first + i), keys[i], posts[i])
    case PostMissing(k) => exists i: nat | i < |keys| :: keys[i] == k && StopsAt(stores, first, keys, i)
  }

  ghost predicate StopsAt(stores: nat -> Storage, first: nat, keys: seq<string>, i: nat)
    requires i < |keys|
  {
    keys[i] !in stores(first + i) && forall j: nat | j < i :: keys[j] in stores(first + j)
  }

  /** The loop both timelines end in: fetch up to `LIMIT` posts in order, or stop at a missing one. */
  method Fetch(stores: nat -> Storage, first: nat, keys: seq<string>) returns (reply: TimelineReply)
    ensures Fetched(stores, first, keys[..Least(LIMIT, |keys|)], reply)
  {
    var posts: seq<Post> := [];
    var limit := LIMIT;
    var i := 0;
    ghost var shown := keys[..Least(LIMIT, |keys|)];
    while i < |keys| && limit > 0
      invariant 0 <= i <= |keys| && i + limit == LIMIT && |posts| == i
      invariant forall j: nat | j < i :: Rendered(stores(first + j), keys[j], posts[j])
    {
      if keys[i] !in stores(first + i) {
        assert shown[i] == keys[i] && StopsAt(stores, first, shown, i);
        return PostMissing(keys[i]);
      }
      posts := posts + [Render(stores(first + i), keys[i])];
      limit := limit - 1;
      i := i + 1;
    }
    reply := Found(posts);
  }

  /** What a user's timeline may answer: `keys` are the newest hundred posts of the list it read. */
  ghost predicate UserAnswer(stores: nat -> Storage, user: string, reply: TimelineReply, keys: seq<string>) {
    && (reply.NoSuchUser? <==> FormatUserKey(user) !in stores(0))
    && (!reply.NoSuchUser? ==>
          IsTop(PostTime, LIMIT, keys, multiset(PostsOf(stores(1), user))) && Fetched(stores, 2, keys, reply))
  }

  method UserTimeline(stores: nat -> Storage, user: string) returns (reply: TimelineReply)
    ensures reply.NoSuchUser? <==> FormatUserKey(user) !in stores(0)
    ensures exists keys :: UserAnswer(stores, user, reply, keys)
  {
    if FormatUserKey(user) !in stores(0) {
      assert UserAnswer(stores, user, NoSuchUser, []);
      return NoSuchUser;
    }
    if FormatPostListKey(user) !in stores(1) {
      assert UserAnswer(stores, user, Found([]), []);
      return Found([]);
    }
    var sorted := SortNewestFirst(PostTime, stores(1)[FormatPostListKey(user)]);
    PrefixIsTop(PostTime, LIMIT, sorted);
    reply := Fetch(stores, 2, sorted);
    assert UserAnswer(stores, user, reply, sorted[..Least(LIMIT, |sorted|)]);
  }

  /** What a home timeline may answer: `keys` are the newest hundred of all posts in the lists it read. */
  ghost predicate HomeAnswer(stores: nat -> Storage, user: string, reply: TimelineReply, keys: seq<string>) {
    && (reply.NoSuchUser? <==> FormatUserKey(user) !in stores(0))
    && (!reply.NoSuchUser? ==>
          var slist := Subscriptions(stores(1), user);
          && IsTop(PostTime, LIMIT, keys, AllPosts(stores, 2, slist))
          && Fetched(stores, 2 + |slist|, keys, reply))
  }

  /** Truncating each subscription to its newest hundred, merging and truncating again gives the
      newest hundred of everything the subscribed users have posted. */
  method HomeTimeline(stores: nat -> Storage, user: string) returns (reply: TimelineReply)
    ensures reply.NoSuchUser? <==> FormatUserKey(user) !in stores(0)
    ensures exists keys :: HomeAnswer(stores, user, reply, keys)
  {
    if FormatUserKey(user) !in stores(0) {
      assert HomeAnswer(stores, user, NoSuchUser, []);
      return NoSuchUser;
    }
    var slist := Subscriptions(stores(1), user);
    var sorted := MergeAndSort(stores, slist);
    reply := Fetch(stores, 2 + |slist|, sorted);
    assert HomeAnswer(stores, user, reply, sorted[..Least(LIMIT, |sorted|)]);
  }

  method MergeAndSort(stores: nat -> Storage, slist: seq<string>) returns (sorted: seq<string>)
    ensures IsTop(PostTime, LIMIT, sorted[..Least(LIMIT, |sorted|)], AllPosts(stores, 2, slist))
  {
    var pKeys := Merge(stores, slist);
    sorted := SortNewestFirst(PostTime, pKeys);
    PrefixIsTop(PostTime, LIMIT, sorted);
    TopOfSufficient(PostTime, LIMIT, sorted[..Least(LIMIT, |sorted|)], multiset(pKeys), AllPosts(stores, 2, slist));
  }

  /** The newest hundred of each list, one after the other. */
  method Merge(stores: nat -> Storage, slist: seq<string>) returns (pKeys: seq<string>)
    ensures Suffices(PostTime, LIMIT, multiset(pKeys), AllPosts(stores, 2, slist))
  {
    pKeys := [];
    for n := 0 to |slist|
      invariant Suffices(PostTime, LIMIT, multiset(pKeys), AllPosts(stores, 2, slist[..n]))
    {
      var more := Newest100(PostsOf(stores(2 + n), slist[n]));
      MergeOne(stores, slist, n, pKeys, more);
      pKeys := pKeys + more;
    }
    assert slist[..|slist|] == slist;
  }

  lemma MergeOne(stores: nat -> Storage, slist: seq<string>, n: nat, pKeys: seq<string>, more: seq<string>)
    requires n < |slist| && Suffices(PostTime, LIMIT, multiset(pKeys), AllPosts(stores, 2, slist[..n]))
    requires Suffices(PostTime, LIMIT, multiset(more), multiset(PostsOf(stores(2 + n), slist[n])))
    ensures Suffices(PostTime, LIMIT, multiset(pKeys + more), AllPosts(stores, 2, slist[..n + 1]))
  {
    AllPostsNext(stores, 2, slist, n);
    SufficesJoin(pKeys, AllPosts(stores, 2, slist[..n]), more, multiset(PostsOf(stores(2 + n), slist[n])));
  }

  lemma SufficesJoin(p: seq<string>, m: multiset<string>, p': seq<string>, m': multiset<string>)
    requires Suffices(PostTime, LIMIT, multiset(p), m) && Suffices(PostTime, LIMIT, multiset(p'), m')
    ensures Suffices(PostTime, LIMIT, multiset(p + p'), m + m')
  {
    SufficesSum(PostTime, LIMIT, multiset(p), m, multiset(p'), m');
    assert multiset(p + p') == multiset(p) + multiset(p');
  }

  method Newest100(list: seq<string>) returns (some: seq<string>)
    ensures IsTop(PostTime, LIMIT, some, multiset(list))
    ensures Suffices(PostTime, LIMIT, multiset(some), multiset(list))
  {
    var limit := LIMIT;
    if |list| < limit {
      limit := |list|;
    }
    var sorted := SortNewestFirst(PostTime, list);
    assert |sorted| == |multiset(sorted)| == |multiset(list)| == |list|;
    some := sorted[..limit];
    PrefixIsTop(PostTime, LIMIT, sorted);
    TopSuffices(PostTime, LIMIT, some, multiset(list));
  }

  /** The home timeline shows the same times as sorting everything and cutting once. */
  lemma MergeRefinesFullSort(stores: nat -> Storage, users: seq<string>, keys: seq<string>, all: seq<string>)
    requires IsTop(PostTime, LIMIT, keys, AllPosts(stores, 2, users))
    requires multiset(all) == AllPosts(stores, 2, users) && NewestFirst(PostTime, all)
    ensures Times(PostTime, keys) == Times(PostTime, all[..Least(LIMIT, |all|)])
  {
    PrefixIsTop(PostTime, LIMIT, all);
    TopTimesUnique(PostTime, LIMIT, keys, all[..Least(LIMIT, |all|)], AllPosts(stores, 2, users));
  }
}
