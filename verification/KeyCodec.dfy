/** The key formats of the store (src/util/keyFormatter.go) and of lease records
    (src/util/common.go), with Go's `strings.Split`, `strconv.FormatInt` and `strconv.ParseInt`
    in base 16. */
module KeyCodec {

  type int64 = x: int | -0x8000_0000_0000_0000 <= x < 0x8000_0000_0000_0000

  const MAX_UINT64: nat := 0xFFFF_FFFF_FFFF_FFFF
  const SIGN_CUTOFF: nat := 0x8000_0000_0000_0000

  // ---- strings.Split with a one-character separator ----

  function Split(s: string, sep: char): (parts: seq<string>)
    ensures |parts| >= 1
    ensures sep in s ==> |parts| >= 2
  {
    if s == [] then [[]]
    else
      var rest := Split(s[1..], sep);
      if s[0] == sep then [[]] + rest else Prepend(s[0], rest)
  }

  function Prepend(c: char, parts: seq<string>): seq<string>
    requires parts != []
  {
    [[c] + parts[0]] + parts[1..]
  }

  lemma SplitCons(c: char, s: string, sep: char)
    ensures Split([c] + s, sep) == if c == sep then [[]] + Split(s, sep) else Prepend(c, Split(s, sep))
  {
    assert ([c] + s)[1..] == s;
  }

  lemma PrependJoin(c: char, p: seq<string>, q: seq<string>)
    requires p != []
    ensures Prepend(c, p + q) == Prepend(c, p) + q
  {
    assert (p + q)[1..] == p[1..] + q;
  }

  /** A separator is where the parts of the left side end and those of the right side begin. */
  lemma {:induction false} SplitJoin(a: string, b: string, sep: char)
    ensures Split(a + [sep] + b, sep) == Split(a, sep) + Split(b, sep)
  {
    if a == [] {
      assert a + [sep] + b == [sep] + b;
      SplitCons(sep, b, sep);
    } else {
      SplitJoin(a[1..], b, sep);
      JoinCons(a[0], a[1..], b, sep);
      assert a == [a[0]] + a[1..];
    }
  }

  lemma JoinCons(c: char, a: string, b: string, sep: char)
    requires Split(a + [sep] + b, sep) == Split(a, sep) + Split(b, sep)
    ensures Split([c] + a + [sep] + b, sep) == Split([c] + a, sep) + Split(b, sep)
  {
    Assoc([c], a, [sep]);
    Assoc([c], a + [sep], b);
    SplitCons(c, a, sep);
    SplitCons(c, a + [sep] + b, sep);
    if c == sep {
      Assoc([[]], Split(a, sep), Split(b, sep));
    } else {
      PrependJoin(c, Split(a, sep), Split(b, sep));
    }
  }

  lemma Assoc<T>(a: seq<T>, b: seq<T>, c: seq<T>)
    ensures a + b + c == a + (b + c)
  {
  }

  lemma {:induction false} SplitNone(a: string, sep: char)
    requires sep !in a
    ensures Split(a, sep) == [a]
  {
    if a != [] {
      SplitNone(a[1..], sep);
      assert a == [a[0]] + a[1..];
    }
  }

  // ---- hexadecimal numbers ----

  const DIGITS: string := "0123456789abcdef"

  function Hex(n: nat): (s: string)
    ensures |s| > 0
    ensures forall c | c in s :: c in DIGITS
  {
    if n < 16 then [DIGITS[n]] else Hex(n / 16) + [DIGITS[n % 16]]
  }

  function FormatInt(t: int64): (s: string)
    ensures |s| > 0
    ensures forall c | c in s :: c in DIGITS || c == '-'
  {
    if t < 0 then ['-'] + Hex(0 - t) else Hex(t)
  }

  /** The value of a digit, or 16 for anything that is not one. */
  function DigitValue(c: char): (d: nat)
    ensures d <= 16
  {
    if '0' <= c <= '9' then c as int - '0' as int
    else if 'a' <= c <= 'f' then c as int - 'a' as int + 10
    else if 'A' <= c <= 'F' then c as int - 'A' as int + 10
    else 16
  }

  /** The value of `ParseUint` when its error is dropped: zero at a bad character, the largest
      value as soon as the number overflows. */
  function ParseUint(s: string, acc: nat): (n: nat)
    requires acc <= MAX_UINT64
    ensures n <= MAX_UINT64
  {
    if s == [] then acc
    else if DigitValue(s[0]) == 16 then 0
    else
      var next := acc * 16 + DigitValue(s[0]);
      if next > MAX_UINT64 then MAX_UINT64 else ParseUint(s[1..], next)
  }

  function ParseInt(s: string): (t: int64) {
    var neg := s != [] && s[0] == '-';
    var n := ParseUint(if s != [] && (s[0] == '+' || s[0] == '-') then s[1..] else s, 0);
    if !neg && n >= SIGN_CUTOFF then SIGN_CUTOFF - 1
    else if neg && n > SIGN_CUTOFF then 0 - SIGN_CUTOFF
    else if neg then 0 - n else n
  }

  lemma ParseDigit(d: nat, rest: string, acc: nat)
    requires d < 16 && acc * 16 + d <= MAX_UINT64
    ensures ParseUint([DIGITS[d]] + rest, acc) == ParseUint(rest, acc * 16 + d)
  {
  }

  lemma {:induction false} HexRoundTrip(n: nat, rest: string)
    requires n <= MAX_UINT64
    ensures ParseUint(Hex(n) + rest, 0) == ParseUint(rest, n)
  {
    if n < 16 {
      ParseDigit(n, rest, 0);
    } else {
      var last := [DIGITS[n % 16]];
      assert Hex(n) + rest == Hex(n / 16) + (last + rest);
      HexRoundTrip(n / 16, last + rest);
      ParseDigit(n % 16, rest, n / 16);
    }
  }

  lemma HexIsUnsigned(n: nat)
    requires n <= MAX_UINT64
    ensures Hex(n)[0] != '-' && Hex(n)[0] != '+' && ParseUint(Hex(n), 0) == n
  {
    HexRoundTrip(n, []);
    assert Hex(n) + [] == Hex(n);
    assert Hex(n)[0] in DIGITS;
  }

  lemma IntRoundTrip(t: int64)
    ensures ParseInt(FormatInt(t)) == t
  {
    if t < 0 {
      HexIsUnsigned(0 - t);
      assert (['-'] + Hex(0 - t))[1..] == Hex(0 - t);
    } else {
      HexIsUnsigned(t);
    }
  }

  /** The number that a string of digits stands for, without a limit. */
  function Horner(s: string, acc: nat): nat {
    if s == [] then acc else Horner(s[1..], acc * 16 + DigitValue(s[0]))
  }

  predicate AllDigits(s: string) {
    forall c | c in s :: DigitValue(c) < 16
  }

  lemma {:induction false} HornerGrows(s: string, acc: nat)
    ensures acc <= Horner(s, acc)
  {
    if s != [] { HornerGrows(s[1..], acc * 16 + DigitValue(s[0])); }
  }

  /** Digits are read to their number, or to the largest one there is. */
  lemma {:induction false} ParseUintSaturates(s: string, acc: nat)
    requires AllDigits(s) && acc <= MAX_UINT64
    ensures ParseUint(s, acc) == if Horner(s, acc) > MAX_UINT64 then MAX_UINT64 else Horner(s, acc)
  {
    if s != [] {
      var next := acc * 16 + DigitValue(s[0]);
      assert s[0] in s;
      HornerGrows(s[1..], next);
      if next <= MAX_UINT64 { ParseUintSaturates(s[1..], next); }
    }
  }

  /** A bad character that comes before an overflow makes the number zero. */
  lemma {:induction false} ParseUintRejects(s: string, acc: nat, i: nat)
    requires i < |s| && DigitValue(s[i]) == 16 && AllDigits(s[..i]) && Horner(s[..i], acc) <= MAX_UINT64
    ensures acc <= MAX_UINT64 && ParseUint(s, acc) == 0
  {
    HornerGrows(s[..i], acc);
    if i > 0 {
      assert s[..i][0] == s[0] && s[..i][1..] == s[1..][..i - 1];
      assert s[0] in s[..i];
      HornerGrows(s[..i][1..], acc * 16 + DigitValue(s[0]));
      ParseUintRejects(s[1..], acc * 16 + DigitValue(s[0]), i - 1);
    }
  }

  /** What `ParseInt` makes of digits with or without a minus sign: the number, or the nearest one in range. */
  lemma ParseIntClamps(s: string)
    requires s != [] && AllDigits(s)
    ensures ParseInt(s) == if Horner(s, 0) >= SIGN_CUTOFF then SIGN_CUTOFF - 1 else Horner(s, 0)
    ensures ParseInt(['-'] + s) == if Horner(s, 0) > SIGN_CUTOFF then 0 - SIGN_CUTOFF else 0 - Horner(s, 0)
  {
    ParseUintSaturates(s, 0);
    assert s[0] in s && (['-'] + s)[1..] == s;
  }

  // ---- keys ----

  /** The four families of keys the application stores. */
  datatype AppKey =
    | User(user: string)
    | SubList(user: string)
    | PostList(user: string)
    | Post(user: string, time: int64)

  /** What follows the user's name and a colon. */
  function Suffix(k: AppKey): string {
    match k
    case User(_) => "usrid"
    case SubList(_) => "sublist"
    case PostList(_) => "postlist"
    case Post(_, t) => "post" + ['_'] + FormatInt(t)
  }

  function Format(k: AppKey): string { k.user + [':'] + Suffix(k) }

  function FormatUserKey(user: string): string { Format(User(user)) }

  function FormatSubListKey(user: string): string { Format(SubList(user)) }

  function FormatPostListKey(user: string): string { Format(PostList(user)) }

  function FormatPostKey(user: string, time: int64): string { Format(Post(user, time)) }

  /** The key formats, by example. */
  lemma KeyExamples()
    ensures FormatUserKey("roc") == "roc:usrid" && FormatSubListKey("roc") == "roc:sublist"
    ensures FormatPostListKey("roc") == "roc:postlist"
  {
  }

  lemma PostKeyExamples()
    ensures FormatPostKey("roc", 26) == "roc:post_1a" && FormatPostKey("roc", -26) == "roc:post_-1a"
  {
    assert Hex(26) == Hex(1) + [DIGITS[10]] && Hex(1) == "1";
    assert Hex(26) == "1a";
  }

  datatype ParsedPost = ParsedPost(user: string, time: int64, ok: bool)

  function ParsePostKey(key: string): ParsedPost {
    var parts := Split(key, ':');
    if |parts| < 2 then ParsedPost("", 0, false)
    else
      var fields := Split(parts[1], '_');
      if |fields| < 2 then ParsedPost(parts[0], 0, false)
      else ParsedPost(parts[0], ParseInt(fields[1]), true)
  }

  lemma SuffixHasNoColon(k: AppKey)
    ensures ':' !in Suffix(k)
  {
    if k.Post? { NotInEither("post" + ['_'], FormatInt(k.time), ':'); }
  }

  lemma NotInEither(a: string, b: string, c: char)
    requires c !in a && c !in b
    ensures c !in a + b
  {
  }

  /** A key splits at its colons into the user's part and the suffix. */
  lemma KeyParts(k: AppKey)
    ensures var parts := Split(Format(k), ':');
            && |parts| >= 2
            && parts[0] == Split(k.user, ':')[0]
            && (':' !in k.user ==> parts == [k.user, Suffix(k)])
  {
    SuffixHasNoColon(k);
    CutOnce(k.user, Suffix(k), ':');
  }

  lemma CutOnce(a: string, b: string, sep: char)
    requires sep !in b
    ensures var parts := Split(a + [sep] + b, sep);
            && |parts| >= 2
            && parts[0] == Split(a, sep)[0]
            && (sep !in a ==> parts == [a, b])
  {
    SplitJoin(a, b, sep);
    SplitNone(b, sep);
    if sep !in a { SplitNone(a, sep); }
  }

  lemma {:induction false} FirstPartIsShort(s: string, sep: char)
    requires sep in s
    ensures |Split(s, sep)[0]| < |s|
  {
    if s[0] != sep {
      assert s == [s[0]] + s[1..];
      FirstPartIsShort(s[1..], sep);
    }
  }

  lemma {:induction false} FirstPartHasNoSeparator(s: string, sep: char)
    ensures sep !in Split(s, sep)[0]
  {
    if s != [] { FirstPartHasNoSeparator(s[1..], sep); }
  }

  lemma PostSuffixParses(user: string, time: int64)
    ensures Split(Suffix(Post(user, time)), '_') == ["post", FormatInt(time)]
  {
    assert '_' !in FormatInt(time) && '_' !in "post";
    CutOnce("post", FormatInt(time), '_');
  }

  /** Parsing a formatted post key gives back its author exactly when the author's name has no
      colon, and then it gives back the time too. */
  lemma PostKeyRoundTrip(user: string, time: int64)
    ensures ':' !in user ==> ParsePostKey(FormatPostKey(user, time)) == ParsedPost(user, time, true)
    ensures ParsePostKey(FormatPostKey(user, time)).user == user <==> ':' !in user
  {
    KeyParts(Post(user, time));
    if ':' in user {
      FirstPartIsShort(user, ':');
    } else {
      PostSuffixParses(user, time);
      IntRoundTrip(time);
    }
  }

  /** For an author with a colon the time read back says nothing: it is the same for all posts. */
  lemma ColonTimeIsConstant(user: string, t1: int64, t2: int64)
    requires ':' in user
    ensures ParsePostKey(FormatPostKey(user, t1)).time == ParsePostKey(FormatPostKey(user, t2)).time
  {
    SplitJoin(user, Suffix(Post(user, t1)), ':');
    SplitJoin(user, Suffix(Post(user, t2)), ':');
  }

  /** No two keys share a string: the families are disjoint and each is injective, whatever
      characters the user names contain. */
  lemma FormatInjective(a: AppKey, b: AppKey)
    requires Format(a) == Format(b)
    ensures a == b
  {
    SuffixHasNoColon(a);
    SuffixHasNoColon(b);
    LastCut(a.user, Suffix(a), b.user, Suffix(b), ':');
    SuffixInjective(a, b);
  }

  /** A string is cut in one way only at the last occurrence of a separator. */
  lemma LastCut(u: string, h: string, v: string, g: string, sep: char)
    requires sep !in h && sep !in g && u + [sep] + h == v + [sep] + g
    ensures u == v && h == g
  {
    if |h| < |g| {
      LastPart(u, h, v, g, sep);
    } else if |g| < |h| {
      LastPart(v, g, u, h, sep);
    }
    assert (u + [sep] + h)[..|u|] == u && (v + [sep] + g)[..|v|] == v;
    assert (u + [sep] + h)[|u| + 1..] == h && (v + [sep] + g)[|v| + 1..] == g;
  }

  /** A longer last part would hold the separator before the shorter one. */
  lemma LastPart(u: string, h: string, v: string, g: string, sep: char)
    requires u + [sep] + h == v + [sep] + g && |h| < |g|
    ensures sep in g
  {
    assert (u + [sep] + h)[|u|] == sep && (v + [sep] + g)[|u|] == g[|u| - |v| - 1];
  }

  lemma SuffixInjective(a: AppKey, b: AppKey)
    requires a.user == b.user && Suffix(a) == Suffix(b)
    ensures a == b
  {
    PostSuffixShape(a);
    PostSuffixShape(b);
    if a.Post? && b.Post? {
      assert FormatInt(a.time) == Suffix(a)[5..] == Suffix(b)[5..] == FormatInt(b.time);
      IntRoundTrip(a.time);
      IntRoundTrip(b.time);
    }
  }

  lemma PostSuffixShape(k: AppKey)
    ensures |Suffix(k)| >= 5 && (Suffix(k)[4] == '_' <==> k.Post?)
    ensures k.Post? ==> Suffix(k)[5..] == FormatInt(k.time)
  {
  }

  // ---- lease records ----

  function FormatLeaseRecord(host: string, time: int64): (r: string)
    ensures '~' in r
  {
    assert (host + ['~'] + FormatInt(time))[|host|] == '~';
    host + ['~'] + FormatInt(time)
  }

  /** The host named by a lease record: everything before the first tilde. */
  function RecordHost(r: string): string { Split(r, '~')[0] }

  /** The time of a lease record; the original indexes the second part, so there must be one. */
  function RecordTime(r: string): int64
    requires '~' in r
  {
    ParseInt(Split(r, '~')[1])
  }

  /** A lease record reads back as it was written exactly when the host has no tilde. */
  lemma LeaseRecordRoundTrip(host: string, time: int64)
    ensures RecordHost(FormatLeaseRecord(host, time)) == host <==> '~' !in host
    ensures '~' !in host ==> RecordTime(FormatLeaseRecord(host, time)) == time
  {
    assert '~' !in FormatInt(time);
    CutOnce(host, FormatInt(time), '~');
    if '~' in host {
      FirstPartIsShort(host, '~');
    } else {
      IntRoundTrip(time);
    }
  }

  /** The record of a host with a tilde reads back as another host's, at a time that does not depend on
      the lease: both come from the name. */
  lemma TildeHostReadsBack(host: string, time: int64)
    requires '~' in host
    ensures RecordHost(FormatLeaseRecord(host, time)) == Split(host, '~')[0]
    ensures RecordTime(FormatLeaseRecord(host, time)) == ParseInt(Split(host, '~')[1])
  {
    SplitJoin(host, FormatInt(time), '~');
  }

  /** For one, "a~b" reads back as "a", at second 11. */
  lemma TildeExample(time: int64)
    ensures '~' in "a~b"
    ensures RecordHost(FormatLeaseRecord("a~b", time)) == "a" && RecordTime(FormatLeaseRecord("a~b", time)) == 11
  {
    assert "a~b" == "a" + ['~'] + "b" && "a~b"[1] == '~';
    CutOnce("a", "b", '~');
    TildeHostReadsBack("a~b", time);
    assert ParseUint("b", 0) == ParseUint("", 11) == 11;
  }
}
