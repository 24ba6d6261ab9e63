/** RTP header extension lists: DeduplicateHeaderExtensions and the lookups of
    api/rtp_parameters.cc. */
module RtpExtensions {
  import opened Common

  datatype Extension = Extension(uri: string, id: int, encrypt: bool)

  datatype Filter = DiscardEncrypted | PreferEncrypted | RequireEncrypted

  // ------------------------------------------------------------ orderings

  /** Lexicographic order of strings, as std::string compares. */
  predicate Less(a: string, b: string) {
    b != "" && (a == "" || a[0] < b[0] || (a[0] == b[0] && Less(a[1..], b[1..])))
  }

  /** The first difference decides, and a proper prefix is less. */
  lemma {:induction false} LessAtDifference(a: string, b: string, i: nat)
    requires i < |a| && i < |b| && a[..i] == b[..i] && a[i] != b[i]
    ensures Less(a, b) <==> a[i] < b[i]
    decreases i
  {
    if i > 0 {
      assert a[0] == a[..i][0] && b[0] == b[..i][0];
      assert a[1..][..i - 1] == a[..i][1..] && b[1..][..i - 1] == b[..i][1..];
      LessAtDifference(a[1..], b[1..], i - 1);
    }
  }

  lemma {:induction false} PrefixIsLess(a: string, b: string)
    requires a < b
    ensures Less(a, b)
    decreases |a|
  {
    if a != "" {
      assert a == b[..|a|] && a[1..] == b[1..][..|a| - 1];
      PrefixIsLess(a[1..], b[1..]);
    }
  }

  lemma {:induction false} LessTotal(a: string, b: string)
    ensures a == b || Less(a, b) || Less(b, a)
    decreases |a|
  {
    if a != "" && b != "" && a[0] == b[0] {
      LessTotal(a[1..], b[1..]);
      assert a == [a[0]] + a[1..] && b == [b[0]] + b[1..];
    }
  }

  lemma {:induction false} LessTransitive(a: string, b: string, c: string)
    requires Less(a, b) && Less(b, c)
    ensures Less(a, c)
    decreases |a|
  {
    if a != "" && a[0] == b[0] == c[0] {
      LessTransitive(a[1..], b[1..], c[1..]);
    }
  }

  lemma {:induction false} LessAsymmetric(a: string, b: string)
    requires Less(a, b)
    ensures a != b && !Less(b, a)
    decreases |a|
  {
    if a != "" && a[0] == b[0] {
      LessAsymmetric(a[1..], b[1..]);
    }
  }

  /** The comparison given to std::sort: by uri, then encrypt, then id. */
  predicate Before(a: Extension, b: Extension) {
    || Less(a.uri, b.uri)
    || (a.uri == b.uri && ((!a.encrypt && b.encrypt) || (a.encrypt == b.encrypt && a.id < b.id)))
  }

  ghost predicate IncreasingUris(s: seq<Extension>) {
    forall i, j | 0 <= i < j < |s| :: Less(s[i].uri, s[j].uri)
  }

  ghost predicate DistinctUris(s: seq<Extension>) {
    forall i, j | 0 <= i < j < |s| :: s[i].uri != s[j].uri
  }

  // ------------------------------------------------------------ selection

  predicate Matches(x: Extension, uri: string, encrypt: bool) {
    x.uri == uri && x.encrypt == encrypt
  }

  ghost function First(s: seq<Extension>, uri: string, encrypt: bool): (r: Option<Extension>)
    ensures r.Some? ==> r.value in s && Matches(r.value, uri, encrypt)
    ensures r.None? <==> forall i | 0 <= i < |s| :: !Matches(s[i], uri, encrypt)
    decreases |s|
  {
    if s == [] then None
    else
      var r := First(s[..|s| - 1], uri, encrypt);
      assert forall i | 0 <= i < |s| - 1 :: s[..|s| - 1][i] == s[i];
      if r.Some? then r
      else if Matches(s[|s| - 1], uri, encrypt) then Some(s[|s| - 1]) else None
  }

  ghost function Last(s: seq<Extension>, uri: string, encrypt: bool): (r: Option<Extension>)
    ensures r.Some? ==> r.value in s && Matches(r.value, uri, encrypt)
    ensures r.None? <==> forall i | 0 <= i < |s| :: !Matches(s[i], uri, encrypt)
    decreases |s|
  {
    if s == [] then None
    else if Matches(s[|s| - 1], uri, encrypt) then Some(s[|s| - 1])
    else
      assert forall i | 0 <= i < |s| - 1 :: s[..|s| - 1][i] == s[i];
      Last(s[..|s| - 1], uri, encrypt)
  }

  lemma FirstSnoc(s: seq<Extension>, x: Extension, uri: string, encrypt: bool)
    ensures First(s + [x], uri, encrypt) ==
            if First(s, uri, encrypt).Some? then First(s, uri, encrypt)
            else if Matches(x, uri, encrypt) then Some(x) else None
  {
    assert (s + [x])[..|s|] == s;
  }

  /** Entry `k` is the first, or the last, with that uri and flag. */
  ghost predicate FirstAt(s: seq<Extension>, uri: string, encrypt: bool, k: int) {
    && 0 <= k < |s| && s[k].uri == uri && s[k].encrypt == encrypt
    && forall j | 0 <= j < k :: s[j].uri != uri || s[j].encrypt != encrypt
  }

  ghost predicate LastAt(s: seq<Extension>, uri: string, encrypt: bool, k: int) {
    && 0 <= k < |s| && s[k].uri == uri && s[k].encrypt == encrypt
    && forall j | k < j < |s| :: s[j].uri != uri || s[j].encrypt != encrypt
  }

  ghost predicate Absent(s: seq<Extension>, uri: string, encrypt: bool) {
    forall j | 0 <= j < |s| :: s[j].uri != uri || s[j].encrypt != encrypt
  }

  ghost predicate IsFirst(s: seq<Extension>, uri: string, encrypt: bool, r: Option<Extension>) {
    if r.None? then Absent(s, uri, encrypt) else exists k :: FirstAt(s, uri, encrypt, k) && s[k] == r.value
  }

  ghost predicate IsLast(s: seq<Extension>, uri: string, encrypt: bool, r: Option<Extension>) {
    if r.None? then Absent(s, uri, encrypt) else exists k :: LastAt(s, uri, encrypt, k) && s[k] == r.value
  }

  /** One more entry at the end. */
  lemma PositionsSnoc(t: seq<Extension>, x: Extension, uri: string, encrypt: bool, k: int)
    ensures FirstAt(t, uri, encrypt, k) ==> FirstAt(t + [x], uri, encrypt, k)
    ensures Absent(t, uri, encrypt) && Matches(x, uri, encrypt) ==> FirstAt(t + [x], uri, encrypt, |t|)
    ensures LastAt(t, uri, encrypt, k) && !Matches(x, uri, encrypt) ==> LastAt(t + [x], uri, encrypt, k)
    ensures Matches(x, uri, encrypt) ==> LastAt(t + [x], uri, encrypt, |t|)
    ensures Absent(t, uri, encrypt) && !Matches(x, uri, encrypt) ==> Absent(t + [x], uri, encrypt)
  {
  }

  lemma {:induction false} FirstIsFirst(s: seq<Extension>, uri: string, encrypt: bool)
    ensures IsFirst(s, uri, encrypt, First(s, uri, encrypt))
    decreases |s|
  {
    if s != [] {
      var t, x := s[..|s| - 1], s[|s| - 1];
      assert s == t + [x];
      FirstIsFirst(t, uri, encrypt);
      FirstSnoc(t, x, uri, encrypt);
      if First(t, uri, encrypt).Some? {
        var k :| FirstAt(t, uri, encrypt, k) && t[k] == First(t, uri, encrypt).value;
        PositionsSnoc(t, x, uri, encrypt, k);
      } else {
        PositionsSnoc(t, x, uri, encrypt, 0);
      }
    }
  }

  lemma LastSnoc(t: seq<Extension>, x: Extension, uri: string, encrypt: bool)
    ensures Last(t + [x], uri, encrypt) == if Matches(x, uri, encrypt) then Some(x) else Last(t, uri, encrypt)
  {
    assert (t + [x])[..|t|] == t;
  }

  lemma {:induction false} LastIsLast(s: seq<Extension>, uri: string, encrypt: bool)
    ensures IsLast(s, uri, encrypt, Last(s, uri, encrypt))
    decreases |s|
  {
    if s != [] {
      var t, x := s[..|s| - 1], s[|s| - 1];
      assert s == t + [x];
      LastIsLast(t, uri, encrypt);
      LastSnoc(t, x, uri, encrypt);
      if !Matches(x, uri, encrypt) && Last(t, uri, encrypt).Some? {
        var k :| LastAt(t, uri, encrypt, k) && t[k] == Last(t, uri, encrypt).value;
        PositionsSnoc(t, x, uri, encrypt, k);
      } else {
        PositionsSnoc(t, x, uri, encrypt, 0);
      }
    }
  }

  /** There is one first entry. */
  lemma FirstIsUnique(s: seq<Extension>, uri: string, encrypt: bool, a: Extension, b: Extension)
    requires IsFirst(s, uri, encrypt, Some(a)) && IsFirst(s, uri, encrypt, Some(b))
    ensures a == b
  {
    var i :| FirstAt(s, uri, encrypt, i) && s[i] == a;
    var j :| FirstAt(s, uri, encrypt, j) && s[j] == b;
  }

  /** The entry a deduplicated list keeps for a uri: its first encrypted entry
      unless those are discarded, else its first unencrypted one unless
      encryption is required. */
  ghost function Pick(s: seq<Extension>, uri: string, filter: Filter): Option<Extension> {
    if filter != DiscardEncrypted && First(s, uri, true).Some? then First(s, uri, true)
    else if filter != RequireEncrypted then First(s, uri, false)
    else None
  }

  /** What FindHeaderExtensionByUri returns: for PreferEncrypted the fallback is
      the last unencrypted entry, not the first. */
  ghost function Lookup(s: seq<Extension>, uri: string, filter: Filter): Option<Extension> {
    match filter
    case DiscardEncrypted => First(s, uri, false)
    case RequireEncrypted => First(s, uri, true)
    case PreferEncrypted => if First(s, uri, true).Some? then First(s, uri, true) else Last(s, uri, false)
  }

  /** The same by positions in the list. */
  ghost predicate FoundUnder(s: seq<Extension>, uri: string, filter: Filter, r: Option<Extension>) {
    match filter
    case DiscardEncrypted => IsFirst(s, uri, false, r)
    case RequireEncrypted => IsFirst(s, uri, true, r)
    case PreferEncrypted => if Absent(s, uri, true) then IsLast(s, uri, false, r) else IsFirst(s, uri, true, r)
  }

  /** What the lookups return, which are proved to compute these functions. */
  lemma LookupFinds(s: seq<Extension>, uri: string, filter: Filter)
    ensures FoundUnder(s, uri, filter, Lookup(s, uri, filter))
  {
    FirstIsFirst(s, uri, true);
    FirstIsFirst(s, uri, false);
    LastIsLast(s, uri, false);
  }

  /** `out` is the canonical form of `s`: uris strictly increase and it holds
      exactly the picked entry of every uri that has one. */
  ghost predicate Canonical(out: seq<Extension>, s: seq<Extension>, filter: Filter) {
    IncreasingUris(out) && Covers(out, s, filter)
  }

  ghost predicate Covers(out: seq<Extension>, s: seq<Extension>, filter: Filter) {
    && (forall i | 0 <= i < |out| :: Pick(s, out[i].uri, filter) == Some(out[i]))
    && (forall uri :: Pick(s, uri, filter).Some? ==> Pick(s, uri, filter).value in out)
  }

  // ------------------------------------------------------------ the code

  method HeaderExtensionWithUriExists(s: seq<Extension>, uri: string) returns (found: bool)
    ensures found <==> exists i :: 0 <= i < |s| && s[i].uri == uri
  {
    for i := 0 to |s|
      invariant forall k | 0 <= k < i :: s[k].uri != uri
    {
      if s[i].uri == uri {
        return true;
      }
    }
    return false;
  }

  method FindHeaderExtensionByUri(s: seq<Extension>, uri: string, filter: Filter) returns (r: Option<Extension>)
    ensures r == Lookup(s, uri, filter)
  {
    var fallback: Option<Extension> := None;
    for i := 0 to |s|
      invariant filter == DiscardEncrypted ==> First(s[..i], uri, false).None?
      invariant filter != DiscardEncrypted ==> First(s[..i], uri, true).None?
      invariant fallback == if filter == PreferEncrypted then Last(s[..i], uri, false) else None
    {
      assert s[..i + 1][..i] == s[..i];
      if s[i].uri == uri {
        match filter
        case DiscardEncrypted =>
          if !s[i].encrypt {
            FirstExtends(s, i + 1, uri, false);
            return Some(s[i]);
          }
        case PreferEncrypted =>
          if s[i].encrypt {
            FirstExtends(s, i + 1, uri, true);
            return Some(s[i]);
          } else {
            fallback := Some(s[i]);
          }
        case RequireEncrypted =>
          if s[i].encrypt {
            FirstExtends(s, i + 1, uri, true);
            return Some(s[i]);
          }
      }
    }
    assert s[..|s|] == s;
    return fallback;
  }

  method FindHeaderExtensionByUriAndEncryption(s: seq<Extension>, uri: string, encrypt: bool)
    returns (r: Option<Extension>)
    ensures r == First(s, uri, encrypt)
    ensures r == Lookup(s, uri, if encrypt then RequireEncrypted else DiscardEncrypted)
  {
    for i := 0 to |s|
      invariant First(s[..i], uri, encrypt).None?
    {
      assert s[..i + 1][..i] == s[..i];
      if s[i].uri == uri && s[i].encrypt == encrypt {
        FirstExtends(s, i + 1, uri, encrypt);
        return Some(s[i]);
      }
    }
    assert s[..|s|] == s;
    return None;
  }

  /** Once found in a prefix, the first match stays the first match. */
  lemma {:induction false} FirstExtends(s: seq<Extension>, n: nat, uri: string, encrypt: bool)
    requires n <= |s| && First(s[..n], uri, encrypt).Some?
    ensures First(s, uri, encrypt) == First(s[..n], uri, encrypt)
    decreases |s|
  {
    if n == |s| {
      assert s[..n] == s;
    } else {
      var t := s[..|s| - 1];
      assert t[..n] == s[..n];
      FirstExtends(t, n, uri, encrypt);
    }
  }

  /** `out` collects, over `s[..n]`, the first entry with this flag of every uri
      not already in `base`. */
  ghost predicate Collected(out: seq<Extension>, base: seq<Extension>, s: seq<Extension>, n: nat, encrypt: bool)
    requires n <= |s|
  {
    && DistinctUris(out)
    && base <= out
    && (forall i | |base| <= i < |out| :: First(s[..n], out[i].uri, encrypt) == Some(out[i]))
    && (forall k | 0 <= k < n && s[k].encrypt == encrypt :: exists i :: 0 <= i < |out| && out[i].uri == s[k].uri)
  }

  /** One of the two passes that push missing entries. */
  method AddMissing(s: seq<Extension>, base: seq<Extension>, encrypt: bool) returns (out: seq<Extension>)
    requires DistinctUris(base)
    ensures Collected(out, base, s, |s|, encrypt)
  {
    out := base;
    for n := 0 to |s|
      invariant Collected(out, base, s, n, encrypt)
    {
      ghost var before := out;
      if s[n].encrypt == encrypt {
        var present := HeaderExtensionWithUriExists(out, s[n].uri);
        if !present {
          out := out + [s[n]];
        }
      }
      CollectedStep(before, out, base, s, n, encrypt);
    }
  }

  lemma CollectedStep(before: seq<Extension>, out: seq<Extension>, base: seq<Extension>,
                      s: seq<Extension>, n: nat, encrypt: bool)
    requires n < |s| && Collected(before, base, s, n, encrypt)
    requires var present := exists i :: 0 <= i < |before| && before[i].uri == s[n].uri;
             out == if s[n].encrypt == encrypt && !present then before + [s[n]] else before
    ensures Collected(out, base, s, n + 1, encrypt)
  {
    assert s[..n + 1] == s[..n] + [s[n]];
    forall i | |base| <= i < |out|
      ensures First(s[..n + 1], out[i].uri, encrypt) == Some(out[i])
    {
      FirstSnoc(s[..n], s[n], out[i].uri, encrypt);
      if i == |before| {
        assert First(s[..n], s[n].uri, encrypt).None?;
      }
    }
    forall k | 0 <= k < n + 1 && s[k].encrypt == encrypt
      ensures exists i :: 0 <= i < |out| && out[i].uri == s[k].uri
    {
      if k == n && |out| > |before| {
        assert out[|before|].uri == s[k].uri;
      } else if k < n {
        var i :| 0 <= i < |before| && before[i].uri == s[k].uri;
        assert out[i] == before[i];
      }
    }
  }

  lemma CollectedCovers(enc: seq<Extension>, out: seq<Extension>, s: seq<Extension>, filter: Filter)
    requires if filter == DiscardEncrypted then enc == [] else Collected(enc, [], s, |s|, true)
    requires if filter == RequireEncrypted then out == enc else Collected(out, enc, s, |s|, false)
    ensures DistinctUris(out) && Covers(out, s, filter)
  {
    assert s[..|s|] == s;
    forall i | 0 <= i < |out| ensures Pick(s, out[i].uri, filter) == Some(out[i]) {
      if i < |enc| {
        assert enc[i] == out[i];
      } else {
        NotEncrypted(enc, out, s, filter, i);
      }
    }
    forall uri | Pick(s, uri, filter).Some? ensures Pick(s, uri, filter).value in out {
      var x := Pick(s, uri, filter).value;
      var k :| 0 <= k < |s| && s[k] == x;
      if x.encrypt {
        var i :| 0 <= i < |enc| && enc[i].uri == uri;
        assert enc[i] == out[i];
      } else {
        var i :| 0 <= i < |out| && out[i].uri == uri;
        assert Pick(s, out[i].uri, filter) == Some(out[i]);
      }
    }
  }

  /** An entry of the second pass has no encrypted entry that could be kept. */
  lemma NotEncrypted(enc: seq<Extension>, out: seq<Extension>, s: seq<Extension>, filter: Filter, i: nat)
    requires if filter == DiscardEncrypted then enc == [] else Collected(enc, [], s, |s|, true)
    requires filter != RequireEncrypted && Collected(out, enc, s, |s|, false)
    requires |enc| <= i < |out|
    ensures filter == DiscardEncrypted || First(s, out[i].uri, true).None?
  {
    if filter != DiscardEncrypted {
      forall k | 0 <= k < |s| ensures !Matches(s[k], out[i].uri, true) {
        if s[k].encrypt {
          var j :| 0 <= j < |enc| && enc[j].uri == s[k].uri;
          assert out[j] == enc[j];
        }
      }
    }
  }

  /** std::sort with the comparison above. */
  method SortExtensions(s: seq<Extension>) returns (r: seq<Extension>)
    requires DistinctUris(s)
    ensures IncreasingUris(r)
    ensures |r| == |s| && forall x :: x in r <==> x in s
  {
    r := [];
    for n := 0 to |s|
      invariant IncreasingUris(r)
      invariant |r| == n && forall x :: x in r <==> x in s[..n]
    {
      assert forall i | 0 <= i < |r| :: r[i].uri != s[n].uri by {
        forall i | 0 <= i < |r| ensures r[i].uri != s[n].uri {
          assert r[i] in s[..n];
        }
      }
      var k := |r|;
      while k > 0 && Before(s[n], r[k - 1])
        invariant 0 <= k <= |r|
        invariant forall i | k <= i < |r| :: Less(s[n].uri, r[i].uri)
      {
        k := k - 1;
      }
      InsertKeepsIncreasing(r, s[n], k);
      assert s[..n + 1] == s[..n] + [s[n]];
      r := r[..k] + [s[n]] + r[k..];
    }
    assert s[..|s|] == s;
  }

  lemma InsertKeepsIncreasing(r: seq<Extension>, x: Extension, k: nat)
    requires IncreasingUris(r) && k <= |r| && forall i | 0 <= i < |r| :: r[i].uri != x.uri
    requires forall i | k <= i < |r| :: Less(x.uri, r[i].uri)
    requires k == 0 || !Before(x, r[k - 1])
    ensures IncreasingUris(r[..k] + [x] + r[k..])
    ensures forall y :: y in r[..k] + [x] + r[k..] <==> y in r || y == x
  {
    forall i | 0 <= i < k ensures Less(r[i].uri, x.uri) {
      LessTotal(r[k - 1].uri, x.uri);
      if i < k - 1 {
        LessTransitive(r[i].uri, r[k - 1].uri, x.uri);
      }
    }
    InsertBetween(r, x, k);
    assert r == r[..k] + r[k..];
  }

  lemma InsertBetween(r: seq<Extension>, x: Extension, k: nat)
    requires IncreasingUris(r) && k <= |r|
    requires forall i | 0 <= i < k :: Less(r[i].uri, x.uri)
    requires forall i | k <= i < |r| :: Less(x.uri, r[i].uri)
    ensures IncreasingUris(r[..k] + [x] + r[k..])
  {
    var t := r[..k] + [x] + r[k..];
    assert t[k] == x;
    assert forall i | 0 <= i < k :: t[i] == r[i];
    assert forall i | k < i < |t| :: t[i] == r[i - 1];
    forall i, j | 0 <= i < j < |t| ensures Less(t[i].uri, t[j].uri) {
      if j < k {
        assert Less(r[i].uri, r[j].uri);
      } else if i < k < j {
        assert Less(r[i].uri, r[j - 1].uri);
      } else if k < i {
        assert Less(r[i - 1].uri, r[j - 1].uri);
      }
    }
  }

  /** DeduplicateHeaderExtensions produces the canonical form. */
  method DeduplicateHeaderExtensions(s: seq<Extension>, filter: Filter) returns (filtered: seq<Extension>)
    ensures Canonical(filtered, s, filter) && filtered == Deduplicated(s, filter)
  {
    filtered := [];
    if filter != DiscardEncrypted {
      filtered := AddMissing(s, filtered, true);
    }
    ghost var encrypted := filtered;
    if filter != RequireEncrypted {
      filtered := AddMissing(s, filtered, false);
    }
    CollectedCovers(encrypted, filtered, s, filter);
    ghost var unsorted := filtered;
    filtered := SortExtensions(filtered);
    SortingKeepsCover(unsorted, filtered, s, filter);
    CanonicalIsUnique(filtered, s, filter);
  }

  lemma SortingKeepsCover(a: seq<Extension>, b: seq<Extension>, s: seq<Extension>, filter: Filter)
    requires Covers(a, s, filter) && forall x :: x in b <==> x in a
    ensures Covers(b, s, filter)
  {
    forall i | 0 <= i < |b| ensures Pick(s, b[i].uri, filter) == Some(b[i]) {
      assert b[i] in a;
    }
  }

  // ------------------------------------------------------------ laws

  /** Two lists in strictly increasing uri order with the same entries are equal. */
  lemma {:induction false} IncreasingIsUnique(a: seq<Extension>, b: seq<Extension>)
    requires IncreasingUris(a) && IncreasingUris(b) && forall x :: x in a <==> x in b
    ensures a == b
    decreases |a|
  {
    NoMembers(a);
    NoMembers(b);
    if a != [] {
      assert a[0] in b;
      HeadsAgree(a, b);
      var a', b' := a[1..], b[1..];
      forall x ensures x in a' <==> x in b' {
        TailMembers(a, x);
        TailMembers(b, x);
      }
      IncreasingIsUnique(a', b');
      assert a == [a[0]] + a' && b == [b[0]] + b';
    }
  }

  lemma NoMembers(a: seq<Extension>)
    ensures a == [] <==> forall x :: x !in a
  {
    if a != [] {
      assert a[0] in a;
    }
  }

  lemma TailMembers(a: seq<Extension>, x: Extension)
    requires a != [] && IncreasingUris(a)
    ensures x in a[1..] <==> x in a && x != a[0]
  {
    if x in a[1..] {
      var i :| 0 <= i < |a| - 1 && a[1..][i] == x;
      LessAsymmetric(a[0].uri, a[i + 1].uri);
    }
    if x in a && x != a[0] {
      var i :| 0 <= i < |a| && a[i] == x;
      assert a[1..][i - 1] == x;
    }
  }

  lemma HeadsAgree(a: seq<Extension>, b: seq<Extension>)
    requires IncreasingUris(a) && IncreasingUris(b) && a != [] && b != []
    requires a[0] in b && b[0] in a
    ensures a[0] == b[0]
  {
    var i :| 0 <= i < |b| && b[i] == a[0];
    var j :| 0 <= j < |a| && a[j] == b[0];
    if i != 0 && j != 0 {
      LessAsymmetric(b[0].uri, b[i].uri);
    }
  }

  ghost predicate SamePicks(s: seq<Extension>, t: seq<Extension>, filter: Filter) {
    forall uri :: Pick(s, uri, filter) == Pick(t, uri, filter)
  }

  /** Deduplicated lists are equal exactly when their inputs pick the same entries. */
  lemma CanonicalFormDecidesPicks(a: seq<Extension>, s: seq<Extension>, b: seq<Extension>, t: seq<Extension>,
                                  filter: Filter)
    requires Canonical(a, s, filter) && Canonical(b, t, filter)
    ensures a == b <==> SamePicks(s, t, filter)
  {
    if SamePicks(s, t, filter) {
      forall x ensures x in a <==> x in b {
        assert Pick(s, x.uri, filter) == Pick(t, x.uri, filter);
      }
      IncreasingIsUnique(a, b);
    }
    if a == b {
      forall uri ensures Pick(s, uri, filter) == Pick(t, uri, filter) {
        PicksComeFromForm(a, s, t, uri, filter);
        PicksComeFromForm(a, t, s, uri, filter);
      }
    }
  }

  lemma PicksComeFromForm(a: seq<Extension>, s: seq<Extension>, t: seq<Extension>, uri: string, filter: Filter)
    requires Covers(a, s, filter) && Covers(a, t, filter)
    ensures Pick(s, uri, filter).Some? ==> Pick(t, uri, filter) == Pick(s, uri, filter)
  {
    if Pick(s, uri, filter).Some? {
      var i :| 0 <= i < |a| && a[i] == Pick(s, uri, filter).value;
    }
  }

  lemma InsertSomewhere(r: seq<Extension>, x: Extension) returns (r': seq<Extension>)
    requires IncreasingUris(r) && forall i | 0 <= i < |r| :: r[i].uri != x.uri
    ensures IncreasingUris(r') && forall y :: y in r' <==> y in r || y == x
  {
    var k := 0;
    while k < |r| && !Less(x.uri, r[k].uri)
      invariant 0 <= k <= |r| && forall i | 0 <= i < k :: !Less(x.uri, r[i].uri)
    {
      k := k + 1;
    }
    forall i | 0 <= i < k ensures Less(r[i].uri, x.uri) {
      LessTotal(r[i].uri, x.uri);
    }
    forall i | k <= i < |r| ensures Less(x.uri, r[i].uri) {
      if i > k {
        LessTransitive(x.uri, r[k].uri, r[i].uri);
      }
    }
    InsertBetween(r, x, k);
    r' := r[..k] + [x] + r[k..];
    assert r == r[..k] + r[k..];
  }

  /** The kept entries of the first `n` uris can be put in order. */
  lemma {:induction false} SomeAreCovered(s: seq<Extension>, filter: Filter, n: nat) returns (out: seq<Extension>)
    requires n <= |s|
    ensures IncreasingUris(out) && forall i | 0 <= i < |out| :: Pick(s, out[i].uri, filter) == Some(out[i])
    ensures forall i | 0 <= i < n && Pick(s, s[i].uri, filter).Some? :: Pick(s, s[i].uri, filter).value in out
    decreases n
  {
    if n == 0 {
      out := [];
    } else {
      out := SomeAreCovered(s, filter, n - 1);
      var kept := Pick(s, s[n - 1].uri, filter);
      if kept.Some? && kept.value !in out {
        var before := out;
        assert kept.value.uri == s[n - 1].uri;
        out := InsertSomewhere(before, kept.value);
        forall i | 0 <= i < |out| ensures Pick(s, out[i].uri, filter) == Some(out[i]) {
          assert out[i] in out;
          assert out[i] in before || out[i] == kept.value;
        }
      }
    }
  }

  lemma CanonicalExists(s: seq<Extension>, filter: Filter)
    ensures exists out :: Canonical(out, s, filter)
  {
    var out := SomeAreCovered(s, filter, |s|);
    forall uri | Pick(s, uri, filter).Some? ensures Pick(s, uri, filter).value in out {
      var x := Pick(s, uri, filter).value;
      assert x in s && x.uri == uri;
    }
    assert Canonical(out, s, filter);
  }

  /** The canonical form of `s`, of which there is one. */
  ghost function Deduplicated(s: seq<Extension>, filter: Filter): (out: seq<Extension>)
    ensures Canonical(out, s, filter)
  {
    CanonicalExists(s, filter);
    var out :| Canonical(out, s, filter);
    out
  }

  /** An entry is kept iff it is the first of its uri and flag, the filter allows that
      flag, and no encrypted entry of its uri is preferred to it. */
  ghost predicate Kept(s: seq<Extension>, filter: Filter, x: Extension) {
    && IsFirst(s, x.uri, x.encrypt, Some(x))
    && (x.encrypt ==> filter != DiscardEncrypted)
    && (!x.encrypt ==> filter != RequireEncrypted && (filter == PreferEncrypted ==> Absent(s, x.uri, true)))
  }

  lemma PickIsKept(s: seq<Extension>, filter: Filter, x: Extension)
    ensures Pick(s, x.uri, filter) == Some(x) <==> Kept(s, filter, x)
  {
    var e, u := First(s, x.uri, true), First(s, x.uri, false);
    FirstIsFirst(s, x.uri, true);
    FirstIsFirst(s, x.uri, false);
    if Kept(s, filter, x) {
      if x.encrypt {
        HasFirst(s, x);
        FirstIsUnique(s, x.uri, true, x, e.value);
      } else {
        HasFirst(s, x);
        FirstIsUnique(s, x.uri, false, x, u.value);
      }
    }
  }

  lemma HasFirst(s: seq<Extension>, x: Extension)
    requires IsFirst(s, x.uri, x.encrypt, Some(x))
    ensures First(s, x.uri, x.encrypt).Some?
  {
    var k :| FirstAt(s, x.uri, x.encrypt, k) && s[k] == x;
    assert Matches(s[k], x.uri, x.encrypt);
  }

  /** What deduplication keeps, without the order: exactly those entries. */
  lemma DeduplicatedKeeps(s: seq<Extension>, filter: Filter, x: Extension)
    ensures x in Deduplicated(s, filter) <==> Kept(s, filter, x)
  {
    PickIsKept(s, filter, x);
  }

  lemma CanonicalIsUnique(a: seq<Extension>, s: seq<Extension>, filter: Filter)
    requires Canonical(a, s, filter)
    ensures a == Deduplicated(s, filter)
  {
    CanonicalFormDecidesPicks(a, s, Deduplicated(s, filter), s, filter);
  }

  /** In a list with distinct uris an entry is both the first and the last match
      for its own flag and nothing matches the other flag. */
  lemma OnlyMatch(a: seq<Extension>, i: nat, encrypt: bool)
    requires DistinctUris(a) && i < |a|
    ensures var r := if a[i].encrypt == encrypt then Some(a[i]) else None;
            First(a, a[i].uri, encrypt) == r && Last(a, a[i].uri, encrypt) == r
  {
    var f, l := First(a, a[i].uri, encrypt), Last(a, a[i].uri, encrypt);
    if f.Some? {
      var j :| 0 <= j < |a| && a[j] == f.value;
      assert i == j;
    }
    if l.Some? {
      var j :| 0 <= j < |a| && a[j] == l.value;
      assert i == j;
    }
  }

  lemma IncreasingIsDistinct(a: seq<Extension>)
    requires IncreasingUris(a)
    ensures DistinctUris(a)
  {
    forall i, j | 0 <= i < j < |a| ensures a[i].uri != a[j].uri {
      LessAsymmetric(a[i].uri, a[j].uri);
    }
  }

  /** Looking a uri up in the canonical form finds the picked entry. */
  lemma LookupInCanonical(a: seq<Extension>, s: seq<Extension>, uri: string, filter: Filter)
    requires Canonical(a, s, filter)
    ensures Pick(a, uri, filter) == Pick(s, uri, filter) == Lookup(a, uri, filter)
  {
    IncreasingIsDistinct(a);
    if i :| 0 <= i < |a| && a[i].uri == uri {
      OnlyMatch(a, i, true);
      OnlyMatch(a, i, false);
      assert Pick(s, a[i].uri, filter) == Some(a[i]);
    }
  }

  /** Deduplicating a deduplicated list changes nothing. */
  lemma Idempotent(a: seq<Extension>, b: seq<Extension>, s: seq<Extension>, filter: Filter)
    requires Canonical(a, s, filter) && Canonical(b, a, filter)
    ensures a == b
  {
    forall uri ensures Pick(s, uri, filter) == Pick(a, uri, filter) {
      LookupInCanonical(a, s, uri, filter);
    }
    CanonicalFormDecidesPicks(a, s, b, a, filter);
  }

  /** Lookup commutes with deduplication, except that preferring encryption falls
      back to the last unencrypted entry where deduplication kept the first. */
  lemma LookupCommutes(a: seq<Extension>, s: seq<Extension>, uri: string, filter: Filter)
    requires Canonical(a, s, filter)
    ensures Lookup(a, uri, filter) == Lookup(s, uri, filter) <==>
            || filter != PreferEncrypted
            || First(s, uri, true).Some?
            || First(s, uri, false) == Last(s, uri, false)
  {
    LookupInCanonical(a, s, uri, filter);
  }

  /** A list for which the exception is real. */
  lemma LookupCounterexample()
    ensures var s := [Extension("u", 1, false), Extension("u", 2, false)];
            Pick(s, "u", PreferEncrypted) == Some(s[0]) && Lookup(s, "u", PreferEncrypted) == Some(s[1])
  {
    var s := [Extension("u", 1, false), Extension("u", 2, false)];
    assert s[..1] == [s[0]];
    assert First(s[..1], "u", false) == Some(s[0]);
  }

  /** The flag of the entries among which a uri's kept entry is chosen. */
  ghost predicate Eligible(s: seq<Extension>, x: Extension, filter: Filter) {
    match filter
    case DiscardEncrypted => !x.encrypt
    case RequireEncrypted => x.encrypt
    case PreferEncrypted => x.encrypt || First(s, x.uri, true).None?
  }

  /** No uri has two different entries to choose from. */
  ghost predicate Unambiguous(s: seq<Extension>, filter: Filter) {
    forall i, j | 0 <= i < |s| && 0 <= j < |s| && Matches(s[i], s[j].uri, s[j].encrypt) && Eligible(s, s[i], filter) ::
      s[i] == s[j]
  }

  lemma MembersOf(s: seq<Extension>, t: seq<Extension>)
    requires multiset(s) == multiset(t)
    ensures forall x :: x in s <==> x in t
  {
    forall x ensures x in s <==> x in t {
      assert x in s <==> x in multiset(s);
      assert x in t <==> x in multiset(t);
    }
  }

  lemma HasMatch(s: seq<Extension>, t: seq<Extension>, uri: string, encrypt: bool)
    requires forall x :: x in s <==> x in t
    ensures First(s, uri, encrypt).None? <==> First(t, uri, encrypt).None?
  {
    if First(t, uri, encrypt).Some? {
      assert First(t, uri, encrypt).value in s;
    }
    if First(s, uri, encrypt).Some? {
      assert First(s, uri, encrypt).value in t;
    }
  }

  lemma PermutationPick(s: seq<Extension>, t: seq<Extension>, uri: string, filter: Filter)
    requires multiset(s) == multiset(t) && Unambiguous(s, filter)
    ensures Pick(s, uri, filter) == Pick(t, uri, filter)
  {
    MembersOf(s, t);
    HasMatch(s, t, uri, true);
    HasMatch(s, t, uri, false);
    if Pick(s, uri, filter).Some? {
      var x, y := Pick(s, uri, filter).value, Pick(t, uri, filter).value;
      assert x in s && y in s;
      var i :| 0 <= i < |s| && s[i] == x;
      var j :| 0 <= j < |s| && s[j] == y;
    }
  }

  ghost function ToFront(s: seq<Extension>, i: nat): seq<Extension>
    requires i < |s|
  {
    [s[i]] + (s[..i] + s[i + 1..])
  }

  lemma ToFrontPermutes(s: seq<Extension>, i: nat)
    requires i < |s|
    ensures multiset(ToFront(s, i)) == multiset(s)
  {
    assert s == s[..i] + ([s[i]] + s[i + 1..]);
  }

  lemma FrontIsFirst(s: seq<Extension>)
    requires s != []
    ensures First(s, s[0].uri, s[0].encrypt) == Some(s[0])
  {
    var t := s[..1];
    assert t[..0] == [] && t == [s[0]];
    assert First(t, s[0].uri, s[0].encrypt) == Some(s[0]);
    FirstExtends(s, 1, s[0].uri, s[0].encrypt);
  }

  lemma FrontIsPicked(s: seq<Extension>, i: nat, filter: Filter)
    requires i < |s| && Eligible(s, s[i], filter)
    ensures Pick(ToFront(s, i), s[i].uri, filter) == Some(s[i])
  {
    ToFrontPermutes(s, i);
    MembersOf(s, ToFront(s, i));
    HasMatch(s, ToFront(s, i), s[i].uri, true);
    FrontIsFirst(ToFront(s, i));
  }

  lemma PicksAreOrderIndependent(s: seq<Extension>, filter: Filter)
    ensures Unambiguous(s, filter) <==> forall t | multiset(t) == multiset(s) :: SamePicks(s, t, filter)
  {
    if Unambiguous(s, filter) {
      forall t, uri | multiset(t) == multiset(s) ensures Pick(s, uri, filter) == Pick(t, uri, filter) {
        PermutationPick(s, t, uri, filter);
      }
    } else {
      var i, j :| 0 <= i < |s| && 0 <= j < |s| && Matches(s[i], s[j].uri, s[j].encrypt)
                  && Eligible(s, s[i], filter) && s[i] != s[j];
      FrontIsPicked(s, i, filter);
      FrontIsPicked(s, j, filter);
      ToFrontPermutes(s, i);
      ToFrontPermutes(s, j);
      var p, q := ToFront(s, i), ToFront(s, j);
      var kept := Pick(s, s[i].uri, filter);
      assert Pick(p, s[i].uri, filter) != kept || Pick(q, s[i].uri, filter) != kept;
      assert !SamePicks(s, p, filter) || !SamePicks(s, q, filter);
    }
  }

  /** Every order of the input gives the same output exactly when no uri has two
      different entries to choose from. */
  lemma OrderIndependence(s: seq<Extension>, filter: Filter)
    ensures Unambiguous(s, filter) <==>
            forall t | multiset(t) == multiset(s) :: Deduplicated(t, filter) == Deduplicated(s, filter)
  {
    PicksAreOrderIndependent(s, filter);
    forall t ensures Deduplicated(t, filter) == Deduplicated(s, filter) <==> SamePicks(s, t, filter) {
      CanonicalFormDecidesPicks(Deduplicated(s, filter), s, Deduplicated(t, filter), t, filter);
    }
  }
}
