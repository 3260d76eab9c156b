/**
  * The few pieces of `java.lang.String` the service relies on: `trim()`, blank tests,
  * `endsWith`, decimal rendering of an `int` and the lexicographic order of `compareTo`.
  */
module Text {

  /** `String.trim()` removes every leading and trailing char whose code is at most U+0020. */
  predicate IsTrimmable(c: char) {
    c <= ' '
  }

  function TrimStart(s: string): (r: string)
    ensures |r| <= |s| && r == s[|s| - |r|..]
    ensures r != [] ==> !IsTrimmable(r[0])
    ensures forall i :: 0 <= i < |s| - |r| ==> IsTrimmable(s[i])
  {
    if s != [] && IsTrimmable(s[0]) then TrimStart(s[1..]) else s
  }

  function TrimEnd(s: string): (r: string)
    ensures |r| <= |s| && r == s[..|r|]
    ensures r != [] ==> !IsTrimmable(r[|r| - 1])
    ensures forall i :: |r| <= i < |s| ==> IsTrimmable(s[i])
  {
    if s != [] && IsTrimmable(s[|s| - 1]) then TrimEnd(s[..|s| - 1]) else s
  }

  /**
    * `r` is `s` with what comes before index `i` and after `r` cut away, and every char cut
    * away is removable by `trim()`.
    */
  predicate TrimmedAt(s: string, r: string, i: int) {
    0 <= i <= i + |r| <= |s| && r == s[i..i + |r|]
    && (forall j :: 0 <= j < i ==> IsTrimmable(s[j]))
    && (forall j :: i + |r| <= j < |s| ==> IsTrimmable(s[j]))
  }

  /** Neither end of `r` is removable by `trim()`. */
  predicate HasSolidEnds(r: string) {
    r == [] || (!IsTrimmable(r[0]) && !IsTrimmable(r[|r| - 1]))
  }

  /** How many removable chars `trim()` cuts from the front of `s`. */
  function LeadCount(s: string): (n: nat)
    ensures n <= |s|
    ensures forall j :: 0 <= j < n ==> IsTrimmable(s[j])
    ensures n < |s| ==> !IsTrimmable(s[n])
  {
    |s| - |TrimStart(s)|
  }

  /**
    * Java's `s.trim()`: the leading and trailing removable chars are cut away and nothing else,
    * so what remains has no removable char at either end.
    */
  function Trim(s: string): (r: string)
    ensures HasSolidEnds(r)
    ensures TrimmedAt(s, r, LeadCount(s))
  {
    var t := TrimStart(s);
    var r := TrimEnd(t);
    assert r != [] ==> r[0] == t[0];
    TrimStartEnd(s);
    r
  }

  /** The result of trimming, cut at the first char `TrimStart` keeps. */
  lemma TrimStartEnd(s: string)
    ensures TrimmedAt(s, TrimEnd(TrimStart(s)), |s| - |TrimStart(s)|)
  {
    var t := TrimStart(s);
    SliceCut(s, t, TrimEnd(t), |s| - |t|);
  }

  /** Cutting removable chars from the front of `s` and then from the back of what is left. */
  lemma SliceCut(s: string, t: string, r: string, i: nat)
    requires i <= |s| && t == s[i..] && |r| <= |t| && r == t[..|r|]
    requires forall j :: 0 <= j < i ==> IsTrimmable(s[j])
    requires forall k :: |r| <= k < |t| ==> IsTrimmable(t[k])
    ensures TrimmedAt(s, r, i)
  {
    PrefixOfSuffix(s, i, |r|);
    forall j | i + |r| <= j < |s| ensures IsTrimmable(s[j]) {
      assert s[j] == t[j - i];
    }
  }

  /** Java's `s.trim().isEmpty()`. */
  predicate IsBlank(s: string) {
    Trim(s) == []
  }

  /**
    * The contract of `Trim` pins it down: any slice of `s` with solid ends whose cut-away chars
    * are all removable is `Trim(s)`.
    */
  lemma TrimUnique(s: string, r: string, i: int)
    requires TrimmedAt(s, r, i) && HasSolidEnds(r)
    ensures r == Trim(s)
  {
    var k := LeadCount(s);
    var q := Trim(s);
    if r == [] {
      forall j | 0 <= j < |s| ensures IsTrimmable(s[j]) {
      }
      BlankIffAllTrimmable(s);
    } else {
      assert s[i] == r[0] && s[i + |r| - 1] == r[|r| - 1];
      assert s[k] == q[0] && s[k + |q| - 1] == q[|q| - 1];
      assert i == k;
      assert |r| == |q|;
    }
  }

  lemma PrefixOfSuffix<T>(s: seq<T>, i: nat, n: nat)
    requires i + n <= |s|
    ensures s[i..][..n] == s[i..i + n]
  {
  }

  /** Trimming twice is trimming once. */
  lemma TrimIdempotent(s: string)
    ensures Trim(Trim(s)) == Trim(s)
  {
    var r := Trim(s);
    assert TrimmedAt(r, r, 0);
    TrimUnique(r, r, 0);
  }

  /** A string is blank exactly when every one of its chars is removable by `trim()`. */
  lemma BlankIffAllTrimmable(s: string)
    ensures IsBlank(s) <==> forall i :: 0 <= i < |s| ==> IsTrimmable(s[i])
  {
    var t := TrimStart(s);
    assert IsBlank(s) ==> TrimEnd(t) == [];
  }

  /** Java's `s.endsWith(suffix)`, case-sensitive: `s` is some text followed by `suffix`. */
  predicate EndsWith(s: string, suffix: string)
    ensures EndsWith(s, suffix) <==> exists p :: s == p + suffix
  {
    if |suffix| <= |s| && s[|s| - |suffix|..] == suffix then
      assert s == s[..|s| - |suffix|] + suffix;
      true
    else
      false
  }

  predicate IsDigit(c: char) {
    '0' <= c <= '9'
  }

  function DigitChar(d: int): (c: char)
    requires 0 <= d < 10
    ensures IsDigit(c)
  {
    (('0' as int) + d) as char
  }

  function DigitValue(c: char): (d: int)
    requires IsDigit(c)
    ensures 0 <= d < 10 && DigitChar(d) == c
  {
    (c as int) - ('0' as int)
  }

  /** Decimal digits of a natural number, most significant first, without leading zeros. */
  function NatToString(n: nat): (r: string)
    ensures |r| > 0
    ensures forall i :: 0 <= i < |r| ==> IsDigit(r[i])
  {
    if n < 10 then [DigitChar(n)] else NatToString(n / 10) + [DigitChar(n % 10)]
  }

  /** `String.valueOf(int)`: an optional minus sign followed by the decimal digits. */
  function IntToString(n: int): string {
    if n < 0 then "-" + NatToString(-n) else NatToString(n)
  }

  /** The decimal rendering of any integer is never blank. */
  lemma IntToStringNotBlank(n: int)
    ensures !IsBlank(IntToString(n))
  {
    var r := IntToString(n);
    assert !IsTrimmable(r[0]);
    BlankIffAllTrimmable(r);
  }

  /** `a.compareTo(b) < 0`: lexicographic order on chars, a proper prefix first. */
  predicate Less(a: string, b: string) {
    if a == [] then b != []
    else if b == [] then false
    else a[0] < b[0] || (a[0] == b[0] && Less(a[1..], b[1..]))
  }

  /** `b` starts with all of `a` and has more. */
  predicate IsProperPrefix(a: string, b: string) {
    |a| < |b| && a == b[..|a|]
  }

  /** `a` and `b` agree before index `k`, and at `k` the char of `a` is the smaller. */
  predicate FirstDifferenceBelow(a: string, b: string, k: int) {
    0 <= k < |a| && k < |b| && a[..k] == b[..k] && a[k] < b[k]
  }

  /**
    * The order `String.compareTo` documents: `a` comes first when it is a proper prefix of
    * `b`, or when at the first index where they differ its char is the smaller.
    */
  lemma LessIffFirstDifference(a: string, b: string)
    ensures Less(a, b) <==> IsProperPrefix(a, b) || exists k :: FirstDifferenceBelow(a, b, k)
  {
    if IsProperPrefix(a, b) {
      PrefixIsLess(a, b);
    }
    forall k | FirstDifferenceBelow(a, b, k) ensures Less(a, b) {
      DifferenceIsLess(a, b, k);
    }
    if Less(a, b) {
      LessHasReason(a, b);
    }
  }

  lemma {:induction false} PrefixIsLess(a: string, b: string)
    requires IsProperPrefix(a, b)
    ensures Less(a, b)
  {
    if a != [] {
      assert b[1..][..|a| - 1] == a[1..];
      PrefixIsLess(a[1..], b[1..]);
    }
  }

  lemma {:induction false} DifferenceIsLess(a: string, b: string, k: int)
    requires FirstDifferenceBelow(a, b, k)
    ensures Less(a, b)
  {
    if k > 0 {
      assert a[0] == a[..k][0] == b[..k][0] == b[0];
      assert a[1..][..k - 1] == a[1..k] == b[1..k] == b[1..][..k - 1];
      DifferenceIsLess(a[1..], b[1..], k - 1);
    }
  }

  lemma {:induction false} LessHasReason(a: string, b: string)
    requires Less(a, b)
    ensures IsProperPrefix(a, b) || exists k :: FirstDifferenceBelow(a, b, k)
  {
    if a == [] {
      assert IsProperPrefix(a, b);
    } else if a[0] < b[0] {
      assert FirstDifferenceBelow(a, b, 0);
    } else {
      var a', b' := a[1..], b[1..];
      LessHasReason(a', b');
      if IsProperPrefix(a', b') {
        assert a == [a[0]] + a' && b[..|a|] == [b[0]] + b'[..|a'|];
      } else {
        var k :| FirstDifferenceBelow(a', b', k);
        assert a[..k + 1] == [a[0]] + a'[..k] && b[..k + 1] == [b[0]] + b'[..k];
        assert FirstDifferenceBelow(a, b, k + 1);
      }
    }
  }

  lemma {:induction false} LessIrreflexive(a: string)
    ensures !Less(a, a)
  {
    if a != [] {
      LessIrreflexive(a[1..]);
    }
  }

  lemma {:induction false} LessTransitive(a: string, b: string, c: string)
    requires Less(a, b) && Less(b, c)
    ensures Less(a, c)
  {
    if a != [] && b != [] && c != [] && a[0] == b[0] == c[0] {
      LessTransitive(a[1..], b[1..], c[1..]);
    }
  }

  lemma {:induction false} LessTotal(a: string, b: string)
    requires a != b
    ensures Less(a, b) || Less(b, a)
  {
    if a != [] && b != [] && a[0] == b[0] {
      assert a == [a[0]] + a[1..] && b == [b[0]] + b[1..];
      LessTotal(a[1..], b[1..]);
    }
  }

  lemma {:induction false} LessAsymmetric(a: string, b: string)
    requires Less(a, b)
    ensures !Less(b, a)
  {
    if a != [] && b != [] && a[0] == b[0] {
      LessAsymmetric(a[1..], b[1..]);
    }
  }

  /** Comparing two strings that start with prefixes of equal length compares the prefixes first. */
  lemma {:induction false} LessConcat(p: string, s: string, q: string, t: string)
    requires |p| == |q|
    ensures Less(p + s, q + t) <==> Less(p, q) || (p == q && Less(s, t))
  {
    if p == [] {
      assert p + s == s && q + t == t;
    } else {
      assert (p + s)[0] == p[0] && (q + t)[0] == q[0];
      assert (p + s)[1..] == p[1..] + s && (q + t)[1..] == q[1..] + t;
      LessConcat(p[1..], s, q[1..], t);
      if p[0] == q[0] {
        assert p == q <==> p[1..] == q[1..] by {
          assert p == [p[0]] + p[1..] && q == [q[0]] + q[1..];
        }
      }
    }
  }
}
