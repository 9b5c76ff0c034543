/** The two string operations the scraper applies to dates: `slice(0, 10)`
    and the comparison operators `<` and `>`. */
module RubyStrings {

  /** How many characters of an ISO timestamp are kept: the date part. */
  const DateLength: nat := 10

  /** `s.slice(0, n)` (and the value `s.slice!(0, n)` returns): the first n
      characters of s, or all of s when it is shorter. */
  function Slice(s: string, n: nat): (r: string)
    ensures |r| == if |s| < n then |s| else n
    ensures r <= s
  {
    if |s| <= n then s else s[..n]
  }

  /** Ruby's `a < b` on strings (so `b > a` too): the first position where
      the two differ decides, and a proper prefix comes first. This is not
      Dafny's `<` on sequences, which means "proper prefix" only. */
  predicate Less(a: string, b: string)
    decreases |a|
  {
    if b == [] then false
    else if a == [] then true
    else if a[0] == b[0] then Less(a[1..], b[1..])
    else a[0] < b[0]
  }

  /** a and b agree before position k, and at k either a has ended while b
      goes on, or a has the smaller character. */
  ghost predicate FirstDifferenceAt(a: string, b: string, k: nat)
  {
    && k <= |a| && k < |b|
    && a[..k] == b[..k]
    && (k == |a| || a[k] < b[k])
  }

  /** Less is the lexicographic order: there is a position where a first
      falls below b. */
  lemma {:induction false} LessIsFirstDifference(a: string, b: string)
    ensures Less(a, b) <==> exists k: nat :: FirstDifferenceAt(a, b, k)
    decreases |a|
  {
    if b == [] {
    } else if a == [] {
      assert FirstDifferenceAt(a, b, 0);
    } else if a[0] == b[0] {
      LessIsFirstDifference(a[1..], b[1..]);
      if Less(a, b) {
        var k': nat :| FirstDifferenceAt(a[1..], b[1..], k');
        assert a[..k' + 1] == [a[0]] + a[1..][..k'];
        assert b[..k' + 1] == [b[0]] + b[1..][..k'];
        assert FirstDifferenceAt(a, b, k' + 1);
      }
      if exists k: nat :: FirstDifferenceAt(a, b, k) {
        var k: nat :| FirstDifferenceAt(a, b, k);
        assert k != 0;
        assert a[1..][..k - 1] == a[..k][1..];
        assert b[1..][..k - 1] == b[..k][1..];
        assert FirstDifferenceAt(a[1..], b[1..], k - 1);
      }
    } else {
      if a[0] < b[0] {
        assert FirstDifferenceAt(a, b, 0);
      }
    }
  }

  /** No string is strictly before itself. */
  lemma {:induction false} LessIrreflexive(a: string)
    ensures !Less(a, a)
    decreases |a|
  {
    if a != [] {
      LessIrreflexive(a[1..]);
    }
  }

  /** Any two strings are equal or ordered one way, and never both ways. */
  lemma {:induction false} LessTrichotomy(a: string, b: string)
    ensures Less(a, b) || a == b || Less(b, a)
    ensures !(Less(a, b) && Less(b, a))
    decreases |a|
  {
    if a != [] && b != [] && a[0] == b[0] {
      LessTrichotomy(a[1..], b[1..]);
      if a[1..] == b[1..] {
        assert a == [a[0]] + a[1..] && b == [b[0]] + b[1..];
      }
    }
  }

  lemma {:induction false} LessTransitive(a: string, b: string, c: string)
    requires Less(a, b) && Less(b, c)
    ensures Less(a, c)
    decreases |a|
  {
    if a != [] && a[0] == b[0] && b[0] == c[0] {
      LessTransitive(a[1..], b[1..], c[1..]);
    }
  }
}
