/** Go's `<` on strings: byte-wise lexicographic comparison, in which a
    proper prefix sorts first. Strings are modelled as sequences of Unicode
    scalar values; comparing the UTF-8 encodings byte by byte orders them
    exactly as comparing their scalar values one by one, so `char` order
    stands for byte order. */
module StringOrder {

  /** a < b in Go. */
  function Less(a: string, b: string): (r: bool)
    ensures r ==> a != b
    ensures |a| < |b| && a == b[..|a|] ==> r
    decreases |a|
  {
    if |b| == 0 then false
    else if |a| == 0 then true
    else if a[0] != b[0] then a[0] < b[0]
    else
      assert |a| < |b| && a == b[..|a|] ==> a[1..] == b[1..][..|a| - 1];
      Less(a[1..], b[1..])
  }

  /** a <= b in Go. */
  predicate LessOrEqual(a: string, b: string) {
    a == b || Less(a, b)
  }

  /** The textbook characterisation: a < b exactly when a is a proper prefix
      of b, or the two first differ at some position k where a has the
      smaller character. */
  predicate FirstDifferenceSmaller(a: string, b: string) {
    || (|a| < |b| && a == b[..|a|])
    || exists k :: 0 <= k < |a| && k < |b| && a[..k] == b[..k] && a[k] < b[k]
  }

  lemma {:induction false} LessIsFirstDifferenceSmaller(a: string, b: string)
    ensures Less(a, b) <==> FirstDifferenceSmaller(a, b)
    decreases |a|
  {
    if |a| == 0 || |b| == 0 {
    } else if a[0] != b[0] {
      if a[0] < b[0] {
        assert a[..0] == b[..0];
      }
    } else {
      var a', b' := a[1..], b[1..];
      LessIsFirstDifferenceSmaller(a', b');
      if FirstDifferenceSmaller(a', b') {
        if |a'| < |b'| && a' == b'[..|a'|] {
          assert a == [a[0]] + a' && b[..|a|] == [b[0]] + b'[..|a'|];
        } else {
          var k :| 0 <= k < |a'| && k < |b'| && a'[..k] == b'[..k] && a'[k] < b'[k];
          assert a[..k + 1] == [a[0]] + a'[..k];
          assert b[..k + 1] == [b[0]] + b'[..k];
        }
      }
      if FirstDifferenceSmaller(a, b) {
        if |a| < |b| && a == b[..|a|] {
          assert a' == b'[..|a'|];
        } else {
          var k :| 0 <= k < |a| && k < |b| && a[..k] == b[..k] && a[k] < b[k];
          assert k != 0;
          assert a'[..k - 1] == a[..k][1..];
          assert b'[..k - 1] == b[..k][1..];
          assert a'[k - 1] == a[k];
        }
      }
    }
  }

  lemma LessIrreflexive(a: string)
    ensures !Less(a, a)
  {
  }

  lemma {:induction false} LessAsymmetric(a: string, b: string)
    requires Less(a, b)
    ensures !Less(b, a)
    decreases |a|
  {
    if |a| > 0 && a[0] == b[0] {
      LessAsymmetric(a[1..], b[1..]);
    }
  }

  lemma {:induction false} LessTransitive(a: string, b: string, c: string)
    requires Less(a, b) && Less(b, c)
    ensures Less(a, c)
    decreases |a|
  {
    if |a| > 0 && a[0] == b[0] && b[0] == c[0] {
      LessTransitive(a[1..], b[1..], c[1..]);
    }
  }

  /** Any two different strings are ordered one way or the other. */
  lemma {:induction false} LessTrichotomous(a: string, b: string)
    requires a != b
    ensures Less(a, b) || Less(b, a)
    decreases |a|
  {
    if |a| > 0 && |b| > 0 && a[0] == b[0] {
      assert a == [a[0]] + a[1..] && b == [b[0]] + b[1..];
      LessTrichotomous(a[1..], b[1..]);
    }
  }

  /** "b is not below a" is the same as "a <= b". */
  lemma NotLessIsLessOrEqual(a: string, b: string)
    ensures !Less(b, a) <==> LessOrEqual(a, b)
  {
  }
}
