/** The order in which object keys are serialised: array-index keys first, by value, then the
    other keys lexicographically. */
module KeyOrder {
  predicate LexLeq(a: string, b: string) {
    a == [] || (b != [] && (a[0] < b[0] || (a[0] == b[0] && LexLeq(a[1..], b[1..]))))
  }

  predicate IsDigit(c: char) {
    '0' <= c <= '9'
  }

  /** Canonical decimal text of an integer below 2^32 - 1. */
  predicate IsIndex(k: string) {
    k == "0" || (|k| > 0 && (forall i :: 0 <= i < |k| ==> IsDigit(k[i])) && k[0] != '0'
                 && (|k| < 10 || (|k| == 10 && LexLeq(k, "4294967294"))))
  }

  predicate KeyLeq(a: string, b: string) {
    if IsIndex(a) && IsIndex(b) then |a| < |b| || (|a| == |b| && LexLeq(a, b))
    else if IsIndex(a) || IsIndex(b) then IsIndex(a)
    else LexLeq(a, b)
  }

  lemma {:induction false} LexTotal(a: string, b: string)
    ensures LexLeq(a, b) || LexLeq(b, a)
  {
    if a != [] && b != [] {
      LexTotal(a[1..], b[1..]);
    }
  }

  lemma {:induction false} LexAntisymmetric(a: string, b: string)
    requires LexLeq(a, b) && LexLeq(b, a)
    ensures a == b
  {
    if a != [] {
      LexAntisymmetric(a[1..], b[1..]);
      assert a == [a[0]] + a[1..] && b == [b[0]] + b[1..];
    }
  }

  lemma {:induction false} LexTransitive(a: string, b: string, c: string)
    requires LexLeq(a, b) && LexLeq(b, c)
    ensures LexLeq(a, c)
  {
    if a != [] && a[0] == b[0] == c[0] {
      LexTransitive(a[1..], b[1..], c[1..]);
    }
  }

  lemma KeyTotal(a: string, b: string)
    ensures KeyLeq(a, b) || KeyLeq(b, a)
  {
    LexTotal(a, b);
  }

  lemma KeyAntisymmetric(a: string, b: string)
    requires KeyLeq(a, b) && KeyLeq(b, a)
    ensures a == b
  {
    if LexLeq(a, b) && LexLeq(b, a) {
      LexAntisymmetric(a, b);
    }
  }

  lemma KeyTransitive(a: string, b: string, c: string)
    requires KeyLeq(a, b) && KeyLeq(b, c)
    ensures KeyLeq(a, c)
  {
    if LexLeq(a, b) && LexLeq(b, c) {
      LexTransitive(a, b, c);
    }
  }
}
