/**
 The order of texts by character, as the stores sort and list by: a total order.
 */
module TextOrder {
  import opened Serialization

  predicate Less(a: string, b: string) { a != b && TextLeq(a, b) }

  lemma {:induction false} TextTotal(a: string, b: string)
    ensures TextLeq(a, b) || TextLeq(b, a)
    decreases |a|
  {
    if a != [] && b != [] {
      TextTotal(a[1..], b[1..]);
    }
  }

  lemma {:induction false} TextAntisymmetric(a: string, b: string)
    requires TextLeq(a, b) && TextLeq(b, a)
    ensures a == b
    decreases |a|
  {
    if a != [] && b != [] {
      TextAntisymmetric(a[1..], b[1..]);
      assert a == [a[0]] + a[1..] && b == [b[0]] + b[1..];
    }
  }

  lemma {:induction false} TextTransitive(a: string, b: string, c: string)
    requires TextLeq(a, b) && TextLeq(b, c)
    ensures TextLeq(a, c)
    decreases |a|
  {
    if a != [] && b != [] && c != [] && a[0] == b[0] == c[0] {
      TextTransitive(a[1..], b[1..], c[1..]);
    }
  }

  /** The order is by the first character in which two texts differ; a text comes after its own start. */
  lemma {:induction false} TextMeans(a: string, b: string)
    ensures TextLeq(a, b) <==> exists k :: AgreesTo(a, b, k) && (k == |a| || (k < |b| && a[k] < b[k]))
    decreases |a|
  {
    if a == [] {
      assert AgreesTo(a, b, 0);
    } else if b != [] && a[0] == b[0] {
      TextMeans(a[1..], b[1..]);
      if k :| AgreesTo(a[1..], b[1..], k) && (k == |a[1..]| || (k < |b[1..]| && a[1..][k] < b[1..][k])) {
        assert AgreesTo(a, b, k + 1);
      }
      if k :| AgreesTo(a, b, k) && (k == |a| || (k < |b| && a[k] < b[k])) {
        assert k > 0 && AgreesTo(a[1..], b[1..], k - 1);
      }
    } else if b != [] && a[0] < b[0] {
      assert AgreesTo(a, b, 0);
    }
  }

  /** Two texts agree up to this place. */
  ghost predicate AgreesTo(a: string, b: string, k: int) {
    0 <= k <= |a| && k <= |b| && forall i :: 0 <= i < k ==> a[i] == b[i]
  }
}
