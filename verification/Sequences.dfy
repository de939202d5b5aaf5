/** Regrouping of sequences, proved for any element type so that the solver need not look into the elements. */
module Sequences {

  lemma Associate<T>(a: seq<T>, b: seq<T>, c: seq<T>)
    ensures a + (b + c) == a + b + c
  {
  }

  lemma Regroup<T>(head: seq<T>, start: seq<T>, part: seq<T>, end: seq<T>, tail: seq<T>)
    ensures head + (start + part + end) + tail == (head + start) + part + (end + tail)
    ensures head + (start + end) + tail == (head + start) + (end + tail)
  {
  }

  lemma RegroupFront<T>(a: seq<T>, b: seq<T>, c: seq<T>, d: seq<T>, e: seq<T>)
    ensures a + (b + (c + d) + e) == a + b + c + d + e
    ensures a + (b + c + e) == a + b + c + e
  {
  }

  lemma Slices<T>(s: seq<T>, k: nat)
    requires k < |s| - 1
    ensures var last := |s| - 1;
            s[..last][..k] == s[..k] && s[..last][k + 1..] == s[k + 1..][..last - k - 1] && |s[k + 1..]| == last - k
            && s[k + 1..][last - k - 1] == s[last]
  {
  }

  lemma Prefixes<T>(s: seq<T>, i: nat)
    requires i < |s|
    ensures s[..i + 1][..i] == s[..i] && s[..i + 1][i] == s[i]
  {
  }

  lemma OneMoreAfter<T>(a: seq<T>, s: seq<T>, j: nat)
    requires j < |s|
    ensures a + s[..j + 1] == (a + s[..j]) + [s[j]]
  {
  }

  lemma Whole<T>(s: seq<T>)
    ensures s[..|s|] == s
  {
  }

  lemma Same<T>(s: seq<T>, k: nat)
    requires k < |s|
    ensures s[k := s[k]] == s
  {
  }

  lemma DropEmpty<T>(a: seq<T>)
    ensures a + [] == a && [] + a == a
  {
  }

  lemma AssociateOne<T>(a: seq<T>, b: seq<T>, x: T)
    ensures a + (b + [x]) == a + b + [x]
  {
  }

  lemma AtFront<T>(a: seq<T>, b: seq<T>, i: nat)
    requires i < |a|
    ensures (a + b)[i] == a[i]
  {
  }

  lemma AtBack<T>(a: seq<T>, b: seq<T>, i: nat)
    requires i < |b|
    ensures (a + b)[|a| + i] == b[i]
  {
  }

  /** `x in s`, to be hidden where the solver need not look into the elements. */
  ghost predicate Has<T>(s: seq<T>, x: T) {
    x in s
  }

  lemma HasEither<T>(a: seq<T>, b: seq<T>, x: T)
    ensures Has(a + b, x) <==> Has(a, x) || Has(b, x)
  {
  }

  lemma HasNone<T>(s: seq<T>, x: T)
    requires |s| == 0
    ensures !Has(s, x)
  {
  }
}
