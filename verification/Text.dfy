/** Strings with ASCII letters folded, in place of Go's `strings.EqualFold` and `strings.ToLower`. */
module Text {

  function LowerChar(c: char): char {
    if 'A' <= c <= 'Z' then (c as int + 32) as char else c
  }

  function Lower(s: string): (l: string)
    ensures |l| == |s|
  {
    seq(|s|, i requires 0 <= i < |s| => LowerChar(s[i]))
  }

  function UpperChar(c: char): char {
    if 'a' <= c <= 'z' then (c as int - 32) as char else c
  }

  /** `strings.ToTitle`. */
  function Title(s: string): string {
    seq(|s|, i requires 0 <= i < |s| => UpperChar(s[i]))
  }

  predicate EqualFold(a: string, b: string) {
    Lower(a) == Lower(b)
  }

  predicate HasPrefix(s: string, prefix: string) {
    prefix <= s
  }

  function TrimPrefix(s: string, prefix: string): string {
    if HasPrefix(s, prefix) then s[|prefix|..] else s
  }

  predicate SlashFree(s: string) {
    '/' !in s
  }

  lemma LowerTwice(s: string)
    ensures Lower(Lower(s)) == Lower(s)
  {}

  /** Folding to lower case and to title case tell the same strings apart. */
  lemma TitleFoldsToo(a: string, b: string)
    ensures Title(a) == Title(b) <==> EqualFold(a, b)
  {
    assert |a| == |b| ==> forall i :: 0 <= i < |a| ==> (UpperChar(a[i]) == UpperChar(b[i]) <==> LowerChar(a[i]) == LowerChar(b[i]));
    if Title(a) == Title(b) {
      assert |Title(a)| == |Title(b)|;
      forall i | 0 <= i < |a| ensures Lower(a)[i] == Lower(b)[i] { assert Title(a)[i] == Title(b)[i]; }
    }
    if Lower(a) == Lower(b) {
      assert |Lower(a)| == |Lower(b)|;
      forall i | 0 <= i < |a| ensures Title(a)[i] == Title(b)[i] { assert Lower(a)[i] == Lower(b)[i]; }
    }
  }

  /** Folding keeps everything but the case of a letter. */
  lemma FoldingIs(a: string, b: string)
    ensures EqualFold(a, b) <==>
            |a| == |b| && forall i :: 0 <= i < |a| ==>
              a[i] == b[i] || ('a' <= a[i] <= 'z' && a[i] as int - b[i] as int == 32)
                           || ('a' <= b[i] <= 'z' && b[i] as int - a[i] as int == 32)
  {
    if EqualFold(a, b) {
      assert |Lower(a)| == |Lower(b)|;
      forall i | 0 <= i < |a| ensures LowerChar(a[i]) == LowerChar(b[i]) { assert Lower(a)[i] == Lower(b)[i]; }
    }
    if |a| == |b| && forall i :: 0 <= i < |a| ==> LowerChar(a[i]) == LowerChar(b[i]) {
      assert Lower(a) == Lower(b);
    }
  }
}
