/** Byte-wise string order and sorting, in place of Go's `sort.Strings`. */
module Ordering {

  predicate Less(a: string, b: string) {
    b != "" && (a == "" || a[0] < b[0] || (a[0] == b[0] && Less(a[1..], b[1..])))
  }

  lemma {:induction false} LessIsStrict(a: string, b: string)
    ensures Less(a, b) ==> !Less(b, a) && a != b
    ensures a == b || Less(a, b) || Less(b, a)
  {
    if a != "" && b != "" {
      LessIsStrict(a[1..], b[1..]);
      assert a == [a[0]] + a[1..] && b == [b[0]] + b[1..];
    }
  }

  /** One string comes before another if it is a proper prefix of it, or has the smaller character where they first differ. */
  lemma {:induction false} LessIs(a: string, b: string)
    ensures Less(a, b) <==>
            exists i :: 0 <= i <= |a| && i < |b| && a[..i] == b[..i] && (i == |a| || a[i] < b[i])
  {
    if a != "" && b != "" && a[0] == b[0] {
      LessIs(a[1..], b[1..]);
      assert forall i :: 0 < i <= |a| && i <= |b| ==> (a[..i] == b[..i] <==> a[1..][..i - 1] == b[1..][..i - 1]) by {
        assert forall i :: 0 < i <= |a| ==> a[..i] == [a[0]] + a[1..][..i - 1];
        assert forall i :: 0 < i <= |b| ==> b[..i] == [b[0]] + b[1..][..i - 1];
      }
      if i :| 0 <= i <= |a[1..]| && i < |b[1..]| && a[1..][..i] == b[1..][..i] && (i == |a[1..]| || a[1..][i] < b[1..][i]) {
        assert a[..i + 1] == b[..i + 1];
      }
      if i :| 0 <= i <= |a| && i < |b| && a[..i] == b[..i] && (i == |a| || a[i] < b[i]) {
        assert a[1..][..i - 1] == b[1..][..i - 1];
      }
    } else if a == "" && b != "" {
      assert a[..0] == b[..0];
    } else if a != "" && b != "" {
      assert a[..0] == b[..0];
      assert forall i :: 0 < i <= |a| && i <= |b| && a[..i] == b[..i] ==> a[..i][0] == b[..i][0];
    }
  }

  lemma {:induction false} LessIsTransitive(a: string, b: string, c: string)
    requires Less(a, b) && Less(b, c)
    ensures Less(a, c)
  {
    if a != "" && a[0] == b[0] && b[0] == c[0] { LessIsTransitive(a[1..], b[1..], c[1..]); }
  }

  ghost predicate StrictlySorted(s: seq<string>) {
    forall i, j :: 0 <= i < j < |s| ==> Less(s[i], s[j])
  }

  /** The strictly sorted list of a set. */
  ghost predicate Lists(s: seq<string>, elements: set<string>) {
    StrictlySorted(s) && forall x :: x in s <==> x in elements
  }

  /** There is only one such list. */
  lemma {:induction false} ListingIsUnique(s: seq<string>, t: seq<string>, elements: set<string>)
    requires Lists(s, elements) && Lists(t, elements)
    ensures s == t
  {
    assert s != [] ==> s[0] in elements;
    assert t != [] ==> t[0] in elements;
    if s != [] && t != [] {
      HeadIsLeast(s, t[0]);
      HeadIsLeast(t, s[0]);
      LessIsStrict(s[0], t[0]);
      TailLists(s, elements);
      TailLists(t, elements);
      ListingIsUnique(s[1..], t[1..], elements - {s[0]});
    }
  }

  lemma HeadIsLeast(s: seq<string>, x: string)
    requires StrictlySorted(s) && x in s
    ensures x == s[0] || Less(s[0], x)
  {
  }

  lemma TailLists(s: seq<string>, elements: set<string>)
    requires Lists(s, elements) && s != []
    ensures Lists(s[1..], elements - {s[0]})
  {
    assert s == [s[0]] + s[1..];
    forall x | x in s[1..] ensures x != s[0] { LessIsStrict(s[0], x); }
  }

  /** Insertion into a strictly sorted list of an element it does not have. */
  function Insert(s: seq<string>, x: string): seq<string> {
    if s == [] || Less(x, s[0]) then [x] + s else [s[0]] + Insert(s[1..], x)
  }

  lemma {:induction false} InsertLists(s: seq<string>, x: string, elements: set<string>)
    requires Lists(s, elements) && x !in elements
    ensures Lists(Insert(s, x), elements + {x})
  {
    if s != [] && !Less(x, s[0]) {
      assert s[0] in s;
      LessIsStrict(s[0], x);
      TailLists(s, elements);
      var t, r := Insert(s[1..], x), Insert(s, x);
      InsertLists(s[1..], x, elements - {s[0]});
      forall j | 1 <= j < |r| ensures Less(s[0], r[j]) {
        assert r[j] == t[j - 1] && t[j - 1] in t;
        if t[j - 1] != x { HeadIsLeast(s, t[j - 1]); }
      }
      assert elements - {s[0]} + {x} + {s[0]} == elements + {x};
    } else if s != [] {
      forall j | 0 <= j < |s| ensures Less(x, s[j]) {
        if j > 0 { LessIsTransitive(x, s[0], s[j]); }
      }
    }
  }

  function Elements(s: seq<string>): set<string> {
    set x | x in s
  }

  /** Sorts strings without repetitions. */
  method SortStrings(strings: seq<string>) returns (sorted: seq<string>)
    requires forall i, j :: 0 <= i < j < |strings| ==> strings[i] != strings[j]
    ensures Lists(sorted, Elements(strings))
  {
    sorted := [];
    for i := 0 to |strings|
      invariant Lists(sorted, Elements(strings[..i]))
    {
      InsertLists(sorted, strings[i], Elements(strings[..i]));
      sorted := Insert(sorted, strings[i]);
      assert strings[..i + 1] == strings[..i] + [strings[i]];
      assert Elements(strings[..i + 1]) == Elements(strings[..i]) + {strings[i]};
    }
    assert strings[..|strings|] == strings;
  }
}
