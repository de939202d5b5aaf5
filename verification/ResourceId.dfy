/** The recogniser for Azure resource identifiers, its grammar, and the printers whose output it must accept. */
module ResourceId {
  import opened Text
  import opened Wrappers

  const PROVIDER_ID_PREFIX := "azure://"
  const PROVIDERS := "providers"
  const SUBSCRIPTIONS := "subscriptions"
  const RESOURCE_GROUPS := "resourcegroups"

  datatype IdError = EmptyId | NoLeadingSlash | InvalidId

  // ------------------------------------------------------------ the program

  /** `strings.Split`: one piece more than there are separators. */
  function Split(s: string): (pieces: seq<string>)
    ensures pieces != []
  {
    if s == "" then [""]
    else if s[0] == '/' then [""] + Split(s[1..])
    else
      var rest := Split(s[1..]);
      [[s[0]] + rest[0]] + rest[1..]
  }

  function OmitEmpty(pieces: seq<string>): seq<string> {
    if pieces == [] then []
    else if pieces[0] == "" then OmitEmpty(pieces[1..])
    else [pieces[0]] + OmitEmpty(pieces[1..])
  }

  function Segments(id: string): seq<string> {
    OmitEmpty(Split(id))
  }

  method SplitStringAndOmitEmpty(v: string) returns (r: seq<string>)
    ensures r == Segments(v)
  {
    r := [];
    var pieces := Split(v);
    for i := 0 to |pieces|
      invariant r + OmitEmpty(pieces[i..]) == Segments(v)
    {
      assert pieces[i..] == [pieces[i]] + pieces[i + 1..];
      if |pieces[i]| != 0 {
        r := r + [pieces[i]];
      }
    }
  }

  /** appendNextAzureResourceIDValidation: true when it returns nil. */
  predicate Accepts(parts: seq<string>)
    decreases |parts|
  {
    if |parts| == 0 then true
    else if |parts| == 1 then
      !EqualFold(parts[0], SUBSCRIPTIONS) && !EqualFold(parts[0], RESOURCE_GROUPS)
    else if EqualFold(parts[0], PROVIDERS) && (|parts| == 2 || EqualFold(parts[2], PROVIDERS)) then
      Accepts(parts[2..])
    else if |parts| > 3 && EqualFold(parts[0], PROVIDERS) then
      Accepts(parts[4..])
    else if !EqualFold(parts[0], PROVIDERS) then
      Accepts(parts[2..])
    else false
  }

  /** parseAzureResourceID: `None` when it returns nil. */
  function Parse(id: string): Option<IdError> {
    if |id| == 0 then Some(EmptyId)
    else if !HasPrefix(id, "/") then Some(NoLeadingSlash)
    else
      var parts := Segments(id);
      if |parts| < 2 then Some(InvalidId)
      else if !EqualFold(parts[0], SUBSCRIPTIONS) && !EqualFold(parts[0], PROVIDERS) then Some(InvalidId)
      else if Accepts(parts) then None
      else Some(InvalidId)
  }

  /** validateAzureCapacityReservationGroupID. */
  function Validate(id: string): Option<IdError> {
    Parse(TrimPrefix(id, PROVIDER_ID_PREFIX))
  }

  // ------------------------------------------------------------ the grammar

  /** Derivation trees of the identifier grammar. */
  datatype Derivation =
    | End
    | Tail(word: string)
    | Pair(kind: string, name: string, rest: Derivation)
    | Namespace(keyword: string, namespace: string, rest: Derivation)
    | Resource(keyword: string, namespace: string, kind: string, name: string, rest: Derivation)

  ghost function Yield(d: Derivation): seq<string> {
    match d
    case End => []
    case Tail(word) => [word]
    case Pair(kind, name, rest) => [kind, name] + Yield(rest)
    case Namespace(keyword, namespace, rest) => [keyword, namespace] + Yield(rest)
    case Resource(keyword, namespace, kind, name, rest) => [keyword, namespace, kind, name] + Yield(rest)
  }

  /** A provider namespace may stand alone only at the end or in front of another `providers`. */
  ghost predicate WellFormed(d: Derivation) {
    match d
    case End => true
    case Tail(word) => !EqualFold(word, SUBSCRIPTIONS) && !EqualFold(word, RESOURCE_GROUPS)
    case Pair(kind, _, rest) => !EqualFold(kind, PROVIDERS) && WellFormed(rest)
    case Namespace(keyword, _, rest) =>
      EqualFold(keyword, PROVIDERS) && WellFormed(rest) && (rest.End? || EqualFold(Yield(rest)[0], PROVIDERS))
    case Resource(keyword, _, kind, _, rest) =>
      EqualFold(keyword, PROVIDERS) && !EqualFold(kind, PROVIDERS) && WellFormed(rest)
  }

  lemma {:induction false} DerivedIsAccepted(d: Derivation)
    requires WellFormed(d)
    ensures Accepts(Yield(d))
  {
    match d
    case End =>
    case Tail(_) =>
    case Pair(_, _, rest) =>
      DerivedIsAccepted(rest);
      assert Yield(d)[2..] == Yield(rest);
    case Namespace(_, _, rest) =>
      DerivedIsAccepted(rest);
      assert Yield(d)[2..] == Yield(rest);
    case Resource(_, _, _, _, rest) =>
      DerivedIsAccepted(rest);
      assert Yield(d)[4..] == Yield(rest);
  }

  lemma {:induction false} AcceptedIsDerived(parts: seq<string>) returns (d: Derivation)
    requires Accepts(parts)
    ensures WellFormed(d) && Yield(d) == parts
    decreases |parts|
  {
    if |parts| == 0 {
      d := End;
    } else if |parts| == 1 {
      d := Tail(parts[0]);
    } else if EqualFold(parts[0], PROVIDERS) && !(|parts| == 2 || EqualFold(parts[2], PROVIDERS)) {
      var rest := AcceptedIsDerived(parts[4..]);
      d := Resource(parts[0], parts[1], parts[2], parts[3], rest);
    } else {
      var rest := AcceptedIsDerived(parts[2..]);
      d := if EqualFold(parts[0], PROVIDERS) then Namespace(parts[0], parts[1], rest) else Pair(parts[0], parts[1], rest);
    }
  }

  /** The recursive check accepts exactly the language of the grammar. */
  lemma AcceptsIffDerivable(parts: seq<string>)
    ensures Accepts(parts) <==> exists d :: WellFormed(d) && Yield(d) == parts
  {
    if Accepts(parts) {
      var d := AcceptedIsDerived(parts);
    }
    forall d | WellFormed(d) && Yield(d) == parts ensures Accepts(parts) {
      DerivedIsAccepted(d);
    }
  }

  /** The grammar is unambiguous: no identifier has two readings. */
  lemma {:induction false} DerivationIsUnique(d: Derivation, e: Derivation)
    requires WellFormed(d) && WellFormed(e) && Yield(d) == Yield(e)
    ensures d == e
  {
    var parts := Yield(d);
    if |parts| >= 2 {
      var n := if d.Resource? then 4 else 2;
      assert parts[0] == Yield(e)[0] && parts[1] == Yield(e)[1];
      assert d.Resource? == e.Resource? by {
        assert d.Resource? ==> parts[2] == Yield(e)[2];
        assert e.Resource? ==> parts[2] == Yield(e)[2];
      }
      assert d.Resource? ==> parts[3] == Yield(e)[3];
      assert parts[n..] == Yield(d.rest);
      assert Yield(e)[n..] == Yield(e.rest);
      DerivationIsUnique(d.rest, e.rest);
    }
  }

  /** Every even-length list of segments is accepted, whatever the segments say. */
  lemma {:induction false} EvenLengthIsAccepted(parts: seq<string>)
    requires |parts| % 2 == 0
    ensures Accepts(parts)
    decreases |parts|
  {
    if |parts| >= 2 { EvenLengthIsAccepted(parts[2..]); }
    if |parts| >= 4 { EvenLengthIsAccepted(parts[4..]); }
  }

  /** What a valid identifier is: a path of at least two segments, the first of them `subscriptions` or `providers` in any
      letter case, that the grammar derives. */
  ghost predicate IsIdentifier(id: string) {
    && id != "" && id[0] == '/' && |Segments(id)| >= 2
    && (EqualFold(Segments(id)[0], "subscriptions") || EqualFold(Segments(id)[0], "providers"))
    && exists d :: WellFormed(d) && Yield(d) == Segments(id)
  }

  /** The parser accepts exactly the identifiers, and tells an empty string and a missing slash from anything else. */
  lemma ParsesIff(id: string)
    ensures Parse(id) == None <==> IsIdentifier(id)
    ensures Parse(id) == Some(EmptyId) <==> id == ""
    ensures Parse(id) == Some(NoLeadingSlash) <==> id != "" && id[0] != '/'
    ensures Parse(id) == Some(InvalidId) <==> id != "" && id[0] == '/' && !IsIdentifier(id)
  {
    assert SUBSCRIPTIONS == "subscriptions" && PROVIDERS == "providers";
    assert id != "" ==> (HasPrefix(id, "/") <==> id[0] == '/');
    var parts := Segments(id);
    if Accepts(parts) { var d := AcceptedIsDerived(parts); }
    if d :| WellFormed(d) && Yield(d) == parts { DerivedIsAccepted(d); }
  }

  /** The validator accepts exactly the identifiers, with the provider prefix or without. */
  lemma ValidatesIff(id: string)
    ensures Validate(id) == None <==> IsIdentifier(if "azure://" <= id then id[8..] else id)
    ensures Validate(id) == None <==> IsIdentifier(id) || ("azure://" <= id && IsIdentifier(id[8..]))
    ensures Validate("azure://" + id) == Parse(id)
  {
    ParsesIff(if "azure://" <= id then id[8..] else id);
    assert ("azure://" + id)[8..] == id;
  }

  /** The grammar as it reads: the two keywords that may not stand alone at the end, and what `providers` takes. */
  lemma GrammarReads(a: string, b: string, c: string, d: string, rest: seq<string>)
    ensures Accepts([a]) <==> !EqualFold(a, "subscriptions") && !EqualFold(a, "resourcegroups")
    ensures !EqualFold(a, "providers") ==> (Accepts([a, b] + rest) <==> Accepts(rest))
    ensures EqualFold(a, "providers") ==> Accepts([a, b])
    ensures EqualFold(a, "providers") && EqualFold(c, "providers") ==>
              (Accepts([a, b, c] + rest) <==> Accepts([c] + rest))
    ensures EqualFold(a, "providers") && !EqualFold(c, "providers") ==>
              !Accepts([a, b, c]) && (Accepts([a, b, c, d] + rest) <==> Accepts(rest))
  {
    assert ([a, b] + rest)[2..] == rest;
    assert ([a, b, c] + rest)[2..] == [c] + rest;
    assert ([a, b, c, d] + rest)[4..] == rest;
    assert ([a, b])[2..] == [];
    assert rest != [] ==> ([a, b] + rest)[2] == rest[0];
  }

  // ------------------------------------------------------------ printing and splitting

  /** The segments, each behind a slash. */
  function Print(segments: seq<string>): string {
    if segments == [] then "" else "/" + segments[0] + Print(segments[1..])
  }

  ghost predicate Printable(segments: seq<string>) {
    forall s :: s in segments ==> s != "" && SlashFree(s)
  }

  lemma {:induction false} SplitAtSlash(a: string, b: string)
    ensures Split(a + "/" + b) == Split(a) + Split(b)
  {
    var s := a + "/" + b;
    if a == "" {
      assert s[1..] == b;
    } else {
      assert s[1..] == a[1..] + "/" + b;
      SplitAtSlash(a[1..], b);
    }
  }

  lemma {:induction false} OmitEmptyAppend(a: seq<string>, b: seq<string>)
    ensures OmitEmpty(a + b) == OmitEmpty(a) + OmitEmpty(b)
  {
    if a == [] {
      assert a + b == b;
    } else {
      assert (a + b)[1..] == a[1..] + b;
      OmitEmptyAppend(a[1..], b);
    }
  }

  /** A slash separates: what stands before it and after it is split independently. */
  lemma SegmentsAtSlash(a: string, b: string)
    ensures Segments(a + "/" + b) == Segments(a) + Segments(b)
  {
    SplitAtSlash(a, b);
    OmitEmptyAppend(Split(a), Split(b));
  }

  lemma {:induction false} SplitWord(a: string)
    requires SlashFree(a)
    ensures Split(a) == [a]
  {
    if a != "" {
      assert a[0] in a && a == [a[0]] + a[1..];
      SplitWord(a[1..]);
    }
  }

  ghost predicate Word(s: string) {
    s != "" && SlashFree(s)
  }

  lemma AppendWord(x: string, w: string)
    requires Word(w)
    ensures Segments(x + "/" + w) == Segments(x) + [w]
  {
    SegmentsAtSlash(x, w);
    SplitWord(w);
    assert OmitEmpty([w]) == [w] + OmitEmpty([]);
  }

  lemma HeadSegment(a: string, t: string)
    requires a != "" && SlashFree(a)
    requires t == "" || t[0] == '/'
    ensures Segments("/" + a + t) == [a] + Segments(t)
  {
    SplitWord(a);
    assert OmitEmpty([a]) == [a] + OmitEmpty([]);
    if t == "" {
      SegmentsAtSlash("", a);
      assert "/" + a + t == "" + "/" + a;
    } else {
      SegmentsAtSlash("", a + t);
      SegmentsAtSlash(a, t[1..]);
      SegmentsAtSlash("", t[1..]);
      assert "/" + a + t == "" + "/" + (a + t);
      assert a + t == a + "/" + t[1..];
      assert t == "" + "/" + t[1..];
    }
  }

  lemma {:induction false} SegmentsOfPrint(segments: seq<string>)
    requires Printable(segments)
    ensures Segments(Print(segments)) == segments
  {
    if segments != [] {
      SegmentsOfPrint(segments[1..]);
      assert segments[0] in segments;
      HeadSegment(segments[0], Print(segments[1..]));
    }
  }

  /** Any identifier of an even number of segments behind `subscriptions` passes the check,
      with or without the provider prefix. */
  lemma EvenIdIsValid(id: string)
    requires HasPrefix(id, "/") && |Segments(id)| >= 2 && |Segments(id)| % 2 == 0
    requires EqualFold(Segments(id)[0], SUBSCRIPTIONS) || EqualFold(Segments(id)[0], PROVIDERS)
    ensures Validate(id) == None
    ensures Validate(PROVIDER_ID_PREFIX + id) == None
  {
    EvenLengthIsAccepted(Segments(id));
    assert id[0] == '/' && !HasPrefix(id, PROVIDER_ID_PREFIX);
    assert TrimPrefix(PROVIDER_ID_PREFIX + id, PROVIDER_ID_PREFIX) == id;
  }

  lemma PrintedIsValid(segments: seq<string>)
    requires Printable(segments) && |segments| >= 2 && |segments| % 2 == 0
    requires EqualFold(segments[0], SUBSCRIPTIONS) || EqualFold(segments[0], PROVIDERS)
    ensures Validate(Print(segments)) == None
    ensures Validate(PROVIDER_ID_PREFIX + Print(segments)) == None
  {
    SegmentsOfPrint(segments);
    EvenIdIsValid(Print(segments));
  }

  // ------------------------------------------------------------ slashes and letter case

  /** Doubling any slash never changes what the parser says. */
  lemma DoubledSlashParses(a: string, b: string)
    ensures Parse(a + "//" + b) == Parse(a + "/" + b)
  {
    SegmentsAtSlash(a, b);
    SegmentsAtSlash(a, "/" + b);
    SegmentsAtSlash("", b);
    assert "" + "/" + b == "/" + b;
    assert a + "//" + b == a + "/" + ("/" + b);
    var id, doubled := a + "/" + b, a + "//" + b;
    assert id[0] == doubled[0];
  }

  /** validateAzureCapacityReservationGroupID strips a provider prefix first, so it tells the two apart
      exactly when the doubled slash completes that prefix. */
  lemma DoubledSlashValidates(a: string, b: string)
    ensures (Validate(a + "//" + b).None? <==> Validate(a + "/" + b).None?) <==>
            !(HasPrefix(a + "/" + b, PROVIDER_ID_PREFIX) && |a| < |PROVIDER_ID_PREFIX|
              && !HasPrefix((a + "/" + b)[|PROVIDER_ID_PREFIX|..], "/")
              && Parse("/" + (a + "/" + b)[|PROVIDER_ID_PREFIX|..]).None?)
  {
    var p := PROVIDER_ID_PREFIX;
    var id, doubled := a + "/" + b, a + "//" + b;
    if |a| >= |p| {
      if p <= a {
        assert p <= id && p <= doubled;
        assert id[|p|..] == a[|p|..] + "/" + b;
        assert doubled[|p|..] == a[|p|..] + "//" + b;
        DoubledSlashParses(a[|p|..], b);
      } else {
        assert id[..|p|] == a[..|p|] == doubled[..|p|];
        DoubledSlashParses(a, b);
      }
    } else if p <= id {
      assert id[|a|] == '/' == p[|a|];
      assert |a| == 6 || |a| == 7;
      assert a == p[..|a|];
      assert p <= doubled by {
        assert forall k :: 0 <= k < |p| ==> doubled[k] == p[k];
      }
      assert doubled[|p|..] == "/" + id[|p|..] by {
        assert |a| == 6 ==> b[0] == id[7];
      }
    } else if p <= doubled {
      assert doubled[|a|] == '/' == p[|a|];
      assert id[..|a| + 1] == a + "/";
      assert doubled[|p|..] == b;
      assert id[..6] == p[..6] && id[0] != '/';
    } else {
      DoubledSlashParses(a, b);
    }
  }

  lemma SlashCompletesPrefix(path: string)
    requires path != "" && path[0] != '/'
    ensures Validate("azure:/" + "/" + path) == Some(NoLeadingSlash)
    ensures Validate("azure:/" + "//" + path) == Parse("/" + path)
  {
    assert "azure:/" + "/" + path == PROVIDER_ID_PREFIX + path;
    assert (PROVIDER_ID_PREFIX + path)[|PROVIDER_ID_PREFIX|..] == path;
    assert "azure:/" + "//" + path == PROVIDER_ID_PREFIX + ("/" + path);
    assert (PROVIDER_ID_PREFIX + ("/" + path))[|PROVIDER_ID_PREFIX|..] == "/" + path;
  }

  lemma TwoWordsParse(head: string, name: string)
    requires Word(head) && Word(name) && EqualFold(head, SUBSCRIPTIONS)
    ensures Parse("/" + (head + "/" + name)) == None
  {
    AppendTwoWords("", head, name);
    var id := "/" + (head + "/" + name);
    assert id == "" + "/" + head + "/" + name;
    assert Segments(id) == [head, name];
    EvenLengthIsAccepted(Segments(id));
  }

  /** A subscription path right behind `azure://` is refused as it stands and accepted once a slash is doubled. */
  lemma DoubledSlashCanMatter(head: string, name: string)
    requires Word(head) && Word(name) && EqualFold(head, SUBSCRIPTIONS)
    ensures Validate("azure:/" + "/" + (head + "/" + name)) == Some(NoLeadingSlash)
    ensures Validate("azure:/" + "//" + (head + "/" + name)) == None
  {
    assert (head + "/" + name)[0] == head[0] && head[0] in head;
    SlashCompletesPrefix(head + "/" + name);
    TwoWordsParse(head, name);
  }

  function LowerAll(parts: seq<string>): (lowered: seq<string>)
    ensures |lowered| == |parts|
  {
    seq(|parts|, i requires 0 <= i < |parts| => Lower(parts[i]))
  }

  lemma {:induction false} SplitLower(s: string)
    ensures Split(Lower(s)) == LowerAll(Split(s))
  {
    if s != "" {
      SplitLower(s[1..]);
      assert Lower(s)[1..] == Lower(s[1..]);
      var rest := Split(s[1..]);
      assert LowerAll(rest) == [Lower(rest[0])] + LowerAll(rest[1..]);
      assert Lower([s[0]] + rest[0]) == [LowerChar(s[0])] + Lower(rest[0]);
    }
  }

  lemma {:induction false} OmitEmptyLower(pieces: seq<string>)
    ensures OmitEmpty(LowerAll(pieces)) == LowerAll(OmitEmpty(pieces))
  {
    if pieces != [] {
      assert LowerAll(pieces)[1..] == LowerAll(pieces[1..]);
      OmitEmptyLower(pieces[1..]);
    }
  }

  lemma {:induction false} AcceptsLower(parts: seq<string>)
    ensures Accepts(LowerAll(parts)) <==> Accepts(parts)
    decreases |parts|
  {
    var lowered := LowerAll(parts);
    forall i | 0 <= i < |parts| ensures Lower(lowered[i]) == Lower(parts[i]) { LowerTwice(parts[i]); }
    if |parts| >= 2 {
      assert lowered[2..] == LowerAll(parts[2..]);
      AcceptsLower(parts[2..]);
    }
    if |parts| >= 4 {
      assert lowered[4..] == LowerAll(parts[4..]);
      AcceptsLower(parts[4..]);
    }
  }

  lemma ParseLower(id: string)
    ensures Parse(Lower(id)) == Parse(id)
  {
    SplitLower(id);
    OmitEmptyLower(Split(id));
    AcceptsLower(Segments(id));
    if |Segments(id)| > 0 { LowerTwice(Segments(id)[0]); }
  }

  /** The parser gives identifiers that differ only in letter case the same verdict. */
  lemma LetterCaseParses(id: string, other: string)
    requires EqualFold(id, other)
    ensures Parse(id) == Parse(other)
  {
    ParseLower(id);
    ParseLower(other);
  }

  /** The validator compares its prefix case-sensitively, so it tells two spellings apart exactly when only one of them
      carries the prefix as it stands and what follows is valid. */
  lemma LetterCaseValidates(id: string, other: string)
    requires EqualFold(id, other)
    ensures (Validate(id).None? <==> Validate(other).None?) <==>
            !(HasPrefix(id, PROVIDER_ID_PREFIX) != HasPrefix(other, PROVIDER_ID_PREFIX)
              && |id| >= |PROVIDER_ID_PREFIX| && Parse(id[|PROVIDER_ID_PREFIX|..]).None?)
  {
    var n := |PROVIDER_ID_PREFIX|;
    assert |id| == |Lower(id)| == |Lower(other)| == |other|;
    if |id| >= n {
      assert Lower(id[n..]) == Lower(id)[n..] == Lower(other)[n..] == Lower(other[n..]);
      LetterCaseParses(id[n..], other[n..]);
    }
    LetterCaseParses(id, other);
    if HasPrefix(id, PROVIDER_ID_PREFIX) != HasPrefix(other, PROVIDER_ID_PREFIX) {
      if HasPrefix(id, PROVIDER_ID_PREFIX) { PrefixFolds(id, other); } else { PrefixFolds(other, id); }
    }
  }

  lemma PrefixFolds(id: string, other: string)
    requires EqualFold(id, other) && HasPrefix(id, PROVIDER_ID_PREFIX) && !HasPrefix(other, PROVIDER_ID_PREFIX)
    ensures Validate(other) == Some(NoLeadingSlash)
  {
    var n := |PROVIDER_ID_PREFIX|;
    assert |Lower(id)| == |id| && |Lower(other)| == |other|;
    assert Lower(id)[..n] == Lower(PROVIDER_ID_PREFIX) by {
      assert forall i :: 0 <= i < n ==> Lower(id)[i] == LowerChar(PROVIDER_ID_PREFIX[i]);
    }
    assert Lower(PROVIDER_ID_PREFIX) == PROVIDER_ID_PREFIX;
    LetterCaseOfPrefixMatters(other);
  }

  /** With the prefix in another letter case the identifier is refused, whatever follows. */
  lemma LetterCaseOfPrefixMatters(id: string)
    requires !HasPrefix(id, PROVIDER_ID_PREFIX) && HasPrefix(Lower(id), PROVIDER_ID_PREFIX)
    ensures Validate(id) == Some(NoLeadingSlash)
  {
    assert Lower(id)[0] == 'a';
  }

  /** A provider ID is accepted with its prefix as printed, and refused with the prefix in upper case. */
  lemma UpperCasePrefixIsRefused(head: string, name: string)
    requires Word(head) && Word(name) && EqualFold(head, SUBSCRIPTIONS)
    ensures var path := "/" + (head + "/" + name);
            EqualFold("azure://" + path, "AZURE://" + path) && Validate("azure://" + path) == None
            && Validate("AZURE://" + path) == Some(NoLeadingSlash)
  {
    var path := "/" + (head + "/" + name);
    TwoWordsParse(head, name);
    assert TrimPrefix("azure://" + path, PROVIDER_ID_PREFIX) == path;
    LowerAppend("azure://", path);
    LowerAppend("AZURE://", path);
    assert Lower("azure://") == Lower("AZURE://");
    assert ("AZURE://" + path)[0] == 'A';
  }

  lemma LowerAppend(a: string, b: string)
    ensures Lower(a + b) == Lower(a) + Lower(b)
  {
  }

  // ------------------------------------------------------------ identifiers the repository prints

  const COMPUTE := "Microsoft.Compute"
  const MANAGED_IDENTITY := "Microsoft.ManagedIdentity"
  const VIRTUAL_MACHINES := "virtualMachines"
  const AVAILABILITY_SETS := "availabilitySets"
  const IDENTITIES := "userAssignedIdentities"

  function GenerateMachineProviderID(subscription: string, resourceGroup: string, machine: string): string {
    PROVIDER_ID_PREFIX
    + ("/" + SUBSCRIPTIONS + "/" + Lower(subscription) + ("/" + "resourceGroups" + "/") + Lower(resourceGroup)
       + ("/" + PROVIDERS + "/" + COMPUTE + "/" + VIRTUAL_MACHINES + "/") + machine)
  }

  function GenerateManagedIdentityName(subscription: string, resourceGroup: string, identity: string): string {
    "/" + SUBSCRIPTIONS + "/" + subscription + ("/" + "resourcegroups" + "/") + resourceGroup
    + ("/" + PROVIDERS + "/" + MANAGED_IDENTITY + "/" + IDENTITIES + "/") + identity
  }

  function AvailabilitySetID(subscription: string, resourceGroup: string, availabilitySet: string): string {
    "/" + SUBSCRIPTIONS + "/" + subscription + ("/" + "resourceGroups" + "/") + resourceGroup
    + ("/" + PROVIDERS + "/" + COMPUTE + "/" + AVAILABILITY_SETS + "/") + availabilitySet
  }

  /** The provider ID as it reads, whatever its parts. */
  lemma ProviderIDReads(subscription: string, resourceGroup: string, machine: string)
    ensures GenerateMachineProviderID(subscription, resourceGroup, machine) ==
            "azure:///subscriptions/" + Lower(subscription) + "/resourceGroups/" + Lower(resourceGroup)
            + "/providers/Microsoft.Compute/virtualMachines/" + machine
  {
    assert PROVIDER_ID_PREFIX + ("/" + SUBSCRIPTIONS + "/") == "azure:///subscriptions/";
    assert "/" + "resourceGroups" + "/" == "/resourceGroups/";
    PrinterTail();
    Regroup5(PROVIDER_ID_PREFIX, "/" + SUBSCRIPTIONS + "/", Lower(subscription), "/resourceGroups/", Lower(resourceGroup),
             "/providers/Microsoft.Compute/virtualMachines/", machine);
  }

  lemma PrinterTail()
    ensures "/" + PROVIDERS + "/" + COMPUTE + "/" + VIRTUAL_MACHINES + "/" == "/providers/Microsoft.Compute/virtualMachines/"
  {
    assert "/" + PROVIDERS + "/" == "/providers/";
    assert "/providers/" + COMPUTE + "/" == "/providers/Microsoft.Compute/";
    assert "/providers/Microsoft.Compute/" + VIRTUAL_MACHINES + "/" == "/providers/Microsoft.Compute/virtualMachines/";
  }

  lemma Regroup5<T>(p: seq<T>, a: seq<T>, b: seq<T>, c: seq<T>, d: seq<T>, e: seq<T>, f: seq<T>)
    ensures p + (a + b + c + d + e + f) == (p + a) + b + c + d + e + f
  {
  }

  lemma AppendTwoWords(x: string, v: string, w: string)
    requires Word(v) && Word(w)
    ensures Segments(x + "/" + v + "/" + w) == Segments(x) + [v, w]
  {
    AppendWord(x, v);
    AppendWord(x + "/" + v, w);
  }

  /** An identifier of the shape all three printers share, seen as eight segments. */
  lemma EightSegments(head: string, s: string, groups: string, g: string, keyword: string, provider: string, kind: string, n: string)
    requires Word(head) && Word(s) && Word(groups) && Word(g) && Word(keyword) && Word(provider) && Word(kind) && Word(n)
    requires EqualFold(head, SUBSCRIPTIONS)
    ensures var id := "/" + head + "/" + s + ("/" + groups + "/") + g + ("/" + keyword + "/" + provider + "/" + kind + "/") + n;
            && Segments(id) == [head, s, groups, g, keyword, provider, kind, n]
            && Validate(id) == None && Validate(PROVIDER_ID_PREFIX + id) == None
  {
    var x := "/" + head + "/" + s;
    var y := x + ("/" + groups + "/") + g;
    AppendTwoWords("", head, s);
    assert x == "" + "/" + head + "/" + s;
    AppendTwoWords(x, groups, g);
    assert y == x + "/" + groups + "/" + g;
    var z := y + "/" + keyword + "/" + provider;
    AppendTwoWords(y, keyword, provider);
    AppendTwoWords(z, kind, n);
    var id := y + ("/" + keyword + "/" + provider + "/" + kind + "/") + n;
    assert id == z + "/" + kind + "/" + n by {
      assert y + ("/" + keyword + "/" + provider + "/" + kind + "/") == z + "/" + kind + "/";
    }
    assert id[0] == '/';
    EvenIdIsValid(id);
  }

  lemma LowerKeepsWord(s: string)
    requires Word(s)
    ensures Word(Lower(s))
  {
    forall i | 0 <= i < |s| ensures Lower(s)[i] != '/' { assert s[i] in s; }
  }

  /** Identifiers printed from non-empty, slash-free parts pass the check and split back into those parts. */
  lemma ProviderIDAgreesWithParser(s: string, g: string, n: string)
    requires Word(s) && Word(g) && Word(n)
    ensures var id := GenerateMachineProviderID(s, g, n);
            && Validate(id) == None
            && Segments(TrimPrefix(id, PROVIDER_ID_PREFIX)) ==
               ["subscriptions", Lower(s), "resourceGroups", Lower(g), "providers", "Microsoft.Compute", "virtualMachines", n]
  {
    LowerKeepsWord(s);
    LowerKeepsWord(g);
    EightSegments(SUBSCRIPTIONS, Lower(s), "resourceGroups", Lower(g), PROVIDERS, COMPUTE, VIRTUAL_MACHINES, n);
  }

  lemma ManagedIdentityNameAgreesWithParser(s: string, g: string, n: string)
    requires Word(s) && Word(g) && Word(n)
    ensures var id := GenerateManagedIdentityName(s, g, n);
            && Validate(id) == None
            && Segments(id) ==
               ["subscriptions", s, "resourcegroups", g, "providers", "Microsoft.ManagedIdentity", "userAssignedIdentities", n]
  {
    EightSegments(SUBSCRIPTIONS, s, "resourcegroups", g, PROVIDERS, MANAGED_IDENTITY, IDENTITIES, n);
  }

  lemma AvailabilitySetIDAgreesWithParser(s: string, g: string, n: string)
    requires Word(s) && Word(g) && Word(n)
    ensures var id := AvailabilitySetID(s, g, n);
            && Validate(id) == None
            && Segments(id) ==
               ["subscriptions", s, "resourceGroups", g, "providers", "Microsoft.Compute", "availabilitySets", n]
  {
    EightSegments(SUBSCRIPTIONS, s, "resourceGroups", g, PROVIDERS, COMPUTE, AVAILABILITY_SETS, n);
  }
}
