/** The conditions of a machine's provider status. */
module Conditions {
  import opened Wrappers

  datatype Condition = Condition(kind: string, status: string, reason: string, message: string, since: nat)

  /** A condition to set; the time of its last transition is not given. */
  datatype Report = Report(kind: string, status: string, reason: string, message: string)

  datatype Event = Event(report: Report, at: nat)

  function Fresh(r: Report, now: nat): Condition {
    Condition(r.kind, r.status, r.reason, r.message, now)
  }

  /** shouldUpdateCondition. */
  predicate ShouldUpdate(c: Condition, r: Report) {
    c.status != r.status || c.reason != r.reason || c.message != r.message
  }

  function Updated(c: Condition, r: Report, now: nat): Condition {
    Condition(c.kind, r.status, r.reason, r.message, if c.status != r.status then now else c.since)
  }

  /** The conditions once `r` is set. */
  function Put(cs: seq<Condition>, r: Report, now: nat): seq<Condition> {
    if cs == [] then [Fresh(r, now)]
    else if cs[0].kind == r.kind then [Updated(cs[0], r, now)] + cs[1..]
    else [cs[0]] + Put(cs[1..], r, now)
  }

  ghost predicate FirstOfKind(cs: seq<Condition>, kind: string, i: nat) {
    i < |cs| && cs[i].kind == kind && forall j :: 0 <= j < i ==> cs[j].kind != kind
  }

  method FindCondition(cs: seq<Condition>, kind: string) returns (found: Option<nat>)
    ensures found.Some? ==> FirstOfKind(cs, kind, found.value)
    ensures found.None? ==> forall c :: c in cs ==> c.kind != kind
  {
    for i := 0 to |cs|
      invariant forall j :: 0 <= j < i ==> cs[j].kind != kind
    {
      if cs[i].kind == kind { return Some(i); }
    }
    found := None;
  }

  /** setCondition: changes the first condition of the kind in place, or appends one. */
  method SetCondition(cs: seq<Condition>, r: Report, now: nat) returns (conditions: seq<Condition>)
    ensures conditions == Put(cs, r, now)
  {
    conditions := cs;
    var found := FindCondition(conditions, r.kind);
    if found.None? {
      PutAppends(cs, r, now);
      conditions := conditions + [Condition(r.kind, r.status, r.reason, r.message, now)];
    } else {
      var i := found.value;
      PutReplaces(cs, r, now, i);
      if ShouldUpdate(conditions[i], r) {
        if conditions[i].status != r.status {
          conditions := conditions[i := conditions[i].(since := now)];
        }
        conditions := conditions[i := conditions[i].(status := r.status)];
        conditions := conditions[i := conditions[i].(reason := r.reason)];
        conditions := conditions[i := conditions[i].(message := r.message)];
      }
    }
  }

  lemma {:induction false} PutReplaces(cs: seq<Condition>, r: Report, now: nat, i: nat)
    requires FirstOfKind(cs, r.kind, i)
    ensures Put(cs, r, now) == cs[i := Updated(cs[i], r, now)]
  {
    if i > 0 { PutReplaces(cs[1..], r, now, i - 1); }
  }

  lemma {:induction false} PutAppends(cs: seq<Condition>, r: Report, now: nat)
    requires forall c :: c in cs ==> c.kind != r.kind
    ensures Put(cs, r, now) == cs + [Fresh(r, now)]
  {
    if cs != [] {
      assert cs[0] in cs;
      PutAppends(cs[1..], r, now);
      assert cs == [cs[0]] + cs[1..];
    }
  }

  // ------------------------------------------------------------ what one call keeps

  ghost predicate UniqueKinds(cs: seq<Condition>) {
    forall i, j :: 0 <= i < j < |cs| ==> cs[i].kind != cs[j].kind
  }

  /** The condition of the kind. */
  function Lookup(cs: seq<Condition>, kind: string): (found: Option<Condition>)
    ensures found.Some? ==> found.value.kind == kind
  {
    if cs == [] then None else if cs[0].kind == kind then Some(cs[0]) else Lookup(cs[1..], kind)
  }

  /** The conditions of other kinds, in order. */
  function Others(cs: seq<Condition>, kind: string): seq<Condition> {
    if cs == [] then [] else (if cs[0].kind == kind then [] else [cs[0]]) + Others(cs[1..], kind)
  }

  lemma {:induction false} PutAddsNoKind(cs: seq<Condition>, r: Report, now: nat, kind: string)
    requires kind != r.kind && forall c :: c in cs ==> c.kind != kind
    ensures forall c :: c in Put(cs, r, now) ==> c.kind != kind
  {
    if cs != [] && cs[0].kind != r.kind { PutAddsNoKind(cs[1..], r, now, kind); }
  }

  lemma {:induction false} PutKeepsKinds(cs: seq<Condition>, r: Report, now: nat)
    requires UniqueKinds(cs)
    ensures UniqueKinds(Put(cs, r, now))
  {
    if cs != [] {
      if cs[0].kind == r.kind {
        assert Put(cs, r, now) == cs[0 := Updated(cs[0], r, now)];
      } else {
        PutKeepsKinds(cs[1..], r, now);
        PutAddsNoKind(cs[1..], r, now, cs[0].kind);
        HeadDiffers(cs[0], Put(cs[1..], r, now));
      }
    }
  }

  lemma HeadDiffers(c: Condition, cs: seq<Condition>)
    requires UniqueKinds(cs) && forall d :: d in cs ==> d.kind != c.kind
    ensures UniqueKinds([c] + cs)
  {
    forall j | 0 <= j < |cs| ensures cs[j].kind != c.kind { assert cs[j] in cs; }
  }

  /** Setting a condition changes the one of its kind and no other. */
  lemma {:induction false} PutChangesOne(cs: seq<Condition>, r: Report, now: nat)
    ensures Others(Put(cs, r, now), r.kind) == Others(cs, r.kind)
    ensures var before := Lookup(cs, r.kind);
            Lookup(Put(cs, r, now), r.kind) == Some(if before.Some? then Updated(before.value, r, now) else Fresh(r, now))
    ensures forall kind :: kind != r.kind ==> Lookup(Put(cs, r, now), kind) == Lookup(cs, kind)
  {
    if cs != [] && cs[0].kind != r.kind {
      PutChangesOne(cs[1..], r, now);
      assert Put(cs, r, now)[1..] == Put(cs[1..], r, now);
    } else if cs != [] {
      assert Put(cs, r, now)[1..] == cs[1..];
    }
  }

  /** Setting the same again changes nothing. */
  lemma {:induction false} PutTwice(cs: seq<Condition>, r: Report, now: nat, later: nat)
    ensures Put(Put(cs, r, now), r, later) == Put(cs, r, now)
  {
    if cs != [] && cs[0].kind != r.kind {
      PutTwice(cs[1..], r, now, later);
      assert Put(cs, r, now)[1..] == Put(cs[1..], r, now);
    } else if cs != [] {
      assert Put(cs, r, now)[1..] == cs[1..];
    }
  }

  // ------------------------------------------------------------ what a history leaves

  /** The conditions after all events. */
  function Run(cs: seq<Condition>, h: seq<Event>): seq<Condition> {
    if h == [] then cs else var last := |h| - 1; Put(Run(cs, h[..last]), h[last].report, h[last].at)
  }

  /** The status last reported for the kind. */
  function StatusAfter(before: Option<Condition>, h: seq<Event>, kind: string): Option<string> {
    if h == [] then if before.Some? then Some(before.value.status) else None
    else if h[|h| - 1].report.kind == kind then Some(h[|h| - 1].report.status)
    else StatusAfter(before, h[..|h| - 1], kind)
  }

  /** Event `i` changes the status of the kind. */
  ghost predicate Flips(before: Option<Condition>, h: seq<Event>, kind: string, i: nat) {
    i < |h| && h[i].report.kind == kind && StatusAfter(before, h[..i], kind) != Some(h[i].report.status)
  }

  /** Event `i` is the last one of the kind. */
  ghost predicate LastReport(h: seq<Event>, kind: string, i: nat) {
    i < |h| && h[i].report.kind == kind && forall j :: i < j < |h| ==> h[j].report.kind != kind
  }

  /** The time is that of the last event that changed the status, or else the one at the start. */
  ghost predicate IsLastFlip(before: Option<Condition>, h: seq<Event>, kind: string, since: nat) {
    || (exists i: nat :: Flips(before, h, kind, i) && since == h[i].at && forall j: nat :: i < j ==> !Flips(before, h, kind, j))
    || ((forall j: nat :: !Flips(before, h, kind, j)) && before.Some? && since == before.value.since)
  }

  /** A condition shows the last report of its kind. */
  lemma {:induction false} ShowsLastReport(cs: seq<Condition>, h: seq<Event>, kind: string, i: nat)
    requires LastReport(h, kind, i)
    ensures var after := Lookup(Run(cs, h), kind);
            && after.Some? && after.value == Fresh(h[i].report, after.value.since)
            && after.value.kind == kind && after.value.status == h[i].report.status
            && after.value.reason == h[i].report.reason && after.value.message == h[i].report.message
  {
    var last := |h| - 1;
    PutChangesOne(Run(cs, h[..last]), h[last].report, h[last].at);
    hide Put, Lookup;
    if i < last {
      assert LastReport(h[..last], kind, i);
      ShowsLastReport(cs, h[..last], kind, i);
    }
  }

  /** Kinds stay unique, and the conditions of kinds never reported stay what and where they were. */
  lemma {:induction false} HistoryKeepsOthers(cs: seq<Condition>, h: seq<Event>, kind: string)
    requires forall e :: e in h ==> e.report.kind == kind
    ensures UniqueKinds(cs) ==> UniqueKinds(Run(cs, h))
    ensures Others(Run(cs, h), kind) == Others(cs, kind)
  {
    if h != [] {
      var last := |h| - 1;
      HistoryKeepsOthers(cs, h[..last], kind);
      assert h[last] in h;
      if UniqueKinds(cs) { PutKeepsKinds(Run(cs, h[..last]), h[last].report, h[last].at); }
      PutChangesOne(Run(cs, h[..last]), h[last].report, h[last].at);
    }
  }

  lemma FlipsInPrefix(before: Option<Condition>, h: seq<Event>, kind: string)
    requires h != []
    ensures var init := h[..|h| - 1];
            forall j: nat :: Flips(before, h, kind, j) <==>
              if j == |init| then h[j].report.kind == kind && StatusAfter(before, init, kind) != Some(h[j].report.status)
              else Flips(before, init, kind, j)
  {
    var init := h[..|h| - 1];
    assert forall j :: 0 <= j <= |init| ==> init[..j] == h[..j];
  }

  /** Over any history, the transition time of a condition is that of the last change of its status. */
  lemma {:induction false} HistoryOfKind(cs: seq<Condition>, h: seq<Event>, kind: string)
    ensures var before, after := Lookup(cs, kind), Lookup(Run(cs, h), kind);
            && (after.Some? <==> StatusAfter(before, h, kind).Some?)
            && (after.Some? ==> after.value.status == StatusAfter(before, h, kind).value)
            && (after.Some? ==> IsLastFlip(before, h, kind, after.value.since))
  {
    if h != [] {
      var last := |h| - 1;
      var before, mid := Lookup(cs, kind), Lookup(Run(cs, h[..last]), kind);
      HistoryOfKind(cs, h[..last], kind);
      PutChangesOne(Run(cs, h[..last]), h[last].report, h[last].at);
      FlipsInPrefix(before, h, kind);
      var after := Lookup(Run(cs, h), kind);
      hide Flips, Put, Lookup, StatusAfter;
      if Flips(before, h, kind, last) {
        assert after.value.since == h[last].at;
      } else if after.Some? {
        assert mid.Some? && after.value.since == mid.value.since;
      }
    }
  }
}
