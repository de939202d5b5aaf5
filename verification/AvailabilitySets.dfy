/** Exactly when availability sets leak, and exactly when a user's availability set is safe from the controller. */
module AvailabilitySets {
  import opened CalmCloud
  import opened Cloud
  import opened Errors
  import opened Lifecycle
  import opened Names
  import opened Reconciler
  import opened Runs
  import opened Wrappers

  /** The adversary that does nothing: every call succeeds, every question is answered yes, Azure keeps still. */
  const QUIET: Oracle := (t: nat) => Answer(None, true, true, {Accelerates, Zoneless, HasUserData}, map[])

  lemma QuietIsCalm()
    ensures Calm(QUIET) && Obliging(QUIET) && forall t: nat :: Zoneless in QUIET(t).yes
  {
  }

  // ------------------------------------------------------------ the exact conditions

  ghost predicate OnlyUserSets(cl: Cluster, p: Progress) {
    forall n :: AvailabilitySet(n) in p.w.live ==> n in cl.userSets
  }

  /** A machine that borrows another's generated set keeps it occupied when the other is deleted,
      and does not ask for it when it is deleted itself: the set stays for good. */
  lemma BorrowedSetLeaks(cl: Cluster, a: string, b: string) returns (ops: seq<Op>)
    requires a in cl.configs && b in cl.configs && Borrows(cl, cl.At(a), cl.At(b))
    ensures Feasible(cl, ops)
    ensures var p := Run(QUIET, cl, Start(cl), ops); p.dirty == {} && !OnlyUserSets(cl, p)
  {
    hide CreateMachine;
    hide Reconciler.Delete;
    hide Machine.GeneratedSet;
    hide CreateNetworkInterface, Calm, Obliging;
    QuietIsCalm();
    var borrower, owner := cl.At(a), cl.At(b);
    var n := owner.GeneratedSet();
    GeneratedSetIsNamed(owner);
    ops := [Create(b, 0), Create(a, 0), Delete(b), Delete(a)];
    var p0 := Start(cl);
    var p1 := Step(QUIET, cl, p0, ops[0]);
    CalmCreate(QUIET, p0.w, owner, 0);
    CreateIsConfined(QUIET, p0.w, owner, 0);
    assert AvailabilitySet(n) in p1.w.live && a !in p1.w.vms;
    var p2 := Step(QUIET, cl, p1, ops[1]);
    CalmCreate(QUIET, p1.w, borrower, 0);
    CreateIsConfined(QUIET, p1.w, borrower, 0);
    assert AvailabilitySet(n) in p2.w.live && a in p2.w.vms && p2.w.vms[a].aset == n;
    var p3 := Step(QUIET, cl, p2, ops[2]);
    CalmDelete(QUIET, p2.w, owner);
    DeleteIsConfined(QUIET, p2.w, owner);
    assert Occupied(p3.w, n) && AvailabilitySet(n) in p3.w.live;
    var p4 := Step(QUIET, cl, p3, ops[3]);
    CalmDelete(QUIET, p3.w, borrower);
    DeleteIsConfined(QUIET, p3.w, borrower);
    assert p4.dirty == {};
    RunOfFour(QUIET, cl, p0, ops);
  }

  lemma RunOfFour(o: Oracle, cl: Cluster, p: Progress, ops: seq<Op>)
    requires |ops| == 4 && Feasible(cl, ops)
    ensures Run(o, cl, p, ops) == Step(o, cl, Step(o, cl, Step(o, cl, Step(o, cl, p, ops[0]), ops[1]), ops[2]), ops[3])
  {
    hide Step;
    var p1 := Step(o, cl, p, ops[0]);
    var p2 := Step(o, cl, p1, ops[1]);
    var p3 := Step(o, cl, p2, ops[2]);
    var p4 := Step(o, cl, p3, ops[3]);
    assert ops[1..][1..] == ops[2..] && ops[2..][1..] == ops[3..] && ops[3..][1..] == [];
    assert Run(o, cl, p4, []) == p4;
    assert Run(o, cl, p3, ops[3..]) == p4;
    assert Run(o, cl, p2, ops[2..]) == p4;
    assert Run(o, cl, p1, ops[1..]) == p4;
  }

  /** Finished runs leave no availability set but the users', against every adversary, if and only if no machine
      borrows a set that the controller generates for others. */
  lemma SetsNeverLeakIff(cl: Cluster)
    ensures SetsApart(cl) <==>
            forall o: Oracle, p: Progress :: Reachable(o, cl, p) && p.dirty == {} ==> OnlyUserSets(cl, p)
  {
    hide Reachable;
    if SetsApart(cl) {
      forall o: Oracle, p: Progress | Reachable(o, cl, p) && p.dirty == {} ensures OnlyUserSets(cl, p) {
        NoSetLeak(o, cl, p);
      }
    } else {
      var a, b :| a in cl.configs && b in cl.configs && Borrows(cl, cl.At(a), cl.At(b));
      var ops := BorrowedSetLeaks(cl, a, b);
      IsReachable(QUIET, cl, ops);
    }
  }

  lemma IsReachable(o: Oracle, cl: Cluster, ops: seq<Op>)
    requires Feasible(cl, ops)
    ensures Reachable(o, cl, Run(o, cl, Start(cl), ops))
  {
  }

  /** A user's availability set survives every run, against every adversary, if and only if it does not bear the name
      generated for some machine whose Delete gets as far as asking for it. */
  lemma UserSetSurvivesIff(cl: Cluster, n: string)
    requires n in cl.userSets
    ensures NeverClaimed(cl, n) <==>
            forall o: Oracle, p: Progress :: Reachable(o, cl, p) ==> AvailabilitySet(n) in p.w.live
  {
    hide Reachable;
    hide Reconciler.Delete;
    hide Machine.GeneratedSet;
    if NeverClaimed(cl, n) {
      forall o: Oracle, p: Progress | Reachable(o, cl, p) ensures AvailabilitySet(n) in p.w.live {
        UserSetsSurvive(o, cl, p, n);
      }
    } else {
      var k :| k in cl.configs && Claims(cl.At(k)) && cl.At(k).GeneratedSet() == n;
      QuietIsCalm();
      var ops := [Delete(k)];
      var p := Start(cl);
      CalmDelete(QUIET, p.w, cl.At(k));
      DeleteMoves(QUIET, p.w, cl.At(k));
      assert Run(QUIET, cl, Step(QUIET, cl, p, ops[0]), []) == Step(QUIET, cl, p, ops[0]);
      assert ops[1..] == [];
      IsReachable(QUIET, cl, ops);
    }
  }
}
