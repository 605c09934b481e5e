/** Migrating gets done: losing a race is no failure, and whoever has not failed can always finish. */
module MigrationProgress {
  import opened Collections
  import opened Migrations
  import S = Strings

  // ----- The write lock -----------------------------------------------------------------------

  /** The lock is held by the one run that is inside its locked section, at a file of the list. */
  ghost predicate LockOk(files: seq<string>, sys: System) {
    && (sys.lock.Some? ==> sys.lock.value < |sys.runs| && HoldsLock(sys.runs[sys.lock.value]))
    && forall m :: 0 <= m < |sys.runs| && HoldsLock(sys.runs[m]) ==>
         sys.lock == Some(m) && sys.runs[m].phase.i < |files|
  }

  lemma StepKeepsLock(files: seq<string>, sys: System, t: Turn)
    requires LockOk(files, sys)
    ensures LockOk(files, Step(files, sys, t)) && |Step(files, sys, t).runs| == |sys.runs|
  {
    hide ReadApplied;
  }

  lemma {:induction false} ScheduleKeepsLock(files: seq<string>, sys: System, schedule: seq<Turn>)
    requires LockOk(files, sys)
    ensures LockOk(files, RunAll(files, sys, schedule)) && |RunAll(files, sys, schedule).runs| == |sys.runs|
  {
    hide LockOk, Step;
    if schedule != [] {
      var front := schedule[..|schedule| - 1];
      ScheduleKeepsLock(files, sys, front);
      StepKeepsLock(files, RunAll(files, sys, front), schedule[|schedule| - 1]);
    }
  }

  lemma StartsLocked(files: seq<string>, start: System)
    requires Starts(start)
    ensures LockOk(files, start)
  {
    assert forall m :: 0 <= m < |start.runs| ==> start.runs[m] in start.runs;
  }

  // ----- No failure without a cause --------------------------------------------------------------

  lemma StepFailsOnlyIfTold(files: seq<string>, sys: System, t: Turn, m: nat)
    requires LockOk(files, sys) && m < |sys.runs| && !sys.runs[m].phase.Failed?
    requires t.who == m ==> !t.fails
    ensures m < |Step(files, sys, t).runs| && !Step(files, sys, t).runs[m].phase.Failed?
  {
    hide ReadApplied;
  }

  /** A run none of whose statements fails never throws: losing the race for a file is no error. */
  lemma {:induction false} FailsOnlyIfTold(files: seq<string>, start: System, schedule: seq<Turn>, m: nat)
    requires Starts(start) && m < |start.runs|
    requires forall t :: t in schedule && t.who == m ==> !t.fails
    ensures m < |RunAll(files, start, schedule).runs| && !RunAll(files, start, schedule).runs[m].phase.Failed?
  {
    StartsLocked(files, start);
    if schedule == [] {
      assert start.runs[m] in start.runs;
    } else {
      hide LockOk, Step, Starts;
      var front, t := schedule[..|schedule| - 1], schedule[|schedule| - 1];
      assert forall x :: x in front ==> x in schedule;
      FailsOnlyIfTold(files, start, front, m);
      ScheduleKeepsLock(files, start, front);
      StepFailsOnlyIfTold(files, RunAll(files, start, front), t, m);
    }
  }

  /** A statement that fails ends its run with an exception, leaves the ledger and the commits as they
      were, and gives the lock back if the run held it. */
  lemma FailureRollsBack(files: seq<string>, sys: System, m: nat)
    requires LockOk(files, sys) && m < |sys.runs|
    requires var p := sys.runs[m].phase;
             p.Reading? || HoldsLock(sys.runs[m])
             || (p.Looping? && p.i < |files| && files[p.i] !in sys.runs[m].applied)
    ensures var next := Step(files, sys, Turn(m, true));
            && next.runs == sys.runs[m := sys.runs[m].(phase := Failed)]
            && next.ledger == sys.ledger && next.log == sys.log
            && next.lock == if HoldsLock(sys.runs[m]) then None else sys.lock
  {
  }

  // ----- Progress -----------------------------------------------------------------------------------

  lemma {:induction false} RunAllJoins(files: seq<string>, sys: System, a: seq<Turn>, b: seq<Turn>)
    ensures RunAll(files, sys, a + b) == RunAll(files, RunAll(files, sys, a), b)
  {
    hide Step;
    if b == [] {
      assert a + b == a;
    } else {
      var front := b[..|b| - 1];
      assert (a + b)[..|a + b| - 1] == a + front;
      RunAllJoins(files, sys, a, front);
    }
  }

  lemma RunAllOne(files: seq<string>, sys: System, t: Turn)
    ensures RunAll(files, sys, [t]) == Step(files, sys, t)
  {
    hide Step;
    assert [t][..0] == [];
  }

  /** A bound on the turns that a run still needs. */
  function Left(files: seq<string>, p: Phase): nat {
    match p
    case Reading => 3 * |files| + 3
    case Looping(i) => if i >= |files| then 1 else 3 * (|files| - i) + 2
    case Locked(i) => if i >= |files| then 1 else 3 * (|files| - i) + 1
    case Applying(i) => if i >= |files| then 1 else 3 * (|files| - i)
    case _ => 0
  }

  /** With the lock free or its own, a run that is not over comes closer to its end by every turn. */
  lemma OwnTurn(files: seq<string>, sys: System, m: nat)
    requires LockOk(files, sys) && m < |sys.runs| && sys.lock in {None, Some(m)}
    requires !sys.runs[m].phase.Failed? && !sys.runs[m].phase.Done?
    ensures var next := Step(files, sys, Turn(m, false));
            && |next.runs| == |sys.runs| && next.lock in {None, Some(m)}
            && !next.runs[m].phase.Failed? && Left(files, next.runs[m].phase) < Left(files, sys.runs[m].phase)
            && forall j :: 0 <= j < |sys.runs| && j != m ==> next.runs[j] == sys.runs[j]
  {
    hide ReadApplied;
  }

  /** Every turn of the schedule succeeds. */
  ghost predicate Smooth(schedule: seq<Turn>) {
    forall t :: t in schedule ==> !t.fails
  }

  /** A run that holds the lock, or finds it free, finishes if it is left alone. */
  lemma {:induction false} FinishOne(files: seq<string>, sys: System, m: nat) returns (more: seq<Turn>)
    requires LockOk(files, sys) && m < |sys.runs| && sys.lock in {None, Some(m)} && !sys.runs[m].phase.Failed?
    ensures var now := RunAll(files, sys, more);
            && Smooth(more) && LockOk(files, now) && now.lock.None?
            && |now.runs| == |sys.runs| && now.runs[m].phase.Done?
            && forall j :: 0 <= j < |sys.runs| && j != m ==> now.runs[j] == sys.runs[j]
    decreases Left(files, sys.runs[m].phase)
  {
    hide Step;
    if sys.runs[m].phase.Done? {
      more := [];
    } else {
      var t := Turn(m, false);
      var next := Step(files, sys, t);
      OwnTurn(files, sys, m);
      StepKeepsLock(files, sys, t);
      var rest := FinishOne(files, next, m);
      more := [t] + rest;
      RunAllOne(files, sys, t);
      RunAllJoins(files, sys, [t], rest);
    }
  }

  /** The first `n` runs are over, and the others are as they were. */
  ghost predicate OverBelow(sys: System, now: System, n: nat) {
    && |now.runs| == |sys.runs|
    && (forall j :: 0 <= j < |sys.runs| && (j >= n || sys.runs[j].phase.Failed?) ==> now.runs[j] == sys.runs[j])
    && (forall j :: 0 <= j < |sys.runs| && j < n && !sys.runs[j].phase.Failed? ==> now.runs[j].phase.Done?)
  }

  lemma {:induction false} FinishBelow(files: seq<string>, sys: System, n: nat) returns (more: seq<Turn>)
    requires LockOk(files, sys) && sys.lock.None? && n <= |sys.runs|
    ensures var now := RunAll(files, sys, more);
            Smooth(more) && LockOk(files, now) && now.lock.None? && OverBelow(sys, now, n)
  {
    hide Step, LockOk;
    if n == 0 {
      more := [];
    } else {
      more := FinishBelow(files, sys, n - 1);
      var mid := RunAll(files, sys, more);
      if !sys.runs[n - 1].phase.Failed? {
        var rest := FinishOne(files, mid, n - 1);
        RunAllJoins(files, sys, more, rest);
        more := more + rest;
      }
    }
  }

  /** All runs that had not failed at `sys` are done at `now`, and nothing has been failed since. */
  ghost predicate AllOver(sys: System, now: System) {
    && |now.runs| == |sys.runs|
    && forall j :: 0 <= j < |sys.runs| ==>
         if sys.runs[j].phase.Failed? then now.runs[j] == sys.runs[j] else now.runs[j].phase.Done?
  }

  /** From whatever point a schedule has come to, whoever has failed there, there are turns, none of
      them failing, after which every other run is done. */
  lemma EveryoneCanFinish(files: seq<string>, start: System, schedule: seq<Turn>) returns (more: seq<Turn>)
    requires Starts(start)
    ensures Smooth(more) && AllOver(RunAll(files, start, schedule), RunAll(files, start, schedule + more))
  {
    hide Step;
    var sys := RunAll(files, start, schedule);
    StartsLocked(files, start);
    ScheduleKeepsLock(files, start, schedule);
    var first: seq<Turn> := [];
    if sys.lock.Some? {
      first := FinishOne(files, sys, sys.lock.value);
    }
    var mid := RunAll(files, sys, first);
    var rest := FinishBelow(files, mid, |mid.runs|);
    more := first + rest;
    RunAllJoins(files, sys, first, rest);
    RunAllJoins(files, start, schedule, more);
  }

  /** However the runs race, as long as no statement fails they can all finish, and then they return
      together the number of migrations that were pending. */
  lemma RacersShareTheWork(files: seq<string>, start: System, schedule: seq<Turn>) returns (more: seq<Turn>)
    requires FilesOk(files) && Starts(start) && start.runs != [] && Smooth(schedule)
    ensures Smooth(more)
    ensures var now := RunAll(files, start, schedule + more);
            && |now.runs| == |start.runs| && (forall r :: r in now.runs ==> r.phase.Done?)
            && Counts(now.runs) == |Pending(files, start)| && forall f :: f in files ==> f in Applied(now)
  {
    hide RunAll, FilesOk, LockOk, Counts, Pending, Applied;
    more := EveryoneCanFinish(files, start, schedule);
    var sys, now := RunAll(files, start, schedule), RunAll(files, start, schedule + more);
    StartsLocked(files, start);
    ScheduleKeepsLock(files, start, schedule);
    forall j | 0 <= j < |sys.runs| ensures now.runs[j].phase.Done? {
      FailsOnlyIfTold(files, start, schedule, j);
    }
    assert forall r :: r in now.runs ==> r.phase.Done?;
    CountsAddUp(files, start, schedule + more);
    FinishedMeansMigrated(files, start, schedule + more, 0);
  }

  /** Two runs that both see one file pending: one applies it, the other finds it applied under the
      lock, goes on, and returns 0. */
  lemma LoserOfTheRaceSkips(f: string)
    requires NoComma(f)
    ensures var a, b := Turn(0, false), Turn(1, false);
            var start := System(None, None, [], [Run(Reading, [], 0), Run(Reading, [], 0)]);
            var now := RunAll([f], start, [a, b, a, a, a, b, b, a, b]);
            && now.runs == [Run(Done, [f], 1), Run(Done, [f], 0)]
            && now.ledger == Some(f) && now.lock.None? && now.log == [Commit(0, 0)]
  {
    hide Step;
    var a, b, files := Turn(0, false), Turn(1, false), [f];
    var s0 := System(None, None, [], [Run(Reading, [], 0), Run(Reading, [], 0)]);
    var s1, s2 := Step(files, s0, a), Step(files, Step(files, s0, a), b);
    var s3 := Step(files, s2, a);
    var s4 := Step(files, s3, a);
    var s5 := Step(files, s4, a);
    var s6 := Step(files, s5, b);
    var s7 := Step(files, s6, b);
    var s8 := Step(files, s7, a);
    var s9 := Step(files, s8, b);
    RaceBegins(f, s0, s1, s2, s3, s4, s5);
    RaceEnds(f, s5, s6, s7, s8, s9);
    NineTurns(files, s0, a, b);
  }

  lemma RaceBegins(f: string, s0: System, s1: System, s2: System, s3: System, s4: System, s5: System)
    requires NoComma(f)
    requires s0 == System(None, None, [], [Run(Reading, [], 0), Run(Reading, [], 0)])
    requires var a, b := Turn(0, false), Turn(1, false);
             && s1 == Step([f], s0, a) && s2 == Step([f], s1, b) && s3 == Step([f], s2, a)
             && s4 == Step([f], s3, a) && s5 == Step([f], s4, a)
    ensures s5 == System(Some(f), None, [Commit(0, 0)], [Run(Looping(1), [f], 1), Run(Looping(0), [], 0)])
  {
    assert s2.runs == [Run(Looping(0), [], 0), Run(Looping(0), [], 0)];
    assert s3 == System(None, Some(0), [], [Run(Locked(0), [], 0), Run(Looping(0), [], 0)]);
    assert s4 == System(None, Some(0), [], [Run(Applying(0), [], 0), Run(Looping(0), [], 0)]);
    OneName(f);
    var none: seq<string> := [];
    assert none + [f] == [f];
    assert s5.ledger == Some(f) && s5.log == [Commit(0, 0)];
    assert s5.runs[0] == Run(Looping(1), [f], 1);
    assert s5.runs == [s5.runs[0], s4.runs[1]];
  }

  lemma OneName(f: string)
    requires NoComma(f)
    ensures S.Join(S.SortTexts([] + [f])) == f && Split(f) == [f]
  {
    assert [] + [f] == [f] && [f][1..] == [];
    assert S.SortTexts([f]) == S.InsertText(f, S.SortTexts([]));
    SplitOne(f);
  }

  lemma RaceEnds(f: string, s5: System, s6: System, s7: System, s8: System, s9: System)
    requires NoComma(f)
    requires s5 == System(Some(f), None, [Commit(0, 0)], [Run(Looping(1), [f], 1), Run(Looping(0), [], 0)])
    requires var a, b := Turn(0, false), Turn(1, false);
             && s6 == Step([f], s5, b) && s7 == Step([f], s6, b) && s8 == Step([f], s7, a) && s9 == Step([f], s8, b)
    ensures s9 == System(Some(f), None, [Commit(0, 0)], [Run(Done, [f], 1), Run(Done, [f], 0)])
  {
    SplitOne(f);
    assert s6 == System(Some(f), Some(1), [Commit(0, 0)], [Run(Looping(1), [f], 1), Run(Locked(0), [], 0)]);
    assert s7 == System(Some(f), None, [Commit(0, 0)], [Run(Looping(1), [f], 1), Run(Looping(1), [f], 0)]);
  }

  lemma NineTurns(files: seq<string>, sys: System, a: Turn, b: Turn)
    ensures RunAll(files, sys, [a, b, a, a, a, b, b, a, b])
         == Step(files, Step(files, Step(files, Step(files, Step(files,
              Step(files, Step(files, Step(files, Step(files, sys, a), b), a), a), a), b), b), a), b)
  {
    hide Step;
    var all := [a, b, a, a, a, b, b, a, b];
    RunAllOne(files, sys, a);
    assert all[..9] == all;
    forall k | 1 <= k < 9
      ensures RunAll(files, sys, all[..k + 1]) == Step(files, RunAll(files, sys, all[..k]), all[k])
    {
      assert all[..k + 1][..k] == all[..k];
    }
    assert all[..1] == [a];
    assert RunAll(files, sys, all[..2]) == Step(files, RunAll(files, sys, all[..1]), b);
    assert RunAll(files, sys, all[..3]) == Step(files, RunAll(files, sys, all[..2]), a);
    assert RunAll(files, sys, all[..4]) == Step(files, RunAll(files, sys, all[..3]), a);
    assert RunAll(files, sys, all[..5]) == Step(files, RunAll(files, sys, all[..4]), a);
    assert RunAll(files, sys, all[..6]) == Step(files, RunAll(files, sys, all[..5]), b);
    assert RunAll(files, sys, all[..7]) == Step(files, RunAll(files, sys, all[..6]), b);
    assert RunAll(files, sys, all[..8]) == Step(files, RunAll(files, sys, all[..7]), a);
    assert RunAll(files, sys, all[..9]) == Step(files, RunAll(files, sys, all[..8]), b);
  }

  // ----- The ledger ----------------------------------------------------------------------------------

  /** A commit writes the names read under the lock and the new one, sorted, with commas between. */
  lemma LedgerIsSorted(files: seq<string>, sys: System, t: Turn)
    requires Commits(files, sys, t) && NoComma(files[sys.runs[t.who].phase.i])
    requires RunOk(files, sys, t.who)
    ensures var list := ReadApplied(Step(files, sys, t).ledger);
            S.TextsSorted(list)
            && multiset(list) == multiset(ReadApplied(sys.ledger)) + multiset{files[sys.runs[t.who].phase.i]}
  {
    var f := files[sys.runs[t.who].phase.i];
    var list := ReadApplied(sys.ledger) + [f];
    S.SortTextsKeeps(list);
    S.SortTextsSorted(list);
    if sys.ledger.Some? {
      PiecesHaveNoComma(sys.ledger.value);
    }
    forall x | x in S.SortTexts(list) ensures NoComma(x) {
      assert x in multiset(S.SortTexts(list));
      assert x in multiset(list);
    }
    assert |S.SortTexts(list)| == |multiset(S.SortTexts(list))|;
    SplitJoin(S.SortTexts(list));
  }
}
