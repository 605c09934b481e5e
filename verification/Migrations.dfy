/** Several processes migrating one database at once. A schedule interleaves their steps; every
    step may fail, which rolls its transaction back and ends that run. */
module Migrations {
  import opened Collections
  import opened Strings

  // ----- The ledger text ------------------------------------------------------------------

  predicate NoComma(s: string) {
    forall i :: 0 <= i < |s| ==> s[i] != ','
  }

  /** The pieces between commas. */
  function Split(s: string): (r: seq<string>)
    ensures r != []
  {
    if s == "" then [""]
    else
      var rest := Split(s[1..]);
      if s[0] == ',' then [""] + rest else [[s[0]] + rest[0]] + rest[1..]
  }

  lemma {:induction false} PiecesHaveNoComma(s: string)
    ensures forall p :: p in Split(s) ==> NoComma(p)
  {
    if s != "" {
      PiecesHaveNoComma(s[1..]);
      assert forall p :: p in Split(s[1..])[1..] ==> p in Split(s[1..]);
      assert Split(s[1..])[0] in Split(s[1..]);
    }
  }

  lemma {:induction false} SplitOne(s: string)
    requires NoComma(s)
    ensures Split(s) == [s]
  {
    if s != "" {
      SplitOne(s[1..]);
      assert s == [s[0]] + s[1..];
    }
  }

  lemma {:induction false} SplitFirst(s: string, t: string)
    requires NoComma(s)
    ensures Split(s + "," + t) == [s] + Split(t)
  {
    var u := s + "," + t;
    if s == "" {
      assert u[1..] == t;
    } else {
      SplitFirst(s[1..], t);
      assert u[1..] == s[1..] + "," + t;
      assert s == [s[0]] + s[1..];
    }
  }

  /** Splitting undoes joining as long as no name contains a comma. */
  lemma {:induction false} SplitJoin(list: seq<string>)
    requires list != [] && forall x :: x in list ==> NoComma(x)
    ensures Split(Join(list)) == list
  {
    assert list[0] in list;
    if |list| == 1 {
      SplitOne(list[0]);
      assert list == [list[0]];
    } else {
      assert forall x :: x in list[1..] ==> x in list;
      SplitJoin(list[1..]);
      SplitFirst(list[0], Join(list[1..]));
      assert list == [list[0]] + list[1..];
    }
  }

  /** A ledger row remembers exactly the names in it that have no comma: the set read back equals
      the set written if and only if none has one. */
  lemma LedgerRemembers(list: seq<string>)
    requires list != []
    ensures Elements(Split(Join(list))) == Elements(list) <==> forall x :: x in list ==> NoComma(x)
  {
    if forall x :: x in list ==> NoComma(x) {
      SplitJoin(list);
    } else {
      var x :| x in list && !NoComma(x);
      PiecesHaveNoComma(Join(list));
      assert x in Elements(list) && x !in Elements(Split(Join(list)));
    }
  }

  // ----- The processes ---------------------------------------------------------------------

  /** Where a run stands: about to read the ledger, at file `i` of its loop, holding the write lock
      for file `i`, about to commit file `i`, finished, or thrown. */
  datatype Phase = Reading | Looping(i: nat) | Locked(i: nat) | Applying(i: nat) | Done | Failed

  /** `applied` is the local set, in insertion order; `count` what the run returns. */
  datatype Run = Run(phase: Phase, applied: seq<string>, count: nat)

  datatype Commit = Commit(who: nat, file: nat)

  /** The stored ledger value, who holds the write lock, the commits so far and the runs. */
  datatype System = System(ledger: Option<string>, lock: Option<nat>, log: seq<Commit>, runs: seq<Run>)

  datatype Turn = Turn(who: nat, fails: bool)

  /** What `readApplied` returns. */
  function ReadApplied(ledger: Option<string>): seq<string> {
    if ledger.None? then [] else Split(ledger.value)
  }

  function StepRun(files: seq<string>, sys: System, m: nat, fails: bool): System
    requires m < |sys.runs|
  {
    var r := sys.runs[m];
    match r.phase
    case Reading =>
      if fails then sys.(runs := sys.runs[m := r.(phase := Failed)])
      else sys.(runs := sys.runs[m := r.(phase := Looping(0), applied := ReadApplied(sys.ledger))])
    case Looping(i) =>
      if i >= |files| then sys.(runs := sys.runs[m := r.(phase := Done)])
      else if files[i] in r.applied then sys.(runs := sys.runs[m := r.(phase := Looping(i + 1))])
      else if fails then sys.(runs := sys.runs[m := r.(phase := Failed)])
      else if sys.lock.Some? then sys
      else sys.(lock := Some(m), runs := sys.runs[m := r.(phase := Locked(i))])
    case Locked(i) =>
      if fails || i >= |files| then sys.(lock := None, runs := sys.runs[m := r.(phase := Failed)])
      else if files[i] in ReadApplied(sys.ledger) then
        sys.(lock := None, runs := sys.runs[m := r.(phase := Looping(i + 1), applied := ReadApplied(sys.ledger))])
      else sys.(runs := sys.runs[m := r.(phase := Applying(i), applied := ReadApplied(sys.ledger))])
    case Applying(i) =>
      if fails || i >= |files| then sys.(lock := None, runs := sys.runs[m := r.(phase := Failed)])
      else
        sys.(ledger := Some(Join(SortTexts(r.applied + [files[i]]))), lock := None, log := sys.log + [Commit(m, i)],
             runs := sys.runs[m := Run(Looping(i + 1), r.applied + [files[i]], r.count + 1)])
    case _ => sys
  }

  function Step(files: seq<string>, sys: System, t: Turn): System {
    if t.who < |sys.runs| then StepRun(files, sys, t.who, t.fails) else sys
  }

  function RunAll(files: seq<string>, sys: System, schedule: seq<Turn>): System {
    if schedule == [] then sys
    else Step(files, RunAll(files, sys, schedule[..|schedule| - 1]), schedule[|schedule| - 1])
  }

  ghost predicate Starts(sys: System) {
    sys.lock.None? && sys.log == [] && forall r :: r in sys.runs ==> r == Run(Reading, [], 0)
  }

  // ----- The invariant ----------------------------------------------------------------------

  function Applied(sys: System): set<string> {
    Elements(ReadApplied(sys.ledger))
  }

  ghost predicate AllIn(files: seq<string>, n: nat, s: set<string>) {
    n <= |files| && forall k :: 0 <= k < n ==> files[k] in s
  }

  predicate HoldsLock(r: Run) {
    r.phase.Locked? || r.phase.Applying?
  }

  ghost predicate RunOk(files: seq<string>, sys: System, m: nat)
    requires m < |sys.runs|
  {
    var r := sys.runs[m];
    && Elements(r.applied) <= Applied(sys)
    && (HoldsLock(r) ==> sys.lock == Some(m))
    && match r.phase
       case Looping(i) => AllIn(files, i, Applied(sys))
       case Locked(i) => i < |files| && AllIn(files, i, Applied(sys))
       case Applying(i) =>
         && i < |files| && AllIn(files, i, Applied(sys))
         && r.applied == ReadApplied(sys.ledger) && files[i] !in Applied(sys)
       case Done => AllIn(files, |files|, Applied(sys))
       case _ => true
  }

  ghost function Committed(files: seq<string>, log: seq<Commit>): set<string> {
    set c | c in log && c.file < |files| :: files[c.file]
  }

  function Counts(runs: seq<Run>): nat {
    if runs == [] then 0 else Counts(runs[..|runs| - 1]) + runs[|runs| - 1].count
  }

  ghost predicate LogOk(files: seq<string>, start: System, sys: System) {
    && Applied(sys) == Applied(start) + Committed(files, sys.log)
    && (forall c :: c in sys.log ==>
          c.file < |files| && files[c.file] !in Applied(start) && AllIn(files, c.file + 1, Applied(sys)))
    && (forall a, b :: 0 <= a < b < |sys.log| ==> sys.log[a].file < sys.log[b].file)
    && Counts(sys.runs) == |sys.log|
  }

  ghost predicate Inv(files: seq<string>, start: System, sys: System) {
    LogOk(files, start, sys) && |sys.runs| == |start.runs| && forall m :: 0 <= m < |sys.runs| ==> RunOk(files, sys, m)
  }

  // ----- Every step keeps the invariant -------------------------------------------------------

  lemma SortedElements(list: seq<string>)
    ensures Elements(SortTexts(list)) == Elements(list) && |SortTexts(list)| == |list|
  {
    SortTextsKeeps(list);
    assert |multiset(SortTexts(list))| == |multiset(list)|;
    assert forall x :: x in SortTexts(list) <==> x in multiset(SortTexts(list));
    assert forall x :: x in list <==> x in multiset(list);
  }

  /** What a commit leaves in the ledger: the names read under the lock, and the new one. */
  lemma LedgerAfterCommit(ledger: Option<string>, f: string)
    requires NoComma(f)
    ensures Elements(ReadApplied(Some(Join(SortTexts(ReadApplied(ledger) + [f])))))
         == Elements(ReadApplied(ledger)) + {f}
  {
    var list := ReadApplied(ledger) + [f];
    SortedElements(list);
    if ledger.Some? {
      PiecesHaveNoComma(ledger.value);
    }
    forall x | x in SortTexts(list) ensures NoComma(x) {
      assert x in Elements(SortTexts(list));
    }
    SplitJoin(SortTexts(list));
    assert Elements(list) == Elements(ReadApplied(ledger)) + {f};
  }

  lemma {:induction false} CountsUpdate(runs: seq<Run>, m: nat, r: Run)
    requires m < |runs|
    ensures Counts(runs[m := r]) == Counts(runs) - runs[m].count + r.count
  {
    var next := runs[m := r];
    if m == |runs| - 1 {
      assert next[..m] == runs[..m];
    } else {
      CountsUpdate(runs[..|runs| - 1], m, r);
      assert next[..|runs| - 1] == runs[..|runs| - 1][m := r];
    }
  }

  lemma {:induction false} CountsZero(runs: seq<Run>)
    requires forall r :: r in runs ==> r.count == 0
    ensures Counts(runs) == 0
  {
    if runs != [] {
      assert runs[|runs| - 1] in runs;
      CountsZero(runs[..|runs| - 1]);
    }
  }

  ghost predicate FilesOk(files: seq<string>) {
    (forall f :: f in files ==> NoComma(f)) && forall i, j :: 0 <= i < j < |files| ==> files[i] != files[j]
  }

  predicate Commits(files: seq<string>, sys: System, t: Turn) {
    t.who < |sys.runs| && sys.runs[t.who].phase.Applying? && !t.fails && sys.runs[t.who].phase.i < |files|
  }

  lemma QuietStep(files: seq<string>, start: System, sys: System, t: Turn)
    requires Inv(files, start, sys) && !Commits(files, sys, t)
    ensures Inv(files, start, Step(files, sys, t))
  {
    var next := Step(files, sys, t);
    hide ReadApplied, Committed, Counts;
    if t.who < |sys.runs| {
      assert RunOk(files, sys, t.who);
      CountsUpdate(sys.runs, t.who, next.runs[t.who]);
      assert sys.runs[t.who := sys.runs[t.who]] == sys.runs;
      forall m | 0 <= m < |next.runs| ensures RunOk(files, next, m) {
        assert RunOk(files, sys, m);
      }
    }
  }

  lemma CommitGrows(files: seq<string>, sys: System, t: Turn)
    requires FilesOk(files) && Commits(files, sys, t) && RunOk(files, sys, t.who)
    ensures var i := sys.runs[t.who].phase.i;
            && Applied(Step(files, sys, t)) == Applied(sys) + {files[i]}
            && Step(files, sys, t).log == sys.log + [Commit(t.who, i)]
            && |Step(files, sys, t).runs| == |sys.runs|
            && Step(files, sys, t).runs == sys.runs[t.who := Step(files, sys, t).runs[t.who]]
            && Step(files, sys, t).runs[t.who].count == sys.runs[t.who].count + 1
            && files[i] !in Applied(sys) && AllIn(files, i, Applied(sys))
  {
    var i := sys.runs[t.who].phase.i;
    assert files[i] in files;
    LedgerAfterCommit(sys.ledger, files[i]);
  }

  lemma CommittedGrows(files: seq<string>, log: seq<Commit>, c: Commit)
    requires c.file < |files|
    ensures Committed(files, log + [c]) == Committed(files, log) + {files[c.file]}
  {
    assert forall x :: x in log + [c] <==> x in log || x == c;
  }

  lemma OutsidePrefix(files: seq<string>, n: nat, s: set<string>, i: nat)
    requires AllIn(files, n, s) && i < |files| && files[i] !in s
    ensures n <= i
  {
  }

  lemma CommitKeepsLog(files: seq<string>, start: System, sys: System, t: Turn)
    requires FilesOk(files) && Inv(files, start, sys) && Commits(files, sys, t)
    ensures LogOk(files, start, Step(files, sys, t))
  {
    hide Applied, Committed, Counts, Step, RunOk;
    var next, i := Step(files, sys, t), sys.runs[t.who].phase.i;
    assert RunOk(files, sys, t.who);
    CommitGrows(files, sys, t);
    CommittedGrows(files, sys.log, Commit(t.who, i));
    CountsUpdate(sys.runs, t.who, next.runs[t.who]);
    forall c | c in sys.log ensures c.file < i {
      OutsidePrefix(files, c.file + 1, Applied(sys), i);
    }
    forall a | 0 <= a < |sys.log| ensures sys.log[a].file < i {
      assert sys.log[a] in sys.log;
    }
  }

  lemma CommitStep(files: seq<string>, start: System, sys: System, t: Turn)
    requires FilesOk(files) && Inv(files, start, sys) && Commits(files, sys, t)
    ensures Inv(files, start, Step(files, sys, t))
  {
    var next := Step(files, sys, t);
    assert RunOk(files, sys, t.who);
    CommitKeepsLog(files, start, sys, t);
    CommitGrows(files, sys, t);
    hide ReadApplied, LogOk;
    forall m | 0 <= m < |next.runs| ensures RunOk(files, next, m) {
      assert RunOk(files, sys, m);
    }
  }

  lemma {:induction false} ScheduleKeepsInv(files: seq<string>, start: System, schedule: seq<Turn>)
    requires FilesOk(files) && Starts(start)
    ensures Inv(files, start, RunAll(files, start, schedule))
  {
    if schedule == [] {
      CountsZero(start.runs);
      assert forall m :: 0 <= m < |start.runs| ==> start.runs[m] in start.runs;
    } else {
      hide Inv, Step;
      var front, t := schedule[..|schedule| - 1], schedule[|schedule| - 1];
      ScheduleKeepsInv(files, start, front);
      if Commits(files, RunAll(files, start, front), t) {
        CommitStep(files, start, RunAll(files, start, front), t);
      } else {
        QuietStep(files, start, RunAll(files, start, front), t);
      }
    }
  }

  // ----- What any schedule guarantees ------------------------------------------------------------

  /** The numbers of the files that were pending at the start. */
  ghost function Pending(files: seq<string>, start: System): set<nat> {
    set i: nat | i < |files| && files[i] !in Applied(start)
  }

  ghost function FileNumbers(log: seq<Commit>): set<nat> {
    set c | c in log :: c.file
  }

  /** Only pending migrations have committed, each at most once and in ascending file order, and the
      stored ledger is exactly what was applied at the start together with what has committed. */
  ghost predicate Orderly(files: seq<string>, start: System, now: System) {
    && (forall a, b :: 0 <= a < b < |now.log| ==> now.log[a].file < now.log[b].file)
    && FileNumbers(now.log) <= Pending(files, start)
    && Applied(now) == Applied(start) + Committed(files, now.log)
    && Counts(now.runs) == |now.log|
  }

  /** For any number of runs in any interleaving, with any failures, migration is orderly. */
  lemma MigrationsCommitOnceInOrder(files: seq<string>, start: System, schedule: seq<Turn>)
    requires FilesOk(files) && Starts(start)
    ensures Orderly(files, start, RunAll(files, start, schedule))
  {
    ScheduleKeepsInv(files, start, schedule);
  }

  lemma {:induction false} AscendingSize(log: seq<Commit>)
    requires forall a, b :: 0 <= a < b < |log| ==> log[a].file < log[b].file
    ensures |FileNumbers(log)| == |log|
  {
    if log == [] {
      assert FileNumbers(log) == {};
    } else {
      var front, c := log[..|log| - 1], log[|log| - 1];
      AscendingSize(front);
      assert log == front + [c];
      assert FileNumbers(log) == FileNumbers(front) + {c.file};
      assert c.file !in FileNumbers(front);
    }
  }

  /** When one run finishes, every file is applied, whichever process applied it. */
  lemma FinishedMeansMigrated(files: seq<string>, start: System, schedule: seq<Turn>, m: nat)
    requires FilesOk(files) && Starts(start)
    requires m < |RunAll(files, start, schedule).runs| && RunAll(files, start, schedule).runs[m].phase.Done?
    ensures var now := RunAll(files, start, schedule);
            (forall f :: f in files ==> f in Applied(now)) && FileNumbers(now.log) == Pending(files, start)
  {
    var now := RunAll(files, start, schedule);
    ScheduleKeepsInv(files, start, schedule);
    hide ReadApplied, RunAll, Counts;
    assert RunOk(files, now, m);
    forall i: nat | i in Pending(files, start) ensures i in FileNumbers(now.log) {
      assert files[i] in Committed(files, now.log);
      var c :| c in now.log && c.file < |files| && files[c.file] == files[i];
      assert c.file == i;
    }
  }

  /** If all runs finish, the counts they return add up to the number of migrations that were
      pending at the start. */
  lemma CountsAddUp(files: seq<string>, start: System, schedule: seq<Turn>)
    requires FilesOk(files) && Starts(start) && start.runs != []
    requires forall r :: r in RunAll(files, start, schedule).runs ==> r.phase.Done?
    ensures Counts(RunAll(files, start, schedule).runs) == |Pending(files, start)|
  {
    var now := RunAll(files, start, schedule);
    ScheduleKeepsInv(files, start, schedule);
    hide ReadApplied, RunAll, Counts, RunOk, Pending, FileNumbers;
    assert now.runs[0] in now.runs;
    FinishedMeansMigrated(files, start, schedule, 0);
    AscendingSize(now.log);
  }

  /** Two runs are never inside their locked section together. */
  lemma OneWriterAtATime(files: seq<string>, start: System, schedule: seq<Turn>, m: nat, n: nat)
    requires FilesOk(files) && Starts(start)
    requires m < |RunAll(files, start, schedule).runs| && n < |RunAll(files, start, schedule).runs|
    requires HoldsLock(RunAll(files, start, schedule).runs[m]) && HoldsLock(RunAll(files, start, schedule).runs[n])
    ensures m == n
  {
    ScheduleKeepsInv(files, start, schedule);
    hide RunAll, Counts, ReadApplied;
    assert RunOk(files, RunAll(files, start, schedule), m) && RunOk(files, RunAll(files, start, schedule), n);
  }

  /** A file name with a comma is never seen as applied: a committed migration of that name is
      pending again for every later run. */
  lemma CommaIsForgotten(ledger: Option<string>, f: string)
    requires !NoComma(f)
    ensures f !in Elements(ReadApplied(ledger))
  {
    if ledger.Some? {
      PiecesHaveNoComma(ledger.value);
    }
  }

  // ----- Exactly when migration is orderly --------------------------------------------------------

  /** One run alone, about to begin, with the first `i` files applied. */
  function Alone(files: seq<string>, i: nat): System
    requires i <= |files|
  {
    System(if i == 0 then None else Some(Join(files[..i])), None, [], [Run(Reading, [], 0)])
  }

  function Turns(n: nat): seq<Turn> {
    seq(n, _ => Turn(0, false))
  }

  lemma NextTurn(files: seq<string>, start: System, n: nat)
    ensures RunAll(files, start, Turns(n + 1)) == Step(files, RunAll(files, start, Turns(n)), Turn(0, false))
  {
    assert Turns(n + 1)[..n] == Turns(n);
  }

  lemma AloneApplied(files: seq<string>, i: nat)
    requires i <= |files| && forall k :: 0 <= k < i ==> NoComma(files[k])
    ensures ReadApplied(Alone(files, i).ledger) == files[..i]
  {
    if i > 0 {
      SplitJoin(files[..i]);
    }
  }

  /** The run skips what is applied. */
  lemma {:induction false} SkipsApplied(files: seq<string>, i: nat, k: nat)
    requires k <= i < |files| && forall j :: 0 <= j < i ==> NoComma(files[j])
    ensures RunAll(files, Alone(files, i), Turns(k + 1))
         == Alone(files, i).(runs := [Run(Looping(k), files[..i], 0)])
  {
    hide Split, Join;
    AloneApplied(files, i);
    NextTurn(files, Alone(files, i), k);
    if k == 0 {
      assert RunAll(files, Alone(files, i), Turns(0)) == Alone(files, i);
    } else {
      SkipsApplied(files, i, k - 1);
      assert files[k - 1] == files[..i][k - 1];
    }
  }

  lemma CommaCommits(files: seq<string>, i: nat)
    requires i < |files| && !NoComma(files[i]) && forall j :: 0 <= j < i ==> NoComma(files[j])
    ensures RunAll(files, Alone(files, i), Turns(i + 4)).log == [Commit(0, i)]
  {
    hide Split, Join, SortTexts, RunAll, NoComma, ReadApplied;
    var start := Alone(files, i);
    AloneApplied(files, i);
    SkipsApplied(files, i, i);
    CommaIsForgotten(start.ledger, files[i]);
    NextTurn(files, start, i + 1);
    NextTurn(files, start, i + 2);
    NextTurn(files, start, i + 3);
  }

  /** A run that comes to a name with a comma commits it, and the ledger does not tell. */
  lemma CommaIsDisorderly(files: seq<string>, i: nat)
    requires i < |files| && !NoComma(files[i]) && forall j :: 0 <= j < i ==> NoComma(files[j])
    ensures Starts(Alone(files, i)) && !Orderly(files, Alone(files, i), RunAll(files, Alone(files, i), Turns(i + 4)))
  {
    hide Split, Join, RunAll, NoComma, Pending, Counts;
    var start := Alone(files, i);
    var now := RunAll(files, start, Turns(i + 4));
    CommaCommits(files, i);
    assert Commit(0, i) in now.log;
    assert files[i] in Committed(files, now.log);
    CommaIsForgotten(now.ledger, files[i]);
  }

  lemma {:induction false} FirstComma(files: seq<string>, n: nat) returns (i: nat)
    requires n < |files| && !NoComma(files[n])
    ensures i <= n && !NoComma(files[i]) && forall j :: 0 <= j < i ==> NoComma(files[j])
  {
    if j: nat :| j < n && !NoComma(files[j]) {
      i := FirstComma(files, j);
    } else {
      i := n;
    }
  }

  /** Every schedule of every set of runs, from every ledger, is orderly exactly when no file has a
      comma in its name. */
  lemma OrderlyIffNoComma(files: seq<string>)
    requires forall i, j :: 0 <= i < j < |files| ==> files[i] != files[j]
    ensures (forall start, schedule :: Starts(start) ==> Orderly(files, start, RunAll(files, start, schedule)))
       <==> forall f :: f in files ==> NoComma(f)
  {
    hide Orderly, Starts, RunAll, NoComma;
    if forall f :: f in files ==> NoComma(f) {
      forall start, schedule | Starts(start)
        ensures Orderly(files, start, RunAll(files, start, schedule))
      {
        MigrationsCommitOnceInOrder(files, start, schedule);
      }
    } else {
      var f :| f in files && !NoComma(f);
      var n :| 0 <= n < |files| && files[n] == f;
      var i := FirstComma(files, n);
      CommaIsDisorderly(files, i);
    }
  }
}
