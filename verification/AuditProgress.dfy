/** What recording does, not only what it never does: every successful call adds its one row, and a
    call that adds none has failed for a reason. */
module AuditProgress {
  import opened AuditChain
  import opened AuditCheckpoints
  import opened AuditHistory
  import opened AuditWriters
  import opened Hashing
  import opened Json

  /** The system after the first `k` turns of a schedule. */
  function At(sha: string -> string, sys: System, schedule: seq<Turn>, k: nat): System
    requires k <= |schedule|
  {
    Run(sha, sys, schedule[..k])
  }

  /** What the theorems ask: a log that verifies, writers that begin with it, and no collision among
      the strings that are hashed. */
  ghost predicate Fair(sha: string -> string, sys: System, schedule: seq<Turn>) {
    && Verifies(sha, sys.rows) && Starts(sys) && Recordable(schedule) && ObjectBodies(sys.rows)
    && MakesDigests(sha) && CollisionFree(sha, Run(sha, sys, schedule).rows, Preimage)
  }

  lemma NextTurn(sha: string -> string, sys: System, schedule: seq<Turn>, k: nat)
    requires k < |schedule|
    ensures At(sha, sys, schedule, k + 1) == Step(sha, At(sha, sys, schedule, k), schedule[k])
  {
    hide Step;
    assert schedule[..k + 1][..k] == schedule[..k];
  }

  lemma {:induction false} RowsStay(sha: string -> string, sys: System, schedule: seq<Turn>, k: nat, n: nat)
    requires k <= n <= |schedule|
    ensures At(sha, sys, schedule, k).rows <= At(sha, sys, schedule, n).rows
    ensures |At(sha, sys, schedule, k).writers| == |At(sha, sys, schedule, n).writers|
  {
    hide At, Step;
    if k < n {
      RowsStay(sha, sys, schedule, k, n - 1);
      NextTurn(sha, sys, schedule, n - 1);
      RowsOnlyGrow(sha, At(sha, sys, schedule, n - 1), schedule[n - 1]);
    }
  }

  lemma WholeRun(sha: string -> string, sys: System, schedule: seq<Turn>)
    ensures At(sha, sys, schedule, |schedule|) == Run(sha, sys, schedule) && At(sha, sys, schedule, 0) == sys
  {
    assert schedule[..|schedule|] == schedule;
  }

  lemma SoundAt(sha: string -> string, sys: System, schedule: seq<Turn>, k: nat)
    requires Fair(sha, sys, schedule) && k <= |schedule|
    ensures Sound(sha, At(sha, sys, schedule, k)) && |At(sha, sys, schedule, k).writers| == |sys.writers|
  {
    hide Verifies, ObjectBodies, CollisionFree, MakesDigests, Run, Safe;
    var front := schedule[..k];
    assert forall t :: t in front ==> t in schedule;
    NoScheduleForksTheChain(sha, sys, front);
    SignedRowsAreObjects(sha, sys, front);
    WholeRun(sha, sys, schedule);
    RowsStay(sha, sys, schedule, 0, k);
    RowsStay(sha, sys, schedule, k, |schedule|);
    PrefixCollisionFree(sha, At(sha, sys, schedule, k).rows, Run(sha, sys, schedule).rows);
  }

  // ----- One insertion ------------------------------------------------------------------------

  /** The row says what the event says, and follows the log. */
  ghost predicate RowFor(sha: string -> string, r: Row, e: Event, rows: seq<Row>) {
    && r.attribution == e.attribution && r.payload == BodyText(e.attribution, e.payload)
    && r.prevHash == (if rows == [] then "" else rows[|rows| - 1].entryHash)
    && r.entryHash == sha(r.prevHash + r.payload)
    && r.id == if rows == [] then 1 else rows[|rows| - 1].id + 1
  }

  /** Writer `i` inserts, and nobody has committed since it read the head. */
  predicate Succeeds(sys: System, t: Turn) {
    t.writer < |sys.writers| && t.statement == Insert(false)
    && sys.writers[t.writer].phase.Inserting? && sys.writers[t.writer].seen == |sys.rows|
  }

  /** Writer `i` inserts, and somebody has. */
  predicate Collides(sys: System, t: Turn) {
    t.writer < |sys.writers| && t.statement == Insert(false)
    && sys.writers[t.writer].phase.Inserting? && sys.writers[t.writer].seen < |sys.rows|
  }

  /** A turn adds a row exactly when it is a successful insert, and then the row of that call. */
  lemma TurnRecords(sha: string -> string, sys: System, t: Turn)
    requires Sound(sha, sys)
    ensures var next := Step(sha, sys, t);
            if Succeeds(sys, t) then
              && |next.rows| == |sys.rows| + 1 && next.rows[..|sys.rows|] == sys.rows
              && RowFor(sha, next.rows[|sys.rows|], sys.writers[t.writer].event, sys.rows)
              && next.authors == sys.authors + [t.writer]
              && next.writers == sys.writers[t.writer := sys.writers[t.writer].(phase := Idle)]
            else next.rows == sys.rows && next.authors == sys.authors
  {
    hide Verifies, RowBody, IsSigned, CollisionFree, ObjectBodies, MakesDigests, Loses, BodyText;
    if t.writer < |sys.writers| && sys.writers[t.writer].phase.Inserting? {
      assert WriterOk(sys, t.writer);
      LosesIffStale(sha, sys, t.writer);
      assert sys.rows[..|sys.rows|] == sys.rows;
    }
  }

  /** What any other turn does to its own writer. */
  lemma TurnMoves(sha: string -> string, sys: System, t: Turn)
    requires Sound(sha, sys) && t.writer < |sys.writers| && !Succeeds(sys, t)
    ensures var w, v := sys.writers[t.writer], Step(sha, sys, t).writers[t.writer];
            && (w.phase.Idle? ==>
                  if t.statement.Call? then v.phase == Reading && v.event == t.statement.event && v.attempt == 0
                  else v == w)
            && (!w.phase.Idle? ==> v.event == w.event)
            && (w.phase.Reading? ==>
                  if t.statement.ReadHead? then
                    v == w.(phase := Inserting(Head(sys.rows, "")), seen := |sys.rows|)
                  else v == w)
            && (w.phase.Inserting? && t.statement == Insert(true) ==> v == w.(phase := Idle))
            && (Collides(sys, t) ==>
                  v == if w.attempt >= 8 then w.(phase := Idle) else w.(phase := Reading, attempt := w.attempt + 1))
            && (w.phase.Inserting? && !t.statement.Insert? ==> v == w)
  {
    hide Verifies, RowBody, IsSigned, CollisionFree, ObjectBodies, MakesDigests, Loses, NewRow;
    assert WriterOk(sys, t.writer);
    if sys.writers[t.writer].phase.Inserting? {
      LosesIffStale(sha, sys, t.writer);
    }
  }

  // ----- The rows are the successful calls ------------------------------------------------------

  function Successes(sha: string -> string, sys: System, schedule: seq<Turn>, n: nat): nat
    requires n <= |schedule|
  {
    if n == 0 then 0
    else Successes(sha, sys, schedule, n - 1) + if SucceedsAt(sha, sys, schedule, n - 1) then 1 else 0
  }

  predicate SucceedsAt(sha: string -> string, sys: System, schedule: seq<Turn>, k: nat)
    requires k < |schedule|
  {
    Succeeds(At(sha, sys, schedule, k), schedule[k])
  }

  /** Turn by turn, and so in all: the log grows by one row, that of the call, with every successful
      insert, and by nothing else. */
  lemma {:induction false} RowsAreSuccessfulCalls(sha: string -> string, sys: System, schedule: seq<Turn>, n: nat)
    requires Fair(sha, sys, schedule) && n <= |schedule|
    ensures |At(sha, sys, schedule, n).rows| == |sys.rows| + Successes(sha, sys, schedule, n)
    ensures forall k :: 0 <= k < n ==>
              var s, next := At(sha, sys, schedule, k), At(sha, sys, schedule, k + 1);
              if SucceedsAt(sha, sys, schedule, k) then
                && |next.rows| == |s.rows| + 1 && next.rows[..|s.rows|] == s.rows
                && schedule[k].writer < |s.writers|
                && RowFor(sha, next.rows[|s.rows|], s.writers[schedule[k].writer].event, s.rows)
                && next.authors == s.authors + [schedule[k].writer]
              else next.rows == s.rows && next.authors == s.authors
  {
    hide At, Fair, Sound, Step, RowFor;
    if n == 0 {
      WholeRun(sha, sys, schedule);
    } else {
      RowsAreSuccessfulCalls(sha, sys, schedule, n - 1);
      SoundAt(sha, sys, schedule, n - 1);
      NextTurn(sha, sys, schedule, n - 1);
      TurnRecords(sha, At(sha, sys, schedule, n - 1), schedule[n - 1]);
    }
  }

  // ----- How a call ends ---------------------------------------------------------------------------

  predicate CollidesAt(sha: string -> string, sys: System, schedule: seq<Turn>, k: nat, i: nat)
    requires k < |schedule|
  {
    schedule[k].writer == i && Collides(At(sha, sys, schedule, k), schedule[k])
  }

  /** How many inserts of writer `i` the index refused in the turns from `c` to `n`. */
  function Collisions(sha: string -> string, sys: System, schedule: seq<Turn>, c: nat, n: nat, i: nat): nat
    requires n <= |schedule|
    decreases n
  {
    if n <= c then 0
    else Collisions(sha, sys, schedule, c, n - 1, i) + if CollidesAt(sha, sys, schedule, n - 1, i) then 1 else 0
  }

  ghost predicate BusyAt(sha: string -> string, sys: System, schedule: seq<Turn>, k: nat, i: nat)
    requires k <= |schedule|
  {
    var s := At(sha, sys, schedule, k);
    i < |s.writers| && !s.writers[i].phase.Idle?
  }

  lemma TurnOfOther(sha: string -> string, sys: System, schedule: seq<Turn>, k: nat, i: nat)
    requires k < |schedule| && schedule[k].writer != i
    ensures var s, next := At(sha, sys, schedule, k), At(sha, sys, schedule, k + 1);
            |next.writers| == |s.writers| && (i < |s.writers| ==> next.writers[i] == s.writers[i])
  {
    hide At, Step;
    NextTurn(sha, sys, schedule, k);
    RowsOnlyGrow(sha, At(sha, sys, schedule, k), schedule[k]);
  }

  /** A turn of writer `i` itself. */
  lemma OwnTurn(sha: string -> string, sys: System, schedule: seq<Turn>, k: nat, i: nat)
    requires Fair(sha, sys, schedule) && k < |schedule| && schedule[k].writer == i && i < |sys.writers|
    ensures var s, next, t := At(sha, sys, schedule, k), At(sha, sys, schedule, k + 1), schedule[k];
            && |s.writers| == |next.writers| == |sys.writers|
            && (s.writers[i].phase.Idle? && !next.writers[i].phase.Idle? ==>
                  t.statement == Call(next.writers[i].event) && next.writers[i].attempt == 0)
            && (!s.writers[i].phase.Idle? && !next.writers[i].phase.Idle? ==>
                  && next.writers[i].event == s.writers[i].event
                  && next.writers[i].attempt ==
                        s.writers[i].attempt + if CollidesAt(sha, sys, schedule, k, i) then 1 else 0)
            && (!s.writers[i].phase.Idle? && next.writers[i].phase.Idle? ==>
                  || SucceedsAt(sha, sys, schedule, k)
                  || t.statement == Insert(true)
                  || (CollidesAt(sha, sys, schedule, k, i) && s.writers[i].attempt >= 8))
            && (s.writers[i].phase.Inserting? && t.statement.Insert?
                && (t.statement.broken || SucceedsAt(sha, sys, schedule, k)) ==>
                  next.writers[i].phase.Idle?)
            && (!s.writers[i].phase.Idle? ==> s.writers[i].attempt <= 8)
  {
    var s, t := At(sha, sys, schedule, k), schedule[k];
    SoundAt(sha, sys, schedule, k);
    assert WriterOk(s, i);
    hide At, Fair, Sound, Step, WriterOk;
    NextTurn(sha, sys, schedule, k);
    RowsOnlyGrow(sha, s, t);
    TurnRecords(sha, s, t);
    SeenIsThere(sha, s, i);
    if !Succeeds(s, t) {
      TurnMoves(sha, s, t);
    }
  }

  lemma SeenIsThere(sha: string -> string, s: System, i: nat)
    requires Sound(sha, s) && i < |s.writers|
    ensures s.writers[i].phase.Inserting? ==> s.writers[i].seen <= |s.rows|
  {
    assert WriterOk(s, i);
  }

  lemma NobodyBusyAtFirst(sha: string -> string, sys: System, schedule: seq<Turn>, i: nat)
    requires Fair(sha, sys, schedule)
    ensures !BusyAt(sha, sys, schedule, 0, i)
  {
    WholeRun(sha, sys, schedule);
    if i < |sys.writers| {
      assert sys.writers[i] in sys.writers;
    }
  }

  /** What one turn means for a call that is in progress after it. */
  lemma BusyStep(sha: string -> string, sys: System, schedule: seq<Turn>, k: nat, i: nat)
    requires Fair(sha, sys, schedule) && k < |schedule| && BusyAt(sha, sys, schedule, k + 1, i)
    ensures var s, next := At(sha, sys, schedule, k), At(sha, sys, schedule, k + 1);
            && i < |s.writers| && next.writers[i].attempt <= 8
            && if BusyAt(sha, sys, schedule, k, i) then
                 && next.writers[i].event == s.writers[i].event
                 && next.writers[i].attempt ==
                       s.writers[i].attempt + if CollidesAt(sha, sys, schedule, k, i) then 1 else 0
               else
                 && schedule[k] == Turn(i, Call(next.writers[i].event)) && next.writers[i].attempt == 0
                 && !CollidesAt(sha, sys, schedule, k, i)
  {
    hide At, Fair, CollidesAt, SucceedsAt, Sound;
    WritersStay(sha, sys, schedule, k + 1, i);
    SoundAt(sha, sys, schedule, k);
    SoundAt(sha, sys, schedule, k + 1);
    AttemptBound(sha, At(sha, sys, schedule, k + 1), i);
    if schedule[k].writer == i {
      OwnTurn(sha, sys, schedule, k, i);
      if !BusyAt(sha, sys, schedule, k, i) {
        CallIsNoCollision(sha, sys, schedule, k, i);
      }
    } else {
      TurnOfOther(sha, sys, schedule, k, i);
      NotOwn(sha, sys, schedule, k, i);
    }
  }

  /** A call in progress began with a Call of its event, and its attempt number counts the inserts
      that the index has refused since. */
  lemma {:induction false} CallInProgress(sha: string -> string, sys: System, schedule: seq<Turn>, n: nat, i: nat)
    returns (c: nat)
    requires Fair(sha, sys, schedule) && n <= |schedule| && BusyAt(sha, sys, schedule, n, i)
    ensures c < n
    ensures schedule[c] == Turn(i, Call(At(sha, sys, schedule, n).writers[i].event))
    ensures !BusyAt(sha, sys, schedule, c, i)
    ensures forall j :: c < j <= n ==> BusyAt(sha, sys, schedule, j, i)
    ensures At(sha, sys, schedule, n).writers[i].attempt == Collisions(sha, sys, schedule, c, n, i) <= 8
  {
    hide At, Fair, CollidesAt;
    NobodyBusyAtFirst(sha, sys, schedule, i);
    BusyStep(sha, sys, schedule, n - 1, i);
    if BusyAt(sha, sys, schedule, n - 1, i) {
      c := CallInProgress(sha, sys, schedule, n - 1, i);
    } else {
      c := n - 1;
    }
  }

  lemma AttemptBound(sha: string -> string, s: System, i: nat)
    requires Sound(sha, s) && i < |s.writers| && !s.writers[i].phase.Idle?
    ensures s.writers[i].attempt <= 8
  {
    assert WriterOk(s, i);
  }

  lemma NotOwn(sha: string -> string, sys: System, schedule: seq<Turn>, k: nat, i: nat)
    requires k < |schedule| && schedule[k].writer != i
    ensures !CollidesAt(sha, sys, schedule, k, i)
  {
  }

  lemma CallIsNoCollision(sha: string -> string, sys: System, schedule: seq<Turn>, k: nat, i: nat)
    requires k < |schedule| && schedule[k].statement.Call?
    ensures !CollidesAt(sha, sys, schedule, k, i)
  {
  }

  /** A call is over when its insert succeeds, is broken, or is refused for the ninth time, and in no
      other way. */
  lemma CallEnds(sha: string -> string, sys: System, schedule: seq<Turn>, k: nat, i: nat) returns (c: nat)
    requires Fair(sha, sys, schedule) && k < |schedule|
    requires BusyAt(sha, sys, schedule, k, i) && !BusyAt(sha, sys, schedule, k + 1, i)
    ensures c < k && schedule[k].writer == i
    ensures schedule[c] == Turn(i, Call(At(sha, sys, schedule, k).writers[i].event))
    ensures forall j :: c < j <= k ==> BusyAt(sha, sys, schedule, j, i)
    ensures || SucceedsAt(sha, sys, schedule, k)
            || schedule[k].statement == Insert(true)
            || (CollidesAt(sha, sys, schedule, k, i) && Collisions(sha, sys, schedule, c, k + 1, i) == 9)
  {
    hide At, Fair, CollidesAt, SucceedsAt;
    c := CallInProgress(sha, sys, schedule, k, i);
    if schedule[k].writer != i {
      TurnOfOther(sha, sys, schedule, k, i);
    } else {
      WritersStay(sha, sys, schedule, k, i);
      OwnTurn(sha, sys, schedule, k, i);
    }
  }

  lemma WritersStay(sha: string -> string, sys: System, schedule: seq<Turn>, k: nat, i: nat)
    requires k <= |schedule| && i < |At(sha, sys, schedule, k).writers|
    ensures i < |sys.writers|
  {
    hide At;
    RowsStay(sha, sys, schedule, 0, k);
    WholeRun(sha, sys, schedule);
  }

  // ----- Left alone, a call succeeds --------------------------------------------------------------------

  /** Between two turns, writer `i` does nothing. */
  lemma {:induction false} Undisturbed(sha: string -> string, sys: System, schedule: seq<Turn>, k: nat, m: nat, i: nat)
    requires k <= m <= |schedule| && i < |At(sha, sys, schedule, k).writers|
    requires forall j :: k <= j < m ==> schedule[j].writer != i
    ensures |At(sha, sys, schedule, m).writers| == |At(sha, sys, schedule, k).writers|
    ensures At(sha, sys, schedule, m).writers[i] == At(sha, sys, schedule, k).writers[i]
  {
    hide At;
    if k < m {
      Undisturbed(sha, sys, schedule, k, m - 1, i);
      TurnOfOther(sha, sys, schedule, m - 1, i);
    }
  }

  /** A writer that reads the head and then inserts records, if nobody else has recorded in between. */
  lemma UninterruptedRecords(sha: string -> string, sys: System, schedule: seq<Turn>, k: nat, m: nat, i: nat)
    requires Fair(sha, sys, schedule) && k < m < |schedule| && i < |sys.writers|
    requires At(sha, sys, schedule, k).writers != [] && i < |At(sha, sys, schedule, k).writers|
    requires At(sha, sys, schedule, k).writers[i].phase.Reading?
    requires schedule[k] == Turn(i, ReadHead) && schedule[m] == Turn(i, Insert(false))
    requires forall j :: k < j < m ==> schedule[j].writer != i
    requires |At(sha, sys, schedule, m).rows| == |At(sha, sys, schedule, k).rows|
    ensures SucceedsAt(sha, sys, schedule, m)
    ensures var s, next := At(sha, sys, schedule, m), At(sha, sys, schedule, m + 1);
            && |next.rows| == |s.rows| + 1 && next.rows[..|s.rows|] == s.rows
            && RowFor(sha, next.rows[|s.rows|], At(sha, sys, schedule, k).writers[i].event, s.rows)
  {
    hide At, Fair, RowFor, Sound;
    var s := At(sha, sys, schedule, k);
    SoundAt(sha, sys, schedule, k);
    NextTurn(sha, sys, schedule, k);
    TurnMoves(sha, s, schedule[k]);
    RowsOnlyGrow(sha, s, schedule[k]);
    TurnRecords(sha, s, schedule[k]);
    Undisturbed(sha, sys, schedule, k + 1, m, i);
    SoundAt(sha, sys, schedule, m);
    NextTurn(sha, sys, schedule, m);
    TurnRecords(sha, At(sha, sys, schedule, m), schedule[m]);
  }

  /** A call that nobody interrupts at all records its event. */
  lemma AloneRecords(sha: string -> string, sys: System, i: nat, e: Event)
    requires Fair(sha, sys, [Turn(i, Call(e)), Turn(i, ReadHead), Turn(i, Insert(false))]) && i < |sys.writers|
    ensures var now := Run(sha, sys, [Turn(i, Call(e)), Turn(i, ReadHead), Turn(i, Insert(false))]);
            && |now.rows| == |sys.rows| + 1 && now.rows[..|sys.rows|] == sys.rows
            && RowFor(sha, now.rows[|sys.rows|], e, sys.rows)
  {
    hide At, Fair, RowFor, Sound, Run, SucceedsAt;
    var schedule := [Turn(i, Call(e)), Turn(i, ReadHead), Turn(i, Insert(false))];
    WholeRun(sha, sys, schedule);
    CallBegins(sha, sys, schedule, i, e);
    HeadReadChangesNothing(sha, sys, schedule, 1);
    UninterruptedRecords(sha, sys, schedule, 1, 2, i);
  }

  lemma CallBegins(sha: string -> string, sys: System, schedule: seq<Turn>, i: nat, e: Event)
    requires Fair(sha, sys, schedule) && schedule != [] && schedule[0] == Turn(i, Call(e)) && i < |sys.writers|
    ensures var s := At(sha, sys, schedule, 1);
            s.rows == sys.rows && i < |s.writers| && s.writers[i].phase == Reading && s.writers[i].event == e
  {
    assert sys.writers[i] in sys.writers;
    hide At, Fair, Sound, Step;
    WholeRun(sha, sys, schedule);
    SoundAt(sha, sys, schedule, 0);
    NextTurn(sha, sys, schedule, 0);
    TurnMoves(sha, sys, schedule[0]);
    TurnRecords(sha, sys, schedule[0]);
    RowsOnlyGrow(sha, sys, schedule[0]);
  }

  lemma HeadReadChangesNothing(sha: string -> string, sys: System, schedule: seq<Turn>, k: nat)
    requires Fair(sha, sys, schedule) && k < |schedule| && schedule[k].statement.ReadHead?
    ensures At(sha, sys, schedule, k + 1).rows == At(sha, sys, schedule, k).rows
  {
    hide At, Fair, Sound, Step;
    SoundAt(sha, sys, schedule, k);
    NextTurn(sha, sys, schedule, k);
    TurnRecords(sha, At(sha, sys, schedule, k), schedule[k]);
  }

  // ----- Ids --------------------------------------------------------------------------------------------

  /** Recording keeps the ids in order, in any schedule. */
  lemma {:induction false} ScheduleKeepsIds(sha: string -> string, sys: System, schedule: seq<Turn>)
    requires GoodIds(sys.rows)
    ensures GoodIds(Run(sha, sys, schedule).rows)
  {
    if schedule != [] {
      hide GoodIds, Conflicts;
      var front := schedule[..|schedule| - 1];
      ScheduleKeepsIds(sha, sys, front);
      var s, t := Run(sha, sys, front), schedule[|schedule| - 1];
      var next := Step(sha, s, t);
      if next.rows != s.rows {
        var r := Pending(sha, s, s.writers[t.writer]);
        AppendKeepsIds(s.rows, r);
      }
    }
  }

  // ----- The index ----------------------------------------------------------------------------------------

  /** An insert conflicts exactly when some indexed row has its previous hash. Indexed is a body whose
      version is an integer from 2 on or any text or list; a version of 1, or none, is not indexed. */
  lemma IndexMeans(rows: seq<Row>, r: Row, body: Json, n: int)
    ensures Conflicts(rows, r) <==>
              IsIndexed(RowBody(r))
              && exists k :: 0 <= k < |rows| && IsIndexed(RowBody(rows[k])) && rows[k].prevHash == r.prevHash
    ensures Member(body, "v") == Num(n) ==> (IsIndexed(body) <==> n >= 2)
    ensures Member(body, "v").Str? || Member(body, "v").Arr? ==> IsIndexed(body)
    ensures Member(body, "v").Undefined? || Member(body, "v").Null? || Member(body, "v").Bool? ==> !IsIndexed(body)
  {
    hide RowBody, Member;
  }
}
