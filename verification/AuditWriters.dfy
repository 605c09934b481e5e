/** Any number of writers recording into one audit log. A schedule interleaves their database
    statements: reading the head and inserting under the UNIQUE index on `prev_hash`. */
module AuditWriters {
  import opened Json
  import opened JsonParser
  import opened AuditChain
  import opened Hashing
  import opened AuditHistory

  datatype Event = Event(attribution: Attribution, payload: Json)

  datatype Phase = Idle | Reading | Inserting(head: string)

  /** One call of `record`. `start` and `seen` are history: the number of rows when the call began
      and when it last read the head. */
  datatype Writer = Writer(phase: Phase, event: Event, attempt: nat, start: nat, seen: nat)

  /** `authors` names the writer of each row from number `base` on. */
  datatype System = System(base: nat, rows: seq<Row>, authors: seq<nat>, writers: seq<Writer>)

  /** A statement by one writer. Inserting can also fail for a reason other than the index. */
  datatype Statement = Call(event: Event) | ReadHead | Insert(broken: bool)
  datatype Turn = Turn(writer: nat, statement: Statement)

  function Pending(sha: string -> string, sys: System, w: Writer): Row
    requires w.phase.Inserting?
  {
    NewRow(sha, NextId(sys.rows), w.phase.head, w.event.attribution, w.event.payload)
  }

  /** Would this insertion trip the UNIQUE index? */
  predicate Loses(sha: string -> string, sys: System, w: Writer)
    requires w.phase.Inserting?
  {
    Conflicts(sys.rows, Pending(sha, sys, w))
  }

  /** The ninth conflict in a row is thrown to the caller. */
  predicate GivesUp(sha: string -> string, sys: System, w: Writer) {
    w.phase.Inserting? && Loses(sha, sys, w) && w.attempt >= 8
  }

  function StepWriter(sha: string -> string, sys: System, i: nat, s: Statement): System
    requires i < |sys.writers|
  {
    var w := sys.writers[i];
    if s.Call? && w.phase.Idle? then
      sys.(writers := sys.writers[i := Writer(Reading, s.event, 0, |sys.rows|, |sys.rows|)])
    else if s.ReadHead? && w.phase.Reading? then
      sys.(writers := sys.writers[i := w.(phase := Inserting(Head(sys.rows, "")), seen := |sys.rows|)])
    else if s.Insert? && w.phase.Inserting? then
      if s.broken || GivesUp(sha, sys, w) then sys.(writers := sys.writers[i := w.(phase := Idle)])
      else if Loses(sha, sys, w) then sys.(writers := sys.writers[i := w.(phase := Reading, attempt := w.attempt + 1)])
      else sys.(rows := sys.rows + [Pending(sha, sys, w)], authors := sys.authors + [i],
                writers := sys.writers[i := w.(phase := Idle)])
    else sys
  }

  /** A turn that its writer cannot take changes nothing. */
  function Step(sha: string -> string, sys: System, t: Turn): System {
    if t.writer < |sys.writers| then StepWriter(sha, sys, t.writer, t.statement) else sys
  }

  function Run(sha: string -> string, sys: System, schedule: seq<Turn>): System {
    if schedule == [] then sys
    else Step(sha, Run(sha, sys, schedule[..|schedule| - 1]), schedule[|schedule| - 1])
  }

  // ----- No interleaving forks the chain -------------------------------------------------------

  ghost predicate WriterOk(sys: System, i: nat)
    requires i < |sys.writers|
  {
    var w := sys.writers[i];
    && (!w.phase.Idle? ==> IsValue(w.event.payload) && sys.base <= w.start <= |sys.rows| && w.attempt <= 8)
    && (w.phase.Inserting? ==>
          w.seen <= |sys.rows| && w.start <= w.seen && w.phase.head == Head(sys.rows[..w.seen], ""))
  }

  ghost predicate Safe(sha: string -> string, sys: System) {
    && Verifies(sha, sys.rows)
    && sys.base + |sys.authors| == |sys.rows|
    && (forall k :: sys.base <= k < |sys.rows| ==> IsSigned(RowBody(sys.rows[k])))
    && (forall i :: 0 <= i < |sys.writers| ==> WriterOk(sys, i))
  }

  ghost predicate Starts(sys: System) {
    sys.base == |sys.rows| && sys.authors == [] && forall w :: w in sys.writers ==> w.phase.Idle?
  }

  /** Every payload is a JavaScript value, with distinct keys in each object. */
  ghost predicate Recordable(schedule: seq<Turn>) {
    forall t :: t in schedule && t.statement.Call? ==> IsValue(t.statement.event.payload)
  }

  lemma PrefixVerifies(sha: string -> string, rows: seq<Row>, k: nat)
    requires Verifies(sha, rows) && k <= |rows|
    ensures Verifies(sha, rows[..k])
  {
    hide Faults, RowFaults;
    FaultsSplit(sha, rows[..k], rows[k..], "");
    assert rows == rows[..k] + rows[k..];
  }

  lemma LinkAt(sha: string -> string, rows: seq<Row>, k: nat)
    requires Verifies(sha, rows) && k < |rows|
    ensures rows[k].prevHash == Head(rows[..k], "") && rows[k].entryHash == sha(Preimage(rows[k]))
  {
    hide Verifies;
    PrefixVerifies(sha, rows, k + 1);
    LastRow(sha, rows[..k + 1]);
    assert rows[..k + 1][..k] == rows[..k];
  }

  lemma SignedIsIndexed(body: Json)
    requires IsSigned(body)
    ensures IsIndexed(body)
  {
  }

  /** A writer whose head is out of date always trips the index. */
  lemma StaleLoses(sha: string -> string, sys: System, i: nat)
    requires Safe(sha, sys) && i < |sys.writers| && sys.writers[i].phase.Inserting?
    requires sys.writers[i].seen < |sys.rows|
    ensures Loses(sha, sys, sys.writers[i])
  {
    var w := sys.writers[i];
    assert WriterOk(sys, i);
    LinkAt(sha, sys.rows, w.seen);
    hide RowBody, IsSigned, IsIndexed;
    NewRowIsClean(sha, NextId(sys.rows), w.phase.head, w.event.attribution, w.event.payload);
    SignedIsIndexed(RowBody(sys.rows[w.seen]));
    SignedIsIndexed(RowBody(Pending(sha, sys, w)));
  }

  lemma WinnerIsUpToDate(sha: string -> string, sys: System, i: nat)
    requires Safe(sha, sys) && i < |sys.writers| && sys.writers[i].phase.Inserting?
    requires !Loses(sha, sys, sys.writers[i])
    ensures sys.writers[i].phase.head == Head(sys.rows, "") && IsValue(sys.writers[i].event.payload)
  {
    hide Verifies, Loses;
    assert WriterOk(sys, i);
    if sys.writers[i].seen < |sys.rows| {
      StaleLoses(sha, sys, i);
    }
    assert sys.rows[..|sys.rows|] == sys.rows;
  }

  /** An insertion that the index lets through extends the chain at its head. */
  lemma InsertExtends(sha: string -> string, sys: System, i: nat)
    requires Safe(sha, sys) && i < |sys.writers| && sys.writers[i].phase.Inserting?
    requires !Loses(sha, sys, sys.writers[i])
    ensures Verifies(sha, sys.rows + [Pending(sha, sys, sys.writers[i])])
    ensures IsSigned(RowBody(Pending(sha, sys, sys.writers[i])))
  {
    WinnerIsUpToDate(sha, sys, i);
    var w, rows := sys.writers[i], sys.rows;
    hide Verifies, RowBody, IsSigned, NewRow, WriterOk, Loses;
    NewRowIsClean(sha, NextId(rows), w.phase.head, w.event.attribution, w.event.payload);
    AppendVerifies(sha, rows, NextId(rows), w.event.attribution, w.event.payload);
  }

  lemma OthersStayOk(sys: System, next: System, i: nat)
    requires sys.rows <= next.rows && sys.base == next.base && |sys.writers| == |next.writers| && i < |sys.writers|
    requires sys.writers[i] == next.writers[i] && WriterOk(sys, i)
    ensures WriterOk(next, i)
  {
    var w := sys.writers[i];
    if w.phase.Inserting? {
      assert sys.rows[..w.seen] == next.rows[..w.seen];
    }
  }

  lemma RowsOnlyGrow(sha: string -> string, sys: System, t: Turn)
    ensures var next := Step(sha, sys, t);
            && sys.rows <= next.rows && sys.authors <= next.authors && sys.base == next.base
            && |sys.writers| == |next.writers|
            && forall i :: 0 <= i < |sys.writers| && i != t.writer ==> sys.writers[i] == next.writers[i]
  {
    hide Conflicts, NewRow, Head;
  }

  lemma StepRows(sha: string -> string, sys: System, t: Turn)
    requires Safe(sha, sys)
    ensures var next := Step(sha, sys, t);
            && Verifies(sha, next.rows) && next.base + |next.authors| == |next.rows|
            && (forall k :: next.base <= k < |next.rows| ==> IsSigned(RowBody(next.rows[k])))
  {
    hide Verifies, RowBody, IsSigned, WriterOk;
    var next := Step(sha, sys, t);
    if next.rows != sys.rows {
      InsertExtends(sha, sys, t.writer);
    }
  }

  lemma StepWriterOk(sha: string -> string, sys: System, t: Turn)
    requires Safe(sha, sys) && t.writer < |sys.writers| && (t.statement.Call? ==> IsValue(t.statement.event.payload))
    ensures WriterOk(Step(sha, sys, t), t.writer)
  {
    hide Verifies, Conflicts, RowBody, IsSigned;
    assert WriterOk(sys, t.writer);
    assert sys.rows[..|sys.rows|] == sys.rows;
  }

  lemma StepIsSafe(sha: string -> string, sys: System, t: Turn)
    requires Safe(sha, sys) && (t.statement.Call? ==> IsValue(t.statement.event.payload))
    ensures Safe(sha, Step(sha, sys, t))
  {
    hide RowFaults, Faults, Conflicts, NewRow, Head;
    var next := Step(sha, sys, t);
    StepRows(sha, sys, t);
    RowsOnlyGrow(sha, sys, t);
    if t.writer < |sys.writers| {
      StepWriterOk(sha, sys, t);
    }
    hide Verifies, WriterOk, Step, RowBody, IsSigned;
    forall i | 0 <= i < |next.writers| ensures WriterOk(next, i) {
      if i != t.writer {
        OthersStayOk(sys, next, i);
      }
    }
  }

  /** Whatever the interleaving, from any log that verifies: the log still verifies, so every row
      follows the one before it, nothing recorded is lost, and every new row is signed. */
  lemma {:induction false} NoScheduleForksTheChain(sha: string -> string, sys: System, schedule: seq<Turn>)
    requires Verifies(sha, sys.rows) && Starts(sys) && Recordable(schedule)
    ensures Safe(sha, Run(sha, sys, schedule)) && sys.rows <= Run(sha, sys, schedule).rows
    ensures Run(sha, sys, schedule).base == sys.base
  {
    hide Verifies, Step;
    if schedule == [] {
      assert forall i :: 0 <= i < |sys.writers| ==> sys.writers[i] in sys.writers;
    } else {
      var front, t := schedule[..|schedule| - 1], schedule[|schedule| - 1];
      assert schedule == front + [t];
      NoScheduleForksTheChain(sha, sys, front);
      StepIsSafe(sha, Run(sha, sys, front), t);
      RowsOnlyGrow(sha, Run(sha, sys, front), t);
    }
  }

  // ----- A writer gives up only under contention --------------------------------------------------

  /** Rows with one entry hash follow the same row. */
  lemma SameEntrySamePrev(sha: string -> string, rows: seq<Row>, i: nat, j: nat)
    requires MakesDigests(sha) && Verifies(sha, rows) && ObjectBodies(rows) && CollisionFree(sha, rows, Preimage)
    requires i < |rows| && j < |rows| && rows[i].entryHash == rows[j].entryHash
    ensures rows[i].prevHash == rows[j].prevHash
  {
    hide Verifies, IsDigest, RowBody;
    var r, s := rows[i], rows[j];
    LinkAt(sha, rows, i);
    LinkAt(sha, rows, j);
    PrefixVerifies(sha, rows, i);
    PrefixVerifies(sha, rows, j);
    HeadShape(sha, rows[..i]);
    HeadShape(sha, rows[..j]);
    assert r in rows && s in rows;
    ObjectRow(r);
    ObjectRow(s);
    SplitIsUnique(r.prevHash, r.payload, s.prevHash, s.payload);
  }

  lemma HeadIsThere(sha: string -> string, rows: seq<Row>, j: nat)
    requires MakesDigests(sha) && Verifies(sha, rows) && 0 < j <= |rows|
    ensures Head(rows[..j], "") != ""
  {
    hide Verifies;
    PrefixVerifies(sha, rows, j);
    HeadShape(sha, rows[..j]);
  }

  /** Two different places of a verified chain have different heads. */
  lemma {:induction false} HeadsDiffer(sha: string -> string, rows: seq<Row>, i: nat, j: nat)
    requires MakesDigests(sha) && Verifies(sha, rows) && ObjectBodies(rows) && CollisionFree(sha, rows, Preimage)
    requires i < j <= |rows|
    ensures Head(rows[..i], "") != Head(rows[..j], "")
  {
    hide Verifies, ObjectBodies, CollisionFree, MakesDigests;
    HeadIsThere(sha, rows, j);
    LinkAt(sha, rows, j - 1);
    if i > 0 && Head(rows[..i], "") == Head(rows[..j], "") {
      LinkAt(sha, rows, i - 1);
      SameEntrySamePrev(sha, rows, i - 1, j - 1);
      HeadsDiffer(sha, rows, i - 1, j - 1);
    }
  }

  lemma ObjectRow(r: Row)
    requires RowBody(r).Obj?
    ensures Parse(r.payload).Obj?
  {
    ParsePrint(Null);
  }

  /** The index refuses an insertion exactly when another row arrived since the head was read. */
  lemma LosesIffStale(sha: string -> string, sys: System, i: nat)
    requires Safe(sha, sys) && i < |sys.writers| && sys.writers[i].phase.Inserting?
    requires MakesDigests(sha) && ObjectBodies(sys.rows) && CollisionFree(sha, sys.rows, Preimage)
    ensures Loses(sha, sys, sys.writers[i]) <==> sys.writers[i].seen < |sys.rows|
  {
    var w := sys.writers[i];
    assert WriterOk(sys, i);
    if w.seen < |sys.rows| {
      StaleLoses(sha, sys, i);
    } else if Loses(sha, sys, w) {
      var k :| 0 <= k < |sys.rows| && sys.rows[k].prevHash == w.phase.head;
      LinkAt(sha, sys.rows, k);
      HeadsDiffer(sha, sys.rows, k, w.seen);
    }
  }

  /** Every failed attempt of a call in progress was paid for by a row of another writer. */
  ghost predicate Paid(sys: System, i: nat)
    requires i < |sys.writers| && sys.base + |sys.authors| == |sys.rows|
  {
    var w := sys.writers[i];
    !w.phase.Idle? ==>
      && sys.base <= w.start && w.start + w.attempt <= |sys.rows|
      && (w.phase.Inserting? ==> w.start + w.attempt <= w.seen)
      && (forall k :: w.start - sys.base <= k < |sys.authors| ==> sys.authors[k] != i)
  }

  ghost predicate AllPaid(sys: System)
    requires sys.base + |sys.authors| == |sys.rows|
  {
    forall i :: 0 <= i < |sys.writers| ==> Paid(sys, i)
  }

  ghost predicate Sound(sha: string -> string, sys: System) {
    Safe(sha, sys) && MakesDigests(sha) && ObjectBodies(sys.rows) && CollisionFree(sha, sys.rows, Preimage)
  }

  lemma StepOfOwner(sha: string -> string, sys: System, t: Turn, next: System)
    requires Sound(sha, sys) && t.writer < |sys.writers| && Paid(sys, t.writer)
    requires next == Step(sha, sys, t) && |next.writers| == |sys.writers| && next.base + |next.authors| == |next.rows|
    ensures Paid(next, t.writer)
  {
    hide Verifies, Loses, NewRow, RowBody, IsSigned, CollisionFree, ObjectBodies, MakesDigests, Head;
    assert WriterOk(sys, t.writer);
    if sys.writers[t.writer].phase.Inserting? {
      LosesIffStale(sha, sys, t.writer);
    }
  }

  lemma StepOfOther(sha: string -> string, sys: System, t: Turn, next: System, i: nat)
    requires sys.base + |sys.authors| == |sys.rows| && next.base + |next.authors| == |next.rows|
    requires i < |sys.writers| && i != t.writer && Paid(sys, i)
    requires next == Step(sha, sys, t) && |next.writers| == |sys.writers|
    ensures Paid(next, i)
  {
    hide Loses, NewRow, Head;
    RowsOnlyGrow(sha, sys, t);
  }

  lemma StepIsPaid(sha: string -> string, sys: System, t: Turn)
    requires Sound(sha, sys) && AllPaid(sys) && (t.statement.Call? ==> IsValue(t.statement.event.payload))
    ensures Safe(sha, Step(sha, sys, t)) && AllPaid(Step(sha, sys, t))
  {
    StepIsSafe(sha, sys, t);
    RowsOnlyGrow(sha, sys, t);
    hide Verifies, WriterOk, RowBody, CollisionFree, ObjectBodies, MakesDigests;
    var next := Step(sha, sys, t);
    hide Step, Paid;
    forall i | 0 <= i < |next.writers| ensures Paid(next, i) {
      if i == t.writer {
        StepOfOwner(sha, sys, t, next);
      } else {
        StepOfOther(sha, sys, t, next, i);
      }
    }
  }

  lemma {:induction false} SignedRowsAreObjects(sha: string -> string, sys: System, schedule: seq<Turn>)
    requires Verifies(sha, sys.rows) && Starts(sys) && Recordable(schedule) && ObjectBodies(sys.rows)
    ensures ObjectBodies(Run(sha, sys, schedule).rows)
  {
    NoScheduleForksTheChain(sha, sys, schedule);
    var rows := Run(sha, sys, schedule).rows;
    hide Verifies, RowBody, Run;
    forall r | r in rows ensures RowBody(r).Obj? {
      var k :| 0 <= k < |rows| && rows[k] == r;
      if k < sys.base {
        assert sys.rows[k] == r && r in sys.rows;
      }
    }
  }

  lemma PrefixCollisionFree(sha: string -> string, a: seq<Row>, b: seq<Row>)
    requires CollisionFree(sha, b, Preimage) && a <= b
    ensures CollisionFree(sha, a, Preimage)
  {
    assert forall r :: r in a ==> r in b;
  }

  lemma StartIsPaid(sys: System)
    requires Starts(sys)
    ensures AllPaid(sys)
  {
    assert forall i :: 0 <= i < |sys.writers| ==> sys.writers[i] in sys.writers;
  }

  lemma {:induction false} ScheduleIsPaid(sha: string -> string, sys: System, schedule: seq<Turn>, last: System)
    requires Verifies(sha, sys.rows) && Starts(sys) && Recordable(schedule) && ObjectBodies(sys.rows)
    requires MakesDigests(sha) && CollisionFree(sha, last.rows, Preimage) && Run(sha, sys, schedule).rows <= last.rows
    ensures Safe(sha, Run(sha, sys, schedule)) && AllPaid(Run(sha, sys, schedule))
  {
    hide Verifies, ObjectBodies, Step, MakesDigests, WriterOk, Paid, CollisionFree, RowBody, IsSigned, IsValue;
    NoScheduleForksTheChain(sha, sys, schedule);
    if schedule == [] {
      StartIsPaid(sys);
    } else {
      var front, t := schedule[..|schedule| - 1], schedule[|schedule| - 1];
      var mid := Run(sha, sys, front);
      assert schedule == front + [t];
      NoScheduleForksTheChain(sha, sys, front);
      SignedRowsAreObjects(sha, sys, front);
      RowsOnlyGrow(sha, mid, t);
      ScheduleIsPaid(sha, sys, front, last);
      PrefixCollisionFree(sha, mid.rows, last.rows);
      StepIsPaid(sha, mid, t);
    }
  }

  /** A call that gives up on the index has seen at least nine rows of other writers committed
      since it began, and none of its own. */
  lemma GivingUpMeansContention(sha: string -> string, sys: System, schedule: seq<Turn>, i: nat)
    requires Verifies(sha, sys.rows) && Starts(sys) && Recordable(schedule) && ObjectBodies(sys.rows)
    requires MakesDigests(sha) && CollisionFree(sha, Run(sha, sys, schedule).rows, Preimage)
    requires i < |Run(sha, sys, schedule).writers|
    requires GivesUp(sha, Run(sha, sys, schedule), Run(sha, sys, schedule).writers[i])
    ensures var (now, w) := (Run(sha, sys, schedule), Run(sha, sys, schedule).writers[i]);
            && now.base <= w.start && |now.rows| >= w.start + 9 && |now.authors| == |now.rows| - now.base
            && forall k :: w.start - now.base <= k < |now.authors| ==> now.authors[k] != i
  {
    hide Verifies, Loses, RowBody, CollisionFree, ObjectBodies, MakesDigests, Run;
    var now := Run(sha, sys, schedule);
    NoScheduleForksTheChain(sha, sys, schedule);
    ScheduleIsPaid(sha, sys, schedule, now);
    SignedRowsAreObjects(sha, sys, schedule);
    assert Paid(now, i);
    LosesIffStale(sha, now, i);
  }
}
