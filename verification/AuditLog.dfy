/** The audit service over its table: the recording loop with other writers coming in between, and
    the verifier loop with its counters. */
module AuditLog {
  import opened Json
  import opened JsonParser
  import opened AuditChain
  import opened Hashing
  import opened AuditHistory
  import opened AuditCheckpoints
  import opened Collections
  import W = AuditWriters

  datatype Outcome = Recorded(id: nat, entryHash: string) | Conflict | Refused

  // ----- What verify reports ---------------------------------------------------------------

  function Since(rows: seq<Row>, fromId: nat): seq<Row> {
    if rows == [] then []
    else Since(rows[..|rows| - 1], fromId) + if rows[|rows| - 1].id > fromId then [rows[|rows| - 1]] else []
  }

  function StartHash(rows: seq<Row>, fromId: nat): string {
    if fromId == 0 || HashOf(rows, fromId).None? then "" else HashOf(rows, fromId).value
  }

  function ReportOn(sha: string -> string, rows: seq<Row>, start: string): Report {
    var faults := Faults(sha, rows, start);
    Report(faults == [], |rows|, Unsigned(Bodies(rows)), if |faults| <= 50 then faults else faults[..50], |faults|,
           Head(rows, start))
  }

  lemma ReportMeans(sha: string -> string, rows: seq<Row>, start: string)
    ensures ReportOn(sha, rows, start).ok <==> Faults(sha, rows, start) == []
    ensures ReportOn(sha, rows, start).head == Head(rows, start)
  {
  }

  lemma {:induction false} SinceIsSuffix(rows: seq<Row>, k: nat)
    requires AscendingIds(rows) && k < |rows|
    ensures Since(rows, rows[k].id) == rows[k + 1..]
  {
    var front := rows[..|rows| - 1];
    if k < |front| {
      SinceIsSuffix(front, k);
    } else {
      SinceNothing(front, rows[k].id);
    }
  }

  lemma {:induction false} SinceNothing(rows: seq<Row>, fromId: nat)
    requires forall r :: r in rows ==> r.id <= fromId
    ensures Since(rows, fromId) == []
  {
    if rows != [] {
      assert rows[|rows| - 1] in rows;
      SinceNothing(rows[..|rows| - 1], fromId);
    }
  }

  lemma RangeFaults(sha: string -> string, rows: seq<Row>, k: nat)
    requires k < |rows|
    ensures Faults(sha, rows, "") == Faults(sha, rows[..k + 1], "") + Faults(sha, rows[k + 1..], rows[k].entryHash)
  {
    hide Faults, RowFaults;
    assert rows == rows[..k + 1] + rows[k + 1..];
    FaultsSplit(sha, rows[..k + 1], rows[k + 1..], "");
  }

  lemma RangeIs(rows: seq<Row>, k: nat)
    requires AscendingIds(rows) && k < |rows| && rows[k].id > 0
    ensures Since(rows, rows[k].id) == rows[k + 1..] && StartHash(rows, rows[k].id) == rows[k].entryHash
    ensures Head(rows[k + 1..], rows[k].entryHash) == Head(rows, "")
  {
    hide Since, HashOf, AscendingIds;
    SinceIsSuffix(rows, k);
    HashAtIndex(rows, k);
  }

  /** Checking from a row on is worth as much as checking everything, once the rows up to it have
      been checked: the whole log verifies exactly when both parts do. */
  lemma RangeVerification(sha: string -> string, rows: seq<Row>, k: nat)
    requires AscendingIds(rows) && k < |rows| && rows[k].id > 0
    ensures var part := ReportOn(sha, Since(rows, rows[k].id), StartHash(rows, rows[k].id));
            && (ReportOn(sha, rows, "").ok <==> ReportOn(sha, rows[..k + 1], "").ok && part.ok)
            && part.head == ReportOn(sha, rows, "").head
  {
    hide Faults, Since, StartHash, ReportOn, Head, AscendingIds;
    ReportMeans(sha, rows, "");
    ReportMeans(sha, rows[..k + 1], "");
    ReportMeans(sha, rows[k + 1..], rows[k].entryHash);
    RangeIs(rows, k);
    RangeFaults(sha, rows, k);
  }

  // ----- Recording among other writers -----------------------------------------------------

  function Extend(sha: string -> string, rows: seq<Row>, batch: seq<W.Event>): seq<Row> {
    if batch == [] then rows
    else
      var sofar := Extend(sha, rows, batch[..|batch| - 1]);
      var e := batch[|batch| - 1];
      sofar + [NewRow(sha, NextId(sofar), Head(sofar, ""), e.attribution, e.payload)]
  }

  /** What other writers committed in the first `n` windows between a head read and an insert. */
  function ExtendAll(sha: string -> string, rows: seq<Row>, rivals: seq<seq<W.Event>>, n: nat): seq<Row>
    requires n <= |rivals|
  {
    if n == 0 then rows else Extend(sha, ExtendAll(sha, rows, rivals, n - 1), rivals[n - 1])
  }

  /** The first window in which nobody else committed; |rivals| if there is none. */
  function FirstQuiet(rivals: seq<seq<W.Event>>, k: nat): (q: nat)
    requires k <= |rivals|
    ensures k <= q <= |rivals| && (q < |rivals| ==> rivals[q] == []) && forall i :: k <= i < q ==> rivals[i] != []
    decreases |rivals| - k
  {
    if k == |rivals| || rivals[k] == [] then k else FirstQuiet(rivals, k + 1)
  }

  ghost predicate Values(batch: seq<W.Event>) {
    forall e :: e in batch ==> IsValue(e.payload)
  }

  ghost predicate GoodLog(sha: string -> string, rows: seq<Row>) {
    Verifies(sha, rows) && ObjectBodies(rows)
  }

  lemma {:induction false} ExtendIsGood(sha: string -> string, rows: seq<Row>, batch: seq<W.Event>)
    requires GoodLog(sha, rows) && Values(batch)
    ensures GoodLog(sha, Extend(sha, rows, batch)) && rows <= Extend(sha, rows, batch)
    ensures |Extend(sha, rows, batch)| == |rows| + |batch|
    ensures forall k :: |rows| <= k < |Extend(sha, rows, batch)| ==> IsSigned(RowBody(Extend(sha, rows, batch)[k]))
  {
    hide GoodLog, RowBody, IsSigned, NewRow;
    if batch != [] {
      var front, e := batch[..|batch| - 1], batch[|batch| - 1];
      assert e in batch && forall x :: x in front ==> x in batch;
      ExtendIsGood(sha, rows, front);
      RecordIsGood(sha, Extend(sha, rows, front), e);
    }
  }

  lemma {:induction false} ExtendKeepsIds(sha: string -> string, rows: seq<Row>, batch: seq<W.Event>)
    requires GoodIds(rows)
    ensures GoodIds(Extend(sha, rows, batch))
  {
    hide GoodIds;
    if batch != [] {
      var sofar, e := Extend(sha, rows, batch[..|batch| - 1]), batch[|batch| - 1];
      ExtendKeepsIds(sha, rows, batch[..|batch| - 1]);
      AppendKeepsIds(sofar, NewRow(sha, NextId(sofar), Head(sofar, ""), e.attribution, e.payload));
    }
  }

  lemma SignedIsObject(body: Json)
    requires IsSigned(body)
    ensures body.Obj?
  {
  }

  lemma RecordIsGood(sha: string -> string, rows: seq<Row>, e: W.Event)
    requires GoodLog(sha, rows) && IsValue(e.payload)
    ensures var row := NewRow(sha, NextId(rows), Head(rows, ""), e.attribution, e.payload);
            GoodLog(sha, rows + [row]) && IsSigned(RowBody(row))
  {
    hide Verifies, RowBody, IsSigned, NewRow;
    var row := NewRow(sha, NextId(rows), Head(rows, ""), e.attribution, e.payload);
    NewRowIsClean(sha, NextId(rows), Head(rows, ""), e.attribution, e.payload);
    AppendVerifies(sha, rows, NextId(rows), e.attribution, e.payload);
    SignedIsObject(RowBody(row));
  }

  /** After others added `batch`, the index refuses a row for the old head exactly when the batch
      is not empty. */
  lemma ConflictIffRivals(sha: string -> string, rows: seq<Row>, batch: seq<W.Event>, e: W.Event)
    requires GoodLog(sha, rows) && Values(batch) && IsValue(e.payload)
    requires MakesDigests(sha) && CollisionFree(sha, Extend(sha, rows, batch), Preimage)
    ensures var now := Extend(sha, rows, batch);
            Conflicts(now, NewRow(sha, NextId(now), Head(rows, ""), e.attribution, e.payload)) <==> batch != []
  {
    hide Verifies, RowBody, IsSigned, MakesDigests, CollisionFree, RowFaults, Faults, NewRow, Conflicts;
    var now := Extend(sha, rows, batch);
    ExtendIsGood(sha, rows, batch);
    var w := W.Writer(W.Inserting(Head(rows, "")), e, 0, |rows|, |rows|);
    var sys := W.System(|rows|, now, seq(|batch|, _ => 0), [w]);
    assert now[..|rows|] == rows;
    assert W.WriterOk(sys, 0);
    assert W.Safe(sha, sys);
    W.LosesIffStale(sha, sys, 0);
  }

  class AuditLog {
    const sha: string -> string
    const hmac: Sign
    const checkpointKey: string
    var rows: seq<Row>
    var checkpoints: seq<Checkpoint>

    constructor (sha: string -> string, hmac: Sign, checkpointKey: string, rows: seq<Row>)
      ensures this.sha == sha && this.hmac == hmac && this.checkpointKey == checkpointKey
      ensures this.rows == rows && checkpoints == []
    {
      this.sha, this.hmac, this.checkpointKey, this.rows, this.checkpoints := sha, hmac, checkpointKey, rows, [];
    }

    /** Other writers commit a batch of records. */
    method Interfere(batch: seq<W.Event>)
      modifies this`rows
      ensures rows == Extend(sha, old(rows), batch)
    {
      for i := 0 to |batch|
        invariant rows == Extend(sha, old(rows), batch[..i])
      {
        var e := batch[i];
        rows := rows + [NewRow(sha, NextId(rows), Head(rows, ""), e.attribution, e.payload)];
        assert batch[..i + 1][..i] == batch[..i];
      }
      assert batch[..|batch|] == batch;
    }

    /** Inserting under the partial UNIQUE index. */
    method Insert(row: Row) returns (ok: bool)
      modifies this`rows
      ensures ok == !Conflicts(old(rows), row)
      ensures rows == if ok then old(rows) + [row] else old(rows)
    {
      ok := !Conflicts(rows, row);
      if ok {
        rows := rows + [row];
      }
    }

    /** `record`, where `rivals[k]` is what others commit between the head read and the insert of
        attempt k. The record goes in at the first quiet window, right after the head of that
        moment; it is given up exactly when none of the first nine windows is quiet. */
    method Record(e: W.Event, rivals: seq<seq<W.Event>>) returns (r: Outcome)
      requires |rivals| >= 9
      requires GoodLog(sha, rows) && IsValue(e.payload) && forall b :: b in rivals ==> Values(b)
      requires MakesDigests(sha)
      requires forall n :: 0 <= n <= |rivals| ==> CollisionFree(sha, ExtendAll(sha, rows, rivals, n), Preimage)
      modifies this`rows
      ensures e.attribution.action in {NoText, Text("")} || e.attribution.targetType in {NoText, Text("")}
              ==> r == Refused && rows == old(rows)
      ensures e.attribution.action !in {NoText, Text("")} && e.attribution.targetType !in {NoText, Text("")} ==>
                var q := FirstQuiet(rivals, 0);
                if q <= 8 then
                  var before := ExtendAll(sha, old(rows), rivals, q);
                  var row := NewRow(sha, NextId(before), Head(before, ""), e.attribution, e.payload);
                  r == Recorded(row.id, row.entryHash) && rows == before + [row]
                else
                  r == Conflict && rows == ExtendAll(sha, old(rows), rivals, 9)
      ensures GoodLog(sha, rows) && (GoodIds(old(rows)) ==> GoodIds(rows))
    {
      hide GoodIds;
      hide CollisionFree, MakesDigests, Extend, Conflicts, BodyText, GoodLog, RowBody, IsSigned, Values, IsValue;
      if e.attribution.action in {NoText, Text("")} || e.attribution.targetType in {NoText, Text("")} {
        return Refused;
      }
      var attempt := 0;
      while true
        invariant 0 <= attempt <= 8
        invariant FirstQuiet(rivals, 0) == FirstQuiet(rivals, attempt)
        invariant rows == ExtendAll(sha, old(rows), rivals, attempt)
        invariant GoodLog(sha, rows) && (GoodIds(old(rows)) ==> GoodIds(rows))
        decreases 9 - attempt
      {
        ghost var before := rows;
        var prev := Head(rows, "");
        var body := BodyText(e.attribution, e.payload);
        var entryHash := sha(prev + body);
        assert rivals[attempt] in rivals;
        Interfere(rivals[attempt]);
        ExtendIsGood(sha, before, rivals[attempt]);
        if GoodIds(before) {
          ExtendKeepsIds(sha, before, rivals[attempt]);
        }
        assert rows == ExtendAll(sha, old(rows), rivals, attempt + 1);
        ConflictIffRivals(sha, before, rivals[attempt], e);
        var row := Row(NextId(rows), e.attribution, prev, entryHash, body);
        var ok := Insert(row);
        if ok {
          RecordIsGood(sha, before, e);
          if GoodIds(before) {
            AppendKeepsIds(before, row);
          }
          return Recorded(row.id, row.entryHash);
        }
        if attempt >= 8 {
          return Conflict;
        }
        attempt := attempt + 1;
      }
    }

    /** One turn of the verifier loop: the faults pushed for a row. */
    method CheckRow(r: Row, prev: string) returns (found: seq<Fault>)
      ensures found == RowFaults(sha, r, prev)
    {
      hide Parse, Canon, IsSigned, ColumnAgrees, RowBody;
      found := [];
      if r.prevHash != prev {
        found := found + [Fault(r.id, PrevMismatch)];
      }
      if r.entryHash != sha(r.prevHash + r.payload) {
        found := found + [Fault(r.id, EntryMismatch)];
      }
      var body := RowBody(r);
      if body.Undefined? {
        found := found + [Fault(r.id, Unparseable)];
      }
      if IsSigned(body) {
        ghost var before := found;
        for c := 0 to 10
          invariant found == before + ColumnFaults(r, body, c)
        {
          if !ColumnAgrees(r, body, c) {
            found := found + [Fault(r.id, ColumnMismatch(c))];
          }
        }
      }
    }

    /** Verifying the rows after `fromId`: the loop's counters are those of the declarative report. */
    method Verify(fromId: nat) returns (report: Report)
      ensures report == ReportOn(sha, Since(rows, fromId), StartHash(rows, fromId))
    {
      hide Since, StartHash, RowFaults, RowBody, IsSigned;
      var selected := Since(rows, fromId);
      var start := StartHash(rows, fromId);
      var prev := start;
      var broken: seq<Fault> := [];
      var unattributed := 0;
      for i := 0 to |selected|
        invariant broken == Faults(sha, selected[..i], start)
        invariant unattributed == Unsigned(Bodies(selected[..i]))
        invariant prev == Head(selected[..i], start)
      {
        var r := selected[i];
        assert selected[..i + 1][..i] == selected[..i];
        assert Bodies(selected[..i + 1])[..i] == Bodies(selected[..i]);
        var found := CheckRow(r, prev);
        broken := broken + found;
        if !IsSigned(RowBody(r)) {
          unattributed := unattributed + 1;
        }
        prev := r.entryHash;
      }
      assert selected[..|selected|] == selected;
      var shown := if |broken| <= 50 then broken else broken[..50];
      return Report(broken == [], |selected|, unattributed, shown, |broken|, prev);
    }

    /** Signs the last row, if there is one, and keeps the checkpoint under the id that was drawn. */
    method TakeCheckpoint(checkpointId: string, actorId: string, now: string) returns (c: Option<Receipt>)
      modifies this`checkpoints
      ensures c == if rows == [] then None
                   else Some(ReceiptOf(hmac, checkpointKey, rows[|rows| - 1], checkpointId))
      ensures checkpoints == if c.Some? then old(checkpoints) + [Kept(c.value, actorId, now)] else old(checkpoints)
      ensures c.Some? ==>
                var row, last := checkpoints[|checkpoints| - 1], rows[|rows| - 1];
                && row.checkpointId == c.value.checkpointId == checkpointId
                && row.createdBy == actorId && row.createdAt == now
                && row.uptoId == c.value.uptoId == last.id && row.headHash == c.value.headHash == last.entryHash
                && (c.value.signed <==> checkpointKey != "") && (c.value.signature.Some? <==> c.value.signed)
    {
      if rows == [] {
        return None;
      }
      var last := rows[|rows| - 1];
      var signature := None;
      if checkpointKey != "" {
        signature := Some(hmac(checkpointKey, SignedText(last.id, last.entryHash)));
      }
      var column := if signature.Some? then signature.value else UNSIGNED;
      checkpoints := checkpoints + [Checkpoint(checkpointId, last.id, last.entryHash, column, actorId, now)];
      c := Some(Receipt(checkpointId, last.id, last.entryHash, signature, checkpointKey != ""));
    }

    /** Checks a checkpoint against the key and the log. */
    method VerifyCheckpoint(c: Checkpoint) returns (v: Verdict)
      ensures v == VerdictOn(hmac, checkpointKey, rows, c)
    {
      var verifiable := checkpointKey != "" && IsDigest(c.signature);
      var signatureOk := verifiable && c.signature == hmac(checkpointKey, SignedText(c.uptoId, c.headHash));
      v := Verdict(signatureOk, HashOf(rows, c.uptoId) == Some(c.headHash));
    }
  }
}
