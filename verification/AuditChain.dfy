/** The hash-chained audit log: rows, the recording writer and the verifier loop.
    `sha` stands for SHA-256 in lower-case hexadecimal. */
module AuditChain {
  import opened Conversions
  import opened Json
  import opened JsonCanonical
  import opened JsonParser

  /** A nullable text column. */
  datatype Column = NoText | Text(s: string)

  datatype Attribution = Attribution(
    actorType: Column, actorId: Column, action: Column, targetType: Column, targetId: Column,
    reason: Column, requestId: Column, scope: Column, correlationId: Column, when: Column)

  datatype Row = Row(id: nat, attribution: Attribution, prevHash: string, entryHash: string, payload: string)

  const AUDIT_BODY_VERSION := 2

  /** The body field of each attributed column, in the order in which they are compared. */
  const FIELDS: seq<string> := ["actorType", "actorId", "action", "targetType", "targetId",
                                "reason", "requestId", "scope", "correlationId", "when"]

  function ColumnAt(a: Attribution, i: nat): Column
    requires i < 10
  {
    [a.actorType, a.actorId, a.action, a.targetType, a.targetId,
     a.reason, a.requestId, a.scope, a.correlationId, a.when][i]
  }

  function ColumnJson(c: Column): Json {
    match c
    case NoText => Null
    case Text(s) => Str(s)
  }

  function BodyFields(a: Attribution, payload: Json): seq<Entry<Json>> {
    [ Entry("v", Num(AUDIT_BODY_VERSION)), Entry("action", ColumnJson(a.action)),
      Entry("actorType", ColumnJson(a.actorType)), Entry("actorId", ColumnJson(a.actorId)),
      Entry("targetType", ColumnJson(a.targetType)), Entry("targetId", ColumnJson(a.targetId)),
      Entry("reason", ColumnJson(a.reason)), Entry("requestId", ColumnJson(a.requestId)),
      Entry("scope", ColumnJson(a.scope)), Entry("correlationId", ColumnJson(a.correlationId)),
      Entry("payload", payload), Entry("when", ColumnJson(a.when)) ]
  }

  /** What `record` hashes and stores in `payload_json`. */
  function BodyText(a: Attribution, payload: Json): string {
    Canon(Obj(BodyFields(a, payload)))
  }

  // ----- Verification -----------------------------------------------------------------

  datatype Problem = PrevMismatch | EntryMismatch | Unparseable | ColumnMismatch(column: nat)
  datatype Fault = Fault(id: nat, what: Problem)
  datatype Report = Report(ok: bool, total: nat, unattributed: nat, broken: seq<Fault>, brokenCount: nat, head: string)

  /** The stored body, parsed; an empty one counts as null, an unreadable one is Undefined. */
  function RowBody(r: Row): Json {
    Parse(if r.payload == "" then "null" else r.payload)
  }

  /** An object whose `v` is at least 2, as a number or converted to one. */
  predicate IsSigned(body: Json) {
    AtLeastTwo(Member(body, "v"))
  }

  /** The index compares without converting: any text is above every number. */
  predicate IsIndexed(body: Json) {
    var v := Member(body, "v");
    if v.Str? || v.Arr? || v.Obj? then true else AtLeastTwo(v)
  }

  predicate ColumnAgrees(r: Row, body: Json, i: nat)
    requires i < 10
  {
    Canon(Member(body, FIELDS[i])) == Canon(ColumnJson(ColumnAt(r.attribution, i)))
  }

  function ColumnFaults(r: Row, body: Json, n: nat): seq<Fault>
    requires n <= 10
  {
    if n == 0 then []
    else
      ColumnFaults(r, body, n - 1)
      + if ColumnAgrees(r, body, n - 1) then [] else [Fault(r.id, ColumnMismatch(n - 1))]
  }

  /** What is wrong with one row, given the hash it should follow. */
  function RowFaults(sha: string -> string, r: Row, prev: string): seq<Fault> {
    (if r.prevHash != prev then [Fault(r.id, PrevMismatch)] else [])
    + (if r.entryHash != sha(r.prevHash + r.payload) then [Fault(r.id, EntryMismatch)] else [])
    + (if RowBody(r).Undefined? then [Fault(r.id, Unparseable)] else [])
    + (if IsSigned(RowBody(r)) then ColumnFaults(r, RowBody(r), 10) else [])
  }

  function Head(rows: seq<Row>, start: string): string {
    if rows == [] then start else rows[|rows| - 1].entryHash
  }

  function Faults(sha: string -> string, rows: seq<Row>, start: string): seq<Fault> {
    if rows == [] then []
    else Faults(sha, rows[..|rows| - 1], start) + RowFaults(sha, rows[|rows| - 1], Head(rows[..|rows| - 1], start))
  }

  function Unsigned(bodies: seq<Json>): nat {
    if bodies == [] then 0
    else Unsigned(bodies[..|bodies| - 1]) + if IsSigned(bodies[|bodies| - 1]) then 0 else 1
  }

  function Bodies(rows: seq<Row>): seq<Json> {
    seq(|rows|, i requires 0 <= i < |rows| => RowBody(rows[i]))
  }

  /** Does the whole log verify? */
  ghost predicate Verifies(sha: string -> string, rows: seq<Row>) {
    Faults(sha, rows, "") == []
  }

  lemma {:induction false} FaultsSplit(sha: string -> string, a: seq<Row>, b: seq<Row>, start: string)
    ensures Faults(sha, a + b, start) == Faults(sha, a, start) + Faults(sha, b, Head(a, start))
  {
    hide RowFaults;
    if b == [] {
      assert a + b == a;
    } else {
      var front := b[..|b| - 1];
      assert (a + b)[..|a + b| - 1] == a + front;
      FaultsSplit(sha, a, front, start);
      assert Head(a + front, start) == Head(front, Head(a, start));
    }
  }

  lemma {:induction false} ColumnsAgree(r: Row, body: Json, n: nat)
    requires n <= 10
    ensures ColumnFaults(r, body, n) == [] <==> forall i :: 0 <= i < n ==> ColumnAgrees(r, body, i)
  {
    hide ColumnAgrees;
    if n > 0 {
      ColumnsAgree(r, body, n - 1);
    }
  }

  // ----- Writing ------------------------------------------------------------------------

  function NextId(rows: seq<Row>): nat {
    if rows == [] then 1 else rows[|rows| - 1].id + 1
  }

  function NewRow(sha: string -> string, id: nat, prev: string, a: Attribution, payload: Json): Row {
    Row(id, a, prev, sha(prev + BodyText(a, payload)), BodyText(a, payload))
  }

  /** The partial UNIQUE index: among rows with a version 2 body, `prev_hash` may not repeat. */
  predicate Conflicts(rows: seq<Row>, row: Row) {
    IsIndexed(RowBody(row))
    && exists i :: 0 <= i < |rows| && rows[i].prevHash == row.prevHash && IsIndexed(RowBody(rows[i]))
  }

  lemma BodyIsValue(a: Attribution, payload: Json)
    requires IsValue(payload)
    ensures IsValue(Obj(BodyFields(a, payload)))
  {
  }

  /** Reading a recorded body back, each field has the (normalized) value that was written. */
  lemma ReadBack(a: Attribution, payload: Json, e: Entry<Json>)
    requires IsValue(payload) && e in BodyFields(a, payload)
    ensures Parse(BodyText(a, payload)).Obj?
    ensures Member(Parse(BodyText(a, payload)), e.key) == Normalize(e.value)
  {
    hide BodyFields, Canon, Parse, SortByKey, NormalizeFields, NormalizeEntry;
    var fields := BodyFields(a, payload);
    BodyIsValue(a, payload);
    ParseCanon(Obj(fields), "");
    NormalizeFieldsAt(fields);
    SortedFields(fields);
    var i :| 0 <= i < |fields| && fields[i] == e;
    assert NormalizeFields(fields)[i] == NormalizeEntry(e);
    GetMember(SortByKey(NormalizeFields(fields)), NormalizeEntry(e));
    EntryNormalized(e);
  }

  lemma EntryNormalized(e: Entry<Json>)
    ensures NormalizeEntry(e).key == e.key && NormalizeEntry(e).value == Normalize(e.value)
  {
  }

  lemma NewRowColumns(r: Row, a: Attribution, payload: Json, i: nat)
    requires IsValue(payload) && r.attribution == a && i < 10
    ensures ColumnAgrees(r, Parse(BodyText(a, payload)), i)
  {
    var at := [2, 3, 1, 4, 5, 6, 7, 8, 9, 11];
    var fields, column := BodyFields(a, payload), ColumnAt(a, i);
    assert fields[at[i]] == Entry(FIELDS[i], ColumnJson(column));
    hide Parse, BodyText, BodyFields, Canon;
    ReadBack(a, payload, fields[at[i]]);
    assert Normalize(ColumnJson(column)) == ColumnJson(column);
  }

  /** A recorded row has a version 2 body whose attribution agrees with its columns. */
  lemma NewRowIsClean(sha: string -> string, id: nat, prev: string, a: Attribution, payload: Json)
    requires IsValue(payload)
    ensures RowFaults(sha, NewRow(sha, id, prev, a, payload), prev) == []
    ensures IsSigned(RowBody(NewRow(sha, id, prev, a, payload)))
  {
    var r := NewRow(sha, id, prev, a, payload);
    assert BodyText(a, payload)[0] == '{';
    assert BodyFields(a, payload)[0] == Entry("v", Num(2));
    hide Parse, BodyText, BodyFields, ColumnAgrees;
    ReadBack(a, payload, BodyFields(a, payload)[0]);
    forall i | 0 <= i < 10 ensures ColumnAgrees(r, RowBody(r), i) {
      NewRowColumns(r, a, payload, i);
    }
    ColumnsAgree(r, RowBody(r), 10);
  }

  /** Appending a recorded row to a log that verifies, after its head, gives a log that verifies. */
  lemma AppendVerifies(sha: string -> string, rows: seq<Row>, id: nat, a: Attribution, payload: Json)
    requires Verifies(sha, rows) && IsValue(payload)
    ensures Verifies(sha, rows + [NewRow(sha, id, Head(rows, ""), a, payload)])
  {
    NewRowIsClean(sha, id, Head(rows, ""), a, payload);
    assert (rows + [NewRow(sha, id, Head(rows, ""), a, payload)])[..|rows|] == rows;
  }
}
