/** What the report of a verification says about the rows themselves. */
module AuditReports {
  import opened AuditChain
  import opened AuditCheckpoints
  import opened AuditLog
  import opened Json
  import C = Collections
  import J = JsonParser

  /** A column says what the body says under its name. */
  predicate Says(body: Json, name: string, column: Column) {
    Canon(Member(body, name)) == Canon(if column.NoText? then Null else Str(column.s))
  }

  /** All ten columns of the row say what the body says, each under its own name. */
  predicate ColumnsStand(r: Row, body: Json) {
    var a := r.attribution;
    && Says(body, "actorType", a.actorType) && Says(body, "actorId", a.actorId)
    && Says(body, "action", a.action)
    && Says(body, "targetType", a.targetType) && Says(body, "targetId", a.targetId)
    && Says(body, "reason", a.reason) && Says(body, "requestId", a.requestId)
    && Says(body, "scope", a.scope) && Says(body, "correlationId", a.correlationId)
    && Says(body, "when", a.when)
  }

  lemma ColumnsStandIff(r: Row, body: Json)
    ensures ColumnFaults(r, body, 10) == [] <==> ColumnsStand(r, body)
  {
    ColumnsAgree(r, body, 10);
    hide Canon, Member, ColumnFaults;
    forall i | 0 <= i < 10 ensures ColumnAgrees(r, body, i) <==> Says(body, FIELDS[i], ColumnAt(r.attribution, i)) {
      ColumnSays(r, body, i);
    }
    TenColumns(r, body);
  }

  lemma ColumnSays(r: Row, body: Json, i: nat)
    requires i < 10
    ensures ColumnAgrees(r, body, i) <==> Says(body, FIELDS[i], ColumnAt(r.attribution, i))
  {
    hide Canon, Member;
  }

  lemma TenColumns(r: Row, body: Json)
    ensures ColumnsStand(r, body) <==> forall i :: 0 <= i < 10 ==> Says(body, FIELDS[i], ColumnAt(r.attribution, i))
  {
    hide Says;
    var a := r.attribution;
    assert FIELDS[0] == "actorType" && ColumnAt(a, 0) == a.actorType;
    assert FIELDS[1] == "actorId" && ColumnAt(a, 1) == a.actorId;
    assert FIELDS[2] == "action" && ColumnAt(a, 2) == a.action;
    assert FIELDS[3] == "targetType" && ColumnAt(a, 3) == a.targetType;
    assert FIELDS[4] == "targetId" && ColumnAt(a, 4) == a.targetId;
    assert FIELDS[5] == "reason" && ColumnAt(a, 5) == a.reason;
    assert FIELDS[6] == "requestId" && ColumnAt(a, 6) == a.requestId;
    assert FIELDS[7] == "scope" && ColumnAt(a, 7) == a.scope;
    assert FIELDS[8] == "correlationId" && ColumnAt(a, 8) == a.correlationId;
    assert FIELDS[9] == "when" && ColumnAt(a, 9) == a.when;
  }

  // ----- A log that verifies ------------------------------------------------------------------

  /** The hash that row `k` should follow. */
  function Before(rows: seq<Row>, start: string, k: nat): string
    requires k < |rows|
  {
    if k == 0 then start else rows[k - 1].entryHash
  }

  /** Row `k` follows the one before it, its hash is of its own text, its body can be read, and if it
      is signed its columns say what was signed. */
  predicate RowStands(sha: string -> string, rows: seq<Row>, start: string, k: nat)
    requires k < |rows|
  {
    var r := rows[k];
    && r.prevHash == Before(rows, start, k)
    && r.entryHash == sha(r.prevHash + r.payload)
    && !RowBody(r).Undefined?
    && (IsSigned(RowBody(r)) ==> ColumnsStand(r, RowBody(r)))
  }

  lemma CleanRowStands(sha: string -> string, rows: seq<Row>, start: string, k: nat)
    requires k < |rows|
    ensures RowFaults(sha, rows[k], Before(rows, start, k)) == [] <==> RowStands(sha, rows, start, k)
  {
    hide RowBody, IsSigned, ColumnFaults, ColumnsStand;
    ColumnsStandIff(rows[k], RowBody(rows[k]));
  }

  lemma NoFaultsInNothing(sha: string -> string, start: string)
    ensures Faults(sha, [], start) == []
  {
  }

  lemma LastFaults(sha: string -> string, rows: seq<Row>, start: string)
    requires rows != []
    ensures var n := |rows| - 1;
            Faults(sha, rows, start) == Faults(sha, rows[..n], start) + RowFaults(sha, rows[n], Before(rows, start, n))
  {
    hide RowFaults;
  }

  /** No faults are found exactly when every row stands. */
  lemma {:induction false} NoFaultsIff(sha: string -> string, rows: seq<Row>, start: string)
    ensures Faults(sha, rows, start) == [] <==> forall k :: 0 <= k < |rows| ==> RowStands(sha, rows, start, k)
  {
    hide Faults, RowFaults, RowStands, Before;
    if rows == [] {
      NoFaultsInNothing(sha, start);
    } else {
      var front, n := rows[..|rows| - 1], |rows| - 1;
      NoFaultsIff(sha, front, start);
      forall k | 0 <= k < n ensures RowStands(sha, rows, start, k) <==> RowStands(sha, front, start, k) {
        StandsInFront(sha, rows, start, k);
      }
      CleanRowStands(sha, rows, start, n);
      LastFaults(sha, rows, start);
    }
  }

  lemma StandsInFront(sha: string -> string, rows: seq<Row>, start: string, k: nat)
    requires k < |rows| - 1
    ensures RowStands(sha, rows, start, k) <==> RowStands(sha, rows[..|rows| - 1], start, k)
  {
    hide RowBody, IsSigned, ColumnsStand;
  }

  // ----- Which faults ----------------------------------------------------------------------------

  /** What is wrong with row `k`, kind by kind. */
  predicate IsWrong(sha: string -> string, rows: seq<Row>, start: string, k: nat, what: Problem)
    requires k < |rows|
  {
    var r := rows[k];
    match what
    case PrevMismatch => r.prevHash != Before(rows, start, k)
    case EntryMismatch => r.entryHash != sha(r.prevHash + r.payload)
    case Unparseable => RowBody(r).Undefined?
    case ColumnMismatch(c) =>
      c < 10 && IsSigned(RowBody(r)) && !Says(RowBody(r), FIELDS[c], ColumnAt(r.attribution, c))
  }

  lemma {:induction false} ColumnFaultsOf(r: Row, body: Json, n: nat, f: Fault)
    requires n <= 10
    ensures f in ColumnFaults(r, body, n) <==>
              f.id == r.id && f.what.ColumnMismatch? && f.what.column < n
              && !Says(body, FIELDS[f.what.column], ColumnAt(r.attribution, f.what.column))
  {
    hide Says, ColumnAgrees;
    if n > 0 {
      ColumnFaultsOf(r, body, n - 1, f);
      ColumnSays(r, body, n - 1);
    }
  }

  lemma RowFaultsOf(sha: string -> string, rows: seq<Row>, start: string, k: nat, f: Fault)
    requires k < |rows|
    ensures f in RowFaults(sha, rows[k], Before(rows, start, k))
       <==> f.id == rows[k].id && IsWrong(sha, rows, start, k, f.what)
  {
    hide RowBody, IsSigned, ColumnFaults, Says;
    ColumnFaultsOf(rows[k], RowBody(rows[k]), 10, f);
  }

  /** A fault is reported exactly when some row with its id has it. */
  lemma {:induction false} FaultsAreWrongs(sha: string -> string, rows: seq<Row>, start: string, f: Fault)
    ensures f in Faults(sha, rows, start)
       <==> exists k :: 0 <= k < |rows| && rows[k].id == f.id && IsWrong(sha, rows, start, k, f.what)
  {
    hide Faults, RowFaults, IsWrong, Before;
    if rows == [] {
      NoFaultsInNothing(sha, start);
    } else {
      var front, n := rows[..|rows| - 1], |rows| - 1;
      FaultsAreWrongs(sha, front, start, f);
      forall k | 0 <= k < n ensures IsWrong(sha, rows, start, k, f.what) <==> IsWrong(sha, front, start, k, f.what) {
        WrongInFront(sha, rows, start, k, f.what);
      }
      RowFaultsOf(sha, rows, start, n, f);
      LastFaults(sha, rows, start);
      assert forall k :: 0 <= k < n ==> rows[k] == front[k];
    }
  }

  lemma WrongInFront(sha: string -> string, rows: seq<Row>, start: string, k: nat, what: Problem)
    requires k < |rows| - 1
    ensures IsWrong(sha, rows, start, k, what) <==> IsWrong(sha, rows[..|rows| - 1], start, k, what)
  {
    hide RowBody, IsSigned, Says;
  }

  // ----- The report ----------------------------------------------------------------------------------

  ghost function UnsignedRows(rows: seq<Row>): set<nat> {
    set k: nat | k < |rows| && !IsSigned(RowBody(rows[k]))
  }

  lemma {:induction false} UnsignedIsCount(rows: seq<Row>)
    ensures Unsigned(Bodies(rows)) == |UnsignedRows(rows)|
  {
    hide IsSigned, RowBody;
    if rows == [] {
      assert UnsignedRows(rows) == {};
    } else {
      var front, n := rows[..|rows| - 1], |rows| - 1;
      UnsignedIsCount(front);
      assert Bodies(rows)[..n] == Bodies(front);
      assert UnsignedRows(rows) == UnsignedRows(front) + if IsSigned(RowBody(rows[n])) then {} else {n};
    }
  }

  lemma SinceLast(rows: seq<Row>)
    requires rows != [] && rows[|rows| - 1].id > 0
    ensures Since(rows, 0) == Since(rows[..|rows| - 1], 0) + [rows[|rows| - 1]]
  {
  }

  lemma {:induction false} SinceAll(rows: seq<Row>)
    requires forall k :: 0 <= k < |rows| ==> rows[k].id > 0
    ensures Since(rows, 0) == rows
  {
    if rows != [] {
      var front, last := rows[..|rows| - 1], rows[|rows| - 1];
      assert rows == front + [last];
      SinceAll(front);
      hide Since;
      SinceLast(rows);
    }
  }

  lemma {:induction false} SinceIsRest(rows: seq<Row>, fromId: nat) returns (k: nat)
    requires AscendingIds(rows)
    ensures k <= |rows| && Since(rows, fromId) == rows[k..]
    ensures (forall i :: 0 <= i < k ==> rows[i].id <= fromId) && forall i :: k <= i < |rows| ==> rows[i].id > fromId
  {
    if rows == [] {
      k := 0;
    } else {
      var front, last := rows[..|rows| - 1], rows[|rows| - 1];
      k := SinceIsRest(front, fromId);
      assert rows == front + [last];
      if last.id <= fromId {
        SinceNothing(front, fromId);
        k := |rows|;
      }
    }
  }

  lemma {:induction false} NoSuchRow(rows: seq<Row>, id: nat)
    requires forall i :: 0 <= i < |rows| ==> rows[i].id != id
    ensures HashOf(rows, id) == C.None
  {
    if rows != [] {
      NoSuchRow(rows[1..], id);
    }
  }

  /** Verifying from an id on is about the rows with higher ids; they should follow the row with that id,
      or nothing if there is none. */
  lemma RangeReport(sha: string -> string, rows: seq<Row>, fromId: nat) returns (k: nat)
    requires GoodIds(rows)
    ensures k <= |rows| && (forall i :: 0 <= i < |rows| ==> (i < k <==> rows[i].id <= fromId))
    ensures var start := if k > 0 && rows[k - 1].id == fromId then rows[k - 1].entryHash else "";
            var report := ReportOn(sha, Since(rows, fromId), StartHash(rows, fromId));
            && (report.ok <==> forall j :: 0 <= j < |rows[k..]| ==> RowStands(sha, rows[k..], start, j))
            && report.total == |rows| - k && report.unattributed == |UnsignedRows(rows[k..])|
            && report.brokenCount == |Faults(sha, rows[k..], start)| && report.broken <= Faults(sha, rows[k..], start)
            && |report.broken| == (if report.brokenCount > 50 then 50 else report.brokenCount)
  {
    hide Faults, RowStands, UnsignedRows, Since, HashOf;
    k := SinceIsRest(rows, fromId);
    if k > 0 && rows[k - 1].id == fromId {
      HashAtIndex(rows, k - 1);
    } else {
      NoSuchRow(rows, fromId);
    }
    NoFaultsIff(sha, rows[k..], StartHash(rows, fromId));
    UnsignedIsCount(rows[k..]);
  }

  /** Verifying a whole log, as is done by default: it is reported intact exactly when every row stands,
      and that is when the results about history apply. The counts are of its rows, the list is the
      faults, cut off after fifty, and the head is that of the last row. */
  lemma WholeReport(sha: string -> string, rows: seq<Row>)
    requires GoodIds(rows)
    ensures var report := ReportOn(sha, Since(rows, 0), StartHash(rows, 0));
            && (report.ok <==> Verifies(sha, rows))
            && (report.ok <==> forall k :: 0 <= k < |rows| ==> RowStands(sha, rows, "", k))
            && report.total == |rows| && report.unattributed == |UnsignedRows(rows)|
            && report.brokenCount == |Faults(sha, rows, "")|
            && report.broken <= Faults(sha, rows, "")
            && |report.broken| == (if report.brokenCount > 50 then 50 else report.brokenCount)
            && report.head == if rows == [] then "" else rows[|rows| - 1].entryHash
  {
    hide Faults, RowStands, UnsignedRows, Since;
    SinceAll(rows);
    NoFaultsIff(sha, rows, "");
    UnsignedIsCount(rows);
  }

  /** What `record` writes stands: the ten fields of the body under their names, its version, the payload,
      and the hash of the previous hash and the text. */
  lemma RecordedBodyMeans(a: Attribution, payload: Json)
    requires IsValue(payload)
    ensures var body := J.Parse(BodyText(a, payload));
            && body.Obj? && Member(body, "v") == Num(2) && Member(body, "payload") == Normalize(payload)
            && Member(body, "actorType") == ColumnJson(a.actorType) && Member(body, "actorId") == ColumnJson(a.actorId)
            && Member(body, "action") == ColumnJson(a.action)
            && Member(body, "targetType") == ColumnJson(a.targetType)
            && Member(body, "targetId") == ColumnJson(a.targetId)
            && Member(body, "reason") == ColumnJson(a.reason) && Member(body, "requestId") == ColumnJson(a.requestId)
            && Member(body, "scope") == ColumnJson(a.scope)
            && Member(body, "correlationId") == ColumnJson(a.correlationId)
            && Member(body, "when") == ColumnJson(a.when)
  {
    var fields := BodyFields(a, payload);
    FieldPlaces(a, payload);
    hide BodyFields, BodyText, J.Parse, Normalize, Member;
    forall e | e in fields ensures Member(J.Parse(BodyText(a, payload)), e.key) == Normalize(e.value) {
      ReadBack(a, payload, e);
    }
    ReadBack(a, payload, fields[0]);
    TextNormal(a.actorType);
    TextNormal(a.actorId);
    TextNormal(a.action);
    TextNormal(a.targetType);
    TextNormal(a.targetId);
    TextNormal(a.reason);
    TextNormal(a.requestId);
    TextNormal(a.scope);
    TextNormal(a.correlationId);
    TextNormal(a.when);
    NumNormal(2);
  }

  lemma TextNormal(c: Column)
    ensures Normalize(ColumnJson(c)) == ColumnJson(c)
  {
  }

  lemma NumNormal(n: int)
    ensures Normalize(Num(n)) == Num(n)
  {
  }

  lemma FieldPlaces(a: Attribution, payload: Json)
    ensures var f := BodyFields(a, payload);
            && |f| == 12 && f[0] == Entry("v", Num(2)) && f[1] == Entry("action", ColumnJson(a.action))
            && f[2] == Entry("actorType", ColumnJson(a.actorType)) && f[3] == Entry("actorId", ColumnJson(a.actorId))
            && f[4] == Entry("targetType", ColumnJson(a.targetType))
            && f[5] == Entry("targetId", ColumnJson(a.targetId))
            && f[6] == Entry("reason", ColumnJson(a.reason)) && f[7] == Entry("requestId", ColumnJson(a.requestId))
            && f[8] == Entry("scope", ColumnJson(a.scope))
            && f[9] == Entry("correlationId", ColumnJson(a.correlationId))
            && f[10] == Entry("payload", payload) && f[11] == Entry("when", ColumnJson(a.when))
  {
  }
}
