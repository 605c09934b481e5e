/** The head of a verified log determines everything before it, as far as SHA-256 has no collision
    among the strings that the compared logs hash. */
module AuditHistory {
  import opened Json
  import opened JsonParser
  import opened AuditChain
  import opened Hashing

  /** The string whose hash is the row's entry hash. */
  function Preimage(r: Row): string {
    r.prevHash + r.payload
  }

  ghost predicate ObjectBodies(rows: seq<Row>) {
    forall r :: r in rows ==> RowBody(r).Obj?
  }

  // ----- Where the previous hash ends and the body begins -----------------------------------

  /** The text of an object starts with its brace, after white space. */
  lemma ObjectText(t: string)
    requires Parse(t).Obj? && t != "" && !IsSpace(t[0])
    ensures t[0] == '{'
  {
    hide ParseItems, ParseFields, ParseString, ParseNatural;
    assert SkipSpace(t) == t;
  }

  /** A previous hash is empty or a digest, so the hashed string splits in one way only. */
  lemma SplitIsUnique(p: string, x: string, q: string, y: string)
    requires p + x == q + y
    requires (p == "" || IsDigest(p)) && (q == "" || IsDigest(q))
    requires Parse(x).Obj? && Parse(y).Obj?
    ensures p == q && x == y
  {
    hide Parse, IsHex;
    if |p| == |q| {
      assert p == (p + x)[..|p|] == (q + y)[..|q|] == q;
      assert x == (p + x)[|p|..] == (q + y)[|q|..] == y;
    } else if p == "" {
      NotAnObject(x, q, y);
    } else {
      NotAnObject(y, p, x);
    }
  }

  lemma NotAnObject(x: string, q: string, y: string)
    requires IsDigest(q) && x == q + y
    ensures !Parse(x).Obj?
  {
    assert x[0] == q[0] && IsHex(x[0]);
    if Parse(x).Obj? {
      ObjectText(x);
    }
  }

  // ----- Columns -----------------------------------------------------------------------------

  lemma CanonColumn(c: Column, d: Column)
    requires Canon(ColumnJson(c)) == Canon(ColumnJson(d))
    ensures c == d
  {
    CanonEquality(ColumnJson(c), ColumnJson(d));
  }

  /** Two clean signed rows with the same body have the same value in all ten columns. */
  lemma SameBodySameColumns(r: Row, s: Row)
    requires r.payload == s.payload && IsSigned(RowBody(r))
    requires ColumnFaults(r, RowBody(r), 10) == [] && ColumnFaults(s, RowBody(s), 10) == []
    ensures r.attribution == s.attribution
  {
    ColumnsAgree(r, RowBody(r), 10);
    ColumnsAgree(s, RowBody(s), 10);
    hide RowBody, Canon;
    forall i | 0 <= i < 10 ensures ColumnAt(r.attribution, i) == ColumnAt(s.attribution, i) {
      assert ColumnAgrees(r, RowBody(r), i) && ColumnAgrees(s, RowBody(s), i);
      CanonColumn(ColumnAt(r.attribution, i), ColumnAt(s.attribution, i));
    }
    assert forall i :: 0 <= i < 10 ==> ColumnAt(r.attribution, i) == ColumnAt(s.attribution, i);
    assert ColumnAt(r.attribution, 0) == ColumnAt(s.attribution, 0);
    assert ColumnAt(r.attribution, 1) == ColumnAt(s.attribution, 1);
    assert ColumnAt(r.attribution, 2) == ColumnAt(s.attribution, 2);
    assert ColumnAt(r.attribution, 3) == ColumnAt(s.attribution, 3);
    assert ColumnAt(r.attribution, 4) == ColumnAt(s.attribution, 4);
    assert ColumnAt(r.attribution, 5) == ColumnAt(s.attribution, 5);
    assert ColumnAt(r.attribution, 6) == ColumnAt(s.attribution, 6);
    assert ColumnAt(r.attribution, 7) == ColumnAt(s.attribution, 7);
    assert ColumnAt(r.attribution, 8) == ColumnAt(s.attribution, 8);
    assert ColumnAt(r.attribution, 9) == ColumnAt(s.attribution, 9);
  }

  // ----- The head determines the history ------------------------------------------------------

  ghost predicate SameRow(r: Row, s: Row) {
    && r.prevHash == s.prevHash && r.payload == s.payload && r.entryHash == s.entryHash
    && (IsSigned(RowBody(r)) ==> r.attribution == s.attribution)
  }

  /** Row by row the same hashes, body and, where signed, all ten attributed columns. */
  ghost predicate SameHistory(a: seq<Row>, b: seq<Row>) {
    |a| == |b| && forall i :: 0 <= i < |a| ==> SameRow(a[i], b[i])
  }

  /** What a row without faults says. */
  lemma CleanRow(sha: string -> string, r: Row, prev: string)
    requires RowFaults(sha, r, prev) == []
    ensures r.prevHash == prev && r.entryHash == sha(Preimage(r)) && !RowBody(r).Undefined?
    ensures IsSigned(RowBody(r)) ==> ColumnFaults(r, RowBody(r), 10) == []
  {
    hide RowBody, ColumnFaults, IsSigned;
  }

  lemma LastRow(sha: string -> string, rows: seq<Row>)
    requires Verifies(sha, rows) && rows != []
    ensures var (front, r) := (rows[..|rows| - 1], rows[|rows| - 1]);
            && Verifies(sha, front) && r.prevHash == Head(front, "") && r.entryHash == sha(Preimage(r))
            && (IsSigned(RowBody(r)) ==> ColumnFaults(r, RowBody(r), 10) == [])
  {
    hide RowFaults, RowBody, ColumnFaults, IsSigned;
    CleanRow(sha, rows[|rows| - 1], Head(rows[..|rows| - 1], ""));
  }

  lemma HeadShape(sha: string -> string, rows: seq<Row>)
    requires MakesDigests(sha) && Verifies(sha, rows)
    ensures Head(rows, "") == "" || IsDigest(Head(rows, ""))
    ensures Head(rows, "") == "" <==> rows == []
  {
    if rows != [] {
      LastRow(sha, rows);
    }
  }

  lemma SameLastRow(sha: string -> string, r: Row, s: Row)
    requires MakesDigests(sha) && r.entryHash == sha(Preimage(r)) && s.entryHash == sha(Preimage(s))
    requires CollisionFree(sha, [r, s], Preimage) && r.entryHash == s.entryHash
    requires (r.prevHash == "" || IsDigest(r.prevHash)) && (s.prevHash == "" || IsDigest(s.prevHash))
    requires RowBody(r).Obj? && RowBody(s).Obj?
    requires IsSigned(RowBody(r)) ==> ColumnFaults(r, RowBody(r), 10) == []
    requires IsSigned(RowBody(s)) ==> ColumnFaults(s, RowBody(s), 10) == []
    ensures SameRow(r, s) && r.prevHash == s.prevHash
  {
    assert Parse("null") == Null by {
      ParsePrint(Null);
    }
    hide Parse, ColumnFaults, IsDigest;
    assert r in [r, s] && s in [r, s];
    SplitIsUnique(r.prevHash, r.payload, s.prevHash, s.payload);
    if IsSigned(RowBody(r)) {
      SameBodySameColumns(r, s);
    }
  }

  ghost predicate Within(rows: seq<Row>, all: seq<Row>) {
    forall r :: r in rows ==> r in all
  }

  lemma WithinFront(rows: seq<Row>, all: seq<Row>)
    requires rows != [] && Within(rows, all) && ObjectBodies(rows)
    ensures Within(rows[..|rows| - 1], all) && ObjectBodies(rows[..|rows| - 1])
    ensures rows[|rows| - 1] in all && RowBody(rows[|rows| - 1]).Obj?
  {
    hide RowBody;
    assert rows == rows[..|rows| - 1] + [rows[|rows| - 1]];
  }

  lemma SameHistoryExtends(a: seq<Row>, b: seq<Row>)
    requires a != [] && b != [] && SameHistory(a[..|a| - 1], b[..|b| - 1]) && SameRow(a[|a| - 1], b[|b| - 1])
    ensures SameHistory(a, b)
  {
    hide SameRow;
  }

  lemma {:induction false} SameHead(sha: string -> string, a: seq<Row>, b: seq<Row>, all: seq<Row>)
    requires MakesDigests(sha) && Verifies(sha, a) && Verifies(sha, b)
    requires ObjectBodies(a) && ObjectBodies(b) && Within(a, all) && Within(b, all) && CollisionFree(sha, all, Preimage)
    requires Head(a, "") == Head(b, "")
    ensures SameHistory(a, b)
  {
    hide IsDigest, Verifies, RowBody, IsSigned, ColumnFaults, SameRow, ObjectBodies, Within, MakesDigests;
    HeadShape(sha, a);
    HeadShape(sha, b);
    if a != [] && b != [] {
      LastRow(sha, a);
      LastRow(sha, b);
      WithinFront(a, all);
      WithinFront(b, all);
      HeadShape(sha, a[..|a| - 1]);
      HeadShape(sha, b[..|b| - 1]);
      SameLastRow(sha, a[|a| - 1], b[|b| - 1]);
      SameHead(sha, a[..|a| - 1], b[..|b| - 1], all);
      SameHistoryExtends(a, b);
    }
  }

  /** Two logs that both verify and share their head have the same history. */
  lemma HeadDeterminesHistory(sha: string -> string, a: seq<Row>, b: seq<Row>)
    requires MakesDigests(sha) && Verifies(sha, a) && Verifies(sha, b)
    requires ObjectBodies(a) && ObjectBodies(b) && CollisionFree(sha, a + b, Preimage)
    requires Head(a, "") == Head(b, "")
    ensures SameHistory(a, b)
  {
    SameHead(sha, a, b, a + b);
  }

  /** A checkpoint pins everything before it: if `before` verified when its head was signed, and a
      log that verifies now still has that hash in some row, the rows up to there have the same
      history as then. */
  lemma CheckpointPinsHistory(sha: string -> string, before: seq<Row>, now: seq<Row>, i: nat)
    requires MakesDigests(sha) && Verifies(sha, before) && Verifies(sha, now)
    requires ObjectBodies(before) && ObjectBodies(now) && CollisionFree(sha, before + now, Preimage)
    requires before != [] && i < |now|
    requires now[i].entryHash == before[|before| - 1].entryHash
    ensures SameHistory(before, now[..i + 1])
  {
    assert now == now[..i + 1] + now[i + 1..];
    FaultsSplit(sha, now[..i + 1], now[i + 1..], "");
    assert Within(now[..i + 1], now);
    SameHead(sha, before, now[..i + 1], before + now);
  }
}
