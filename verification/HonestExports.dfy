/** The anchor check is not too strict: what an honest export takes from a log that verifies passes. */
module HonestExports {
  import opened AuditChain
  import opened AuditHistory
  import opened BundleAnchor
  import opened BundleEvents
  import opened Json
  import opened JsonCanonical
  import opened JsonParser
  import opened Strings
  import N = DrawNoReroll
  import W = AuditWriters

  function EventOf(r: Row): Event {
    Event(r.id, r.prevHash, r.entryHash, r.payload)
  }

  function EventsOf(rows: seq<Row>): seq<Event> {
    seq(|rows|, i requires 0 <= i < |rows| => EventOf(rows[i]))
  }

  /** An export of the row, with any of its attribution columns. */
  ghost predicate Shows(x: Export, r: Row) {
    x.event == EventOf(r)
    && forall i :: 0 <= i < 10 && COLUMNS[i] in x.columns ==>
         x.columns[COLUMNS[i]] == ColumnJson(ColumnAt(r.attribution, i))
  }

  // ----- The manifest -----------------------------------------------------------------------

  function Item(e: Event): Json {
    Obj([Entry("id", Num(e.id)), Entry("entryHash", Str(e.entryHash))])
  }

  function Items(events: seq<Event>): seq<Json> {
    if events == [] then [] else [Item(events[0])] + Items(events[1..])
  }

  /** The payload of the export record: the exported events and the draw's digests. */
  function Manifest(events: seq<Event>, d: Digests): Json {
    Obj([Entry("events", Arr(Items(events))), Entry("snapshotHash", Str(d.snapshotHash)),
         Entry("outputHash", OrNull(d.outputHash))])
  }

  ghost predicate Recordable(d: Digests) {
    d.outputHash.Str? || d.outputHash.Null? || d.outputHash.Undefined?
  }

  lemma {:induction false} ItemsAreValues(events: seq<Event>)
    ensures |Items(events)| == |events| && forall i :: 0 <= i < |events| ==> IsValue(Items(events)[i])
  {
    if events != [] {
      ItemsAreValues(events[1..]);
      assert IsValue(Item(events[0]));
      hide Item;
    }
  }

  lemma ManifestIsValue(events: seq<Event>, d: Digests)
    requires Recordable(d)
    ensures IsValue(Manifest(events, d))
  {
    hide Items;
    ItemsAreValues(events);
  }

  lemma ItemMembers(e: Event)
    ensures var v := Normalize(Item(e));
            v.Obj? && Member(v, "id") == Num(e.id) && Member(v, "entryHash") == Str(e.entryHash)
  {
    var fields := Item(e).fields;
    assert fields[0].key == "id" && fields[1].key == "entryHash";
    assert HasKey(fields, "id") && HasKey(fields, "entryHash") && DistinctKeys(fields);
    assert Get(fields, "id") == Num(e.id);
    assert Get(fields[1..], "entryHash") == Str(e.entryHash);
    assert Get(fields, "entryHash") == Str(e.entryHash);
    hide SortByKey, NormalizeFields, HasKey;
    N.GetNormalized(fields, "id");
    N.GetNormalized(fields, "entryHash");
  }

  /** The recorded list is read back as the labels of the exported events. */
  lemma {:induction false} ListIsReadBack(events: seq<Event>)
    ensures Listed(NormalizeItems(Items(events))) == Exported(events) && Null !in NormalizeItems(Items(events))
  {
    if events != [] {
      var items := Items(events);
      assert items[1..] == Items(events[1..]);
      ListIsReadBack(events[1..]);
      ItemMembers(events[0]);
      hide Item, Normalize, Member;
      assert NormalizeItems(items)[1..] == NormalizeItems(items[1..]);
    }
  }

  lemma ManifestMembers(events: seq<Event>, d: Digests)
    requires Recordable(d)
    ensures var p := Normalize(Manifest(events, d));
            && Member(p, "events") == Arr(NormalizeItems(Items(events)))
            && Member(p, "snapshotHash") == Str(d.snapshotHash)
            && OrNull(Member(p, "outputHash")) == OrNull(d.outputHash)
  {
    var fields := Manifest(events, d).fields;
    assert fields[0].key == "events" && fields[1].key == "snapshotHash" && fields[2].key == "outputHash";
    assert HasKey(fields, "events") && HasKey(fields, "snapshotHash") && HasKey(fields, "outputHash");
    assert DistinctKeys(fields);
    GetMember(fields, fields[0]);
    GetMember(fields, fields[1]);
    GetMember(fields, fields[2]);
    hide SortByKey, NormalizeFields, NormalizeItems, Items, HasKey;
    N.GetNormalized(fields, "events");
    N.GetNormalized(fields, "snapshotHash");
    N.GetNormalized(fields, "outputHash");
  }

  /** Reading the manifest's record back, it fits the export. */
  lemma ManifestIsReadBack(a: Attribution, events: seq<Event>, d: Digests)
    requires Recordable(d) && a.action == Text("draw.bundle_exported") && a.targetId == Text(d.drawId)
    ensures ManifestFits(Parse(BodyText(a, Manifest(events, d))), events, d)
  {
    var p := Manifest(events, d);
    var fields := BodyFields(a, p);
    assert fields[1] == Entry("action", Str("draw.bundle_exported")) && fields[5] == Entry("targetId", Str(d.drawId));
    assert fields[10] == Entry("payload", p);
    ManifestIsValue(events, d);
    hide Parse, BodyText, BodyFields, Manifest, SortTexts, Listed, Exported;
    ReadBack(a, p, fields[1]);
    ReadBack(a, p, fields[5]);
    ReadBack(a, p, fields[10]);
    ManifestMembers(events, d);
    ListIsReadBack(events);
  }

  // ----- The tail -----------------------------------------------------------------------------

  lemma TailIsChained(sha: string -> string, rows: seq<Row>, m: nat)
    requires Verifies(sha, rows) && m < |rows|
    ensures Chained(sha, EventsOf(rows[m..]))
  {
    hide Verifies;
    var tail := EventsOf(rows[m..]);
    forall i | 0 <= i < |tail|
      ensures Recomputes(sha, tail[i])
      ensures i > 0 ==> tail[i].prevHash == tail[i - 1].entryHash
    {
      W.LinkAt(sha, rows, m + i);
      assert tail[i] == EventOf(rows[m + i]);
      assert i > 0 ==> Head(rows[..m + i], "") == rows[m + i - 1].entryHash;
    }
  }

  // ----- The exported events --------------------------------------------------------------------

  lemma RowIsClean(sha: string -> string, rows: seq<Row>, k: nat)
    requires Verifies(sha, rows) && k < |rows|
    ensures var r := rows[k];
            && r.entryHash == sha(Preimage(r))
            && (IsSigned(RowBody(r)) ==> ColumnFaults(r, RowBody(r), 10) == [])
  {
    hide Verifies;
    W.PrefixVerifies(sha, rows, k + 1);
    LastRow(sha, rows[..k + 1]);
  }

  lemma ShownColumns(x: Export, r: Row)
    requires Shows(x, r) && Body(x) == RowBody(r)
    requires IsSigned(RowBody(r)) ==> ColumnFaults(r, RowBody(r), 10) == []
    ensures Attributed(x)
  {
    hide Parse, RowBody, IsSigned;
    if IsSigned(Body(x)) {
      ColumnsAgree(r, RowBody(r), 10);
      forall i | 0 <= i < 10 ensures ColumnFits(x, i) {
        assert ColumnAgrees(r, RowBody(r), i);
        UndefinedPrintsAsNull(Member(Body(x), FIELDS[i]));
      }
    }
  }

  lemma UndefinedPrintsAsNull(v: Json)
    ensures Canon(OrNull(v)) == Canon(v)
  {
  }

  lemma ExportPasses(sha: string -> string, rows: seq<Row>, x: Export, r: Row)
    requires Verifies(sha, rows) && ObjectBodies(rows) && r in rows && Shows(x, r)
    ensures Intact(sha, x) && Attributed(x)
  {
    var k :| 0 <= k < |rows| && rows[k] == r;
    RowIsClean(sha, rows, k);
    BodyIsObject(r);
    hide Parse, Shows, Verifies, ObjectBodies;
    assert x.event == EventOf(r) by {
      ShownEvent(x, r);
    }
    ShownColumns(x, r);
  }

  lemma ShownEvent(x: Export, r: Row)
    requires Shows(x, r)
    ensures x.event == EventOf(r)
  {
  }

  lemma BodyIsObject(r: Row)
    requires RowBody(r).Obj?
    ensures r.payload != "" && Parse(r.payload).Obj?
  {
    ParsePrint(Null);
  }

  /** Take any log that verifies, with a record in it that lists some of its rows and the digests of a
      draw; export those rows, with the rows from that record on as the tail and the last one as the
      checkpointed head. The bundle is anchored, and its events recompute and say what was signed. */
  lemma HonestExportPasses(sha: string -> string, rows: seq<Row>, m: nat, a: Attribution, xs: seq<Export>, d: Digests)
    requires Verifies(sha, rows) && ObjectBodies(rows) && m < |rows| && Recordable(d)
    requires a.action == Text("draw.bundle_exported") && a.targetId == Text(d.drawId)
    requires rows[m].payload == BodyText(a, Manifest(Events(xs), d))
    requires forall x :: x in xs ==> exists r :: r in rows && Shows(x, r)
    ensures var last := rows[|rows| - 1];
            Anchored(sha, Anchor(rows[m].id, EventsOf(rows[m..])), Checkpoint(last.id, last.entryHash), Events(xs), d)
    ensures forall x :: x in xs ==> Intact(sha, x) && Attributed(x)
  {
    hide Verifies, ObjectBodies, Shows, BodyText, Parse, ManifestFits, Manifest, Intact, Attributed, Chained,
         Recordable;
    TailIsChained(sha, rows, m);
    ManifestIsReadBack(a, Events(xs), d);
    forall x | x in xs ensures Intact(sha, x) && Attributed(x) {
      var r :| r in rows && Shows(x, r);
      ExportPasses(sha, rows, x, r);
    }
  }
}
