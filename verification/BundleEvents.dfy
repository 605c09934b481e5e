/** The exported audit events of a bundle: each hash recomputes, and the columns that a reader would
    display still say what was signed. */
module BundleEvents {
  import opened Hashing
  import opened Strings
  import opened Json
  import opened JsonParser
  import opened BundleAnchor
  import C = AuditChain

  /** `columns` holds the attribution columns that the bundle exports. */
  datatype Export = Export(event: Event, columns: map<string, Json>)

  /** The column of each of `AuditChain.FIELDS`. */
  const COLUMNS: seq<string> := ["actor_type", "actor_id", "action", "target_type", "target_id",
                                 "reason", "request_id", "scope", "correlation_id", "created_at"]

  datatype Report = Report(chainOk: bool, attributionOk: bool, unattributed: nat)

  function Body(x: Export): Json {
    Parse(x.event.payload)
  }

  predicate Intact(sha: string -> string, x: Export) {
    Recomputes(sha, x.event) && !Body(x).Undefined?
  }

  predicate ColumnFits(x: Export, i: nat)
    requires i < 10
  {
    COLUMNS[i] in x.columns ==> Canon(OrNull(Member(Body(x), C.FIELDS[i]))) == Canon(OrNull(x.columns[COLUMNS[i]]))
  }

  predicate Attributed(x: Export) {
    C.IsSigned(Body(x)) ==> forall i :: 0 <= i < 10 ==> ColumnFits(x, i)
  }

  function Bodies(xs: seq<Export>): seq<Json> {
    seq(|xs|, i requires 0 <= i < |xs| => Body(xs[i]))
  }

  /** The loop over the events, with its two flags and its counter. */
  method CheckEvents(sha: string -> string, events: seq<Export>) returns (r: Report)
    ensures r.chainOk <==> forall x :: x in events ==> Intact(sha, x)
    ensures r.attributionOk <==> forall x :: x in events ==> Attributed(x)
    ensures r.unattributed == C.Unsigned(Bodies(events))
  {
    hide Parse, ColumnFits, C.IsSigned, Recomputes;
    var chainOk, attributionOk, unattributed := true, true, 0;
    for n := 0 to |events|
      invariant chainOk <==> forall k :: 0 <= k < n ==> Intact(sha, events[k])
      invariant attributionOk <==> forall k :: 0 <= k < n ==> Attributed(events[k])
      invariant unattributed == C.Unsigned(Bodies(events[..n]))
    {
      var e := events[n];
      assert Bodies(events[..n + 1])[..n] == Bodies(events[..n]);
      if !Recomputes(sha, e.event) {
        chainOk := false;
      }
      var body := Body(e);
      if body.Undefined? {
        chainOk := false;
      }
      if C.IsSigned(body) {
        ghost var before := attributionOk;
        for i := 0 to 10
          invariant attributionOk <==> before && forall j :: 0 <= j < i ==> ColumnFits(e, j)
        {
          if !ColumnFits(e, i) {
            attributionOk := false;
          }
        }
      } else {
        unattributed := unattributed + 1;
      }
    }
    assert events[..|events|] == events;
    r := Report(chainOk, attributionOk, unattributed);
  }

  // ----- What the check is worth --------------------------------------------------------------

  lemma LabelInjective(m: nat, n: nat, p: string, q: string)
    requires Label(m, p) == Label(n, q) && |p| == |q|
    ensures m == n && p == q
  {
    var x, y := Label(m, p), Label(n, q);
    assert p == x[|x| - |p|..] && q == y[|y| - |q|..];
    assert Decimal(m) == x[..|x| - |p| - 1] && Decimal(n) == y[..|y| - |q| - 1];
    DecimalInjective(m, n);
  }

  function Events(xs: seq<Export>): seq<Event> {
    seq(|xs|, i requires 0 <= i < |xs| => xs[i].event)
  }

  lemma {:induction false} ExportedMembers(es: seq<Event>, l: string)
    ensures l in Exported(es) <==> exists e :: e in es && Label(e.id, e.entryHash) == l
  {
    if es != [] {
      ExportedMembers(es[1..], l);
      assert es == [es[0]] + es[1..];
    }
  }

  lemma FindLabel(xs: seq<Export>, l: string) returns (x: Export)
    requires l in Exported(Events(xs))
    ensures x in xs && Label(x.event.id, x.event.entryHash) == l
  {
    ExportedMembers(Events(xs), l);
    var e :| e in Events(xs) && Label(e.id, e.entryHash) == l;
    var i :| 0 <= i < |xs| && Events(xs)[i] == e;
    x := xs[i];
  }

  ghost predicate ValueColumns(x: Export) {
    forall c :: c in x.columns ==> IsValue(OrNull(x.columns[c]))
  }

  /** One event exported twice: the same record, and the same content in every attribution column
      that both exports show. */
  ghost predicate SameExport(x: Export, y: Export) {
    && x.event.id == y.event.id && SameEvent(x.event, y.event)
    && (C.IsSigned(Body(x)) ==>
          forall i :: 0 <= i < 10 && COLUMNS[i] in x.columns && COLUMNS[i] in y.columns ==>
            Same(OrNull(x.columns[COLUMNS[i]]), OrNull(y.columns[COLUMNS[i]])))
  }

  lemma SameColumns(x: Export, y: Export)
    requires x.event.payload == y.event.payload && Attributed(x) && Attributed(y) && ValueColumns(x) && ValueColumns(y)
    requires C.IsSigned(Body(x))
    ensures forall i :: 0 <= i < 10 && COLUMNS[i] in x.columns && COLUMNS[i] in y.columns ==>
              Same(OrNull(x.columns[COLUMNS[i]]), OrNull(y.columns[COLUMNS[i]]))
  {
    hide Parse, Canon, IsValue, Same, C.IsSigned;
    forall i | 0 <= i < 10 && COLUMNS[i] in x.columns && COLUMNS[i] in y.columns
      ensures Same(OrNull(x.columns[COLUMNS[i]]), OrNull(y.columns[COLUMNS[i]]))
    {
      assert ColumnFits(x, i) && ColumnFits(y, i);
      CanonEquality(OrNull(x.columns[COLUMNS[i]]), OrNull(y.columns[COLUMNS[i]]));
    }
  }

  /** The events of a bundle pass both checks. */
  ghost predicate Checked(sha: string -> string, xs: seq<Export>) {
    forall x :: x in xs ==> Intact(sha, x) && Attributed(x) && ValueColumns(x)
  }

  lemma SameLabelSameExport(sha: string -> string, x: Export, y: Export)
    requires Intact(sha, x) && Intact(sha, y) && Attributed(x) && Attributed(y) && ValueColumns(x) && ValueColumns(y)
    requires MakesDigests(sha) && CollisionFree(sha, [x.event, y.event], Text) && WellShaped([x.event, y.event])
    requires Label(x.event.id, x.event.entryHash) == Label(y.event.id, y.event.entryHash)
    ensures SameExport(x, y)
  {
    assert IsDigest(sha(Text(x.event))) && IsDigest(sha(Text(y.event)));
    hide Parse, Attributed, ValueColumns, CollisionFree, WellShaped, MakesDigests, Label;
    LabelInjective(x.event.id, y.event.id, x.event.entryHash, y.event.entryHash);
    SameHashSameEvent(sha, x.event, y.event);
    if C.IsSigned(Body(x)) {
      SameColumns(x, y);
    }
  }

  /** Bundles whose events pass and that are anchored to one signed head with tails of one length
      export the same audit events: every event of one is in the other, with the same signed body
      and the same displayed attribution, and the draws have the same digests. */
  lemma AnchorPinsTheEvents(sha: string -> string, ckp: Checkpoint, a: Anchor, xs: seq<Export>, d: Digests,
                            b: Anchor, ys: seq<Export>, o: Digests)
    requires Anchored(sha, a, ckp, Events(xs), d) && Anchored(sha, b, ckp, Events(ys), o) && |a.tail| == |b.tail|
    requires Checked(sha, xs) && Checked(sha, ys) && MakesDigests(sha)
    requires CollisionFree(sha, a.tail + b.tail, Text) && WellShaped(a.tail + b.tail)
    requires CollisionFree(sha, Events(xs) + Events(ys), Text) && WellShaped(Events(xs) + Events(ys))
    ensures forall x :: x in xs ==> exists y :: y in ys && SameExport(x, y)
    ensures |xs| == |ys|
    ensures d.drawId == o.drawId && d.snapshotHash == o.snapshotHash && OrNull(d.outputHash) == OrNull(o.outputHash)
  {
    AnchorPinsTheExport(sha, ckp, a, Events(xs), d, b, Events(ys), o);
    ExportedLength(Events(xs));
    ExportedLength(Events(ys));
    assert |multiset(Exported(Events(xs)))| == |Exported(Events(xs))|;
    assert |multiset(Exported(Events(ys)))| == |Exported(Events(ys))|;
    hide Anchored, Parse, Intact, Attributed, ValueColumns, SameExport, MakesDigests;
    forall x | x in xs ensures exists y :: y in ys && SameExport(x, y) {
      var y := Counterpart(xs, ys, x);
      PairIsShaped(sha, xs, ys, x, y);
      SameLabelSameExport(sha, x, y);
    }
  }

  lemma {:induction false} ExportedLength(es: seq<Event>)
    ensures |Exported(es)| == |es|
  {
    if es != [] {
      ExportedLength(es[1..]);
    }
  }

  lemma Counterpart(xs: seq<Export>, ys: seq<Export>, x: Export) returns (y: Export)
    requires x in xs && multiset(Exported(Events(xs))) == multiset(Exported(Events(ys)))
    ensures y in ys && Label(x.event.id, x.event.entryHash) == Label(y.event.id, y.event.entryHash)
  {
    var l := Label(x.event.id, x.event.entryHash);
    var i :| 0 <= i < |xs| && xs[i] == x;
    assert Events(xs)[i] == x.event;
    ExportedMembers(Events(xs), l);
    assert l in multiset(Exported(Events(xs)));
    assert l in multiset(Exported(Events(ys)));
    y := FindLabel(ys, l);
  }

  lemma PairIsShaped(sha: string -> string, xs: seq<Export>, ys: seq<Export>, x: Export, y: Export)
    requires x in xs && y in ys
    requires CollisionFree(sha, Events(xs) + Events(ys), Text) && WellShaped(Events(xs) + Events(ys))
    ensures CollisionFree(sha, [x.event, y.event], Text) && WellShaped([x.event, y.event])
  {
    hide Parse, IsDigest;
    var i :| 0 <= i < |xs| && xs[i] == x;
    var j :| 0 <= j < |ys| && ys[j] == y;
    assert Events(xs)[i] == x.event && Events(ys)[j] == y.event;
    assert forall e :: e in [x.event, y.event] ==> e in Events(xs) + Events(ys);
  }
}
