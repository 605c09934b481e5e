/** The keyed part of the bundle check: the exported audit events are tied, through a tail of the
    audit chain, to the head that the signed checkpoint covers. */
module BundleAnchor {
  import opened Collections
  import opened Conversions
  import opened Hashing
  import opened Strings
  import opened Json
  import opened JsonParser
  import H = AuditHistory

  /** An exported audit event, reduced to its chain columns. */
  datatype Event = Event(id: nat, prevHash: string, entryHash: string, payload: string)
  datatype Checkpoint = Checkpoint(uptoId: nat, headHash: string)
  datatype Anchor = Anchor(manifestEventId: nat, tail: seq<Event>)
  datatype Digests = Digests(drawId: string, snapshotHash: string, outputHash: Json)

  function Text(e: Event): string {
    e.prevHash + e.payload
  }

  predicate Recomputes(sha: string -> string, e: Event) {
    sha(Text(e)) == e.entryHash
  }

  // ----- The manifest ----------------------------------------------------------------------

  function Label(id: nat, entryHash: string): string {
    Decimal(id) + ":" + entryHash
  }

  function Listed(items: seq<Json>): seq<string> {
    if items == [] then []
    else [ToText(Member(items[0], "id")) + ":" + ToText(Member(items[0], "entryHash"))] + Listed(items[1..])
  }

  function Exported(events: seq<Event>): seq<string> {
    if events == [] then [] else [Label(events[0].id, events[0].entryHash)] + Exported(events[1..])
  }

  /** A missing value counts as null. */
  function OrNull(v: Json): Json {
    if v.Undefined? then Null else v
  }

  /** A list of events that can be read: it may be missing, but not be anything else, nor hold a null. */
  predicate IsEventList(v: Json) {
    if v.Arr? then Null !in v.items else !Truthy(v)
  }

  /** The manifest is this draw's export record. */
  predicate IsManifestOf(man: Json, d: Digests) {
    man.Obj? && Member(man, "action") == Str("draw.bundle_exported") && Member(man, "targetId") == Str(d.drawId)
  }

  function EventList(man: Json): Json {
    Member(Member(man, "payload"), "events")
  }

  /** It lists exactly the exported events and carries the draw's digests. */
  predicate ListsExport(man: Json, events: seq<Event>, d: Digests) {
    var p, items := Member(man, "payload"), EventList(man);
    && SortTexts(Listed(if items.Arr? then items.items else [])) == SortTexts(Exported(events))
    && Member(p, "snapshotHash") == Str(d.snapshotHash) && OrNull(Member(p, "outputHash")) == OrNull(d.outputHash)
  }

  predicate ManifestFits(man: Json, events: seq<Event>, d: Digests) {
    IsManifestOf(man, d) && IsEventList(EventList(man)) && ListsExport(man, events, d)
  }

  // ----- The check ---------------------------------------------------------------------------

  predicate Chained(sha: string -> string, tail: seq<Event>) {
    && (forall i :: 0 <= i < |tail| ==> Recomputes(sha, tail[i]))
    && (forall i :: 0 < i < |tail| ==> tail[i].prevHash == tail[i - 1].entryHash)
  }

  /** The tail leads from the named event to the signed head. */
  predicate TailFits(sha: string -> string, a: Anchor, ckp: Checkpoint) {
    && a.tail != []
    && Chained(sha, a.tail)
    && a.tail[|a.tail| - 1].entryHash == ckp.headHash && a.tail[|a.tail| - 1].id == ckp.uptoId
    && a.tail[0].id == a.manifestEventId
  }

  predicate Anchored(sha: string -> string, a: Anchor, ckp: Checkpoint, events: seq<Event>, d: Digests) {
    TailFits(sha, a, ckp) && ManifestFits(Parse(a.tail[0].payload), events, d)
  }

  /** The anchor check, with its flag and its early exits; None when it ends in an exception, because
      the manifest's events are no list that can be read. */
  method CheckAnchor(sha: string -> string, a: Anchor, ckp: Checkpoint, events: seq<Event>, d: Digests)
    returns (r: Option<bool>)
    ensures r == Some(true) <==> Anchored(sha, a, ckp, events, d)
    ensures r == None <==>
              TailFits(sha, a, ckp)
              && var man := Parse(a.tail[0].payload); IsManifestOf(man, d) && !IsEventList(EventList(man))
  {
    hide IsManifestOf, IsEventList, ListsExport, Parse;
    var tail := a.tail;
    var anchorOk := tail != [];
    if anchorOk {
      var i := 0;
      while i < |tail|
        invariant 0 <= i <= |tail|
        invariant anchorOk ==> Chained(sha, tail[..i])
        invariant !anchorOk ==> !Chained(sha, tail)
      {
        var e := tail[i];
        if sha(e.prevHash + e.payload) != e.entryHash {
          assert !Recomputes(sha, tail[i]);
          anchorOk := false;
          break;
        }
        if i > 0 && e.prevHash != tail[i - 1].entryHash {
          anchorOk := false;
          break;
        }
        i := i + 1;
      }
      assert anchorOk ==> tail[..i] == tail;
    }
    if anchorOk && (tail[|tail| - 1].entryHash != ckp.headHash || tail[|tail| - 1].id != ckp.uptoId) {
      anchorOk := false;
    }
    if anchorOk && tail[0].id != a.manifestEventId {
      anchorOk := false;
    }
    if anchorOk {
      var man := Parse(tail[0].payload);
      if !IsManifestOf(man, d) {
        anchorOk := false;
      } else if !IsEventList(EventList(man)) {
        return None;
      } else if !ListsExport(man, events, d) {
        anchorOk := false;
      }
    }
    r := Some(anchorOk);
  }

  // ----- What an anchored bundle pins -----------------------------------------------------------

  /** Every previous hash is empty or a digest, and every body is a JSON object. */
  ghost predicate WellShaped(es: seq<Event>) {
    forall e :: e in es ==> (e.prevHash == "" || IsDigest(e.prevHash)) && Parse(e.payload).Obj?
  }

  ghost predicate SameEvent(e: Event, f: Event) {
    e.prevHash == f.prevHash && e.payload == f.payload && e.entryHash == f.entryHash
  }

  lemma SameHashSameEvent(sha: string -> string, e: Event, f: Event)
    requires Recomputes(sha, e) && Recomputes(sha, f) && CollisionFree(sha, [e, f], Text) && WellShaped([e, f])
    requires e.entryHash == f.entryHash
    ensures SameEvent(e, f)
  {
    hide Parse, IsDigest;
    assert e in [e, f] && f in [e, f];
    H.SplitIsUnique(e.prevHash, e.payload, f.prevHash, f.payload);
  }

  /** Chained tails with one head agree backwards from it, for as long as both go. */
  lemma {:induction false} TailsAgree(sha: string -> string, s: seq<Event>, t: seq<Event>, all: seq<Event>, k: nat)
    requires Chained(sha, s) && Chained(sha, t) && s != [] && t != []
    requires (forall e :: e in s ==> e in all) && forall e :: e in t ==> e in all
    requires CollisionFree(sha, all, Text) && WellShaped(all)
    requires s[|s| - 1].entryHash == t[|t| - 1].entryHash
    requires k < |s| && k < |t|
    ensures SameEvent(s[|s| - 1 - k], t[|t| - 1 - k])
  {
    hide Parse, IsDigest, Recomputes;
    var e, f := s[|s| - 1 - k], t[|t| - 1 - k];
    assert e in s && f in t;
    if k > 0 {
      TailsAgree(sha, s, t, all, k - 1);
      assert s[|s| - k].prevHash == e.entryHash && t[|t| - k].prevHash == f.entryHash;
    }
    assert forall x :: x in [e, f] ==> x in all;
    SameHashSameEvent(sha, e, f);
  }

  /** Two bundles anchored to the same signed head with tails of the same length were exported
      under the same manifest: the tails agree event by event, the exported events are the same,
      and so are the draw and its digests. */
  lemma AnchorPinsTheExport(sha: string -> string, ckp: Checkpoint, a: Anchor, events: seq<Event>, d: Digests,
                            b: Anchor, others: seq<Event>, o: Digests)
    requires Anchored(sha, a, ckp, events, d) && Anchored(sha, b, ckp, others, o)
    requires |a.tail| == |b.tail| && CollisionFree(sha, a.tail + b.tail, Text) && WellShaped(a.tail + b.tail)
    ensures forall i :: 0 <= i < |a.tail| ==> SameEvent(a.tail[i], b.tail[i])
    ensures multiset(Exported(events)) == multiset(Exported(others))
    ensures d.drawId == o.drawId && d.snapshotHash == o.snapshotHash && OrNull(d.outputHash) == OrNull(o.outputHash)
  {
    hide CollisionFree, WellShaped, Chained, Parse, Listed;
    forall i | 0 <= i < |a.tail| ensures SameEvent(a.tail[i], b.tail[i]) {
      TailsAgree(sha, a.tail, b.tail, a.tail + b.tail, |a.tail| - 1 - i);
    }
    assert SameEvent(a.tail[0], b.tail[0]);
    SortedAlike(Exported(events), Exported(others));
  }
}
