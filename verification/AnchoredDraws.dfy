/** What the anchor to a signed head adds to a verified draw: one result, whatever was committed. */
module AnchoredDraws {
  import opened BundleAnchor
  import opened Draw
  import opened DrawBundle
  import opened Hashing
  import opened Json
  import opened JsonCanonical
  import opened JsonParser
  import F = DrawFairness
  import N = DrawNoReroll

  function DigestsOf(d: DrawRow): Digests {
    Digests(d.id, d.snapshotHash, Str(d.outputHash))
  }

  // ----- What the output digest is of -------------------------------------------------------

  /** The object that is hashed: the stored output, with an absent algorithm as an undefined entry. */
  function Hashed(b: Bundle): Json {
    if b.output.Obj? && b.draw.algorithm.Undefined? then Obj([Entry("algorithm", Undefined)] + b.output.fields)
    else b.output
  }

  lemma HashedIsRecomputed(b: Bundle, ordered: seq<Ticket>, sel: Selection, plan: Json)
    requires b.output == Stored(b.draw.algorithm, ordered, sel, plan)
    ensures Hashed(b) == Recomputed(b.draw.algorithm, ordered, sel, plan)
  {
    hide DrawnFields;
    assert [] + DrawnFields(ordered, sel, plan) == DrawnFields(ordered, sel, plan);
  }

  lemma RecomputedValue(algorithm: Json, ordered: seq<Ticket>, sel: Selection, plan: Json)
    requires IsPlain(plan) && (algorithm.Undefined? || IsPlain(algorithm))
    ensures IsValue(Recomputed(algorithm, ordered, sel, plan))
  {
    hide SequenceJson, WinnersJson, AlternatesJson, IsPlain;
    ListsPlain(ordered, sel);
    N.PlainIsValue(SequenceJson(ordered));
    N.PlainIsValue(WinnersJson(sel.winners));
    N.PlainIsValue(AlternatesJson(sel.alternates));
    N.PlainIsValue(plan);
    if !algorithm.Undefined? {
      N.PlainIsValue(algorithm);
    }
  }

  /** The output digest of a verified bundle is that of what it stores, an absent algorithm counted
      like null. */
  lemma OutputIsHashed(reader: Reader, sha: Hash, hmac: KeyedHash, b: Bundle)
    requires Readable(b) && Verified(reader, sha, hmac, b)
    ensures sha(Canon(Hashed(b))) == b.draw.outputHash
    ensures var cs, plan := ReadCandidates(reader, b.snapshot).value, ReadPlan(reader, b.snapshot).value;
            var ordered, sel := F.Ordered(hmac(b.seedHex), cs), F.Drawn(hmac(b.seedHex), cs, plan);
            && Hashed(b) == Recomputed(b.draw.algorithm, ordered, sel, Member(b.snapshot, "plan"))
            && IsValue(Hashed(b))
  {
    hide IsPlain, IsValue, Print, Canon, Recomputed, Stored, Written, Hashed, F.Ordered, F.Drawn, ReadCandidates,
         ReadPlan, Member, CodesValid, F.UniqueIds;
    var cs, plan := ReadCandidates(reader, b.snapshot).value, ReadPlan(reader, b.snapshot).value;
    var ordered, sel := F.Ordered(hmac(b.seedHex), cs), F.Drawn(hmac(b.seedHex), cs, plan);
    PlanPlain(reader, b.snapshot);
    StoredIsRecomputed(b.output, b.draw.algorithm, ordered, sel, Member(b.snapshot, "plan"));
    HashedIsRecomputed(b, ordered, sel, Member(b.snapshot, "plan"));
    RecomputedValue(b.draw.algorithm, ordered, sel, Member(b.snapshot, "plan"));
  }

  // ----- Equal digests, equal results --------------------------------------------------------

  lemma {:induction false} GetValue(fields: seq<Entry<Json>>, k: string)
    requires forall i :: 0 <= i < |fields| ==> IsValue(fields[i].value)
    ensures IsValue(Get(fields, k))
  {
    if fields != [] && fields[0].key != k {
      GetValue(fields[1..], k);
    }
  }

  /** Objects that are the same up to key order have the same members. */
  lemma MembersSame(v: Json, w: Json, k: string)
    requires v.Obj? && w.Obj? && IsValue(v) && IsValue(w) && Same(v, w)
    requires HasKey(v.fields, k) && HasKey(w.fields, k)
    ensures Same(Member(v, k), Member(w, k))
  {
    GetValue(v.fields, k);
    GetValue(w.fields, k);
    CanonEquality(v, w);
    hide Same, Canon, SortByKey, NormalizeFields, HasKey;
    N.GetNormalized(v.fields, k);
    N.GetNormalized(w.fields, k);
    NormalizesSame(Member(v, k), Member(w, k));
  }

  lemma SameSequence(a: seq<Ticket>, b: seq<Ticket>)
    requires Same(SequenceJson(a), SequenceJson(b))
    ensures SequenceJson(a) == SequenceJson(b)
  {
    var x, y := SequenceJson(a).items, SequenceJson(b).items;
    forall i | 0 <= i < |x| ensures x[i] == y[i] {
      assert Same(x[i], y[i]);
    }
  }

  lemma SameWinner(a: Winner, b: Winner)
    requires Same(WinnerJson(a), WinnerJson(b))
    ensures a == b
  {
    var v, w := WinnerJson(a), WinnerJson(b);
    WinnerMembers(a);
    WinnerMembers(b);
    hide WinnerJson, IsValue, HasKey;
    MembersSame(v, w, "position");
    MembersSame(v, w, "entryId");
    MembersSame(v, w, "participantId");
    MembersSame(v, w, "prize_code");
  }

  lemma WinnerMembers(a: Winner)
    ensures var v := WinnerJson(a);
            && v.Obj? && IsValue(v)
            && HasKey(v.fields, "position") && Member(v, "position") == Num(a.position)
            && HasKey(v.fields, "entryId") && Member(v, "entryId") == Str(a.entryId)
            && HasKey(v.fields, "participantId") && Member(v, "participantId") == Str(a.participantId)
            && HasKey(v.fields, "prize_code") && Member(v, "prize_code") == Str(a.prizeCode)
  {
    var fields := WinnerJson(a).fields;
    assert DistinctKeys(fields);
    hide HasKey;
    KeyIsThere(fields, 0);
    KeyIsThere(fields, 1);
    KeyIsThere(fields, 2);
    KeyIsThere(fields, 3);
  }

  lemma KeyIsThere(fields: seq<Entry<Json>>, i: nat)
    requires DistinctKeys(fields) && i < |fields|
    ensures HasKey(fields, fields[i].key) && Get(fields, fields[i].key) == fields[i].value
  {
    GetMember(fields, fields[i]);
  }

  lemma SameAlternate(a: Alternate, b: Alternate)
    requires Same(AlternateJson(a), AlternateJson(b))
    ensures a == b
  {
    var v, w := AlternateJson(a), AlternateJson(b);
    AlternateMembers(a);
    AlternateMembers(b);
    hide AlternateJson, IsValue, HasKey;
    MembersSame(v, w, "position");
    MembersSame(v, w, "entryId");
    MembersSame(v, w, "participantId");
  }

  lemma AlternateMembers(a: Alternate)
    ensures var v := AlternateJson(a);
            && v.Obj? && IsValue(v)
            && HasKey(v.fields, "position") && Member(v, "position") == Num(a.position)
            && HasKey(v.fields, "entryId") && Member(v, "entryId") == Str(a.entryId)
            && HasKey(v.fields, "participantId") && Member(v, "participantId") == Str(a.participantId)
  {
    var fields := AlternateJson(a).fields;
    assert DistinctKeys(fields);
    hide HasKey;
    KeyIsThere(fields, 0);
    KeyIsThere(fields, 1);
    KeyIsThere(fields, 2);
  }

  lemma SameLists(a: Selection, b: Selection)
    requires Same(WinnersJson(a.winners), WinnersJson(b.winners))
    requires Same(AlternatesJson(a.alternates), AlternatesJson(b.alternates))
    ensures a == b
  {
    hide WinnerJson, AlternateJson;
    var ws, vs := WinnersJson(a.winners).items, WinnersJson(b.winners).items;
    forall i | 0 <= i < |a.winners| ensures a.winners[i] == b.winners[i] {
      assert Same(ws[i], vs[i]);
      SameWinner(a.winners[i], b.winners[i]);
    }
    var xs, ys := AlternatesJson(a.alternates).items, AlternatesJson(b.alternates).items;
    forall i | 0 <= i < |a.alternates| ensures a.alternates[i] == b.alternates[i] {
      assert Same(xs[i], ys[i]);
      SameAlternate(a.alternates[i], b.alternates[i]);
    }
  }

  lemma RecomputedMembers(algorithm: Json, ordered: seq<Ticket>, sel: Selection, plan: Json)
    ensures var v := Recomputed(algorithm, ordered, sel, plan);
            && v.Obj?
            && HasKey(v.fields, "algorithm") && Member(v, "algorithm") == algorithm
            && HasKey(v.fields, "sequence") && Member(v, "sequence") == SequenceJson(ordered)
            && HasKey(v.fields, "winners") && Member(v, "winners") == WinnersJson(sel.winners)
            && HasKey(v.fields, "alternates") && Member(v, "alternates") == AlternatesJson(sel.alternates)
            && HasKey(v.fields, "plan") && Member(v, "plan") == plan
  {
    var fields := Recomputed(algorithm, ordered, sel, plan).fields;
    assert DistinctKeys(fields);
    hide HasKey, SequenceJson, WinnersJson, AlternatesJson;
    KeyIsThere(fields, 0);
    KeyIsThere(fields, 1);
    KeyIsThere(fields, 2);
    KeyIsThere(fields, 3);
    KeyIsThere(fields, 4);
  }

  /** Recomputed outputs that print alike hold one sequence and one selection. */
  lemma SameOutputs(algorithm: Json, ordered: seq<Ticket>, sel: Selection, plan: Json,
                    algorithm2: Json, ordered2: seq<Ticket>, sel2: Selection, plan2: Json)
    requires var v, w := Recomputed(algorithm, ordered, sel, plan), Recomputed(algorithm2, ordered2, sel2, plan2);
             IsValue(v) && IsValue(w) && Same(v, w)
    ensures SequenceJson(ordered) == SequenceJson(ordered2) && sel == sel2
    ensures Same(plan, plan2) && Same(algorithm, algorithm2)
  {
    hide IsValue, HasKey, Same, Recomputed, SequenceJson, WinnersJson, AlternatesJson, Member;
    var v, w := Recomputed(algorithm, ordered, sel, plan), Recomputed(algorithm2, ordered2, sel2, plan2);
    RecomputedMembers(algorithm, ordered, sel, plan);
    RecomputedMembers(algorithm2, ordered2, sel2, plan2);
    MembersSame(v, w, "algorithm");
    MembersSame(v, w, "sequence");
    MembersSame(v, w, "winners");
    MembersSame(v, w, "alternates");
    MembersSame(v, w, "plan");
    SameSequence(ordered, ordered2);
    SameLists(sel, sel2);
  }

  /** Two bundles that verify and are anchored to one signed head with tails of one length are of the
      same draw and have the same snapshot up to key order, and their stored outputs have the same
      sequence, winners and alternates. Their algorithms are the same too, if an absent one counts
      as null, as it does in the digest. Nothing is asked of their seed commitments. */
  lemma AnchoredDrawsAgree(reader: Reader, sha: Hash, hmac: KeyedHash, ckp: Checkpoint,
                           x: Bundle, a: Anchor, events: seq<Event>, y: Bundle, b: Anchor, others: seq<Event>)
    requires Readable(x) && Readable(y) && Verified(reader, sha, hmac, x) && Verified(reader, sha, hmac, y)
    requires Anchored(sha, a, ckp, events, DigestsOf(x.draw)) && Anchored(sha, b, ckp, others, DigestsOf(y.draw))
    requires |a.tail| == |b.tail| && CollisionFree(sha, a.tail + b.tail, Text) && WellShaped(a.tail + b.tail)
    requires sha(Canon(x.snapshot)) == sha(Canon(y.snapshot)) ==> Canon(x.snapshot) == Canon(y.snapshot)
    requires sha(Canon(Hashed(x))) == sha(Canon(Hashed(y))) ==> Canon(Hashed(x)) == Canon(Hashed(y))
    ensures x.draw.id == y.draw.id && Same(x.snapshot, y.snapshot)
    ensures Member(x.output, "sequence") == Member(y.output, "sequence")
    ensures Member(x.output, "winners") == Member(y.output, "winners")
    ensures Member(x.output, "alternates") == Member(y.output, "alternates")
    ensures Same(x.draw.algorithm, y.draw.algorithm)
  {
    hide IsPlain, IsValue, Print, Canon, Written, Hashed, Recomputed, ReadCandidates, ReadPlan, Member, CodesValid,
         F.UniqueIds, F.Ordered, F.Drawn, Same, Normalize, Anchored, CollisionFree, WellShaped, SameEvent,
         SequenceJson, WinnersJson, AlternatesJson;
    AnchorPinsTheExport(sha, ckp, a, events, DigestsOf(x.draw), b, others, DigestsOf(y.draw));
    N.PlainIsValue(x.snapshot);
    N.PlainIsValue(y.snapshot);
    CanonEquality(x.snapshot, y.snapshot);
    OutputIsHashed(reader, sha, hmac, x);
    OutputIsHashed(reader, sha, hmac, y);
    CanonEquality(Hashed(x), Hashed(y));
    N.VerifiedOutput(reader, sha, hmac, x);
    N.VerifiedOutput(reader, sha, hmac, y);
    var cs, plan := ReadCandidates(reader, x.snapshot).value, ReadPlan(reader, x.snapshot).value;
    var cs2, plan2 := ReadCandidates(reader, y.snapshot).value, ReadPlan(reader, y.snapshot).value;
    SameOutputs(x.draw.algorithm, F.Ordered(hmac(x.seedHex), cs), F.Drawn(hmac(x.seedHex), cs, plan),
                Member(x.snapshot, "plan"),
                y.draw.algorithm, F.Ordered(hmac(y.seedHex), cs2), F.Drawn(hmac(y.seedHex), cs2, plan2),
                Member(y.snapshot, "plan"));
  }
}
