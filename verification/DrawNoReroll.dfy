/** A verified draw cannot be re-rolled: the snapshot digest and the seed commitment leave one
    result, whatever else the bundle says. */
module DrawNoReroll {
  import opened Collections
  import opened Json
  import opened JsonCanonical
  import opened JsonParser
  import opened DrawBundle
  import D = Draw
  import F = DrawFairness

  /** Both absent, or equal up to key order. */
  ghost predicate Alike(v: Json, w: Json) {
    (v.Undefined? && w.Undefined?) || (IsPlain(v) && IsPlain(w) && Normalize(v) == Normalize(w))
  }

  lemma {:induction false} GetAbsent(fields: seq<Entry<Json>>, k: string)
    requires forall i :: 0 <= i < |fields| ==> fields[i].key != k
    ensures Get(fields, k) == Undefined
  {
    if fields != [] {
      GetAbsent(fields[1..], k);
    }
  }

  lemma FindField(fields: seq<Entry<Json>>, k: string) returns (e: Entry<Json>)
    requires HasKey(fields, k)
    ensures e in fields && e.key == k
  {
    var i :| 0 <= i < |fields| && fields[i].key == k;
    e := fields[i];
  }

  /** Looking a key up commutes with putting the object in canonical form. */
  lemma GetNormalized(fields: seq<Entry<Json>>, k: string)
    requires DistinctKeys(fields)
    ensures HasKey(fields, k) ==> Get(SortByKey(NormalizeFields(fields)), k) == Normalize(Get(fields, k))
    ensures !HasKey(fields, k) ==>
              Get(SortByKey(NormalizeFields(fields)), k) == Undefined && Get(fields, k) == Undefined
  {
    hide Normalize, SortByKey, NormalizeFields;
    var sorted := SortByKey(NormalizeFields(fields));
    SortedFields(fields);
    NormalizeFieldsAt(fields);
    if HasKey(fields, k) {
      var e := FindField(fields, k);
      GetMember(fields, e);
      var i :| 0 <= i < |fields| && fields[i] == e;
      assert NormalizeFields(fields)[i] == NormalizeEntry(e);
      GetMember(sorted, NormalizeEntry(e));
    } else {
      GetAbsent(fields, k);
      forall j | 0 <= j < |sorted| ensures sorted[j].key != k {
        assert sorted[j] in NormalizeFields(fields);
        var i :| 0 <= i < |fields| && NormalizeFields(fields)[i] == sorted[j];
        assert sorted[j].key == fields[i].key;
      }
      GetAbsent(sorted, k);
    }
  }

  lemma {:induction false} GetDefined(fields: seq<Entry<Json>>, k: string)
    requires HasKey(fields, k) && forall i :: 0 <= i < |fields| ==> IsPlain(fields[i].value)
    ensures !Get(fields, k).Undefined?
  {
    if fields[0].key != k {
      var i :| 0 <= i < |fields| && fields[i].key == k;
      assert fields[1..][i - 1].key == k;
      GetDefined(fields[1..], k);
    }
  }

  lemma NeverUndefined(v: Json)
    ensures !Normalize(v).Undefined?
  {
  }

  lemma MembersAlike(v: Json, w: Json, k: string)
    requires Alike(v, w)
    ensures Alike(Member(v, k), Member(w, k))
  {
    if v.Obj? && w.Obj? {
      GetNormalized(v.fields, k);
      GetNormalized(w.fields, k);
      MemberPlain(v, k);
      MemberPlain(w, k);
      NeverUndefined(Get(v.fields, k));
      NeverUndefined(Get(w.fields, k));
      if HasKey(v.fields, k) {
        GetDefined(v.fields, k);
      }
      if HasKey(w.fields, k) {
        GetDefined(w.fields, k);
      }
    }
  }

  /** Every reader of JavaScript's making is like this: it sees values, not the order of keys. */
  ghost predicate IgnoresKeyOrder(reader: Reader) {
    forall v, w :: Alike(v, w) ==>
      && reader.text(v) == reader.text(w) && reader.weight(v) == reader.weight(w)
      && reader.count(v) == reader.count(w) && reader.total(v) == reader.total(w) && reader.flag(v) == reader.flag(w)
  }

  lemma StrictIgnoresKeyOrder()
    ensures IgnoresKeyOrder(STRICT)
  {
  }

  lemma CandidatesAlike(reader: Reader, v: Json, w: Json)
    requires IgnoresKeyOrder(reader) && Alike(v, w)
    ensures ReadCandidate(reader, v) == ReadCandidate(reader, w)
  {
    hide Alike, Member;
    MembersAlike(v, w, "entryId");
    MembersAlike(v, w, "participantId");
    MembersAlike(v, w, "weightUnits");
  }

  lemma TiersAlike(reader: Reader, v: Json, w: Json)
    requires IgnoresKeyOrder(reader) && Alike(v, w)
    ensures ReadTier(reader, v) == ReadTier(reader, w)
  {
    hide Alike, Member;
    MembersAlike(v, w, "code");
    MembersAlike(v, w, "count");
  }

  lemma {:induction false} AllAlike<T>(a: seq<Json>, b: seq<Json>, read: Json -> Option<T>)
    requires |a| == |b| && forall i :: 0 <= i < |a| ==> read(a[i]) == read(b[i])
    ensures ReadAll(a, read) == ReadAll(b, read)
  {
    if a != [] {
      AllAlike(a[..|a| - 1], b[..|b| - 1], read);
    }
  }

  lemma ItemsAlike(v: Json, w: Json)
    requires Alike(v, w) && v.Arr?
    ensures w.Arr? && |v.items| == |w.items| && forall i :: 0 <= i < |v.items| ==> Alike(v.items[i], w.items[i])
  {
    NormalizeItemsAt(v.items);
    NormalizeItemsAt(w.items);
    forall i | 0 <= i < |v.items| ensures Alike(v.items[i], w.items[i]) {
      assert Normalize(v.items[i]) == NormalizeItems(v.items)[i];
    }
  }

  lemma ListsAlike<T>(v: Json, w: Json, read: Json -> Option<T>)
    requires Alike(v, w) && forall x, y :: Alike(x, y) ==> read(x) == read(y)
    ensures ReadList(v, read) == ReadList(w, read)
  {
    if v.Arr? {
      ItemsAlike(v, w);
      AllAlike(v.items, w.items, read);
    } else {
      assert !w.Arr?;
    }
  }

  lemma PlansAlike(reader: Reader, p: Json, q: Json)
    requires IgnoresKeyOrder(reader) && Alike(p, q)
    ensures ReadTiers(reader, p) == ReadTiers(reader, q)
    ensures reader.total(Member(p, "totalWinners")) == reader.total(Member(q, "totalWinners"))
    ensures reader.total(Member(p, "totalAlternates")) == reader.total(Member(q, "totalAlternates"))
    ensures reader.flag(Member(p, "onePrizePerParticipant")) == reader.flag(Member(q, "onePrizePerParticipant"))
  {
    hide Alike, Member, ReadTier, ReadList;
    MembersAlike(p, q, "tiers");
    MembersAlike(p, q, "totalWinners");
    MembersAlike(p, q, "totalAlternates");
    MembersAlike(p, q, "onePrizePerParticipant");
    var read := v => ReadTier(reader, v);
    forall x, y | Alike(x, y) ensures read(x) == read(y) {
      TiersAlike(reader, x, y);
    }
    ListsAlike(Member(p, "tiers"), Member(q, "tiers"), read);
  }

  /** Snapshots that are equal up to key order give the same candidates and the same plan, whatever
      conversions the reader makes. */
  lemma SnapshotsAlike(reader: Reader, v: Json, w: Json)
    requires IgnoresKeyOrder(reader) && Alike(v, w)
    ensures ReadCandidates(reader, v) == ReadCandidates(reader, w) && ReadPlan(reader, v) == ReadPlan(reader, w)
  {
    hide Alike, Member, ReadCandidate, ReadTiers, ReadList;
    MembersAlike(v, w, "candidates");
    MembersAlike(v, w, "plan");
    PlansAlike(reader, Member(v, "plan"), Member(w, "plan"));
    var read := x => ReadCandidate(reader, x);
    forall x, y | Alike(x, y) ensures read(x) == read(y) {
      CandidatesAlike(reader, x, y);
    }
    ListsAlike(Member(v, "candidates"), Member(w, "candidates"), read);
  }

  lemma {:induction false} PlainIsValue(v: Json)
    requires IsPlain(v)
    ensures IsValue(v)
  {
    match v
    case Arr(items) =>
      forall i | 0 <= i < |items| ensures IsValue(items[i]) {
        PlainIsValue(items[i]);
      }
    case Obj(fields) =>
      forall i | 0 <= i < |fields| ensures IsValue(fields[i].value) {
        PlainIsValue(fields[i].value);
      }
    case _ =>
  }

  /** The stored result of a verified bundle. */
  lemma VerifiedOutput(reader: Reader, sha: Hash, hmac: KeyedHash, b: Bundle)
    requires Readable(b) && Verified(reader, sha, hmac, b)
    ensures ReadCandidates(reader, b.snapshot).Some? && ReadPlan(reader, b.snapshot).Some?
    ensures var (cs, plan) := (ReadCandidates(reader, b.snapshot).value, ReadPlan(reader, b.snapshot).value);
            var (ordered, sel) := (F.Ordered(hmac(b.seedHex), cs), F.Drawn(hmac(b.seedHex), cs, plan));
            && Member(b.output, "sequence") == SequenceJson(ordered)
            && Member(b.output, "winners") == WinnersJson(sel.winners)
            && Member(b.output, "alternates") == AlternatesJson(sel.alternates)
  {
    hide IsPlain, Print, Canon, Recomputed, Stored, Written, F.Ordered, F.Drawn, ReadCandidates, ReadPlan, Member,
         CodesValid, F.UniqueIds;
    var cs, plan := ReadCandidates(reader, b.snapshot).value, ReadPlan(reader, b.snapshot).value;
    PlanPlain(reader, b.snapshot);
    var ordered, sel := F.Ordered(hmac(b.seedHex), cs), F.Drawn(hmac(b.seedHex), cs, plan);
    StoredIsRecomputed(b.output, b.draw.algorithm, ordered, sel, Member(b.snapshot, "plan"));
  }

  /** No re-roll: executed bundles that verify with the same snapshot digest and the same seed
      commitment carry the same snapshot up to key order, the same seed, and the same stored
      sequence, winners and alternates, unless two of the four strings hashed here collide. */
  lemma NoReroll(reader: Reader, sha: Hash, hmac: KeyedHash, a: Bundle, b: Bundle)
    requires IgnoresKeyOrder(reader) && Readable(a) && Readable(b)
    requires Verified(reader, sha, hmac, a) && Verified(reader, sha, hmac, b)
    requires a.draw.snapshotHash == b.draw.snapshotHash && a.draw.seedCommitment == b.draw.seedCommitment
    requires sha(Canon(a.snapshot)) == sha(Canon(b.snapshot)) ==> Canon(a.snapshot) == Canon(b.snapshot)
    requires sha(a.seedHex) == sha(b.seedHex) ==> a.seedHex == b.seedHex
    ensures Same(a.snapshot, b.snapshot) && a.seedHex == b.seedHex
    ensures Member(a.output, "sequence") == Member(b.output, "sequence")
    ensures Member(a.output, "winners") == Member(b.output, "winners")
    ensures Member(a.output, "alternates") == Member(b.output, "alternates")
  {
    hide IsPlain, IsValue, Print, Canon, OutputOf, F.Ordered, F.Drawn, ReadCandidates, ReadPlan, Member, CodesValid,
         F.UniqueIds, Same, Normalize;
    PlainIsValue(a.snapshot);
    PlainIsValue(b.snapshot);
    CanonEquality(a.snapshot, b.snapshot);
    SnapshotsAlike(reader, a.snapshot, b.snapshot);
    VerifiedOutput(reader, sha, hmac, a);
    VerifiedOutput(reader, sha, hmac, b);
  }

  // ----- The hypotheses can be met --------------------------------------------------------------------

  const SAMPLE_CANDIDATE := Obj([Entry("entryId", Str("e")), Entry("participantId", Str("q"))])
  const SAMPLE_TIER := Obj([Entry("code", Str("P1")), Entry("count", Num(1))])
  const SAMPLE_PLAN := Obj([Entry("tiers", Arr([SAMPLE_TIER])), Entry("totalWinners", Num(1)),
                            Entry("totalAlternates", Num(0))])
  const SAMPLE_SNAPSHOT := Obj([Entry("drawId", Str("d")), Entry("periodCode", Str("w1")),
                                Entry("candidates", Arr([SAMPLE_CANDIDATE])), Entry("plan", SAMPLE_PLAN)])
  const SAMPLE_SEED := seq(64, _ => 'a')

  lemma SampleCandidateRead()
    ensures ReadCandidate(STRICT, SAMPLE_CANDIDATE) == Some(D.Candidate("e", "q", 0))
  {
    var fields := SAMPLE_CANDIDATE.fields;
    GetMember(fields, fields[0]);
    GetMember(fields, fields[1]);
    GetAbsent(fields, "weightUnits");
  }

  lemma SampleTierRead()
    ensures ReadTier(STRICT, SAMPLE_TIER) == Some(D.Tier("P1", 1))
  {
    var fields := SAMPLE_TIER.fields;
    GetMember(fields, fields[0]);
    GetMember(fields, fields[1]);
  }

  lemma OneRead<T>(item: Json, read: Json -> Option<T>)
    requires read(item).Some?
    ensures ReadList(Arr([item]), read) == Some([read(item).value])
  {
    var none: seq<T> := [];
    assert [item][..0] == [];
    assert ReadAll([item][..0], read) == Some(none);
    assert none + [read(item).value] == [read(item).value];
    assert ReadAll([item], read) == Some(none + [read(item).value]);
  }

  lemma SampleRead()
    ensures ReadCandidates(STRICT, SAMPLE_SNAPSHOT) == Some([D.Candidate("e", "q", 0)])
    ensures ReadPlan(STRICT, SAMPLE_SNAPSHOT) == Some(D.Plan([D.Tier("P1", 1)], 1, 0, false))
  {
    SampleMembers();
    SampleCandidateRead();
    SampleTierRead();
    hide Member, ReadCandidate, ReadTier;
    OneRead(SAMPLE_CANDIDATE, v => ReadCandidate(STRICT, v));
    OneRead(SAMPLE_TIER, v => ReadTier(STRICT, v));
  }

  lemma SampleMembers()
    ensures Member(SAMPLE_SNAPSHOT, "candidates") == Arr([SAMPLE_CANDIDATE])
    ensures Member(SAMPLE_SNAPSHOT, "plan") == SAMPLE_PLAN
    ensures Member(SAMPLE_PLAN, "tiers") == Arr([SAMPLE_TIER]) && Member(SAMPLE_PLAN, "totalWinners") == Num(1)
    ensures Member(SAMPLE_PLAN, "totalAlternates") == Num(0)
    ensures Member(SAMPLE_PLAN, "onePrizePerParticipant") == Undefined
  {
    var fields, plan := SAMPLE_SNAPSHOT.fields, SAMPLE_PLAN.fields;
    GetMember(fields, fields[2]);
    GetMember(fields, fields[3]);
    GetMember(plan, plan[0]);
    GetMember(plan, plan[1]);
    GetMember(plan, plan[2]);
    GetAbsent(plan, "onePrizePerParticipant");
  }

  /** A draw with one entry and one prize, read without conversions, meets what NoReroll asks. */
  lemma SampleVerifies(sha: Hash, hmac: KeyedHash)
    requires sha(SAMPLE_SEED) != ""
    ensures var cs, plan := [D.Candidate("e", "q", 0)], D.Plan([D.Tier("P1", 1)], 1, 0, false);
            var b := HonestBundle(sha, hmac, SAMPLE_SNAPSHOT, "d", "w1", Str("hmac"), SAMPLE_SEED, cs, plan);
            IgnoresKeyOrder(STRICT) && Readable(b) && Verified(STRICT, sha, hmac, b)
  {
    var cs, plan := [D.Candidate("e", "q", 0)], D.Plan([D.Tier("P1", 1)], 1, 0, false);
    var fields := SAMPLE_SNAPSHOT.fields;
    StrictIgnoresKeyOrder();
    SampleRead();
    SampleIsPlain();
    GetMember(fields, fields[0]);
    GetMember(fields, fields[1]);
    GetAbsent(fields, "candidateRulesVersions");
    assert D.Cumulative(plan.tiers, 1) == D.Cumulative(plan.tiers, 0) + 1;
    hide Verified, ReadCandidates, ReadPlan, Readable, IsPlain, IgnoresKeyOrder;
    assert IsPlain(Str("hmac")) by {
      TextIsPlain("hmac");
    }
    HonestBundleVerifies(STRICT, sha, hmac, SAMPLE_SNAPSHOT, "d", "w1", Str("hmac"), SAMPLE_SEED, cs, plan);
  }

  lemma TextIsPlain(s: string)
    ensures IsPlain(Str(s))
  {
  }

  lemma SamplePlanIsPlain()
    ensures IsPlain(SAMPLE_PLAN)
  {
    assert IsPlain(SAMPLE_TIER);
    assert IsPlain(Arr([SAMPLE_TIER]));
  }

  lemma SampleIsPlain()
    ensures IsPlain(SAMPLE_SNAPSHOT)
  {
    assert IsPlain(SAMPLE_CANDIDATE);
    SamplePlanIsPlain();
    assert IsPlain(Arr([SAMPLE_CANDIDATE]));
  }
}
