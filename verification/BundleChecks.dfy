/** What a verified bundle says, check by check, and how snapshots are read. */
module BundleChecks {
  import opened BundleAnchor
  import opened BundleEvents
  import opened Collections
  import opened Draw
  import opened DrawBundle
  import opened Json
  import opened JsonCanonical
  import opened JsonParser
  import C = AuditChain
  import F = DrawFairness

  /** A verified bundle is of the version that is verified; its snapshot has the recorded digest and
      names the draw and its period, and lists no entry twice; its seed is long enough and the
      committed one; its recomputed output has the recorded digest and is the stored one; its plan
      awards prizes, and every prize code is that of a tier. */
  lemma VerifiedMeans(reader: Reader, sha: Hash, hmac: KeyedHash, b: Bundle)
    requires Readable(b) && Verified(reader, sha, hmac, b)
    ensures b.version == "draw-verifier/2"
    ensures sha(Canon(b.snapshot)) == b.draw.snapshotHash
    ensures Member(b.snapshot, "drawId") == Str(b.draw.id) && Member(b.snapshot, "periodCode") == Str(b.draw.period)
    ensures |b.seedHex| >= 32 && b.draw.seedCommitment != "" && sha(b.seedHex) == b.draw.seedCommitment
    ensures ReadCandidates(reader, b.snapshot).Some? && ReadPlan(reader, b.snapshot).Some?
    ensures var cs, plan := ReadCandidates(reader, b.snapshot).value, ReadPlan(reader, b.snapshot).value;
            var sel := F.Drawn(hmac(b.seedHex), cs, plan);
            && (forall i, j :: 0 <= i < j < |cs| ==> cs[i].entryId != cs[j].entryId)
            && RulesDisclosed(reader, b.snapshot, |cs|)
            && sha(Canon(OutputOf(hmac, b, cs, plan))) == b.draw.outputHash
            && b.output == Written(OutputOf(hmac, b, cs, plan))
            && 0 < plan.totalWinners && |sel.winners| <= plan.totalWinners && |sel.alternates| <= plan.totalAlternates
            && (forall w :: w in sel.winners ==> exists t :: t in plan.tiers && t.code == w.prizeCode)
            && (forall w :: w in sel.winners ==> exists c :: c in cs && c.entryId == w.entryId)
  {
    hide Canon, Print, Written, Recomputed, Stored, IsPlain, F.Ordered, F.Drawn, ReadCandidates, ReadPlan,
         RulesDisclosed, Member;
    var cs, plan := ReadCandidates(reader, b.snapshot).value, ReadPlan(reader, b.snapshot).value;
    var ordered, sel := F.Ordered(hmac(b.seedHex), cs), F.Drawn(hmac(b.seedHex), cs, plan);
    DrawnIsProper(hmac(b.seedHex), cs, plan);
    PlanPlain(reader, b.snapshot);
    StoredIsRecomputed(b.output, b.draw.algorithm, ordered, sel, Member(b.snapshot, "plan"));
    WrittenIsStored(b.draw.algorithm, ordered, sel, Member(b.snapshot, "plan"));
  }

  // ----- Rules versions ----------------------------------------------------------------------

  function Sum(counts: seq<int>): int {
    if counts == [] then 0 else Sum(counts[..|counts| - 1]) + counts[|counts| - 1]
  }

  function Disclosures(counts: seq<int>): seq<Json> {
    seq(|counts|, i requires 0 <= i < |counts| => Obj([Entry("entries", Num(counts[i]))]))
  }

  lemma {:induction false} DisclosedSum(counts: seq<int>)
    ensures DisclosedEntries(STRICT, Disclosures(counts)) == Some(Sum(counts))
  {
    if counts != [] {
      var items, n := Disclosures(counts), |counts| - 1;
      assert items[..n] == Disclosures(counts[..n]);
      DisclosedSum(counts[..n]);
      assert Member(items[n], "entries") == Num(counts[n]);
    }
  }

  /** A disclosed list of rules versions passes exactly when its entries add up to the candidates. */
  lemma RulesDisclosedIff(snapshot: Json, counts: seq<int>, candidates: nat)
    requires Member(snapshot, "candidateRulesVersions") == Arr(Disclosures(counts))
    ensures RulesDisclosed(STRICT, snapshot, candidates) <==> Sum(counts) == candidates
  {
    hide Member, Disclosures;
    DisclosedSum(counts);
  }

  // ----- Reading a snapshot back ------------------------------------------------------------------

  function CandidateJson(c: Candidate): Json {
    Obj([Entry("entryId", Str(c.entryId)), Entry("participantId", Str(c.participantId)),
         Entry("weightUnits", Num(c.weightUnits))])
  }

  function TierJson(t: Tier): Json {
    Obj([Entry("code", Str(t.code)), Entry("count", Num(t.count))])
  }

  function CandidatesJson(cs: seq<Candidate>): seq<Json> {
    seq(|cs|, i requires 0 <= i < |cs| => CandidateJson(cs[i]))
  }

  function TiersJson(ts: seq<Tier>): seq<Json> {
    seq(|ts|, i requires 0 <= i < |ts| => TierJson(ts[i]))
  }

  function PlanJson(p: Plan): Json {
    Obj([Entry("tiers", Arr(TiersJson(p.tiers))), Entry("totalWinners", Num(p.totalWinners)),
         Entry("totalAlternates", Num(p.totalAlternates)),
         Entry("onePrizePerParticipant", Bool(p.onePrizePerParticipant))])
  }

  function SnapshotJson(cs: seq<Candidate>, p: Plan): Json {
    Obj([Entry("candidates", Arr(CandidatesJson(cs))), Entry("plan", PlanJson(p))])
  }

  lemma CandidateReadsBack(c: Candidate)
    ensures ReadCandidate(STRICT, CandidateJson(c)) == Some(c)
  {
    var fields := CandidateJson(c).fields;
    GetMember(fields, fields[0]);
    GetMember(fields, fields[1]);
    GetMember(fields, fields[2]);
  }

  lemma TierReadsBack(t: Tier)
    ensures ReadTier(STRICT, TierJson(t)) == Some(t)
  {
    var fields := TierJson(t).fields;
    GetMember(fields, fields[0]);
    GetMember(fields, fields[1]);
  }

  lemma {:induction false} AllReadBack<T>(items: seq<Json>, values: seq<T>, read: Json -> Option<T>)
    requires |items| == |values| && forall i :: 0 <= i < |items| ==> read(items[i]) == Some(values[i])
    ensures ReadAll(items, read) == Some(values)
  {
    if items == [] {
      assert values == [];
    } else {
      var n := |items| - 1;
      AllReadBack(items[..n], values[..n], read);
      assert values == values[..n] + [values[n]];
    }
  }

  lemma SnapshotMembers(cs: seq<Candidate>, p: Plan)
    ensures Member(SnapshotJson(cs, p), "candidates") == Arr(CandidatesJson(cs))
    ensures Member(SnapshotJson(cs, p), "plan") == PlanJson(p)
    ensures Member(PlanJson(p), "tiers") == Arr(TiersJson(p.tiers))
    ensures Member(PlanJson(p), "totalWinners") == Num(p.totalWinners)
    ensures Member(PlanJson(p), "totalAlternates") == Num(p.totalAlternates)
    ensures Member(PlanJson(p), "onePrizePerParticipant") == Bool(p.onePrizePerParticipant)
  {
    hide CandidatesJson, TiersJson;
    var fields, plan := SnapshotJson(cs, p).fields, PlanJson(p).fields;
    GetMember(fields, fields[0]);
    GetMember(fields, fields[1]);
    GetMember(plan, plan[0]);
    GetMember(plan, plan[1]);
    GetMember(plan, plan[2]);
    GetMember(plan, plan[3]);
  }

  /** Candidates and plan are read from a snapshot as they were written into it. */
  lemma SnapshotReadsBack(cs: seq<Candidate>, p: Plan)
    ensures ReadCandidates(STRICT, SnapshotJson(cs, p)) == Some(cs)
    ensures ReadPlan(STRICT, SnapshotJson(cs, p)) == Some(p)
  {
    SnapshotMembers(cs, p);
    hide Member, CandidateJson, TierJson, SnapshotJson, PlanJson, ReadAll;
    var readCandidate, readTier := v => ReadCandidate(STRICT, v), v => ReadTier(STRICT, v);
    forall i | 0 <= i < |cs| ensures readCandidate(CandidatesJson(cs)[i]) == Some(cs[i]) {
      CandidateReadsBack(cs[i]);
    }
    forall i | 0 <= i < |p.tiers| ensures readTier(TiersJson(p.tiers)[i]) == Some(p.tiers[i]) {
      TierReadsBack(p.tiers[i]);
    }
    AllReadBack(CandidatesJson(cs), cs, readCandidate);
    AllReadBack(TiersJson(p.tiers), p.tiers, readTier);
  }

  // ----- The anchor, check by check ------------------------------------------------------------------

  /** An anchored tail recomputes, is linked, ends at the signed row and head, and starts at the named
      record, which is the export record of this draw. */
  lemma AnchoredMeans(sha: string -> string, a: Anchor, ckp: Checkpoint, events: seq<Event>, d: Digests)
    requires Anchored(sha, a, ckp, events, d)
    ensures a.tail != [] && a.tail[0].id == a.manifestEventId
    ensures forall i :: 0 <= i < |a.tail| ==> sha(a.tail[i].prevHash + a.tail[i].payload) == a.tail[i].entryHash
    ensures forall i :: 0 < i < |a.tail| ==> a.tail[i].prevHash == a.tail[i - 1].entryHash
    ensures var last := a.tail[|a.tail| - 1]; last.id == ckp.uptoId && last.entryHash == ckp.headHash
    ensures var man := Parse(a.tail[0].payload);
            && Member(man, "action") == Str("draw.bundle_exported") && Member(man, "targetId") == Str(d.drawId)
            && Member(Member(man, "payload"), "snapshotHash") == Str(d.snapshotHash)
            && OrNull(Member(Member(man, "payload"), "outputHash")) == OrNull(d.outputHash)
  {
    hide Parse, Member, ManifestFits;
    assert forall i :: 0 <= i < |a.tail| ==> Recomputes(sha, a.tail[i]);
    FitMeans(Parse(a.tail[0].payload), events, d);
  }

  lemma FitMeans(man: Json, events: seq<Event>, d: Digests)
    requires ManifestFits(man, events, d)
    ensures Member(man, "action") == Str("draw.bundle_exported") && Member(man, "targetId") == Str(d.drawId)
    ensures Member(Member(man, "payload"), "snapshotHash") == Str(d.snapshotHash)
    ensures OrNull(Member(Member(man, "payload"), "outputHash")) == OrNull(d.outputHash)
  {
    hide Member, Listed, Exported;
  }

  /** An event is intact when its hash is of its own text and its body can be read. */
  lemma IntactIff(sha: string -> string, x: Export)
    ensures Intact(sha, x) <==>
              sha(x.event.prevHash + x.event.payload) == x.event.entryHash && Parse(x.event.payload) != Undefined
  {
    hide Parse;
  }

  /** An exported column says what the signed body says under the column's name. */
  predicate Tells(x: Export, column: string, field: string) {
    column in x.columns ==> Canon(OrNull(Member(Body(x), field))) == Canon(OrNull(x.columns[column]))
  }

  /** Attribution is of ten columns, each against the field of its own name. */
  lemma AttributedIff(x: Export)
    ensures Attributed(x) <==>
              (C.IsSigned(Body(x)) ==>
                 && Tells(x, "actor_type", "actorType") && Tells(x, "actor_id", "actorId")
                 && Tells(x, "action", "action")
                 && Tells(x, "target_type", "targetType") && Tells(x, "target_id", "targetId")
                 && Tells(x, "reason", "reason") && Tells(x, "request_id", "requestId")
                 && Tells(x, "scope", "scope") && Tells(x, "correlation_id", "correlationId")
                 && Tells(x, "created_at", "when"))
  {
    hide Canon, Member, Body, C.IsSigned, Tells;
    forall i | 0 <= i < 10 ensures ColumnFits(x, i) <==> Tells(x, COLUMNS[i], C.FIELDS[i]) {
      FitsIff(x, i);
    }
    TenNames();
    assert Attributed(x) <==> (C.IsSigned(Body(x)) ==> forall i :: 0 <= i < 10 ==> Tells(x, COLUMNS[i], C.FIELDS[i]));
    TenTells(x);
  }

  lemma TenTells(x: Export)
    ensures (forall i :: 0 <= i < 10 ==> Tells(x, COLUMNS[i], C.FIELDS[i]))
       <==> Tells(x, COLUMNS[0], C.FIELDS[0]) && Tells(x, COLUMNS[1], C.FIELDS[1]) && Tells(x, COLUMNS[2], C.FIELDS[2])
            && Tells(x, COLUMNS[3], C.FIELDS[3]) && Tells(x, COLUMNS[4], C.FIELDS[4])
            && Tells(x, COLUMNS[5], C.FIELDS[5]) && Tells(x, COLUMNS[6], C.FIELDS[6])
            && Tells(x, COLUMNS[7], C.FIELDS[7]) && Tells(x, COLUMNS[8], C.FIELDS[8])
            && Tells(x, COLUMNS[9], C.FIELDS[9])
  {
    hide Tells;
  }

  lemma FitsIff(x: Export, i: nat)
    requires i < 10
    ensures ColumnFits(x, i) <==> Tells(x, COLUMNS[i], C.FIELDS[i])
  {
    hide Canon, Member, Body;
  }

  lemma TenNames()
    ensures COLUMNS[0] == "actor_type" && COLUMNS[1] == "actor_id" && COLUMNS[2] == "action"
    ensures COLUMNS[3] == "target_type" && COLUMNS[4] == "target_id" && COLUMNS[5] == "reason"
    ensures COLUMNS[6] == "request_id" && COLUMNS[7] == "scope" && COLUMNS[8] == "correlation_id"
    ensures COLUMNS[9] == "created_at"
    ensures C.FIELDS[0] == "actorType" && C.FIELDS[1] == "actorId" && C.FIELDS[2] == "action"
    ensures C.FIELDS[3] == "targetType" && C.FIELDS[4] == "targetId" && C.FIELDS[5] == "reason"
    ensures C.FIELDS[6] == "requestId" && C.FIELDS[7] == "scope" && C.FIELDS[8] == "correlationId"
    ensures C.FIELDS[9] == "when"
  {
  }
}
