/** The independent verifier of an executed draw: it recomputes the draw from the snapshot and the
    seed and ties both to the digests in the bundle. `sha` stands for SHA-256, `hmac(seed)` for
    HMAC-SHA256 under that seed. */
module DrawBundle {
  import opened Collections
  import opened Json
  import opened JsonCanonical
  import opened JsonParser
  import opened Draw
  import R = DrawRanking
  import F = DrawFairness

  /** The row of the draw. An empty commitment means that the row has none. */
  datatype DrawRow =
    DrawRow(id: string, period: string, algorithm: Json, snapshotHash: string, outputHash: string,
            seedCommitment: string)

  datatype Bundle = Bundle(version: string, snapshot: Json, draw: DrawRow, output: Json, seedHex: string)

  type Hash = string -> string
  type KeyedHash = string -> (string -> string)

  // ----- Reading the snapshot -----------------------------------------------------------------

  /** How single values are read as what the draw computes with; None where they make no sense. */
  datatype Reader = Reader(text: Json -> Option<string>, weight: Json -> Option<int>, count: Json -> Option<int>,
                           total: Json -> Option<int>, flag: Json -> Option<bool>)

  /** The reader without any conversion. */
  const STRICT := Reader(ReadText, ReadWeight, ReadWeight, ReadTotal, ReadFlag)

  function ReadText(v: Json): Option<string> {
    if v.Str? then Some(v.s) else None
  }

  /** A weight or a tier's count that is absent or null counts like 0; for a weight that stands for
      one chance. */
  function ReadWeight(v: Json): Option<int> {
    match v
    case Num(n) => Some(n)
    case Undefined => Some(0)
    case Null => Some(0)
    case _ => None
  }

  /** A total that is absent fails the checks that compare with it. */
  function ReadTotal(v: Json): Option<int> {
    if v.Num? then Some(v.n) else None
  }

  function ReadFlag(v: Json): Option<bool> {
    match v
    case Bool(b) => Some(b)
    case Undefined => Some(false)
    case Null => Some(false)
    case _ => None
  }

  function ReadCandidate(reader: Reader, v: Json): Option<Candidate> {
    var e, p := reader.text(Member(v, "entryId")), reader.text(Member(v, "participantId"));
    var w := reader.weight(Member(v, "weightUnits"));
    if e.Some? && p.Some? && w.Some? then Some(Candidate(e.value, p.value, w.value)) else None
  }

  function ReadTier(reader: Reader, v: Json): Option<Tier> {
    var c, n := reader.text(Member(v, "code")), reader.count(Member(v, "count"));
    if c.Some? && n.Some? then Some(Tier(c.value, n.value)) else None
  }

  function ReadAll<T>(items: seq<Json>, read: Json -> Option<T>): Option<seq<T>> {
    if items == [] then Some([])
    else
      var front, last := ReadAll(items[..|items| - 1], read), read(items[|items| - 1]);
      if front.Some? && last.Some? then Some(front.value + [last.value]) else None
  }

  function ReadList<T>(v: Json, read: Json -> Option<T>): Option<seq<T>> {
    if v.Arr? then ReadAll(v.items, read) else None
  }

  function ReadCandidates(reader: Reader, snapshot: Json): Option<seq<Candidate>> {
    ReadList(Member(snapshot, "candidates"), v => ReadCandidate(reader, v))
  }

  function ReadTiers(reader: Reader, plan: Json): Option<seq<Tier>> {
    ReadList(Member(plan, "tiers"), v => ReadTier(reader, v))
  }

  function ReadPlan(reader: Reader, snapshot: Json): Option<Plan> {
    var v := Member(snapshot, "plan");
    var tiers, w := ReadTiers(reader, v), reader.total(Member(v, "totalWinners"));
    var a, one := reader.total(Member(v, "totalAlternates")), reader.flag(Member(v, "onePrizePerParticipant"));
    if tiers.Some? && w.Some? && a.Some? && one.Some? then Some(Plan(tiers.value, w.value, a.value, one.value))
    else None
  }

  // ----- What is recomputed -----------------------------------------------------------------------

  function WinnerJson(w: Winner): Json {
    Obj([Entry("position", Num(w.position)), Entry("entryId", Str(w.entryId)),
         Entry("participantId", Str(w.participantId)), Entry("prize_code", Str(w.prizeCode))])
  }

  function AlternateJson(a: Alternate): Json {
    Obj([Entry("position", Num(a.position)), Entry("entryId", Str(a.entryId)),
         Entry("participantId", Str(a.participantId))])
  }

  function SequenceJson(ordered: seq<Ticket>): Json {
    Arr(seq(|ordered|, i requires 0 <= i < |ordered| => Str(ordered[i].entryId)))
  }

  function WinnersJson(ws: seq<Winner>): Json {
    Arr(seq(|ws|, i requires 0 <= i < |ws| => WinnerJson(ws[i])))
  }

  function AlternatesJson(xs: seq<Alternate>): Json {
    Arr(seq(|xs|, i requires 0 <= i < |xs| => AlternateJson(xs[i])))
  }

  function DrawnFields(ordered: seq<Ticket>, sel: Selection, plan: Json): seq<Entry<Json>> {
    [Entry("sequence", SequenceJson(ordered)), Entry("winners", WinnersJson(sel.winners)),
     Entry("alternates", AlternatesJson(sel.alternates)), Entry("plan", plan)]
  }

  /** The recomputed output. A draw without an algorithm has the entry all the same, undefined. */
  function Recomputed(algorithm: Json, ordered: seq<Ticket>, sel: Selection, plan: Json): Json {
    Obj([Entry("algorithm", algorithm)] + DrawnFields(ordered, sel, plan))
  }

  /** The output as JSON text carries it: without an algorithm there is no entry for it. */
  function Stored(algorithm: Json, ordered: seq<Ticket>, sel: Selection, plan: Json): Json {
    Obj((if algorithm.Undefined? then [] else [Entry("algorithm", algorithm)]) + DrawnFields(ordered, sel, plan))
  }

  lemma WrittenIsStored(algorithm: Json, ordered: seq<Ticket>, sel: Selection, plan: Json)
    requires !plan.Undefined?
    ensures Written(Recomputed(algorithm, ordered, sel, plan)) == Stored(algorithm, ordered, sel, plan)
  {
    hide SequenceJson, WinnersJson, AlternatesJson;
    DrawnListsDefined(ordered, sel);
    var fields := DrawnFields(ordered, sel, plan);
    assert Carried(fields[4..]) == [];
    assert Carried(fields[3..]) == fields[3..];
    assert Carried(fields[2..]) == fields[2..];
    assert Carried(fields[1..]) == fields[1..];
    assert Carried(fields) == fields;
    assert ([Entry("algorithm", algorithm)] + fields)[1..] == fields;
  }

  lemma DrawnListsDefined(ordered: seq<Ticket>, sel: Selection)
    ensures SequenceJson(ordered).Arr? && WinnersJson(sel.winners).Arr? && AlternatesJson(sel.alternates).Arr?
  {
  }

  // ----- The verdict ---------------------------------------------------------------------------------

  /** How many entries a list of rules versions discloses; None if that is not a number. */
  function DisclosedEntries(reader: Reader, items: seq<Json>): Option<int> {
    if items == [] then Some(0)
    else
      var front := DisclosedEntries(reader, items[..|items| - 1]);
      var last := reader.weight(Member(items[|items| - 1], "entries"));
      if front.Some? && last.Some? then Some(front.value + last.value) else None
  }

  /** A list of rules versions, when there is one, accounts for every candidate. */
  predicate RulesDisclosed(reader: Reader, snapshot: Json, candidates: nat) {
    var v := Member(snapshot, "candidateRulesVersions");
    v.Arr? ==> DisclosedEntries(reader, v.items) == Some(candidates)
  }

  predicate NamesDraw(b: Bundle) {
    Member(b.snapshot, "drawId") == Str(b.draw.id) && Member(b.snapshot, "periodCode") == Str(b.draw.period)
  }

  predicate SeedPresent(b: Bundle) {
    |b.seedHex| >= 32
  }

  predicate SeedCommitted(sha: Hash, b: Bundle) {
    b.draw.seedCommitment != "" && sha(b.seedHex) == b.draw.seedCommitment
  }

  function OutputOf(hmac: KeyedHash, b: Bundle, cs: seq<Candidate>, plan: Plan): Json {
    var ordered, sel := F.Ordered(hmac(b.seedHex), cs), F.Drawn(hmac(b.seedHex), cs, plan);
    Recomputed(b.draw.algorithm, ordered, sel, Member(b.snapshot, "plan"))
  }

  predicate CodesValid(ws: seq<Winner>, tiers: seq<Tier>) {
    forall w :: w in ws ==> exists t :: t in tiers && t.code == w.prizeCode
  }

  /** What it takes for an executed draw to verify. Eligibility, one prize per participant and the
      count of stored winners are not listed: they follow from the rest. */
  ghost predicate Verified(reader: Reader, sha: Hash, hmac: KeyedHash, b: Bundle) {
    var cs, plan := ReadCandidates(reader, b.snapshot), ReadPlan(reader, b.snapshot);
    && cs.Some? && plan.Some?
    && b.version == "draw-verifier/2"
    && sha(Canon(b.snapshot)) == b.draw.snapshotHash
    && NamesDraw(b)
    && F.UniqueIds(cs.value)
    && RulesDisclosed(reader, b.snapshot, |cs.value|)
    && SeedPresent(b)
    && SeedCommitted(sha, b)
    && sha(Canon(OutputOf(hmac, b, cs.value, plan.value))) == b.draw.outputHash
    && Print(Written(OutputOf(hmac, b, cs.value, plan.value))) == Print(b.output)
    && plan.value.totalWinners > 0 && plan.value.totalAlternates >= 0
    && CodesValid(F.Drawn(hmac(b.seedHex), cs.value, plan.value).winners, plan.value.tiers)
  }

  // ----- The check list --------------------------------------------------------------------------------

  /** As many different members as members. */
  predicate AllDifferent(s: seq<string>) {
    |Elements(s)| == |s|
  }

  lemma OneMoreElement(front: seq<string>, last: string)
    ensures |Elements(front + [last])| == |Elements(front)| + if last in front then 0 else 1
  {
    assert Elements(front + [last]) == Elements(front) + {last};
  }

  lemma {:induction false} AllDifferentMeans(s: seq<string>)
    ensures |Elements(s)| <= |s|
    ensures AllDifferent(s) <==> forall i, j :: 0 <= i < j < |s| ==> s[i] != s[j]
  {
    if s == [] {
      assert Elements(s) == {};
    } else {
      var front, last := s[..|s| - 1], s[|s| - 1];
      AllDifferentMeans(front);
      assert s == front + [last];
      OneMoreElement(front, last);
      if last in front {
        var i :| 0 <= i < |front| && front[i] == last;
        assert s[i] == s[|s| - 1];
      } else {
        assert forall i :: 0 <= i < |front| ==> s[i] in front;
      }
    }
  }

  function EntryIds(cs: seq<Candidate>): seq<string> {
    seq(|cs|, i requires 0 <= i < |cs| => cs[i].entryId)
  }

  function ParticipantIds(ws: seq<Winner>): seq<string> {
    seq(|ws|, i requires 0 <= i < |ws| => ws[i].participantId)
  }

  lemma UniqueIdsChecked(cs: seq<Candidate>)
    ensures AllDifferent(EntryIds(cs)) <==> F.UniqueIds(cs)
  {
    var ids := EntryIds(cs);
    AllDifferentMeans(ids);
    if AllDifferent(ids) {
      forall i, j | 0 <= i < j < |cs| ensures cs[i].entryId != cs[j].entryId {
        assert ids[i] != ids[j];
      }
    }
  }

  predicate Eligible(ws: seq<Winner>, cs: seq<Candidate>) {
    forall w :: w in ws ==> exists c :: c in cs && c.entryId == w.entryId
  }

  lemma RankedCandidate(hmac: string -> string, cs: seq<Candidate>, plan: Plan, i: nat) returns (c: Candidate)
    requires F.UniqueIds(cs) && i < |Accepted(F.Ordered(hmac, cs), plan)|
    ensures c in cs && c.entryId == Accepted(F.Ordered(hmac, cs), plan)[i].entryId
  {
    hide Accepted, R.IsRanking, R.Key, AllTickets, F.Ordered, F.UniqueIds;
    F.DrawRanksEveryCandidate(hmac, cs, plan);
    var r := Accepted(F.Ordered(hmac, cs), plan)[i];
    assert r in Accepted(F.Ordered(hmac, cs), plan);
    c :| c in cs && F.IsTicketOf(hmac, r, c);
  }

  lemma DrawnAreCandidates(hmac: string -> string, cs: seq<Candidate>, plan: Plan)
    requires F.UniqueIds(cs)
    ensures Eligible(F.Drawn(hmac, cs, plan).winners, cs)
  {
    hide Accepted, F.Ordered, PrizeCode, F.UniqueIds;
    var d, ws := Accepted(F.Ordered(hmac, cs), plan), F.Drawn(hmac, cs, plan).winners;
    forall w | w in ws ensures exists c :: c in cs && c.entryId == w.entryId {
      var i :| 0 <= i < |ws| && ws[i] == w;
      var c := RankedCandidate(hmac, cs, plan, i);
    }
  }

  lemma DrawnOnce(hmac: string -> string, cs: seq<Candidate>, plan: Plan)
    requires F.UniqueIds(cs) && plan.onePrizePerParticipant
    ensures AllDifferent(ParticipantIds(F.Drawn(hmac, cs, plan).winners))
  {
    hide Accepted, Before, R.Represented, AllTickets, F.Ordered, PrizeCode, AllDifferent;
    var d, ws := Accepted(F.Ordered(hmac, cs), plan), F.Drawn(hmac, cs, plan).winners;
    F.DrawRanksEveryCandidate(hmac, cs, plan);
    AllDifferentMeans(ParticipantIds(ws));
    forall i, j | 0 <= i < j < |ws| ensures ParticipantIds(ws)[i] != ParticipantIds(ws)[j] {
      assert R.Key(d[i], true) != R.Key(d[j], true);
    }
  }

  /** Whoever the draw picks is a candidate, and nobody wins twice where the plan forbids it. */
  lemma DrawnIsProper(hmac: string -> string, cs: seq<Candidate>, plan: Plan)
    requires F.UniqueIds(cs)
    ensures Eligible(F.Drawn(hmac, cs, plan).winners, cs)
    ensures plan.onePrizePerParticipant ==> AllDifferent(ParticipantIds(F.Drawn(hmac, cs, plan).winners))
    ensures |F.Drawn(hmac, cs, plan).winners| <= Max(0, plan.totalWinners)
    ensures |F.Drawn(hmac, cs, plan).alternates| <= Max(0, plan.totalAlternates)
  {
    hide Accepted, Eligible, AllDifferent, F.Ordered, F.UniqueIds, ParticipantIds;
    DrawnAreCandidates(hmac, cs, plan);
    if plan.onePrizePerParticipant {
      DrawnOnce(hmac, cs, plan);
    }
  }

  function CountOf(v: Json): int {
    if v.Arr? then |v.items| else -1
  }

  lemma {:induction false} GetPlain(fields: seq<Entry<Json>>, k: string)
    requires forall i :: 0 <= i < |fields| ==> IsPlain(fields[i].value)
    ensures Get(fields, k).Undefined? || IsPlain(Get(fields, k))
  {
    if fields != [] && fields[0].key != k {
      GetPlain(fields[1..], k);
    }
  }

  lemma MemberPlain(v: Json, k: string)
    requires IsPlain(v)
    ensures Member(v, k).Undefined? || IsPlain(Member(v, k))
  {
    if v.Obj? {
      GetPlain(v.fields, k);
    }
  }

  lemma ListsPlain(ordered: seq<Ticket>, sel: Selection)
    ensures IsPlain(SequenceJson(ordered))
    ensures IsPlain(WinnersJson(sel.winners)) && IsPlain(AlternatesJson(sel.alternates))
  {
    forall i | 0 <= i < |sel.winners| ensures IsPlain(WinnerJson(sel.winners[i])) {
      WinnerPlain(sel.winners[i]);
    }
    forall i | 0 <= i < |sel.alternates| ensures IsPlain(AlternateJson(sel.alternates[i])) {
      AlternatePlain(sel.alternates[i]);
    }
    hide WinnerJson, AlternateJson;
  }

  lemma WinnerPlain(w: Winner)
    ensures IsPlain(WinnerJson(w))
  {
  }

  lemma AlternatePlain(a: Alternate)
    ensures IsPlain(AlternateJson(a))
  {
  }

  lemma StoredPlain(algorithm: Json, ordered: seq<Ticket>, sel: Selection, plan: Json)
    requires IsPlain(plan) && (algorithm.Undefined? || IsPlain(algorithm))
    ensures IsPlain(Stored(algorithm, ordered, sel, plan))
  {
    hide SequenceJson, WinnersJson, AlternatesJson;
    ListsPlain(ordered, sel);
  }

  lemma PrintInjective(v: Json, w: Json)
    requires IsPlain(v) && IsPlain(w) && Print(v) == Print(w)
    ensures v == w
  {
    ParsePrint(v);
    ParsePrint(w);
  }

  lemma StoredMembers(algorithm: Json, ordered: seq<Ticket>, sel: Selection, plan: Json)
    ensures var v := Stored(algorithm, ordered, sel, plan);
            && Member(v, "sequence") == SequenceJson(ordered)
            && Member(v, "winners") == WinnersJson(sel.winners)
            && Member(v, "alternates") == AlternatesJson(sel.alternates)
  {
    var fields := Stored(algorithm, ordered, sel, plan).fields;
    var n := if algorithm.Undefined? then 0 else 1;
    assert DistinctKeys(fields);
    GetMember(fields, fields[n]);
    GetMember(fields, fields[n + 1]);
    GetMember(fields, fields[n + 2]);
  }

  /** A stored output that prints like the recomputation is the recomputation. */
  lemma StoredIsRecomputed(output: Json, algorithm: Json, ordered: seq<Ticket>, sel: Selection, plan: Json)
    requires IsPlain(plan) && (algorithm.Undefined? || IsPlain(algorithm)) && (output.Undefined? || IsPlain(output))
    requires Print(Written(Recomputed(algorithm, ordered, sel, plan))) == Print(output)
    ensures output == Stored(algorithm, ordered, sel, plan)
    ensures Member(output, "sequence") == SequenceJson(ordered)
    ensures Member(output, "winners") == WinnersJson(sel.winners)
    ensures Member(output, "alternates") == AlternatesJson(sel.alternates)
  {
    WrittenIsStored(algorithm, ordered, sel, plan);
    assert Print(Stored(algorithm, ordered, sel, plan))[0] == '{';
    hide Print, Recomputed, Stored;
    assert !output.Undefined? by {
      PrintUndefined();
    }
    StoredPlain(algorithm, ordered, sel, plan);
    PrintInjective(Stored(algorithm, ordered, sel, plan), output);
    StoredMembers(algorithm, ordered, sel, plan);
  }

  lemma PrintUndefined()
    ensures Print(Undefined)[..1] == "n"
  {
  }

  lemma PlanPlain(reader: Reader, snapshot: Json)
    requires IsPlain(snapshot) && ReadPlan(reader, snapshot).Some?
    ensures IsPlain(Member(snapshot, "plan"))
  {
    MemberPlain(snapshot, "plan");
  }

  /** The conditions of the check list, on what the verifier recomputed. */
  predicate Passes(reader: Reader, sha: Hash, b: Bundle, cs: seq<Candidate>, plan: Plan, sel: Selection,
                   recomputed: Json)
  {
    && b.version == "draw-verifier/2"
    && sha(Canon(b.snapshot)) == b.draw.snapshotHash
    && NamesDraw(b)
    && AllDifferent(EntryIds(cs))
    && RulesDisclosed(reader, b.snapshot, |cs|)
    && SeedPresent(b)
    && SeedCommitted(sha, b)
    && sha(Canon(recomputed)) == b.draw.outputHash
    && Print(Written(recomputed)) == Print(b.output)
    && WinnersInPlan(b, plan, sel)
    && AlternatesInPlan(b, plan)
    && Eligible(sel.winners, cs)
    && OnePrizeEach(plan, sel)
    && CodesValid(sel.winners, plan.tiers)
  }

  predicate WinnersInPlan(b: Bundle, plan: Plan, sel: Selection) {
    plan.totalWinners > 0 && |sel.winners| <= plan.totalWinners && CountOf(Member(b.output, "winners")) == |sel.winners|
  }

  predicate AlternatesInPlan(b: Bundle, plan: Plan) {
    Max(0, CountOf(Member(b.output, "alternates"))) <= plan.totalAlternates
  }

  predicate OnePrizeEach(plan: Plan, sel: Selection) {
    !plan.onePrizePerParticipant || AllDifferent(ParticipantIds(sel.winners))
  }

  ghost predicate Readable(b: Bundle) {
    IsPlain(b.snapshot) && (b.output.Undefined? || IsPlain(b.output))
    && (b.draw.algorithm.Undefined? || IsPlain(b.draw.algorithm))
  }

  lemma CountsStored(reader: Reader, hmac: KeyedHash, b: Bundle, cs: seq<Candidate>, plan: Plan)
    requires Readable(b) && ReadPlan(reader, b.snapshot) == Some(plan)
    requires Print(Written(OutputOf(hmac, b, cs, plan))) == Print(b.output)
    ensures var sel := F.Drawn(hmac(b.seedHex), cs, plan);
            && CountOf(Member(b.output, "winners")) == |sel.winners|
            && CountOf(Member(b.output, "alternates")) == |sel.alternates|
  {
    PlanPlain(reader, b.snapshot);
    hide IsPlain, Print, Recomputed, Stored, Written, ReadPlan, F.Ordered, F.Drawn;
    var ordered, sel := F.Ordered(hmac(b.seedHex), cs), F.Drawn(hmac(b.seedHex), cs, plan);
    StoredIsRecomputed(b.output, b.draw.algorithm, ordered, sel, Member(b.snapshot, "plan"));
  }

  lemma PassingIsVerified(reader: Reader, sha: Hash, hmac: KeyedHash, b: Bundle, cs: seq<Candidate>, plan: Plan)
    requires Readable(b) && ReadCandidates(reader, b.snapshot) == Some(cs) && ReadPlan(reader, b.snapshot) == Some(plan)
    ensures Verified(reader, sha, hmac, b)
       <==> Passes(reader, sha, b, cs, plan, F.Drawn(hmac(b.seedHex), cs, plan), OutputOf(hmac, b, cs, plan))
  {
    hide Canon, Print, Written, OutputOf, F.Drawn, F.UniqueIds, CodesValid, Eligible, AllDifferent, Readable,
         ReadCandidates, ReadPlan;
    UniqueIdsChecked(cs);
    if AllDifferent(EntryIds(cs)) {
      DrawnIsProper(hmac(b.seedHex), cs, plan);
    }
    if Print(Written(OutputOf(hmac, b, cs, plan))) == Print(b.output) {
      CountsStored(reader, hmac, b, cs, plan);
    }
  }

  /** The name of a failed check; the passed ones are dropped in the end. */
  function Failing(name: string, pass: bool): seq<string> {
    if pass then [] else [name]
  }

  /** The list of checks of an executed draw: verified when none failed. */
  method VerifyExecuted(reader: Reader, sha: Hash, hmac: KeyedHash, b: Bundle) returns (verified: bool)
    requires Readable(b)
    ensures verified <==> Verified(reader, sha, hmac, b)
  {
    hide Canon, Print, Written, Recomputed, IsPlain, Sort, Accepted, Outcome, AllTickets, CodesValid, Eligible,
         ReadCandidates, ReadPlan, AllDifferent, RulesDisclosed, SeedCommitted, WinnersInPlan, AlternatesInPlan,
         OnePrizeEach, NamesDraw;
    var candidates, plans := ReadCandidates(reader, b.snapshot), ReadPlan(reader, b.snapshot);
    if candidates.None? || plans.None? {
      return false;
    }
    var cs, plan := candidates.value, plans.value;
    var failed := [];
    failed := failed + Failing("bundle version", b.version == "draw-verifier/2");
    failed := failed + Failing("snapshot digest", sha(Canon(b.snapshot)) == b.draw.snapshotHash);
    failed := failed + Failing("snapshot names this draw", NamesDraw(b));
    failed := failed + Failing("candidates unique", AllDifferent(EntryIds(cs)));
    failed := failed + Failing("disclosed candidate rules versions cover every candidate",
                               RulesDisclosed(reader, b.snapshot, |cs|));
    failed := failed + Failing("seed present", SeedPresent(b));
    failed := failed + Failing("seed matches the commitment made at freeze", SeedCommitted(sha, b));
    var ordered := Sortition(hmac(b.seedHex), cs);
    var sel := Select(ordered, plan);
    var recomputed := Recomputed(b.draw.algorithm, ordered, sel, Member(b.snapshot, "plan"));
    failed := failed + Failing("output digest", sha(Canon(recomputed)) == b.draw.outputHash);
    failed := failed + Failing("stored output equals recomputation", Print(Written(recomputed)) == Print(b.output));
    failed := failed + Failing("winner count within a plan that awards prizes", WinnersInPlan(b, plan, sel));
    failed := failed + Failing("alternate count within plan", AlternatesInPlan(b, plan));
    failed := failed + Failing("winners are eligible candidates", Eligible(sel.winners, cs));
    failed := failed + Failing("one prize per participant", OnePrizeEach(plan, sel));
    failed := failed + Failing("prize codes valid", CodesValid(sel.winners, plan.tiers));
    verified := |failed| == 0;
    assert verified <==> Passes(reader, sha, b, cs, plan, sel, recomputed);
    assert sel == F.Drawn(hmac(b.seedHex), cs, plan) && recomputed == OutputOf(hmac, b, cs, plan);
    PassingIsVerified(reader, sha, hmac, b, cs, plan);
  }

  // ----- An honest bundle verifies ------------------------------------------------------------------------

  /** What an honest draw exports: every digest is of what it is said to be of. */
  function HonestBundle(sha: Hash, hmac: KeyedHash, snapshot: Json, id: string, period: string, algorithm: Json,
                        seed: string, cs: seq<Candidate>, plan: Plan): Bundle
  {
    var ordered, sel := F.Ordered(hmac(seed), cs), F.Drawn(hmac(seed), cs, plan);
    var output := Recomputed(algorithm, ordered, sel, Member(snapshot, "plan"));
    var row := DrawRow(id, period, algorithm, sha(Canon(snapshot)), sha(Canon(output)), sha(seed));
    Bundle("draw-verifier/2", snapshot, row, Written(output), seed)
  }

  /** When the tiers hold all planned winners, every winner's prize code is that of a tier. */
  lemma TiersCoverWinners(hmac: string -> string, cs: seq<Candidate>, plan: Plan)
    requires plan.totalWinners <= Cumulative(plan.tiers, |plan.tiers|)
    ensures CodesValid(F.Drawn(hmac, cs, plan).winners, plan.tiers)
  {
    hide Accepted, F.Ordered;
    var d, ws := Accepted(F.Ordered(hmac, cs), plan), F.Drawn(hmac, cs, plan).winners;
    forall w | w in ws ensures exists t :: t in plan.tiers && t.code == w.prizeCode {
      var i :| 0 <= i < |ws| && ws[i] == w;
      assert w == WinnerAt(d, plan, i);
      var t := TierFrom(plan.tiers, i + 1, 0);
      assert t == |plan.tiers| ==> !Reaches(plan.tiers, |plan.tiers| - 1, i + 1);
      assert plan.tiers[t] in plan.tiers;
    }
  }

  /** The check list refuses no honest draw: a readable snapshot with unique entry ids and a plan
      whose tiers hold its winners verifies with any committed seed, however many entered. */
  lemma HonestBundleVerifies(reader: Reader, sha: Hash, hmac: KeyedHash, snapshot: Json, id: string, period: string,
                             algorithm: Json, seed: string, cs: seq<Candidate>, plan: Plan)
    requires IsPlain(snapshot) && (algorithm.Undefined? || IsPlain(algorithm))
    requires ReadCandidates(reader, snapshot) == Some(cs) && ReadPlan(reader, snapshot) == Some(plan)
    requires Member(snapshot, "drawId") == Str(id) && Member(snapshot, "periodCode") == Str(period)
    requires F.UniqueIds(cs) && RulesDisclosed(reader, snapshot, |cs|) && |seed| >= 32 && sha(seed) != ""
    requires 0 < plan.totalWinners <= Cumulative(plan.tiers, |plan.tiers|) && plan.totalAlternates >= 0
    ensures var b := HonestBundle(sha, hmac, snapshot, id, period, algorithm, seed, cs, plan);
            Readable(b) && Verified(reader, sha, hmac, b)
  {
    hide Canon, Print, Recomputed, Written, Stored, IsPlain, F.Ordered, F.Drawn, CodesValid, F.UniqueIds,
         ReadCandidates, ReadPlan, RulesDisclosed, Member, Cumulative;
    TiersCoverWinners(hmac(seed), cs, plan);
    PlanPlain(reader, snapshot);
    var ordered, sel := F.Ordered(hmac(seed), cs), F.Drawn(hmac(seed), cs, plan);
    WrittenIsStored(algorithm, ordered, sel, Member(snapshot, "plan"));
    StoredPlain(algorithm, ordered, sel, Member(snapshot, "plan"));
  }
}
