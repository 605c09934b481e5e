/** The draw: weighted candidates become tickets, tickets are sorted by keyed score, and a greedy
    pass takes winners and alternates. `hmac` stands for HMAC-SHA256 under the revealed seed. */
module Draw {
  import opened Collections
  import opened Strings

  datatype Candidate = Candidate(entryId: string, participantId: string, weightUnits: int)
  datatype Ticket = Ticket(entryId: string, participantId: string, score: string)
  datatype Tier = Tier(code: string, count: int)
  datatype Plan = Plan(tiers: seq<Tier>, totalWinners: int, totalAlternates: int, onePrizePerParticipant: bool)
  datatype Winner = Winner(position: nat, entryId: string, participantId: string, prizeCode: string)
  datatype Alternate = Alternate(position: nat, entryId: string, participantId: string)
  datatype Selection = Selection(winners: seq<Winner>, alternates: seq<Alternate>)

  function Max(a: int, b: int): int { if a < b then b else a }
  function Min(a: int, b: int): int { if a < b then a else b }

  // ----- Tickets -----------------------------------------------------------

  function TicketOf(hmac: string -> string, c: Candidate, u: nat): Ticket {
    Ticket(c.entryId, c.participantId, hmac("entry:" + c.entryId + ":unit:" + Decimal(u)))
  }

  /** How many chances a candidate has: its weight, but at least one. */
  function Units(c: Candidate): nat {
    Max(1, if c.weightUnits == 0 then 1 else c.weightUnits)
  }

  function TicketsOf(hmac: string -> string, c: Candidate, n: nat): seq<Ticket> {
    seq(n, u requires 0 <= u < n => TicketOf(hmac, c, u))
  }

  function AllTickets(hmac: string -> string, candidates: seq<Candidate>): seq<Ticket> {
    if candidates == [] then []
    else AllTickets(hmac, candidates[..|candidates| - 1])
         + TicketsOf(hmac, candidates[|candidates| - 1], Units(candidates[|candidates| - 1]))
  }

  // ----- Order -------------------------------------------------------------

  /** Score first, then entry id: the comparator returns -1 exactly here. */
  predicate Before(a: Ticket, b: Ticket) {
    Less(a.score, b.score) || (a.score == b.score && Less(a.entryId, b.entryId))
  }

  lemma BeforeTransitive(a: Ticket, b: Ticket, c: Ticket)
    requires Before(a, b) && Before(b, c)
    ensures Before(a, c)
  {
    if Less(a.score, b.score) && Less(b.score, c.score) {
      LessTransitive(a.score, b.score, c.score);
    } else if a.score == b.score == c.score {
      LessTransitive(a.entryId, b.entryId, c.entryId);
    }
  }

  lemma BeforeAsymmetric(a: Ticket, b: Ticket)
    requires Before(a, b)
    ensures !Before(b, a)
  {
    if Less(a.score, b.score) {
      LessAsymmetric(a.score, b.score);
      LessIrreflexive(a.score);
    } else {
      LessAsymmetric(a.entryId, b.entryId);
      LessIrreflexive(a.score);
    }
  }

  /** Tickets that tie agree in score and entry id. */
  lemma BeforeTotal(a: Ticket, b: Ticket)
    ensures Before(a, b) || Before(b, a) || (a.score == b.score && a.entryId == b.entryId)
  {
    LessTotal(a.score, b.score);
    LessTotal(a.entryId, b.entryId);
  }

  lemma NotAfterTransitive(a: Ticket, b: Ticket, c: Ticket)
    requires !Before(b, a) && !Before(c, b)
    ensures !Before(c, a)
  {
    BeforeTotal(a, b);
    BeforeTotal(b, c);
    if Before(c, a) {
      if Before(a, b) {
        BeforeTransitive(c, a, b);
      } else if Before(b, c) {
        BeforeTransitive(b, c, a);
      }
    }
  }

  ghost predicate Sorted(s: seq<Ticket>) {
    forall i, j :: 0 <= i < j < |s| ==> !Before(s[j], s[i])
  }

  function Insert(t: Ticket, s: seq<Ticket>): (r: seq<Ticket>) {
    if s == [] || !Before(s[0], t) then [t] + s else [s[0]] + Insert(t, s[1..])
  }

  /** Insertion sort. SortIsUnique shows that any other sort gives the same sequence. */
  function Sort(s: seq<Ticket>): seq<Ticket> {
    if s == [] then [] else Insert(s[0], Sort(s[1..]))
  }

  lemma {:induction false} InsertSorted(t: Ticket, s: seq<Ticket>)
    requires Sorted(s)
    ensures Sorted(Insert(t, s)) && multiset(Insert(t, s)) == multiset{t} + multiset(s)
  {
    var r := Insert(t, s);
    if s == [] {
    } else if !Before(s[0], t) {
      forall j | 0 <= j < |s| ensures !Before(s[j], t) {
        if j > 0 {
          NotAfterTransitive(t, s[0], s[j]);
        }
      }
    } else {
      var tail := Insert(t, s[1..]);
      InsertSorted(t, s[1..]);
      assert s == [s[0]] + s[1..];
      BeforeAsymmetric(s[0], t);
      forall j | 0 <= j < |tail| ensures !Before(tail[j], s[0]) {
        assert tail[j] in multiset(tail);
        assert tail[j] in multiset{t} + multiset(s[1..]);
        if tail[j] != t {
          assert tail[j] in s[1..];
        }
      }
    }
  }

  lemma {:induction false} SortSorts(s: seq<Ticket>)
    ensures Sorted(Sort(s)) && multiset(Sort(s)) == multiset(s)
  {
    if s != [] {
      SortSorts(s[1..]);
      InsertSorted(s[0], Sort(s[1..]));
      assert s == [s[0]] + s[1..];
    }
  }

  /** Every entry id belongs to one participant, as when the candidate list has no duplicate entry. */
  ghost predicate Consistent(ts: set<Ticket>) {
    forall t, u :: t in ts && u in ts && t.entryId == u.entryId ==> t.participantId == u.participantId
  }

  /** Nothing in a sorted sequence comes before its head. */
  lemma HeadIsFirst(s: seq<Ticket>, t: Ticket)
    requires Sorted(s) && t in s
    ensures !Before(t, s[0])
  {
    var i :| 0 <= i < |s| && s[i] == t;
    LessIrreflexive(t.score);
    LessIrreflexive(t.entryId);
  }

  lemma SameHead(a: seq<Ticket>, b: seq<Ticket>)
    requires Sorted(a) && Sorted(b) && multiset(a) == multiset(b) && a != [] && b != []
    requires Consistent(Elements(a))
    ensures a[0] == b[0]
  {
    assert a[0] in multiset(b) && b[0] in multiset(a);
    HeadIsFirst(a, b[0]);
    HeadIsFirst(b, a[0]);
    BeforeTotal(a[0], b[0]);
    assert a[0] in Elements(a) && b[0] in Elements(a);
  }

  lemma TailMultiset<T>(s: seq<T>)
    requires s != []
    ensures multiset(s[1..]) == multiset(s) - multiset{s[0]}
  {
    assert s == [s[0]] + s[1..];
  }

  /** Any two sorted arrangements of the same tickets are equal, whatever the sorting algorithm. */
  lemma {:induction false} SortIsUnique(a: seq<Ticket>, b: seq<Ticket>)
    requires Sorted(a) && Sorted(b) && multiset(a) == multiset(b)
    requires Consistent(Elements(a))
    ensures a == b
  {
    assert |a| == |multiset(a)| == |multiset(b)| == |b|;
    if a != [] {
      SameHead(a, b);
      TailMultiset(a);
      TailMultiset(b);
      assert Elements(a[1..]) <= Elements(a);
      SortIsUnique(a[1..], b[1..]);
      assert a == [a[0]] + a[1..] && b == [b[0]] + b[1..];
    }
  }

  /** The nested loops of `sortition` push exactly the tickets of every candidate, then sort. */
  method Sortition(hmac: string -> string, candidates: seq<Candidate>) returns (out: seq<Ticket>)
    ensures out == Sort(AllTickets(hmac, candidates))
  {
    out := [];
    for i := 0 to |candidates|
      invariant out == AllTickets(hmac, candidates[..i])
    {
      var c := candidates[i];
      ghost var before := out;
      var u := 0;
      while u < Max(1, if c.weightUnits == 0 then 1 else c.weightUnits)
        invariant 0 <= u <= Units(c)
        invariant out == before + TicketsOf(hmac, c, u)
      {
        out := out + [TicketOf(hmac, c, u)];
        u := u + 1;
      }
      assert candidates[..i + 1][..i] == candidates[..i];
    }
    assert candidates[..|candidates|] == candidates;
    out := Sort(out);
  }

  // ----- Prize tiers -------------------------------------------------------

  /** How many prizes the first `i` tiers hold. */
  function Cumulative(tiers: seq<Tier>, i: nat): int
    requires i <= |tiers|
  {
    if i == 0 then 0 else Cumulative(tiers, i - 1) + tiers[i - 1].count
  }

  /** Do the tiers up to and including number `i` reach this rank? */
  predicate Reaches(tiers: seq<Tier>, i: nat, rank: nat)
    requires i < |tiers|
  {
    rank <= Cumulative(tiers, i + 1)
  }

  /** The first tier at or after `i` that reaches `rank`; |tiers| when none does. */
  function TierFrom(tiers: seq<Tier>, rank: nat, i: nat): (t: nat)
    requires i <= |tiers|
    ensures i <= t <= |tiers|
    ensures t < |tiers| ==> Reaches(tiers, t, rank)
    ensures forall j :: i <= j < t ==> !Reaches(tiers, j, rank)
    decreases |tiers| - i
  {
    if i == |tiers| || Reaches(tiers, i, rank) then i else TierFrom(tiers, rank, i + 1)
  }

  /** The code a rank is given. Ranks beyond every tier fall to the last tier's code, or "P1". */
  function PrizeCode(rank: nat, tiers: seq<Tier>): string {
    var t := TierFrom(tiers, rank, 0);
    if t < |tiers| then tiers[t].code
    else if tiers == [] || tiers[|tiers| - 1].code == "" then "P1"
    else tiers[|tiers| - 1].code
  }

  method FindPrizeCode(rank: nat, plan: Plan) returns (code: string)
    ensures code == PrizeCode(rank, plan.tiers)
  {
    var c := 0;
    for i := 0 to |plan.tiers|
      invariant c == Cumulative(plan.tiers, i)
      invariant TierFrom(plan.tiers, rank, 0) == TierFrom(plan.tiers, rank, i)
    {
      c := c + plan.tiers[i].count;
      if rank <= c {
        return plan.tiers[i].code;
      }
    }
    if plan.tiers == [] || plan.tiers[|plan.tiers| - 1].code == "" {
      return "P1";
    }
    return plan.tiers[|plan.tiers| - 1].code;
  }

  // ----- Selection ---------------------------------------------------------

  /** The tickets the pass accepts, from first to last, if it never stopped early. */
  function Greedy(s: seq<Ticket>, one: bool, seenE: set<string>, seenP: set<string>): seq<Ticket> {
    if s == [] then []
    else if s[0].entryId in seenE || (one && s[0].participantId in seenP) then Greedy(s[1..], one, seenE, seenP)
    else [s[0]] + Greedy(s[1..], one, seenE + {s[0].entryId}, seenP + {s[0].participantId})
  }

  function Accepted(s: seq<Ticket>, plan: Plan): seq<Ticket> {
    Greedy(s, plan.onePrizePerParticipant, {}, {})
  }

  function WinnerCount(accepted: nat, plan: Plan): nat {
    Min(accepted, Max(0, plan.totalWinners))
  }

  function AlternateCount(accepted: nat, plan: Plan): nat {
    Min(accepted - WinnerCount(accepted, plan), Max(0, plan.totalAlternates))
  }

  function WinnerAt(ts: seq<Ticket>, plan: Plan, i: nat): Winner
    requires i < |ts|
  {
    Winner(i + 1, ts[i].entryId, ts[i].participantId, PrizeCode(i + 1, plan.tiers))
  }

  function AlternateAt(ts: seq<Ticket>, w: nat, i: nat): Alternate
    requires w + i < |ts|
  {
    Alternate(i + 1, ts[w + i].entryId, ts[w + i].participantId)
  }

  /** Winners are the first accepted tickets, alternates the next ones; ranks count from 1. */
  function Outcome(ts: seq<Ticket>, plan: Plan): Selection {
    var w := WinnerCount(|ts|, plan);
    Selection(seq(w, i requires 0 <= i < w => WinnerAt(ts, plan, i)),
              seq(AlternateCount(|ts|, plan), i requires 0 <= i < AlternateCount(|ts|, plan) => AlternateAt(ts, w, i)))
  }

  /** What accepting one more ticket does to the two lists. */
  lemma OutcomeGrows(ts: seq<Ticket>, t: Ticket, plan: Plan)
    ensures var (was, now) := (Outcome(ts, plan), Outcome(ts + [t], plan));
            if |was.winners| < plan.totalWinners then
              var n := |was.winners| + 1;
              now == was.(winners := was.winners + [Winner(n, t.entryId, t.participantId, PrizeCode(n, plan.tiers))])
            else if |was.alternates| < plan.totalAlternates then
              now == was.(alternates := was.alternates + [Alternate(|was.alternates| + 1, t.entryId, t.participantId)])
            else now == was
  {
    var was, now := Outcome(ts, plan), Outcome(ts + [t], plan);
    if |was.winners| < plan.totalWinners {
      assert now.winners == was.winners + [WinnerAt(ts + [t], plan, |ts|)];
      assert now.alternates == was.alternates == [];
    } else {
      assert now.winners == was.winners;
      if |was.alternates| < plan.totalAlternates {
        assert now.alternates == was.alternates + [AlternateAt(ts + [t], |was.winners|, |was.alternates|)];
      } else {
        assert now.alternates == was.alternates;
      }
    }
  }

  /** Once both lists are full, later tickets change nothing. */
  lemma OutcomeSaturates(ts: seq<Ticket>, more: seq<Ticket>, plan: Plan)
    requires WinnerCount(|ts|, plan) >= plan.totalWinners
    requires AlternateCount(|ts|, plan) >= plan.totalAlternates
    ensures Outcome(ts + more, plan) == Outcome(ts, plan)
  {
    var a, b := Outcome(ts + more, plan), Outcome(ts, plan);
    assert |a.winners| == |b.winners| && |a.alternates| == |b.alternates|;
    assert a.winners == b.winners;
    assert a.alternates == b.alternates;
  }

  /** Taking the next accepted ticket, or stopping because both lists are full. */
  lemma AcceptOne(all: seq<Ticket>, n: nat, t: Ticket, rest: seq<Ticket>, plan: Plan)
    requires n <= |all| && all[n..] == [t] + rest
    ensures n < |all| && all[n + 1..] == rest
    ensures var (was, now) := (Outcome(all[..n], plan), Outcome(all[..n + 1], plan));
            if |was.winners| < plan.totalWinners then
              var n := |was.winners| + 1;
              now == was.(winners := was.winners + [Winner(n, t.entryId, t.participantId, PrizeCode(n, plan.tiers))])
            else if |was.alternates| < plan.totalAlternates then
              now == was.(alternates := was.alternates + [Alternate(|was.alternates| + 1, t.entryId, t.participantId)])
            else was == Outcome(all, plan)
  {
    assert all[n] == t && all[n + 1..] == all[n..][1..] == rest;
    assert all[..n + 1] == all[..n] + [t];
    assert all[..n] + all[n..] == all;
    OutcomeGrows(all[..n], t, plan);
    var was := Outcome(all[..n], plan);
    if |was.winners| >= plan.totalWinners && |was.alternates| >= plan.totalAlternates {
      OutcomeSaturates(all[..n], all[n..], plan);
    }
  }

  lemma NoneChosen(plan: Plan)
    ensures Outcome([], plan) == Selection([], [])
  {
  }

  /** `select`: the loop with its two seen-sets and its early break loses nothing. */
  method Select(ordered: seq<Ticket>, plan: Plan) returns (sel: Selection)
    ensures sel == Outcome(Accepted(ordered, plan), plan)
  {
    hide Outcome, PrizeCode;
    NoneChosen(plan);
    var winners: seq<Winner>, alternates: seq<Alternate> := [], [];
    var seenP: set<string>, seenE: set<string> := {}, {};
    ghost var all, n := Accepted(ordered, plan), 0;
    var i := 0;
    while i < |ordered|
      invariant 0 <= i <= |ordered| && 0 <= n <= |all|
      invariant all[n..] == Greedy(ordered[i..], plan.onePrizePerParticipant, seenE, seenP)
      invariant Selection(winners, alternates) == Outcome(all[..n], plan)
    {
      var s := ordered[i];
      assert ordered[i..][1..] == ordered[i + 1..];
      i := i + 1;
      if s.entryId in seenE {
        continue;
      }
      if plan.onePrizePerParticipant && s.participantId in seenP {
        continue;
      }
      seenE, seenP := seenE + {s.entryId}, seenP + {s.participantId};
      AcceptOne(all, n, s, Greedy(ordered[i..], plan.onePrizePerParticipant, seenE, seenP), plan);
      if |winners| < plan.totalWinners {
        var code := FindPrizeCode(|winners| + 1, plan);
        winners := winners + [Winner(|winners| + 1, s.entryId, s.participantId, code)];
      } else if |alternates| < plan.totalAlternates {
        alternates := alternates + [Alternate(|alternates| + 1, s.entryId, s.participantId)];
      } else {
        return Selection(winners, alternates);
      }
      n := n + 1;
    }
    assert ordered[i..] == [] && all[n..] == [];
    assert all[..n] == all;
    sel := Selection(winners, alternates);
  }
}
