/** Prize conservation: how ranks are shared out among the tiers. */
module DrawPrizes {
  import opened Draw

  ghost predicate NonNegative(tiers: seq<Tier>) {
    forall t :: t in tiers ==> t.count >= 0
  }

  function TierOf(tiers: seq<Tier>, rank: nat): nat {
    TierFrom(tiers, rank, 0)
  }

  lemma {:induction false} CumulativeMonotone(tiers: seq<Tier>, i: nat, j: nat)
    requires NonNegative(tiers) && i <= j <= |tiers|
    ensures Cumulative(tiers, i) <= Cumulative(tiers, j)
    decreases j - i
  {
    if i < j {
      CumulativeMonotone(tiers, i, j - 1);
    }
  }

  /** A rank belongs to tier t exactly when it lies above the earlier tiers and within t. */
  lemma TierBounds(tiers: seq<Tier>, rank: nat, t: nat)
    requires NonNegative(tiers) && rank >= 1 && t < |tiers|
    ensures TierOf(tiers, rank) == t <==> Cumulative(tiers, t) < rank <= Cumulative(tiers, t + 1)
  {
    var u := TierOf(tiers, rank);
    if u == t {
      if t > 0 {
        assert !Reaches(tiers, t - 1, rank);
      }
    } else if u < t {
      CumulativeMonotone(tiers, u + 1, t);
    } else {
      assert !Reaches(tiers, t, rank);
    }
  }

  /** The code of a rank is that of the tier that holds it, counting the tiers' prizes from the first;
      beyond all of them it is the last tier's, or "P1" if there is none or it has no code. */
  lemma PrizeCodeMeans(tiers: seq<Tier>, rank: nat)
    requires NonNegative(tiers) && rank >= 1
    ensures forall t :: 0 <= t < |tiers| && PrizesBelow(tiers, t) < rank <= PrizesBelow(tiers, t) + tiers[t].count ==>
              PrizeCode(rank, tiers) == tiers[t].code
    ensures rank > PrizesBelow(tiers, |tiers|) ==>
              PrizeCode(rank, tiers) ==
              if tiers != [] && tiers[|tiers| - 1].code != "" then tiers[|tiers| - 1].code else "P1"
  {
    forall t | 0 <= t < |tiers| && PrizesBelow(tiers, t) < rank <= PrizesBelow(tiers, t) + tiers[t].count
      ensures PrizeCode(rank, tiers) == tiers[t].code
    {
      BelowIsCumulative(tiers, t);
      TierBounds(tiers, rank, t);
    }
    BelowIsCumulative(tiers, |tiers|);
    var u := TierOf(tiers, rank);
    if u < |tiers| {
      CumulativeMonotone(tiers, u + 1, |tiers|);
    }
  }

  /** The prizes of the first `n` tiers. */
  function PrizesBelow(tiers: seq<Tier>, n: nat): int
    requires n <= |tiers|
    decreases n
  {
    if n == 0 then 0 else tiers[0].count + PrizesBelow(tiers[1..], n - 1)
  }

  lemma {:induction false} BelowIsCumulative(tiers: seq<Tier>, n: nat)
    requires n <= |tiers|
    ensures PrizesBelow(tiers, n) == Cumulative(tiers, n)
  {
    if n > 0 {
      BelowIsCumulative(tiers, n - 1);
      BelowLast(tiers, n);
    }
  }

  lemma {:induction false} BelowLast(tiers: seq<Tier>, n: nat)
    requires 0 < n <= |tiers|
    ensures PrizesBelow(tiers, n) == PrizesBelow(tiers, n - 1) + tiers[n - 1].count
  {
    if n > 1 {
      BelowLast(tiers[1..], n - 1);
    }
  }

  /** Better ranks never get a later tier. */
  lemma TierOrder(tiers: seq<Tier>, a: nat, b: nat)
    requires a <= b
    ensures TierOf(tiers, a) <= TierOf(tiers, b)
  {
    var t := TierOf(tiers, b);
    if t < |tiers| {
      assert Reaches(tiers, t, a);
    }
  }

  /** How many of the ranks 1..m fall in tier t. */
  function RanksIn(tiers: seq<Tier>, m: nat, t: nat): nat {
    if m == 0 then 0 else RanksIn(tiers, m - 1, t) + if TierOf(tiers, m) == t then 1 else 0
  }

  /** Tier t gets the part of 1..m that lies above the earlier tiers, up to its own count. */
  lemma {:induction false} RanksInTier(tiers: seq<Tier>, m: nat, t: nat)
    requires NonNegative(tiers) && t < |tiers|
    ensures RanksIn(tiers, m, t) == Min(Max(m - Cumulative(tiers, t), 0), tiers[t].count)
  {
    if m == 0 {
      CumulativeMonotone(tiers, 0, t);
    } else {
      RanksInTier(tiers, m - 1, t);
      TierBounds(tiers, m, t);
    }
  }

  /** Of the ranks 1..m no tier gets more than its count; tiers before the last rank's are filled,
      later ones empty, and all are filled when m is what they hold together. */
  lemma TierShares(tiers: seq<Tier>, m: nat, t: nat)
    requires NonNegative(tiers) && t < |tiers| && m <= Cumulative(tiers, |tiers|)
    ensures RanksIn(tiers, m, t) <= tiers[t].count
    ensures m == Cumulative(tiers, |tiers|) ==> RanksIn(tiers, m, t) == tiers[t].count
    ensures m > 0 && t < TierOf(tiers, m) ==> RanksIn(tiers, m, t) == tiers[t].count
    ensures t > TierOf(tiers, m) ==> RanksIn(tiers, m, t) == 0
  {
    RanksInTier(tiers, m, t);
    CumulativeMonotone(tiers, t + 1, |tiers|);
    if t < TierOf(tiers, m) {
      assert !Reaches(tiers, t, m);
    } else if t > TierOf(tiers, m) {
      CumulativeMonotone(tiers, TierOf(tiers, m) + 1, t);
    }
  }

  // ----- Prize codes ------------------------------------------------------------------------

  /** How many winners hold a prize code. */
  function Holding(ws: seq<Winner>, code: string): nat {
    if ws == [] then 0
    else Holding(ws[..|ws| - 1], code) + if ws[|ws| - 1].prizeCode == code then 1 else 0
  }

  /** How many of the ranks 1..m fall in those of the first `n` tiers that have the code. */
  function RanksWithCode(tiers: seq<Tier>, m: nat, code: string, n: nat): nat
    requires n <= |tiers|
  {
    if n == 0 then 0
    else RanksWithCode(tiers, m, code, n - 1) + if tiers[n - 1].code == code then RanksIn(tiers, m, n - 1) else 0
  }

  /** How many prizes those of the first `n` tiers hold that have the code. */
  function CountWithCode(tiers: seq<Tier>, code: string, n: nat): int
    requires n <= |tiers|
  {
    if n == 0 then 0
    else CountWithCode(tiers, code, n - 1) + if tiers[n - 1].code == code then tiers[n - 1].count else 0
  }

  lemma {:induction false} NoRanks(tiers: seq<Tier>, code: string, n: nat)
    requires n <= |tiers|
    ensures RanksWithCode(tiers, 0, code, n) == 0
  {
    if n > 0 {
      NoRanks(tiers, code, n - 1);
    }
  }

  lemma {:induction false} OneMoreRank(tiers: seq<Tier>, m: nat, code: string, n: nat)
    requires m > 0 && n <= |tiers|
    ensures var t := TierOf(tiers, m);
            RanksWithCode(tiers, m, code, n)
            == RanksWithCode(tiers, m - 1, code, n) + if t < n && tiers[t].code == code then 1 else 0
  {
    if n > 0 {
      OneMoreRank(tiers, m, code, n - 1);
    }
  }

  lemma {:induction false} HoldersAreRanks(ts: seq<Ticket>, plan: Plan, ws: seq<Winner>, code: string)
    requires ws <= Outcome(ts, plan).winners && |ws| <= Cumulative(plan.tiers, |plan.tiers|)
    requires NonNegative(plan.tiers)
    ensures Holding(ws, code) == RanksWithCode(plan.tiers, |ws|, code, |plan.tiers|)
  {
    if ws == [] {
      NoRanks(plan.tiers, code, |plan.tiers|);
    } else {
      hide RanksWithCode, Holding;
      HoldersAreRanks(ts, plan, ws[..|ws| - 1], code);
      OneMoreRank(plan.tiers, |ws|, code, |plan.tiers|);
      assert Reaches(plan.tiers, |plan.tiers| - 1, |ws|);
      assert ws[|ws| - 1] == WinnerAt(ts, plan, |ws| - 1);
      HoldingLast(ws, code);
    }
  }

  lemma HoldingLast(ws: seq<Winner>, code: string)
    requires ws != []
    ensures Holding(ws, code) == Holding(ws[..|ws| - 1], code) + if ws[|ws| - 1].prizeCode == code then 1 else 0
  {
  }

  lemma {:induction false} CodeShares(tiers: seq<Tier>, m: nat, code: string, n: nat)
    requires NonNegative(tiers) && n <= |tiers| && m <= Cumulative(tiers, |tiers|)
    ensures RanksWithCode(tiers, m, code, n) <= CountWithCode(tiers, code, n)
    ensures m == Cumulative(tiers, |tiers|) ==> RanksWithCode(tiers, m, code, n) == CountWithCode(tiers, code, n)
  {
    if n > 0 {
      CodeShares(tiers, m, code, n - 1);
      TierShares(tiers, m, n - 1);
    }
  }

  /** With tier counts that add up to the planned winners, a code is held by as many winners as
      there are ranks in its tiers, so never by more than those tiers hold, and by exactly as many
      in a full draw. */
  lemma PrizesAreConserved(ts: seq<Ticket>, plan: Plan, code: string)
    requires NonNegative(plan.tiers) && Cumulative(plan.tiers, |plan.tiers|) == plan.totalWinners
    ensures var ws := Outcome(ts, plan).winners;
            && Holding(ws, code) == RanksWithCode(plan.tiers, |ws|, code, |plan.tiers|)
            && Holding(ws, code) <= CountWithCode(plan.tiers, code, |plan.tiers|)
            && (|ws| == plan.totalWinners ==> Holding(ws, code) == CountWithCode(plan.tiers, code, |plan.tiers|))
  {
    hide Holding, RanksWithCode, CountWithCode;
    CumulativeMonotone(plan.tiers, 0, |plan.tiers|);
    HoldersAreRanks(ts, plan, Outcome(ts, plan).winners, code);
    CodeShares(plan.tiers, |Outcome(ts, plan).winners|, code, |plan.tiers|);
  }
}
