/** What the draw means: entries (or participants) ranked by their best ticket. The declarative
    ranking depends only on the set of tickets, which is what makes the fairness results hold. */
module DrawRanking {
  import opened Collections
  import opened Strings
  import opened Draw

  /** What may win only once: the participant under one-prize-per-participant, else the entry. */
  function Key(t: Ticket, one: bool): string {
    if one then t.participantId else t.entryId
  }

  ghost predicate Ascends(d: seq<Ticket>) {
    forall i, j :: 0 <= i < j < |d| ==> Before(d[i], d[j])
  }

  ghost predicate DistinctKeys(d: seq<Ticket>, one: bool) {
    forall i, j :: 0 <= i < j < |d| ==> Key(d[i], one) != Key(d[j], one)
  }

  /** Does `d` hold a ticket of the same key that is no later than `t`? */
  ghost predicate Represented(t: Ticket, d: seq<Ticket>, one: bool) {
    exists r :: r in d && Key(r, one) == Key(t, one) && !Before(t, r)
  }

  /** `d` lists each key of `ts` once, through that key's smallest ticket, in ascending order. */
  ghost predicate IsRanking(d: seq<Ticket>, ts: set<Ticket>, one: bool) {
    && (forall r :: r in d ==> r in ts)
    && Ascends(d)
    && DistinctKeys(d, one)
    && (forall t :: t in ts ==> Represented(t, d, one))
  }

  // ----- The greedy pass computes the ranking --------------------------------

  /** The first ticket of every key not yet seen. */
  function FirstByKey(s: seq<Ticket>, one: bool, seen: set<string>): seq<Ticket> {
    if s == [] then []
    else if Key(s[0], one) in seen then FirstByKey(s[1..], one, seen)
    else [s[0]] + FirstByKey(s[1..], one, seen + {Key(s[0], one)})
  }

  lemma {:induction false} GreedyIsFirstByKey(s: seq<Ticket>, one: bool, seenE: set<string>, seenP: set<string>)
    requires Consistent(Elements(s))
    requires one ==> forall t :: t in s && t.entryId in seenE ==> t.participantId in seenP
    ensures Greedy(s, one, seenE, seenP) == FirstByKey(s, one, if one then seenP else seenE)
  {
    if s != [] {
      assert Elements(s[1..]) <= Elements(s) && s[0] in Elements(s);
      if s[0].entryId in seenE || (one && s[0].participantId in seenP) {
        GreedyIsFirstByKey(s[1..], one, seenE, seenP);
      } else {
        GreedyIsFirstByKey(s[1..], one, seenE + {s[0].entryId}, seenP + {s[0].participantId});
      }
    }
  }

  ghost predicate RanksUnseen(d: seq<Ticket>, s: seq<Ticket>, one: bool, seen: set<string>) {
    && (forall r :: r in d ==> r in s && Key(r, one) !in seen)
    && Ascends(d)
    && DistinctKeys(d, one)
    && (forall t :: t in s ==> Key(t, one) in seen || Represented(t, d, one))
  }

  lemma PrependAscends(t: Ticket, d: seq<Ticket>)
    requires Ascends(d) && forall j :: 0 <= j < |d| ==> Before(t, d[j])
    ensures Ascends([t] + d)
  {
  }

  lemma HeadPrecedes(s: seq<Ticket>, t: Ticket, one: bool)
    requires s != [] && Sorted(s) && Consistent(Elements(s)) && t in s && Key(t, one) != Key(s[0], one)
    ensures Before(s[0], t)
  {
    HeadIsFirst(s, t);
    BeforeTotal(s[0], t);
    assert s[0] in Elements(s) && t in Elements(s);
  }

  lemma HeadRepresents(s: seq<Ticket>, one: bool, tail: seq<Ticket>, t: Ticket)
    requires s != [] && Sorted(s) && t in s
    requires Key(t, one) == Key(s[0], one) || Represented(t, tail, one)
    ensures Represented(t, [s[0]] + tail, one)
  {
    if Key(t, one) == Key(s[0], one) {
      HeadIsFirst(s, t);
      assert s[0] in [s[0]] + tail;
    } else {
      var r :| r in tail && Key(r, one) == Key(t, one) && !Before(t, r);
      assert r in [s[0]] + tail;
    }
  }

  lemma PrependDistinct(t: Ticket, d: seq<Ticket>, one: bool)
    requires DistinctKeys(d, one) && forall r :: r in d ==> Key(r, one) != Key(t, one)
    ensures DistinctKeys([t] + d, one)
  {
  }

  lemma TakeHead(s: seq<Ticket>, one: bool, seen: set<string>, tail: seq<Ticket>)
    requires s != [] && Sorted(s) && Consistent(Elements(s)) && Key(s[0], one) !in seen
    requires RanksUnseen(tail, s[1..], one, seen + {Key(s[0], one)})
    ensures RanksUnseen([s[0]] + tail, s, one, seen)
  {
    var d := [s[0]] + tail;
    assert Ascends(d) by {
      forall j | 0 <= j < |tail| ensures Before(s[0], tail[j]) {
        assert tail[j] in s[1..];
        HeadPrecedes(s, tail[j], one);
      }
      PrependAscends(s[0], tail);
    }
    PrependDistinct(s[0], tail, one);
    assert forall t :: t in s ==> t == s[0] || t in s[1..];
    forall t | t in s ensures Key(t, one) in seen || Represented(t, d, one) {
      if Key(t, one) !in seen {
        HeadRepresents(s, one, tail, t);
      }
    }
  }

  lemma {:induction false} FirstByKeyRanks(s: seq<Ticket>, one: bool, seen: set<string>)
    requires Sorted(s) && Consistent(Elements(s))
    ensures RanksUnseen(FirstByKey(s, one, seen), s, one, seen)
  {
    if s != [] {
      assert Elements(s[1..]) <= Elements(s);
      if Key(s[0], one) in seen {
        FirstByKeyRanks(s[1..], one, seen);
      } else {
        FirstByKeyRanks(s[1..], one, seen + {Key(s[0], one)});
        TakeHead(s, one, seen, FirstByKey(s[1..], one, seen + {Key(s[0], one)}));
      }
    }
  }

  /** De-duplicating a sorted sequence by first occurrence ranks every key by its best ticket. */
  lemma AcceptedIsRanking(s: seq<Ticket>, plan: Plan)
    requires Sorted(s) && Consistent(Elements(s))
    ensures IsRanking(Accepted(s, plan), Elements(s), plan.onePrizePerParticipant)
  {
    GreedyIsFirstByKey(s, plan.onePrizePerParticipant, {}, {});
    FirstByKeyRanks(s, plan.onePrizePerParticipant, {});
  }

  // ----- There is only one ranking --------------------------------------------

  lemma BeforeIrreflexive(t: Ticket)
    ensures !Before(t, t)
  {
    LessIrreflexive(t.score);
    LessIrreflexive(t.entryId);
  }

  lemma AscendingHeads(a: seq<Ticket>, b: seq<Ticket>)
    requires Ascends(a) && Ascends(b) && Elements(a) == Elements(b) && a != []
    ensures b != [] && a[0] == b[0]
    ensures Elements(a[1..]) == Elements(a) - {a[0]}
  {
    assert a[0] in Elements(b);
    var j :| 0 <= j < |b| && b[j] == a[0];
    assert b[0] in Elements(a);
    var i :| 0 <= i < |a| && a[i] == b[0];
    if i != 0 && j != 0 {
      BeforeAsymmetric(a[0], b[0]);
    }
    BeforeIrreflexive(a[0]);
    assert forall t :: t in a ==> t == a[0] || t in a[1..];
  }

  lemma EmptyElements<T>(s: seq<T>)
    ensures Elements(s) == {} ==> s == []
  {
    if s != [] {
      assert s[0] in Elements(s);
    }
  }

  lemma {:induction false} AscendingUnique(a: seq<Ticket>, b: seq<Ticket>)
    requires Ascends(a) && Ascends(b) && Elements(a) == Elements(b)
    ensures a == b
  {
    if a == [] {
      EmptyElements(b);
    } else {
      AscendingHeads(a, b);
      AscendingHeads(b, a);
      AscendingUnique(a[1..], b[1..]);
      assert a == [a[0]] + a[1..] && b == [b[0]] + b[1..];
    }
  }

  lemma RankingElements(d: seq<Ticket>, e: seq<Ticket>, ts: set<Ticket>, one: bool)
    requires Consistent(ts) && IsRanking(d, ts, one) && IsRanking(e, ts, one)
    ensures Elements(d) <= Elements(e)
  {
    forall t | t in d ensures t in e {
      assert Represented(t, e, one);
      var r :| r in e && Key(r, one) == Key(t, one) && !Before(t, r);
      assert Represented(r, d, one);
      var q :| q in d && Key(q, one) == Key(r, one) && !Before(r, q);
      assert q == t;
      BeforeTotal(t, r);
    }
  }

  /** A set of tickets has at most one ranking. */
  lemma RankingIsUnique(d: seq<Ticket>, e: seq<Ticket>, ts: set<Ticket>, one: bool)
    requires Consistent(ts) && IsRanking(d, ts, one) && IsRanking(e, ts, one)
    ensures d == e
  {
    RankingElements(d, e, ts, one);
    RankingElements(e, d, ts, one);
    AscendingUnique(d, e);
  }

  // ----- Deleting a key ---------------------------------------------------------

  ghost function Others(ts: set<Ticket>, k: string, one: bool): set<Ticket> {
    set t | t in ts && Key(t, one) != k
  }

  function DropAt<T>(s: seq<T>, i: nat): seq<T>
    requires i < |s|
  {
    s[..i] + s[i + 1..]
  }

  lemma DropKeepsOrder(d: seq<Ticket>, one: bool, i: nat)
    requires Ascends(d) && DistinctKeys(d, one) && i < |d|
    ensures Ascends(DropAt(d, i)) && DistinctKeys(DropAt(d, i), one)
  {
    var e := DropAt(d, i);
    assert forall j :: 0 <= j < |e| ==> e[j] == d[if j < i then j else j + 1];
  }

  lemma DropElements<T>(d: seq<T>, i: nat)
    requires i < |d|
    ensures forall r :: r in DropAt(d, i) ==> r in d
    ensures forall r :: r in d && r != d[i] ==> r in DropAt(d, i)
  {
    assert d == d[..i] + [d[i]] + d[i + 1..];
  }

  lemma OthersDiffer(d: seq<Ticket>, one: bool, i: nat, r: Ticket)
    requires DistinctKeys(d, one) && i < |d| && r in DropAt(d, i)
    ensures Key(r, one) != Key(d[i], one)
  {
    hide Key;
    var e := DropAt(d, i);
    var j :| 0 <= j < |e| && e[j] == r;
    assert r == d[if j < i then j else j + 1];
  }

  /** Removing one ranked key leaves the ranking of the other keys' tickets. */
  lemma DropFromRanking(d: seq<Ticket>, ts: set<Ticket>, one: bool, i: nat)
    requires IsRanking(d, ts, one) && i < |d|
    ensures IsRanking(DropAt(d, i), Others(ts, Key(d[i], one), one), one)
  {
    hide Before, Ascends, DistinctKeys, Key;
    var e, k := DropAt(d, i), Key(d[i], one);
    DropKeepsOrder(d, one, i);
    DropElements(d, i);
    forall r | r in e ensures Key(r, one) != k {
      OthersDiffer(d, one, i, r);
    }
    forall t | t in Others(ts, k, one) ensures Represented(t, e, one) {
      assert Represented(t, d, one);
      var r :| r in d && Key(r, one) == Key(t, one) && !Before(t, r);
      assert r in e;
    }
  }

  function Without(s: seq<Ticket>, k: string, one: bool): seq<Ticket> {
    if s == [] then []
    else if Key(s[0], one) == k then Without(s[1..], k, one)
    else [s[0]] + Without(s[1..], k, one)
  }

  lemma {:induction false} WithoutKey(s: seq<Ticket>, k: string, one: bool)
    requires Sorted(s)
    ensures Sorted(Without(s, k, one))
    ensures Elements(Without(s, k, one)) == Others(Elements(s), k, one)
  {
    if s != [] {
      WithoutKey(s[1..], k, one);
      var w := Without(s[1..], k, one);
      forall j | 0 <= j < |w| ensures !Before(w[j], s[0]) {
        assert w[j] in Elements(w);
        HeadIsFirst(s, w[j]);
      }
      assert Elements(s) == {s[0]} + Elements(s[1..]);
      assert Elements([s[0]] + w) == {s[0]} + Elements(w);
    }
  }

  lemma SubsetConsistent(us: set<Ticket>, ts: set<Ticket>)
    requires us <= ts && Consistent(ts)
    ensures Consistent(us)
  {
  }

  /** Deleting every ticket of an accepted key and drawing again just closes the gap. */
  lemma DeletedKeyClosesGap(s: seq<Ticket>, plan: Plan, i: nat)
    requires Sorted(s) && Consistent(Elements(s)) && i < |Accepted(s, plan)|
    ensures var one := plan.onePrizePerParticipant;
            Accepted(Without(s, Key(Accepted(s, plan)[i], one), one), plan) == DropAt(Accepted(s, plan), i)
  {
    var one, d := plan.onePrizePerParticipant, Accepted(s, plan);
    var k := Key(d[i], one);
    AcceptedIsRanking(s, plan);
    WithoutKey(s, k, one);
    SubsetConsistent(Others(Elements(s), k, one), Elements(s));
    AcceptedIsRanking(Without(s, k, one), plan);
    DropFromRanking(d, Elements(s), one, i);
    RankingIsUnique(Accepted(Without(s, k, one), plan), DropAt(d, i), Others(Elements(s), k, one), one);
  }

  // ----- Alternates are next in line ---------------------------------------------

  function WinnerIds(ws: seq<Winner>): seq<(string, string)> {
    seq(|ws|, i requires 0 <= i < |ws| => (ws[i].entryId, ws[i].participantId))
  }

  function AlternateIds(xs: seq<Alternate>): seq<(string, string)> {
    seq(|xs|, i requires 0 <= i < |xs| => (xs[i].entryId, xs[i].participantId))
  }

  function TicketIds(ts: seq<Ticket>): seq<(string, string)> {
    seq(|ts|, i requires 0 <= i < |ts| => (ts[i].entryId, ts[i].participantId))
  }

  function WinnerKey(w: Winner, one: bool): string {
    if one then w.participantId else w.entryId
  }

  /** Winners then alternates are the first of the ranking: nobody appears twice, positions count
      from 1 in each list, and a list is short only when the ranking runs out. */
  lemma SelectionIsPrefix(s: seq<Ticket>, plan: Plan)
    requires Sorted(s) && Consistent(Elements(s))
    ensures var (sel, d) := (Outcome(Accepted(s, plan), plan), Accepted(s, plan));
            && WinnerIds(sel.winners) + AlternateIds(sel.alternates)
               == TicketIds(d[..Min(|d|, Max(0, plan.totalWinners) + Max(0, plan.totalAlternates))])
            && |sel.winners| == Min(|d|, Max(0, plan.totalWinners))
            && (forall i :: 0 <= i < |sel.winners| ==> sel.winners[i].position == i + 1)
            && (forall i :: 0 <= i < |sel.alternates| ==> sel.alternates[i].position == i + 1)
            && IsRanking(d, Elements(s), plan.onePrizePerParticipant)
  {
    hide Before, Accepted, IsRanking, PrizeCode, Sorted, Consistent;
    AcceptedIsRanking(s, plan);
    var sel, d := Outcome(Accepted(s, plan), plan), Accepted(s, plan);
    assert WinnerIds(sel.winners) + AlternateIds(sel.alternates)
        == TicketIds(d[..Min(|d|, Max(0, plan.totalWinners) + Max(0, plan.totalAlternates))]);
  }

  /** With a full winner list, dropping one winner from the ranking pulls everyone behind up. */
  lemma OutcomeAfterDrop(d: seq<Ticket>, plan: Plan, i: nat)
    requires i < |Outcome(d, plan).winners| && Outcome(d, plan).alternates != []
    ensures var (sel, again) := (Outcome(d, plan), Outcome(DropAt(d, i), plan));
            && WinnerIds(again.winners) == DropAt(WinnerIds(sel.winners), i) + AlternateIds(sel.alternates)[..1]
            && AlternateIds(sel.alternates)[1..] <= AlternateIds(again.alternates)
  {
    hide PrizeCode;
    var sel, again := Outcome(d, plan), Outcome(DropAt(d, i), plan);
    assert |again.winners| == |sel.winners| == plan.totalWinners;
    assert WinnerIds(again.winners) == DropAt(WinnerIds(sel.winners), i) + AlternateIds(sel.alternates)[..1];
    assert AlternateIds(sel.alternates)[1..] == AlternateIds(again.alternates)[..|sel.alternates| - 1];
  }

  /** Strike out any one winner and draw again: the other winners keep their order, the first
      alternate becomes the last winner, and the other alternates move up. */
  lemma AlternateIsNextInLine(s: seq<Ticket>, plan: Plan, i: nat)
    requires Sorted(s) && Consistent(Elements(s))
    requires i < |Outcome(Accepted(s, plan), plan).winners| && Outcome(Accepted(s, plan), plan).alternates != []
    ensures var (one, sel) := (plan.onePrizePerParticipant, Outcome(Accepted(s, plan), plan));
            var again := Outcome(Accepted(Without(s, WinnerKey(sel.winners[i], one), one), plan), plan);
            && WinnerIds(again.winners) == DropAt(WinnerIds(sel.winners), i) + AlternateIds(sel.alternates)[..1]
            && AlternateIds(sel.alternates)[1..] <= AlternateIds(again.alternates)
  {
    DeletedKeyClosesGap(s, plan, i);
    OutcomeAfterDrop(Accepted(s, plan), plan, i);
  }
}
