/** Fairness of the whole draw, from the candidate list to the selection. */
module DrawFairness {
  import opened Collections
  import opened Draw
  import opened DrawRanking

  ghost predicate UniqueIds(cs: seq<Candidate>) {
    forall i, j :: 0 <= i < j < |cs| ==> cs[i].entryId != cs[j].entryId
  }

  function Ordered(hmac: string -> string, cs: seq<Candidate>): seq<Ticket> {
    Sort(AllTickets(hmac, cs))
  }

  function Drawn(hmac: string -> string, cs: seq<Candidate>, plan: Plan): Selection {
    Outcome(Accepted(Ordered(hmac, cs), plan), plan)
  }

  function CandidateKey(c: Candidate, one: bool): string {
    if one then c.participantId else c.entryId
  }

  // ----- The set of tickets ------------------------------------------------------

  ghost predicate IsTicketOf(hmac: string -> string, t: Ticket, c: Candidate) {
    exists u :: 0 <= u < Units(c) && t == TicketOf(hmac, c, u)
  }

  lemma {:induction false} TicketMembers(hmac: string -> string, cs: seq<Candidate>)
    ensures forall t :: t in AllTickets(hmac, cs) <==> exists c :: c in cs && IsTicketOf(hmac, t, c)
  {
    if cs != [] {
      var front, c := cs[..|cs| - 1], cs[|cs| - 1];
      TicketMembers(hmac, front);
      assert cs == front + [c];
      var own := TicketsOf(hmac, c, Units(c));
      forall t ensures t in own <==> IsTicketOf(hmac, t, c) {
        if t in own {
          var u :| 0 <= u < |own| && own[u] == t;
          assert t == TicketOf(hmac, c, u);
        }
        if IsTicketOf(hmac, t, c) {
          var u :| 0 <= u < Units(c) && t == TicketOf(hmac, c, u);
          assert own[u] == t;
        }
      }
    }
  }

  lemma TicketsConsistent(hmac: string -> string, cs: seq<Candidate>)
    requires UniqueIds(cs)
    ensures Consistent(Elements(AllTickets(hmac, cs)))
    ensures Consistent(Elements(Ordered(hmac, cs)))
    ensures Elements(Ordered(hmac, cs)) == Elements(AllTickets(hmac, cs))
  {
    TicketMembers(hmac, cs);
    SortSorts(AllTickets(hmac, cs));
    assert forall t :: t in Ordered(hmac, cs) <==> t in multiset(Ordered(hmac, cs));
    assert forall t :: t in AllTickets(hmac, cs) <==> t in multiset(AllTickets(hmac, cs));
  }

  /** The ranking the draw uses: every candidate is in it under its entry or participant, ordered
      by the smallest ticket held under that key. */
  lemma DrawRanksEveryCandidate(hmac: string -> string, cs: seq<Candidate>, plan: Plan)
    requires UniqueIds(cs)
    ensures var (one, d) := (plan.onePrizePerParticipant, Accepted(Ordered(hmac, cs), plan));
            && IsRanking(d, Elements(AllTickets(hmac, cs)), one)
            && (forall c :: c in cs ==> exists r :: r in d && Key(r, one) == CandidateKey(c, one))
            && (forall r :: r in d ==> exists c :: c in cs && IsTicketOf(hmac, r, c))
  {
    var one, d, ts := plan.onePrizePerParticipant, Accepted(Ordered(hmac, cs), plan), AllTickets(hmac, cs);
    TicketsConsistent(hmac, cs);
    SortSorts(ts);
    AcceptedIsRanking(Ordered(hmac, cs), plan);
    TicketMembers(hmac, cs);
    forall c | c in cs ensures exists r :: r in d && Key(r, one) == CandidateKey(c, one) {
      var t := TicketOf(hmac, c, 0);
      assert IsTicketOf(hmac, t, c);
      assert t in Elements(ts);
      assert Represented(t, d, one);
    }
    forall r | r in d ensures exists c :: c in cs && IsTicketOf(hmac, r, c) {
      assert r in Elements(ts);
    }
  }

  // ----- Listing order does not matter ---------------------------------------------

  lemma NoTickets(hmac: string -> string)
    ensures AllTickets(hmac, []) == []
  {
  }

  lemma AllTicketsLast(hmac: string -> string, cs: seq<Candidate>, c: Candidate)
    ensures AllTickets(hmac, cs + [c]) == AllTickets(hmac, cs) + TicketsOf(hmac, c, Units(c))
  {
    hide TicketsOf, Units;
    assert (cs + [c])[..|cs|] == cs;
  }

  lemma {:induction false} AllTicketsConcat(hmac: string -> string, a: seq<Candidate>, b: seq<Candidate>)
    ensures AllTickets(hmac, a + b) == AllTickets(hmac, a) + AllTickets(hmac, b)
  {
    hide AllTickets, TicketsOf, Units;
    if b == [] {
      assert a + b == a;
      NoTickets(hmac);
    } else {
      var front, c := b[..|b| - 1], b[|b| - 1];
      assert a + b == a + front + [c] && b == front + [c];
      AllTicketsConcat(hmac, a, front);
      AllTicketsLast(hmac, a + front, c);
      AllTicketsLast(hmac, front, c);
    }
  }

  lemma AllTicketsOfOne(hmac: string -> string, c: Candidate)
    ensures AllTickets(hmac, [c]) == TicketsOf(hmac, c, Units(c))
  {
    assert [c][..0] == [];
  }

  lemma AllTicketsSplit(hmac: string -> string, cs: seq<Candidate>, j: nat)
    requires j < |cs|
    ensures multiset(AllTickets(hmac, cs))
         == multiset(AllTickets(hmac, DropAt(cs, j))) + multiset(TicketsOf(hmac, cs[j], Units(cs[j])))
  {
    hide AllTickets, TicketsOf;
    assert cs == cs[..j] + ([cs[j]] + cs[j + 1..]);
    AllTicketsConcat(hmac, cs[..j], [cs[j]] + cs[j + 1..]);
    AllTicketsConcat(hmac, [cs[j]], cs[j + 1..]);
    AllTicketsOfOne(hmac, cs[j]);
    AllTicketsConcat(hmac, cs[..j], cs[j + 1..]);
  }

  lemma DropMultiset<T>(s: seq<T>, j: nat)
    requires j < |s|
    ensures multiset(DropAt(s, j)) == multiset(s) - multiset{s[j]}
  {
    assert s == s[..j] + [s[j]] + s[j + 1..];
  }

  lemma {:induction false} PermutedTickets(hmac: string -> string, a: seq<Candidate>, b: seq<Candidate>)
    requires multiset(a) == multiset(b)
    ensures multiset(AllTickets(hmac, a)) == multiset(AllTickets(hmac, b))
    decreases |a|
  {
    assert |a| == |multiset(a)| == |multiset(b)| == |b|;
    if a != [] {
      assert a[0] in multiset(b);
      var j :| 0 <= j < |b| && b[j] == a[0];
      DropMultiset(a, 0);
      DropMultiset(b, j);
      PermutedTickets(hmac, DropAt(a, 0), DropAt(b, j));
      AllTicketsSplit(hmac, a, 0);
      AllTicketsSplit(hmac, b, j);
    }
  }

  /** With unique entry ids, any order of listing the candidates gives the same sorted sequence,
      whichever sorting algorithm produced it, and so the same winners and alternates. */
  lemma ListingOrderIsIrrelevant(hmac: string -> string, a: seq<Candidate>, b: seq<Candidate>, sorted: seq<Ticket>,
                                 plan: Plan)
    requires UniqueIds(a) && multiset(a) == multiset(b)
    requires Sorted(sorted) && multiset(sorted) == multiset(AllTickets(hmac, b))
    ensures sorted == Ordered(hmac, a) == Ordered(hmac, b)
    ensures Drawn(hmac, a, plan) == Drawn(hmac, b, plan) == Outcome(Accepted(sorted, plan), plan)
  {
    PermutedTickets(hmac, a, b);
    SortSorts(AllTickets(hmac, a));
    SortSorts(AllTickets(hmac, b));
    TicketsConsistent(hmac, a);
    SortIsUnique(Ordered(hmac, a), Ordered(hmac, b));
    SortIsUnique(Ordered(hmac, a), sorted);
  }

  // ----- More weight never hurts ------------------------------------------------------

  lemma BetterTicketIsNoLater(d: seq<Ticket>, e: seq<Ticket>, i: nat, j: nat)
    requires Ascends(d) && Ascends(e) && i < |d| && j < |e|
    requires DropAt(d, i) == DropAt(e, j) && !Before(d[i], e[j])
    ensures j <= i
  {
    if i < j {
      assert e[i] == DropAt(e, j)[i] == DropAt(d, i)[i] == d[i + 1];
      BeforeTransitive(d[i], e[i], e[j]);
    }
  }

  lemma OnlyRepresentative(e: seq<Ticket>, one: bool, t: Ticket, j: nat)
    requires DistinctKeys(e, one) && Represented(t, e, one) && j < |e| && Key(e[j], one) == Key(t, one)
    ensures !Before(t, e[j])
  {
    var r :| r in e && Key(r, one) == Key(t, one) && !Before(t, r);
    var m :| 0 <= m < |e| && e[m] == r;
    assert m == j;
  }

  /** Adding tickets of one key keeps the others in place and moves the key no later. */
  lemma MoreTicketsNeverHurt(d: seq<Ticket>, e: seq<Ticket>, ts: set<Ticket>, us: set<Ticket>, one: bool,
                             i: nat, j: nat)
    requires ts <= us && Consistent(us) && IsRanking(d, ts, one) && IsRanking(e, us, one)
    requires i < |d| && j < |e| && Key(d[i], one) == Key(e[j], one)
    requires Others(ts, Key(d[i], one), one) == Others(us, Key(d[i], one), one)
    ensures DropAt(d, i) == DropAt(e, j) && j <= i
  {
    var k := Key(d[i], one);
    assert d[i] in us;
    OnlyRepresentative(e, one, d[i], j);
    assert DropAt(d, i) == DropAt(e, j) by {
      DropFromRanking(d, ts, one, i);
      DropFromRanking(e, us, one, j);
      SubsetConsistent(Others(us, k, one), us);
      RankingIsUnique(DropAt(d, i), DropAt(e, j), Others(us, k, one), one);
    }
    BetterTicketIsNoLater(d, e, i, j);
  }

  lemma KeyIndex(d: seq<Ticket>, k: string, one: bool) returns (i: nat)
    requires exists r :: r in d && Key(r, one) == k
    ensures i < |d| && KeyAt(d, i, one) == k
  {
    var r :| r in d && Key(r, one) == k;
    i :| 0 <= i < |d| && d[i] == r;
  }

  lemma FindKey(hmac: string -> string, cs: seq<Candidate>, n: nat, plan: Plan) returns (i: nat)
    requires UniqueIds(cs) && n < |cs|
    ensures var d := Accepted(Ordered(hmac, cs), plan);
            i < |d| && KeyAt(d, i, plan.onePrizePerParticipant) == CandidateKey(cs[n], plan.onePrizePerParticipant)
  {
    hide IsRanking, Accepted, Ordered, IsTicketOf;
    DrawRanksEveryCandidate(hmac, cs, plan);
    var one := plan.onePrizePerParticipant;
    i := KeyIndex(Accepted(Ordered(hmac, cs), plan), CandidateKey(cs[n], one), one);
  }

  lemma DrawIsRanking(hmac: string -> string, cs: seq<Candidate>, plan: Plan)
    requires UniqueIds(cs)
    ensures IsRanking(Accepted(Ordered(hmac, cs), plan), Elements(AllTickets(hmac, cs)), plan.onePrizePerParticipant)
  {
    DrawRanksEveryCandidate(hmac, cs, plan);
  }

  ghost function KeyAt(d: seq<Ticket>, i: nat, one: bool): string
    requires i < |d|
  {
    Key(d[i], one)
  }

  /** Raising one candidate's weight never moves its key later, and the others keep their order. */
  lemma RaisingWeightNeverHurts(hmac: string -> string, cs: seq<Candidate>, n: nat, weight: int, plan: Plan)
    returns (i: nat, j: nat)
    requires UniqueIds(cs) && n < |cs| && weight >= cs[n].weightUnits
    ensures var (one, d) := (plan.onePrizePerParticipant, Accepted(Ordered(hmac, cs), plan));
            var e := Accepted(Ordered(hmac, cs[n := cs[n].(weightUnits := weight)]), plan);
            && i < |d| && j < |e|
            && KeyAt(d, i, one) == KeyAt(e, j, one) == CandidateKey(cs[n], one)
            && DropAt(d, i) == DropAt(e, j)
            && j <= i
  {
    var heavier := cs[n := cs[n].(weightUnits := weight)];
    i := FindKey(hmac, cs, n, plan);
    j := FindKey(hmac, heavier, n, plan);
    DrawIsRanking(hmac, cs, plan);
    DrawIsRanking(hmac, heavier, plan);
    TicketsConsistent(hmac, heavier);
    HeavierTickets(hmac, cs, n, weight, plan.onePrizePerParticipant);
    MoreTicketsNeverHurt(Accepted(Ordered(hmac, cs), plan), Accepted(Ordered(hmac, heavier), plan),
                         Elements(AllTickets(hmac, cs)), Elements(AllTickets(hmac, heavier)),
                         plan.onePrizePerParticipant, i, j);
  }

  lemma SameTickets(hmac: string -> string, t: Ticket, c: Candidate, weight: int)
    requires weight >= c.weightUnits && IsTicketOf(hmac, t, c)
    ensures IsTicketOf(hmac, t, c.(weightUnits := weight))
  {
    var u :| 0 <= u < Units(c) && t == TicketOf(hmac, c, u);
    assert t == TicketOf(hmac, c.(weightUnits := weight), u);
  }

  lemma HeavierTickets(hmac: string -> string, cs: seq<Candidate>, n: nat, weight: int, one: bool)
    requires UniqueIds(cs) && n < |cs| && weight >= cs[n].weightUnits
    ensures var heavier := cs[n := cs[n].(weightUnits := weight)];
            var (ts, us) := (Elements(AllTickets(hmac, cs)), Elements(AllTickets(hmac, heavier)));
            ts <= us && Others(ts, CandidateKey(cs[n], one), one) == Others(us, CandidateKey(cs[n], one), one)
  {
    var heavier := cs[n := cs[n].(weightUnits := weight)];
    var ts, us := Elements(AllTickets(hmac, cs)), Elements(AllTickets(hmac, heavier));
    var k := CandidateKey(cs[n], one);
    TicketMembers(hmac, cs);
    TicketMembers(hmac, heavier);
    forall t | t in ts ensures t in us {
      var c :| c in cs && IsTicketOf(hmac, t, c);
      var m :| 0 <= m < |cs| && cs[m] == c;
      if m == n {
        SameTickets(hmac, t, c, weight);
      }
      assert heavier[m] in heavier && IsTicketOf(hmac, t, heavier[m]);
    }
    forall t | t in us && Key(t, one) != k ensures t in ts {
      var c :| c in heavier && IsTicketOf(hmac, t, c);
      var m :| 0 <= m < |heavier| && heavier[m] == c;
      assert Key(t, one) == CandidateKey(c, one);
      assert m != n;
      assert cs[m] in cs;
    }
  }
}
