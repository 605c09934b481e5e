/** What the sorted tickets are, said without the functions that make them: every candidate's weight
    in chances, each with its own keyed score, in order of score and then entry id. */
module DrawTickets {
  import opened Collections
  import opened Draw
  import opened DrawFairness
  import opened DrawRanking
  import opened Strings

  // ----- One chance, one text ----------------------------------------------------------------

  /** The text that is scored for one chance of an entry. */
  function ChanceText(entryId: string, u: nat): string {
    "entry:" + entryId + ":unit:" + Decimal(u)
  }

  lemma EndIndex(x: string, d: string, k: nat)
    requires IsDigits(d) && |x| < k <= |x| + |d|
    ensures IsDigit((x + ":" + d)[k])
  {
    assert (x + ":" + d)[k] == d[k - |x| - 1];
  }

  /** A text that ends in digits after a colon has one such end. */
  lemma SameEnd(x: string, d: string, y: string, e: string)
    requires x + ":" + d == y + ":" + e
    requires IsDigits(d) && IsDigits(e)
    ensures x == y && d == e
  {
    var s, t := x + ":" + d, y + ":" + e;
    if |x| < |y| {
      EndIndex(x, d, |y|);
      assert false;
    }
    if |y| < |x| {
      EndIndex(y, e, |x|);
      assert false;
    }
    assert x == s[..|x|] == t[..|y|] == y;
    assert d == s[|x| + 1..] == t[|y| + 1..] == e;
  }

  /** Different chances are scored on different texts, whatever the entry ids look like. */
  lemma ChanceTextInjective(e: string, u: nat, f: string, v: nat)
    requires ChanceText(e, u) == ChanceText(f, v)
    ensures e == f && u == v
  {
    DecimalDigits(u);
    DecimalDigits(v);
    hide Decimal;
    assert ChanceText(e, u) == ("entry:" + e + ":unit") + ":" + Decimal(u);
    assert ChanceText(f, v) == ("entry:" + f + ":unit") + ":" + Decimal(v);
    SameEnd("entry:" + e + ":unit", Decimal(u), "entry:" + f + ":unit", Decimal(v));
    var x, y := "entry:" + e + ":unit", "entry:" + f + ":unit";
    assert e == x[6..|x| - 5] == y[6..|y| - 5] == f;
    DecimalInjective(u, v);
  }

  // ----- How many tickets -------------------------------------------------------------------------

  function CountOf(s: seq<Ticket>, entryId: string): nat {
    if s == [] then 0 else (if s[0].entryId == entryId then 1 else 0) + CountOf(s[1..], entryId)
  }

  lemma {:induction false} CountConcat(a: seq<Ticket>, b: seq<Ticket>, id: string)
    ensures CountOf(a + b, id) == CountOf(a, id) + CountOf(b, id)
  {
    if a == [] {
      assert a + b == b;
    } else {
      assert (a + b)[1..] == a[1..] + b;
      CountConcat(a[1..], b, id);
    }
  }

  lemma {:induction false} CountSorted(s: seq<Ticket>, id: string)
    ensures CountOf(Sort(s), id) == CountOf(s, id)
  {
    if s != [] {
      CountSorted(s[1..], id);
      CountInserted(s[0], Sort(s[1..]), id);
    }
  }

  lemma {:induction false} CountInserted(t: Ticket, s: seq<Ticket>, id: string)
    ensures CountOf(Insert(t, s), id) == CountOf(s, id) + if t.entryId == id then 1 else 0
  {
    hide Before;
    if s == [] || !Before(s[0], t) {
      assert ([t] + s)[1..] == s;
    } else {
      CountInserted(t, s[1..], id);
      assert Insert(t, s)[1..] == Insert(t, s[1..]);
    }
  }

  lemma {:induction false} CountOfOne(hmac: string -> string, c: Candidate, n: nat, id: string)
    ensures CountOf(TicketsOf(hmac, c, n), id) == if c.entryId == id then n else 0
  {
    if n > 0 {
      var front := TicketsOf(hmac, c, n - 1);
      CountOfOne(hmac, c, n - 1, id);
      assert TicketsOf(hmac, c, n) == front + [TicketOf(hmac, c, n - 1)];
      CountConcat(front, [TicketOf(hmac, c, n - 1)], id);
      assert [TicketOf(hmac, c, n - 1)][1..] == [];
    } else {
      assert TicketsOf(hmac, c, 0) == [];
    }
  }

  lemma {:induction false} CountOfAbsent(hmac: string -> string, cs: seq<Candidate>, id: string)
    requires forall c :: c in cs ==> c.entryId != id
    ensures CountOf(AllTickets(hmac, cs), id) == 0
  {
    if cs != [] {
      var front, c := cs[..|cs| - 1], cs[|cs| - 1];
      CountOfAbsent(hmac, front, id);
      CountOfOne(hmac, c, Units(c), id);
      CountConcat(AllTickets(hmac, front), TicketsOf(hmac, c, Units(c)), id);
    }
  }

  lemma {:induction false} CountOfCandidate(hmac: string -> string, cs: seq<Candidate>, n: nat)
    requires UniqueIds(cs) && n < |cs|
    ensures CountOf(AllTickets(hmac, cs), cs[n].entryId) == Units(cs[n])
  {
    var front, c := cs[..|cs| - 1], cs[|cs| - 1];
    CountOfOne(hmac, c, Units(c), cs[n].entryId);
    CountConcat(AllTickets(hmac, front), TicketsOf(hmac, c, Units(c)), cs[n].entryId);
    if n == |cs| - 1 {
      CountOfAbsent(hmac, front, c.entryId);
    } else {
      CountOfCandidate(hmac, front, n);
    }
  }

  // ----- The sorted sequence -------------------------------------------------------------------------

  /** Chance `u` of a candidate with this weight exists: there is always chance 0. */
  predicate HasChance(c: Candidate, u: nat) {
    u == 0 || u < c.weightUnits
  }

  /** A ticket is a candidate's chance with its keyed score. */
  predicate IsChance(hmac: string -> string, t: Ticket, c: Candidate, u: nat) {
    t.entryId == c.entryId && t.participantId == c.participantId && t.score == hmac(ChanceText(c.entryId, u))
  }

  lemma ChanceTicket(hmac: string -> string, c: Candidate, u: nat)
    ensures IsChance(hmac, TicketOf(hmac, c, u), c, u)
  {
    assert "entry:" + c.entryId + ":unit:" + Decimal(u) == ChanceText(c.entryId, u);
  }

  /** With unique entry ids the sorted sequence holds, of each candidate, as many tickets as its weight
      says, and one if that is less; every chance is there with the score of its own text, and
      nothing else is there. */
  lemma TicketsAreChances(hmac: string -> string, cs: seq<Candidate>)
    requires UniqueIds(cs)
    ensures var s := Ordered(hmac, cs);
            && (forall n :: 0 <= n < |cs| ==>
                  CountOf(s, cs[n].entryId) == if cs[n].weightUnits > 1 then cs[n].weightUnits else 1)
            && (forall n, u: nat :: 0 <= n < |cs| && HasChance(cs[n], u) ==>
                  exists t :: t in s && IsChance(hmac, t, cs[n], u))
            && (forall t :: t in s ==> exists c, u: nat :: c in cs && HasChance(c, u) && IsChance(hmac, t, c, u))
  {
    hide Sort, CountOf;
    var all, s := AllTickets(hmac, cs), Ordered(hmac, cs);
    TicketsConsistent(hmac, cs);
    TicketMembers(hmac, cs);
    hide AllTickets;
    forall n | 0 <= n < |cs|
      ensures CountOf(s, cs[n].entryId) == if cs[n].weightUnits > 1 then cs[n].weightUnits else 1
    {
      CountOfCandidate(hmac, cs, n);
      CountSorted(all, cs[n].entryId);
    }
    forall n, u: nat | 0 <= n < |cs| && HasChance(cs[n], u)
      ensures exists t :: t in s && IsChance(hmac, t, cs[n], u)
    {
      var t := TicketOf(hmac, cs[n], u);
      ChanceTicket(hmac, cs[n], u);
      assert IsTicketOf(hmac, t, cs[n]) && cs[n] in cs;
      assert t in Elements(all);
    }
    forall t | t in s ensures exists c, u: nat :: c in cs && HasChance(c, u) && IsChance(hmac, t, c, u) {
      assert t in Elements(all);
      var c :| c in cs && IsTicketOf(hmac, t, c);
      var u: nat :| u < Units(c) && t == TicketOf(hmac, c, u);
      ChanceTicket(hmac, c, u);
      assert HasChance(c, u);
    }
  }

  /** The sequence goes up in score; where scores are equal it goes up in entry id. */
  lemma TicketsAscend(hmac: string -> string, cs: seq<Candidate>, i: nat, j: nat)
    requires i < j < |Ordered(hmac, cs)|
    ensures var a, b := Ordered(hmac, cs)[i], Ordered(hmac, cs)[j];
            !Less(b.score, a.score) && (a.score == b.score ==> !Less(b.entryId, a.entryId))
  {
    hide Less;
    SortSorts(AllTickets(hmac, cs));
  }

  /** Everybody who is ranked is ranked by the least score of all chances under the same entry, or under
      the same participant where one prize per participant is the rule. */
  lemma RankedByLeastScore(hmac: string -> string, cs: seq<Candidate>, plan: Plan, i: nat)
    requires UniqueIds(cs) && i < |Accepted(Ordered(hmac, cs), plan)|
    ensures var r, one := Accepted(Ordered(hmac, cs), plan)[i], plan.onePrizePerParticipant;
            && (exists c, u: nat :: c in cs && HasChance(c, u) && IsChance(hmac, r, c, u))
            && forall c, u: nat :: c in cs && HasChance(c, u) && CandidateKey(c, one) == Key(r, one) ==>
                 !Less(hmac(ChanceText(c.entryId, u)), r.score)
  {
    hide Sort, AllTickets, Accepted, Ascends, DistinctKeys, Ordered, ChanceText, Less;
    var one, d, s := plan.onePrizePerParticipant, Accepted(Ordered(hmac, cs), plan), Ordered(hmac, cs);
    var r := d[i];
    DrawIsRanking(hmac, cs, plan);
    TicketsConsistent(hmac, cs);
    TicketsAreChances(hmac, cs);
    assert r in d && r in Elements(s);
    forall c, u: nat | c in cs && HasChance(c, u) && CandidateKey(c, one) == Key(r, one)
      ensures !Less(hmac(ChanceText(c.entryId, u)), r.score)
    {
      var n :| 0 <= n < |cs| && cs[n] == c;
      var t :| t in s && IsChance(hmac, t, cs[n], u);
      assert t in Elements(s);
      OnlyRepresentative(d, one, t, i);
    }
  }
}
