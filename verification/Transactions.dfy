/** Nested transactions: `tx` drives BEGIN, savepoints and their unwinding on a connection, and
    implements the rule that a failed block is a no-op. */
module Transactions {

  type Data = map<string, string>

  /** What may go wrong with the statements of one `tx` call: opening it; finishing it by COMMIT or
      RELEASE, where a failing COMMIT may have rolled the transaction back by itself; the ROLLBACK
      or ROLLBACK TO of its unwinding, and the RELEASE that then pops the savepoint. */
  datatype Faults = Faults(openFails: bool, finishFails: bool, commitUndoes: bool, rollFails: bool, popFails: bool)

  /** The work of a block: statements, exceptions, `try`/`catch`, branches and nested calls. Abort is a
      statement that fails and takes the whole transaction with it, as when the disk is full. */
  datatype Prog =
    | Skip
    | Exec(change: Data -> Data)
    | Abort
    | Throw
    | Seq(first: Prog, second: Prog)
    | If(test: Data -> bool, yes: Prog, no: Prog)
    | Try(body: Prog, handler: Prog)
    | Tx(block: Prog, faults: Faults)

  // ----- The ideal ------------------------------------------------------------------------

  datatype Ideal = Ideal(data: Data, threw: bool)

  /** Failed blocks are no-ops; nothing else is special about them. */
  function Intend(p: Prog, d: Data): Ideal {
    match p
    case Skip => Ideal(d, false)
    case Exec(change) => Ideal(change(d), false)
    case Abort => Ideal(d, true)
    case Throw => Ideal(d, true)
    case Seq(a, b) => var r := Intend(a, d); if r.threw then r else Intend(b, r.data)
    case If(test, yes, no) => if test(d) then Intend(yes, d) else Intend(no, d)
    case Try(body, handler) => var r := Intend(body, d); if r.threw then Intend(handler, r.data) else r
    case Tx(block, f) =>
      var r := Intend(block, d);
      if f.openFails || r.threw || f.finishFails then Ideal(d, true) else r
  }

  /** What is intended of the constructs: a sequence stops at an exception; a caught exception runs the
      handler on what was done so far; a call is its block's whole work or an exception and nothing,
      an exception exactly when its block throws or it cannot be opened or finished. */
  lemma IntentMeans(a: Prog, b: Prog, f: Faults, d: Data)
    ensures Intend(a, d).threw ==> Intend(Seq(a, b), d) == Intend(a, d)
    ensures !Intend(a, d).threw ==> Intend(Seq(a, b), d) == Intend(b, Intend(a, d).data)
    ensures Intend(a, d).threw ==> Intend(Try(a, b), d) == Intend(b, Intend(a, d).data)
    ensures !Intend(a, d).threw ==> Intend(Try(a, b), d) == Intend(a, d)
    ensures Intend(Tx(a, f), d).threw <==> Intend(a, d).threw || f.openFails || f.finishFails
    ensures Intend(Tx(a, f), d).data == if Intend(Tx(a, f), d).threw then d else Intend(a, d).data
    ensures Intend(Throw, d) == Ideal(d, true) && Intend(Skip, d) == Ideal(d, false)
  {
  }

  // ----- The evaluator, with everything that can fail ------------------------------------------

  /** What this connection reads, what every other one reads, whether a transaction is open, how many
      savepoints it has, and how many transactions have ended. */
  datatype Db = Db(data: Data, committed: Data, open: bool, depth: nat, era: nat)

  datatype Result = Result(db: Db, threw: bool)

  /** Outside a transaction there is one database and no savepoint. */
  predicate Proper(s: Db) {
    !s.open ==> s.data == s.committed && s.depth == 0
  }

  /** A transaction ends, and `data` is what everybody reads. */
  function Ended(s: Db, data: Data): Db {
    Db(data, data, false, 0, s.era + 1)
  }

  /** The block of the call ended badly: it threw, or the call cannot be finished. */
  predicate Fails(r: Result, f: Faults) {
    r.threw || f.finishFails
  }

  /** The failing COMMIT has left nothing to roll back. */
  predicate Undone(r: Result, f: Faults) {
    !r.threw && f.finishFails && f.commitUndoes
  }

  /** A nested call: if its transaction has ended, its savepoint is gone and every statement fails. */
  function FinishNested(s: Db, r: Result, f: Faults): Result {
    if r.db.era != s.era then Result(r.db, true)
    else if !Fails(r, f) then Result(r.db.(depth := s.depth), false)
    else if f.rollFails then Result(r.db, true)
    else Result(s.(depth := if f.popFails then s.depth + 1 else s.depth), true)
  }

  /** An outermost call: without an open transaction COMMIT and ROLLBACK fail. */
  function FinishOutermost(r: Result, f: Faults): Result {
    if !r.db.open then Result(r.db, true)
    else if !Fails(r, f) then Result(Ended(r.db, r.db.data), false)
    else if f.rollFails && !Undone(r, f) then Result(r.db, true)
    else Result(Ended(r.db, r.db.committed), true)
  }

  /** Where a call ends whose block ended with `r`. */
  function Finish(s: Db, r: Result, f: Faults): Result {
    if s.open then FinishNested(s, r, f) else FinishOutermost(r, f)
  }

  /** What the block of a call starts from. */
  function Opened(s: Db): Db {
    if s.open then s.(depth := s.depth + 1) else s.(open := true)
  }

  function Eval(p: Prog, s: Db): (r: Result)
    ensures r.db.era >= s.era && (Proper(s) ==> Proper(r.db))
    ensures s.open && r.db.era == s.era ==> r.db.open && r.db.committed == s.committed && r.db.depth >= s.depth
  {
    match p
    case Skip => Result(s, false)
    case Exec(change) =>
      var d := change(s.data);
      Result(s.(data := d, committed := if s.open then s.committed else d), false)
    case Abort => Result(if s.open then Ended(s, s.committed) else s, true)
    case Throw => Result(s, true)
    case Seq(a, b) => var r := Eval(a, s); if r.threw then r else Eval(b, r.db)
    case If(test, yes, no) => if test(s.data) then Eval(yes, s) else Eval(no, s)
    case Try(body, handler) => var r := Eval(body, s); if r.threw then Eval(handler, r.db) else r
    case Tx(block, f) => if f.openFails then Result(s, true) else Finish(s, Eval(block, Opened(s)), f)
  }

  lemma CallUnfolds(block: Prog, f: Faults, s: Db)
    ensures Eval(Tx(block, f), s) == if f.openFails then Result(s, true) else Finish(s, Eval(block, Opened(s)), f)
  {
    hide Finish;
  }

  // ----- When the ideal is met -----------------------------------------------------------------

  /** No ROLLBACK fails, and no statement takes a transaction with it. */
  ghost predicate RollbackWorks(p: Prog) {
    match p
    case Abort => false
    case Seq(a, b) => RollbackWorks(a) && RollbackWorks(b)
    case If(_, yes, no) => RollbackWorks(yes) && RollbackWorks(no)
    case Try(body, handler) => RollbackWorks(body) && RollbackWorks(handler)
    case Tx(block, f) => !f.rollFails && RollbackWorks(block)
    case _ => true
  }

  /** `r` is what was intended from `s`: inside a transaction that goes on, or committed. */
  predicate AsIntended(r: Result, want: Ideal, s: Db) {
    && r.threw == want.threw && r.db.data == want.data && r.db.open == s.open
    && if s.open then r.db.committed == s.committed && r.db.era == s.era else r.db.committed == want.data
  }

  /** Unless a ROLLBACK fails or a transaction is lost, whatever else fails, a program does what is
      intended: failed blocks are no-ops, an enclosing transaction goes on as before, and at the
      outermost level all of it is committed. */
  lemma {:induction false} DoesAsIntended(p: Prog, s: Db)
    requires RollbackWorks(p) && Proper(s)
    ensures AsIntended(Eval(p, s), Intend(p, s.data), s)
  {
    match p
    case Seq(a, b) =>
      DoesAsIntended(a, s);
      DoesAsIntended(b, Eval(a, s).db);
    case If(test, yes, no) =>
      DoesAsIntended(yes, s);
      DoesAsIntended(no, s);
    case Try(body, handler) =>
      DoesAsIntended(body, s);
      DoesAsIntended(handler, Eval(body, s).db);
    case Tx(block, f) =>
      DoesAsIntended(block, Opened(s));
      CallAsIntended(block, f, s);
    case _ =>
  }

  lemma CallAsIntended(block: Prog, f: Faults, s: Db)
    requires !f.rollFails && Proper(s)
    requires AsIntended(Eval(block, Opened(s)), Intend(block, s.data), Opened(s))
    ensures AsIntended(Eval(Tx(block, f), s), Intend(Tx(block, f), s.data), s)
  {
    hide Eval, Intend;
    CallUnfolds(block, f, s);
    IntentUnfolds(block, f, s.data);
  }

  lemma IntentUnfolds(block: Prog, f: Faults, d: Data)
    ensures var r := Intend(block, d);
            Intend(Tx(block, f), d) == if f.openFails || r.threw || f.finishFails then Ideal(d, true) else r
  {
  }

  /** What anybody can read, and whether a transaction is open. */
  function Seen(s: Db): (Data, Data, bool) {
    (s.data, s.committed, s.open)
  }

  /** Unwinding gets back to where the call started. */
  predicate Unwinds(s: Db, r: Result, f: Faults) {
    if s.open then r.db.era == s.era && !f.rollFails
    else r.db.open && r.db.committed == s.committed && (!f.rollFails || Undone(r, f))
  }

  /** A failed call is a no-op exactly when it never opened, its block was one, or its unwinding gets
      back: nested, while its transaction lasts and if ROLLBACK TO works; outermost, if its block
      has committed nothing and ROLLBACK works or COMMIT has rolled back already. */
  lemma FailedCallIsNoOpIff(block: Prog, f: Faults, s: Db)
    requires Proper(s) && Eval(Tx(block, f), s).threw
    ensures var r := Eval(block, Opened(s));
            Seen(Eval(Tx(block, f), s).db) == Seen(s) <==> f.openFails || Seen(r.db) == Seen(s) || Unwinds(s, r, f)
  {
    CallUnfolds(block, f, s);
    var r := Eval(block, Opened(s));
    hide Eval;
  }

  /** While its transaction lasts, a nested call leaves a savepoint behind exactly when it fails and
      the ROLLBACK TO or the RELEASE of its unwinding fails; an outermost one leaves what its block
      left, exactly when it leaves its transaction open. */
  lemma SavepointsLeftIff(block: Prog, f: Faults, s: Db)
    requires Proper(s) && !f.openFails
    ensures var r, t := Eval(block, Opened(s)), Eval(Tx(block, f), s).db;
            s.open && r.db.era == s.era ==> (t.depth > s.depth <==> Fails(r, f) && (f.rollFails || f.popFails))
    ensures var r, t := Eval(block, Opened(s)), Eval(Tx(block, f), s).db;
            !s.open ==> t.depth == if t.open then r.db.depth else 0
  {
    CallUnfolds(block, f, s);
    var r := Eval(block, Opened(s));
    hide Eval;
  }

  // ----- What can go wrong -----------------------------------------------------------------------

  const FINE := Faults(false, false, false, false, false)

  /** A nested call that throws, caught by the enclosing block, whose RELEASE fails: the savepoint is
      there until the enclosing call ends. */
  lemma SavepointLeft(d: Data)
    ensures var inner := Tx(Throw, FINE.(popFails := true));
            && Eval(Try(inner, Skip), Db(d, d, true, 0, 0)) == Result(Db(d, d, true, 1, 0), false)
            && Eval(Tx(Try(inner, Skip), FINE), Db(d, d, false, 0, 0)) == Result(Db(d, d, false, 0, 1), false)
  {
    var inner := Tx(Throw, FINE.(popFails := true));
    var s := Db(d, d, true, 0, 0);
    assert Eval(Throw, Opened(s)) == Result(s.(depth := 1), true);
    CallUnfolds(Throw, FINE.(popFails := true), s);
    assert Eval(inner, s) == Result(s.(depth := 1), true);
    assert Eval(Try(inner, Skip), s) == Result(s.(depth := 1), false);
    CallUnfolds(Try(inner, Skip), FINE, Db(d, d, false, 0, 0));
  }

  /** A nested call that writes and throws, whose ROLLBACK TO fails: caught by the enclosing block, its
      write is committed with the rest. */
  lemma FailedWriteCommitted(d: Data, change: Data -> Data)
    ensures var inner := Tx(Seq(Exec(change), Throw), FINE.(rollFails := true));
            Eval(Tx(Try(inner, Skip), FINE), Db(d, d, false, 0, 0))
            == Result(Db(change(d), change(d), false, 0, 1), false)
  {
    var write, f := Seq(Exec(change), Throw), FINE.(rollFails := true);
    var s := Db(d, d, true, 0, 0);
    var t := Db(change(d), d, true, 1, 0);
    assert Eval(Exec(change), Opened(s)) == Result(t, false);
    assert Eval(write, Opened(s)) == Result(t, true);
    CallUnfolds(write, f, s);
    assert Eval(Tx(write, f), s) == Result(t, true);
    assert Eval(Try(Tx(write, f), Skip), s) == Result(t, false);
    CallUnfolds(Try(Tx(write, f), Skip), FINE, Db(d, d, false, 0, 0));
  }

  /** A statement that loses the transaction, its exception caught inside the block: what comes after it
      is committed at once, what came before is lost, and the call throws. */
  lemma LostTransaction(d: Data, before: Data -> Data, later: Data -> Data)
    ensures var block := Seq(Exec(before), Seq(Try(Abort, Skip), Exec(later)));
            Eval(Tx(block, FINE), Db(d, d, false, 0, 0)) == Result(Db(later(d), later(d), false, 0, 1), true)
  {
    var caught := Try(Abort, Skip);
    var rest := Seq(caught, Exec(later));
    var block := Seq(Exec(before), rest);
    var s, t, u := Db(d, d, true, 0, 0), Db(before(d), d, true, 0, 0), Db(d, d, false, 0, 1);
    assert Eval(Exec(before), s) == Result(t, false);
    assert Eval(Abort, t) == Result(u, true) && Eval(Skip, u) == Result(u, false);
    assert Eval(caught, t) == Result(u, false);
    assert Eval(Exec(later), u) == Result(Db(later(d), later(d), false, 0, 1), false);
    assert Eval(rest, t) == Eval(Exec(later), u);
    assert Eval(block, s) == Eval(rest, t);
    CallUnfolds(block, FINE, Db(d, d, false, 0, 0));
  }

  ghost predicate PopsWork(p: Prog) {
    match p
    case Seq(a, b) => PopsWork(a) && PopsWork(b)
    case If(_, yes, no) => PopsWork(yes) && PopsWork(no)
    case Try(body, handler) => PopsWork(body) && PopsWork(handler)
    case Tx(block, f) => !f.popFails && PopsWork(block)
    case _ => true
  }

  /** Unless unwinding itself fails or a transaction is lost, no program leaves a savepoint behind. */
  lemma {:induction false} NothingLeft(p: Prog, s: Db)
    requires PopsWork(p) && RollbackWorks(p) && Proper(s)
    ensures Eval(p, s).db.depth == s.depth
  {
    match p
    case Seq(a, b) =>
      NothingLeft(a, s);
      NothingLeft(b, Eval(a, s).db);
    case If(_, yes, no) =>
      NothingLeft(yes, s);
      NothingLeft(no, s);
    case Try(body, handler) =>
      NothingLeft(body, s);
      NothingLeft(handler, Eval(body, s).db);
    case Tx(block, f) =>
      NothingLeft(block, Opened(s));
      DoesAsIntended(block, Opened(s));
      CallLeavesNothing(block, f, s);
    case _ =>
  }

  lemma CallLeavesNothing(block: Prog, f: Faults, s: Db)
    requires !f.popFails && !f.rollFails && Proper(s)
    requires AsIntended(Eval(block, Opened(s)), Intend(block, s.data), Opened(s))
    ensures Eval(Tx(block, f), s).db.depth == s.depth
  {
    hide Eval, Intend;
    CallUnfolds(block, f, s);
  }

  // ----- The connection -----------------------------------------------------------------------

  datatype Savepoint = Savepoint(name: nat, data: Data)

  /** The most recent savepoint of that name, or |s|. */
  function Latest(s: seq<Savepoint>, name: nat): (i: nat)
    ensures i <= |s| && (i < |s| ==> s[i].name == name)
    ensures forall j :: i < j < |s| ==> s[j].name != name
    ensures i == |s| ==> forall j :: 0 <= j < |s| ==> s[j].name != name
  {
    if s == [] then 0
    else if s[|s| - 1].name == name then |s| - 1
    else
      var i := Latest(s[..|s| - 1], name);
      if i == |s| - 1 then |s| else i
  }

  class Connection {
    /** What this connection reads. */
    var data: Data
    /** What every other connection reads. */
    var committed: Data
    var isTransaction: bool
    var savepoints: seq<Savepoint>
    var txCounter: nat
    /** How many transactions have ended. */
    ghost var era: nat

    ghost predicate Valid()
      reads this
    {
      && (!isTransaction ==> data == committed && savepoints == [])
      && (forall i, j :: 0 <= i < j < |savepoints| ==> savepoints[i].name < savepoints[j].name)
      && (forall i :: 0 <= i < |savepoints| ==> savepoints[i].name <= txCounter)
    }

    ghost function Now(): Db
      reads this
    {
      Db(data, committed, isTransaction, |savepoints|, era)
    }

    constructor (d: Data)
      ensures Valid() && Now() == Db(d, d, false, 0, 0) && txCounter == 0
    {
      data, committed, isTransaction, savepoints, txCounter, era := d, d, false, [], 0, 0;
    }

    // ----- SQL -----

    method Begin(fails: bool) returns (ok: bool)
      modifies this`isTransaction
      ensures ok == (!fails && !old(isTransaction)) && isTransaction == (ok || old(isTransaction))
    {
      ok := !fails && !isTransaction;
      if ok {
        isTransaction := true;
      }
    }

    method Commit(fails: bool, undoes: bool) returns (ok: bool)
      modifies this`isTransaction, this`data, this`committed, this`savepoints, this`era
      ensures ok == (!fails && old(isTransaction))
      ensures ok ==> Now() == Ended(old(Now()), old(data))
      ensures !ok && undoes && old(isTransaction) ==> Now() == Ended(old(Now()), old(committed))
      ensures !ok && !(undoes && old(isTransaction)) ==> Now() == old(Now()) && savepoints == old(savepoints)
    {
      ok := !fails && isTransaction;
      if ok {
        isTransaction, committed, savepoints, era := false, data, [], era + 1;
      } else if undoes && isTransaction {
        isTransaction, data, savepoints, era := false, committed, [], era + 1;
      }
    }

    method Rollback(fails: bool) returns (ok: bool)
      modifies this`isTransaction, this`data, this`savepoints, this`era
      ensures ok == (!fails && old(isTransaction))
      ensures ok ==> Now() == Ended(old(Now()), committed)
      ensures !ok ==> Now() == old(Now()) && savepoints == old(savepoints)
    {
      ok := !fails && isTransaction;
      if ok {
        isTransaction, data, savepoints, era := false, committed, [], era + 1;
      }
    }

    method Save(name: nat, fails: bool) returns (ok: bool)
      requires isTransaction
      modifies this`savepoints
      ensures ok == !fails
      ensures savepoints == if ok then old(savepoints) + [Savepoint(name, data)] else old(savepoints)
    {
      ok := !fails;
      if ok {
        savepoints := savepoints + [Savepoint(name, data)];
      }
    }

    /** ROLLBACK TO restores the data and keeps the savepoint itself. */
    method RollbackTo(name: nat, fails: bool) returns (ok: bool)
      modifies this`data, this`savepoints
      ensures var i := Latest(old(savepoints), name);
              && ok == (!fails && i < |old(savepoints)|)
              && data == (if ok then old(savepoints)[i].data else old(data))
              && savepoints == if ok then old(savepoints)[..i + 1] else old(savepoints)
    {
      var i := Latest(savepoints, name);
      ok := !fails && i < |savepoints|;
      if ok {
        data, savepoints := savepoints[i].data, savepoints[..i + 1];
      }
    }

    /** RELEASE pops the savepoint and everything above it, keeping the data. */
    method Release(name: nat, fails: bool) returns (ok: bool)
      modifies this`savepoints
      ensures ok == (!fails && Latest(old(savepoints), name) < |old(savepoints)|)
      ensures savepoints == if ok then old(savepoints)[..Latest(old(savepoints), name)] else old(savepoints)
    {
      var i := Latest(savepoints, name);
      ok := !fails && i < |savepoints|;
      if ok {
        savepoints := savepoints[..i];
      }
    }

    // ----- tx -----

    /** How much of the stack of a state is still below what came after it. */
    ghost function Kept(s: Db): nat
      reads this
    {
      if era == s.era then s.depth else 0
    }

    /** What every program and every `tx` call does to the connection. */
    twostate predicate Refines(p: Prog, threw: bool)
      reads this
    {
      && Valid()
      && Result(Now(), threw) == Eval(p, old(Now()))
      && (era == old(era) ==> old(savepoints) <= savepoints)
      && (forall i :: Kept(old(Now())) <= i < |savepoints| ==> savepoints[i].name > old(txCounter))
      && txCounter >= old(txCounter)
    }

    /** The savepoint of a nested call is on the stack, or its transaction has ended. */
    ghost predicate Below(entry: Db, name: nat, below: seq<Savepoint>)
      reads this
    {
      if era == entry.era then
        isTransaction && committed == entry.committed && |below| == entry.depth
        && below + [Savepoint(name, entry.data)] <= savepoints
      else Latest(savepoints, name) == |savepoints|
    }

    /** Undoing a nested call: `rollback to`, then `release`; quietly up to the first that fails. */
    method UnwindNested(name: nat, f: Faults, ghost entry: Db, ghost below: seq<Savepoint>)
      requires Valid() && entry.open && Below(entry, name, below)
      modifies this`data, this`savepoints
      ensures Valid()
      ensures era != entry.era || f.rollFails ==> Now() == old(Now()) && savepoints == old(savepoints)
      ensures era == entry.era && !f.rollFails ==>
                && Now() == entry.(depth := if f.popFails then entry.depth + 1 else entry.depth)
                && savepoints == if f.popFails then below + [Savepoint(name, entry.data)] else below
    {
      if era == entry.era {
        assert savepoints[|below|] == Savepoint(name, entry.data);
        assert Latest(savepoints, name) == |below|;
      }
      var ok := RollbackTo(name, f.rollFails);
      if ok {
        assert savepoints == below + [Savepoint(name, entry.data)];
        assert Latest(savepoints, name) == |below|;
        var popped := Release(name, f.popFails);
      }
    }

    /** The part of a nested call after its block. */
    method CloseNested(threw: bool, name: nat, f: Faults, ghost entry: Db, ghost below: seq<Savepoint>)
      returns (failed: bool)
      requires Valid() && entry.open && Below(entry, name, below)
      modifies this`data, this`savepoints
      ensures Valid() && Result(Now(), failed) == FinishNested(entry, Result(old(Now()), threw), f)
      ensures savepoints == if era != entry.era || (failed && f.rollFails) then old(savepoints)
                            else if failed && f.popFails then below + [Savepoint(name, entry.data)]
                            else below
    {
      if !threw {
        if era == entry.era {
          assert savepoints[|below|] == Savepoint(name, entry.data);
          assert Latest(savepoints, name) == |below|;
        }
        var ok := Release(name, f.finishFails);
        if ok {
          return false;
        }
      }
      UnwindNested(name, f, entry, below);
      return true;
    }

    /** The part of an outermost call after its block. */
    method CloseOutermost(threw: bool, f: Faults) returns (failed: bool)
      requires Valid()
      modifies this`data, this`committed, this`savepoints, this`isTransaction, this`era
      ensures Valid() && Result(Now(), failed) == FinishOutermost(Result(old(Now()), threw), f)
      ensures era == old(era) ==> savepoints == old(savepoints)
      ensures era != old(era) ==> savepoints == []
    {
      if !threw {
        var ok := Commit(f.finishFails, f.finishFails && f.commitUndoes);
        if ok {
          return false;
        }
      }
      var rolled := Rollback(f.rollFails);
      return true;
    }

    /** A call inside a transaction, under the name that it draws. */
    method RunNested(name: nat, block: Prog, f: Faults) returns (threw: bool)
      requires Valid() && isTransaction && name == txCounter
      requires forall i :: 0 <= i < |savepoints| ==> savepoints[i].name < name
      modifies this
      ensures Valid() && Result(Now(), threw) == Eval(Tx(block, f), old(Now()))
      ensures era == old(era) ==> old(savepoints) <= savepoints
      ensures forall i :: Kept(old(Now())) <= i < |savepoints| ==> savepoints[i].name >= name
      ensures txCounter >= name
      decreases block, 1
    {
      hide Eval, FinishNested, FinishOutermost, Latest;
      CallUnfolds(block, f, Now());
      ghost var entry, below := Now(), savepoints;
      var ok := Save(name, f.openFails);
      if !ok {
        return true;
      }
      assert Now() == Opened(entry);
      threw := Run(block);
      threw := CloseNested(threw, name, f, entry, below);
    }

    /** A call that opens a transaction. */
    method RunOutermost(block: Prog, f: Faults) returns (threw: bool)
      requires Valid() && !isTransaction
      modifies this
      ensures Refines(Tx(block, f), threw)
      decreases block, 1
    {
      hide Eval, FinishNested, FinishOutermost;
      CallUnfolds(block, f, Now());
      ghost var entry := Now();
      var ok := Begin(f.openFails);
      if !ok {
        return true;
      }
      assert Now() == Opened(entry);
      threw := Run(block);
      threw := CloseOutermost(threw, f);
    }

    /** One `tx` call: the connection ends exactly where the evaluator says. */
    method RunTx(block: Prog, f: Faults) returns (threw: bool)
      requires Valid()
      modifies this
      ensures Refines(Tx(block, f), threw)
      decreases block, 2
    {
      hide Eval;
      var nested := isTransaction;
      txCounter := txCounter + 1;
      if nested {
        threw := RunNested(txCounter, block, f);
      } else {
        threw := RunOutermost(block, f);
      }
    }

    /** Runs a program on the connection; outside a transaction each statement commits at once. */
    method Run(p: Prog) returns (threw: bool)
      requires Valid()
      modifies this
      ensures Refines(p, threw)
      decreases p, 0
    {
      hide Finish, Opened, Proper;
      match p
      case Skip =>
        threw := false;
      case Exec(change) =>
        data := change(data);
        if !isTransaction {
          committed := data;
        }
        threw := false;
      case Abort =>
        var lost := Rollback(false);
        threw := true;
      case Throw =>
        threw := true;
      case Seq(a, b) =>
        threw := Run(a);
        if !threw {
          threw := Run(b);
        }
      case If(test, yes, no) =>
        if test(data) {
          threw := Run(yes);
        } else {
          threw := Run(no);
        }
      case Try(body, handler) =>
        threw := Run(body);
        if threw {
          threw := Run(handler);
        }
      case Tx(block, f) =>
        threw := RunTx(block, f);
    }
  }

  /** The outermost call. Unless its block loses the transaction, a failed one changes nothing that is
      committed, and leaves its transaction open exactly when its ROLLBACK fails. */
  method Outermost(c: Connection, block: Prog, f: Faults) returns (threw: bool)
    requires c.Valid() && !c.isTransaction
    modifies c
    ensures c.Valid() && Result(c.Now(), threw) == Eval(Tx(block, f), old(c.Now()))
    ensures !c.isTransaction ==> c.savepoints == [] && c.data == c.committed
    ensures var r := Eval(block, Opened(old(c.Now())));
            && (threw && (f.openFails || r.db.era == old(c.era)) ==> c.committed == old(c.committed))
            && (c.isTransaction <==> !f.openFails && r.db.open && Fails(r, f) && f.rollFails && !Undone(r, f))
  {
    ghost var s := c.Now();
    CallUnfolds(block, f, s);
    threw := c.RunTx(block, f);
    ghost var r := Eval(block, Opened(s));
    hide Eval;
  }
}
