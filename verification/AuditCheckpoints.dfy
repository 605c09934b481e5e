/** Checkpoints: the head of the log, signed so that it can be kept outside the database.
    `hmac(key, text)` stands for HMAC-SHA256 in hexadecimal; an empty key means that none is set. */
module AuditCheckpoints {
  import opened Collections
  import opened Strings
  import opened AuditChain
  import opened AuditHistory
  import opened Hashing

  type Sign = (string, string) -> string

  /** What no digest begins with. */
  const UNSIGNED_MARK := "UNSIGNED"

  /** What stands in the signature column of a checkpoint that nobody signed. */
  const UNSIGNED := UNSIGNED_MARK + ": no AUDIT_CHECKPOINT_KEY was configured when this checkpoint was written"

  /** A stored checkpoint row, with its signature column. */
  datatype Checkpoint =
    Checkpoint(checkpointId: string, uptoId: nat, headHash: string, signature: string, createdBy: string,
               createdAt: string)

  datatype Verdict = Verdict(signatureOk: bool, headMatches: bool)

  ghost predicate AscendingIds(rows: seq<Row>) {
    forall i, j :: 0 <= i < j < |rows| ==> rows[i].id < rows[j].id
  }

  /** Positive and ascending, as an AUTOINCREMENT column makes them. */
  ghost predicate GoodIds(rows: seq<Row>) {
    AscendingIds(rows) && forall i :: 0 <= i < |rows| ==> rows[i].id > 0
  }

  lemma AppendKeepsIds(rows: seq<Row>, r: Row)
    requires GoodIds(rows) && r.id == NextId(rows)
    ensures GoodIds(rows + [r])
  {
  }

  /** The entry hash of the row with that id. */
  function HashOf(rows: seq<Row>, id: nat): Option<string> {
    if rows == [] then None else if rows[0].id == id then Some(rows[0].entryHash) else HashOf(rows[1..], id)
  }

  lemma {:induction false} HashAtIndex(rows: seq<Row>, k: nat)
    requires AscendingIds(rows) && k < |rows|
    ensures HashOf(rows, rows[k].id) == Some(rows[k].entryHash)
  {
    if k > 0 {
      HashAtIndex(rows[1..], k - 1);
    }
  }

  lemma {:induction false} HashIsSomewhere(rows: seq<Row>, id: nat) returns (k: nat)
    requires HashOf(rows, id).Some?
    ensures k < |rows| && rows[k].id == id && HashOf(rows, id) == Some(rows[k].entryHash)
  {
    if rows[0].id == id {
      k := 0;
    } else {
      k := HashIsSomewhere(rows[1..], id);
      k := k + 1;
    }
  }

  /** What is signed. */
  function SignedText(id: nat, head: string): string {
    Decimal(id) + "|" + head
  }

  lemma BarAt(id: nat, head: string)
    ensures var t := SignedText(id, head);
            && |Decimal(id)| < |t| && t[|Decimal(id)|] == '|'
            && forall i :: 0 <= i < |Decimal(id)| ==> t[i] != '|'
  {
    DecimalDigits(id);
  }

  /** What is signed determines the row and the head. */
  lemma SignedTextInjective(id: nat, head: string, id2: nat, head2: string)
    requires SignedText(id, head) == SignedText(id2, head2)
    ensures id == id2 && head == head2
  {
    BarAt(id, head);
    BarAt(id2, head2);
    hide Decimal;
    var t, n := SignedText(id, head), |Decimal(id)|;
    assert |Decimal(id)| == |Decimal(id2)|;
    assert Decimal(id) == t[..n] == SignedText(id2, head2)[..n] == Decimal(id2);
    assert head == t[n + 1..] == head2;
    DecimalInjective(id, id2);
  }

  /** What taking a checkpoint returns. */
  datatype Receipt =
    Receipt(checkpointId: string, uptoId: nat, headHash: string, signature: Option<string>, signed: bool)

  function ReceiptOf(hmac: Sign, key: string, last: Row, checkpointId: string): Receipt {
    var signature := if key == "" then None else Some(hmac(key, SignedText(last.id, last.entryHash)));
    Receipt(checkpointId, last.id, last.entryHash, signature, key != "")
  }

  /** The row kept for it: the signature column must hold something. */
  function Kept(r: Receipt, createdBy: string, createdAt: string): Checkpoint {
    Checkpoint(r.checkpointId, r.uptoId, r.headHash, if r.signature.Some? then r.signature.value else UNSIGNED,
               createdBy, createdAt)
  }

  /** The checkpoint is one that was taken with that key when `last` was the last row. */
  predicate Takes(hmac: Sign, key: string, last: Row, c: Checkpoint) {
    c == Kept(ReceiptOf(hmac, key, last, c.checkpointId), c.createdBy, c.createdAt)
  }

  function VerdictOn(hmac: Sign, key: string, rows: seq<Row>, c: Checkpoint): Verdict {
    Verdict(key != "" && IsDigest(c.signature) && c.signature == hmac(key, SignedText(c.uptoId, c.headHash)),
            HashOf(rows, c.uptoId) == Some(c.headHash))
  }

  ghost predicate SignsDigests(hmac: Sign) {
    forall k, t :: IsDigest(hmac(k, t))
  }

  /** A checkpoint goes on matching whatever is appended to the log, and its signature verifies
      exactly when there is a key that signs it as the key at the time did. Without a key at the
      time it never verifies, whatever key is set later. */
  lemma CheckpointLasts(hmac: Sign, key: string, later: string, rows: seq<Row>, now: seq<Row>, c: Checkpoint)
    requires rows != [] && Takes(hmac, key, rows[|rows| - 1], c)
    requires SignsDigests(hmac) && rows <= now && AscendingIds(now)
    ensures var last := rows[|rows| - 1];
            var text := SignedText(last.id, last.entryHash);
            var v := VerdictOn(hmac, later, now, c);
            && v.headMatches
            && (v.signatureOk <==> key != "" && later != "" && hmac(later, text) == hmac(key, text))
  {
    var last := rows[|rows| - 1];
    assert now[|rows| - 1] == last;
    HashAtIndex(now, |rows| - 1);
    assert !IsDigest(UNSIGNED) by {
      assert UNSIGNED[0] == UNSIGNED_MARK[0] == 'U';
    }
  }

  /** A log that verifies and still matches a checkpoint has, up to the row it names, the history
      that the log had when the checkpoint was taken. */
  lemma MatchPinsHistory(sha: string -> string, hmac: Sign, key: string, before: seq<Row>, now: seq<Row>,
                         c: Checkpoint)
    returns (k: nat)
    requires before != [] && Takes(hmac, key, before[|before| - 1], c)
    requires MakesDigests(sha) && Verifies(sha, before) && Verifies(sha, now)
    requires ObjectBodies(before) && ObjectBodies(now) && CollisionFree(sha, before + now, Preimage)
    requires VerdictOn(hmac, key, now, c).headMatches
    ensures k < |now| && now[k].id == before[|before| - 1].id && SameHistory(before, now[..k + 1])
  {
    hide Verifies, ObjectBodies, CollisionFree, MakesDigests, SameHistory;
    k := HashIsSomewhere(now, before[|before| - 1].id);
    CheckpointPinsHistory(sha, before, now, k);
  }

  /** A signature that verifies is of one row and one head: no other checkpoint verifies with it, unless
      the two signed texts collide. */
  lemma SignaturePins(hmac: Sign, key: string, rows: seq<Row>, c: Checkpoint, now: seq<Row>, d: Checkpoint)
    requires VerdictOn(hmac, key, rows, c).signatureOk && VerdictOn(hmac, key, now, d).signatureOk
    requires c.signature == d.signature
    requires var x, y := SignedText(c.uptoId, c.headHash), SignedText(d.uptoId, d.headHash);
             hmac(key, x) == hmac(key, y) ==> x == y
    ensures c.uptoId == d.uptoId && c.headHash == d.headHash
    ensures key != "" && IsDigest(c.signature)
  {
    hide HashOf, IsDigest, SignedText;
    SignedTextInjective(c.uptoId, c.headHash, d.uptoId, d.headHash);
  }
}
