/** Staff sign-in with a second factor: `login`, `verifyMfa`, `enrollMfa`, `enableMfa` and
    `disableMfa`. A missing secret and the empty secret are both "", which is how the code
    treats them. */
module AuthMfa {
  import opened Collections
  import T = Totp

  datatype User =
    User(password: string, active: bool, mfaEnabled: bool, live: string, pending: string, lastLogin: Option<int>)
  /** A token row: the bearer's secret is kept as its hash only. */
  datatype Token = Token(tokenId: string, hash: string, userId: string, expiresAt: int, createdAt: int)

  /** What is drawn at random for a token. */
  datatype Drawn = Drawn(tokenId: string, bearer: string)

  /** `challenges` is the in-memory `pendingMfa` map; the rest are table rows. */
  datatype State = State(users: map<string, User>, challenges: map<string, int>, tokens: seq<Token>)

  /** What the operations call out to: SHA-256 and HMAC, the normal form of an e-mail address, the
      index of addresses in that form, and the password check. */
  datatype World = World(sha: string -> string, hmac: T.Hmac, normal: string -> string, emails: map<string, string>,
                         unlocks: (string, string) -> bool)

  datatype Action =
    | Login(email: string, password: string, remember: bool, drawn: Drawn)
    | VerifyMfa(userId: string, code: string, remember: bool, drawn: Drawn)
    | Enroll(userId: string, code: string, newSecret: string)
    | Enable(userId: string, code: string)
    | Disable(userId: string, code: string)
    | Edit(userId: string, active: bool, password: string)  // status or password changed by other routes
    | Restart                                               // the process forgets its challenges

  datatype Call = Call(action: Action, now: int)

  datatype Reply =
    | Denied
    | Challenged(challenged: string)
    | SignedIn(bearer: string, token: Token)
    | NoChallenge
    | BadCode
    | NotFound
    | CodeNeeded
    | Enrolled(secret: string)
    | EnrollFirst
    | NotConfigured
    | Done
    | Crashed

  const CHALLENGE_MS := 5 * 60 * 1000
  const HOUR_MS := 3_600_000
  const WINDOW := 30

  ghost predicate Proper(w: World) { T.IsSha1Hmac(w.hmac) }

  function Answer(w: World, secret: string, code: string, now: int): T.Result<bool>
    requires Proper(w)
  {
    T.Answer(w.hmac, secret, code, WINDOW, now)
  }

  ghost predicate Accepts(w: World, secret: string, code: string, now: int)
    requires Proper(w)
  {
    Answer(w, secret, code, now) == T.Ok(true)
  }

  /** How a refused or crashed code check is reported. */
  function Refusal(a: T.Result<bool>, otherwise: Reply): Reply {
    if a.RangeError? then Crashed else otherwise
  }

  // ----- The operations on values -----------------------------------------------------------

  function NewToken(w: World, userId: string, remember: bool, drawn: Drawn, now: int): Token {
    Token(drawn.tokenId, w.sha(drawn.bearer), userId, now + (if remember then 30 * 24 else 12) * HOUR_MS, now)
  }

  /** A token more, and the account remembers when. */
  function Issue(w: World, s: State, id: string, remember: bool, drawn: Drawn, now: int): (State, Reply)
    requires id in s.users
  {
    var t := NewToken(w, id, remember, drawn, now);
    (s.(tokens := s.tokens + [t], users := s.users[id := s.users[id].(lastLogin := Some(now))]),
     SignedIn(drawn.bearer, t))
  }

  /** The account of an e-mail address, if it has one. */
  function AccountOf(w: World, s: State, email: string): Option<string> {
    var e := w.normal(email);
    if e in w.emails && w.emails[e] in s.users then Some(w.emails[e]) else None
  }

  /** The e-mail belongs to an active account and the password opens it. */
  predicate PasswordOpens(w: World, s: State, email: string, password: string) {
    var id := AccountOf(w, s, email);
    id.Some? && s.users[id.value].active && w.unlocks(password, s.users[id.value].password)
  }

  predicate HasChallenge(s: State, userId: string, now: int) {
    userId in s.challenges && now <= s.challenges[userId]
  }

  function LoginStep(w: World, s: State, email: string, password: string, remember: bool, drawn: Drawn, now: int)
    : (State, Reply)
  {
    if !PasswordOpens(w, s, email, password) then (s, Denied)
    else
      var id := AccountOf(w, s, email).value;
      if s.users[id].mfaEnabled then (s.(challenges := s.challenges[id := now + CHALLENGE_MS]), Challenged(id))
      else Issue(w, s, id, remember, drawn, now)
  }

  function VerifyStep(w: World, s: State, id: string, code: string, remember: bool, drawn: Drawn, now: int)
    : (State, Reply)
    requires Proper(w)
  {
    if !HasChallenge(s, id, now) then (s, NoChallenge)
    else if id !in s.users || s.users[id].live == "" then (s, BadCode)
    else
      var a := Answer(w, s.users[id].live, code, now);
      if a != T.Ok(true) then (s, Refusal(a, BadCode))
      else Issue(w, s.(challenges := s.challenges - {id}), id, remember, drawn, now)
  }

  function EnrollStep(w: World, s: State, id: string, code: string, newSecret: string, now: int): (State, Reply)
    requires Proper(w)
  {
    if id !in s.users then (s, NotFound)
    else
      var u := s.users[id];
      var a := if u.mfaEnabled then Answer(w, u.live, code, now) else T.Ok(true);
      if a != T.Ok(true) then (s, Refusal(a, CodeNeeded))
      else (s.(users := s.users[id := u.(pending := newSecret)]), Enrolled(newSecret))
  }

  function EnableStep(w: World, s: State, id: string, code: string, now: int): (State, Reply)
    requires Proper(w)
  {
    if id !in s.users || (s.users[id].pending == "" && s.users[id].live == "") then (s, EnrollFirst)
    else
      var u := s.users[id];
      var secret := if u.pending != "" then u.pending else u.live;
      var a := Answer(w, secret, code, now);
      if a != T.Ok(true) then (s, Refusal(a, BadCode))
      else (s.(users := s.users[id := u.(live := secret, pending := "", mfaEnabled := true)]), Done)
  }

  function DisableStep(w: World, s: State, id: string, code: string, now: int): (State, Reply)
    requires Proper(w)
  {
    if id !in s.users || s.users[id].live == "" then (s, NotConfigured)
    else
      var a := Answer(w, s.users[id].live, code, now);
      if a != T.Ok(true) then (s, Refusal(a, BadCode))
      else (s.(users := s.users[id := s.users[id].(mfaEnabled := false)]), Done)
  }

  function Step(w: World, s: State, c: Call): (State, Reply)
    requires Proper(w)
  {
    match c.action
    case Login(email, password, remember, drawn) => LoginStep(w, s, email, password, remember, drawn, c.now)
    case VerifyMfa(id, code, remember, drawn) => VerifyStep(w, s, id, code, remember, drawn, c.now)
    case Enroll(id, code, newSecret) => EnrollStep(w, s, id, code, newSecret, c.now)
    case Enable(id, code) => EnableStep(w, s, id, code, c.now)
    case Disable(id, code) => DisableStep(w, s, id, code, c.now)
    case Edit(id, active, password) =>
      if id !in s.users then (s, NotFound)
      else (s.(users := s.users[id := s.users[id].(active := active, password := password)]), Done)
    case Restart => (s.(challenges := map[]), Done)
  }

  // ----- The operations in place ---------------------------------------------------------------

  class Auth {
    const w: World
    var users: map<string, User>
    var challenges: map<string, int>
    var tokens: seq<Token>

    constructor (w: World, users: map<string, User>, tokens: seq<Token>)
      ensures this.w == w && Now() == State(users, map[], tokens)
    {
      this.w, this.users, this.challenges, this.tokens := w, users, map[], tokens;
    }

    function Now(): State
      reads this
    {
      State(users, challenges, tokens)
    }

    method IssueToken(id: string, remember: bool, drawn: Drawn, now: int) returns (r: Reply)
      requires id in users
      modifies this`tokens, this`users
      ensures (Now(), r) == Issue(w, old(Now()), id, remember, drawn, now)
    {
      var expiresAt := now + (if remember then 30 * 24 else 12) * HOUR_MS;
      var t := Token(drawn.tokenId, w.sha(drawn.bearer), id, expiresAt, now);
      tokens := tokens + [t];
      users := users[id := users[id].(lastLogin := Some(now))];
      r := SignedIn(drawn.bearer, t);
    }

    method Login(email: string, password: string, remember: bool, drawn: Drawn, now: int) returns (r: Reply)
      modifies this
      ensures (Now(), r) == LoginStep(w, old(Now()), email, password, remember, drawn, now)
    {
      var e := w.normal(email);
      if e !in w.emails || w.emails[e] !in users {
        return Denied;
      }
      var id := w.emails[e];
      var row := users[id];
      if !row.active {
        return Denied;
      }
      if !w.unlocks(password, row.password) {
        return Denied;
      }
      if row.mfaEnabled {
        challenges := challenges[id := now + CHALLENGE_MS];
        return Challenged(id);
      }
      r := IssueToken(id, remember, drawn, now);
    }

    method VerifyMfa(id: string, code: string, remember: bool, drawn: Drawn, now: int) returns (r: Reply)
      requires Proper(w)
      modifies this
      ensures (Now(), r) == VerifyStep(w, old(Now()), id, code, remember, drawn, now)
    {
      hide T.Answer;
      if id !in challenges || challenges[id] < now {
        return NoChallenge;
      }
      if id !in users || users[id].live == "" {
        return BadCode;
      }
      var a := T.VerifyTotp(w.hmac, users[id].live, code, WINDOW, now);
      if a != T.Ok(true) {
        return Refusal(a, BadCode);
      }
      challenges := challenges - {id};
      r := IssueToken(id, remember, drawn, now);
    }

    method Enroll(id: string, code: string, newSecret: string, now: int) returns (r: Reply)
      requires Proper(w)
      modifies this
      ensures (Now(), r) == EnrollStep(w, old(Now()), id, code, newSecret, now)
    {
      hide T.Answer;
      if id !in users {
        return NotFound;
      }
      var m := users[id];
      if m.mfaEnabled {
        var a := T.VerifyTotp(w.hmac, m.live, code, WINDOW, now);
        if a != T.Ok(true) {
          return Refusal(a, CodeNeeded);
        }
      }
      users := users[id := m.(pending := newSecret)];
      return Enrolled(newSecret);
    }

    method Enable(id: string, code: string, now: int) returns (r: Reply)
      requires Proper(w)
      modifies this
      ensures (Now(), r) == EnableStep(w, old(Now()), id, code, now)
    {
      hide T.Answer;
      var secret := "";
      if id in users {
        secret := if users[id].pending != "" then users[id].pending else users[id].live;
      }
      if secret == "" {
        return EnrollFirst;
      }
      var a := T.VerifyTotp(w.hmac, secret, code, WINDOW, now);
      if a != T.Ok(true) {
        return Refusal(a, BadCode);
      }
      users := users[id := users[id].(live := secret, pending := "", mfaEnabled := true)];
      return Done;
    }

    method Disable(id: string, code: string, now: int) returns (r: Reply)
      requires Proper(w)
      modifies this
      ensures (Now(), r) == DisableStep(w, old(Now()), id, code, now)
    {
      hide T.Answer;
      if id !in users || users[id].live == "" {
        return NotConfigured;
      }
      var a := T.VerifyTotp(w.hmac, users[id].live, code, WINDOW, now);
      if a != T.Ok(true) {
        return Refusal(a, BadCode);
      }
      users := users[id := users[id].(mfaEnabled := false)];
      return Done;
    }
  }

  // ----- Runs ----------------------------------------------------------------------------------------

  /** The state after the first `n` calls of a run. */
  function At(w: World, s: State, run: seq<Call>, n: nat): State
    requires Proper(w) && n <= |run|
  {
    if n == 0 then s else Step(w, At(w, s, run, n - 1), run[n - 1]).0
  }

  /** MFA is on for the account. */
  predicate On(s: State, id: string) {
    id in s.users && s.users[id].mfaEnabled
  }

  function Live(s: State, id: string): string {
    if id in s.users then s.users[id].live else ""
  }

  function Pending(s: State, id: string): string {
    if id in s.users then s.users[id].pending else ""
  }

  lemma SignInKeepsFactors(w: World, s: State, c: Call, id: string)
    requires Proper(w) && (c.action.Login? || c.action.VerifyMfa?)
    ensures var t := Step(w, s, c).0;
            On(t, id) == On(s, id) && Live(t, id) == Live(s, id) && Pending(t, id) == Pending(s, id)
  {
    hide T.Answer, NewToken;
  }

  /** The account's MFA switch and secrets move only in these ways. */
  lemma FactorMoves(w: World, s: State, c: Call, id: string)
    requires Proper(w)
    ensures var t := Step(w, s, c).0;
            var (was, now) := ((On(s, id), Live(s, id), Pending(s, id)), (On(t, id), Live(t, id), Pending(t, id)));
            || now == was
            || (c.action.Enroll? && c.action.userId == id && now == (was.0, was.1, c.action.newSecret)
                && (was.0 ==> Accepts(w, was.1, c.action.code, c.now)))
            || (c.action.Enable? && c.action.userId == id && now == (true, if was.2 != "" then was.2 else was.1, "")
                && now.1 != "" && Accepts(w, now.1, c.action.code, c.now))
            || (c.action.Disable? && c.action.userId == id && now == (false, was.1, was.2)
                && was.1 != "" && Accepts(w, was.1, c.action.code, c.now))
  {
    hide T.Answer, LoginStep, VerifyStep;
    if c.action.Login? || c.action.VerifyMfa? {
      SignInKeepsFactors(w, s, c, id);
    }
  }

  /** Whenever MFA is on, a live secret exists. */
  lemma {:induction false} OnMeansLiveSecret(w: World, s: State, run: seq<Call>, n: nat, id: string)
    requires Proper(w) && n <= |run|
    requires On(s, id) ==> Live(s, id) != ""
    ensures On(At(w, s, run, n), id) ==> Live(At(w, s, run, n), id) != ""
  {
    hide Step;
    if n > 0 {
      OnMeansLiveSecret(w, s, run, n - 1, id);
      FactorMoves(w, At(w, s, run, n - 1), run[n - 1], id);
    }
  }

  /** Call `k` is a successful `disableMfa` of the account with a code for its live secret. */
  ghost predicate Disables(w: World, s: State, run: seq<Call>, k: nat, id: string)
    requires Proper(w) && k < |run|
  {
    run[k].action.Disable? && run[k].action.userId == id
    && Accepts(w, Live(At(w, s, run, k), id), run[k].action.code, run[k].now)
  }

  /** MFA that was on and is off went off through `disableMfa` with a code for the live secret. */
  lemma {:induction false} OffOnlyByCode(w: World, s: State, run: seq<Call>, m: nat, n: nat, id: string)
    returns (k: nat)
    requires Proper(w) && m <= n <= |run|
    requires On(At(w, s, run, m), id) && !On(At(w, s, run, n), id)
    ensures m <= k < n && Disables(w, s, run, k, id)
    ensures On(At(w, s, run, k), id)
  {
    hide Step, Answer;
    FactorMoves(w, At(w, s, run, n - 1), run[n - 1], id);
    if On(At(w, s, run, n - 1), id) {
      k := n - 1;
    } else {
      k := OffOnlyByCode(w, s, run, m, n - 1, id);
    }
  }

  /** Call `k` showed a code for the account's live secret to have a new one issued. */
  ghost predicate Reenrolls(w: World, s: State, run: seq<Call>, k: nat, id: string)
    requires Proper(w) && k < |run|
  {
    run[k].action.Enroll? && run[k].action.userId == id
    && Accepts(w, Live(At(w, s, run, k), id), run[k].action.code, run[k].now)
  }

  /** MFA stayed on with the same live secret from `k` to `n`. */
  ghost predicate Steady(w: World, s: State, run: seq<Call>, k: nat, n: nat, id: string)
    requires Proper(w) && k <= n <= |run|
  {
    forall j :: k <= j <= n ==> On(At(w, s, run, j), id) && Live(At(w, s, run, j), id) == Live(At(w, s, run, n), id)
  }

  /** A secret pending while MFA is on was asked for with a code for the live secret, since that
      secret went live, and nothing has changed it since. */
  lemma {:induction false} PendingWasAuthorised(w: World, s: State, run: seq<Call>, n: nat, id: string) returns (k: nat)
    requires Proper(w) && n <= |run|
    requires On(s, id) ==> Pending(s, id) == ""
    requires On(At(w, s, run, n), id) && Pending(At(w, s, run, n), id) != ""
    ensures k < n && Reenrolls(w, s, run, k, id) && run[k].action.newSecret == Pending(At(w, s, run, n), id)
    ensures Steady(w, s, run, k, n, id)
  {
    hide Step, Answer;
    FactorMoves(w, At(w, s, run, n - 1), run[n - 1], id);
    if (On(At(w, s, run, n), id), Live(At(w, s, run, n), id), Pending(At(w, s, run, n), id))
       == (On(At(w, s, run, n - 1), id), Live(At(w, s, run, n - 1), id), Pending(At(w, s, run, n - 1), id)) {
      k := PendingWasAuthorised(w, s, run, n - 1, id);
      assert Live(At(w, s, run, n), id) == Live(At(w, s, run, n - 1), id);
    } else {
      k := n - 1;
    }
  }

  /** The live secret of an account with MFA on is replaced only by an `enableMfa` that shows a code
      for the new secret, after an `enrollMfa` that issued it against a code for the old one. */
  lemma ReplacingNeedsBothCodes(w: World, s: State, run: seq<Call>, n: nat, id: string) returns (k: nat)
    requires Proper(w) && n < |run|
    requires On(s, id) ==> Pending(s, id) == ""
    requires On(At(w, s, run, n), id)
    requires Live(At(w, s, run, n + 1), id) != Live(At(w, s, run, n), id)
    ensures run[n].action.Enable? && run[n].action.userId == id
    ensures Accepts(w, Live(At(w, s, run, n + 1), id), run[n].action.code, run[n].now)
    ensures k < n && Reenrolls(w, s, run, k, id) && run[k].action.newSecret == Live(At(w, s, run, n + 1), id)
    ensures Steady(w, s, run, k, n, id)
  {
    hide Step, Answer;
    FactorMoves(w, At(w, s, run, n), run[n], id);
    k := PendingWasAuthorised(w, s, run, n, id);
  }

  // ----- Tokens ------------------------------------------------------------------------------------------

  /** Tokens ever issued to the account. */
  function Issued(tokens: seq<Token>, id: string): nat {
    if tokens == [] then 0
    else Issued(tokens[..|tokens| - 1], id) + if tokens[|tokens| - 1].userId == id then 1 else 0
  }

  lemma IssuedSnoc(tokens: seq<Token>, t: Token, id: string)
    ensures Issued(tokens + [t], id) == Issued(tokens, id) + if t.userId == id then 1 else 0
  {
    assert (tokens + [t])[..|tokens|] == tokens;
  }

  /** Call `k` is a `login` of the account with its right password. */
  predicate PasswordShown(w: World, s: State, c: Call, id: string) {
    c.action.Login? && PasswordOpens(w, s, c.action.email, c.action.password)
    && AccountOf(w, s, c.action.email) == Some(id)
  }

  function PasswordsShown(w: World, s: State, run: seq<Call>, n: nat, id: string): nat
    requires Proper(w) && n <= |run|
  {
    if n == 0 then 0
    else PasswordsShown(w, s, run, n - 1, id) + if PasswordShown(w, At(w, s, run, n - 1), run[n - 1], id) then 1 else 0
  }

  function Open(s: State, id: string): nat {
    if id in s.challenges then 1 else 0
  }

  /** A call signs in at most one account, and pays for it with a password or an open challenge. */
  lemma TokenStep(w: World, s: State, c: Call, id: string)
    requires Proper(w)
    ensures var (t, r) := Step(w, s, c);
            && t.tokens == s.tokens + (if r.SignedIn? then [r.token] else [])
            && (if r.SignedIn? && r.token.userId == id then 1 else 0) + Open(t, id)
               <= Open(s, id) + if PasswordShown(w, s, c, id) then 1 else 0
  {
    hide T.Answer;
  }

  /** Every token, and every challenge still open, is paid for by its own right password. */
  lemma {:induction false} TokensNeedPasswords(w: World, s: State, run: seq<Call>, n: nat, id: string)
    requires Proper(w) && n <= |run|
    ensures Issued(At(w, s, run, n).tokens, id) + Open(At(w, s, run, n), id)
         <= Issued(s.tokens, id) + Open(s, id) + PasswordsShown(w, s, run, n, id)
  {
    hide Step, PasswordShown, Issued;
    if n > 0 {
      TokensNeedPasswords(w, s, run, n - 1, id);
      var before := At(w, s, run, n - 1);
      TokenStep(w, before, run[n - 1], id);
      var r := Step(w, before, run[n - 1]).1;
      assert before.tokens + [] == before.tokens;
      if r.SignedIn? {
        IssuedSnoc(before.tokens, r.token, id);
      }
    }
  }

  /** Call `j` turns the account's challenge into a token. */
  predicate Redeems(w: World, s: State, run: seq<Call>, j: nat, id: string)
    requires Proper(w) && j < |run|
  {
    run[j].action.VerifyMfa? && run[j].action.userId == id && Step(w, At(w, s, run, j), run[j]).1.SignedIn?
  }

  /** A challenge is there after a call because the call is its login, or because it was there before
      and the call has not redeemed it. */
  lemma ChallengeStep(w: World, s: State, c: Call, id: string)
    requires Proper(w) && id in Step(w, s, c).0.challenges
    ensures var (t, r) := Step(w, s, c);
            if PasswordShown(w, s, c, id) && On(s, id) then t.challenges[id] == c.now + CHALLENGE_MS
            else id in s.challenges && s.challenges[id] == t.challenges[id]
                 && !(c.action.VerifyMfa? && c.action.userId == id && r.SignedIn?)
  {
    hide T.Answer, NewToken;
  }

  /** An open challenge comes from a right password, five minutes before its end, shown while MFA was
      on; no token was issued on it since. */
  lemma {:induction false} ChallengeHasLogin(w: World, s: State, run: seq<Call>, n: nat, id: string) returns (k: nat)
    requires Proper(w) && n <= |run|
    requires id !in s.challenges && id in At(w, s, run, n).challenges
    ensures k < n && PasswordShown(w, At(w, s, run, k), run[k], id) && On(At(w, s, run, k), id)
    ensures At(w, s, run, n).challenges[id] == run[k].now + CHALLENGE_MS
    ensures forall j :: k <= j < n ==> !Redeems(w, s, run, j, id)
  {
    hide Step, PasswordOpens, AccountOf;
    var before := At(w, s, run, n - 1);
    ChallengeStep(w, before, run[n - 1], id);
    if PasswordShown(w, before, run[n - 1], id) && On(before, id) {
      k := n - 1;
    } else {
      k := ChallengeHasLogin(w, s, run, n - 1, id);
    }
  }

  lemma SignInOfEnrolled(w: World, s: State, c: Call, id: string)
    requires Proper(w) && On(s, id)
    requires var r := Step(w, s, c).1; r.SignedIn? && r.token.userId == id
    ensures c.action.VerifyMfa? && c.action.userId == id && HasChallenge(s, id, c.now)
    ensures Accepts(w, Live(s, id), c.action.code, c.now)
  {
    hide T.Answer;
  }

  /** A token issued to an account whose MFA is on takes both factors: a code for its live secret,
      now, and its right password, no more than five minutes earlier and not used for another token. */
  lemma TokenTakesBothFactors(w: World, s: State, run: seq<Call>, n: nat, id: string) returns (k: nat)
    requires Proper(w) && n < |run|
    requires id !in s.challenges
    requires On(At(w, s, run, n), id)
    requires var r := Step(w, At(w, s, run, n), run[n]).1; r.SignedIn? && r.token.userId == id
    ensures run[n].action.VerifyMfa? && run[n].action.userId == id
    ensures Accepts(w, Live(At(w, s, run, n), id), run[n].action.code, run[n].now)
    ensures k < n && PasswordShown(w, At(w, s, run, k), run[k], id) && run[n].now <= run[k].now + CHALLENGE_MS
    ensures forall j :: k <= j < n ==> !Redeems(w, s, run, j, id)
  {
    hide Step, PasswordShown, Redeems;
    SignInOfEnrolled(w, At(w, s, run, n), run[n], id);
    k := ChallengeHasLogin(w, s, run, n, id);
  }
}
