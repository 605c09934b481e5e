/** What signing in and managing the second factor do when they succeed, and exactly when they do:
    said of accounts, challenges and tokens. */
module AuthSuccess {
  import opened AuthMfa
  import opened Collections
  import T = Totp

  const FIVE_MINUTES := 300_000
  const TWELVE_HOURS := 43_200_000
  const THIRTY_DAYS := 2_592_000_000

  /** The account is there, active, and found by this address and password. */
  predicate MaySignIn(w: World, s: State, email: string, password: string, id: string) {
    var e := w.normal(email);
    && e in w.emails && w.emails[e] == id
    && id in s.users && s.users[id].active && w.unlocks(password, s.users[id].password)
  }

  /** A token for the account, of which the log-in gives out the bearer's secret and keeps its hash. */
  predicate IsTokenFor(w: World, t: Token, id: string, remember: bool, drawn: Drawn, now: int) {
    && t.userId == id && t.tokenId == drawn.tokenId && t.hash == w.sha(drawn.bearer) && t.createdAt == now
    && t.expiresAt == if remember then now + THIRTY_DAYS else now + TWELVE_HOURS
  }

  /** Nothing about the second factor of any account, nor its password or status, is different. */
  ghost predicate SameFactors(s: State, t: State) {
    && s.users.Keys == t.users.Keys
    && forall j :: j in s.users ==> t.users[j].(lastLogin := None) == s.users[j].(lastLogin := None)
  }

  /** One token more, and the account remembers when it signed in. */
  ghost predicate Issues(w: World, s: State, t: State, r: Reply, id: string, remember: bool, drawn: Drawn, now: int) {
    && |t.tokens| == |s.tokens| + 1 && t.tokens[..|s.tokens|] == s.tokens
    && IsTokenFor(w, t.tokens[|s.tokens|], id, remember, drawn, now)
    && r == SignedIn(drawn.bearer, t.tokens[|s.tokens|])
    && SameFactors(s, t) && id in t.users && t.users[id].lastLogin == Some(now)
    && forall j :: j in s.users && j != id ==> t.users[j] == s.users[j]
  }

  /** The account has these factors now; everything else is as it was. */
  ghost predicate FactorsBecome(s: State, t: State, id: string, on: bool, live: string, pending: string) {
    && On(t, id) == on && Live(t, id) == live && Pending(t, id) == pending
    && t.tokens == s.tokens && t.challenges == s.challenges && id in s.users
    && t.users == s.users[id := s.users[id].(mfaEnabled := on, live := live, pending := pending)]
  }

  /** `login` is denied unless the address and the password are those of an active account; then it ends
      in a challenge of five minutes if MFA is on, and in a token if it is off. */
  lemma LoginDoes(w: World, s: State, email: string, password: string, remember: bool, drawn: Drawn, now: int)
    requires Proper(w)
    ensures var (t, r) := Step(w, s, Call(Login(email, password, remember, drawn), now));
            && (r == Denied <==> forall id :: !MaySignIn(w, s, email, password, id))
            && (r == Denied ==> t == s)
            && forall id :: MaySignIn(w, s, email, password, id) ==>
                 if On(s, id) then
                   && r == Challenged(id) && t.users == s.users && t.tokens == s.tokens
                   && t.challenges == s.challenges[id := now + FIVE_MINUTES]
                 else Issues(w, s, t, r, id, remember, drawn, now) && t.challenges == s.challenges
  {
    var (t, r) := Step(w, s, Call(Login(email, password, remember, drawn), now));
    var e := w.normal(email);
    if e in w.emails {
      assert r != Denied ==> MaySignIn(w, s, email, password, w.emails[e]);
    }
  }

  /** `verifyMfa` takes an open challenge and a code for the live secret, and turns them into a token. */
  lemma VerifyDoes(w: World, s: State, id: string, code: string, remember: bool, drawn: Drawn, now: int)
    requires Proper(w)
    ensures var (t, r) := Step(w, s, Call(VerifyMfa(id, code, remember, drawn), now));
            var isOpen := id in s.challenges && now <= s.challenges[id];
            && (r == NoChallenge <==> !isOpen)
            && (r.SignedIn? <==> isOpen && Live(s, id) != "" && Accepts(w, Live(s, id), code, now))
            && (r == Crashed <==> isOpen && Live(s, id) != "" && Answer(w, Live(s, id), code, now) == T.RangeError)
            && (r.SignedIn? ==> Issues(w, s, t, r, id, remember, drawn, now) && t.challenges == s.challenges - {id})
            && (!r.SignedIn? ==> t == s && r in {NoChallenge, BadCode, Crashed})
  {
    hide T.Answer;
  }

  /** `enrollMfa` puts a new secret in waiting, against a code for the live one if MFA is on. */
  lemma EnrollDoes(w: World, s: State, id: string, code: string, newSecret: string, now: int)
    requires Proper(w)
    ensures var (t, r) := Step(w, s, Call(Enroll(id, code, newSecret), now));
            && (r == NotFound <==> id !in s.users)
            && (r.Enrolled? <==> id in s.users && (On(s, id) ==> Accepts(w, Live(s, id), code, now)))
            && (r.Enrolled? ==> r == Enrolled(newSecret) && FactorsBecome(s, t, id, On(s, id), Live(s, id), newSecret))
            && (!r.Enrolled? ==> t == s && r in {NotFound, CodeNeeded, Crashed})
            && (r == Crashed <==> On(s, id) && Answer(w, Live(s, id), code, now) == T.RangeError)
  {
    hide T.Answer;
  }

  /** The secret that enabling is about: the one in waiting, or else the live one. */
  function Candidate(s: State, id: string): string {
    if Pending(s, id) != "" then Pending(s, id) else Live(s, id)
  }

  /** `enableMfa` turns MFA on with that secret live and none in waiting, exactly on a code for it. */
  lemma EnableDoes(w: World, s: State, id: string, code: string, now: int)
    requires Proper(w)
    ensures var (t, r) := Step(w, s, Call(Enable(id, code), now));
            && (r == Done <==> Candidate(s, id) != "" && Accepts(w, Candidate(s, id), code, now))
            && (r == Done ==> FactorsBecome(s, t, id, true, Candidate(s, id), ""))
            && (r == EnrollFirst <==> Candidate(s, id) == "")
            && (r != Done ==> t == s && r in {EnrollFirst, BadCode, Crashed})
            && (r == Crashed <==> Candidate(s, id) != "" && Answer(w, Candidate(s, id), code, now) == T.RangeError)
  {
    hide T.Answer;
  }

  /** `disableMfa` turns MFA off, exactly on a code for the live secret, and keeps the secrets. */
  lemma DisableDoes(w: World, s: State, id: string, code: string, now: int)
    requires Proper(w)
    ensures var (t, r) := Step(w, s, Call(Disable(id, code), now));
            && (r == Done <==> Live(s, id) != "" && Accepts(w, Live(s, id), code, now))
            && (r == Done ==> FactorsBecome(s, t, id, false, Live(s, id), Pending(s, id)))
            && (r == NotConfigured <==> Live(s, id) == "")
            && (r != Done ==> t == s && r in {NotConfigured, BadCode, Crashed})
            && (r == Crashed <==> Live(s, id) != "" && Answer(w, Live(s, id), code, now) == T.RangeError)
  {
    hide T.Answer;
  }

  /** An edit by another route changes status and password and leaves the factors; a restart forgets the
      challenges and nothing else. */
  lemma OthersDo(w: World, s: State, id: string, active: bool, password: string, now: int)
    requires Proper(w)
    ensures var t := Step(w, s, Call(Edit(id, active, password), now)).0;
            && t.users.Keys == s.users.Keys && t.tokens == s.tokens && t.challenges == s.challenges
            && (id in s.users ==> t.users == s.users[id := s.users[id].(active := active, password := password)])
    ensures Step(w, s, Call(Restart, now)).0 == s.(challenges := map[])
  {
  }

  // ----- From enrolment to a token -----------------------------------------------------------------

  /** The calls of somebody who sets the second factor up and signs in with it. */
  function SetUpAndSignIn(id: string, email: string, password: string, secret: string, code1: string, code2: string,
                          drawn: Drawn, t0: int, t1: int, t2: int, t3: int): seq<Call>
  {
    [Call(Enroll(id, "", secret), t0), Call(Enable(id, code1), t1),
     Call(Login(email, password, false, drawn), t2), Call(VerifyMfa(id, code2, false, drawn), t3)]
  }

  /** With right codes and in time it ends in a token, and with MFA on; asking for another token on the
      same challenge is refused. */
  lemma SetUpEndsInToken(w: World, s: State, id: string, email: string, password: string, secret: string,
                         code1: string, code2: string, drawn: Drawn, t0: int, t1: int, t2: int, t3: int)
    requires Proper(w) && MaySignIn(w, s, email, password, id) && !On(s, id) && secret != ""
    requires Accepts(w, secret, code1, t1) && Accepts(w, secret, code2, t3) && t3 <= t2 + FIVE_MINUTES
    ensures var run := SetUpAndSignIn(id, email, password, secret, code1, code2, drawn, t0, t1, t2, t3);
            var t := At(w, s, run, 4);
            && |t.tokens| == |s.tokens| + 1 && t.tokens[..|s.tokens|] == s.tokens
            && IsTokenFor(w, t.tokens[|s.tokens|], id, false, drawn, t3)
            && On(t, id) && Live(t, id) == secret && Pending(t, id) == ""
            && Step(w, At(w, s, run, 2), run[2]).1 == Challenged(id)
            && Step(w, At(w, s, run, 3), run[3]).1 == SignedIn(drawn.bearer, t.tokens[|s.tokens|])
            && Step(w, t, Call(VerifyMfa(id, code2, false, drawn), t3)).1 == NoChallenge
  {
    hide Step, Accepts, T.Answer;
    var run := SetUpAndSignIn(id, email, password, secret, code1, code2, drawn, t0, t1, t2, t3);
    assert At(w, s, run, 0) == s;
    var s1, s2, s3 := At(w, s, run, 1), At(w, s, run, 2), At(w, s, run, 3);
    assert s1 == Step(w, s, run[0]).0;
    assert s2 == Step(w, s1, run[1]).0;
    assert s3 == Step(w, s2, run[2]).0;
    assert At(w, s, run, 4) == Step(w, s3, run[3]).0;
    EnrollDoes(w, s, id, "", secret, t0);
    EnableDoes(w, s1, id, code1, t1);
    assert MaySignIn(w, s2, email, password, id);
    LoginDoes(w, s2, email, password, false, drawn, t2);
    VerifyDoes(w, s3, id, code2, false, drawn, t3);
    VerifyDoes(w, At(w, s, run, 4), id, code2, false, drawn, t3);
  }
}
