/**
 Login, refresh, logout and password reset as they really run: many requests at once, each advancing from one await to
 the next, over one shared key store.
 */
module AuthProtocol {
  import opened KeyStore
  import opened Sets
  import opened Wrappers

  /** A request between two awaits. A login is its own family of refresh tokens; a refresh inherits one. */
  datatype Phase = Checked(email: string, locked: bool) | Issuing(userId: string, family: nat)

  /** `family`, `consumed` and `firstFailure` record the past; nothing in the services reads them. */
  datatype State = State(
    store: Store, now: real, flights: map<nat, Phase>, used: set<nat>,
    family: map<string, nat>, consumed: multiset<string>, firstFailure: map<string, real>)

  const INITIAL := State(map[], 0.0, map[], {}, map[], multiset{}, map[])

  /** `up` says whether Redis executes the command of this step. */
  datatype Step =
    | LoginStart(r: nat, email: string, up: bool)
    | LoginWrong(r: nat, accountExists: bool, up: bool)
    | LoginDenied(r: nat)
    | LoginRight(r: nat, userId: string, up: bool)
    | RefreshStart(r: nat, token: string, up: bool)
    | RefreshReplyLost(token: string)
    | Issue(r: nat, token: string, up: bool)
    | Abandon(r: nat)
    | Logout(token: string, up: bool)
    | ResetRequest(token: string, userId: string, up: bool)
    | ResetPassword(token: string, up: bool)
    | Wait(seconds: real)

  /** Request numbers and new tokens (uuid4) are fresh; a request only does what its phase allows. */
  predicate Enabled(s: State, step: Step) {
    match step
    case LoginStart(r, _, _) => r !in s.used
    case LoginWrong(r, _, _) => r in s.flights && s.flights[r].Checked?
    case LoginDenied(r) => r in s.flights && s.flights[r].Checked?
    case LoginRight(r, _, _) => r in s.flights && s.flights[r].Checked? && !s.flights[r].locked
    case RefreshStart(r, _, _) => r !in s.used
    case RefreshReplyLost(_) => true
    case Issue(r, token, _) => r in s.flights && s.flights[r].Issuing? && token !in s.family
    case Abandon(r) => r in s.flights
    case Logout(_, _) => true
    case ResetRequest(_, _, _) => true
    case ResetPassword(_, _) => true
    case Wait(d) => d >= 0.0
  }

  function Apply(s: State, step: Step): State
    requires Enabled(s, step)
  {
    match step
    case LoginStart(r, email, up) =>
      s.(used := s.used + {r}, flights := s.flights[r := Checked(email, up && Locked(s.store, email, s.now))])
    case LoginWrong(r, accountExists, up) =>
      var email, done := s.flights[r].email, s.(flights := s.flights - {r});
      if up && accountExists && !s.flights[r].locked then
        done.(store := IncrExpireNx(s.store, LoginFail(email), LOCKOUT_WINDOW, s.now),
        firstFailure :=
          if Live(s.store, LoginFail(email), s.now) then s.firstFailure else s.firstFailure[email := s.now])
      else done
    case LoginDenied(r) => s.(flights := s.flights - {r})
    case LoginRight(r, userId, up) =>
      s.(store := if up then Del(s.store, LoginFail(s.flights[r].email)) else s.store,
      flights := s.flights[r := Issuing(userId, r)])
    case RefreshStart(r, token, up) =>
      if !up then s.(used := s.used + {r})
      else Consume(s.(used := s.used + {r}), r, token)
    case RefreshReplyLost(token) => s.(store := Del(s.store, Refresh(token)))
    case Issue(r, token, up) =>
      var done := s.(flights := s.flights - {r});
      if up then
        done.(store := SetEx(s.store, Refresh(token), REFRESH_TOKEN_TTL, UserId(s.flights[r].userId), s.now),
        family := s.family[token := s.flights[r].family])
      else done
    case Abandon(r) => s.(flights := s.flights - {r})
    case Logout(token, up) => if up then s.(store := Del(s.store, Refresh(token))) else s
    case ResetRequest(token, userId, up) =>
      if up then s.(store := SetEx(s.store, Key.Reset(token), RESET_TOKEN_TTL, UserId(userId), s.now)) else s
    case ResetPassword(token, up) => if up then s.(store := Del(s.store, Key.Reset(token))) else s
    case Wait(d) => s.(now := s.now + d)
  }

  /** GETDEL: whoever finds the token removes it in the same step. */
  function Consume(s: State, r: nat, token: string): State {
    var found := Get(s.store, Refresh(token), s.now);
    var gone := s.(store := Del(s.store, Refresh(token)));
    if found.Some? && found.value.UserId? && token in s.family
    then gone.(flights := s.flights[r := Issuing(found.value.id, s.family[token])],
               consumed := s.consumed + multiset{token})
    else gone
  }

  predicate LegalRun(s: State, steps: seq<Step>)
    decreases |steps|
  {
    steps == [] || (Enabled(s, steps[0]) && LegalRun(Apply(s, steps[0]), steps[1..]))
  }

  function Run(s: State, steps: seq<Step>): State
    requires LegalRun(s, steps)
    decreases |steps|
  {
    if steps == [] then s else Run(Apply(s, steps[0]), steps[1..])
  }

  // Refresh-token families.

  predicate Stored(s: State, token: string) { Refresh(token) in s.store }

  predicate Reissuing(s: State, r: nat, family: nat) {
    r in s.flights && s.flights[r].Issuing? && s.flights[r].family == family
  }

  /** A stored token or a reissue in flight: whoever holds the family's one right to continue. */
  datatype Holder = Token(token: string) | Flight(r: nat)

  predicate Holds(s: State, h: Holder, family: nat) {
    match h
    case Token(t) => Stored(s, t) && t in s.family && s.family[t] == family
    case Flight(r) => Reissuing(s, r, family)
  }

  ghost predicate Bookkeeping(s: State) {
    && (forall t :: Stored(s, t) ==> t in s.family)
    && (forall t :: t in s.family ==> s.family[t] in s.used)
    && (forall r :: r in s.flights ==> r in s.used && (s.flights[r].Issuing? ==> s.flights[r].family in s.used))
    && (forall t :: t in s.consumed ==> t in s.family && !Stored(s, t) && s.consumed[t] == 1)
  }

  ghost predicate LoginsFresh(s: State) {
    forall r, h :: r in s.flights && s.flights[r].Checked? ==> !Holds(s, h, r)
  }

  ghost predicate OneHolder(s: State) {
    forall h1, h2, f :: Holds(s, h1, f) && Holds(s, h2, f) ==> h1 == h2
  }

  ghost predicate Inv(s: State) {
    Bookkeeping(s) && LoginsFresh(s) && OneHolder(s)
  }

  /** A step that at most removes tokens and flights, or starts a login, keeps the invariant. */
  lemma ShrinkKeeps(s: State, s': State)
    requires Inv(s) && s'.family == s.family && s'.consumed == s.consumed && s.used <= s'.used
    requires forall t :: Stored(s', t) ==> Stored(s, t)
    requires forall r :: r in s'.flights ==>
               && r in s'.used
               && ((r in s.flights && s'.flights[r] == s.flights[r]) || (r !in s.used && s'.flights[r].Checked?))
    ensures Inv(s')
  {
    forall h, f | Holds(s', h, f) ensures Holds(s, h, f) && f in s.used {
      match h
      case Token(t) => assert Stored(s, t);
      case Flight(r) =>
    }
  }

  lemma ConsumeMoves(s: State, r: nat, token: string)
    requires Inv(s) && r !in s.used && UserOf(s.store, Refresh(token), s.now).Some?
    ensures var s' := Apply(s, RefreshStart(r, token, true));
            && Inv(s')
            && forall h, g :: Holds(s', h, g)
                              <==> (h == Flight(r) && g == s.family[token]) || (Holds(s, h, g) && h != Token(token))
  {
    var s' := Apply(s, RefreshStart(r, token, true));
    assert Stored(s, token) && Holds(s, Token(token), s.family[token]);
    assert forall t :: Stored(s', t) <==> Stored(s, t) && t != token;
    assert forall h, g :: Holds(s', h, g)
                          <==> (h == Flight(r) && g == s.family[token]) || (Holds(s, h, g) && h != Token(token));
  }

  /** The request that finds a live token takes its right over, whole; any other gets nothing. */
  lemma ConsumeKeeps(s: State, r: nat, token: string)
    requires Inv(s) && r !in s.used
    ensures var s' := Apply(s, RefreshStart(r, token, true));
            && Inv(s') && !Stored(s', token)
            && (UserOf(s.store, Refresh(token), s.now).None? ==> s'.flights == s.flights)
            && (UserOf(s.store, Refresh(token), s.now).Some? ==>
                  forall h, g :: Holds(s', h, g)
                                 <==> (h == Flight(r) && g == s.family[token]) || (Holds(s, h, g) && h != Token(token)))
  {
    var s' := Apply(s, RefreshStart(r, token, true));
    assert forall t :: Stored(s', t) <==> Stored(s, t) && t != token;
    if UserOf(s.store, Refresh(token), s.now).Some? {
      ConsumeMoves(s, r, token);
    } else {
      ShrinkKeeps(s, s');
    }
  }

  /** Storing the new token hands the right in flight to exactly that token. */
  lemma IssueKeeps(s: State, r: nat, token: string)
    requires Inv(s) && Enabled(s, Issue(r, token, true))
    ensures var s' := Apply(s, Issue(r, token, true));
            && Inv(s')
            && forall h, g :: Holds(s', h, g)
                              <==> (h == Token(token) && g == s.flights[r].family) || (Holds(s, h, g) && h != Flight(r))
  {
    var s' := Apply(s, Issue(r, token, true));
    var f := s.flights[r].family;
    assert Holds(s, Flight(r), f);
    assert forall t :: Stored(s', t) <==> Stored(s, t) || t == token;
    assert forall h, g :: Holds(s', h, g) <==> (h == Token(token) && g == f) || (Holds(s, h, g) && h != Flight(r));
  }

  lemma LoginRightKeeps(s: State, r: nat, userId: string, up: bool)
    requires Inv(s) && Enabled(s, LoginRight(r, userId, up))
    ensures Inv(Apply(s, LoginRight(r, userId, up)))
  {
    var s' := Apply(s, LoginRight(r, userId, up));
    assert forall t :: Stored(s', t) <==> Stored(s, t);
    assert forall h, g :: Holds(s', h, g) ==> (h == Flight(r) && g == r) || Holds(s, h, g);
    assert forall h :: !Holds(s, h, r);
  }

  lemma LoginStepKeeps(s: State, step: Step)
    requires Inv(s) && Enabled(s, step) && (step.LoginStart? || step.LoginWrong? || step.LoginDenied?)
    ensures Inv(Apply(s, step))
  {
    var s' := Apply(s, step);
    assert forall t :: Stored(s', t) <==> Stored(s, t);
    ShrinkKeeps(s, s');
  }

  lemma DropStepKeeps(s: State, step: Step)
    requires Inv(s) && Enabled(s, step)
    requires (step.RefreshReplyLost? || step.Logout? || step.Abandon?
              || step.ResetRequest? || step.ResetPassword? || step.Wait?)
    ensures Inv(Apply(s, step))
  {
    var s' := Apply(s, step);
    assert forall t :: Stored(s', t) ==> Stored(s, t);
    ShrinkKeeps(s, s');
  }

  lemma StepKeeps(s: State, step: Step)
    requires Inv(s) && Enabled(s, step)
    ensures Inv(Apply(s, step))
  {
    match step
    case RefreshStart(r, token, up) =>
      if up { ConsumeKeeps(s, r, token); } else { ShrinkKeeps(s, Apply(s, step)); }
    case Issue(r, token, up) =>
      if up { IssueKeeps(s, r, token); } else { ShrinkKeeps(s, Apply(s, step)); }
    case LoginRight(r, userId, up) => LoginRightKeeps(s, r, userId, up);
    case LoginStart(_, _, _) => LoginStepKeeps(s, step);
    case LoginWrong(_, _, _) => LoginStepKeeps(s, step);
    case LoginDenied(_) => LoginStepKeeps(s, step);
    case _ => DropStepKeeps(s, step);
  }

  lemma {:induction false} RunKeeps(s: State, steps: seq<Step>)
    requires Inv(s) && LegalRun(s, steps)
    ensures Inv(Run(s, steps))
    decreases |steps|
  {
    if steps != [] {
      StepKeeps(s, steps[0]);
      RunKeeps(Apply(s, steps[0]), steps[1..]);
    }
  }

  /**
   In every interleaving, outages and lost replies included, each login's live tokens and reissues in
   flight number at most one, every token belongs to a login, and no token is consumed twice.
   */
  lemma OneTokenPerLogin(steps: seq<Step>)
    requires LegalRun(INITIAL, steps)
    ensures var s := Run(INITIAL, steps);
            && (forall h1, h2, f :: Holds(s, h1, f) && Holds(s, h2, f) ==> h1 == h2)
            && (forall t :: Live(s.store, Refresh(t), s.now) ==> t in s.family && Holds(s, Token(t), s.family[t]))
            && (forall t :: s.consumed[t] <= 1)
  {
    RunKeeps(INITIAL, steps);
    var s := Run(INITIAL, steps);
    forall t | Live(s.store, Refresh(t), s.now) ensures t in s.family && Holds(s, Token(t), s.family[t]) {
      assert Stored(s, t);
    }
  }

  lemma UsedStep(s: State, step: Step, token: string)
    requires Enabled(s, step) && token in s.family && !Stored(s, token)
    ensures token in Apply(s, step).family && !Stored(Apply(s, step), token)
  {
  }

  /** A token that was ever handed out and is no longer stored never comes back. */
  lemma {:induction false} UsedStaysUsed(s: State, steps: seq<Step>, token: string)
    requires Inv(s) && LegalRun(s, steps) && token in s.family && !Stored(s, token)
    ensures var end := Run(s, steps); Inv(end) && token in end.family && !Stored(end, token)
    decreases |steps|
  {
    if steps != [] {
      StepKeeps(s, steps[0]);
      UsedStep(s, steps[0], token);
      UsedStaysUsed(Apply(s, steps[0]), steps[1..], token);
    }
  }

  /** Once a refresh has consumed a token, no later request with it ever gets anything, in any interleaving. */
  lemma SecondUseRefused(s: State, r: nat, token: string, steps: seq<Step>, again: nat, up: bool)
    requires Inv(s) && r !in s.used && token in s.family
    requires LegalRun(Apply(s, RefreshStart(r, token, true)), steps)
    requires Enabled(Run(Apply(s, RefreshStart(r, token, true)), steps), RefreshStart(again, token, up))
    ensures var end := Run(Apply(s, RefreshStart(r, token, true)), steps);
            && !Stored(end, token)
            && Apply(end, RefreshStart(again, token, up)).flights == end.flights
  {
    ConsumeKeeps(s, r, token);
    UsedStaysUsed(Apply(s, RefreshStart(r, token, true)), steps, token);
  }

  // Lifetimes.

  /** A token stands for the user it was issued to, for exactly thirty days. */
  lemma TokenLifetime(s: State, r: nat, token: string, later: real)
    requires Enabled(s, Issue(r, token, true))
    ensures UserOf(Apply(s, Issue(r, token, true)).store, Refresh(token), later)
         == if later < s.now + 2592000.0 then Some(s.flights[r].userId) else None
  {
  }

  /** A mailed reset token stands for its user for exactly one hour. */
  lemma ResetLifetime(s: State, token: string, userId: string, later: real)
    ensures UserOf(Apply(s, ResetRequest(token, userId, true)).store, Key.Reset(token), later)
         == if later < s.now + 3600.0 then Some(userId) else None
  {
  }

  // Logout.

  /** The login is over: nobody holds its right, and no request of its own can claim it any more. */
  ghost predicate Over(s: State, family: nat) {
    && family in s.used
    && (family in s.flights ==> !s.flights[family].Checked?)
    && forall h :: !Holds(s, h, family)
  }

  lemma OverConsume(s: State, r: nat, token: string, family: nat)
    requires Inv(s) && Over(s, family) && r !in s.used
    ensures Over(Apply(s, RefreshStart(r, token, true)), family)
  {
    var s' := Apply(s, RefreshStart(r, token, true));
    assert !Holds(s, Token(token), family);
    forall h ensures !Holds(s', h, family) {
      assert !Holds(s, h, family);
    }
  }

  lemma OverIssue(s: State, r: nat, token: string, family: nat)
    requires Inv(s) && Over(s, family) && Enabled(s, Issue(r, token, true))
    ensures Over(Apply(s, Issue(r, token, true)), family)
  {
    IssueKeeps(s, r, token);
    assert !Holds(s, Flight(r), family);
  }

  lemma OverDrop(s: State, step: Step, family: nat)
    requires Over(s, family) && Enabled(s, step)
    requires !step.LoginStart? && !step.LoginRight? && !step.RefreshStart? && !step.Issue?
    ensures Over(Apply(s, step), family)
  {
    var s' := Apply(s, step);
    assert forall t :: Stored(s', t) ==> Stored(s, t);
    forall h ensures !Holds(s', h, family) {
      assert !Holds(s, h, family);
    }
  }

  lemma OverLogin(s: State, step: Step, family: nat)
    requires Over(s, family) && Enabled(s, step) && (step.LoginStart? || step.LoginRight?)
    ensures Over(Apply(s, step), family)
  {
    var s' := Apply(s, step);
    assert forall t :: Stored(s', t) <==> Stored(s, t);
    forall h ensures !Holds(s', h, family) {
      assert !Holds(s, h, family);
    }
  }

  lemma OverFailed(s: State, step: Step, family: nat)
    requires Over(s, family) && Enabled(s, step)
    requires (step.RefreshStart? || step.Issue?) && !step.up
    ensures Over(Apply(s, step), family)
  {
    forall h ensures !Holds(Apply(s, step), h, family) {
      assert !Holds(s, h, family);
    }
  }

  lemma OverStep(s: State, step: Step, family: nat)
    requires Inv(s) && Over(s, family) && Enabled(s, step)
    ensures Over(Apply(s, step), family)
  {
    match step
    case LoginStart(_, _, _) => OverLogin(s, step, family);
    case LoginRight(_, _, _) => OverLogin(s, step, family);
    case RefreshStart(r, token, up) =>
      if up {
        OverConsume(s, r, token, family);
      } else {
        OverFailed(s, step, family);
      }
    case Issue(r, token, up) =>
      if up {
        OverIssue(s, r, token, family);
      } else {
        OverFailed(s, step, family);
      }
    case _ => OverDrop(s, step, family);
  }

  lemma {:induction false} StaysOver(s: State, steps: seq<Step>, family: nat)
    requires Inv(s) && Over(s, family) && LegalRun(s, steps)
    ensures Over(Run(s, steps), family)
    decreases |steps|
  {
    if steps != [] {
      StepKeeps(s, steps[0]);
      OverStep(s, steps[0], family);
      StaysOver(Apply(s, steps[0]), steps[1..], family);
    }
  }

  /** Right after a logout nobody holds the login's right if and only if the token was stored or nobody held it. */
  lemma LogoutEndsIff(s: State, token: string)
    requires Inv(s) && token in s.family
    ensures (forall h :: !Holds(Apply(s, Logout(token, true)), h, s.family[token]))
       <==> Stored(s, token) || forall h :: !Holds(s, h, s.family[token])
  {
    var s', family := Apply(s, Logout(token, true)), s.family[token];
    assert forall t :: Stored(s', t) <==> Stored(s, t) && t != token;
    assert forall h :: Holds(s', h, family) <==> Holds(s, h, family) && h != Token(token);
    assert Stored(s, token) ==> Holds(s, Token(token), family);
  }

  /**
   Logging out with the session's token ends the session: in no run whatever does anybody ever again hold a
   token of that login or a right to one.
   */
  lemma LogoutEndsSession(s: State, token: string, steps: seq<Step>)
    requires Inv(s) && Stored(s, token) && LegalRun(Apply(s, Logout(token, true)), steps)
    ensures token in s.family && forall h :: !Holds(Run(Apply(s, Logout(token, true)), steps), h, s.family[token])
  {
    assert Holds(s, Token(token), s.family[token]);
    LogoutEndsIff(s, token);
    StepKeeps(s, Logout(token, true));
    StaysOver(Apply(s, Logout(token, true)), steps, s.family[token]);
  }

  /** A refresh whose reply is lost does to everybody else exactly what a logout with its token does. */
  lemma LostReplyIsLogout(s: State, token: string)
    ensures Apply(s, RefreshReplyLost(token)) == Apply(s, Logout(token, true))
    ensures Refresh(token) !in Apply(s, RefreshReplyLost(token)).store
  {
  }

  /** The steps that answer a request, or give it up, end it: its number is spent and it holds nothing. */
  lemma RequestEnds(s: State, step: Step, r: nat)
    requires Inv(s) && Enabled(s, step)
    requires match step
             case LoginWrong(q, _, _) => q == r
             case LoginDenied(q) => q == r
             case Issue(q, _, _) => q == r
             case Abandon(q) => q == r
             case _ => false
    ensures r !in Apply(s, step).flights && r in Apply(s, step).used
  {
    assert r in s.flights;
  }

  // Password reset. The route's text promises to revoke every refresh token of the account.

  ghost predicate HasSession(s: State, userId: string) {
    exists t :: UserOf(s.store, Refresh(t), s.now) == Some(userId)
  }

  /** After a successful reset the account is without a session if and only if it had none before. */
  lemma ResetRevokesIff(s: State, token: string, userId: string)
    requires UserOf(s.store, Key.Reset(token), s.now) == Some(userId)
    ensures !HasSession(Apply(s, ResetPassword(token, true)), userId) <==> !HasSession(s, userId)
  {
    var s' := Apply(s, ResetPassword(token, true));
    assert forall t :: UserOf(s'.store, Refresh(t), s'.now) == UserOf(s.store, Refresh(t), s.now);
  }

  /** Nobody mails this reset token again. */
  predicate NotMailed(steps: seq<Step>, token: string) {
    forall i :: 0 <= i < |steps| ==> !(steps[i].ResetRequest? && steps[i].token == token)
  }

  /** A reset token works once: consumed, it stands for nobody at any time of any run that does not mail it anew. */
  lemma {:induction false} ResetOnce(s: State, steps: seq<Step>, token: string, later: real)
    requires Key.Reset(token) !in s.store && LegalRun(s, steps) && NotMailed(steps, token)
    ensures UserOf(Run(s, steps).store, Key.Reset(token), later) == None
    decreases |steps|
  {
    if steps != [] {
      ResetOnce(Apply(s, steps[0]), steps[1..], token, later);
    }
  }

  lemma ResetConsumed(s: State, token: string)
    ensures Key.Reset(token) !in Apply(s, ResetPassword(token, true)).store
  {
  }

  /** No refresh or logout with this token, its lost reply included. */
  predicate Untouched(steps: seq<Step>, token: string) {
    forall i :: 0 <= i < |steps| ==> !Names(steps[i], token)
  }

  predicate Names(step: Step, token: string) {
    (step.RefreshStart? || step.RefreshReplyLost? || step.Logout?) && step.token == token
  }

  lemma UntouchedStep(s: State, step: Step, token: string)
    requires Enabled(s, step) && Stored(s, token) && token in s.family && !Names(step, token)
    ensures var s' := Apply(s, step);
            && Stored(s', token) && s'.store[Refresh(token)] == s.store[Refresh(token)]
            && token in s'.family && s'.family[token] == s.family[token]
  {
  }

  lemma {:induction false} UntouchedKept(s: State, steps: seq<Step>, token: string)
    requires Inv(s) && LegalRun(s, steps) && Stored(s, token) && Untouched(steps, token)
    ensures var end := Run(s, steps);
            && Inv(end) && Stored(end, token) && end.store[Refresh(token)] == s.store[Refresh(token)]
            && end.family[token] == s.family[token]
    decreases |steps|
  {
    if steps != [] {
      StepKeeps(s, steps[0]);
      UntouchedStep(s, steps[0], token);
      UntouchedKept(Apply(s, steps[0]), steps[1..], token);
    }
  }

  /**
   A token taken from its owner outlives any number of password resets: whatever runs, unless somebody
   refreshes or logs out with that very token, it yields a session of the user until its 30 days are over.
   */
  lemma TokenOutlivesResets(s: State, steps: seq<Step>, token: string, userId: string, r: nat)
    requires Inv(s) && LegalRun(s, steps) && Untouched(steps, token)
    requires UserOf(s.store, Refresh(token), s.now) == Some(userId) && r !in Run(s, steps).used
    ensures var end := Run(s, steps);
            var expiry := s.store[Refresh(token)].expiry;
            var after := Apply(end, RefreshStart(r, token, true));
            (r in after.flights && after.flights[r] == Issuing(userId, s.family[token]))
            <==> (expiry.Some? ==> end.now < expiry.value)
  {
    assert Stored(s, token);
    UntouchedKept(s, steps, token);
  }

  lemma {:induction false} RunSnoc(s: State, steps: seq<Step>, step: Step)
    requires LegalRun(s, steps) && Enabled(Run(s, steps), step)
    ensures LegalRun(s, steps + [step]) && Run(s, steps + [step]) == Apply(Run(s, steps), step)
    decreases |steps|
  {
    if steps == [] {
      assert (steps + [step])[1..] == [];
    } else {
      assert (steps + [step])[1..] == steps[1..] + [step];
      RunSnoc(Apply(s, steps[0]), steps[1..], step);
    }
  }

  /** One login, the first thing that ever happened; the list is built the way RunSnoc takes it apart. */
  function FirstLogin(email: string, userId: string): seq<Step> {
    [] + [LoginStart(0, email, true)] + [LoginRight(0, userId, true)] + [Issue(0, "t", true)]
  }

  lemma AfterLogin(email: string, userId: string) returns (s: State)
    ensures LegalRun(INITIAL, FirstLogin(email, userId)) && s == Run(INITIAL, FirstLogin(email, userId))
    ensures s.store == map[Refresh("t") := Entry(UserId(userId), Some(REFRESH_TOKEN_TTL))]
    ensures s.now == 0.0 && s.flights == map[] && s.used == {0} && s.family == map["t" := 0]
  {
    var a := Apply(INITIAL, LoginStart(0, email, true));
    var b := Apply(a, LoginRight(0, userId, true));
    assert a.flights == map[0 := Checked(email, false)] && b.flights == map[0 := Issuing(userId, 0)];
    RunSnoc(INITIAL, [], LoginStart(0, email, true));
    RunSnoc(INITIAL, [LoginStart(0, email, true)], LoginRight(0, userId, true));
    RunSnoc(INITIAL, [LoginStart(0, email, true), LoginRight(0, userId, true)], Issue(0, "t", true));
    s := Apply(b, Issue(0, "t", true));
  }

  /** A login, a reset of that account, and the old session refreshes all the same. */
  lemma SessionSurvivesReset(email: string, userId: string)
    ensures var asked := FirstLogin(email, userId) + [ResetRequest("mail", userId, true)];
            && LegalRun(INITIAL, asked)
            && var s := Run(INITIAL, asked);
            && UserOf(s.store, Key.Reset("mail"), s.now) == Some(userId)
            && var reset := Apply(s, ResetPassword("mail", true));
            && Enabled(reset, RefreshStart(1, "t", true))
            && Apply(reset, RefreshStart(1, "t", true)).flights == map[1 := Issuing(userId, 0)]
  {
    var s := AfterLogin(email, userId);
    RunSnoc(INITIAL, FirstLogin(email, userId), ResetRequest("mail", userId, true));
  }

  // Lockout.

  predicate Up(step: Step) {
    match step
    case LoginStart(_, _, up) => up
    case LoginWrong(_, _, up) => up
    case LoginRight(_, _, up) => up
    case _ => true
  }

  /** Logins for this account that passed the lockout check and have not ended. */
  function Pending(s: State, email: string): set<nat> {
    set r | r in s.flights && s.flights[r] == Checked(email, false)
  }

  /** Redis answers, and never more than k logins for this account are past the check at once. */
  predicate BoundedRun(s: State, steps: seq<Step>, email: string, k: nat)
    decreases |steps|
  {
    |Pending(s, email)| <= k
    && (steps == []
        || (Enabled(s, steps[0]) && Up(steps[0]) && BoundedRun(Apply(s, steps[0]), steps[1..], email, k)))
  }

  lemma {:induction false} BoundedIsLegal(s: State, steps: seq<Step>, email: string, k: nat)
    requires BoundedRun(s, steps, email, k)
    ensures LegalRun(s, steps)
    decreases |steps|
  {
    if steps != [] {
      BoundedIsLegal(Apply(s, steps[0]), steps[1..], email, k);
    }
  }

  /** The counter carries an expiry, 900 s after the failure that started it, and never runs ahead of its logins. */
  ghost predicate LockInv(s: State, email: string, k: nat) {
    && (LoginFail(email) in s.store ==>
          && email in s.firstFailure
          && s.store[LoginFail(email)].expiry == Some(s.firstFailure[email] + LOCKOUT_WINDOW)
          && s.store[LoginFail(email)].value.Failures? && s.store[LoginFail(email)].value.n >= 1)
    && FailureCount(s.store, email, s.now) + |Pending(s, email)| <= LOCKOUT_THRESHOLD - 1 + k
  }

  /** The counter is untouched (or gone, or timed out) and no login for the account passed the check. */
  lemma LockShrinks(s: State, s': State, email: string, k: nat)
    requires LockInv(s, email, k) && s'.firstFailure == s.firstFailure && s.now <= s'.now
    requires LoginFail(email) in s'.store ==>
               LoginFail(email) in s.store && s'.store[LoginFail(email)] == s.store[LoginFail(email)]
    requires Pending(s', email) <= Pending(s, email) && |Pending(s', email)| <= k
    ensures LockInv(s', email, k)
  {
    SubsetSize(Pending(s', email), Pending(s, email));
  }

  lemma LockLoginStart(s: State, r: nat, e: string, email: string, k: nat)
    requires LockInv(s, email, k) && r !in s.used
    requires |Pending(Apply(s, LoginStart(r, e, true)), email)| <= k
    ensures LockInv(Apply(s, LoginStart(r, e, true)), email, k)
  {
    var s' := Apply(s, LoginStart(r, e, true));
    if e != email || Locked(s.store, email, s.now) {
      assert Pending(s', email) <= Pending(s, email);
      LockShrinks(s, s', email, k);
    }
  }

  lemma LockLoginWrong(s: State, r: nat, accountExists: bool, email: string, k: nat)
    requires LockInv(s, email, k) && Enabled(s, LoginWrong(r, accountExists, true))
    requires |Pending(Apply(s, LoginWrong(r, accountExists, true)), email)| <= k
    ensures LockInv(Apply(s, LoginWrong(r, accountExists, true)), email, k)
  {
    var s' := Apply(s, LoginWrong(r, accountExists, true));
    if s.flights[r] == Checked(email, false) && accountExists {
      assert Pending(s', email) == Pending(s, email) - {r} && r in Pending(s, email);
      assert FailureCount(s'.store, email, s'.now) == FailureCount(s.store, email, s.now) + 1;
    } else {
      assert Pending(s', email) <= Pending(s, email);
      assert LoginFail(email) in s'.store ==> LoginFail(email) in s.store;
      SubsetSize(Pending(s', email), Pending(s, email));
    }
  }

  lemma LockFlightStep(s: State, step: Step, email: string, k: nat)
    requires LockInv(s, email, k) && Enabled(s, step) && Up(step)
    requires step.LoginRight? || step.LoginDenied? || step.Abandon? || step.Issue?
    requires |Pending(Apply(s, step), email)| <= k
    ensures LockInv(Apply(s, step), email, k)
  {
    LockShrinks(s, Apply(s, step), email, k);
  }

  lemma LockStep(s: State, step: Step, email: string, k: nat)
    requires LockInv(s, email, k) && Enabled(s, step) && Up(step)
    requires |Pending(Apply(s, step), email)| <= k
    ensures LockInv(Apply(s, step), email, k)
  {
    match step
    case LoginStart(r, e, _) => LockLoginStart(s, r, e, email, k);
    case LoginWrong(r, accountExists, _) => LockLoginWrong(s, r, accountExists, email, k);
    case LoginRight(_, _, _) => LockFlightStep(s, step, email, k);
    case LoginDenied(_) => LockFlightStep(s, step, email, k);
    case Abandon(_) => LockFlightStep(s, step, email, k);
    case Issue(_, _, _) => LockFlightStep(s, step, email, k);
    case _ => LockShrinks(s, Apply(s, step), email, k);
  }

  lemma {:induction false} LockRun(s: State, steps: seq<Step>, email: string, k: nat)
    requires LockInv(s, email, k) && BoundedRun(s, steps, email, k) && LegalRun(s, steps)
    ensures LockInv(Run(s, steps), email, k)
    decreases |steps|
  {
    if steps != [] {
      LockStep(s, steps[0], email, k);
      LockRun(Apply(s, steps[0]), steps[1..], email, k);
    }
  }

  /**
   While Redis is up and at most k logins for an account are in flight, its counter never exceeds 9 + k
   (10 when logins are serial), and always expires 900 s after the failure that started it.
   */
  lemma LockoutBound(steps: seq<Step>, email: string, k: nat)
    requires BoundedRun(INITIAL, steps, email, k)
    ensures LegalRun(INITIAL, steps)
    ensures var s := Run(INITIAL, steps);
            && FailureCount(s.store, email, s.now) <= 9 + k
            && (LoginFail(email) in s.store ==>
                  && email in s.firstFailure
                  && s.store[LoginFail(email)].expiry == Some(s.firstFailure[email] + 900.0))
  {
    BoundedIsLegal(INITIAL, steps, email, k);
    LockRun(INITIAL, steps, email, k);
  }

  /** A login finds the account locked exactly when Redis answers with ten or more failures in a running window. */
  lemma LoginChecks(s: State, r: nat, email: string, up: bool)
    requires r !in s.used
    ensures var s' := Apply(s, LoginStart(r, email, up));
            r in s'.flights && s'.flights[r] == Checked(email, up && FailureCount(s.store, email, s.now) >= 10)
  {
  }

  predicate Refused(s: State, r: nat, email: string) {
    r in s.used && (r in s.flights ==> s.flights[r] == Checked(email, true))
  }

  lemma RefusedStep(s: State, step: Step, r: nat, email: string)
    requires Refused(s, r, email) && Enabled(s, step)
    ensures Refused(Apply(s, step), r, email)
  {
  }

  /** A login that finds the account locked is never given anything, whatever the password and whatever follows. */
  lemma {:induction false} LockedOut(s: State, steps: seq<Step>, r: nat, email: string)
    requires Refused(s, r, email) && LegalRun(s, steps)
    ensures Refused(Run(s, steps), r, email)
    decreases |steps|
  {
    if steps != [] {
      RefusedStep(s, steps[0], r, email);
      LockedOut(Apply(s, steps[0]), steps[1..], r, email);
    }
  }

  /** The lock opens by itself at the end of the window and not before. */
  lemma LockOpens(s: State, email: string, d: real)
    requires d >= 0.0 && Live(s.store, LoginFail(email), s.now) && s.store[LoginFail(email)].expiry.Some?
    ensures var s', expiry := Apply(s, Wait(d)), s.store[LoginFail(email)].expiry.value;
            FailureCount(s'.store, email, s'.now)
            == if s.now + d < expiry then FailureCount(s.store, email, s.now) else 0
  {
  }

  /** A successful login clears its account's failures and no other's. */
  lemma SuccessClears(s: State, r: nat, userId: string, email: string, later: real)
    requires Enabled(s, LoginRight(r, userId, true))
    ensures FailureCount(Apply(s, LoginRight(r, userId, true)).store, email, later)
         == if s.flights[r].email == email then 0 else FailureCount(s.store, email, later)
  {
  }

  /** The counter is live at every moment of the run. */
  predicate RunningThroughout(s: State, steps: seq<Step>, email: string)
    requires LegalRun(s, steps)
    decreases |steps|
  {
    Live(s.store, LoginFail(email), s.now)
    && (steps == [] || RunningThroughout(Apply(s, steps[0]), steps[1..], email))
  }

  lemma StepKeepsExpiry(s: State, step: Step, email: string)
    requires Enabled(s, step) && Live(s.store, LoginFail(email), s.now)
    requires s.store[LoginFail(email)].expiry.Some? && LoginFail(email) in Apply(s, step).store
    ensures Apply(s, step).store[LoginFail(email)].expiry == s.store[LoginFail(email)].expiry
  {
  }

  /** However many attempts follow, the window of a running counter is never extended. */
  lemma {:induction false} WindowNeverExtended(s: State, steps: seq<Step>, email: string)
    requires LegalRun(s, steps) && RunningThroughout(s, steps, email)
    requires s.store[LoginFail(email)].expiry.Some?
    ensures LoginFail(email) in Run(s, steps).store
    ensures Run(s, steps).store[LoginFail(email)].expiry == s.store[LoginFail(email)].expiry
    decreases |steps|
  {
    if steps != [] {
      StepKeepsExpiry(s, steps[0], email);
      WindowNeverExtended(Apply(s, steps[0]), steps[1..], email);
    }
  }

  /** A wrong password for a real account that was not locked when the login began. */
  predicate Counts(s: State, step: Step, email: string)
    requires Enabled(s, step)
  {
    step.LoginWrong? && step.up && step.accountExists && s.flights[step.r] == Checked(email, false)
  }

  function Counted(s: State, steps: seq<Step>, email: string): nat
    requires LegalRun(s, steps)
    decreases |steps|
  {
    if steps == [] then 0
    else (if Counts(s, steps[0], email) then 1 else 0) + Counted(Apply(s, steps[0]), steps[1..], email)
  }

  lemma StepCounts(s: State, step: Step, email: string)
    requires Enabled(s, step) && Live(s.store, LoginFail(email), s.now)
    requires Live(Apply(s, step).store, LoginFail(email), Apply(s, step).now)
    ensures FailureCount(Apply(s, step).store, email, Apply(s, step).now)
         == FailureCount(s.store, email, s.now) + if Counts(s, step, email) then 1 else 0
  {
  }

  /** While a counter runs, it counts every such failure and nothing else, in any interleaving. */
  lemma {:induction false} FailuresCounted(s: State, steps: seq<Step>, email: string)
    requires LegalRun(s, steps) && RunningThroughout(s, steps, email)
    ensures var end := Run(s, steps);
            FailureCount(end.store, email, end.now) == FailureCount(s.store, email, s.now) + Counted(s, steps, email)
    decreases |steps|
  {
    if steps != [] {
      StepCounts(s, steps[0], email);
      FailuresCounted(Apply(s, steps[0]), steps[1..], email);
    }
  }

  /** The first failure starts the count at one and the window at that moment. */
  lemma FirstFailure(s: State, r: nat, email: string)
    requires r in s.flights && s.flights[r] == Checked(email, false) && !Live(s.store, LoginFail(email), s.now)
    ensures var s' := Apply(s, LoginWrong(r, true, true));
            && FailureCount(s'.store, email, s.now) == 1
            && LoginFail(email) in s'.store && s'.store[LoginFail(email)].expiry == Some(s.now + 900.0)
  {
  }
}
