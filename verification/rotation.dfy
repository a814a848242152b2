/**
 Key rotation across replicas. User-service replicas sign, gateway replicas verify, and each replica
 picks up new settings only when it restarts, in any order. MACs are idealised: a token verifies under
 a secret exactly when it was signed with that secret.
 */
module Rotation {
  import opened Wrappers
  import opened Keyring

  datatype Token = Token(kid: Option<string>, secret: string, exp: int)
  datatype Signer = Signer(ring: Ring, currentKid: string)
  datatype Verdict = Accepted | UnknownKid | BadSignature | Expired

  /** An access token issued at `now`, or None when the current kid is not in the ring. */
  function Sign(signer: Signer, now: int, lifetime: nat): Option<Token> {
    match SelectSigningKey(signer.ring, signer.currentKid)
    case None => None
    case Some(pair) => Some(Token(Some(pair.kid), pair.secret, now + lifetime))
  }

  /** The gateway: kid, then key, then signature, then expiry. */
  function Verify(ring: Ring, token: Token, now: int): Verdict {
    match SelectVerificationKey(ring, token.kid)
    case None => UnknownKid
    case Some(secret) =>
      if secret != token.secret then BadSignature
      else if token.exp <= now then Expired
      else Accepted
  }

  /** A token bears the current kid, that kid's secret, and its issue time plus the lifetime. */
  lemma SignExact(signer: Signer, now: int, lifetime: nat, token: Token)
    ensures Sign(signer, now, lifetime) == Some(token)
       <==> && token.kid == Some(signer.currentKid) && token.exp == now + lifetime
            && signer.currentKid in signer.ring && signer.ring[signer.currentKid] == token.secret
  {
  }

  /** Accepted exactly when the gateway knows the kid, or "default" for none, with that secret, before the expiry. */
  lemma VerifyExact(ring: Ring, token: Token, now: int)
    ensures Verify(ring, token, now) == Accepted
       <==> var name := if token.kid.Some? then token.kid.value else "default";
            token.kid != Some("") && name in ring && ring[name] == token.secret && now < token.exp
  {
    VerificationKeyExact(ring, token.kid, token.secret);
  }

  /** Replicas by number, every token ever issued, and when each kid was last the current one of some signer. */
  datatype State = State(
    signers: map<nat, Signer>, gateways: map<nat, Ring>, issued: set<Token>, now: int, retired: map<string, int>)

  datatype Step =
    | Issue(signer: nat)
    | Wait(seconds: nat)
    | RestartSigner(signer: nat, settings: Signer)
    | RestartGateway(gateway: nat, ring: Ring)

  function Apply(s: State, step: Step, lifetime: nat): State {
    match step
    case Issue(i) =>
      if i !in s.signers then s
      else (match Sign(s.signers[i], s.now, lifetime)
        case None => s
        case Some(token) => s.(issued := s.issued + {token}))
    case Wait(d) => s.(now := s.now + d)
    case RestartSigner(i, settings) =>
      s.(signers := s.signers[i := settings],
      retired := if i in s.signers then s.retired[s.signers[i].currentKid := s.now] else s.retired)
    case RestartGateway(g, ring) => s.(gateways := s.gateways[g := ring])
  }

  predicate Signs(s: State, kid: string) {
    exists i :: i in s.signers && s.signers[i].currentKid == kid
  }

  /** The kid is in the ring with its one true secret. */
  predicate Knows(ring: Ring, kid: string, book: Ring) {
    kid in ring && kid in book && ring[kid] == book[kid]
  }

  predicate KnownEverywhere(s: State, kid: string, book: Ring) {
    forall g :: g in s.gateways ==> Knows(s.gateways[g], kid, book)
  }

  /** No signer uses the kid, and a whole token lifetime has passed since the last one did. */
  predicate WaitedOut(s: State, kid: string, lifetime: nat) {
    !Signs(s, kid) && (kid in s.retired ==> s.retired[kid] + lifetime <= s.now)
  }

  /**
   The operator's rules: a signer may switch only to a key every gateway already has; a gateway
   may lose a key only after that key has been waited out; `book` gives each kid one secret for ever.
   */
  predicate Legal(s: State, step: Step, lifetime: nat, book: Ring) {
    match step
    case Issue(i) => i in s.signers
    case Wait(_) => true
    case RestartSigner(i, settings) =>
      && i in s.signers
      && settings.currentKid != ""
      && Knows(settings.ring, settings.currentKid, book)
      && KnownEverywhere(s, settings.currentKid, book)
    case RestartGateway(g, ring) =>
      && g in s.gateways
      && (forall kid :: kid in s.gateways[g] ==> Knows(ring, kid, book) || WaitedOut(s, kid, lifetime))
  }

  predicate LegalRun(s: State, steps: seq<Step>, lifetime: nat, book: Ring)
    decreases |steps|
  {
    steps == []
    || (Legal(s, steps[0], lifetime, book) && LegalRun(Apply(s, steps[0], lifetime), steps[1..], lifetime, book))
  }

  function Run(s: State, steps: seq<Step>, lifetime: nat): State
    decreases |steps|
  {
    if steps == [] then s else Run(Apply(s, steps[0], lifetime), steps[1..], lifetime)
  }

  predicate Initial(s: State, book: Ring) {
    && s.issued == {} && s.retired == map[]
    && forall i :: i in s.signers ==> SignerReady(s, s.signers[i], book)
  }

  predicate SignerReady(s: State, signer: Signer, book: Ring) {
    && signer.currentKid != ""
    && Knows(signer.ring, signer.currentKid, book)
    && KnownEverywhere(s, signer.currentKid, book)
  }

  /** A token bears its kid's true secret; while it lives all gateways know the kid, in use or not yet waited out. */
  predicate TokenSafe(s: State, token: Token, lifetime: nat, book: Ring) {
    && token.kid.Some? && token.kid.value != ""
    && token.kid.value in book && token.secret == book[token.kid.value]
    && token.exp <= s.now + lifetime
    && (token.exp > s.now ==> KnownEverywhere(s, token.kid.value, book))
    && (Signs(s, token.kid.value)
        || (token.kid.value in s.retired && token.exp <= s.retired[token.kid.value] + lifetime))
  }

  ghost predicate Inv(s: State, lifetime: nat, book: Ring) {
    && (forall i :: i in s.signers ==> SignerReady(s, s.signers[i], book))
    && (forall token :: token in s.issued ==> TokenSafe(s, token, lifetime, book))
  }

  lemma IssueKeeps(s: State, i: nat, lifetime: nat, book: Ring)
    requires Inv(s, lifetime, book) && i in s.signers
    ensures Inv(Apply(s, Issue(i), lifetime), lifetime, book)
  {
    var s' := Apply(s, Issue(i), lifetime);
    assert SignerReady(s, s.signers[i], book);
    forall token | token in s'.issued ensures TokenSafe(s', token, lifetime, book) {
      assert token in s.issued || token == Sign(s.signers[i], s.now, lifetime).value;
      assert Signs(s', s.signers[i].currentKid);
      if token in s.issued {
        assert TokenSafe(s, token, lifetime, book);
        assert Signs(s, token.kid.value) == Signs(s', token.kid.value);
      }
    }
    assert forall j :: j in s'.signers ==> SignerReady(s, s'.signers[j], book);
  }

  lemma WaitKeeps(s: State, d: nat, lifetime: nat, book: Ring)
    requires Inv(s, lifetime, book)
    ensures Inv(Apply(s, Wait(d), lifetime), lifetime, book)
  {
    var s' := Apply(s, Wait(d), lifetime);
    forall token | token in s'.issued ensures TokenSafe(s', token, lifetime, book) {
      assert TokenSafe(s, token, lifetime, book);
      assert Signs(s, token.kid.value) == Signs(s', token.kid.value);
    }
    assert forall j :: j in s'.signers ==> SignerReady(s, s'.signers[j], book);
  }

  lemma RestartSignerKeeps(s: State, i: nat, settings: Signer, lifetime: nat, book: Ring)
    requires Inv(s, lifetime, book) && Legal(s, RestartSigner(i, settings), lifetime, book)
    ensures Inv(Apply(s, RestartSigner(i, settings), lifetime), lifetime, book)
  {
    var s' := Apply(s, RestartSigner(i, settings), lifetime);
    forall token | token in s'.issued ensures TokenSafe(s', token, lifetime, book) {
      assert TokenSafe(s, token, lifetime, book);
      var kid := token.kid.value;
      assert KnownEverywhere(s, kid, book) ==> KnownEverywhere(s', kid, book);
      if Signs(s, kid) && kid != s.signers[i].currentKid {
        var j :| j in s.signers && s.signers[j].currentKid == kid;
        assert j in s'.signers && s'.signers[j].currentKid == kid;
      }
    }
    forall j | j in s'.signers ensures SignerReady(s', s'.signers[j], book) {
      assert j != i ==> SignerReady(s, s.signers[j], book);
    }
  }

  lemma RestartGatewayKeeps(s: State, g: nat, ring: Ring, lifetime: nat, book: Ring)
    requires Inv(s, lifetime, book) && Legal(s, RestartGateway(g, ring), lifetime, book)
    ensures Inv(Apply(s, RestartGateway(g, ring), lifetime), lifetime, book)
  {
    var s' := Apply(s, RestartGateway(g, ring), lifetime);
    forall token | token in s'.issued ensures TokenSafe(s', token, lifetime, book) {
      assert TokenSafe(s, token, lifetime, book);
      var kid := token.kid.value;
      assert Signs(s, kid) == Signs(s', kid);
      if token.exp > s.now {
        assert Knows(s.gateways[g], kid, book);
        assert !WaitedOut(s, kid, lifetime);
      }
    }
    forall j | j in s'.signers ensures SignerReady(s', s'.signers[j], book) {
      assert SignerReady(s, s.signers[j], book);
      assert Knows(s.gateways[g], s.signers[j].currentKid, book);
      assert Signs(s, s.signers[j].currentKid);
    }
  }

  lemma StepKeeps(s: State, step: Step, lifetime: nat, book: Ring)
    requires Inv(s, lifetime, book) && Legal(s, step, lifetime, book)
    ensures Inv(Apply(s, step, lifetime), lifetime, book)
  {
    match step
    case Issue(i) => IssueKeeps(s, i, lifetime, book);
    case Wait(d) => WaitKeeps(s, d, lifetime, book);
    case RestartSigner(i, settings) => RestartSignerKeeps(s, i, settings, lifetime, book);
    case RestartGateway(g, ring) => RestartGatewayKeeps(s, g, ring, lifetime, book);
  }

  lemma {:induction false} RunKeeps(s: State, steps: seq<Step>, lifetime: nat, book: Ring)
    requires Inv(s, lifetime, book) && LegalRun(s, steps, lifetime, book)
    ensures Inv(Run(s, steps, lifetime), lifetime, book)
    decreases |steps|
  {
    if steps != [] {
      StepKeeps(s, steps[0], lifetime, book);
      RunKeeps(Apply(s, steps[0], lifetime), steps[1..], lifetime, book);
    }
  }

  /**
   Whatever the interleaving, every unexpired token verifies on every gateway replica, every signer
   can sign, and a kid gone from a ring has only expired tokens left, which that gateway rejects.
   */
  lemma RotationSafe(s: State, steps: seq<Step>, lifetime: nat, book: Ring)
    requires Initial(s, book) && LegalRun(s, steps, lifetime, book)
    ensures var end := Run(s, steps, lifetime);
            && (forall t, g :: t in end.issued && g in end.gateways && end.now < t.exp
                  ==> Verify(end.gateways[g], t, end.now) == Accepted)
            && (forall t :: t in end.issued ==> t.kid.Some?)
            && (forall i :: i in end.signers ==> Sign(end.signers[i], end.now, lifetime).Some?)
            && (forall t, g :: t in end.issued && g in end.gateways && t.kid.Some? && t.kid.value !in end.gateways[g]
                  ==> t.exp <= end.now && Verify(end.gateways[g], t, end.now) == UnknownKid)
  {
    RunKeeps(s, steps, lifetime, book);
    var end := Run(s, steps, lifetime);
    forall t, g | t in end.issued && g in end.gateways
      ensures end.now < t.exp ==> Verify(end.gateways[g], t, end.now) == Accepted
      ensures t.kid.Some?
      ensures t.kid.value !in end.gateways[g] ==>
                t.exp <= end.now && Verify(end.gateways[g], t, end.now) == UnknownKid
    {
      assert TokenSafe(end, t, lifetime, book);
      assert t.exp > end.now ==> Knows(end.gateways[g], t.kid.value, book);
    }
    forall t | t in end.issued ensures t.kid.Some? {
      assert TokenSafe(end, t, lifetime, book);
    }
    forall i | i in end.signers ensures Sign(end.signers[i], end.now, lifetime).Some? {
      assert SignerReady(end, end.signers[i], book);
    }
  }

  /** Nothing signed under a removed kid is accepted, nor a token without kid once "default" is the one removed. */
  lemma RemovedKidRejected(ring: Ring, token: Token, kid: string, now: int)
    requires kid !in ring && (token.kid == Some(kid) || (token.kid == None && kid == "default"))
    ensures Verify(ring, token, now) == UnknownKid
  {
  }

  // The documented day-by-day choreography for replacing key `before` by key `after`.

  datatype Phase = Adding | Switching | Waiting(since: int) | Removing

  predicate BothEverywhere(s: State, both: Ring) {
    && (forall i :: i in s.signers ==> s.signers[i].ring == both)
    && (forall g :: g in s.gateways ==> s.gateways[g] == both)
  }

  predicate AllSignWith(s: State, kid: string) {
    forall i :: i in s.signers ==> s.signers[i].currentKid == kid
  }

  /** One restart (or anything else) that the current day of the choreography permits. */
  predicate DayPermits(s: State, phase: Phase, step: Step, before: KeyPair, after: KeyPair) {
    var both := BothKeys(before, after);
    var single := OnlyKey(after);
    match step
    case Issue(i) => i in s.signers
    case Wait(_) => true
    case RestartSigner(i, settings) =>
      && i in s.signers
      && settings == Signer(if phase.Removing? then single else both,
                            if phase.Adding? then before.kid else after.kid)
    case RestartGateway(g, ring) =>
      g in s.gateways && ring == if phase.Removing? then single else both
  }

  /** When the operator may turn to the next day. */
  predicate MayAdvance(s: State, phase: Phase, next: Phase, lifetime: nat, before: KeyPair, after: KeyPair) {
    match phase
    case Adding => next == Switching && BothEverywhere(s, BothKeys(before, after))
    case Switching => next == Waiting(s.now) && AllSignWith(s, after.kid)
    case Waiting(since) => next == Removing && since + lifetime <= s.now
    case Removing => false
  }

  function BothKeys(before: KeyPair, after: KeyPair): Ring {
    map[before.kid := before.secret, after.kid := after.secret]
  }

  function OnlyKey(pair: KeyPair): Ring {
    map[pair.kid := pair.secret]
  }

  /** What each day guarantees, whichever replicas have restarted so far. */
  ghost predicate DayInv(s: State, phase: Phase, lifetime: nat, before: KeyPair, after: KeyPair) {
    var both := BothKeys(before, after);
    && before.kid != after.kid && before.kid != "" && after.kid != ""
    && (before.kid in s.retired ==> s.retired[before.kid] <= s.now)
    && (forall g :: g in s.gateways ==> s.gateways[g].Keys <= both.Keys)
    && match phase
       case Adding => AllSignWith(s, before.kid) && KnownEverywhere(s, before.kid, both)
       case Switching => KnownEverywhere(s, before.kid, both) && KnownEverywhere(s, after.kid, both)
       case Waiting(since) =>
         && AllSignWith(s, after.kid) && since <= s.now
         && (before.kid in s.retired ==> s.retired[before.kid] <= since)
         && KnownEverywhere(s, before.kid, both) && KnownEverywhere(s, after.kid, both)
       case Removing =>
         && AllSignWith(s, after.kid) && KnownEverywhere(s, after.kid, both)
         && (before.kid in s.retired ==> s.retired[before.kid] + lifetime <= s.now)
  }

  lemma DaySigner(s: State, phase: Phase, i: nat, settings: Signer, lifetime: nat, before: KeyPair, after: KeyPair)
    requires DayInv(s, phase, lifetime, before, after)
    requires DayPermits(s, phase, RestartSigner(i, settings), before, after)
    ensures Legal(s, RestartSigner(i, settings), lifetime, BothKeys(before, after))
    ensures DayInv(Apply(s, RestartSigner(i, settings), lifetime), phase, lifetime, before, after)
  {
    assert KnownEverywhere(s, settings.currentKid, BothKeys(before, after));
  }

  lemma DayGateway(s: State, phase: Phase, g: nat, ring: Ring, lifetime: nat, before: KeyPair, after: KeyPair)
    requires DayInv(s, phase, lifetime, before, after) && DayPermits(s, phase, RestartGateway(g, ring), before, after)
    ensures Legal(s, RestartGateway(g, ring), lifetime, BothKeys(before, after))
    ensures DayInv(Apply(s, RestartGateway(g, ring), lifetime), phase, lifetime, before, after)
  {
    assert phase.Removing? ==> WaitedOut(s, before.kid, lifetime);
  }

  /** Whatever a day permits is legal and keeps the day's guarantee. */
  lemma DayStep(s: State, phase: Phase, step: Step, lifetime: nat, before: KeyPair, after: KeyPair)
    requires DayInv(s, phase, lifetime, before, after) && DayPermits(s, phase, step, before, after)
    ensures Legal(s, step, lifetime, BothKeys(before, after))
    ensures DayInv(Apply(s, step, lifetime), phase, lifetime, before, after)
  {
    match step
    case RestartSigner(i, settings) => DaySigner(s, phase, i, settings, lifetime, before, after);
    case RestartGateway(g, ring) => DayGateway(s, phase, g, ring, lifetime, before, after);
    case _ =>
  }

  lemma AdvanceKeeps(s: State, phase: Phase, next: Phase, lifetime: nat, before: KeyPair, after: KeyPair)
    requires DayInv(s, phase, lifetime, before, after)
    requires MayAdvance(s, phase, next, lifetime, before, after)
    ensures DayInv(s, next, lifetime, before, after)
  {
  }

  datatype Event = Do(step: Step) | Advance(next: Phase)

  predicate DayRun(s: State, phase: Phase, events: seq<Event>, lifetime: nat, before: KeyPair, after: KeyPair)
    decreases |events|
  {
    events == [] ||
    match events[0]
    case Do(step) =>
      DayPermits(s, phase, step, before, after)
      && DayRun(Apply(s, step, lifetime), phase, events[1..], lifetime, before, after)
    case Advance(next) =>
      MayAdvance(s, phase, next, lifetime, before, after)
      && DayRun(s, next, events[1..], lifetime, before, after)
  }

  function StepsOf(events: seq<Event>): seq<Step> {
    if events == [] then []
    else (if events[0].Do? then [events[0].step] else []) + StepsOf(events[1..])
  }

  lemma {:induction false} DayRunLegal(
    s: State, phase: Phase, events: seq<Event>, lifetime: nat, before: KeyPair, after: KeyPair)
    requires DayInv(s, phase, lifetime, before, after) && DayRun(s, phase, events, lifetime, before, after)
    ensures LegalRun(s, StepsOf(events), lifetime, BothKeys(before, after))
    decreases |events|
  {
    if events != [] {
      match events[0] {
        case Do(step) =>
          DayStep(s, phase, step, lifetime, before, after);
          DayRunLegal(Apply(s, step, lifetime), phase, events[1..], lifetime, before, after);
          assert StepsOf(events)[1..] == StepsOf(events[1..]);
        case Advance(next) =>
          AdvanceKeeps(s, phase, next, lifetime, before, after);
          DayRunLegal(s, next, events[1..], lifetime, before, after);
          assert StepsOf(events) == StepsOf(events[1..]);
      }
    }
  }

  /**
   The documented choreography, from every replica holding only the old key: at every moment of every
   interleaving each unexpired token verifies on every gateway replica.
   */
  lemma ChoreographySafe(s: State, events: seq<Event>, lifetime: nat, before: KeyPair, after: KeyPair)
    requires before.kid != after.kid && before.kid != "" && after.kid != ""
    requires s.issued == {} && s.retired == map[]
    requires forall i :: i in s.signers ==> s.signers[i] == Signer(OnlyKey(before), before.kid)
    requires forall g :: g in s.gateways ==> s.gateways[g] == OnlyKey(before)
    requires DayRun(s, Adding, events, lifetime, before, after)
    ensures var end := Run(s, StepsOf(events), lifetime);
            forall t, g :: t in end.issued && g in end.gateways && end.now < t.exp
              ==> Verify(end.gateways[g], t, end.now) == Accepted
  {
    var both := BothKeys(before, after);
    assert DayInv(s, Adding, lifetime, before, after);
    DayRunLegal(s, Adding, events, lifetime, before, after);
    assert Initial(s, both);
    RotationSafe(s, StepsOf(events), lifetime, both);
  }

  /** The gateways that have restarted on the last day. */
  function Cleared(phase: Phase, events: seq<Event>): set<nat>
    decreases |events|
  {
    if events == [] then {}
    else
      match events[0]
      case Advance(next) => Cleared(next, events[1..])
      case Do(step) =>
        (if phase.Removing? && step.RestartGateway? then {step.gateway} else {}) + Cleared(phase, events[1..])
  }

  /** Once cleared, a gateway stays so: no day follows the last one. */
  lemma {:induction false} ClearedStays(
    s: State, events: seq<Event>, g: nat, lifetime: nat, before: KeyPair, after: KeyPair)
    requires DayRun(s, Removing, events, lifetime, before, after)
    requires g in s.gateways && s.gateways[g] == OnlyKey(after)
    ensures var end := Run(s, StepsOf(events), lifetime); g in end.gateways && end.gateways[g] == OnlyKey(after)
    decreases |events|
  {
    if events != [] {
      ClearedStays(Apply(s, events[0].step, lifetime), events[1..], g, lifetime, before, after);
      assert StepsOf(events)[1..] == StepsOf(events[1..]);
    }
  }

  lemma {:induction false} ClearedRing(
    s: State, phase: Phase, events: seq<Event>, g: nat, lifetime: nat, before: KeyPair, after: KeyPair)
    requires DayRun(s, phase, events, lifetime, before, after) && g in Cleared(phase, events)
    ensures var end := Run(s, StepsOf(events), lifetime); g in end.gateways && end.gateways[g] == OnlyKey(after)
    decreases |events|
  {
    match events[0]
    case Advance(next) =>
      ClearedRing(s, next, events[1..], g, lifetime, before, after);
      assert StepsOf(events) == StepsOf(events[1..]);
    case Do(step) =>
      var s' := Apply(s, step, lifetime);
      if g in Cleared(phase, events[1..]) {
        ClearedRing(s', phase, events[1..], g, lifetime, before, after);
      } else {
        ClearedStays(s', events[1..], g, lifetime, before, after);
      }
      assert StepsOf(events)[1..] == StepsOf(events[1..]);
  }

  /**
   The end of Day 4: a gateway restarted on that day trusts the new key alone. It rejects whatever bears the
   old kid, forged or genuine, and, when the old kid was the fallback "default", every token without a kid.
   */
  lemma ChoreographyEnds(
    s: State, events: seq<Event>, lifetime: nat, before: KeyPair, after: KeyPair, g: nat, token: Token, now: int)
    requires before.kid != after.kid
    requires DayRun(s, Adding, events, lifetime, before, after) && g in Cleared(Adding, events)
    ensures var end := Run(s, StepsOf(events), lifetime);
            && g in end.gateways && end.gateways[g] == OnlyKey(after)
            && (token.kid == Some(before.kid) || (token.kid == None && before.kid == "default") ==>
                  Verify(end.gateways[g], token, now) == UnknownKid)
            && (Verify(end.gateways[g], token, now) == Accepted ==> token.secret == after.secret)
  {
    ClearedRing(s, Adding, events, g, lifetime, before, after);
    var ring := Run(s, StepsOf(events), lifetime).gateways[g];
    if token.kid == Some(before.kid) || (token.kid == None && before.kid == "default") {
      RemovedKidRejected(ring, token, before.kid, now);
    }
  }

  lemma ThreeSteps(s: State, x: Step, y: Step, z: Step, lifetime: nat, book: Ring)
    ensures var a := Apply(s, x, lifetime);
            var b := Apply(a, y, lifetime);
            && Run(s, [x, y, z], lifetime) == Apply(b, z, lifetime)
            && (LegalRun(s, [x, y, z], lifetime, book)
                <==> Legal(s, x, lifetime, book) && Legal(a, y, lifetime, book) && Legal(b, z, lifetime, book))
  {
    var a := Apply(s, x, lifetime);
    var b := Apply(a, y, lifetime);
    var c := Apply(b, z, lifetime);
    assert [x, y, z][1..] == [y, z] && [y, z][1..] == [z] && [z][1..] == [];
    assert Run(c, [], lifetime) == c && Run(b, [z], lifetime) == c && Run(a, [y, z], lifetime) == c;
    assert LegalRun(c, [], lifetime, book);
    assert LegalRun(b, [z], lifetime, book) <==> Legal(b, z, lifetime, book);
  }

  /**
   The wait of Day 3 cannot be shortened by a second: whatever the token lifetime, in this legal run dropping
   the old key d seconds after its last use refuses a live token if and only if d is less than the lifetime.
   */
  lemma WaitIsTight(lifetime: nat, d: nat, before: KeyPair, after: KeyPair)
    requires before.kid != after.kid && before.kid != "" && after.kid != ""
    ensures var both := BothKeys(before, after);
            var s := State(map[0 := Signer(both, before.kid)], map[0 := both], {}, 0, map[]);
            var steps := [Issue(0), RestartSigner(0, Signer(both, after.kid)), Wait(d)];
            var drop := RestartGateway(0, OnlyKey(after));
            var end := Run(s, steps, lifetime);
            var token := Token(Some(before.kid), before.secret, lifetime);
            && Initial(s, both) && LegalRun(s, steps, lifetime, both)
            && (Legal(end, drop, lifetime, both) <==> lifetime <= d)
            && token in end.issued && end.gateways == map[0 := both]
            && Verify(end.gateways[0], token, end.now) == (if d < lifetime then Accepted else Expired)
            && Verify(Apply(end, drop, lifetime).gateways[0], token, end.now) == UnknownKid
  {
    var both := BothKeys(before, after);
    var s := State(map[0 := Signer(both, before.kid)], map[0 := both], {}, 0, map[]);
    ThreeSteps(s, Issue(0), RestartSigner(0, Signer(both, after.kid)), Wait(d), lifetime, both);
    var token := Token(Some(before.kid), before.secret, lifetime);
    assert Sign(s.signers[0], 0, lifetime) == Some(token);
  }
}
