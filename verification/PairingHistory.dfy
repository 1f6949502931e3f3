/** Every run of the credential store: what its state says about the events that led to it. */
module PairingHistory {
  import opened Prelude
  import opened PairingStore

  datatype Event =
    | Create(now: int, id: string, key: string)
    | TryClaim(now: int, pairingId: Option<string>, secret: Option<string>, verifier: Option<Digest>)
    | TryActivate(now: int, authorization: Option<string>)
    | Finalize
    | Publish(uuid: Option<string>)

  function Step(s: State, e: Event): State {
    match e
    case Create(now, id, key) => CreateBootstrap(s, now, id, key)
    case TryClaim(now, pairingId, secret, verifier) => Claim(s, now, pairingId, secret, verifier).0
    case TryActivate(now, authorization) => Activate(s, now, authorization).0
    case Finalize => CompleteFinalize(s)
    case Publish(uuid) => if uuid.None? || IsDiscoveryUuid(uuid.value) then s.(discoveryUuid := uuid) else s
  }

  /** Bootstraps are drawn in the right shape; nothing is asked of the other events. */
  ghost predicate ValidRun(run: seq<Event>) {
    forall i :: 0 <= i < |run| && run[i].Create? ==> IsPairingId(run[i].id) && IsToken(run[i].key)
  }

  function StateAfter(run: seq<Event>, n: nat): State
    requires n <= |run|
  {
    if n == 0 then EMPTY else Step(StateAfter(run, n - 1), run[n - 1])
  }

  /** Every transition writes a state that is accepted when it is read back, with a verifier active exactly when ACTIVE. */
  lemma StepKeepsSound(s: State, e: Event)
    requires Sound(s) && (e.Create? ==> IsPairingId(e.id) && IsToken(e.key))
    ensures Sound(Step(s, e))
  {
  }

  lemma {:induction false} RunIsSound(run: seq<Event>, n: nat)
    requires ValidRun(run) && n <= |run|
    ensures Sound(StateAfter(run, n))
  {
    if n > 0 {
      RunIsSound(run, n - 1);
      StepKeepsSound(StateAfter(run, n - 1), run[n - 1]);
    }
  }

  /** ACTIVE is never left and its verifier never changes. */
  lemma {:induction false} ActiveStays(run: seq<Event>, m: nat, n: nat)
    requires ValidRun(run) && m <= n <= |run| && StateAfter(run, m).phase == Active
    ensures StateAfter(run, n).phase == Active && StateAfter(run, n).active == StateAfter(run, m).active
  {
    if m < n {
      ActiveStays(run, m, n - 1);
      RunIsSound(run, n - 1);
    }
  }

  // Attempts

  /** The event replaces the bootstrap. */
  predicate NewBootstrap(run: seq<Event>, i: nat)
    requires i < |run|
  {
    run[i].Create? && !RefusesBootstrap(StateAfter(run, i), run[i].now)
  }

  /** The event is a claim that is turned down for its authorization while a bootstrap is open. */
  predicate FailedClaim(run: seq<Event>, i: nat)
    requires i < |run|
  {
    var (s, e) := (StateAfter(run, i), run[i]);
    s.phase == BootstrapAvailable && e.TryClaim? && Claim(s, e.now, e.pairingId, e.secret, e.verifier).1 == AuthorizationInvalid
  }

  /** Failed claims since the last bootstrap was drawn. */
  function Failures(run: seq<Event>, n: nat): nat
    requires n <= |run|
  {
    if n == 0 || NewBootstrap(run, n - 1) then 0
    else Failures(run, n - 1) + if FailedClaim(run, n - 1) then 1 else 0
  }

  /** At most eight failed claims are let through to a bootstrap. */
  lemma {:induction false} FailuresBounded(run: seq<Event>, n: nat)
    requires ValidRun(run) && n <= |run|
    ensures Failures(run, n) <= 8
    ensures StateAfter(run, n).phase == BootstrapAvailable ==> StateAfter(run, n).attempts == Failures(run, n)
  {
    if n > 0 {
      FailuresBounded(run, n - 1);
      RunIsSound(run, n - 1);
    }
  }

  // Where a credential comes from

  /** The open bootstrap was drawn by event k. */
  ghost predicate DrawnAt(run: seq<Event>, n: nat, k: nat)
    requires n <= |run|
  {
    var s := StateAfter(run, n);
    && k < n && NewBootstrap(run, k)
    && (forall i :: k < i < n ==> !NewBootstrap(run, i))
    && s.pairingId == Some(run[k].id) && s.secretDigest == Some(Sha256(run[k].key))
    && s.bootstrapExpires == Some(run[k].now + BOOTSTRAP_LIFETIME)
  }

  lemma {:induction false} BootstrapWasDrawn(run: seq<Event>, n: nat) returns (k: nat)
    requires ValidRun(run) && n <= |run| && StateAfter(run, n).phase == BootstrapAvailable
    ensures DrawnAt(run, n, k)
  {
    if NewBootstrap(run, n - 1) {
      k := n - 1;
    } else {
      k := BootstrapWasDrawn(run, n - 1);
    }
  }

  /** Event i is a claim of `digest` that knew the id and secret drawn by event k, in time. */
  ghost predicate CorrectClaim(run: seq<Event>, k: nat, i: nat, digest: Digest) {
    && k < i < |run| && NewBootstrap(run, k) && run[i].TryClaim?
    && (forall l :: k < l < i ==> !NewBootstrap(run, l))
    && run[i].pairingId == Some(run[k].id) && run[i].secret == Some(run[k].key)
    && run[i].verifier == Some(digest) && run[i].now < run[k].now + BOOTSTRAP_LIFETIME
  }

  lemma {:induction false} PendingWasClaimed(run: seq<Event>, n: nat) returns (k: nat, i: nat)
    requires ValidRun(run) && n <= |run| && StateAfter(run, n).phase == Pending
    ensures i < n && StateAfter(run, n).pending.Some? && CorrectClaim(run, k, i, StateAfter(run, n).pending.value)
    ensures StateAfter(run, n).pendingExpires == Some(run[i].now + PENDING_LIFETIME)
  {
    RunIsSound(run, n - 1);
    if StateAfter(run, n - 1).phase == Pending {
      k, i := PendingWasClaimed(run, n - 1);
    } else {
      k := BootstrapWasDrawn(run, n - 1);
      i := n - 1;
    }
  }

  /** Event j presents the token whose digest was claimed correctly by event i, within a day. */
  ghost predicate Earned(run: seq<Event>, k: nat, i: nat, j: nat, token: string) {
    && i < j < |run| && CorrectClaim(run, k, i, Sha256(token))
    && run[j].TryActivate? && BearerToken(run[j].authorization) == Some(token) && run[j].now < run[i].now + PENDING_LIFETIME
  }

  lemma {:induction false} ActiveWasEarned(run: seq<Event>, n: nat) returns (k: nat, i: nat, j: nat)
    requires ValidRun(run) && n <= |run| && StateAfter(run, n).phase == Active
    ensures j < n && StateAfter(run, n).active.Some? && Earned(run, k, i, j, StateAfter(run, n).active.value.text)
  {
    RunIsSound(run, n - 1);
    if StateAfter(run, n - 1).phase == Active {
      k, i, j := ActiveWasEarned(run, n - 1);
    } else {
      k, i := PendingWasClaimed(run, n - 1);
      j := n - 1;
    }
  }

  /** A token is let in only after a correct claim of its digest in time, followed by its activation within a day. */
  lemma AuthorizedWasEarned(run: seq<Event>, n: nat, authorization: Option<string>)
    requires ValidRun(run) && n <= |run| && AuthorizationMatches(authorization, StateAfter(run, n).active)
    ensures exists k: nat, i: nat, j: nat :: j < n && Earned(run, k, i, j, BearerToken(authorization).value)
  {
    RunIsSound(run, n);
    var k, i, j := ActiveWasEarned(run, n);
  }

  // What the answers of a run mean

  /** The answer to a claim or an activation. */
  function AnswerAt(run: seq<Event>, i: nat): Code
    requires i < |run| && (run[i].TryClaim? || run[i].TryActivate?)
  {
    match run[i]
    case TryClaim(now, pairingId, secret, verifier) => Claim(StateAfter(run, i), now, pairingId, secret, verifier).1
    case TryActivate(now, authorization) => Activate(StateAfter(run, i), now, authorization).1
  }

  /** Who is told that the claim succeeded holds the Collector with the verifier that was sent. */
  lemma ClaimedIsHeld(run: seq<Event>, i: nat)
    requires ValidRun(run) && i < |run| && run[i].TryClaim? && AnswerAt(run, i) == Claimed
    ensures run[i].verifier.Some? && Holder(StateAfter(run, i + 1)) == run[i].verifier
  {
    RunIsSound(run, i);
    ClaimedExactly(StateAfter(run, i), run[i].now, run[i].pairingId, run[i].secret, run[i].verifier);
  }

  /** Repeated with the id and secret of a held Collector, a claim succeeds with the same verifier only. */
  lemma RepeatedClaim(run: seq<Event>, i: nat)
    requires ValidRun(run) && i < |run| && run[i].TryClaim? && Knows(StateAfter(run, i), run[i].pairingId, run[i].secret)
    requires var s := StateAfter(run, i); s.phase == Active || (s.phase == Pending && !Expired(s.pendingExpires, run[i].now))
    ensures AnswerAt(run, i) == Claimed <==> run[i].verifier == Holder(StateAfter(run, i))
    ensures AnswerAt(run, i) == VerifierConflict <==> run[i].verifier.Some? && run[i].verifier != Holder(StateAfter(run, i))
    ensures StateAfter(run, i + 1) == StateAfter(run, i)
  {
    RunIsSound(run, i);
    ClaimedExactly(StateAfter(run, i), run[i].now, run[i].pairingId, run[i].secret, run[i].verifier);
    RefusedExactly(StateAfter(run, i), run[i].now, run[i].pairingId, run[i].secret, run[i].verifier);
  }

  /** The bootstrap that event k drew is still waiting for its claim. */
  ghost predicate Unclaimed(run: seq<Event>, k: nat, i: nat) {
    && k < i <= |run| && NewBootstrap(run, k)
    && forall l :: k < l < i ==> !NewBootstrap(run, l) && (run[l].TryClaim? ==> AnswerAt(run, l) != Claimed)
  }

  lemma {:induction false} StillDrawn(run: seq<Event>, k: nat, i: nat)
    requires ValidRun(run) && Unclaimed(run, k, i)
    ensures DrawnAt(run, i, k) && StateAfter(run, i).phase == BootstrapAvailable
  {
    if i > k + 1 {
      StillDrawn(run, k, i - 1);
      RunIsSound(run, i - 1);
      OpenStays(StateAfter(run, i - 1), run[i - 1]);
    }
  }

  lemma OpenStays(s: State, e: Event)
    requires Sound(s) && s.phase == BootstrapAvailable
    requires e.Create? ==> RefusesBootstrap(s, e.now)
    requires e.TryClaim? ==> Claim(s, e.now, e.pairingId, e.secret, e.verifier).1 != Claimed
    ensures var t := Step(s, e);
            && t.phase == BootstrapAvailable && t.pairingId == s.pairingId
            && t.secretDigest == s.secretDigest && t.bootstrapExpires == s.bootstrapExpires
  {
  }

  /** The first correct claim of a bootstrap in time succeeds, if no more than seven failed before it. */
  lemma CorrectClaimSucceeds(run: seq<Event>, k: nat, i: nat, digest: Digest)
    requires ValidRun(run) && CorrectClaim(run, k, i, digest) && Unclaimed(run, k, i) && Failures(run, i) <= 7
    ensures AnswerAt(run, i) == Claimed && StateAfter(run, i + 1).phase == Pending
    ensures StateAfter(run, i + 1).pending == Some(digest)
    ensures StateAfter(run, i + 1).pendingExpires == Some(run[i].now + PENDING_LIFETIME)
  {
    StillDrawn(run, k, i);
    FailuresBounded(run, i);
    RunIsSound(run, i);
    ClaimedExactly(StateAfter(run, i), run[i].now, run[i].pairingId, run[i].secret, run[i].verifier);
  }

  lemma {:induction false} PendingStays(run: seq<Event>, i: nat, j: nat, until: int)
    requires ValidRun(run) && i <= j <= |run| && StateAfter(run, i).phase == Pending
    requires StateAfter(run, i).pendingExpires == Some(until)
    requires forall l :: i <= l < j && run[l].Create? ==> run[l].now < until
    ensures var s, t := StateAfter(run, i), StateAfter(run, j);
            Holder(t) == Holder(s) && (t.phase == Active || (t.phase == Pending && t.pendingExpires == Some(until)))
  {
    if i < j {
      PendingStays(run, i, j - 1, until);
      RunIsSound(run, j - 1);
      HeldStays(StateAfter(run, j - 1), run[j - 1], until);
    }
  }

  lemma HeldStays(s: State, e: Event, until: int)
    requires Sound(s) && (s.phase == Active || (s.phase == Pending && s.pendingExpires == Some(until)))
    requires e.Create? ==> e.now < until
    ensures var t := Step(s, e);
            Holder(t) == Holder(s) && (t.phase == Active || (t.phase == Pending && t.pendingExpires == Some(until)))
  {
  }

  lemma BearerIs(authorization: Option<string>, token: string)
    requires BearerToken(authorization) == Some(token)
    ensures authorization == Some("Bearer " + token) && IsToken(token)
  {
    assert authorization.value == "Bearer " + authorization.value[7..];
  }

  lemma TokenActivates(s: State, now: int, authorization: Option<string>, token: string)
    requires Sound(s) && (s.phase == Active || (s.phase == Pending && !Expired(s.pendingExpires, now)))
    requires Holder(s) == Some(Sha256(token)) && BearerToken(authorization) == Some(token)
    ensures var (after, code) := Activate(s, now, authorization);
            code == Activated && after.phase == Active && after.active == Some(Sha256(token))
  {
    BearerIs(authorization, token);
    assert Names(token, Holder(s));
    ActivatedExactly(s, now, authorization);
  }

  /** What is earned is given: after a correct claim, its token activates within the day, and is let in from then on. */
  lemma EarnedIsAuthorized(run: seq<Event>, k: nat, i: nat, j: nat, token: string, n: nat)
    requires ValidRun(run) && Earned(run, k, i, j, token) && Unclaimed(run, k, i) && Failures(run, i) <= 7
    requires forall l :: i < l < j && run[l].Create? ==> run[l].now < run[i].now + PENDING_LIFETIME
    requires j < n <= |run|
    ensures AnswerAt(run, j) == Activated && AuthorizationMatches(run[j].authorization, StateAfter(run, n).active)
  {
    CorrectClaimSucceeds(run, k, i, Sha256(token));
    PendingStays(run, i + 1, j, run[i].now + PENDING_LIFETIME);
    RunIsSound(run, j);
    TokenActivates(StateAfter(run, j), run[j].now, run[j].authorization, token);
    ActiveStays(run, j + 1, n);
  }
}
