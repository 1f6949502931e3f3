/** The Collector's managed credentials: one bootstrap, one pending and one active verifier (pairing.py). */
module PairingStore {
  import opened Prelude

  const BOOTSTRAP_LIFETIME: int := 600
  const PENDING_LIFETIME: int := 86_400
  const MAX_BOOTSTRAP_ATTEMPTS: int := 8

  const SCOPES: set<string> := {"health:read", "status:read", "measurements:read"}

  /** A SHA-256 digest, taken as injective: it names its text. */
  datatype Digest = Sha256(text: string)

  datatype Phase = Unpaired | BootstrapAvailable | Pending | Active

  datatype State = State(phase: Phase, active: Option<Digest>, pending: Option<Digest>, pendingExpires: Option<int>,
                         pairingId: Option<string>, secretDigest: Option<Digest>, bootstrapExpires: Option<int>,
                         attempts: int, discoveryUuid: Option<string>)

  const EMPTY: State := State(Unpaired, None, None, None, None, None, None, 0, None)

  datatype Code =
    | Claimed | BootstrapUnavailable | BootstrapExpired | AttemptLimit | AuthorizationInvalid | VerifierInvalid | VerifierConflict
    | Activated | PendingUnavailable | PendingUnauthorized

  datatype StoreError = StateInvalid | UuidInvalid | ActiveUnavailable

  // The shapes of identifiers

  predicate Hex(c: char) {
    'a' <= c <= 'f' || '0' <= c <= '9'
  }

  predicate Urlsafe(c: char) {
    'A' <= c <= 'Z' || 'a' <= c <= 'z' || '0' <= c <= '9' || c == '_' || c == '-'
  }

  predicate IsPairingId(s: string) {
    |s| == 32 && forall i :: 0 <= i < |s| ==> Hex(s[i])
  }

  predicate IsToken(s: string) {
    43 <= |s| <= 128 && forall i :: 0 <= i < |s| ==> Urlsafe(s[i])
  }

  predicate IsDiscoveryUuid(s: string) {
    1 <= |s| <= 128 && forall i :: 0 <= i < |s| ==> Urlsafe(s[i])
  }

  /** _validate_state: what may be written and read back. */
  predicate ValidState(s: State) {
    && 0 <= s.attempts <= MAX_BOOTSTRAP_ATTEMPTS
    && (s.pairingId.Some? ==> IsPairingId(s.pairingId.value))
    && (s.discoveryUuid.Some? ==> IsDiscoveryUuid(s.discoveryUuid.value))
    && match s.phase
       case Unpaired =>
         && s.active.None? && s.pending.None? && s.pendingExpires.None?
         && s.pairingId.None? && s.secretDigest.None? && s.bootstrapExpires.None? && s.attempts == 0
       case BootstrapAvailable =>
         && s.pairingId.Some? && s.secretDigest.Some? && s.bootstrapExpires.Some?
         && s.pending.None? && s.pendingExpires.None?
       case Pending =>
         && s.pending.Some? && s.pendingExpires.Some?
         && s.pairingId.Some? && s.secretDigest.Some? && s.bootstrapExpires.Some? && s.attempts == 0
       case Active =>
         && s.active.Some? && s.pending.None? && s.pendingExpires.None?
         && (s.pairingId.None? <==> s.secretDigest.None?) && (s.secretDigest.None? <==> s.bootstrapExpires.None?)
         && s.attempts == 0
  }

  /** Stronger than what is validated: a verifier is active exactly in the active phase. */
  predicate Sound(s: State) {
    ValidState(s) && (s.active.Some? <==> s.phase == Active)
  }

  predicate Expired(at: Option<int>, now: int) {
    at.None? || at.value <= now
  }

  /** The token of an Authorization header of the form "Bearer token". */
  function BearerToken(authorization: Option<string>): Option<string> {
    if authorization.Some? && "Bearer " <= authorization.value && IsToken(authorization.value[7..]) then Some(authorization.value[7..])
    else None
  }

  predicate AuthorizationMatches(authorization: Option<string>, verifier: Option<Digest>) {
    BearerToken(authorization).Some? && verifier == Some(Sha256(BearerToken(authorization).value))
  }

  /** The text is a token and the verifier its digest. */
  predicate Names(token: string, verifier: Option<Digest>) {
    IsToken(token) && verifier == Some(Sha256(token))
  }

  lemma MatchesMeans(authorization: Option<string>, verifier: Option<Digest>)
    ensures AuthorizationMatches(authorization, verifier) <==>
              exists token :: authorization == Some("Bearer " + token) && Names(token, verifier)
  {
    if token :| authorization == Some("Bearer " + token) && Names(token, verifier) {
      assert authorization.value[7..] == token;
    }
    if AuthorizationMatches(authorization, verifier) {
      var token := BearerToken(authorization).value;
      assert authorization.value == "Bearer " + token && Names(token, verifier);
    }
  }

  predicate MatchingPairingAuthorization(s: State, pairingId: Option<string>, secret: Option<string>) {
    && pairingId.Some? && IsPairingId(pairingId.value) && secret.Some? && IsToken(secret.value)
    && s.pairingId == pairingId && s.secretDigest == Some(Sha256(secret.value))
  }

  // The transitions

  /** Arguments that are not strings, or a verifier that is not a digest, are None. */
  function Claim(s: State, now: int, pairingId: Option<string>, secret: Option<string>, verifier: Option<Digest>): (State, Code) {
    if s.phase == Pending || s.phase == Active then
      if s.phase == Pending && Expired(s.pendingExpires, now) then (s, BootstrapUnavailable)
      else if !MatchingPairingAuthorization(s, pairingId, secret) then (s, AuthorizationInvalid)
      else if verifier.None? then (s, VerifierInvalid)
      else if verifier == (if s.phase == Pending then s.pending else s.active) then (s, Claimed)
      else (s, VerifierConflict)
    else if s.phase != BootstrapAvailable then (s, BootstrapUnavailable)
    else if Expired(s.bootstrapExpires, now) then (s, BootstrapExpired)
    else if s.attempts >= MAX_BOOTSTRAP_ATTEMPTS then (s, AttemptLimit)
    else
      var failed := s.(attempts := s.attempts + 1);
      if pairingId.None? || !IsPairingId(pairingId.value) || secret.None? || !IsToken(secret.value) then (failed, AuthorizationInvalid)
      else if verifier.None? then (s, VerifierInvalid)
      else if pairingId != s.pairingId || Some(Sha256(secret.value)) != s.secretDigest then (failed, AuthorizationInvalid)
      else (s.(phase := Pending, pending := verifier, pendingExpires := Some(now + PENDING_LIFETIME), attempts := 0), Claimed)
  }

  function Activate(s: State, now: int, authorization: Option<string>): (State, Code) {
    if AuthorizationMatches(authorization, s.active) then (s, Activated)
    else if s.phase != Pending || Expired(s.pendingExpires, now) then (s, PendingUnavailable)
    else if !AuthorizationMatches(authorization, s.pending) then (s, PendingUnauthorized)
    else (s.(phase := Active, active := s.pending, pending := None, pendingExpires := None, attempts := 0), Activated)
  }

  /** A bootstrap is refused while a credential is active or pending. */
  predicate RefusesBootstrap(s: State, now: int) {
    s.phase == Active || (s.phase == Pending && !Expired(s.pendingExpires, now))
  }

  function CreateBootstrap(s: State, now: int, pairingId: string, secret: string): State {
    if RefusesBootstrap(s, now) then s
    else EMPTY.(phase := BootstrapAvailable, pairingId := Some(pairingId), secretDigest := Some(Sha256(secret)),
                bootstrapExpires := Some(now + BOOTSTRAP_LIFETIME), active := s.active, discoveryUuid := s.discoveryUuid)
  }

  predicate CanFinalize(s: State) {
    s.phase == Active && s.active.Some?
  }

  function CompleteFinalize(s: State): State {
    if CanFinalize(s) then s.(pairingId := None, secretDigest := None, bootstrapExpires := None, discoveryUuid := None) else s
  }

  // What the answers mean

  /** The verifier that has claimed the Collector: pending, or active. */
  function Holder(s: State): Option<Digest> {
    match s.phase
    case Pending => s.pending
    case Active => s.active
    case _ => None
  }

  /** Claims are heard: a bootstrap is offered and has attempts left, or a claim that has not expired may be repeated. */
  predicate Hears(s: State, now: int) {
    || (s.phase == BootstrapAvailable && !Expired(s.bootstrapExpires, now) && s.attempts < 8)
    || (s.phase == Pending && !Expired(s.pendingExpires, now))
    || s.phase == Active
  }

  /** The id and the secret are those of the bootstrap. */
  predicate Knows(s: State, pairingId: Option<string>, secret: Option<string>) {
    && pairingId.Some? && secret.Some? && IsPairingId(pairingId.value) && IsToken(secret.value)
    && s.pairingId == pairingId && s.secretDigest == Some(Sha256(secret.value))
  }

  /** A claim succeeds exactly when it is heard, knows the bootstrap, and no other verifier holds the Collector. */
  lemma ClaimedExactly(s: State, now: int, pairingId: Option<string>, secret: Option<string>, verifier: Option<Digest>)
    requires Sound(s)
    ensures var (after, code) := Claim(s, now, pairingId, secret, verifier);
            && (code == Claimed <==>
                  && Hears(s, now) && Knows(s, pairingId, secret) && verifier.Some?
                  && (Holder(s).None? || Holder(s) == verifier))
            && (code == Claimed ==> Holder(after) == verifier)
            && (code == Claimed && Holder(s).None? ==> after.phase == Pending && after.pendingExpires == Some(now + 86_400))
            && (code == Claimed && Holder(s).Some? ==> after == s)
  {
  }

  /** Why a claim fails, and that a failure changes nothing but the count of attempts at an open bootstrap. */
  lemma RefusedExactly(s: State, now: int, pairingId: Option<string>, secret: Option<string>, verifier: Option<Digest>)
    requires Sound(s)
    ensures var (after, code) := Claim(s, now, pairingId, secret, verifier);
            && (code == VerifierConflict <==>
                  Hears(s, now) && Knows(s, pairingId, secret) && verifier.Some? && Holder(s).Some? && Holder(s) != verifier)
            && (code == BootstrapExpired <==> s.phase == BootstrapAvailable && Expired(s.bootstrapExpires, now))
            && (code == AttemptLimit <==>
                  s.phase == BootstrapAvailable && !Expired(s.bootstrapExpires, now) && s.attempts == 8)
            && (code == BootstrapUnavailable <==> s.phase == Unpaired || (s.phase == Pending && Expired(s.pendingExpires, now)))
            && (code == AuthorizationInvalid ==> Hears(s, now) && !Knows(s, pairingId, secret))
            && (Hears(s, now) && !Knows(s, pairingId, secret) && verifier.Some? ==> code == AuthorizationInvalid)
            && (code == VerifierInvalid ==> Hears(s, now) && verifier.None?)
            && (Hears(s, now) && Knows(s, pairingId, secret) && verifier.None? ==> code == VerifierInvalid)
            && (code != Claimed ==>
                  after == if code == AuthorizationInvalid && s.phase == BootstrapAvailable then s.(attempts := s.attempts + 1)
                           else s)
  {
  }

  /** A token activates exactly the verifier that names it, pending in time or active already. */
  lemma ActivatedExactly(s: State, now: int, authorization: Option<string>)
    requires Sound(s)
    ensures var (after, code) := Activate(s, now, authorization);
            && (code == Activated <==>
                  (s.phase == Active || (s.phase == Pending && !Expired(s.pendingExpires, now)))
                  && exists token :: authorization == Some("Bearer " + token) && Names(token, Holder(s)))
            && (code == PendingUnauthorized <==>
                  && s.phase == Pending && !Expired(s.pendingExpires, now)
                  && forall token :: authorization == Some("Bearer " + token) ==> !Names(token, Holder(s)))
            && (code == Activated || code == PendingUnauthorized || code == PendingUnavailable)
            && (code == Activated ==> after.phase == Active && Holder(after) == Holder(s))
            && (code != Activated || s.phase == Active ==> after == s)
  {
    MatchesMeans(authorization, Holder(s));
  }

  /** A bootstrap is drawn exactly while no verifier holds the Collector, or the one that did has expired. */
  lemma DrawnExactly(s: State, now: int, pairingId: string, secret: string)
    requires Sound(s) && IsPairingId(pairingId) && IsToken(secret)
    ensures var after := CreateBootstrap(s, now, pairingId, secret);
            if Holder(s).Some? && (s.phase == Pending ==> !Expired(s.pendingExpires, now)) then after == s
            else
              && after.phase == BootstrapAvailable && after.attempts == 0 && after.bootstrapExpires == Some(now + 600)
              && (forall id, key :: Knows(after, id, key) <==> id == Some(pairingId) && key == Some(secret))
              && after.active == s.active && after.discoveryUuid == s.discoveryUuid
  {
  }

  /** Nothing of a finished pairing but its verifier is kept. */
  lemma FinalizedExactly(s: State)
    requires Sound(s)
    ensures var after := CompleteFinalize(s);
            if s.phase == Active then
              && after.phase == Active && Holder(after) == Holder(s) && after.discoveryUuid.None?
              && after.bootstrapExpires.None? && forall id, secret :: !Knows(after, id, secret)
            else after == s
  {
  }

  /** The store object; `state` is the content of its file. */
  class ManagedCredentialStore {
    var state: State

    constructor ()
      ensures state == EMPTY && Sound(state)
    {
      state := EMPTY;
    }

    method Write(next: State) returns (r: Result<(), StoreError>)
      modifies this
      ensures r.Success? <==> ValidState(next)
      ensures state == if r.Success? then next else old(state)
    {
      if !ValidState(next) {
        return Failure(StateInvalid);
      }
      state := next;
      r := Success(());
    }

    method CreateBootstrapNow(now: int, pairingId: string, secret: string) returns (r: Result<bool, StoreError>)
      requires IsPairingId(pairingId) && IsToken(secret)
      requires Sound(state)
      modifies this
      ensures r == Success(!RefusesBootstrap(old(state), now))
      ensures state == CreateBootstrap(old(state), now, pairingId, secret)
      ensures Sound(state)
    {
      if state.phase == Active {
        return Success(false);
      }
      if state.phase == Pending && !Expired(state.pendingExpires, now) {
        return Success(false);
      }
      var expires := now + BOOTSTRAP_LIFETIME;
      var written := Write(State(BootstrapAvailable, state.active, None, None, Some(pairingId), Some(Sha256(secret)),
                                 Some(expires), 0, state.discoveryUuid));
      r := Success(true);
    }

    method SetDiscoveryUuid(uuid: Option<string>) returns (r: Result<(), StoreError>)
      requires Sound(state)
      modifies this
      ensures r.Success? <==> uuid.None? || IsDiscoveryUuid(uuid.value)
      ensures state == if r.Success? then old(state).(discoveryUuid := uuid) else old(state)
      ensures Sound(state)
    {
      if uuid.Some? && !IsDiscoveryUuid(uuid.value) {
        return Failure(UuidInvalid);
      }
      r := Write(state.(discoveryUuid := uuid));
    }

    method ClaimNow(now: int, pairingId: Option<string>, secret: Option<string>, verifier: Option<Digest>)
      returns (r: Result<Code, StoreError>)
      requires Sound(state)
      modifies this
      ensures r == Success(Claim(old(state), now, pairingId, secret, verifier).1)
      ensures state == Claim(old(state), now, pairingId, secret, verifier).0
      ensures Sound(state)
    {
      if state.phase == Pending || state.phase == Active {
        if state.phase == Pending && Expired(state.pendingExpires, now) {
          return Success(BootstrapUnavailable);
        }
        var expected := if state.phase == Pending then state.pending else state.active;
        if !MatchingPairingAuthorization(state, pairingId, secret) {
          return Success(AuthorizationInvalid);
        }
        if verifier.None? {
          return Success(VerifierInvalid);
        }
        return Success(if verifier == expected then Claimed else VerifierConflict);
      }
      if state.phase != BootstrapAvailable {
        return Success(BootstrapUnavailable);
      }
      if Expired(state.bootstrapExpires, now) {
        return Success(BootstrapExpired);
      }
      if state.attempts >= MAX_BOOTSTRAP_ATTEMPTS {
        return Success(AttemptLimit);
      }
      if pairingId.None? || !IsPairingId(pairingId.value) {
        FailedAttempt();
        return Success(AuthorizationInvalid);
      }
      if secret.None? || !IsToken(secret.value) {
        FailedAttempt();
        return Success(AuthorizationInvalid);
      }
      if verifier.None? {
        return Success(VerifierInvalid);
      }
      var matches := pairingId == state.pairingId && Some(Sha256(secret.value)) == state.secretDigest;
      if !matches {
        FailedAttempt();
        return Success(AuthorizationInvalid);
      }
      var written := Write(state.(phase := Pending, pending := verifier, pendingExpires := Some(now + PENDING_LIFETIME),
                                  attempts := 0));
      r := Success(Claimed);
    }

    method FailedAttempt()
      requires Sound(state) && state.phase == BootstrapAvailable && state.attempts < MAX_BOOTSTRAP_ATTEMPTS
      modifies this
      ensures state == old(state).(attempts := old(state).attempts + 1) && Sound(state)
    {
      var written := Write(state.(attempts := state.attempts + 1));
    }

    method ActivateNow(now: int, authorization: Option<string>) returns (r: Result<Code, StoreError>)
      requires Sound(state)
      modifies this
      ensures r == Success(Activate(old(state), now, authorization).1)
      ensures state == Activate(old(state), now, authorization).0
      ensures Sound(state)
    {
      if AuthorizationMatches(authorization, state.active) {
        return Success(Activated);
      }
      if state.phase != Pending || Expired(state.pendingExpires, now) {
        return Success(PendingUnavailable);
      }
      if !AuthorizationMatches(authorization, state.pending) {
        return Success(PendingUnauthorized);
      }
      var written := Write(state.(phase := Active, active := state.pending, pending := None, pendingExpires := None,
                                  attempts := 0));
      r := Success(Activated);
    }

    method CompleteFinalizeNow() returns (r: Result<(), StoreError>)
      requires Sound(state)
      modifies this
      ensures r.Success? <==> CanFinalize(old(state))
      ensures r.Failure? ==> r.error == ActiveUnavailable
      ensures state == CompleteFinalize(old(state))
      ensures Sound(state)
    {
      if state.phase != Active || state.active.None? {
        return Failure(ActiveUnavailable);
      }
      r := Write(state.(pairingId := None, secretDigest := None, bootstrapExpires := None, discoveryUuid := None));
    }

    /** Authorised is exactly who sends, as a bearer token, the token whose digest is the active verifier. */
    method Authorize(authorization: Option<string>, scope: string) returns (ok: bool)
      requires Sound(state)
      ensures ok <==> scope in SCOPES && exists token :: authorization == Some("Bearer " + token) && Names(token, state.active)
      ensures ok ==> state.phase == Active
    {
      ok := scope in SCOPES && AuthorizationMatches(authorization, state.active);
      MatchesMeans(authorization, state.active);
    }
  }
}
