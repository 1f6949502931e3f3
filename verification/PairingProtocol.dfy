/**
 * Managed pairing between the Collector and Home Assistant as one state machine: two parties with separate durable
 * state, messages that may be lost, late or repeated, and crashes of either party between any two steps.
 */
module PairingProtocol {
  import opened Prelude
  import opened PairingStore

  /** What the Supervisor hands to Home Assistant: the payload that the Collector published. */
  datatype Discovery = Discovery(id: string, secret: string, expires: int)

  /** The data of the config entry; a marker is present or absent. */
  datatype Entry = Entry(token: string, activationPending: bool, finalizePending: bool) {
    predicate Clean() { !activationPending && !finalizePending }
  }

  datatype Message =
    | ClaimRequest(discovery: Discovery, verifier: Digest)
    | ActivateRequest(token: string)
    | FinalizeRequest(token: string)

  /** The discovery flow: shown with the journal it found, or waiting for the answer to its claim. */
  datatype Flow = NoFlow | Shown(discovery: Discovery, recovery: Option<string>)
                | Claiming(discovery: Discovery, recovery: Option<string>, token: string)

  /** The setup of the entry: waiting for the answer to an activation or to a finalisation. */
  datatype Setup = NoSetup | Activating(entry: Entry) | Finalizing(entry: Entry, updated: Entry)

  /** Where _publish_new stands; it holds both locks all the while. `at` is the time it read at its start. */
  datatype Worker = Idle | Removed(at: int) | Cleared(at: int) | Publishing(discovery: Discovery) | Published(uuid: string)

  datatype World = World(
    now: int,
    // the Collector: its file, and two threads that a crash forgets
    collector: State, worker: Worker, finalizing: Option<Message>,
    // the Supervisor's discoveries by uuid
    supervisor: map<string, Discovery>,
    // requests that were sent and may arrive any number of times, and those that were answered with success
    messages: set<Message>, answered: set<Message>,
    // Home Assistant in memory
    entry: Option<Entry>, created: bool, finalized: bool, flow: Flow, setup: Setup,
    // Home Assistant on disk
    diskEntry: Option<Entry>, journal: Option<string>,
    // history: the ids drawn, the discoveries published, the tokens generated
    drawn: set<string>, published: set<Discovery>, tokens: set<string>)

  const START: World :=
    World(0, EMPTY, Idle, None, map[], {}, {}, None, false, false, NoFlow, NoSetup, None, None, {}, {}, {})

  datatype Action =
    | Tick(to: int)
    // Collector
    | WorkerRemove | WorkerClear | WorkerCreate(newId: string, newSecret: string) | WorkerPublish(uuid: string, heard: bool)
    | WorkerRecord | WorkerGiveUp | CollectorCrash
    | Deliver(message: Message) | FinalizeRemove(message: Message) | FinalizeComplete | FinalizeGiveUp
    | StrangerClaims(id: Option<string>, secret: Option<string>, verifier: Option<Digest>)
    // Home Assistant
    | ShowFlow(discovery: Discovery, haNow: int) | DismissFlow | Confirm(haNow: int, generated: string, heard: bool)
    | ClaimFails | CreateEntry | Flush | HomeAssistantCrash
    | StartSetup | ActivationDone | FinalizationDone | FinalizationUnavailable | SetupFails | CleanJournal

  // The Collector's steps

  /** _publish_new has nothing to do. */
  predicate StillValid(s: State, now: int) {
    || s.phase == Active
    || (s.phase == Pending && !Expired(s.pendingExpires, now))
    || (s.phase == BootstrapAvailable && s.discoveryUuid.Some? && !Expired(s.bootstrapExpires, now))
  }

  predicate WorkerMayStart(w: World) {
    w.worker == Idle && w.finalizing.None? && !StillValid(w.collector, w.now)
  }

  function DoWorkerRemove(w: World): World {
    if WorkerMayStart(w) && w.collector.discoveryUuid.Some? then
      w.(supervisor := w.supervisor - {w.collector.discoveryUuid.value}, worker := Removed(w.now))
    else w
  }

  function DoWorkerClear(w: World): World {
    if w.worker.Removed? then w.(collector := w.collector.(discoveryUuid := None), worker := Cleared(w.worker.at)) else w
  }

  function DoWorkerCreate(w: World, id: string, secret: string): World {
    if !((WorkerMayStart(w) && w.collector.discoveryUuid.None?) || w.worker.Cleared?) then w
    else if id in w.drawn || !IsPairingId(id) || !IsToken(secret) then w
    else
      var at := if w.worker.Cleared? then w.worker.at else w.now;
      if RefusesBootstrap(w.collector, at) then w.(worker := Idle)
      else w.(collector := CreateBootstrap(w.collector, at, id, secret), drawn := w.drawn + {id},
              worker := Publishing(Discovery(id, secret, at + BOOTSTRAP_LIFETIME)))
  }

  /** One attempt to publish, whose answer may be lost; it may be repeated. */
  function DoWorkerPublish(w: World, uuid: string, heard: bool): World {
    if !w.worker.Publishing? || uuid in w.supervisor || !IsDiscoveryUuid(uuid) then w
    else w.(supervisor := w.supervisor[uuid := w.worker.discovery], published := w.published + {w.worker.discovery},
            worker := if heard then Published(uuid) else w.worker)
  }

  function DoWorkerRecord(w: World): World {
    if w.worker.Published? then w.(collector := w.collector.(discoveryUuid := Some(w.worker.uuid)), worker := Idle) else w
  }

  /** A claim or an activation takes the credentials' lock, which the worker holds while it works. */
  function DoDeliver(w: World, m: Message): World {
    if m !in w.messages || w.worker != Idle then w
    else
      match m
      case ClaimRequest(d, verifier) =>
        var (s, code) := Claim(w.collector, w.now, Some(d.id), Some(d.secret), Some(verifier));
        w.(collector := s, answered := if code == Claimed then w.answered + {m} else w.answered)
      case ActivateRequest(token) =>
        var (s, code) := Activate(w.collector, w.now, Some("Bearer " + token));
        w.(collector := s, answered := if code == Activated then w.answered + {m} else w.answered)
      case FinalizeRequest(token) => w
  }

  /** An authorized finalisation first removes the discovery from the Supervisor. */
  function DoFinalizeRemove(w: World, m: Message): World {
    if m !in w.messages || !m.FinalizeRequest? || w.worker != Idle || w.finalizing.Some? then w
    else if !AuthorizationMatches(Some("Bearer " + m.token), w.collector.active) then w
    else w.(finalizing := Some(m),
            supervisor := if w.collector.discoveryUuid.None? then w.supervisor
                          else w.supervisor - {w.collector.discoveryUuid.value})
  }

  /** Then it clears the recovery material. */
  function DoFinalizeComplete(w: World): World {
    if w.finalizing.None? then w
    else w.(collector := CompleteFinalize(w.collector), finalizing := None, answered := w.answered + {w.finalizing.value})
  }

  /** A claim by someone who was not told the secret. */
  function DoStrangerClaims(w: World, id: Option<string>, secret: Option<string>, verifier: Option<Digest>): World {
    if w.worker != Idle || (secret.Some? && w.collector.secretDigest == Some(Sha256(secret.value))) then w
    else w.(collector := Claim(w.collector, w.now, id, secret, verifier).0)
  }

  // Home Assistant's steps

  /** async_step_hassio: refused while an entry exists, or when it is expired and there is nothing to recover. */
  function DoShowFlow(w: World, d: Discovery, haNow: int): World {
    if d !in w.published || w.flow != NoFlow || w.entry.Some? then w
    else if d.expires <= haNow && w.journal.None? then w
    else w.(flow := Shown(d, w.journal))
  }

  /** async_step_hassio_confirm up to its claim: the journal is written ahead of it. */
  function DoConfirm(w: World, haNow: int, generated: string, heard: bool): World {
    if !w.flow.Shown? then w
    else
      var (d, recovery) := (w.flow.discovery, w.flow.recovery);
      if d.expires <= haNow && recovery.None? then w
      else if w.journal.Some? then
        w.(flow := Claiming(d, recovery, w.journal.value), messages := w.messages + {ClaimRequest(d, Sha256(w.journal.value))})
      else if d.expires <= haNow || !IsToken(generated) then w
      else
        var saved := w.(journal := Some(generated), tokens := w.tokens + {generated});
        // Saved but not confirmed: the step fails after the journal reached the disk.
        if !heard then saved
        else saved.(flow := Claiming(d, recovery, generated), messages := w.messages + {ClaimRequest(d, Sha256(generated))})
  }

  function DoClaimFails(w: World): World {
    if w.flow.Claiming? then w.(flow := Shown(w.flow.discovery, w.flow.recovery)) else w
  }

  function DoCreateEntry(w: World): World {
    if w.flow.Claiming? && ClaimRequest(w.flow.discovery, Sha256(w.flow.token)) in w.answered then
      w.(entry := Some(Entry(w.flow.token, true, true)), created := true, flow := NoFlow)
    else w
  }

  function DoFlush(w: World): World {
    if w.entry.Some? then w.(diskEntry := w.entry) else w
  }

  function DoHomeAssistantCrash(w: World): World {
    w.(entry := w.diskEntry, created := false, finalized := false, flow := NoFlow, setup := NoSetup)
  }

  /** async_setup_entry up to its first request. */
  function DoStartSetup(w: World): World {
    if w.setup != NoSetup || w.entry.None? then w
    else
      var e := w.entry.value;
      if e.activationPending && !e.finalizePending then w
      else if e.activationPending then
        if w.journal != Some(e.token) then w
        else w.(setup := Activating(e), messages := w.messages + {ActivateRequest(e.token)})
      else if e.finalizePending && !w.created then
        if w.journal != Some(e.token) then w
        else w.(setup := Finalizing(e, e), messages := w.messages + {FinalizeRequest(e.token)})
      else w
  }

  function DoActivationDone(w: World): World {
    if !w.setup.Activating? || ActivateRequest(w.setup.entry.token) !in w.answered then w
    else
      var updated := w.setup.entry.(activationPending := false);
      if updated.finalizePending && !w.created then
        w.(setup := Finalizing(w.setup.entry, updated), messages := w.messages + {FinalizeRequest(updated.token)})
      else w.(entry := Some(updated), setup := NoSetup)
  }

  function DoFinalizationDone(w: World): World {
    if !w.setup.Finalizing? || FinalizeRequest(w.setup.entry.token) !in w.answered then w
    else w.(finalized := true, setup := NoSetup,
            entry := Some(w.setup.updated.(activationPending := false, finalizePending := false)))
  }

  /** The Collector cannot finalise now: an activation that went through is still remembered. */
  function DoFinalizationUnavailable(w: World): World {
    if w.setup.Finalizing? then w.(entry := Some(w.setup.updated), setup := NoSetup) else w
  }

  /** A setup of an entry that was clean from the start drops the journal, if it is its own. */
  function DoCleanJournal(w: World): World {
    if w.setup != NoSetup || w.entry.None? || !w.entry.value.Clean() || w.created || w.finalized then w
    else if w.journal != Some(w.entry.value.token) then w
    else w.(journal := None)
  }

  function Apply(w: World, a: Action): World {
    match a
    case Tick(to) => if to >= w.now then w.(now := to) else w
    case WorkerRemove => DoWorkerRemove(w)
    case WorkerClear => DoWorkerClear(w)
    case WorkerCreate(id, secret) => DoWorkerCreate(w, id, secret)
    case WorkerPublish(uuid, heard) => DoWorkerPublish(w, uuid, heard)
    case WorkerRecord => DoWorkerRecord(w)
    case WorkerGiveUp => w.(worker := Idle)
    case CollectorCrash => w.(worker := Idle, finalizing := None)
    case Deliver(m) => DoDeliver(w, m)
    case FinalizeRemove(m) => DoFinalizeRemove(w, m)
    case FinalizeComplete => DoFinalizeComplete(w)
    case FinalizeGiveUp => w.(finalizing := None)
    case StrangerClaims(id, secret, verifier) => DoStrangerClaims(w, id, secret, verifier)
    case ShowFlow(d, haNow) => DoShowFlow(w, d, haNow)
    case DismissFlow => w.(flow := NoFlow)
    case Confirm(haNow, generated, heard) => DoConfirm(w, haNow, generated, heard)
    case ClaimFails => DoClaimFails(w)
    case CreateEntry => DoCreateEntry(w)
    case Flush => DoFlush(w)
    case HomeAssistantCrash => DoHomeAssistantCrash(w)
    case StartSetup => DoStartSetup(w)
    case ActivationDone => DoActivationDone(w)
    case FinalizationDone => DoFinalizationDone(w)
    case FinalizationUnavailable => DoFinalizationUnavailable(w)
    case SetupFails => w.(setup := NoSetup)
    case CleanJournal => DoCleanJournal(w)
  }

  function After(run: seq<Action>): World {
    if run == [] then START else Apply(After(run[..|run| - 1]), run[|run| - 1])
  }

  // The invariant

  /** At most one token is ever generated, and it is the only one anywhere. */
  ghost predicate OneToken(w: World) {
    && (forall a, b :: a in w.tokens && b in w.tokens ==> a == b)
    && (forall t :: t in w.tokens ==> IsToken(t))
    && (w.journal.Some? ==> w.journal.value in w.tokens)
    && (w.entry.Some? ==> w.entry.value.token in w.tokens)
    && (w.diskEntry.Some? ==> w.diskEntry.value.token in w.tokens)
    && (w.flow.Claiming? ==> w.flow.token in w.tokens)
    && (w.collector.pending.Some? ==> w.collector.pending.value.text in w.tokens)
    && (w.collector.active.Some? ==> w.collector.active.value.text in w.tokens)
  }

  ghost predicate MessageSound(w: World, m: Message) {
    match m
    case ClaimRequest(d, verifier) => d in w.published && verifier.text in w.tokens
    case ActivateRequest(token) => token in w.tokens
    case FinalizeRequest(token) => token in w.tokens && w.diskEntry.Some?
  }

  ghost predicate MessagesSound(w: World) {
    forall m :: m in w.messages ==> MessageSound(w, m)
  }

  /** What Home Assistant's memory knows about its disk. */
  ghost predicate MemoryAndDisk(w: World) {
    && (w.tokens != {} ==> w.journal.Some? || w.diskEntry.Some?)
    && (w.diskEntry.Some? ==> w.entry.Some?)
    && (w.entry.Some? && !w.created ==> w.diskEntry.Some?)
    && (w.entry.Some? && w.entry.value.Clean() && !w.finalized ==> w.diskEntry.Some? && w.diskEntry.value.Clean())
    && (w.flow != NoFlow ==> w.entry.None?)
  }

  ghost predicate EntrySound(w: World, e: Entry) {
    && (e.activationPending ==> e.finalizePending)
    && (e.finalizePending ==> w.journal == Some(e.token))
  }

  ghost predicate EntriesSound(w: World) {
    && (w.entry.Some? ==> EntrySound(w, w.entry.value))
    && (w.diskEntry.Some? ==> EntrySound(w, w.diskEntry.value))
  }

  ghost predicate SetupSound(w: World) {
    match w.setup
    case NoSetup => true
    case Activating(e) => w.entry == Some(e) && e.activationPending
    case Finalizing(e, u) =>
      && w.entry == Some(e) && e.finalizePending && !w.created
      && u.token == e.token && u.finalizePending && (u.activationPending ==> e.activationPending)
  }

  ghost predicate FlowSound(w: World) {
    w.flow != NoFlow ==> w.flow.discovery in w.published
  }

  /** The credentials, and that their recovery material outlives the wait for the entry. */
  ghost predicate CollectorSound(w: World) {
    && Sound(w.collector)
    && (w.finalizing.Some? ==> w.collector.phase == Active && w.diskEntry.Some?)
    && (w.finalizing.Some? ==> w.worker == Idle && w.finalizing.value in w.messages)
    && (w.collector.phase == Active && w.collector.pairingId.None? ==> w.diskEntry.Some?)
  }

  ghost predicate DiscoverySound(w: World, d: Discovery) {
    && d.id in w.drawn && IsPairingId(d.id) && IsToken(d.secret)
    && (w.collector.pairingId == Some(d.id) ==>
          w.collector.secretDigest == Some(Sha256(d.secret)) && w.collector.bootstrapExpires == Some(d.expires))
  }

  ghost predicate DiscoveriesSound(w: World) {
    && (w.collector.pairingId.Some? ==> w.collector.pairingId.value in w.drawn)
    && (forall d :: d in w.published ==> DiscoverySound(w, d))
    && (forall u :: u in w.supervisor ==> w.supervisor[u] in w.published)
    && match w.worker
       case Idle => true
       case Removed(at) => at <= w.now && !StillValid(w.collector, at)
       case Cleared(at) => at <= w.now && !StillValid(w.collector, at)
       case Publishing(d) =>
         w.collector.phase == BootstrapAvailable && w.collector.pairingId == Some(d.id) && DiscoverySound(w, d)
       case Published(uuid) => w.collector.phase == BootstrapAvailable && IsDiscoveryUuid(uuid)
  }

  ghost predicate Offered(w: World, d: Discovery) {
    exists u :: u in w.supervisor && w.supervisor[u] == d
  }

  /** Some discovery that the Supervisor holds opens the current pairing. */
  ghost predicate Recoverable(w: World) {
    exists u :: u in w.supervisor && w.collector.pairingId == Some(w.supervisor[u].id)
  }

  ghost predicate StaysOffered(w: World) {
    && (w.collector.phase == BootstrapAvailable && !Expired(w.collector.bootstrapExpires, w.now) ==>
          forall d :: d in w.published && w.collector.pairingId == Some(d.id) ==> Offered(w, d))
    && (w.collector.phase == Pending && !Expired(w.collector.pendingExpires, w.now) ==> Recoverable(w))
    && (w.collector.phase == Active && w.diskEntry.None? ==> Recoverable(w))
  }

  ghost predicate HomeSound(w: World) {
    OneToken(w) && MemoryAndDisk(w) && EntriesSound(w) && SetupSound(w) && FlowSound(w)
  }

  ghost predicate WireSound(w: World) {
    MessagesSound(w) && w.answered <= w.messages
  }

  ghost predicate CollectorSide(w: World) {
    CollectorSound(w) && DiscoveriesSound(w) && StaysOffered(w)
  }

  ghost predicate Inv(w: World) {
    HomeSound(w) && WireSound(w) && CollectorSide(w)
  }

  // What a step that leaves a side alone keeps

  lemma HomeFrame(w: World, v: World)
    requires HomeSound(w)
    requires v.tokens == w.tokens && v.journal == w.journal && v.diskEntry == w.diskEntry && w.published <= v.published
    requires v.entry == w.entry && v.created == w.created && v.finalized == w.finalized && v.flow == w.flow && v.setup == w.setup
    requires v.collector.pending.Some? ==> v.collector.pending.value.text in v.tokens
    requires v.collector.active.Some? ==> v.collector.active.value.text in v.tokens
    ensures HomeSound(v)
  {
  }

  lemma WireFrame(w: World, v: World)
    requires WireSound(w) && v.answered <= v.messages
    requires forall m :: m in v.messages ==> m in w.messages || MessageSound(v, m)
    requires w.published <= v.published && w.tokens <= v.tokens && (w.diskEntry.Some? ==> v.diskEntry.Some?)
    ensures WireSound(v)
  {
    forall m | m in v.messages ensures MessageSound(v, m) {
      assert m in w.messages ==> MessageSound(w, m);
    }
  }

  lemma CollectorFrame(w: World, v: World)
    requires CollectorSide(w)
    requires v.now == w.now && v.collector == w.collector && v.worker == w.worker && v.finalizing == w.finalizing
    requires v.supervisor == w.supervisor && v.drawn == w.drawn && v.published == w.published
    requires w.messages <= v.messages && (w.diskEntry.Some? ==> v.diskEntry.Some?)
    ensures CollectorSide(v)
  {
  }

  // Every step keeps the invariant

  lemma WorkerRemoveKeeps(w: World)
    requires Inv(w)
    ensures Inv(DoWorkerRemove(w))
  {
    var v := DoWorkerRemove(w);
    HomeFrame(w, v);
    WireFrame(w, v);
  }

  lemma WorkerClearKeeps(w: World)
    requires Inv(w)
    ensures Inv(DoWorkerClear(w))
  {
    var v := DoWorkerClear(w);
    HomeFrame(w, v);
    WireFrame(w, v);
    WorkerClearSound(w);
  }

  lemma WorkerClearSound(w: World)
    requires CollectorSide(w)
    ensures CollectorSide(DoWorkerClear(w))
  {
  }

  lemma WorkerCreateKeeps(w: World, id: string, secret: string)
    requires Inv(w)
    ensures Inv(DoWorkerCreate(w, id, secret))
  {
    var v := DoWorkerCreate(w, id, secret);
    HomeFrame(w, v);
    WireFrame(w, v);
    DrawKeeps(w, id, secret);
  }

  lemma DrawKeeps(w: World, id: string, secret: string)
    requires Inv(w)
    ensures CollectorSide(DoWorkerCreate(w, id, secret))
  {
    if w.worker.Cleared? { DrawAfterClear(w, id, secret); } else { DrawAtOnce(w, id, secret); }
  }

  lemma DrawAfterClear(w: World, id: string, secret: string)
    requires CollectorSide(w) && w.worker.Cleared?
    ensures CollectorSide(DoWorkerCreate(w, id, secret))
  {
  }

  lemma DrawAtOnce(w: World, id: string, secret: string)
    requires CollectorSide(w) && !w.worker.Cleared?
    ensures CollectorSide(DoWorkerCreate(w, id, secret))
  {
  }

  lemma WorkerPublishKeeps(w: World, uuid: string, heard: bool)
    requires Inv(w)
    ensures Inv(DoWorkerPublish(w, uuid, heard))
  {
    var v := DoWorkerPublish(w, uuid, heard);
    HomeFrame(w, v);
    WireFrame(w, v);
    OfferKeeps(w, uuid, heard);
  }

  lemma OfferKeeps(w: World, uuid: string, heard: bool)
    requires CollectorSide(w)
    ensures CollectorSide(DoWorkerPublish(w, uuid, heard))
  {
    var v := DoWorkerPublish(w, uuid, heard);
    forall d | Offered(w, d) ensures Offered(v, d) {
      var u :| u in w.supervisor && w.supervisor[u] == d;
      assert u in v.supervisor && v.supervisor[u] == d;
    }
    assert v != w ==> uuid in v.supervisor && v.supervisor[uuid] == w.worker.discovery;
  }

  lemma WorkerRecordKeeps(w: World)
    requires Inv(w)
    ensures Inv(DoWorkerRecord(w))
  {
    var v := DoWorkerRecord(w);
    HomeFrame(w, v);
    WireFrame(w, v);
    WorkerRecordSound(w);
  }

  lemma WorkerRecordSound(w: World)
    requires CollectorSide(w)
    ensures CollectorSide(DoWorkerRecord(w))
  {
  }

  lemma ClaimKeeps(w: World, m: Message)
    requires Inv(w) && m in w.messages && m.ClaimRequest? && w.worker == Idle
    ensures Inv(DoDeliver(w, m))
  {
    assert MessageSound(w, m);
    var v := DoDeliver(w, m);
    HomeFrame(w, v);
    WireFrame(w, v);
    if w.collector.phase == BootstrapAvailable {
      FirstClaimKeeps(w, m);
    } else {
      RepeatedClaimKeeps(w, m);
    }
  }

  /** A claim of an open bootstrap either fails or makes its token pending, while its discovery is still offered. */
  lemma FirstClaimKeeps(w: World, m: Message)
    requires CollectorSide(w) && m in w.messages && m.ClaimRequest? && m.discovery in w.published
    requires w.worker == Idle && w.collector.phase == BootstrapAvailable
    ensures CollectorSide(DoDeliver(w, m))
  {
    assert DiscoverySound(w, m.discovery);
    assert Offered(w, m.discovery) ==> w.collector.pairingId == Some(m.discovery.id) ==> Recoverable(w);
  }

  lemma RepeatedClaimKeeps(w: World, m: Message)
    requires CollectorSide(w) && m in w.messages && m.ClaimRequest? && w.worker == Idle && w.collector.phase != BootstrapAvailable
    ensures CollectorSide(DoDeliver(w, m))
  {
    assert DoDeliver(w, m).collector == w.collector;
  }

  lemma ActivateKeeps(w: World, m: Message)
    requires Inv(w) && m in w.messages && m.ActivateRequest? && w.worker == Idle
    ensures Inv(DoDeliver(w, m))
  {
    var v := DoDeliver(w, m);
    HomeFrame(w, v);
    WireFrame(w, v);
    ActivatedKeeps(w, m);
  }

  lemma ActivatedKeeps(w: World, m: Message)
    requires CollectorSide(w) && m in w.messages && m.ActivateRequest? && w.worker == Idle
    ensures CollectorSide(DoDeliver(w, m))
  {
  }

  lemma DeliverKeeps(w: World, m: Message)
    requires Inv(w)
    ensures Inv(DoDeliver(w, m))
  {
    if m in w.messages && w.worker == Idle {
      match m
      case ClaimRequest(_, _) => ClaimKeeps(w, m);
      case ActivateRequest(_) => ActivateKeeps(w, m);
      case FinalizeRequest(_) =>
    }
  }

  lemma FinalizeRemoveKeeps(w: World, m: Message)
    requires Inv(w)
    ensures Inv(DoFinalizeRemove(w, m))
  {
    var v := DoFinalizeRemove(w, m);
    HomeFrame(w, v);
    WireFrame(w, v);
    assert m in w.messages ==> MessageSound(w, m);
  }

  lemma FinalizeCompleteKeeps(w: World)
    requires Inv(w)
    ensures Inv(DoFinalizeComplete(w))
  {
    var v := DoFinalizeComplete(w);
    HomeFrame(w, v);
    WireFrame(w, v);
    FinalizeCompleteSound(w);
  }

  lemma FinalizeCompleteSound(w: World)
    requires CollectorSide(w)
    ensures CollectorSide(DoFinalizeComplete(w))
  {
  }

  /** Without the secret a claim changes nothing but the count of attempts. */
  lemma StrangerChanges(s: State, now: int, id: Option<string>, secret: Option<string>, verifier: Option<Digest>)
    requires Sound(s) && (secret.Some? ==> s.secretDigest != Some(Sha256(secret.value)))
    ensures var after := Claim(s, now, id, secret, verifier).0;
            after == s || (after == s.(attempts := s.attempts + 1) && s.phase == BootstrapAvailable && s.attempts < 8)
  {
  }

  lemma AttemptKeeps(w: World)
    requires Inv(w) && w.collector.phase == BootstrapAvailable && w.collector.attempts < 8
    ensures Inv(w.(collector := w.collector.(attempts := w.collector.attempts + 1)))
  {
    var v := w.(collector := w.collector.(attempts := w.collector.attempts + 1));
    HomeFrame(w, v);
    WireFrame(w, v);
    AttemptCounted(w);
  }

  lemma AttemptCounted(w: World)
    requires CollectorSide(w) && w.collector.phase == BootstrapAvailable && w.collector.attempts < 8
    ensures CollectorSide(w.(collector := w.collector.(attempts := w.collector.attempts + 1)))
  {
  }

  lemma StrangerClaimsKeeps(w: World, id: Option<string>, secret: Option<string>, verifier: Option<Digest>)
    requires Inv(w)
    ensures Inv(DoStrangerClaims(w, id, secret, verifier))
  {
    var v := DoStrangerClaims(w, id, secret, verifier);
    if v != w {
      StrangerChanges(w.collector, w.now, id, secret, verifier);
      AttemptKeeps(w);
    }
  }

  lemma ShowFlowKeeps(w: World, d: Discovery, haNow: int)
    requires Inv(w)
    ensures Inv(DoShowFlow(w, d, haNow))
  {
    var v := DoShowFlow(w, d, haNow);
    WireFrame(w, v);
    CollectorFrame(w, v);
  }

  /** A journal that exists is used again. */
  lemma ReuseKeeps(w: World, haNow: int, generated: string, heard: bool)
    requires Inv(w) && w.flow.Shown? && w.journal.Some?
    ensures Inv(DoConfirm(w, haNow, generated, heard))
  {
    var v := DoConfirm(w, haNow, generated, heard);
    WireFrame(w, v);
    CollectorFrame(w, v);
  }

  /** A token is generated only where none was before: a journal is dropped only after its entry is on disk. */
  lemma GenerateKeeps(w: World, haNow: int, generated: string, heard: bool)
    requires Inv(w) && w.flow.Shown? && w.journal.None?
    ensures Inv(DoConfirm(w, haNow, generated, heard))
  {
    var v := DoConfirm(w, haNow, generated, heard);
    assert w.entry.None? && w.diskEntry.None? && w.tokens == {};
    WireFrame(w, v);
    CollectorFrame(w, v);
  }

  lemma ConfirmKeeps(w: World, haNow: int, generated: string, heard: bool)
    requires Inv(w)
    ensures Inv(DoConfirm(w, haNow, generated, heard))
  {
    if w.flow.Shown? {
      if w.journal.Some? { ReuseKeeps(w, haNow, generated, heard); } else { GenerateKeeps(w, haNow, generated, heard); }
    }
  }

  lemma ClaimFailsKeeps(w: World)
    requires Inv(w)
    ensures Inv(DoClaimFails(w))
  {
    var v := DoClaimFails(w);
    WireFrame(w, v);
    CollectorFrame(w, v);
  }

  lemma CreateEntryKeeps(w: World)
    requires Inv(w)
    ensures Inv(DoCreateEntry(w))
  {
    var v := DoCreateEntry(w);
    WireFrame(w, v);
    CollectorFrame(w, v);
  }

  lemma FlushKeeps(w: World)
    requires Inv(w)
    ensures Inv(DoFlush(w))
  {
    var v := DoFlush(w);
    WireFrame(w, v);
    CollectorFrame(w, v);
  }

  lemma HomeAssistantCrashKeeps(w: World)
    requires Inv(w)
    ensures Inv(DoHomeAssistantCrash(w))
  {
    var v := DoHomeAssistantCrash(w);
    WireFrame(w, v);
    CollectorFrame(w, v);
  }

  lemma StartActivationKeeps(w: World)
    requires Inv(w) && w.entry.Some? && w.entry.value.activationPending
    ensures Inv(DoStartSetup(w))
  {
    var v := DoStartSetup(w);
    WireFrame(w, v);
    CollectorFrame(w, v);
  }

  lemma StartFinalizationKeeps(w: World)
    requires Inv(w) && w.entry.Some? && !w.entry.value.activationPending
    ensures Inv(DoStartSetup(w))
  {
    var v := DoStartSetup(w);
    WireFrame(w, v);
    CollectorFrame(w, v);
  }

  lemma StartSetupKeeps(w: World)
    requires Inv(w)
    ensures Inv(DoStartSetup(w))
  {
    if w.entry.Some? {
      if w.entry.value.activationPending { StartActivationKeeps(w); } else { StartFinalizationKeeps(w); }
    }
  }

  lemma ActivationDoneKeeps(w: World)
    requires Inv(w)
    ensures Inv(DoActivationDone(w))
  {
    if w.setup.Activating? {
      if w.created { ActivationStored(w); } else { FinalizationSent(w); }
    }
  }

  lemma ActivationStored(w: World)
    requires Inv(w) && w.setup.Activating? && w.created
    ensures Inv(DoActivationDone(w))
  {
    var v := DoActivationDone(w);
    WireFrame(w, v);
    CollectorFrame(w, v);
  }

  lemma FinalizationSent(w: World)
    requires Inv(w) && w.setup.Activating? && !w.created
    ensures Inv(DoActivationDone(w))
  {
    var v := DoActivationDone(w);
    WireFrame(w, v);
    CollectorFrame(w, v);
  }

  lemma FinalizationDoneKeeps(w: World)
    requires Inv(w)
    ensures Inv(DoFinalizationDone(w))
  {
    var v := DoFinalizationDone(w);
    WireFrame(w, v);
    CollectorFrame(w, v);
  }

  lemma FinalizationUnavailableKeeps(w: World)
    requires Inv(w)
    ensures Inv(DoFinalizationUnavailable(w))
  {
    var v := DoFinalizationUnavailable(w);
    WireFrame(w, v);
    CollectorFrame(w, v);
  }

  lemma CleanJournalKeeps(w: World)
    requires Inv(w)
    ensures Inv(DoCleanJournal(w))
  {
    var v := DoCleanJournal(w);
    WireFrame(w, v);
    CollectorFrame(w, v);
  }

  lemma WorkerForgotten(w: World)
    requires Inv(w)
    ensures Inv(w.(worker := Idle))
  {
    HomeFrame(w, w.(worker := Idle));
    WireFrame(w, w.(worker := Idle));
  }

  lemma FinalizingForgotten(w: World)
    requires Inv(w)
    ensures Inv(w.(finalizing := None))
  {
    HomeFrame(w, w.(finalizing := None));
    WireFrame(w, w.(finalizing := None));
  }

  lemma CrashForgotten(w: World)
    requires Inv(w)
    ensures Inv(w.(worker := Idle, finalizing := None))
  {
    HomeFrame(w, w.(worker := Idle, finalizing := None));
    WireFrame(w, w.(worker := Idle, finalizing := None));
  }

  lemma TimePasses(w: World, to: int)
    requires Inv(w) && to >= w.now
    ensures Inv(w.(now := to))
  {
    HomeFrame(w, w.(now := to));
    WireFrame(w, w.(now := to));
  }

  lemma FlowForgotten(w: World)
    requires Inv(w)
    ensures Inv(w.(flow := NoFlow))
  {
    WireFrame(w, w.(flow := NoFlow));
    CollectorFrame(w, w.(flow := NoFlow));
  }

  lemma SetupForgotten(w: World)
    requires Inv(w)
    ensures Inv(w.(setup := NoSetup))
  {
    WireFrame(w, w.(setup := NoSetup));
    CollectorFrame(w, w.(setup := NoSetup));
  }

  predicate IsWorkerStep(a: Action) {
    a.WorkerRemove? || a.WorkerClear? || a.WorkerCreate? || a.WorkerPublish? || a.WorkerRecord? || a.WorkerGiveUp?
  }

  predicate IsRequestStep(a: Action) {
    a.CollectorCrash? || a.Deliver? || a.FinalizeRemove? || a.FinalizeComplete? || a.FinalizeGiveUp? || a.StrangerClaims?
  }

  predicate IsFlowStep(a: Action) {
    a.ShowFlow? || a.DismissFlow? || a.Confirm? || a.ClaimFails? || a.CreateEntry?
  }

  lemma WorkerStepKeeps(w: World, a: Action)
    requires Inv(w) && IsWorkerStep(a)
    ensures Inv(Apply(w, a))
  {
    match a
    case WorkerRemove => WorkerRemoveKeeps(w);
    case WorkerClear => WorkerClearKeeps(w);
    case WorkerCreate(id, secret) => WorkerCreateKeeps(w, id, secret);
    case WorkerPublish(uuid, heard) => WorkerPublishKeeps(w, uuid, heard);
    case WorkerRecord => WorkerRecordKeeps(w);
    case WorkerGiveUp => WorkerForgotten(w);
  }

  lemma RequestStepKeeps(w: World, a: Action)
    requires Inv(w) && IsRequestStep(a)
    ensures Inv(Apply(w, a))
  {
    match a
    case CollectorCrash => CrashForgotten(w);
    case Deliver(m) => DeliverKeeps(w, m);
    case FinalizeRemove(m) => FinalizeRemoveKeeps(w, m);
    case FinalizeComplete => FinalizeCompleteKeeps(w);
    case FinalizeGiveUp => FinalizingForgotten(w);
    case StrangerClaims(id, secret, verifier) => StrangerClaimsKeeps(w, id, secret, verifier);
  }

  lemma FlowStepKeeps(w: World, a: Action)
    requires Inv(w) && IsFlowStep(a)
    ensures Inv(Apply(w, a))
  {
    match a
    case ShowFlow(d, haNow) => ShowFlowKeeps(w, d, haNow);
    case DismissFlow => FlowForgotten(w);
    case Confirm(haNow, generated, heard) => ConfirmKeeps(w, haNow, generated, heard);
    case ClaimFails => ClaimFailsKeeps(w);
    case CreateEntry => CreateEntryKeeps(w);
  }

  lemma SetupStepKeeps(w: World, a: Action)
    requires Inv(w) && !IsWorkerStep(a) && !IsRequestStep(a) && !IsFlowStep(a)
    ensures Inv(Apply(w, a))
  {
    match a
    case Tick(to) => if to >= w.now { TimePasses(w, to); }
    case Flush => FlushKeeps(w);
    case HomeAssistantCrash => HomeAssistantCrashKeeps(w);
    case StartSetup => StartSetupKeeps(w);
    case ActivationDone => ActivationDoneKeeps(w);
    case FinalizationDone => FinalizationDoneKeeps(w);
    case FinalizationUnavailable => FinalizationUnavailableKeeps(w);
    case SetupFails => SetupForgotten(w);
    case CleanJournal => CleanJournalKeeps(w);
  }

  lemma StepKeeps(w: World, a: Action)
    requires Inv(w)
    ensures Inv(Apply(w, a))
  {
    if IsWorkerStep(a) { WorkerStepKeeps(w, a); }
    else if IsRequestStep(a) { RequestStepKeeps(w, a); }
    else if IsFlowStep(a) { FlowStepKeeps(w, a); }
    else { SetupStepKeeps(w, a); }
  }

  lemma {:induction false} RunKeeps(run: seq<Action>)
    ensures Inv(After(run))
  {
    if run != [] {
      var n := |run| - 1;
      RunKeeps(run[..n]);
      StepKeeps(After(run[..n]), run[n]);
    }
  }

  // No lockout

  /** Home Assistant's disk holds the token of the verifier, in its journal or in its entry. */
  ghost predicate TokenOnDisk(w: World, verifier: Option<Digest>) {
    || (w.journal.Some? && verifier == Some(Sha256(w.journal.value)))
    || (w.diskEntry.Some? && verifier == Some(Sha256(w.diskEntry.value.token)))
  }

  /** Whenever the Collector's verifier is pending or active, its token is on Home Assistant's disk. */
  lemma NoLockout(run: seq<Action>)
    ensures After(run).collector.phase == Pending ==> TokenOnDisk(After(run), After(run).collector.pending)
    ensures After(run).collector.phase == Active ==> TokenOnDisk(After(run), After(run).collector.active)
  {
    RunKeeps(run);
    VerifierOnDisk(After(run));
  }

  lemma VerifierOnDisk(w: World)
    requires Inv(w)
    ensures w.collector.phase == Pending ==> TokenOnDisk(w, w.collector.pending)
    ensures w.collector.phase == Active ==> TokenOnDisk(w, w.collector.active)
  {
  }

  /** An entry that still carries a pending marker has its token in the journal, in memory as on disk. */
  lemma MarkedEntryHasJournal(run: seq<Action>)
    ensures var w := After(run);
            && (w.entry.Some? && !w.entry.value.Clean() ==> w.journal == Some(w.entry.value.token))
            && (w.diskEntry.Some? && !w.diskEntry.value.Clean() ==> w.journal == Some(w.diskEntry.value.token))
  {
    RunKeeps(run);
  }

  /** The Collector clears its recovery material only when the entry is on Home Assistant's disk. */
  lemma RecoveryClearedLate(run: seq<Action>)
    ensures After(run).collector.phase == Active && After(run).collector.pairingId.None? ==> After(run).diskEntry.Some?
  {
    RunKeeps(run);
  }

  /** The Collector has been claimed and the pairing can still go on. */
  predicate Paired(w: World) {
    w.collector.phase == Active || (w.collector.phase == Pending && !Expired(w.collector.pendingExpires, w.now))
  }

  /** Until the entry is on disk, claiming again with the journal's token and a discovery on offer succeeds. */
  lemma ReplaySucceeds(run: seq<Action>) returns (uuid: string)
    requires Paired(After(run)) && After(run).diskEntry.None?
    ensures var w := After(run);
            && w.journal.Some? && uuid in w.supervisor
            && var d := w.supervisor[uuid];
               Claim(w.collector, w.now, Some(d.id), Some(d.secret), Some(Sha256(w.journal.value))) == (w.collector, Claimed)
  {
    RunKeeps(run);
    uuid := ReplayFrom(After(run));
  }

  lemma ReplayFrom(w: World) returns (uuid: string)
    requires Inv(w) && Paired(w) && w.diskEntry.None?
    ensures w.journal.Some? && uuid in w.supervisor && w.supervisor[uuid] in w.published
    ensures var d := w.supervisor[uuid];
            Claim(w.collector, w.now, Some(d.id), Some(d.secret), Some(Sha256(w.journal.value))) == (w.collector, Claimed)
  {
    assert Recoverable(w);
    uuid :| uuid in w.supervisor && w.collector.pairingId == Some(w.supervisor[uuid].id);
    assert DiscoverySound(w, w.supervisor[uuid]);
    VerifierOnDisk(w);
  }

  /** One step after another. */
  function Then(w: World, more: seq<Action>): World
    decreases |more|
  {
    if more == [] then w else Then(Apply(w, more[0]), more[1..])
  }

  lemma {:induction false} AfterThen(run: seq<Action>, more: seq<Action>)
    ensures After(run + more) == Then(After(run), more)
    decreases |more|
  {
    if more == [] {
      assert run + more == run;
    } else {
      assert run + more == run + [more[0]] + more[1..];
      AfterThen(run + [more[0]], more[1..]);
      assert (run + [more[0]])[..|run|] == run;
    }
  }

  /**
   * From every reachable state in which the Collector is claimed and no entry reached the disk, whatever was lost
   * in crashes, pairing again leads to an entry with the claimed token: no deadline of Home Assistant's clock matters.
   */
  lemma PairingAgainSucceeds(run: seq<Action>, haNow: int) returns (more: seq<Action>)
    requires Paired(After(run)) && After(run).diskEntry.None?
    ensures var w := After(run + more);
            && w.journal == After(run).journal && w.journal.Some?
            && w.entry == Some(Entry(w.journal.value, true, true))
            && w.collector == After(run).collector
  {
    RunKeeps(run);
    var w := After(run);
    var uuid := ReplayFrom(w);
    var d := w.supervisor[uuid];
    var m := ClaimRequest(d, Sha256(w.journal.value));
    more := [CollectorCrash, HomeAssistantCrash, ShowFlow(d, haNow), Confirm(haNow, "", true), Deliver(m), CreateEntry];
    AfterThen(run, more);
    SixSteps(w, more[0], more[1], more[2], more[3], more[4], more[5]);
    FlowShownAgain(w, d, haNow);
    ClaimedAgain(w, w.(worker := Idle, finalizing := None, entry := None, created := false, finalized := false,
                       flow := Shown(d, w.journal), setup := NoSetup), d, haNow, m);
  }

  lemma FlowShownAgain(w: World, d: Discovery, haNow: int)
    requires w.diskEntry.None? && w.journal.Some? && d in w.published
    ensures Apply(Apply(Apply(w, CollectorCrash), HomeAssistantCrash), ShowFlow(d, haNow))
         == w.(worker := Idle, finalizing := None, entry := None, created := false, finalized := false,
               flow := Shown(d, w.journal), setup := NoSetup)
  {
  }

  lemma ClaimedAgain(w: World, shown: World, d: Discovery, haNow: int, m: Message)
    requires w.journal.Some? && shown.journal == w.journal && shown.collector == w.collector && shown.now == w.now
    requires shown.flow == Shown(d, w.journal) && shown.worker == Idle
    requires m == ClaimRequest(d, Sha256(w.journal.value))
    requires Claim(w.collector, w.now, Some(d.id), Some(d.secret), Some(Sha256(w.journal.value))) == (w.collector, Claimed)
    ensures var end := Apply(Apply(Apply(shown, Confirm(haNow, "", true)), Deliver(m)), CreateEntry);
            && end.journal == w.journal && end.collector == w.collector
            && end.entry == Some(Entry(w.journal.value, true, true))
  {
    var w4 := Apply(shown, Confirm(haNow, "", true));
    assert w4.flow == Claiming(d, w.journal, w.journal.value) && m in w4.messages;
    var w5 := Apply(w4, Deliver(m));
    assert w5.flow == w4.flow && m in w5.answered;
  }

  lemma FirstStep(w: World, a: Action, more: seq<Action>)
    ensures Then(w, [a] + more) == Then(Apply(w, a), more)
  {
    assert ([a] + more)[1..] == more;
  }

  lemma ThreeSteps(w: World, a: Action, b: Action, c: Action, more: seq<Action>)
    ensures Then(w, [a, b, c] + more) == Then(Apply(Apply(Apply(w, a), b), c), more)
  {
    assert [a, b, c] + more == [a] + ([b] + ([c] + more));
    FirstStep(w, a, [b] + ([c] + more));
    FirstStep(Apply(w, a), b, [c] + more);
    FirstStep(Apply(Apply(w, a), b), c, more);
  }

  lemma SixSteps(w: World, a: Action, b: Action, c: Action, d: Action, e: Action, f: Action)
    ensures Then(w, [a, b, c, d, e, f]) == Apply(Apply(Apply(Apply(Apply(Apply(w, a), b), c), d), e), f)
  {
    assert [a, b, c, d, e, f] == [a, b, c] + ([d, e, f] + []);
    ThreeSteps(w, a, b, c, [d, e, f] + []);
    ThreeSteps(Apply(Apply(Apply(w, a), b), c), d, e, f, []);
  }

  /** An entry's own token activates exactly a Collector that is claimed and in time, and is then its active verifier. */
  lemma EntryActivates(run: seq<Action>)
    requires After(run).entry.Some?
    ensures var w := After(run);
            var (s, code) := Activate(w.collector, w.now, Some("Bearer " + w.entry.value.token));
            && (code == Activated <==> Paired(w))
            && (code == Activated ==> s.phase == Active && s.active == Some(Sha256(w.entry.value.token)))
  {
    RunKeeps(run);
    var token := After(run).entry.value.token;
    assert token in After(run).tokens;
    if Paired(After(run)) {
      ActivatesFrom(After(run), token);
    } else {
      NothingActivates(After(run).collector, After(run).now, Some("Bearer " + token));
    }
  }

  lemma ActivatesFrom(w: World, token: string)
    requires Inv(w) && Paired(w) && token in w.tokens
    ensures var (s, code) := Activate(w.collector, w.now, Some("Bearer " + token));
            code == Activated && s.phase == Active && s.active == Some(Sha256(token))
  {
    BearerOf(token);
    var verifier := if w.collector.phase == Active then w.collector.active else w.collector.pending;
    assert verifier.Some? && verifier.value.text in w.tokens;
    assert verifier.value == Sha256(token);
  }

  lemma NothingActivates(s: State, now: int, authorization: Option<string>)
    requires Sound(s) && s.phase != Active && (s.phase == Pending ==> Expired(s.pendingExpires, now))
    ensures Activate(s, now, authorization).0 == s && Activate(s, now, authorization).1 == PendingUnavailable
  {
  }

  lemma BearerOf(token: string)
    requires IsToken(token)
    ensures BearerToken(Some("Bearer " + token)) == Some(token)
  {
    assert ("Bearer " + token)[7..] == token;
  }

  // What a dropped marker means

  /** What has seen an answer to an activation belongs to an active Collector. */
  ghost predicate ActivationsKnown(w: World) {
    && (forall token :: ActivateRequest(token) in w.answered ==> w.collector.phase == Active)
    && (w.entry.Some? && !w.entry.value.activationPending ==> w.collector.phase == Active)
    && (w.diskEntry.Some? && !w.diskEntry.value.activationPending ==> w.collector.phase == Active)
    && (w.setup.Finalizing? ==> w.collector.phase == Active)
  }

  lemma ActiveByWorker(w: World, a: Action)
    requires Inv(w) && w.collector.phase == Active && IsWorkerStep(a)
    ensures Apply(w, a).collector.phase == Active
  {
  }

  lemma KnownFrame(w: World, v: World)
    requires ActivationsKnown(w) && v.entry == w.entry && v.diskEntry == w.diskEntry && v.setup == w.setup
    requires w.collector.phase == Active ==> v.collector.phase == Active
    requires forall token :: ActivateRequest(token) in v.answered ==>
               ActivateRequest(token) in w.answered || v.collector.phase == Active
    ensures ActivationsKnown(v)
  {
  }

  lemma KnownDeliver(w: World, m: Message)
    requires Inv(w) && ActivationsKnown(w)
    ensures ActivationsKnown(DoDeliver(w, m))
  {
    match m
    case ClaimRequest(d, verifier) =>
      ClaimedExactly(w.collector, w.now, Some(d.id), Some(d.secret), Some(verifier));
      RefusedExactly(w.collector, w.now, Some(d.id), Some(d.secret), Some(verifier));
      KnownFrame(w, DoDeliver(w, m));
    case ActivateRequest(token) =>
      ActivatedExactly(w.collector, w.now, Some("Bearer " + token));
      KnownFrame(w, DoDeliver(w, m));
    case FinalizeRequest(token) =>
  }

  lemma KnownStranger(w: World, id: Option<string>, secret: Option<string>, verifier: Option<Digest>)
    requires Inv(w) && ActivationsKnown(w)
    ensures ActivationsKnown(DoStrangerClaims(w, id, secret, verifier))
  {
    ClaimedExactly(w.collector, w.now, id, secret, verifier);
    RefusedExactly(w.collector, w.now, id, secret, verifier);
    KnownFrame(w, DoStrangerClaims(w, id, secret, verifier));
  }

  lemma KnownRequest(w: World, a: Action)
    requires Inv(w) && ActivationsKnown(w) && IsRequestStep(a)
    ensures ActivationsKnown(Apply(w, a))
  {
    match a
    case Deliver(m) => KnownDeliver(w, m);
    case StrangerClaims(id, secret, verifier) => KnownStranger(w, id, secret, verifier);
    case _ => KnownFrame(w, Apply(w, a));
  }

  lemma KnownWorker(w: World, a: Action)
    requires Inv(w) && ActivationsKnown(w) && IsWorkerStep(a)
    ensures ActivationsKnown(Apply(w, a))
  {
    if w.collector.phase == Active { ActiveByWorker(w, a); }
    KnownFrame(w, Apply(w, a));
  }

  lemma KnownHome(w: World, a: Action)
    requires Inv(w) && ActivationsKnown(w) && !IsWorkerStep(a) && !IsRequestStep(a)
    ensures ActivationsKnown(Apply(w, a))
  {
  }

  lemma {:induction false} RunKnows(run: seq<Action>)
    ensures ActivationsKnown(After(run))
  {
    if run != [] {
      var n := |run| - 1;
      RunKeeps(run[..n]);
      RunKnows(run[..n]);
      KnownStep(After(run[..n]), run[n]);
    }
  }

  lemma KnownStep(w: World, a: Action)
    requires Inv(w) && ActivationsKnown(w)
    ensures ActivationsKnown(Apply(w, a))
  {
    if IsWorkerStep(a) { KnownWorker(w, a); }
    else if IsRequestStep(a) { KnownRequest(w, a); }
    else { KnownHome(w, a); }
  }

  /** An entry without its activation marker, in memory or on disk, holds the active token of the Collector. */
  lemma UnmarkedEntryIsActive(run: seq<Action>)
    ensures var w := After(run);
            && (w.entry.Some? && !w.entry.value.activationPending ==>
                  w.collector.phase == Active && w.collector.active == Some(Sha256(w.entry.value.token)))
            && (w.diskEntry.Some? && !w.diskEntry.value.activationPending ==>
                  w.collector.phase == Active && w.collector.active == Some(Sha256(w.diskEntry.value.token)))
  {
    RunKeeps(run);
    RunKnows(run);
  }

  /** A claim of the token was answered with success. */
  ghost predicate ClaimAnswered(w: World, token: string) {
    exists d :: ClaimRequest(d, Sha256(token)) in w.answered
  }

  ghost predicate EntriesClaimed(w: World) {
    && (w.entry.Some? ==> ClaimAnswered(w, w.entry.value.token))
    && (w.diskEntry.Some? ==> ClaimAnswered(w, w.diskEntry.value.token))
  }

  lemma AnswersStay(w: World, a: Action)
    ensures w.answered <= Apply(w, a).answered
  {
  }

  lemma ClaimedFrame(w: World, v: World)
    requires EntriesClaimed(w) && w.answered <= v.answered
    requires v.entry.Some? ==> ClaimAnswered(v, v.entry.value.token)
                               || (w.entry.Some? && v.entry.value.token == w.entry.value.token)
                               || (w.diskEntry.Some? && v.entry.value.token == w.diskEntry.value.token)
    requires v.diskEntry == w.diskEntry || v.diskEntry == w.entry
    ensures EntriesClaimed(v)
  {
    forall token | ClaimAnswered(w, token)
      ensures ClaimAnswered(v, token)
    {
      var d :| ClaimRequest(d, Sha256(token)) in w.answered;
      assert ClaimRequest(d, Sha256(token)) in v.answered;
    }
  }

  lemma ClaimedStep(w: World, a: Action)
    requires Inv(w) && EntriesClaimed(w)
    ensures EntriesClaimed(Apply(w, a))
  {
    AnswersStay(w, a);
    if a.CreateEntry? && w.flow.Claiming? && ClaimRequest(w.flow.discovery, Sha256(w.flow.token)) in w.answered {
      assert ClaimAnswered(Apply(w, a), w.flow.token);
    }
    EntrySources(w, a);
    ClaimedFrame(w, Apply(w, a));
  }

  lemma CollectorKeepsEntries(w: World, a: Action)
    requires IsWorkerStep(a) || IsRequestStep(a)
    ensures Apply(w, a).entry == w.entry && Apply(w, a).diskEntry == w.diskEntry
  {
    if IsWorkerStep(a) {
    } else if a.Deliver? {
    } else {
    }
  }

  lemma SetupKeepsToken(w: World, a: Action)
    requires Inv(w) && (a.StartSetup? || a.ActivationDone? || a.FinalizationDone? || a.FinalizationUnavailable?)
    ensures var v := Apply(w, a);
            && v.diskEntry == w.diskEntry
            && (v.entry == w.entry
                || (v.entry.Some? && w.entry.Some? && v.entry.value.token == w.entry.value.token))
  {
  }

  /** Where the entries of a step come from. */
  lemma EntrySources(w: World, a: Action)
    requires Inv(w)
    ensures var v := Apply(w, a);
            && (v.diskEntry == w.diskEntry || v.diskEntry == w.entry)
            && (v.entry.Some? ==>
                  || (w.entry.Some? && v.entry.value.token == w.entry.value.token)
                  || (w.diskEntry.Some? && v.entry.value.token == w.diskEntry.value.token)
                  || (a.CreateEntry? && w.flow.Claiming? && v.entry.value.token == w.flow.token
                      && ClaimRequest(w.flow.discovery, Sha256(w.flow.token)) in w.answered))
  {
    if IsWorkerStep(a) || IsRequestStep(a) {
      CollectorKeepsEntries(w, a);
    } else if a.StartSetup? || a.ActivationDone? || a.FinalizationDone? || a.FinalizationUnavailable? {
      SetupKeepsToken(w, a);
    } else if IsFlowStep(a) {
      FlowSources(w, a);
    }
  }

  lemma FlowSources(w: World, a: Action)
    requires IsFlowStep(a)
    ensures var v := Apply(w, a);
            && v.diskEntry == w.diskEntry
            && (v.entry == w.entry
                || (a.CreateEntry? && w.flow.Claiming? && v.entry == Some(Entry(w.flow.token, true, true))
                    && ClaimRequest(w.flow.discovery, Sha256(w.flow.token)) in w.answered))
  {
  }

  /** No entry without a claim: in memory and on disk, its token was accepted by the Collector. */
  lemma EntryWasClaimed(run: seq<Action>)
    ensures var w := After(run);
            && (w.entry.Some? ==> exists d :: ClaimRequest(d, Sha256(w.entry.value.token)) in w.answered)
            && (w.diskEntry.Some? ==> exists d :: ClaimRequest(d, Sha256(w.diskEntry.value.token)) in w.answered)
  {
    RunClaims(run);
  }

  lemma {:induction false} RunClaims(run: seq<Action>)
    ensures EntriesClaimed(After(run))
  {
    if run != [] {
      var n := |run| - 1;
      RunKeeps(run[..n]);
      RunClaims(run[..n]);
      ClaimedStep(After(run[..n]), run[n]);
    }
  }

  // After the deadline

  /** An entry on disk that was not activated in time, and no claim on its way that the Collector could still accept. */
  ghost predicate LockedOut(w: World) {
    && w.diskEntry.Some? && !Paired(w)
    && (w.collector.phase == BootstrapAvailable ==>
          forall m :: m in w.messages && m.ClaimRequest? ==> w.collector.pairingId != Some(m.discovery.id))
  }

  lemma LockedClaim(s: State, now: int, id: Option<string>, secret: Option<string>, verifier: Option<Digest>)
    requires s.phase != Active && (s.phase == Pending ==> Expired(s.pendingExpires, now))
    requires s.phase == BootstrapAvailable ==>
               s.pairingId != id || (secret.Some? ==> s.secretDigest != Some(Sha256(secret.value)))
    ensures var (t, code) := Claim(s, now, id, secret, verifier);
            t.phase == s.phase && t.pairingId == s.pairingId && t.pendingExpires == s.pendingExpires && code != Claimed
  {
  }

  lemma LockedCreate(w: World, id: string, secret: string)
    requires Inv(w) && LockedOut(w)
    ensures LockedOut(DoWorkerCreate(w, id, secret))
  {
    forall m | m in w.messages && m.ClaimRequest? && id !in w.drawn
      ensures m.discovery.id != id
    {
      assert MessageSound(w, m) && DiscoverySound(w, m.discovery);
    }
  }

  lemma LockedDeliver(w: World, m: Message)
    requires Inv(w) && LockedOut(w)
    ensures LockedOut(DoDeliver(w, m))
  {
    match m
    case ClaimRequest(d, verifier) =>
      if m in w.messages {
        LockedClaim(w.collector, w.now, Some(d.id), Some(d.secret), Some(verifier));
      }
    case ActivateRequest(token) => NothingActivates(w.collector, w.now, Some("Bearer " + token));
    case FinalizeRequest(token) =>
  }

  lemma LockedStranger(w: World, id: Option<string>, secret: Option<string>, verifier: Option<Digest>)
    requires Inv(w) && LockedOut(w)
    ensures LockedOut(DoStrangerClaims(w, id, secret, verifier))
  {
    if !(secret.Some? && w.collector.secretDigest == Some(Sha256(secret.value))) {
      LockedClaim(w.collector, w.now, id, secret, verifier);
    }
  }

  /** No entry on disk can be shown a flow or wait for a claim, so no new claim is sent. */
  lemma LockedFlow(w: World, a: Action)
    requires Inv(w) && LockedOut(w)
    requires IsFlowStep(a)
    ensures Apply(w, a) == w
  {
  }

  lemma LockedFrame(w: World, v: World)
    requires LockedOut(w) && v.diskEntry.Some? && v.now == w.now
    requires v.collector.phase == w.collector.phase && v.collector.pendingExpires == w.collector.pendingExpires
    requires v.collector.pairingId == w.collector.pairingId
    requires forall m :: m in v.messages && m.ClaimRequest? ==> m in w.messages
    ensures LockedOut(v)
  {
  }

  lemma LockedSetup(w: World, a: Action)
    requires Inv(w) && LockedOut(w) && (a.StartSetup? || a.ActivationDone? || a.FinalizationDone?)
    ensures LockedOut(Apply(w, a))
  {
    LockedFrame(w, Apply(w, a));
  }

  lemma LockedMemory(w: World, a: Action)
    requires Inv(w) && LockedOut(w)
    requires a.Flush? || a.HomeAssistantCrash? || a.FinalizationUnavailable? || a.SetupFails? || a.CleanJournal?
    ensures LockedOut(Apply(w, a))
  {
    LockedFrame(w, Apply(w, a));
  }

  lemma LockedWorker(w: World, a: Action)
    requires Inv(w) && LockedOut(w) && IsWorkerStep(a)
    ensures LockedOut(Apply(w, a))
  {
    if a.WorkerCreate? {
      LockedCreate(w, a.newId, a.newSecret);
    } else {
      LockedFrame(w, Apply(w, a));
    }
  }

  lemma LockedRequest(w: World, a: Action)
    requires Inv(w) && LockedOut(w) && IsRequestStep(a)
    ensures LockedOut(Apply(w, a))
  {
    match a
    case Deliver(m) => LockedDeliver(w, m);
    case StrangerClaims(id, secret, verifier) => LockedStranger(w, id, secret, verifier);
    case _ => LockedFrame(w, Apply(w, a));
  }

  lemma LockedHome(w: World, a: Action)
    requires Inv(w) && LockedOut(w) && !IsWorkerStep(a) && !IsRequestStep(a) && !IsFlowStep(a)
    ensures LockedOut(Apply(w, a))
  {
    if a.StartSetup? || a.ActivationDone? || a.FinalizationDone? { LockedSetup(w, a); }
    else if !a.Tick? { LockedMemory(w, a); }
  }

  lemma LockedStep(w: World, a: Action)
    requires Inv(w) && LockedOut(w)
    ensures LockedOut(Apply(w, a))
  {
    if IsWorkerStep(a) { LockedWorker(w, a); }
    else if IsRequestStep(a) { LockedRequest(w, a); }
    else if IsFlowStep(a) { LockedFlow(w, a); }
    else { LockedHome(w, a); }
  }

  lemma {:induction false} LockedRun(run: seq<Action>, more: seq<Action>)
    requires LockedOut(After(run))
    ensures LockedOut(After(run + more))
    decreases |more|
  {
    if more == [] {
      assert run + more == run;
    } else {
      var n := |more| - 1;
      LockedRun(run, more[..n]);
      RunKeeps(run + more[..n]);
      assert (run + more)[..|run + more| - 1] == run + more[..n];
      LockedStep(After(run + more[..n]), more[n]);
    }
  }

  /**
   * Once a pending claim has expired while the entry is on disk, the pairing is locked out for good: whatever happens,
   * the entry's token never activates, no flow is shown, and the Collector is never claimed again.
   */
  lemma ExpiredIsLockedOut(run: seq<Action>, more: seq<Action>)
    requires var w := After(run);
             w.diskEntry.Some? && w.collector.phase == Pending && Expired(w.collector.pendingExpires, w.now)
    ensures var w := After(run + more);
            && w.entry.Some? && w.flow == NoFlow && !Paired(w)
            && Activate(w.collector, w.now, Some("Bearer " + w.entry.value.token)).1 != Activated
            && forall d, haNow :: Apply(w, ShowFlow(d, haNow)) == w
  {
    LockedRun(run, more);
    RunKeeps(run + more);
    EntryActivates(run + more);
  }

  /** A state just after a first claim: the entry is created and flushed, and nothing has been activated. */
  ghost predicate JustCreated(w: World, token: string) {
    && w.collector.phase == Pending && w.collector.pendingExpires == Some(PENDING_LIFETIME) && w.now == 0
    && w.diskEntry == Some(Entry(token, true, true))
  }

  lemma FirstOffer(id: string, secret: string, uuid: string)
    requires IsPairingId(id) && IsToken(secret) && IsDiscoveryUuid(uuid)
    ensures var d := Discovery(id, secret, BOOTSTRAP_LIFETIME);
            Apply(Apply(Apply(START, WorkerCreate(id, secret)), WorkerPublish(uuid, true)), WorkerRecord)
            == START.(collector := State(BootstrapAvailable, None, None, None, Some(id), Some(Sha256(secret)),
                                         Some(BOOTSTRAP_LIFETIME), 0, Some(uuid)),
                      supervisor := map[uuid := d], drawn := {id}, published := {d})
  {
    var d := Discovery(id, secret, BOOTSTRAP_LIFETIME);
    var created := Apply(START, WorkerCreate(id, secret));
    assert created.worker == Publishing(d) && created.drawn == {id};
    var published := Apply(created, WorkerPublish(uuid, true));
    assert published.supervisor == map[uuid := d] && published.published == {d};
  }

  lemma ClaimDelivered(sent: World, d: Discovery, verifier: Digest)
    requires sent.worker == Idle && ClaimRequest(d, verifier) in sent.messages
    requires Claim(sent.collector, sent.now, Some(d.id), Some(d.secret), Some(verifier)).1 == Claimed
    ensures Apply(sent, Deliver(ClaimRequest(d, verifier)))
         == sent.(collector := Claim(sent.collector, sent.now, Some(d.id), Some(d.secret), Some(verifier)).0,
                  answered := sent.answered + {ClaimRequest(d, verifier)})
  {
  }

  lemma EntryFlushed(w: World)
    requires w.flow.Claiming? && ClaimRequest(w.flow.discovery, Sha256(w.flow.token)) in w.answered
    ensures var v := Apply(Apply(w, CreateEntry), Flush);
            v.diskEntry == Some(Entry(w.flow.token, true, true)) && v.collector == w.collector && v.now == w.now
  {
  }

  lemma FirstEntry(w: World, d: Discovery, token: string)
    requires w.now == 0 && w.worker == Idle && w.flow == NoFlow && w.entry.None? && w.journal.None? && d in w.published
    requires w.collector.phase == BootstrapAvailable && w.collector.attempts == 0 && w.collector.bootstrapExpires == Some(d.expires)
    requires w.collector.pairingId == Some(d.id) && w.collector.secretDigest == Some(Sha256(d.secret))
    requires IsPairingId(d.id) && IsToken(d.secret) && IsToken(token) && 0 < d.expires
    ensures var claimed := Apply(Apply(Apply(w, ShowFlow(d, 0)), Confirm(0, token, true)), Deliver(ClaimRequest(d, Sha256(token))));
            JustCreated(Apply(Apply(claimed, CreateEntry), Flush), token)
  {
    ConfirmSends(w, d, 0, token);
    OpenClaim(w.collector, 0, d, Sha256(token));
    var sent := Apply(Apply(w, ShowFlow(d, 0)), Confirm(0, token, true));
    ClaimDelivered(sent, d, Sha256(token));
    EntryFlushed(Apply(sent, Deliver(ClaimRequest(d, Sha256(token)))));
  }

  /** Such a lock-out can be reached: the entry is created at once, and set up only after the claim's day has passed. */
  lemma LockOutIsReachable(id: string, secret: string, uuid: string, token: string)
    requires IsPairingId(id) && IsToken(secret) && IsDiscoveryUuid(uuid) && IsToken(token)
    ensures var d := Discovery(id, secret, BOOTSTRAP_LIFETIME);
            var w := After([WorkerCreate(id, secret), WorkerPublish(uuid, true), WorkerRecord,
                            ShowFlow(d, 0), Confirm(0, token, true), Deliver(ClaimRequest(d, Sha256(token))),
                            CreateEntry, Flush, Tick(PENDING_LIFETIME)]);
            w.diskEntry.Some? && w.collector.phase == Pending && Expired(w.collector.pendingExpires, w.now)
  {
    var d := Discovery(id, secret, BOOTSTRAP_LIFETIME);
    var claim := ClaimRequest(d, Sha256(token));
    var offer := [WorkerCreate(id, secret), WorkerPublish(uuid, true), WorkerRecord];
    var pair := [ShowFlow(d, 0), Confirm(0, token, true), Deliver(claim)];
    var late := [CreateEntry, Flush, Tick(PENDING_LIFETIME)];
    FirstOffer(id, secret, uuid);
    ThreeAfter(START, offer[0], offer[1], offer[2]);
    var w := Then(START, offer);
    FirstEntry(w, d, token);
    ThreeAfter(w, pair[0], pair[1], pair[2]);
    ThreeAfter(Then(w, pair), late[0], late[1], late[2]);
    AfterThen([], offer);
    assert [] + offer == offer;
    AfterThen(offer, pair);
    AfterThen(offer + pair, late);
    assert offer + pair + late == [WorkerCreate(id, secret), WorkerPublish(uuid, true), WorkerRecord,
                                   ShowFlow(d, 0), Confirm(0, token, true), Deliver(claim),
                                   CreateEntry, Flush, Tick(PENDING_LIFETIME)];
  }

  lemma ThreeAfter(w: World, a: Action, b: Action, c: Action)
    ensures Then(w, [a, b, c]) == Apply(Apply(Apply(w, a), b), c)
  {
    assert [a, b, c] + [] == [a, b, c];
    ThreeSteps(w, a, b, c, []);
  }

  lemma OpenClaim(s: State, now: int, d: Discovery, verifier: Digest)
    requires s.phase == BootstrapAvailable && !Expired(s.bootstrapExpires, now) && s.attempts < MAX_BOOTSTRAP_ATTEMPTS
    requires s.pairingId == Some(d.id) && s.secretDigest == Some(Sha256(d.secret)) && IsPairingId(d.id) && IsToken(d.secret)
    ensures var (t, code) := Claim(s, now, Some(d.id), Some(d.secret), Some(verifier));
            && code == Claimed && t.phase == Pending && t.pending == Some(verifier)
            && t.pendingExpires == Some(now + PENDING_LIFETIME)
  {
  }

  function WithoutEntry(w: World): World {
    w.(entry := None, diskEntry := None, created := false, finalized := false, flow := NoFlow, setup := NoSetup)
  }

  lemma ConfirmSends(w: World, d: Discovery, haNow: int, generated: string)
    requires w.entry.None? && w.flow == NoFlow && d in w.published
    requires w.journal.Some? || (haNow < d.expires && IsToken(generated))
    ensures var token := if w.journal.Some? then w.journal.value else generated;
            var sent := Apply(Apply(w, ShowFlow(d, haNow)), Confirm(haNow, generated, true));
            && sent.collector == w.collector && sent.now == w.now && sent.worker == w.worker
            && ClaimRequest(d, Sha256(token)) in sent.messages && sent.journal == Some(token)
            && sent.flow == Claiming(d, w.journal, token)
  {
    assert Apply(w, ShowFlow(d, haNow)) == w.(flow := Shown(d, w.journal));
  }

  /** Only the removal of the entry ends it: a bootstrap on offer can then be claimed, by the old token if it is still there. */
  lemma RemovalEndsIt(w: World, d: Discovery, haNow: int, generated: string)
    requires Inv(w) && w.worker == Idle && d in w.published
    requires w.collector.phase == BootstrapAvailable && w.collector.pairingId == Some(d.id)
    requires !Expired(w.collector.bootstrapExpires, w.now) && w.collector.attempts < MAX_BOOTSTRAP_ATTEMPTS
    requires w.journal.Some? || (haNow < d.expires && IsToken(generated))
    ensures var token := if w.journal.Some? then w.journal.value else generated;
            var claimed := Apply(Apply(Apply(WithoutEntry(w), ShowFlow(d, haNow)), Confirm(haNow, generated, true)),
                                 Deliver(ClaimRequest(d, Sha256(token))));
            Paired(claimed) && claimed.collector.pending == Some(Sha256(token)) && claimed.journal == Some(token)
  {
    var token := if w.journal.Some? then w.journal.value else generated;
    assert DiscoverySound(w, d);
    ConfirmSends(WithoutEntry(w), d, haNow, generated);
    OpenClaim(w.collector, w.now, d, Sha256(token));
  }
}
