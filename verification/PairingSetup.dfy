/**
 * The pieces of code that drive pairing, statement by statement: the Collector's publication (pairing.py), the
 * confirmation of the discovery flow (config_flow.py) and the setup of the entry (__init__.py). Every change they make
 * is a step of the protocol, so what holds of all its runs holds of them.
 */
module PairingSetup {
  import opened Prelude
  import opened PairingStore
  import opened PairingProtocol

  /** What becomes of a request: whether it reaches the Collector and whether its answer comes back. */
  datatype Network = Network(arrives: bool, heard: bool)

  datatype SetupResult = Ready | NotReady

  datatype FlowResult = EntryCreated | FormShown

  /** Which writes of the Collector's state succeed: dropping the uuid, drawing a bootstrap, recording the new uuid. */
  datatype Disk = Disk(clears: bool, draws: bool, records: bool)

  function Forgotten(s: State): State {
    s.(discoveryUuid := None)
  }

  /** The state with a new bootstrap whose discovery is not recorded. */
  function Drawn(w: World, id: string, secret: string): State {
    CreateBootstrap(Forgotten(w.collector), w.now, id, secret)
  }

  /** The recorded uuid names this discovery at the Supervisor, and it opens the current bootstrap. */
  ghost predicate Offers(w: World, d: Discovery) {
    && w.collector.discoveryUuid.Some? && w.collector.discoveryUuid.value in w.supervisor
    && w.supervisor[w.collector.discoveryUuid.value] == d
  }

  /** The uuids from the k-th on that the Supervisor may answer with. */
  ghost predicate FreshUuids(uuids: seq<string>, supervisor: map<string, Discovery>, k: nat) {
    && (forall j :: k <= j < |uuids| ==> IsDiscoveryUuid(uuids[j]) && uuids[j] !in supervisor)
    && (forall i, j :: k <= i < j < |uuids| ==> uuids[i] != uuids[j])
  }

  // When the drivers succeed, by the state they start from

  /** The request finds the Collector free to answer it. */
  predicate Reaches(w: World, network: Network) {
    network.arrives && w.worker == Idle
  }

  /** The activation of the token is answered: the Collector is claimed and in time, or it was answered before. */
  predicate ActivationHeard(w: World, token: string, network: Network) {
    network.heard && (ActivateRequest(token) in w.answered || (Reaches(w, network) && Paired(w)))
  }

  /** The finalisation is answered: no other one is under way, or it was answered before. */
  predicate FinalizationHeard(w: World, token: string, network: Network) {
    network.heard && (FinalizeRequest(token) in w.answered || (Reaches(w, network) && w.finalizing.None?))
  }

  /** Only an entry that awaits its activation, or its finalisation by a later process, can fail to be set up. */
  predicate SetupWorks(w: World, activation: Network, healthy: bool, finalization: Network, unavailable: bool)
    requires w.entry.Some?
  {
    var e := w.entry.value;
    || e.Clean()
    || (!e.activationPending && w.created)
    || (&& w.journal == Some(e.token) && healthy
        && (e.activationPending ==> ActivationHeard(w, e.token, activation))
        && (w.created || unavailable || FinalizationHeard(w, e.token, finalization)))
  }

  /** A token can be sent: that of the journal, or while the discovery is fresh one that is saved first. */
  predicate MaySend(w: World, haNow: int, saves: bool)
    requires w.flow.Shown?
  {
    if w.journal.Some? then haNow < w.flow.discovery.expires || w.flow.recovery.Some?
    else haNow < w.flow.discovery.expires && saves
  }

  /** The claim is answered: the discovery is that of a pairing that hears claims, or it was answered before. */
  predicate ClaimHeard(w: World, d: Discovery, token: string, network: Network) {
    && network.heard
    && (ClaimRequest(d, Sha256(token)) in w.answered
        || (Reaches(w, network) && Hears(w.collector, w.now) && w.collector.pairingId == Some(d.id)))
  }

  /** An open bootstrap is on offer under a recorded uuid. */
  predicate Offering(w: World) {
    && w.collector.phase == BootstrapAvailable && w.collector.discoveryUuid.Some?
    && w.collector.bootstrapExpires.Some? && w.now < w.collector.bootstrapExpires.value
  }

  predicate SomeHeard(attempts: seq<Network>) {
    exists k :: 0 <= k < |attempts| && attempts[k].arrives && attempts[k].heard
  }

  class Session {
    var world: World
    ghost var past: seq<Action>

    constructor ()
      ensures Valid() && world == START && past == []
    {
      world, past := START, [];
    }

    /** The world is one that the protocol reaches. */
    ghost predicate Valid()
      reads this
    {
      world == After(past)
    }

    method Commit(next: World, ghost a: Action)
      requires Valid() && next == Apply(world, a)
      modifies this
      ensures Valid() && world == next && past == old(past) + [a]
    {
      world := next;
      past := past + [a];
      assert past[..|past| - 1] == old(past);
    }

    /** So whatever these methods do, a claimed Collector's token is on Home Assistant's disk. */
    lemma TokenStaysOnDisk()
      requires Valid()
      ensures world.collector.phase == Pending ==> TokenOnDisk(world, world.collector.pending)
      ensures world.collector.phase == PairingStore.Active ==> TokenOnDisk(world, world.collector.active)
    {
      NoLockout(past);
    }

    /** _publish_new: drop the old discovery, draw a bootstrap, and offer it in up to three attempts. */
    method PublishNew(removes: bool, disk: Disk, id: string, secret: string, uuids: seq<string>, attempts: seq<Network>)
      returns (published: bool)
      requires Valid() && world.worker == Idle && |uuids| == 3 && |attempts| == 3
      requires id !in world.drawn && IsPairingId(id) && IsToken(secret)
      requires FreshUuids(uuids, world.supervisor, 0)
      modifies this
      ensures Valid() && world.worker == Idle
      ensures published <==>
                && old(world).finalizing.None? && !Paired(old(world)) && !Offering(old(world))
                && (old(world).collector.discoveryUuid.None? || (removes && disk.clears))
                && disk.draws && disk.records && SomeHeard(attempts)
      ensures published ==>
                && Offers(world, Discovery(id, secret, world.now + BOOTSTRAP_LIFETIME))
                && world.collector == Drawn(old(world), id, secret).(discoveryUuid := world.collector.discoveryUuid)
      ensures published && old(world).collector.discoveryUuid.Some?
              && old(world).collector.discoveryUuid.value in old(world).supervisor ==>
                old(world).collector.discoveryUuid.value !in world.supervisor
      ensures !published ==>
                world.collector in {old(world).collector, Forgotten(old(world).collector), Drawn(old(world), id, secret)}
      ensures Paired(old(world)) || Offering(old(world)) ==> world == old(world)
      ensures SameHome(old(world), world) && world.now == old(world).now
    {
      if world.finalizing.Some? || StillValid(world.collector, world.now) {
        return false;
      }
      ghost var before := world.collector;
      var dropped := DropOffered(removes, disk.clears);
      if !dropped {
        return false;
      }
      if !disk.draws {
        StopWorker();
        return false;
      }
      Draw(id, secret, before);
      published := OfferBootstrap(Discovery(id, secret, world.now + BOOTSTRAP_LIFETIME), uuids, attempts, disk.records);
    }

    /** Remove the recorded discovery from the Supervisor and then from the state, if there is one. */
    method DropOffered(removes: bool, clears: bool) returns (dropped: bool)
      requires Valid() && WorkerMayStart(world)
      modifies this
      ensures Valid() && SameHome(old(world), world) && world.now == old(world).now && world.drawn == old(world).drawn
      ensures forall u :: u in world.supervisor ==> u in old(world).supervisor
      ensures dropped && old(world).collector.discoveryUuid.Some? ==>
                old(world).collector.discoveryUuid.value !in world.supervisor
      ensures world.collector == if dropped then Forgotten(old(world).collector) else old(world).collector
      ensures dropped <==> old(world).collector.discoveryUuid.None? || (removes && clears)
      ensures dropped ==> world.worker == Cleared(world.now) || WorkerMayStart(world)
      ensures !dropped ==> world.worker == Idle
    {
      if world.collector.discoveryUuid.None? {
        return true;
      }
      if !removes {
        return false;
      }
      Commit(DoWorkerRemove(world), WorkerRemove);
      if !clears {
        StopWorker();
        return false;
      }
      Commit(world.(collector := Forgotten(world.collector), worker := Cleared(world.now)), WorkerClear);
      dropped := true;
    }

    method StopWorker()
      requires Valid()
      modifies this
      ensures Valid() && world == old(world).(worker := Idle)
    {
      Commit(world.(worker := Idle), WorkerGiveUp);
    }

    method Draw(id: string, secret: string, ghost before: State)
      requires Valid() && !StillValid(before, world.now) && world.collector == Forgotten(before)
      requires world.worker == Cleared(world.now) || WorkerMayStart(world)
      requires id !in world.drawn && IsPairingId(id) && IsToken(secret)
      modifies this
      ensures Valid() && world.worker == Publishing(Discovery(id, secret, world.now + BOOTSTRAP_LIFETIME))
      ensures world.collector == CreateBootstrap(Forgotten(before), world.now, id, secret)
      ensures world.supervisor == old(world).supervisor && world.now == old(world).now && SameHome(old(world), world)
    {
      Commit(DoWorkerCreate(world, id, secret), WorkerCreate(id, secret));
    }

    /** The attempts; a publication whose answer is lost may have taken place all the same. */
    method OfferBootstrap(d: Discovery, uuids: seq<string>, attempts: seq<Network>, records: bool) returns (published: bool)
      requires Valid() && world.worker == Publishing(d) && |uuids| == 3 && |attempts| == 3
      requires FreshUuids(uuids, world.supervisor, 0)
      modifies this
      ensures Valid() && world.worker == Idle && SameHome(old(world), world) && world.now == old(world).now
      ensures published ==>
                Offers(world, d) && world.collector == old(world).collector.(discoveryUuid := world.collector.discoveryUuid)
      ensures !published ==> world.collector == old(world).collector
      ensures published <==> records && SomeHeard(attempts)
      ensures forall u :: u in world.supervisor ==> u in old(world).supervisor || u in uuids
    {
      var k := 0;
      while k < 3
        invariant 0 <= k <= 3 && Valid() && world.worker == Publishing(d) && world.collector == old(world).collector
        invariant FreshUuids(uuids, world.supervisor, k)
        invariant forall u :: u in world.supervisor ==> u in old(world).supervisor || u in uuids
        invariant forall j :: 0 <= j < k ==> !(attempts[j].arrives && attempts[j].heard)
        invariant SameHome(old(world), world) && world.now == old(world).now
      {
        if attempts[k].arrives {
          Commit(DoWorkerPublish(world, uuids[k], attempts[k].heard), WorkerPublish(uuids[k], attempts[k].heard));
          if attempts[k].heard {
            if !records {
              StopWorker();
              return false;
            }
            Record(uuids[k]);
            return true;
          }
        }
        k := k + 1;
      }
      StopWorker();
      published := false;
    }

    method Record(uuid: string)
      requires Valid() && world.worker == Published(uuid)
      modifies this
      ensures Valid()
      ensures world == old(world).(collector := old(world).collector.(discoveryUuid := Some(uuid)), worker := Idle)
    {
      Commit(world.(collector := world.collector.(discoveryUuid := Some(uuid)), worker := Idle), WorkerRecord);
    }

    /** A request that was sent reaches the Collector or not, and is answered or not. */
    method Exchange(m: Message, network: Network) returns (ok: bool)
      requires Valid() && m in world.messages && !m.FinalizeRequest?
      modifies this
      ensures Valid()
      ensures world == if network.arrives then DoDeliver(old(world), m) else old(world)
      ensures ok <==> network.heard && m in world.answered
      ensures SameHome(old(world), world)
    {
      if network.arrives {
        Commit(DoDeliver(world, m), Deliver(m));
      }
      ok := network.heard && m in world.answered;
    }

    /** The same for a finalisation, which is two steps of the Collector. */
    method ExchangeFinalize(m: Message, network: Network) returns (ok: bool)
      requires Valid() && m in world.messages && m.FinalizeRequest?
      requires world.collector.phase == PairingStore.Active && world.collector.active == Some(Sha256(m.token)) && IsToken(m.token)
      modifies this
      ensures Valid()
      ensures ok <==> FinalizationHeard(old(world), m.token, network)
      ensures ok ==> m in world.answered
      ensures SameHome(old(world), world) && SameCredential(old(world), world)
      ensures Reaches(old(world), network) && old(world).finalizing.None? ==>
                && world.collector.pairingId.None? && world.collector.discoveryUuid.None?
                && (old(world).collector.discoveryUuid.Some? ==>
                      old(world).collector.discoveryUuid.value !in world.supervisor)
    {
      BearerOf(m.token);
      if network.arrives && world.finalizing.None? {
        Commit(DoFinalizeRemove(world, m), PairingProtocol.FinalizeRemove(m));
        if world.finalizing.Some? {
          Commit(DoFinalizeComplete(world), PairingProtocol.FinalizeComplete);
        }
      }
      ok := network.heard && m in world.answered;
    }

    /** The journal is written ahead of the claim, or an existing one is used again; None when it stops short of a claim. */
    method WriteAhead(haNow: int, generated: string, saves: bool) returns (token: Option<string>)
      requires Valid() && world.flow.Shown? && IsToken(generated)
      modifies this
      ensures Valid() && world.entry == old(world).entry && world.answered == old(world).answered
      ensures world.collector == old(world).collector && world.now == old(world).now && world.worker == old(world).worker
      ensures token.Some? <==> MaySend(old(world), haNow, saves)
      ensures token.Some? && old(world).journal.None? ==> token == Some(generated)
      ensures token.None? ==> world.flow == old(world).flow
      ensures token.Some? ==>
                && world.flow == Claiming(old(world).flow.discovery, old(world).flow.recovery, token.value)
                && world.journal == token && ClaimRequest(old(world).flow.discovery, Sha256(token.value)) in world.messages
      ensures old(world).journal.Some? ==> world.journal == old(world).journal
      ensures old(world).journal.None? && world.journal.Some? ==> world.journal.value == generated
    {
      var d, shown := world.flow.discovery, world.flow.recovery;
      if d.expires <= haNow && shown.None? {
        return None;
      }
      if world.journal.None? {
        if d.expires <= haNow {
          return None;
        }
        var saved := world.(journal := Some(generated), tokens := world.tokens + {generated});
        if !saves {
          Commit(saved, Confirm(haNow, generated, false));
          return None;
        }
        Commit(saved.(flow := Claiming(d, shown, generated), messages := world.messages + {ClaimRequest(d, Sha256(generated))}),
               Confirm(haNow, generated, true));
        return Some(generated);
      }
      token := world.journal;
      Commit(world.(flow := Claiming(d, shown, token.value), messages := world.messages + {ClaimRequest(d, Sha256(token.value))}),
             Confirm(haNow, generated, true));
    }

    /** async_step_hassio_confirm with user input. */
    method ConfirmPairing(haNow: int, generated: string, saves: bool, network: Network) returns (r: FlowResult)
      requires Valid() && world.flow.Shown? && IsToken(generated)
      modifies this
      ensures Valid()
      ensures r.EntryCreated? <==>
                && MaySend(old(world), haNow, saves)
                && ClaimHeard(old(world), old(world).flow.discovery,
                              if old(world).journal.Some? then old(world).journal.value else generated, network)
      ensures r.EntryCreated? ==>
                && world.journal.Some? && world.entry == Some(Entry(world.journal.value, true, true))
                && world.created && world.flow == NoFlow
                && ClaimRequest(old(world).flow.discovery, Sha256(world.journal.value)) in world.answered
      ensures r.FormShown? ==> world.entry == old(world).entry && world.flow == old(world).flow
      ensures old(world).journal.Some? ==> world.journal == old(world).journal
      ensures old(world).journal.None? && world.journal.Some? ==> world.journal.value == generated
    {
      var d, shown := world.flow.discovery, world.flow.recovery;
      var token := WriteAhead(haNow, generated, saves);
      if token.None? {
        return FormShown;
      }
      ClaimDecides(past, d, token.value);
      var claimed := Exchange(ClaimRequest(d, Sha256(token.value)), network);
      if !claimed {
        ShowAgain(d, shown, token.value);
        return FormShown;
      }
      Create(d, shown, token.value);
      r := EntryCreated;
    }

    method ShowAgain(d: Discovery, shown: Option<string>, token: string)
      requires Valid() && world.flow == Claiming(d, shown, token)
      modifies this
      ensures Valid() && world == old(world).(flow := Shown(d, shown))
    {
      Commit(world.(flow := Shown(d, shown)), ClaimFails);
    }

    method Create(d: Discovery, shown: Option<string>, token: string)
      requires Valid() && world.flow == Claiming(d, shown, token) && ClaimRequest(d, Sha256(token)) in world.answered
      modifies this
      ensures Valid()
      ensures world == old(world).(entry := Some(Entry(token, true, true)), created := true, flow := NoFlow)
    {
      Commit(world.(entry := Some(Entry(token, true, true)), created := true, flow := NoFlow), CreateEntry);
    }

    /** async_setup_entry up to the update of the entry. */
    method SetupEntry(activation: Network, healthy: bool, finalization: Network, unavailable: bool, journalWorks: bool)
      returns (r: SetupResult)
      requires Valid() && world.entry.Some? && world.setup == NoSetup
      modifies this
      ensures Valid() && world.setup == NoSetup
      ensures r.Ready? <==> SetupWorks(old(world), activation, healthy, finalization, unavailable)
      ensures r.NotReady? ==> world.entry == old(world).entry && world.journal == old(world).journal
      ensures var e := old(world).entry.value;
              r.Ready? ==>
                && world.collector.phase == PairingStore.Active && world.collector.active == Some(Sha256(e.token))
                && world.entry == Some(Entry(e.token, false, e.finalizePending
                                             && (old(world).created || !FinalizationHeard(old(world), e.token, finalization))))
                && (e.activationPending ==> ActivateRequest(e.token) in world.answered)
                && (e.finalizePending && world.entry.value.Clean() ==>
                      FinalizeRequest(e.token) in world.answered && world.finalized && !world.created)
      ensures var e := old(world).entry.value;
              world.journal ==
              if e.Clean() && !old(world).created && !old(world).finalized && journalWorks && old(world).journal == Some(e.token)
              then None else old(world).journal
    {
      var e := world.entry.value;
      MarkersOf(past);
      if e.activationPending && !e.finalizePending {
        return NotReady;
      }
      if e.activationPending {
        r := Activation(e, activation, healthy, finalization, unavailable);
      } else if e.finalizePending && !world.created {
        if world.journal != Some(e.token) || !healthy {
          return NotReady;
        }
        SendFinalization(e);
        r := Finish(e, e, finalization, unavailable);
      } else {
        if !e.finalizePending && !world.created && !world.finalized && journalWorks {
          if world.journal == Some(e.token) {
            Commit(world.(journal := None), CleanJournal);
          }
        }
        r := Ready;
      }
    }

    method SendFinalization(e: Entry)
      requires Valid() && world.setup == NoSetup && world.entry == Some(e) && !e.activationPending && e.finalizePending
      requires world.journal == Some(e.token) && !world.created
      modifies this
      ensures Valid()
      ensures world == old(world).(setup := Finalizing(e, e), messages := old(world).messages + {FinalizeRequest(e.token)})
    {
      Commit(world.(setup := Finalizing(e, e), messages := world.messages + {FinalizeRequest(e.token)}), StartSetup);
    }

    /** Journal check, activation, health and status checks. */
    method Activate(e: Entry, activation: Network, healthy: bool) returns (activated: bool)
      requires Valid() && world.setup == NoSetup && world.entry == Some(e) && e.activationPending && e.finalizePending
      modifies this
      ensures Valid() && world.entry == Some(e)
      ensures activated <==>
                old(world).journal == Some(e.token) && healthy && ActivationHeard(old(world), e.token, activation)
      ensures world.journal == old(world).journal && world.created == old(world).created
      ensures world.worker == old(world).worker && world.finalizing == old(world).finalizing
      ensures FinalizeRequest(e.token) in world.answered <==> FinalizeRequest(e.token) in old(world).answered
      ensures world.setup == if activated then Activating(e) else NoSetup
      ensures activated ==> ActivateRequest(e.token) in world.answered
    {
      if world.journal != Some(e.token) {
        return false;
      }
      SendActivation(e);
      ActivationDecides(past, e);
      activated := Exchange(ActivateRequest(e.token), activation);
      if !activated || !healthy {
        StopSetup();
        activated := false;
      }
    }

    method SendActivation(e: Entry)
      requires Valid() && world.setup == NoSetup && world.entry == Some(e) && e.activationPending && e.finalizePending
      requires world.journal == Some(e.token)
      modifies this
      ensures Valid()
      ensures world == old(world).(setup := Activating(e), messages := old(world).messages + {ActivateRequest(e.token)})
    {
      Commit(world.(setup := Activating(e), messages := world.messages + {ActivateRequest(e.token)}), StartSetup);
    }

    method StopSetup()
      requires Valid()
      modifies this
      ensures Valid() && world == old(world).(setup := NoSetup)
    {
      Commit(world.(setup := NoSetup), SetupFails);
    }

    /** The setup of an entry that is still to be activated. */
    method Activation(e: Entry, activation: Network, healthy: bool, finalization: Network, unavailable: bool)
      returns (r: SetupResult)
      requires Valid() && world.setup == NoSetup && world.entry == Some(e) && e.activationPending && e.finalizePending
      modifies this
      ensures Valid() && world.setup == NoSetup
      ensures r.Ready? <==> SetupWorks(old(world), activation, healthy, finalization, unavailable)
      ensures world.journal == old(world).journal && world.created == old(world).created
      ensures r.NotReady? ==> world.entry == Some(e)
      ensures r.Ready? ==> ActivateRequest(e.token) in world.answered
      ensures r.Ready? ==> world.collector.phase == PairingStore.Active && world.collector.active == Some(Sha256(e.token))
      ensures r.Ready? ==>
                if world.created || !FinalizationHeard(old(world), e.token, finalization) then
                  world.entry == Some(Entry(e.token, false, true))
                else
                  && world.entry == Some(Entry(e.token, false, false)) && world.finalized
                  && FinalizeRequest(e.token) in world.answered
    {
      var activated := Activate(e, activation, healthy);
      if !activated {
        return NotReady;
      }
      var updated := e.(activationPending := false);
      if world.created {
        StoreActivated(e, updated);
        MarkersOf(past);
        return Ready;
      }
      Commit(world.(setup := Finalizing(e, updated), messages := world.messages + {FinalizeRequest(e.token)}), ActivationDone);
      r := Finish(e, updated, finalization, unavailable);
    }

    method StoreActivated(e: Entry, updated: Entry)
      requires Valid() && world.setup == Activating(e) && ActivateRequest(e.token) in world.answered
      requires world.created && updated == e.(activationPending := false)
      modifies this
      ensures Valid() && world == old(world).(entry := Some(updated), setup := NoSetup)
    {
      Commit(world.(entry := Some(updated), setup := NoSetup), ActivationDone);
    }

    /** The rest of the setup once its finalisation is sent. */
    method Finish(e: Entry, updated: Entry, finalization: Network, unavailable: bool) returns (r: SetupResult)
      requires Valid() && world.setup == Finalizing(e, updated) && world.entry == Some(e)
      requires updated == Entry(e.token, false, true) && !world.created
      requires FinalizeRequest(e.token) in world.messages
      modifies this
      ensures Valid() && world.setup == NoSetup && old(world.answered) <= world.answered
      ensures r.Ready? <==> FinalizationHeard(old(world), e.token, finalization) || unavailable
      ensures world.journal == old(world).journal && world.created == old(world).created
      ensures world.collector.phase == PairingStore.Active && world.collector.active == Some(Sha256(e.token))
      ensures r.NotReady? ==> world.entry == Some(e)
      ensures r.Ready? ==>
                if FinalizationHeard(old(world), e.token, finalization) then
                  && world.entry == Some(Entry(e.token, false, false)) && world.finalized
                  && FinalizeRequest(e.token) in world.answered
                else world.entry == Some(updated)
    {
      FinalizingIsActive(past, e, updated);
      var finalized := ExchangeFinalize(FinalizeRequest(e.token), finalization);
      if finalized {
        FinalizationStep(world, e, updated);
        Commit(world.(finalized := true, entry := Some(Entry(e.token, false, false)), setup := NoSetup), FinalizationDone);
        r := Ready;
      } else if unavailable {
        Commit(world.(entry := Some(updated), setup := NoSetup), FinalizationUnavailable);
        r := Ready;
      } else {
        StopSetup();
        r := NotReady;
      }
    }
  }

  /** What the markers of an entry and its setup say of the Collector. */
  lemma MarkersOf(past: seq<Action>)
    ensures var w := After(past);
            w.entry.Some? ==>
              && (w.entry.value.activationPending ==> w.entry.value.finalizePending)
              && (!w.entry.value.activationPending ==>
                    w.collector.phase == PairingStore.Active && w.collector.active == Some(Sha256(w.entry.value.token)))
  {
    RunKeeps(past);
    UnmarkedEntryIsActive(past);
  }

  lemma FinalizingIsActive(past: seq<Action>, e: Entry, updated: Entry)
    requires After(past).setup == Finalizing(e, updated)
    ensures var w := After(past);
            w.collector.phase == PairingStore.Active && w.collector.active == Some(Sha256(e.token)) && IsToken(e.token)
  {
    RunKeeps(past);
    RunKnows(past);
  }

  /** Delivered, an activation is answered exactly while the Collector is claimed and in time. */
  lemma ActivationDecides(past: seq<Action>, e: Entry)
    requires After(past).entry == Some(e) && ActivateRequest(e.token) in After(past).messages
    ensures var w := After(past);
            ActivateRequest(e.token) in DoDeliver(w, ActivateRequest(e.token)).answered <==>
            ActivateRequest(e.token) in w.answered || (w.worker == Idle && Paired(w))
  {
    EntryActivates(past);
  }

  /** Delivered, a claim is answered exactly by a pairing of its own discovery that hears claims: no verifier conflicts. */
  lemma ClaimDecides(past: seq<Action>, d: Discovery, token: string)
    requires After(past).flow.Claiming? && After(past).flow.discovery == d && After(past).journal == Some(token)
    requires ClaimRequest(d, Sha256(token)) in After(past).messages
    ensures var w := After(past);
            ClaimRequest(d, Sha256(token)) in DoDeliver(w, ClaimRequest(d, Sha256(token))).answered <==>
            ClaimRequest(d, Sha256(token)) in w.answered
            || (w.worker == Idle && Hears(w.collector, w.now) && w.collector.pairingId == Some(d.id))
  {
    var w := After(past);
    RunKeeps(past);
    assert DiscoverySound(w, d);
    ClaimedExactly(w.collector, w.now, Some(d.id), Some(d.secret), Some(Sha256(token)));
    assert Holder(w.collector).Some? ==> Holder(w.collector).value.text in w.tokens;
  }

  predicate SameCredential(w: World, v: World) {
    v.collector.phase == w.collector.phase && v.collector.active == w.collector.active
  }

  lemma FinalizationStep(w: World, e: Entry, updated: Entry)
    requires w.setup == Finalizing(e, updated) && FinalizeRequest(e.token) in w.answered && updated.token == e.token
    ensures Apply(w, FinalizationDone) == w.(finalized := true, entry := Some(Entry(e.token, false, false)), setup := NoSetup)
  {
  }

  /** A step of the Collector leaves Home Assistant's memory and disk as they are. */
  ghost predicate SameHome(w: World, v: World) {
    && v.entry == w.entry && v.created == w.created && v.finalized == w.finalized && v.flow == w.flow && v.setup == w.setup
    && v.diskEntry == w.diskEntry && v.journal == w.journal && v.messages == w.messages && w.answered <= v.answered
    && v.tokens == w.tokens
  }
}
