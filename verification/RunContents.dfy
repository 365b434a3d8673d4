/**
 Where the contents of a run come from. Whatever is on record was put there by a step of some request, and what that step wrote
 is given by what the request had read before: offers carry the configuration that was read for them.
 */
module RunContents {
  import opened Wrappers
  import opened EventSourcing
  import opened IssuerMachine
  import opened IssuerInvariant
  import opened IssuerPreservation
  import opened IssuerTheorems
  import SC = ServerConfig
  import O = IssuerOffer
  import C = IssuerCredential

  // ----- steps of a run -----

  /** The step at this position is a request's. */
  ghost predicate Moves(steps: seq<Step>, k: nat) {
    k < |steps| && steps[k].Move? && Enabled(Run(steps[..k]), steps[k])
  }

  function Before(steps: seq<Step>, k: nat): Memory
    requires k < |steps|
  {
    Run(steps[..k]).memory
  }

  ghost function Mover(steps: seq<Step>, k: nat): Process
    requires Moves(steps, k)
  {
    Run(steps[..k]).processes[steps[k].pid]
  }

  ghost function EffectAt(steps: seq<Step>, k: nat): Effect
    requires Moves(steps, k)
  {
    Act(Before(steps, k), Mover(steps, k), steps[k].w).effect
  }

  ghost predicate Has(steps: seq<Step>, k: nat, effect: Effect) {
    Moves(steps, k) && EffectAt(steps, k) == effect
  }

  lemma HasLater(front: seq<Step>, steps: seq<Step>, k: nat, effect: Effect)
    requires front <= steps && Has(front, k, effect)
    ensures Has(steps, k, effect)
  {
    assert steps[..k] == front[..k];
  }

  lemma LastStep(steps: seq<Step>)
    requires steps != []
    ensures Run(steps) == Exec(Run(steps[..|steps| - 1]), steps[|steps| - 1])
  {
  }

  lemma PerformAppends(m: Memory, effect: Effect, o: string, e: O.OfferEvent)
    requires e in OfferLog(Perform(m, effect), o) && e !in OfferLog(m, o)
    ensures effect == AppendOffer(o, e)
  {
  }

  lemma PerformAppendsCredential(m: Memory, effect: Effect, id: string, e: C.CredentialEvent)
    requires e in CredentialLog(Perform(m, effect), id) && e !in CredentialLog(m, id)
    ensures effect == AppendCredential(id, e)
  {
  }

  lemma ExecAppends(s: State, step: Step, o: string, e: O.OfferEvent)
    requires e in OfferLog(Exec(s, step).memory, o) && e !in OfferLog(s.memory, o)
    ensures step.Move? && Enabled(s, step) && Act(s.memory, s.processes[step.pid], step.w).effect == AppendOffer(o, e)
  {
    if step.Move? && Enabled(s, step) {
      PerformAppends(s.memory, Act(s.memory, s.processes[step.pid], step.w).effect, o, e);
    }
  }

  lemma ExecAppendsCredential(s: State, step: Step, id: string, e: C.CredentialEvent)
    requires e in CredentialLog(Exec(s, step).memory, id) && e !in CredentialLog(s.memory, id)
    ensures step.Move? && Enabled(s, step) && Act(s.memory, s.processes[step.pid], step.w).effect == AppendCredential(id, e)
  {
    if step.Move? && Enabled(s, step) {
      PerformAppendsCredential(s.memory, Act(s.memory, s.processes[step.pid], step.w).effect, id, e);
    }
  }

  /** Every event on record was appended by a step. */
  lemma {:induction false} OfferEventAppended(steps: seq<Step>, o: string, e: O.OfferEvent) returns (k: nat)
    requires e in OfferLog(Run(steps).memory, o)
    ensures Has(steps, k, AppendOffer(o, e))
  {
    var front, last := steps[..|steps| - 1], steps[|steps| - 1];
    LastStep(steps);
    if e in OfferLog(Run(front).memory, o) {
      k := OfferEventAppended(front, o, e);
      HasLater(front, steps, k, AppendOffer(o, e));
    } else {
      ExecAppends(Run(front), last, o, e);
      k := |front|;
    }
  }

  lemma {:induction false} CredentialEventAppended(steps: seq<Step>, id: string, e: C.CredentialEvent) returns (k: nat)
    requires e in CredentialLog(Run(steps).memory, id)
    ensures Has(steps, k, AppendCredential(id, e))
  {
    var front, last := steps[..|steps| - 1], steps[|steps| - 1];
    LastStep(steps);
    if e in CredentialLog(Run(front).memory, id) {
      k := CredentialEventAppended(front, id, e);
      HasLater(front, steps, k, AppendCredential(id, e));
    } else {
      ExecAppendsCredential(Run(front), last, id, e);
      k := |front|;
    }
  }

  ghost predicate LogsIn(m: Memory, m': Memory) {
    (forall o :: OfferLog(m, o) <= OfferLog(m', o)) && (forall id :: CredentialLog(m, id) <= CredentialLog(m', id))
  }

  lemma PerformGrows(m: Memory, effect: Effect)
    ensures LogsIn(m, Perform(m, effect))
  {
  }

  lemma ExecGrows(s: State, step: Step)
    ensures LogsIn(s.memory, Exec(s, step).memory)
  {
    if Enabled(s, step) && step.Move? {
      var effect := Act(s.memory, s.processes[step.pid], step.w).effect;
      PerformGrows(s.memory, effect);
      SameLogs(Perform(s.memory, effect), Exec(s, step).memory);
    }
  }

  lemma SameLogs(m: Memory, m': Memory)
    requires m'.offerLogs == m.offerLogs && m'.credentialLogs == m.credentialLogs
    ensures LogsIn(m, m')
  {
  }

  lemma LogsInOn(m: Memory, m': Memory, m'': Memory)
    requires LogsIn(m, m') && LogsIn(m', m'')
    ensures LogsIn(m, m'')
  {
    forall o ensures OfferLog(m, o) <= OfferLog(m'', o) {
      assert OfferLog(m, o) <= OfferLog(m', o) <= OfferLog(m'', o);
    }
    forall id ensures CredentialLog(m, id) <= CredentialLog(m'', id) {
      assert CredentialLog(m, id) <= CredentialLog(m', id) <= CredentialLog(m'', id);
    }
  }

  /** Logs only ever grow at the end. */
  lemma {:induction false} RunGrows(steps: seq<Step>, k: nat)
    requires k <= |steps|
    ensures LogsIn(Run(steps[..k]).memory, Run(steps).memory)
  {
    if k == |steps| {
      assert steps[..k] == steps;
      SameLogs(Run(steps).memory, Run(steps).memory);
    } else {
      var front := steps[..|steps| - 1];
      RunGrows(front, k);
      assert front[..k] == steps[..k];
      LastStep(steps);
      ExecGrows(Run(front), steps[|steps| - 1]);
      LogsInOn(Run(steps[..k]).memory, Run(front).memory, Run(steps).memory);
    }
  }

  // ----- offers -----

  /** The step reads the configuration on behalf of a request that looks for this offer. */
  ghost predicate Reads(s: State, step: Step, o: string, metadata: SC.Metadata) {
    && step.Move? && Enabled(s, step) && s.processes[step.pid].pending.Idle? && step.w.metadata == Some(metadata)
    && var pc := s.processes[step.pid].pc; (pc.OffersStart? || pc.CredentialsMetadata?) && pc.offerId == o
  }

  ghost predicate ReadFor(steps: seq<Step>, o: string, metadata: SC.Metadata) {
    exists k :: 0 <= k < |steps| && Reads(Run(steps[..k]), steps[k], o, metadata)
  }

  lemma ReadForLater(front: seq<Step>, steps: seq<Step>, o: string, metadata: SC.Metadata)
    requires front <= steps && ReadFor(front, o, metadata)
    ensures ReadFor(steps, o, metadata)
  {
    var k :| 0 <= k < |front| && Reads(Run(front[..k]), front[k], o, metadata);
    assert steps[..k] == front[..k];
  }

  lemma ReadForNow(steps: seq<Step>, o: string, metadata: SC.Metadata)
    requires steps != [] && Reads(Run(steps[..|steps| - 1]), steps[|steps| - 1], o, metadata)
    ensures ReadFor(steps, o, metadata)
  {
    assert 0 <= |steps| - 1 < |steps|;
  }

  /** A request that carries a configuration for an offer. */
  predicate Holds(pc: Pc, o: string, metadata: SC.Metadata) {
    (pc.OffersLookup? || pc.OffersCreate? || pc.CredentialsLookup? || pc.CredentialsOffer?) && pc.offerId == o && pc.metadata == metadata
  }

  predicate CouldRead(p: Process, w: Outside, o: string, metadata: SC.Metadata) {
    p.pending.Idle? && w.metadata == Some(metadata) && (p.pc.OffersStart? || p.pc.CredentialsMetadata?) && p.pc.offerId == o
  }

  lemma DispatchHolds(m: Memory, p: Process, w: Outside, o: string, metadata: SC.Metadata)
    requires !p.pending.Idle? && Holds(Act(m, p, w).next.pc, o, metadata)
    ensures Holds(p.pc, o, metadata)
  {
    assert Act(m, p, w).next.pc == p.pc;
  }

  lemma CredentialsHolds(m: Memory, p: Process, w: Outside, o: string, metadata: SC.Metadata)
    requires p.pending.Idle? && AtCredentials(p.pc) && Holds(CredentialsStep(m, p.pc, w).next.pc, o, metadata)
    ensures Holds(p.pc, o, metadata) || CouldRead(p, w, o, metadata)
  {
  }

  lemma OffersHolds(m: Memory, p: Process, w: Outside, o: string, metadata: SC.Metadata)
    requires p.pending.Idle? && AtOffers(p.pc) && Holds(OffersStep(m, p.pc, w).next.pc, o, metadata)
    ensures Holds(p.pc, o, metadata) || CouldRead(p, w, o, metadata)
  {
  }

  lemma WalletSideHolds(m: Memory, p: Process, w: Outside, o: string, metadata: SC.Metadata)
    requires p.pending.Idle? && !AtCredentials(p.pc) && !AtOffers(p.pc)
    ensures !Holds(Act(m, p, w).next.pc, o, metadata)
  {
    if AtToken(p.pc) {
      TokenLeads(m, p.pc, w);
    } else if AtRequest(p.pc) {
      RequestLeads(m, p.pc, w);
    }
  }

  lemma TokenLeads(m: Memory, pc: Pc, w: Outside)
    requires AtToken(pc)
    ensures var next := TokenStep(m, pc, w).next.pc; AtToken(next) || next.Done?
  {
  }

  lemma RequestLeads(m: Memory, pc: Pc, w: Outside)
    requires AtRequest(pc)
    ensures var next := RequestStep(m, pc, w).next.pc; AtRequest(next) || next.Done?
  {
  }

  /** A configuration is carried on, or read by this very step. */
  lemma ActHolds(m: Memory, p: Process, w: Outside, o: string, metadata: SC.Metadata)
    requires Holds(Act(m, p, w).next.pc, o, metadata)
    ensures Holds(p.pc, o, metadata) || CouldRead(p, w, o, metadata)
  {
    if !p.pending.Idle? {
      DispatchHolds(m, p, w, o, metadata);
    } else if AtCredentials(p.pc) {
      CredentialsHolds(m, p, w, o, metadata);
    } else if AtOffers(p.pc) {
      OffersHolds(m, p, w, o, metadata);
    } else {
      WalletSideHolds(m, p, w, o, metadata);
    }
  }

  lemma ExecHolds(s: State, step: Step, pid: nat, o: string, metadata: SC.Metadata)
    requires pid in Exec(s, step).processes && Holds(Exec(s, step).processes[pid].pc, o, metadata)
    ensures (pid in s.processes && Holds(s.processes[pid].pc, o, metadata)) || Reads(s, step, o, metadata)
  {
    if Enabled(s, step) && step.Move? && step.pid == pid {
      ActHolds(s.memory, s.processes[pid], step.w, o, metadata);
    }
  }

  /** Every configuration that a request carries was read for its offer. */
  lemma {:induction false} HeldWasRead(steps: seq<Step>, pid: nat, o: string, metadata: SC.Metadata)
    requires pid in Run(steps).processes && Holds(Run(steps).processes[pid].pc, o, metadata)
    ensures ReadFor(steps, o, metadata)
  {
    var front, last := steps[..|steps| - 1], steps[|steps| - 1];
    LastStep(steps);
    ExecHolds(Run(front), last, pid, o, metadata);
    if Reads(Run(front), last, o, metadata) {
      ReadForNow(steps, o, metadata);
    } else {
      HeldWasRead(front, pid, o, metadata);
      ReadForLater(front, steps, o, metadata);
    }
  }

  /** A request on the creating branch, and what it creates. */
  ghost predicate CreatesFrom(p: Process, o: string, e: O.OfferEvent) {
    && p.pending.Idle? && (p.pc.OffersCreate? || p.pc.CredentialsOffer?) && p.pc.offerId == o
    && e.CredentialOfferCreated? && O.Announces(e.credentialOffer, p.pc.metadata, e.preAuthorizedCode)
  }

  /** A request that encodes its offer: the one created last. */
  ghost predicate EncodesFrom(m: Memory, p: Process, o: string, e: O.OfferEvent) {
    && e.FormUrlEncodedCredentialOfferCreated?
    && O.LastCreated(OfferLog(m, o)).Some? && e.form == Some(O.LastCreated(OfferLog(m, o)).value.credentialOffer)
  }

  ghost predicate AppendsFrom(m: Memory, p: Process, effect: Effect) {
    effect.AppendOffer? ==>
      && (effect.event.CredentialOfferCreated? ==> CreatesFrom(p, effect.id, effect.event))
      && (effect.event.FormUrlEncodedCredentialOfferCreated? ==> EncodesFrom(m, p, effect.id, effect.event))
  }

  lemma CredentialsAppends(m: Memory, p: Process, w: Outside)
    requires p.pending.Idle? && AtCredentials(p.pc)
    ensures AppendsFrom(m, p, CredentialsStep(m, p.pc, w).effect)
  {
  }

  lemma OffersAppends(m: Memory, p: Process, w: Outside)
    requires p.pending.Idle? && AtOffers(p.pc)
    ensures AppendsFrom(m, p, OffersStep(m, p.pc, w).effect)
  {
    O.AccessTokenIsLatest(OfferLog(m, p.pc.offerId));
  }

  lemma TokenAppends(m: Memory, p: Process, w: Outside)
    requires p.pending.Idle? && AtToken(p.pc)
    ensures AppendsFrom(m, p, TokenStep(m, p.pc, w).effect)
  {
  }

  lemma RequestAppends(m: Memory, p: Process, w: Outside)
    requires p.pending.Idle? && AtRequest(p.pc)
    ensures AppendsFrom(m, p, RequestStep(m, p.pc, w).effect)
  {
  }

  lemma DispatchAppends(m: Memory, p: Process, w: Outside)
    requires !p.pending.Idle?
    ensures AppendsFrom(m, p, Act(m, p, w).effect)
  {
    assert !Act(m, p, w).effect.AppendOffer?;
  }

  lemma ActAppends(m: Memory, p: Process, w: Outside)
    ensures AppendsFrom(m, p, Act(m, p, w).effect)
  {
    if !p.pending.Idle? {
      DispatchAppends(m, p, w);
    } else if AtCredentials(p.pc) {
      CredentialsAppends(m, p, w);
    } else if AtOffers(p.pc) {
      OffersAppends(m, p, w);
    } else if AtToken(p.pc) {
      TokenAppends(m, p, w);
    } else if AtRequest(p.pc) {
      RequestAppends(m, p, w);
    }
  }

  /** An offer for a configuration that some request had read for it. */
  ghost predicate OfRead(steps: seq<Step>, o: string, offer: O.CredentialOffer) {
    exists metadata :: ReadFor(steps, o, metadata) && O.Announces(offer, metadata, offer.preAuthorizedCode)
  }

  /** Every run, every interleaving: each created offer carries the issuer and the configurations that some request had read for
      this very offer, and its own code. */
  lemma CreatedWasRead(steps: seq<Step>, o: string, e: O.OfferEvent)
    requires e in OfferLog(Run(steps).memory, o) && e.CredentialOfferCreated?
    ensures OfRead(steps, o, e.credentialOffer) && e.credentialOffer.preAuthorizedCode == e.preAuthorizedCode
  {
    var k := OfferEventAppended(steps, o, e);
    var p := Mover(steps, k);
    ActAppends(Before(steps, k), p, steps[k].w);
    assert CreatesFrom(p, o, e);
    HeldWasRead(steps[..k], steps[k].pid, o, p.pc.metadata);
    ReadForLater(steps[..k], steps, o, p.pc.metadata);
  }

  ghost predicate CreatedOffer(m: Memory, o: string, offer: O.CredentialOffer) {
    exists e :: e in OfferLog(m, o) && e.CredentialOfferCreated? && e.credentialOffer == offer
  }

  /** Every encoded offer is one that was created. */
  lemma EncodedWasCreated(steps: seq<Step>, o: string, form: O.Form)
    requires O.FormUrlEncodedCredentialOfferCreated(form) in OfferLog(Run(steps).memory, o)
    ensures form.Some? && CreatedOffer(Run(steps).memory, o, form.value)
  {
    var e := O.FormUrlEncodedCredentialOfferCreated(form);
    var k := OfferEventAppended(steps, o, e);
    var m := Before(steps, k);
    ActAppends(m, Mover(steps, k), steps[k].w);
    assert EncodesFrom(m, Mover(steps, k), o, e);
    O.AccessTokenIsLatest(OfferLog(m, o));
    RunGrows(steps, k);
    assert O.LastCreated(OfferLog(m, o)).value in OfferLog(Run(steps).memory, o);
  }

  /** So does every offer that `offers` shows: it is one that was created, for a configuration read for it. */
  lemma ShownWasRead(steps: seq<Step>, pid: nat, o: string, form: O.Form)
    requires Answered(Run(steps), pid, OfferShown(o, form)) && form.Some?
    ensures CreatedOffer(Run(steps).memory, o, form.value) && OfRead(steps, o, form.value)
  {
    assert PcFacts(Run(steps).memory, Run(steps).processes[pid].pc) by {
      Reachable(steps);
      assert ProcessOk(Run(steps).memory, Run(steps).processes[pid]);
    }
    EncodedWasCreated(steps, o, form);
    var e :| e in OfferLog(Run(steps).memory, o) && e.CredentialOfferCreated? && e.credentialOffer == form.value;
    CreatedWasRead(steps, o, e);
  }
}
