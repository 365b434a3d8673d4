/**
 Where the credentials of a run come from. Each is started by one step of one request and made from what that request handed in,
 it is bound to the offer of that request, and a signature is over the data on record, for a subject verified for that offer.
 */
module CredentialOrigins {
  import opened Wrappers
  import opened Json
  import opened EventSourcing
  import opened IssuerMachine
  import opened IssuerInvariant
  import opened IssuerSteps
  import opened IssuerPreservation
  import opened IssuerTheorems
  import opened RunContents
  import O = IssuerOffer
  import C = IssuerCredential

  // ----- what starts a credential -----

  /** The step starts a credential under this id, for a request to bind one to this offer: from what was handed in, in the
      configuration that was read. */
  ghost predicate Starts(s: State, step: Step, o: string, id: string, command: C.CredentialCommand) {
    && step.Move? && Enabled(s, step) && StartsWith(s.processes[step.pid], step.w, o, id, command)
  }

  predicate StartsWith(p: Process, w: Outside, o: string, id: string, command: C.CredentialCommand) {
    && p.pending.Idle? && p.pc.CredentialsStart? && p.pc.offerId == o && w.uuid == id
    && w.metadata.Some? && p.pc.configurationId in w.metadata.value.configurations
    && if p.pc.isSigned then command == C.CreateSignedCredential(p.pc.credential)
       else command == C.CreateUnsignedCredential(C.Data(p.pc.credential), w.metadata.value.configurations[p.pc.configurationId])
  }

  ghost predicate Started(steps: seq<Step>, o: string, id: string, command: C.CredentialCommand) {
    exists k :: 0 <= k < |steps| && Starts(Run(steps[..k]), steps[k], o, id, command)
  }

  lemma StartedLater(front: seq<Step>, steps: seq<Step>, o: string, id: string, command: C.CredentialCommand)
    requires front <= steps && Started(front, o, id, command)
    ensures Started(steps, o, id, command)
  {
    var k :| 0 <= k < |front| && Starts(Run(front[..k]), front[k], o, id, command);
    assert steps[..k] == front[..k];
  }

  lemma StartedNow(steps: seq<Step>, o: string, id: string, command: C.CredentialCommand)
    requires steps != [] && Starts(Run(steps[..|steps| - 1]), steps[|steps| - 1], o, id, command)
    ensures Started(steps, o, id, command)
  {
    assert 0 <= |steps| - 1 < |steps|;
  }

  lemma CredentialsCarries(m: Memory, p: Process, w: Outside)
    requires p.pending.Idle? && AtCredentials(p.pc)
    ensures var next := CredentialsStep(m, p.pc, w).next.pc;
            next.CredentialsCreate? ==> StartsWith(p, w, next.offerId, next.id, next.create)
  {
  }

  lemma OffersLeads(m: Memory, pc: Pc, w: Outside)
    requires AtOffers(pc)
    ensures var next := OffersStep(m, pc, w).next.pc; AtOffers(next) || next.Done?
  {
  }

  lemma ActCarries(m: Memory, p: Process, w: Outside)
    ensures var next := Act(m, p, w).next.pc;
            next.CredentialsCreate? ==> next == p.pc || StartsWith(p, w, next.offerId, next.id, next.create)
  {
    if !p.pending.Idle? {
      assert Act(m, p, w).next.pc == p.pc;
    } else if AtCredentials(p.pc) {
      CredentialsCarries(m, p, w);
    } else if AtOffers(p.pc) {
      OffersLeads(m, p.pc, w);
    } else if AtToken(p.pc) {
      TokenLeads(m, p.pc, w);
    } else if AtRequest(p.pc) {
      RequestLeads(m, p.pc, w);
    }
  }

  lemma ExecCarries(s: State, step: Step, pid: nat, o: string, id: string, command: C.CredentialCommand)
    requires pid in Exec(s, step).processes && Exec(s, step).processes[pid].pc == CredentialsCreate(o, id, command)
    ensures (pid in s.processes && s.processes[pid].pc == CredentialsCreate(o, id, command)) || Starts(s, step, o, id, command)
  {
    if Enabled(s, step) && step.Move? && step.pid == pid {
      ActCarries(s.memory, s.processes[pid], step.w);
    }
  }

  lemma {:induction false} CarriedWasStarted(steps: seq<Step>, pid: nat, o: string, id: string, command: C.CredentialCommand)
    requires pid in Run(steps).processes && Run(steps).processes[pid].pc == CredentialsCreate(o, id, command)
    ensures Started(steps, o, id, command)
  {
    var front, last := steps[..|steps| - 1], steps[|steps| - 1];
    LastStep(steps);
    ExecCarries(Run(front), last, pid, o, id, command);
    if Starts(Run(front), last, o, id, command) {
      StartedNow(steps, o, id, command);
    } else {
      CarriedWasStarted(front, pid, o, id, command);
      StartedLater(front, steps, o, id, command);
    }
  }

  /** What a step that appends to a credential is handling. */
  ghost predicate CommandsFrom(m: Memory, p: Process, w: Outside, effect: Effect) {
    effect.AppendCredential? ==>
      && p.pending.Idle?
      && var log, e := CredentialLog(m, effect.id), effect.credentialEvent;
         || (p.pc.CredentialsCreate? && p.pc.id == effect.id
             && Handled(C.Handle(C.Aggregate(log), p.pc.create, w.credential), e))
         || (p.pc.RequestSign? && |p.pc.signed| < |p.pc.ids| && p.pc.ids[|p.pc.signed|] == effect.id
             && Handled(C.Handle(C.Aggregate(log), C.SignCredential(p.pc.subjectId, false), w.credential), e))
  }

  predicate Handled(r: Result<seq<C.CredentialEvent>, C.CredentialError>, e: C.CredentialEvent) {
    r.Success? && r.value == [e]
  }

  lemma CommandHandled(m: Memory, id: string, command: C.CredentialCommand, w: Outside, ok: Pc, failed: Pc)
    ensures var effect := CredentialCommand(m, id, command, w, ok, failed).effect;
            effect.AppendCredential? ==>
              effect.id == id && Handled(C.Handle(C.Aggregate(CredentialLog(m, id)), command, w.credential), effect.credentialEvent)
  {
  }

  lemma CredentialsCommands(m: Memory, p: Process, w: Outside)
    requires p.pending.Idle? && AtCredentials(p.pc)
    ensures CommandsFrom(m, p, w, CredentialsStep(m, p.pc, w).effect)
  {
    if p.pc.CredentialsCreate? {
      CommandHandled(m, p.pc.id, p.pc.create, w, CredentialsMetadata(p.pc.offerId, p.pc.id), Done(ServerError));
    }
  }

  lemma RequestCommands(m: Memory, p: Process, w: Outside)
    requires p.pending.Idle? && AtRequest(p.pc)
    ensures CommandsFrom(m, p, w, RequestStep(m, p.pc, w).effect)
  {
    if p.pc.RequestSign? && |p.pc.signed| < |p.pc.ids| {
      var next := RequestRead(p.pc.bearer, p.pc.offerId, p.pc.subjectId, p.pc.ids, p.pc.signed);
      CommandHandled(m, p.pc.ids[|p.pc.signed|], C.SignCredential(p.pc.subjectId, false), w, next, next);
    } else {
      assert !RequestStep(m, p.pc, w).effect.AppendCredential?;
    }
  }

  lemma OthersCommands(m: Memory, p: Process, w: Outside)
    requires !p.pending.Idle? || (!AtCredentials(p.pc) && !AtRequest(p.pc))
    ensures CommandsFrom(m, p, w, Act(m, p, w).effect)
  {
    assert !Act(m, p, w).effect.AppendCredential?;
  }

  lemma ActCommands(m: Memory, p: Process, w: Outside)
    ensures CommandsFrom(m, p, w, Act(m, p, w).effect)
  {
    if p.pending.Idle? && AtCredentials(p.pc) {
      CredentialsCommands(m, p, w);
    } else if p.pending.Idle? && AtRequest(p.pc) {
      RequestCommands(m, p, w);
    } else {
      OthersCommands(m, p, w);
    }
  }

  /** The event of a command that starts a credential. */
  ghost predicate MadeBy(command: C.CredentialCommand, services: C.CredentialServices, e: C.CredentialEvent) {
    match command
    case CreateSignedCredential(signed) => e == C.SignedCredentialCreated(signed)
    case CreateUnsignedCredential(data, configuration) =>
      e.UnsignedCredentialCreated? && e.configuration == configuration && Handled(C.Create(data, configuration, services), e)
    case SignCredential(_, _) => false
  }

  ghost predicate MadeFrom(steps: seq<Step>, o: string, id: string, e: C.CredentialEvent) {
    exists command, services :: Started(steps, o, id, command) && MadeBy(command, services, e)
  }

  lemma CreationMade(self: C.Credential, command: C.CredentialCommand, services: C.CredentialServices, e: C.CredentialEvent)
    requires Handled(C.Handle(self, command, services), e)
    ensures if command.SignCredential? then e.CredentialSigned? else MadeBy(command, services, e)
  {
  }

  /** Every run, every interleaving: a credential on record was made from what a request handed in under this very id, as it is if
      it came signed, otherwise by the builders from the data, in the configuration the request had read. */
  lemma MadeWasStarted(steps: seq<Step>, id: string, e: C.CredentialEvent)
    requires e in CredentialLog(Run(steps).memory, id) && !e.CredentialSigned?
    ensures exists o :: MadeFrom(steps, o, id, e)
  {
    var k := CredentialEventAppended(steps, id, e);
    var m, p, w := Before(steps, k), Mover(steps, k), steps[k].w;
    ActCommands(m, p, w);
    assert CommandsFrom(m, p, w, AppendCredential(id, e));
    CreationMade(C.Aggregate(CredentialLog(m, id)),
                 if p.pc.CredentialsCreate? then p.pc.create else C.SignCredential(p.pc.subjectId, false), w.credential, e);
    CarriedWasStarted(steps[..k], steps[k].pid, p.pc.offerId, id, p.pc.create);
    StartedLater(steps[..k], steps, p.pc.offerId, id, p.pc.create);
    assert MadeFrom(steps, p.pc.offerId, id, e);
  }

  /** A signature that this step made: for a subject verified for the offer of the request, a credential bound to that offer, and
      over the data of its creation. */
  ghost predicate SignsNow(m: Memory, p: Process, w: Outside, id: string, e: C.CredentialEvent) {
    && e.CredentialSigned? && p.pc.RequestSign?
    && VerifiedAs(m, p.pc.offerId, p.pc.subjectId) && Bound(m, p.pc.offerId, id)
    && |CredentialLog(m, id)| == 1 && CredentialLog(m, id)[0].UnsignedCredentialCreated?
    && (C.HasSubject(CredentialLog(m, id)[0].data.raw) ==>
          C.SignatureOf(CredentialLog(m, id)[0].data.raw, p.pc.subjectId, w.credential, e.signed))
  }

  /** A signed value over the data of this credential's creation, for this subject. */
  ghost predicate SignedFor(m: Memory, o: string, id: string, subjectId: string, services: C.CredentialServices, value: Json) {
    && VerifiedAs(m, o, subjectId) && Bound(m, o, id)
    && CredentialLog(m, id) != [] && CredentialLog(m, id)[0].UnsignedCredentialCreated?
    && var raw := CredentialLog(m, id)[0].data.raw;
       C.HasSubject(raw) ==> C.SignatureOf(raw, subjectId, services, value)
  }

  ghost predicate SignedFrom(m: Memory, o: string, id: string, value: Json) {
    exists subjectId, services :: SignedFor(m, o, id, subjectId, services, value)
  }

  lemma SigningStep(m: Memory, p: Process, w: Outside, id: string, e: C.CredentialEvent)
    requires CommandsFrom(m, p, w, AppendCredential(id, e)) && e.CredentialSigned? && p.pc.RequestSign?
    requires VerifiedAs(m, p.pc.offerId, p.pc.subjectId) && Bound(m, p.pc.offerId, id)
    requires Shape(CredentialLog(m, id))
    ensures SignsNow(m, p, w, id, e)
  {
    var log := CredentialLog(m, id);
    C.SignsExactly(log, p.pc.subjectId, false, w.credential);
    SignEvents(log, p.pc.subjectId, w.credential);
    assert log[..0] == [];
    assert C.LastUnsigned(log) == Some(log[0]);
  }

  lemma SignsStay(m: Memory, m': Memory, p: Process, w: Outside, id: string, e: C.CredentialEvent)
    requires SignsNow(m, p, w, id, e) && LogsIn(m, m')
    ensures SignedFrom(m', p.pc.offerId, id, e.signed)
  {
    assert OfferLog(m, p.pc.offerId) <= OfferLog(m', p.pc.offerId) && CredentialLog(m, id) <= CredentialLog(m', id);
    assert CredentialLog(m', id)[0] == CredentialLog(m, id)[0];
    assert SignedFor(m', p.pc.offerId, id, p.pc.subjectId, w.credential, e.signed);
  }

  /** Only a request at its signing step signs. */
  lemma SignedByRequest(steps: seq<Step>, k: nat, id: string, e: C.CredentialEvent)
    requires Has(steps, k, AppendCredential(id, e)) && e.CredentialSigned?
    ensures CommandsFrom(Before(steps, k), Mover(steps, k), steps[k].w, AppendCredential(id, e)) && Mover(steps, k).pc.RequestSign?
  {
    var m, p, w := Before(steps, k), Mover(steps, k), steps[k].w;
    ActCommands(m, p, w);
    if p.pc.CredentialsCreate? {
      CarriedWasStarted(steps[..k], steps[k].pid, p.pc.offerId, p.pc.id, p.pc.create);
      CreationMade(C.Aggregate(CredentialLog(m, id)), p.pc.create, w.credential, e);
    }
  }

  lemma SignsOwnId(m: Memory, p: Process, w: Outside, id: string, e: C.CredentialEvent)
    requires CommandsFrom(m, p, w, AppendCredential(id, e)) && p.pc.RequestSign?
    ensures id in p.pc.ids
  {
    assert p.pc.ids[|p.pc.signed|] == id;
  }

  lemma SigningBound(steps: seq<Step>, pid: nat, id: string)
    requires pid in Run(steps).processes && Run(steps).processes[pid].pc.RequestSign? && id in Run(steps).processes[pid].pc.ids
    ensures var m, pc := Run(steps).memory, Run(steps).processes[pid].pc;
            VerifiedAs(m, pc.offerId, pc.subjectId) && Bound(m, pc.offerId, id) && Shape(CredentialLog(m, id))
  {
    SignsForVerifiedSubject(steps, pid);
    assert Shape(CredentialLog(Run(steps).memory, id)) by {
      Reachable(steps);
    }
  }

  lemma RequestSigns(steps: seq<Step>, pid: nat, w: Outside, id: string, e: C.CredentialEvent)
    requires pid in Run(steps).processes && Run(steps).processes[pid].pc.RequestSign? && e.CredentialSigned?
    requires CommandsFrom(Run(steps).memory, Run(steps).processes[pid], w, AppendCredential(id, e))
    ensures SignsNow(Run(steps).memory, Run(steps).processes[pid], w, id, e)
  {
    SignsOwnId(Run(steps).memory, Run(steps).processes[pid], w, id, e);
    SigningBound(steps, pid, id);
    SigningStep(Run(steps).memory, Run(steps).processes[pid], w, id, e);
  }

  /** Every run, every interleaving: a signature that was made here is what the encoder made of the data on record for this very
      credential, with the issuer and the subject put in, and of a subject verified for the offer the credential is bound to. */
  lemma SignedWasComputed(steps: seq<Step>, id: string, value: Json) returns (o: string)
    requires C.CredentialSigned(value) in CredentialLog(Run(steps).memory, id)
    ensures SignedFrom(Run(steps).memory, o, id, value)
  {
    var e := C.CredentialSigned(value);
    var k := CredentialEventAppended(steps, id, e);
    SignedByRequest(steps, k, id, e);
    o := Mover(steps, k).pc.offerId;
    RequestSigns(steps[..k], steps[k].pid, steps[k].w, id, e);
    RunGrows(steps, k);
    SignsStay(Before(steps, k), Run(steps).memory, Mover(steps, k), steps[k].w, id, e);
  }

  // ----- one credential, one request -----

  /** Some step started this credential for this offer. */
  ghost predicate StartedFor(steps: seq<Step>, o: string, id: string) {
    exists command :: Started(steps, o, id, command)
  }

  predicate Owning(pc: Pc, o: string, id: string) {
    Owned(pc) == Some(id) && pc.offerId == o
  }

  lemma CredentialsOwning(m: Memory, p: Process, w: Outside, o: string, id: string)
    requires p.pending.Idle? && AtCredentials(p.pc) && Owning(CredentialsStep(m, p.pc, w).next.pc, o, id)
    ensures Owning(p.pc, o, id) || exists command :: StartsWith(p, w, o, id, command)
  {
    if p.pc.CredentialsStart? {
      assert StartsWith(p, w, o, id, CredentialsStep(m, p.pc, w).next.pc.create);
    }
  }

  lemma ActOwning(m: Memory, p: Process, w: Outside, o: string, id: string)
    requires Owning(Act(m, p, w).next.pc, o, id)
    ensures Owning(p.pc, o, id) || exists command :: StartsWith(p, w, o, id, command)
  {
    if !p.pending.Idle? {
      assert Act(m, p, w).next.pc == p.pc;
    } else if AtCredentials(p.pc) {
      CredentialsOwning(m, p, w, o, id);
    } else if AtOffers(p.pc) {
      OffersLeads(m, p.pc, w);
    } else if AtToken(p.pc) {
      TokenLeads(m, p.pc, w);
    } else if AtRequest(p.pc) {
      RequestLeads(m, p.pc, w);
    }
  }

  lemma ExecOwning(s: State, step: Step, pid: nat, o: string, id: string)
    requires pid in Exec(s, step).processes && Owning(Exec(s, step).processes[pid].pc, o, id)
    ensures (pid in s.processes && Owning(s.processes[pid].pc, o, id)) || exists command :: Starts(s, step, o, id, command)
  {
    if Enabled(s, step) && step.Move? && step.pid == pid {
      ActOwning(s.memory, s.processes[pid], step.w, o, id);
      if !Owning(s.processes[pid].pc, o, id) {
        var command :| StartsWith(s.processes[pid], step.w, o, id, command);
        assert Starts(s, step, o, id, command);
      }
    }
  }

  lemma {:induction false} OwnedWasStarted(steps: seq<Step>, pid: nat, o: string, id: string)
    requires pid in Run(steps).processes && Owning(Run(steps).processes[pid].pc, o, id)
    ensures StartedFor(steps, o, id)
  {
    var front, last := steps[..|steps| - 1], steps[|steps| - 1];
    LastStep(steps);
    ExecOwning(Run(front), last, pid, o, id);
    if pid in Run(front).processes && Owning(Run(front).processes[pid].pc, o, id) {
      OwnedWasStarted(front, pid, o, id);
      var command :| Started(front, o, id, command);
      StartedLater(front, steps, o, id, command);
    } else {
      var command :| Starts(Run(front), last, o, id, command);
      StartedNow(steps, o, id, command);
    }
  }

  /** Only the request that owns a credential binds it. */
  ghost predicate BindsOwn(p: Process, effect: Effect) {
    effect.AppendOffer? && effect.event.CredentialsAdded? ==>
      |effect.event.credentialIds| == 1 && Owning(p.pc, effect.id, effect.event.credentialIds[0])
  }

  lemma CredentialsBinds(m: Memory, p: Process, w: Outside)
    requires p.pending.Idle? && AtCredentials(p.pc)
    ensures BindsOwn(p, CredentialsStep(m, p.pc, w).effect)
  {
  }

  lemma OffersBinds(m: Memory, p: Process, w: Outside)
    requires p.pending.Idle? && AtOffers(p.pc)
    ensures BindsOwn(p, OffersStep(m, p.pc, w).effect)
  {
  }

  lemma TokenBinds(m: Memory, p: Process, w: Outside)
    requires p.pending.Idle? && AtToken(p.pc)
    ensures BindsOwn(p, TokenStep(m, p.pc, w).effect)
  {
  }

  lemma RequestBinds(m: Memory, p: Process, w: Outside)
    requires p.pending.Idle? && AtRequest(p.pc)
    ensures BindsOwn(p, RequestStep(m, p.pc, w).effect)
  {
  }

  lemma ActBinds(m: Memory, p: Process, w: Outside)
    ensures BindsOwn(p, Act(m, p, w).effect)
  {
    if !p.pending.Idle? {
      assert !Act(m, p, w).effect.AppendOffer?;
    } else if AtCredentials(p.pc) {
      CredentialsBinds(m, p, w);
    } else if AtOffers(p.pc) {
      OffersBinds(m, p, w);
    } else if AtToken(p.pc) {
      TokenBinds(m, p, w);
    } else if AtRequest(p.pc) {
      RequestBinds(m, p, w);
    }
  }

  /** A credential is bound to the offer that the request which started it was for. */
  lemma BoundWasStarted(steps: seq<Step>, o: string, id: string)
    requires Bound(Run(steps).memory, o, id)
    ensures StartedFor(steps, o, id)
  {
    var k := OfferEventAppended(steps, o, O.CredentialsAdded([id]));
    ActBinds(Before(steps, k), Mover(steps, k), steps[k].w);
    assert BindsOwn(Mover(steps, k), AppendOffer(o, O.CredentialsAdded([id])));
    OwnedWasStarted(steps[..k], steps[k].pid, o, id);
    var command :| Started(steps[..k], o, id, command);
    StartedLater(steps[..k], steps, o, id, command);
  }

  lemma ExecDraws(s: State, step: Step)
    ensures s.memory.drawn <= Exec(s, step).memory.drawn
    ensures step.Move? && Enabled(s, step) ==> Draws(step.w) <= Exec(s, step).memory.drawn
  {
    if step.Move? && Enabled(s, step) {
      PerformDraws(s.memory, Act(s.memory, s.processes[step.pid], step.w).effect);
    }
  }

  lemma PerformDraws(m: Memory, effect: Effect)
    ensures Perform(m, effect).drawn == m.drawn
  {
  }

  /** What was drawn stays drawn. */
  lemma {:induction false} DrawnSince(steps: seq<Step>, k: nat)
    requires Moves(steps, k)
    ensures Draws(steps[k].w) <= Run(steps).memory.drawn
  {
    var front, last := steps[..|steps| - 1], steps[|steps| - 1];
    LastStep(steps);
    ExecDraws(Run(front), last);
    if k < |front| {
      assert front[..k] == steps[..k];
      DrawnSince(front, k);
    }
  }

  /** No two steps draw the same string. */
  lemma DrawnOnce(steps: seq<Step>, j: nat, k: nat)
    requires j < k && Moves(steps, j) && Moves(steps, k)
    ensures Draws(steps[j].w) !! Draws(steps[k].w)
  {
    assert steps[..k][..j] == steps[..j];
    DrawnSince(steps[..k], j);
  }

  /** A credential is started once: one request, one offer, one set of data. */
  lemma StartedOnce(steps: seq<Step>, o1: string, o2: string, id: string, c1: C.CredentialCommand, c2: C.CredentialCommand)
    requires Started(steps, o1, id, c1) && Started(steps, o2, id, c2)
    ensures o1 == o2 && c1 == c2
  {
    var j :| 0 <= j < |steps| && Starts(Run(steps[..j]), steps[j], o1, id, c1);
    var k :| 0 <= k < |steps| && Starts(Run(steps[..k]), steps[k], o2, id, c2);
    assert id in Draws(steps[j].w) && id in Draws(steps[k].w);
    if j < k {
      DrawnOnce(steps, j, k);
    } else if k < j {
      DrawnOnce(steps, k, j);
    }
  }

  /** What comes of a credential that a request started with this command: as it is if it was handed in signed, otherwise a
      signature over what was made from the data. */
  ghost predicate ComesOf(m: Memory, o: string, id: string, command: C.CredentialCommand, value: Json) {
    match command
    case CreateSignedCredential(signed) => value == signed
    case CreateUnsignedCredential(_, _) =>
      SignedFrom(m, o, id, value) && exists services :: MadeBy(command, services, CredentialLog(m, id)[0])
    case SignCredential(_, _) => false
  }

  /** What is on record for a credential was made by the command that started it. */
  lemma MadeByStart(steps: seq<Step>, o: string, id: string, command: C.CredentialCommand, e: C.CredentialEvent)
    requires Started(steps, o, id, command) && e in CredentialLog(Run(steps).memory, id) && !e.CredentialSigned?
    ensures exists services :: MadeBy(command, services, e)
  {
    MadeWasStarted(steps, id, e);
    var q :| MadeFrom(steps, q, id, e);
    var command', services :| Started(steps, q, id, command') && MadeBy(command', services, e);
    StartedOnce(steps, o, q, id, command, command');
  }

  lemma HandedInComes(m: Memory, o: string, id: string, command: C.CredentialCommand, services: C.CredentialServices, value: Json)
    requires MadeBy(command, services, C.SignedCredentialCreated(value))
    ensures ComesOf(m, o, id, command, value)
  {
  }

  lemma ComputedComes(m: Memory, o: string, id: string, command: C.CredentialCommand, services: C.CredentialServices, value: Json)
    requires SignedFrom(m, o, id, value) && CredentialLog(m, id) != [] && CredentialLog(m, id)[0].UnsignedCredentialCreated?
    requires MadeBy(command, services, CredentialLog(m, id)[0])
    ensures ComesOf(m, o, id, command, value)
  {
  }

  lemma ValueComesOf(steps: seq<Step>, o: string, id: string, command: C.CredentialCommand, value: Json)
    requires Started(steps, o, id, command) && SignedAs(Run(steps).memory, id, value)
    requires forall q :: Bound(Run(steps).memory, q, id) <==> q == o
    ensures ComesOf(Run(steps).memory, o, id, command, value)
  {
    var m := Run(steps).memory;
    if C.CredentialSigned(value) in CredentialLog(m, id) {
      var q := SignedWasComputed(steps, id, value);
      var subjectId, services :| SignedFor(m, q, id, subjectId, services, value);
      assert q == o;
      MadeByStart(steps, o, id, command, CredentialLog(m, id)[0]);
      var builders :| MadeBy(command, builders, CredentialLog(m, id)[0]);
      ComputedComes(m, o, id, command, builders, value);
    } else {
      MadeByStart(steps, o, id, command, C.SignedCredentialCreated(value));
      var builders :| MadeBy(command, builders, C.SignedCredentialCreated(value));
      HandedInComes(m, o, id, command, builders, value);
    }
  }

  /** End to end, every run, every interleaving: the credential a wallet is given comes of the one request that started it, which
      was for the very offer of the wallet's token; the offer has a credential bound to it that this request was the only one to
      start. */
  lemma GivenComesOfRequest(steps: seq<Step>, pid: nat, bearer: string, o: string, response: O.CredentialResponse)
    requires Answered(Run(steps), pid, CredentialGiven(bearer, o, response))
    ensures exists id, command ::
              && Bound(Run(steps).memory, o, id) && Started(steps, o, id, command)
              && ComesOf(Run(steps).memory, o, id, command, response.credential)
  {
    var m := Run(steps).memory;
    Provenance(steps, pid, bearer, o, response);
    var id :| SignedAs(m, id, response.credential) && forall q :: Bound(m, q, id) <==> q == o;
    assert Bound(m, o, id);
    BoundWasStarted(steps, o, id);
    var command :| Started(steps, o, id, command);
    ValueComesOf(steps, o, id, command, response.credential);
  }
}
