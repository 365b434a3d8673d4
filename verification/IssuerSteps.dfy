/** Every step keeps the invariant. First each process is shown to act within its rights, then each kind of effect is
    shown to be harmless to the memory and to the other processes. */
module IssuerSteps {
  import opened Wrappers
  import opened Json
  import opened EventSourcing
  import opened IssuerMachine
  import opened IssuerInvariant
  import O = IssuerOffer
  import C = IssuerCredential

  // ----- what a process may do -----

  ghost predicate MayAppendOffer(m: Memory, p: Process, next: Process, w: Outside, id: string, event: O.OfferEvent) {
    match event
    case CredentialOfferCreated(offer, code, token) =>
      code in Draws(w) && token in Draws(w) && offer.preAuthorizedCode == code
    case CredentialsAdded(ids) =>
      |ids| == 1 && Owned(p.pc) == Some(ids[0]) && !p.pc.CredentialsCreate? && Owned(next.pc).None?
    case CredentialResponseCreated(_) => EventOk(m, id, event) && Verified(m, id)
    case _ => EventOk(m, id, event)
  }

  ghost predicate MayAppendCredential(m: Memory, p: Process, next: Process, id: string, event: C.CredentialEvent) {
    if event.CredentialSigned? then
      && Owned(p.pc).None? && Owned(next.pc).None?
      && (exists o :: Bound(m, o, id))
      && |CredentialLog(m, id)| == 1 && CredentialLog(m, id)[0].UnsignedCredentialCreated?
    else
      p.pc.CredentialsCreate? && next.pc.CredentialsMetadata? && Owned(p.pc) == Some(id) == Owned(next.pc)
  }

  /** How the ownership of a credential moves on. */
  ghost predicate OwnershipRight(p: Process, action: Action, w: Outside) {
    var next := action.next;
    && (next.pc.CredentialsCreate? ==> !next.pc.create.SignCredential?)
    && (Owned(next.pc).None? || Owned(next.pc) == Owned(p.pc)
        || (Owned(next.pc) == Some(w.uuid) && next.pc.CredentialsCreate? && action.effect.NoEffect?))
    && (Owned(next.pc).Some? && Owned(next.pc) == Owned(p.pc) ==>
          (next.pc.CredentialsCreate? <==> p.pc.CredentialsCreate? && !action.effect.AppendCredential?))
  }

  ghost predicate AppendRight(m: Memory, p: Process, action: Action, w: Outside) {
    match action.effect
    case AppendOffer(id, event) =>
      p.pending.Idle? && action.next.pending == OfferDispatch(id, event, LoadView)
      && MayAppendOffer(m, p, action.next, w, id, event)
    case AppendCredential(id, event) =>
      p.pending.Idle? && action.next.pending == CredentialDispatch(id, event, LoadCredential)
      && MayAppendCredential(m, p, action.next, id, event)
    case _ => PendingFacts(m, action.next.pending)
  }

  ghost predicate StoreRight(m: Memory, effect: Effect) {
    match effect
    case PutOffer(id, view) => ViewOk(m, id, view)
    case PutCode(code, owner) => CodeOf(m, owner, code)
    case PutToken(token, owner) => TokenOf(m, owner, token)
    case _ => true
  }

  ghost predicate LoadsCredential(m: Memory, p: Process, next: Process) {
    && p.pending.CredentialDispatch? && p.pending.credentialStage.LoadCredential?
    && next == Process(p.pc, CredentialDispatch(p.pending.credentialId, p.pending.credentialEvent,
                                                StoreCredential(EntryOr(m.credentials, p.pending.credentialId, C.EMPTY_VIEW))))
  }

  ghost predicate WriterRight(m: Memory, p: Process, action: Action) {
    if action.effect.PutCredential? then
      && Writer(p) == Some(action.effect.id) && Writer(action.next).None?
      && action.effect.credentialView == C.Stored(CredentialLog(m, action.effect.id))
      && CredentialLog(m, action.effect.id) != []
    else
      || action.effect.AppendCredential?
      || (Writer(p).None? && Writer(action.next).None?)
      || LoadsCredential(m, p, action.next)
  }

  /** The part of the invariant that speaks about one process, and the rights its effect needs. */
  ghost predicate Justified(m: Memory, p: Process, action: Action, w: Outside) {
    && PcFacts(m, action.next.pc)
    && OwnershipRight(p, action, w)
    && AppendRight(m, p, action, w)
    && StoreRight(m, action.effect)
    && WriterRight(m, p, action)
  }

  lemma CredentialsCreateJustified(m: Memory, p: Process, w: Outside)
    requires PcFacts(m, p.pc) && OwnerOk(m, p.pc) && p.pending.Idle? && p.pc.CredentialsCreate?
    ensures Justified(m, p, CredentialsStep(m, p.pc, w), w)
  {
    var create := p.pc.create;
    if create.CreateUnsignedCredential? {
      CreateEvents(create.data, create.configuration, w.credential);
    }
  }

  lemma CredentialsOfferJustified(m: Memory, p: Process, w: Outside)
    requires PcFacts(m, p.pc) && OwnerOk(m, p.pc) && p.pending.Idle? && (p.pc.CredentialsOffer? || p.pc.CredentialsAdd?)
    ensures Justified(m, p, CredentialsStep(m, p.pc, w), w)
  {
  }

  lemma CredentialsStepJustified(m: Memory, p: Process, w: Outside)
    requires PcFacts(m, p.pc) && OwnerOk(m, p.pc) && p.pending.Idle? && AtCredentials(p.pc)
    ensures Justified(m, p, CredentialsStep(m, p.pc, w), w)
  {
    if p.pc.CredentialsCreate? {
      CredentialsCreateJustified(m, p, w);
    } else if p.pc.CredentialsOffer? || p.pc.CredentialsAdd? {
      CredentialsOfferJustified(m, p, w);
    }
  }

  /** Creation from data never yields a signature. */
  lemma CreateEvents(data: C.Data, configuration: C.ServerConfig.Configuration, services: C.CredentialServices)
    ensures var r := C.Create(data, configuration, services);
            r.Success? ==> |r.value| == 1 && r.value[0].UnsignedCredentialCreated?
  {
  }

  /** The offer that gets encoded was created for this offer id, with its own code in it. */
  lemma AggregateOffer(m: Memory, offerId: string)
    requires EventsOk(m) && O.Aggregate(OfferLog(m, offerId)).credentialOffer.Some?
    ensures CodeOf(m, offerId, O.Aggregate(OfferLog(m, offerId)).credentialOffer.value.preAuthorizedCode)
  {
    O.AccessTokenIsLatest(OfferLog(m, offerId));
    var e := O.LastCreated(OfferLog(m, offerId)).value;
    assert EventOk(m, offerId, e);
  }

  lemma OffersEncodeJustified(m: Memory, p: Process, w: Outside)
    requires EventsOk(m) && p.pending.Idle? && p.pc.OffersEncode?
    ensures Justified(m, p, OffersStep(m, p.pc, w), w)
  {
    if O.Aggregate(OfferLog(m, p.pc.offerId)).credentialOffer.Some? {
      AggregateOffer(m, p.pc.offerId);
    }
  }

  lemma OffersStepJustified(m: Memory, p: Process, w: Outside)
    requires EventsOk(m) && OffersOk(m) && PcFacts(m, p.pc) && p.pending.Idle? && AtOffers(p.pc)
    ensures Justified(m, p, OffersStep(m, p.pc, w), w)
  {
    if p.pc.OffersEncode? {
      OffersEncodeJustified(m, p, w);
    }
  }

  /** The token an offer with a code answers with is one of its own. */
  lemma AggregateToken(m: Memory, offerId: string, code: string)
    requires CodeOf(m, offerId, code)
    ensures TokenOf(m, offerId, O.Aggregate(OfferLog(m, offerId)).accessToken)
  {
    O.AccessTokenIsLatest(OfferLog(m, offerId));
  }

  lemma TokenStepJustified(m: Memory, p: Process, w: Outside)
    requires IndexesSound(m) && OffersOk(m) && PcFacts(m, p.pc) && p.pending.Idle? && AtToken(p.pc)
    ensures Justified(m, p, TokenStep(m, p.pc, w), w)
  {
    if p.pc.TokenCreate? {
      AggregateToken(m, p.pc.offerId, p.pc.code);
    }
  }

  /** Signing is decided by the log: only a credential created unsigned and not signed yet gets an event. */
  lemma SignEvents(log: seq<C.CredentialEvent>, subjectId: string, services: C.CredentialServices)
    requires Shape(log) && log != []
    ensures var r := C.Handle(C.Aggregate(log), C.SignCredential(subjectId, false), services);
            r.Success? && r.value != [] ==> |log| == 1 && log[0].UnsignedCredentialCreated? && r.value[0].CredentialSigned?
  {
    if |log| == 2 {
      assert log[..1] == [log[0]] && [log[0]][..0] == [];
    } else {
      assert log[..0] == [];
    }
  }

  /** What a credential view shows as signed was signed. */
  lemma {:induction false} StoredSignature(log: seq<C.CredentialEvent>, value: Json)
    requires C.Stored(log).signed == Some(value)
    ensures C.SignedCredentialCreated(value) in log || C.CredentialSigned(value) in log
  {
    var front, last := log[..|log| - 1], log[|log| - 1];
    assert log == front + [last];
    if last.UnsignedCredentialCreated? {
      StoredSignature(front, value);
    } else {
      assert last in log;
    }
  }

  /** The view of a credential that is about to be rewritten is still unsigned. */
  lemma RewrittenUnsigned(m: Memory, p: Process, id: string)
    requires WriterOk(m, p) && Writer(p) == Some(id) && Shape(CredentialLog(m, id))
    ensures id in m.credentials ==> m.credentials[id].signed == None
  {
    var log := CredentialLog(m, id);
    if |log| == 2 {
      assert log[..1] == [] + [log[0]];
      ReplaySnoc(C.Store, C.EMPTY_VIEW, [], log[0]);
    }
  }

  lemma ReadSignature(s: State, id: string, value: Json)
    requires CredentialsShown(s) && Shape(CredentialLog(s.memory, id))
    requires forall p :: p in s.processes ==> WriterOk(s.memory, s.processes[p])
    requires id in s.memory.credentials && s.memory.credentials[id].signed == Some(value)
    ensures SignedAs(s.memory, id, value)
  {
    forall p | p in s.processes ensures Writer(s.processes[p]) != Some(id) {
      if Writer(s.processes[p]) == Some(id) {
        RewrittenUnsigned(s.memory, s.processes[p], id);
      }
    }
    StoredSignature(CredentialLog(s.memory, id), value);
  }

  lemma RequestSignJustified(m: Memory, p: Process, w: Outside)
    requires MemoryOk(m) && ProcessOk(m, p) && p.pending.Idle? && p.pc.RequestSign?
    ensures Justified(m, p, RequestStep(m, p.pc, w), w)
  {
    var RequestSign(bearer, offerId, subjectId, ids, signed) := p.pc;
    assert EventOk(m, offerId, O.CredentialsAdded(ids));
    if |signed| < |ids| {
      assert ids == [ids[0]];
      assert Bound(m, offerId, ids[0]);
      SignEvents(CredentialLog(m, ids[0]), subjectId, w.credential);
    }
  }

  lemma RequestRespondJustified(m: Memory, p: Process, w: Outside)
    requires MemoryOk(m) && ProcessOk(m, p) && p.pending.Idle? && p.pc.RequestRespond?
    ensures Justified(m, p, RequestStep(m, p.pc, w), w)
  {
    var RequestRespond(bearer, offerId, subjectId, ids, signed) := p.pc;
    assert EventOk(m, offerId, O.CredentialsAdded(ids));
    assert ids == [ids[0]];
    assert Bound(m, offerId, ids[0]) && SignedAs(m, ids[0], signed[0]);
    assert O.CredentialRequestVerified(subjectId) in OfferLog(m, offerId);
  }

  lemma RequestReadJustified(m: Memory, p: Process, w: Outside)
    requires PcFacts(m, p.pc) && p.pending.Idle? && p.pc.RequestRead?
    requires forall c, v :: c in m.credentials && m.credentials[c].signed == Some(v) ==> SignedAs(m, c, v)
    ensures Justified(m, p, RequestStep(m, p.pc, w), w)
  {
  }

  lemma RequestPollJustified(m: Memory, p: Process, w: Outside)
    requires OffersOk(m) && PcFacts(m, p.pc) && p.pending.Idle? && p.pc.RequestPoll?
    ensures Justified(m, p, RequestStep(m, p.pc, w), w)
  {
  }

  lemma RequestOtherJustified(m: Memory, p: Process, w: Outside)
    requires IndexesSound(m) && OffersOk(m) && PcFacts(m, p.pc) && p.pending.Idle? && AtRequest(p.pc)
    requires !p.pc.RequestPoll? && !p.pc.RequestSign? && !p.pc.RequestRead? && !p.pc.RequestRespond?
    ensures Justified(m, p, RequestStep(m, p.pc, w), w)
  {
  }

  lemma RequestStepJustified(s: State, p: Process, w: Outside)
    requires Inv(s) && ProcessOk(s.memory, p) && p.pending.Idle? && AtRequest(p.pc)
    ensures Justified(s.memory, p, RequestStep(s.memory, p.pc, w), w)
  {
    if p.pc.RequestSign? {
      RequestSignJustified(s.memory, p, w);
    } else if p.pc.RequestRespond? {
      RequestRespondJustified(s.memory, p, w);
    } else if p.pc.RequestRead? {
      forall q | q in s.processes ensures WriterOk(s.memory, s.processes[q]) {
        assert ProcessOk(s.memory, s.processes[q]);
      }
      forall c, v | c in s.memory.credentials && s.memory.credentials[c].signed == Some(v) ensures SignedAs(s.memory, c, v) {
        ReadSignature(s, c, v);
      }
      RequestReadJustified(s.memory, p, w);
    } else if p.pc.RequestPoll? {
      RequestPollJustified(s.memory, p, w);
    } else {
      RequestOtherJustified(s.memory, p, w);
    }
  }

  lemma UpdateOk(m: Memory, id: string, view: O.OfferView, event: O.OfferEvent)
    requires ViewOk(m, id, view) && event in OfferLog(m, id)
    ensures ViewOk(m, id, O.Update(view, event))
  {
  }

  lemma DispatchOfferJustified(m: Memory, p: Process, w: Outside)
    requires MemoryOk(m) && ProcessOk(m, p) && p.pending.OfferDispatch?
    ensures Justified(m, p, DispatchOfferStep(m, p.pc, p.pending.id, p.pending.event, p.pending.stage), w)
  {
    var OfferDispatch(id, event, stage) := p.pending;
    if stage.StoreView? {
      UpdateOk(m, id, stage.view, event);
    }
  }

  lemma DispatchCredentialJustified(m: Memory, p: Process, w: Outside)
    requires MemoryOk(m) && ProcessOk(m, p) && p.pending.CredentialDispatch?
    ensures Justified(m, p, DispatchCredentialStep(m, p.pc, p.pending.credentialId, p.pending.credentialEvent,
                                                   p.pending.credentialStage), w)
  {
  }

  lemma StepJustified(s: State, pid: nat, w: Outside)
    requires Inv(s) && pid in s.processes
    ensures Justified(s.memory, s.processes[pid], Act(s.memory, s.processes[pid], w), w)
  {
    var m, p := s.memory, s.processes[pid];
    assert ProcessOk(m, p);
    if p.pending.OfferDispatch? {
      DispatchOfferJustified(m, p, w);
    } else if p.pending.CredentialDispatch? {
      DispatchCredentialJustified(m, p, w);
    } else if AtCredentials(p.pc) {
      CredentialsStepJustified(m, p, w);
    } else if AtOffers(p.pc) {
      OffersStepJustified(m, p, w);
    } else if AtToken(p.pc) {
      TokenStepJustified(m, p, w);
    } else if AtRequest(p.pc) {
      RequestStepJustified(s, p, w);
    }
  }
}
