/** The invariant survives every justified effect, and so holds in every reachable state. */
module IssuerPreservation {
  import opened Wrappers
  import opened Json
  import opened EventSourcing
  import opened IssuerMachine
  import opened IssuerInvariant
  import opened IssuerSteps
  import O = IssuerOffer
  import C = IssuerCredential

  function After(m: Memory, effect: Effect, w: Outside): Memory {
    var m' := Perform(m, effect);
    m'.(drawn := m'.drawn + Draws(w))
  }

  lemma Grows(m: Memory, effect: Effect, w: Outside)
    ensures Extends(m, After(m, effect, w))
    ensures m.drawn <= After(m, effect, w).drawn
  {
  }

  // ----- memory -----

  /** After an append: an event on record was there before, or is the new one. */
  lemma OldOrNew(m: Memory, w: Outside, id: string, event: O.OfferEvent, o: string, e: O.OfferEvent)
    requires e in OfferLog(After(m, AppendOffer(id, event), w), o)
    ensures e in OfferLog(m, o) || (o == id && e == event)
  {
  }

  /** A creation that is on record uses other strings than one that has just drawn its own. */
  lemma NewIssueDiffers(m: Memory, w: Outside, event: O.OfferEvent, o: string, e: O.OfferEvent)
    requires AllDrawn(m) && Draws(w) !! m.drawn && e in OfferLog(m, o) && e.CredentialOfferCreated?
    requires event.CredentialOfferCreated? && event.preAuthorizedCode in Draws(w) && event.accessToken in Draws(w)
    ensures e.preAuthorizedCode != event.preAuthorizedCode && e.accessToken != event.accessToken
  {
  }

  lemma AppendOfferKeepsUniqueIssue(m: Memory, w: Outside, id: string, event: O.OfferEvent)
    requires UniqueIssue(m) && AllDrawn(m) && Draws(w) !! m.drawn
    requires event.CredentialOfferCreated? ==> event.preAuthorizedCode in Draws(w) && event.accessToken in Draws(w)
    ensures UniqueIssue(After(m, AppendOffer(id, event), w))
  {
    var m' := After(m, AppendOffer(id, event), w);
    forall o1, o2, e1, e2 | e1 in OfferLog(m', o1) && e2 in OfferLog(m', o2)
      && e1.CredentialOfferCreated? && e2.CredentialOfferCreated?
      && (e1.preAuthorizedCode == e2.preAuthorizedCode || e1.accessToken == e2.accessToken)
      ensures o1 == o2 && e1 == e2
    {
      OldOrNew(m, w, id, event, o1, e1);
      OldOrNew(m, w, id, event, o2, e2);
      if e1 in OfferLog(m, o1) {
        if e2 !in OfferLog(m, o2) {
          NewIssueDiffers(m, w, event, o1, e1);
        }
      } else if e2 in OfferLog(m, o2) {
        NewIssueDiffers(m, w, event, o2, e2);
      }
    }
  }

  lemma AppendOfferKeepsAllDrawn(m: Memory, w: Outside, id: string, event: O.OfferEvent)
    requires AllDrawn(m)
    requires event.CredentialOfferCreated? ==> event.preAuthorizedCode in Draws(w) && event.accessToken in Draws(w)
    ensures AllDrawn(After(m, AppendOffer(id, event), w))
  {
    var m' := After(m, AppendOffer(id, event), w);
    forall o, e | e in OfferLog(m', o) && e.CredentialOfferCreated?
      ensures e.preAuthorizedCode in m'.drawn && e.accessToken in m'.drawn
    {
      OldOrNew(m, w, id, event, o, e);
    }
    forall c | CredentialLog(m', c) != [] ensures c in m'.drawn {
      assert CredentialLog(m, c) != [];
    }
  }

  lemma AppendOfferKeepsEvents(m: Memory, p: Process, next: Process, w: Outside, id: string, event: O.OfferEvent)
    requires EventsOk(m) && OwnerOk(m, p.pc)
    requires MayAppendOffer(m, p, next, w, id, event)
    ensures EventsOk(After(m, AppendOffer(id, event), w))
  {
    var m' := After(m, AppendOffer(id, event), w);
    Grows(m, AppendOffer(id, event), w);
    FactsGrow(m, m');
    forall o, e | e in OfferLog(m', o) ensures EventOk(m', o, e) {
      if e in OfferLog(m, o) {
        assert EventOk(m, o, e);
      } else {
        assert o == id && e == event;
      }
    }
  }

  lemma AppendOfferKeepsVerifiedFirst(m: Memory, p: Process, next: Process, w: Outside, id: string, event: O.OfferEvent, o: string)
    requires VerifiedFirst(OfferLog(m, o))
    requires MayAppendOffer(m, p, next, w, id, event)
    ensures VerifiedFirst(OfferLog(After(m, AppendOffer(id, event), w), o))
  {
    if o == id {
      var log := OfferLog(m, id);
      var log' := log + [event];
      forall i | 0 <= i < |log'| && log'[i].CredentialResponseCreated?
        ensures exists j :: 0 <= j < i && log'[j].CredentialRequestVerified?
      {
        if i < |log| {
          assert log[i].CredentialResponseCreated?;
          var j :| 0 <= j < i && log[j].CredentialRequestVerified?;
          assert log'[j].CredentialRequestVerified?;
        } else {
          var e :| e in log && e.CredentialRequestVerified?;
          var j :| 0 <= j < |log| && log[j] == e;
          assert log'[j].CredentialRequestVerified?;
        }
      }
    }
  }

  lemma AppendOfferKeepsBoundOnce(m: Memory, p: Process, next: Process, w: Outside, id: string, event: O.OfferEvent)
    requires BoundOnce(m) && OwnerOk(m, p.pc)
    requires MayAppendOffer(m, p, next, w, id, event)
    ensures BoundOnce(After(m, AppendOffer(id, event), w))
  {
    var m' := After(m, AppendOffer(id, event), w);
    forall o, c | Bound(m', o, c)
      ensures Bound(m, o, c) || (o == id && event == O.CredentialsAdded([c]) && Owned(p.pc) == Some(c))
    {
    }
  }

  lemma IndexesAndOffersGrow(m: Memory, m': Memory)
    requires IndexesSound(m) && OffersOk(m) && Extends(m, m')
    requires m'.codes == m.codes && m'.tokens == m.tokens && m'.offers == m.offers
    ensures IndexesSound(m') && OffersOk(m')
  {
    FactsGrow(m, m');
  }

  lemma AppendOfferKeepsMemory(m: Memory, p: Process, next: Process, w: Outside, id: string, event: O.OfferEvent)
    requires MemoryOk(m) && OwnerOk(m, p.pc) && Draws(w) !! m.drawn
    requires MayAppendOffer(m, p, next, w, id, event)
    ensures MemoryOk(After(m, AppendOffer(id, event), w))
  {
    var m' := After(m, AppendOffer(id, event), w);
    AppendOfferKeepsUniqueIssue(m, w, id, event);
    AppendOfferKeepsAllDrawn(m, w, id, event);
    AppendOfferKeepsEvents(m, p, next, w, id, event);
    AppendOfferKeepsBoundOnce(m, p, next, w, id, event);
    AppendOfferKeepsOrder(m, p, next, w, id, event);
    Grows(m, AppendOffer(id, event), w);
    IndexesAndOffersGrow(m, m');
    AppendOfferKeepsShapes(m, w, id, event);
  }

  lemma AppendOfferKeepsOrder(m: Memory, p: Process, next: Process, w: Outside, id: string, event: O.OfferEvent)
    requires (forall o :: VerifiedFirst(OfferLog(m, o))) && MayAppendOffer(m, p, next, w, id, event)
    ensures forall o :: VerifiedFirst(OfferLog(After(m, AppendOffer(id, event), w), o))
  {
    forall o ensures VerifiedFirst(OfferLog(After(m, AppendOffer(id, event), w), o)) {
      AppendOfferKeepsVerifiedFirst(m, p, next, w, id, event, o);
    }
  }

  lemma AppendOfferKeepsShapes(m: Memory, w: Outside, id: string, event: O.OfferEvent)
    requires forall c :: Shape(CredentialLog(m, c))
    ensures forall c :: Shape(CredentialLog(After(m, AppendOffer(id, event), w), c))
  {
    forall c ensures Shape(CredentialLog(After(m, AppendOffer(id, event), w), c)) {
      assert CredentialLog(After(m, AppendOffer(id, event), w), c) == CredentialLog(m, c);
    }
  }

  lemma AppendCredentialKeepsMemory(m: Memory, p: Process, next: Process, w: Outside, id: string, event: C.CredentialEvent)
    requires MemoryOk(m) && OwnerOk(m, p.pc)
    requires MayAppendCredential(m, p, next, id, event)
    ensures MemoryOk(After(m, AppendCredential(id, event), w))
  {
    var m' := After(m, AppendCredential(id, event), w);
    Grows(m, AppendCredential(id, event), w);
    assert forall o :: OfferLog(m', o) == OfferLog(m, o);
    IndexesAndOffersGrow(m, m');
    AppendCredentialKeepsEvents(m, m');
    AppendCredentialKeepsShapes(m, p, next, w, id, event);
    SameBindings(m, m');
  }

  lemma SameBindings(m: Memory, m': Memory)
    requires BoundOnce(m) && forall o :: OfferLog(m', o) == OfferLog(m, o)
    ensures BoundOnce(m')
  {
    assert forall o, c :: Bound(m', o, c) ==> Bound(m, o, c);
  }

  lemma AppendCredentialKeepsEvents(m: Memory, m': Memory)
    requires Extends(m, m') && (forall o :: OfferLog(m', o) == OfferLog(m, o)) && EventsOk(m)
    ensures EventsOk(m')
  {
    FactsGrow(m, m');
    forall o, e | e in OfferLog(m', o) ensures EventOk(m', o, e) {
      assert EventOk(m, o, e);
    }
  }

  lemma AppendCredentialKeepsShapes(m: Memory, p: Process, next: Process, w: Outside, id: string, event: C.CredentialEvent)
    requires AllDrawn(m) && (forall c :: Shape(CredentialLog(m, c))) && OwnerOk(m, p.pc)
    requires MayAppendCredential(m, p, next, id, event)
    ensures var m' := After(m, AppendCredential(id, event), w);
            AllDrawn(m') && forall c :: Shape(CredentialLog(m', c))
  {
    var m' := After(m, AppendCredential(id, event), w);
    forall c ensures Shape(CredentialLog(m', c)) {
      assert Shape(CredentialLog(m, c));
    }
    forall c | CredentialLog(m', c) != [] ensures c in m'.drawn {
      if c != id {
        assert CredentialLog(m, c) != [];
      } else if CredentialLog(m, id) != [] {
        assert id in m.drawn;
      }
    }
    assert forall o :: OfferLog(m', o) == OfferLog(m, o);
  }

  lemma PutKeepsMemory(m: Memory, effect: Effect, w: Outside)
    requires MemoryOk(m) && StoreRight(m, effect)
    requires !effect.AppendOffer? && !effect.AppendCredential?
    ensures MemoryOk(After(m, effect, w))
  {
    var m' := After(m, effect, w);
    SameLogsSameMemory(m, m');
    PutKeepsIndexes(m, effect, w);
    PutKeepsOffers(m, effect, w);
  }

  lemma PutKeepsIndexes(m: Memory, effect: Effect, w: Outside)
    requires IndexesSound(m) && StoreRight(m, effect)
    requires !effect.AppendOffer? && !effect.AppendCredential?
    ensures IndexesSound(After(m, effect, w))
  {
    var m' := After(m, effect, w);
    FactsGrow(m, m');
  }

  lemma PutKeepsOffers(m: Memory, effect: Effect, w: Outside)
    requires OffersOk(m) && StoreRight(m, effect)
    requires !effect.AppendOffer? && !effect.AppendCredential?
    ensures OffersOk(After(m, effect, w))
  {
    var m' := After(m, effect, w);
    forall o | o in m'.offers ensures ViewOk(m', o, m'.offers[o]) {
      assert ViewOk(m, o, m'.offers[o]);
    }
  }

  lemma SameLogsSameMemory(m: Memory, m': Memory)
    requires MemoryOk(m) && m'.offerLogs == m.offerLogs && m'.credentialLogs == m.credentialLogs && m.drawn <= m'.drawn
    ensures UniqueIssue(m') && AllDrawn(m') && EventsOk(m') && BoundOnce(m')
    ensures forall o :: VerifiedFirst(OfferLog(m', o))
    ensures forall c :: Shape(CredentialLog(m', c))
  {
    assert forall o :: OfferLog(m', o) == OfferLog(m, o);
    assert forall c :: CredentialLog(m', c) == CredentialLog(m, c);
    AppendCredentialKeepsEvents(m, m');
    SameBindings(m, m');
  }

  lemma StepKeepsMemory(m: Memory, p: Process, action: Action, w: Outside)
    requires MemoryOk(m) && ProcessOk(m, p) && Justified(m, p, action, w) && Draws(w) !! m.drawn
    ensures MemoryOk(After(m, action.effect, w))
  {
    match action.effect
    case AppendOffer(id, event) => AppendOfferKeepsMemory(m, p, action.next, w, id, event);
    case AppendCredential(id, event) => AppendCredentialKeepsMemory(m, p, action.next, w, id, event);
    case _ => PutKeepsMemory(m, action.effect, w);
  }

  // ----- processes -----

  /** Only the owner binds a credential to an offer or appends to it while it is unbound. */
  ghost predicate HandsOff(m: Memory, p: Process, effect: Effect) {
    && (effect.AppendOffer? && effect.event.CredentialsAdded? ==>
          |effect.event.credentialIds| == 1 && Owned(p.pc) == Some(effect.event.credentialIds[0]))
    && (effect.AppendCredential? ==>
          || (Owned(p.pc) == Some(effect.id) && p.pc.CredentialsCreate?)
          || (|CredentialLog(m, effect.id)| == 1 && exists o :: Bound(m, o, effect.id)))
  }

  lemma UnboundKept(m: Memory, effect: Effect, w: Outside, id: string)
    requires effect.AppendOffer? ==> effect.event != O.CredentialsAdded([id])
    requires forall o :: !Bound(m, o, id)
    ensures forall o :: !Bound(After(m, effect, w), o, id)
  {
    var m' := After(m, effect, w);
    forall o ensures !Bound(m', o, id) {
      assert !Bound(m, o, id);
    }
  }

  lemma OtherOwnerKept(m: Memory, p: Process, effect: Effect, w: Outside, q: Process)
    requires OwnerOk(m, q.pc) && HandsOff(m, p, effect)
    requires Owned(q.pc).Some? ==> Owned(q.pc) != Owned(p.pc)
    ensures OwnerOk(After(m, effect, w), q.pc)
  {
    Grows(m, effect, w);
    if Owned(q.pc).Some? {
      UnboundKept(m, effect, w, Owned(q.pc).value);
    }
  }

  /** Nothing is appended to a credential while its view is being written. */
  lemma WriterLogKept(m: Memory, p: Process, effect: Effect, w: Outside, q: Process)
    requires OwnerOk(m, q.pc) && OwnerOk(m, p.pc) && WriterOk(m, q) && Writer(q).Some?
    requires HandsOff(m, p, effect)
    ensures CredentialLog(After(m, effect, w), Writer(q).value) == CredentialLog(m, Writer(q).value)
  {
  }

  lemma OtherWriterKept(m: Memory, p: Process, effect: Effect, w: Outside, q: Process)
    requires OwnerOk(m, q.pc) && OwnerOk(m, p.pc) && WriterOk(m, q)
    requires HandsOff(m, p, effect) && (effect.PutCredential? ==> Writer(p) == Some(effect.id))
    requires Writer(q).Some? ==> Writer(q) != Writer(p)
    ensures WriterOk(After(m, effect, w), q)
  {
    if Writer(q).Some? {
      WriterLogKept(m, p, effect, w, q);
    }
  }

  lemma OtherProcessKept(m: Memory, p: Process, action: Action, w: Outside, q: Process)
    requires ProcessOk(m, p) && ProcessOk(m, q) && Justified(m, p, action, w)
    requires Owned(q.pc).Some? ==> Owned(q.pc) != Owned(p.pc)
    requires Writer(q).Some? ==> Writer(q) != Writer(p)
    ensures ProcessOk(After(m, action.effect, w), q)
  {
    Grows(m, action.effect, w);
    ProcessFactsGrow(m, After(m, action.effect, w), q);
    OtherOwnerKept(m, p, action.effect, w, q);
    OtherWriterKept(m, p, action.effect, w, q);
  }

  /** A credential nobody created yet is bound nowhere. */
  lemma FreshUnbound(m: Memory, id: string)
    requires AllDrawn(m) && EventsOk(m) && id !in m.drawn
    ensures CredentialLog(m, id) == [] && forall o :: !Bound(m, o, id)
  {
    assert forall o :: Bound(m, o, id) ==> EventOk(m, o, O.CredentialsAdded([id]));
  }

  /** Binding ends the ownership, creating the credential does not. */
  ghost predicate Handover(p: Process, action: Action) {
    && (action.effect.AppendOffer? && action.effect.event.CredentialsAdded? ==> Owned(action.next.pc).None?)
    && (action.effect.AppendCredential? ==>
          Owned(action.next.pc).None?
          || (p.pc.CredentialsCreate? && Owned(action.next.pc) == Some(action.effect.id) == Owned(p.pc)))
  }

  lemma OwnsKept(m: Memory, effect: Effect, w: Outside, id: string, created: bool)
    requires Owns(m, id, created)
    requires effect.AppendOffer? ==> effect.event != O.CredentialsAdded([id])
    requires effect.AppendCredential? && effect.id == id ==> !created
    ensures Owns(After(m, effect, w), id, created || (effect.AppendCredential? && effect.id == id))
  {
    Grows(m, effect, w);
    UnboundKept(m, effect, w, id);
  }

  lemma NextOwnerOk(m: Memory, p: Process, action: Action, w: Outside)
    requires OwnerOk(m, p.pc) && OwnershipRight(p, action, w) && Handover(p, action)
    requires AllDrawn(m) && EventsOk(m) && Draws(w) !! m.drawn
    ensures OwnerOk(After(m, action.effect, w), action.next.pc)
  {
    if Owned(action.next.pc).Some? {
      var id := Owned(action.next.pc).value;
      if Owned(p.pc) == Some(id) {
        OwnsKept(m, action.effect, w, id, !p.pc.CredentialsCreate?);
      } else {
        FreshUnbound(m, id);
        UnboundKept(m, action.effect, w, id);
      }
    }
  }

  /** Before an append to a credential its view is up to date: nobody is writing it. */
  lemma UpToDate(s: State, p: nat, id: string)
    requires p in s.processes && CredentialsShown(s)
    requires forall q :: q in s.processes ==> ProcessOk(s.memory, s.processes[q])
    requires CredentialLog(s.memory, id) == []
             || (|CredentialLog(s.memory, id)| == 1 && exists o :: Bound(s.memory, o, id))
    ensures Shown(s.memory, id, CredentialLog(s.memory, id)) && !BeingWritten(s.processes, id)
  {
    forall q | q in s.processes ensures Writer(s.processes[q]) != Some(id) {
      assert ProcessOk(s.memory, s.processes[q]);
    }
  }

  lemma AppenderOk(s: State, pid: nat, action: Action, w: Outside)
    requires pid in s.processes && CredentialsShown(s)
    requires forall q :: q in s.processes ==> ProcessOk(s.memory, s.processes[q])
    requires AppendRight(s.memory, s.processes[pid], action, w) && action.effect.AppendCredential?
    ensures WriterOk(After(s.memory, action.effect, w), action.next)
    ensures !BeingWritten(s.processes, action.effect.id)
  {
    var m, m', id := s.memory, After(s.memory, action.effect, w), action.effect.id;
    assert ProcessOk(m, s.processes[pid]);
    UpToDate(s, pid, id);
    var log := CredentialLog(m, id);
    assert CredentialLog(m', id) == log + [action.effect.credentialEvent];
    assert (log + [action.effect.credentialEvent])[..|log|] == log;
  }

  lemma NextWriterOk(m: Memory, p: Process, action: Action, w: Outside)
    requires WriterOk(m, p) && WriterRight(m, p, action)
    requires !action.effect.AppendCredential? && (LoadsCredential(m, p, action.next) ==> action.effect.NoEffect?)
    ensures WriterOk(After(m, action.effect, w), action.next)
  {
    if Writer(action.next).Some? {
      var id := Writer(p).value;
      var log := CredentialLog(m, id);
      assert Shown(m, id, log[..|log| - 1]);
    }
  }

  lemma NextProcessOk(s: State, pid: nat, action: Action, w: Outside)
    requires Inv(s) && pid in s.processes && Draws(w) !! s.memory.drawn
    requires Justified(s.memory, s.processes[pid], action, w)
    requires LoadsCredential(s.memory, s.processes[pid], action.next) ==> action.effect.NoEffect?
    ensures ProcessOk(After(s.memory, action.effect, w), action.next)
  {
    var m, p, m' := s.memory, s.processes[pid], After(s.memory, action.effect, w);
    assert ProcessOk(m, p);
    Grows(m, action.effect, w);
    NextOwnerOk(m, p, action, w);
    if action.effect.AppendCredential? {
      AppenderOk(s, pid, action, w);
    } else {
      NextWriterOk(m, p, action, w);
    }
    if action.effect.AppendOffer? || action.effect.AppendCredential? {
      ProcessFactsGrow(m, m', Process(action.next.pc, Idle));
    } else {
      ProcessFactsGrow(m, m', action.next);
    }
  }

  // ----- the conditions that span processes -----

  lemma ApartUpdated(processes: map<nat, Process>, pid: nat, next: Process)
    requires Apart(processes)
    requires forall q :: q in processes && q != pid ==>
                           && (Owned(next.pc).Some? ==> Owned(next.pc) != Owned(processes[q].pc))
                           && (Writer(next).Some? ==> Writer(next) != Writer(processes[q]))
    ensures Apart(processes[pid := next])
  {
  }

  lemma ApartKept(s: State, pid: nat, action: Action, w: Outside)
    requires Apart(s.processes) && CredentialsShown(s) && pid in s.processes && Draws(w) !! s.memory.drawn
    requires forall q :: q in s.processes ==> ProcessOk(s.memory, s.processes[q])
    requires Justified(s.memory, s.processes[pid], action, w)
    ensures Apart(s.processes[pid := action.next])
  {
    var m, p := s.memory, s.processes[pid];
    if action.effect.AppendCredential? {
      AppenderOk(s, pid, action, w);
    }
    NextWriter(m, p, action, w);
    forall q | q in s.processes && q != pid
      ensures Owned(action.next.pc).Some? ==> Owned(action.next.pc) != Owned(s.processes[q].pc)
      ensures Writer(action.next).Some? ==> Writer(action.next) != Writer(s.processes[q])
    {
      assert ProcessOk(m, s.processes[q]);
    }
    ApartUpdated(s.processes, pid, action.next);
  }

  lemma NextWriter(m: Memory, p: Process, action: Action, w: Outside)
    requires WriterRight(m, p, action) && AppendRight(m, p, action, w)
    ensures Writer(action.next) == if action.effect.AppendCredential? then Some(action.effect.id)
                                   else if action.effect.PutCredential? then None else Writer(p)
  {
  }

  lemma ShownKept(s: State, pid: nat, action: Action, w: Outside)
    requires pid in s.processes && CredentialsShown(s)
    requires AppendRight(s.memory, s.processes[pid], action, w) && WriterRight(s.memory, s.processes[pid], action)
    ensures CredentialsShown(State(After(s.memory, action.effect, w), s.processes[pid := action.next]))
  {
    var m, m', processes' := s.memory, After(s.memory, action.effect, w), s.processes[pid := action.next];
    NextWriter(m, s.processes[pid], action, w);
    forall id ensures Shown(m', id, CredentialLog(m', id)) || BeingWritten(processes', id) {
      if BeingWritten(s.processes, id) {
        var q :| q in s.processes && Writer(s.processes[q]) == Some(id);
        if q != pid || !action.effect.PutCredential? {
          assert Writer(processes'[q]) == Some(id) || Writer(processes'[pid]) == Some(id) || q == pid;
        }
      }
      if action.effect.AppendCredential? && action.effect.id == id {
        assert Writer(processes'[pid]) == Some(id);
      }
    }
  }

  /** The dispatch of a creation goes on until it has stored the code and then the token. */
  lemma DispatchProceeds(m: Memory, p: Process, w: Outside, o: string, e: O.OfferEvent)
    requires Dispatches(p, o, e) && e.CredentialOfferCreated?
    ensures var action := Act(m, p, w);
            && (CodeUnderWay(p, o, e) ==> CodeUnderWay(action.next, o, e) || action.effect == PutCode(e.preAuthorizedCode, o))
            && (Dispatches(action.next, o, e) || action.effect == PutToken(e.accessToken, o))
  {
  }

  ghost predicate CodeListed(s: State, o: string, e: O.OfferEvent)
    requires e.CredentialOfferCreated?
  {
    || (e.preAuthorizedCode in s.memory.codes && s.memory.codes[e.preAuthorizedCode] == o)
    || exists q :: q in s.processes && CodeUnderWay(s.processes[q], o, e)
  }

  ghost predicate TokenListed(s: State, o: string, e: O.OfferEvent)
    requires e.CredentialOfferCreated?
  {
    || (e.accessToken in s.memory.tokens && s.memory.tokens[e.accessToken] == o)
    || exists q :: q in s.processes && Dispatches(s.processes[q], o, e)
  }

  /** An entry once stored is never redirected. */
  lemma EntriesStay(m: Memory, effect: Effect, w: Outside, o: string, e: O.OfferEvent)
    requires UniqueIssue(m) && StoreRight(m, effect) && e in OfferLog(m, o) && e.CredentialOfferCreated?
    ensures var m' := After(m, effect, w);
            && (e.preAuthorizedCode in m.codes && m.codes[e.preAuthorizedCode] == o ==>
                  e.preAuthorizedCode in m'.codes && m'.codes[e.preAuthorizedCode] == o)
            && (e.accessToken in m.tokens && m.tokens[e.accessToken] == o ==>
                  e.accessToken in m'.tokens && m'.tokens[e.accessToken] == o)
  {
  }

  lemma ListedKept(s: State, pid: nat, w: Outside, o: string, e: O.OfferEvent)
    requires UniqueIssue(s.memory) && pid in s.processes
    requires StoreRight(s.memory, Act(s.memory, s.processes[pid], w).effect)
    requires e in OfferLog(s.memory, o) && e.CredentialOfferCreated? && CodeListed(s, o, e) && TokenListed(s, o, e)
    ensures CodeListed(MoveTo(s, pid, w), o, e) && TokenListed(MoveTo(s, pid, w), o, e)
  {
    var m, p := s.memory, s.processes[pid];
    var action, s' := Act(m, p, w), MoveTo(s, pid, w);
    EntriesStay(m, action.effect, w, o, e);
    if Dispatches(p, o, e) {
      DispatchProceeds(m, p, w, o, e);
    }
    assert action.next == s'.processes[pid];
    forall q | q in s.processes && q != pid ensures s'.processes[q] == s.processes[q] {}
  }

  lemma NewlyListed(s: State, pid: nat, w: Outside, o: string, e: O.OfferEvent)
    requires pid in s.processes && e.CredentialOfferCreated?
    requires Act(s.memory, s.processes[pid], w).next.pending == OfferDispatch(o, e, LoadView)
    ensures CodeListed(MoveTo(s, pid, w), o, e) && TokenListed(MoveTo(s, pid, w), o, e)
  {
    assert CodeUnderWay(MoveTo(s, pid, w).processes[pid], o, e);
  }

  /** One creation that is on record after a step: it was listed before, or it is the one just committed. */
  lemma StillListed(s: State, pid: nat, w: Outside, o: string, e: O.OfferEvent)
    requires UniqueIssue(s.memory) && pid in s.processes && e.CredentialOfferCreated?
    requires StoreRight(s.memory, Act(s.memory, s.processes[pid], w).effect)
    requires if e in OfferLog(s.memory, o) then CodeListed(s, o, e) && TokenListed(s, o, e)
             else Act(s.memory, s.processes[pid], w).next.pending == OfferDispatch(o, e, LoadView)
    ensures CodeListed(MoveTo(s, pid, w), o, e) && TokenListed(MoveTo(s, pid, w), o, e)
  {
    if e in OfferLog(s.memory, o) {
      ListedKept(s, pid, w, o, e);
    } else {
      NewlyListed(s, pid, w, o, e);
    }
  }

  lemma CompleteMeansListed(s: State, o: string, e: O.OfferEvent)
    requires IndexesComplete(s) && e in OfferLog(s.memory, o) && e.CredentialOfferCreated?
    ensures CodeListed(s, o, e) && TokenListed(s, o, e)
  {
  }

  lemma NewOnRecord(m: Memory, effect: Effect, w: Outside, o: string, e: O.OfferEvent)
    requires e in OfferLog(After(m, effect, w), o)
    ensures e in OfferLog(m, o) || effect == AppendOffer(o, e)
  {
  }

  lemma CompleteKept(s: State, pid: nat, w: Outside)
    requires UniqueIssue(s.memory) && IndexesComplete(s) && pid in s.processes
    requires StoreRight(s.memory, Act(s.memory, s.processes[pid], w).effect)
    requires var a := Act(s.memory, s.processes[pid], w);
             a.effect.AppendOffer? ==> a.next.pending == OfferDispatch(a.effect.id, a.effect.event, LoadView)
    ensures IndexesComplete(MoveTo(s, pid, w))
  {
    var s' := MoveTo(s, pid, w);
    forall o, e | e in OfferLog(s'.memory, o) && e.CredentialOfferCreated?
      ensures CodeListed(s', o, e) && TokenListed(s', o, e)
    {
      NewOnRecord(s.memory, Act(s.memory, s.processes[pid], w).effect, w, o, e);
      if e in OfferLog(s.memory, o) {
        CompleteMeansListed(s, o, e);
      }
      StillListed(s, pid, w, o, e);
    }
    ListedMeansComplete(s');
  }

  lemma ListedMeansComplete(s: State)
    requires forall o, e :: e in OfferLog(s.memory, o) && e.CredentialOfferCreated? ==>
                              CodeListed(s, o, e) && TokenListed(s, o, e)
    ensures IndexesComplete(s)
  {
    forall o, e | e in OfferLog(s.memory, o) && e.CredentialOfferCreated?
      ensures CodeListed(s, o, e) && TokenListed(s, o, e) {}
  }

  // ----- runs -----

  lemma MoveKeepsInv(s: State, pid: nat, w: Outside)
    requires Inv(s) && pid in s.processes && Draws(w) !! s.memory.drawn
    ensures Inv(MoveTo(s, pid, w))
  {
    var m, p := s.memory, s.processes[pid];
    var action := Act(m, p, w);
    StepJustified(s, pid, w);
    assert ProcessOk(m, p);
    StepKeepsMemory(m, p, action, w);
    NextProcessOk(s, pid, action, w);
    ApartKept(s, pid, action, w);
    ShownKept(s, pid, action, w);
    CompleteKept(s, pid, w);
    forall q | q in s.processes && q != pid ensures ProcessOk(After(m, action.effect, w), s.processes[q]) {
      assert ProcessOk(m, s.processes[q]);
      OtherProcessKept(m, p, action, w, s.processes[q]);
    }
  }

  /** Processes carry over to a bigger map. */
  ghost predicate Kept(s: State, s': State) {
    s'.memory == s.memory && forall q :: q in s.processes ==> q in s'.processes && s'.processes[q] == s.processes[q]
  }

  lemma KeptShown(s: State, s': State)
    requires Kept(s, s') && CredentialsShown(s)
    ensures CredentialsShown(s')
  {
    forall id ensures Shown(s'.memory, id, CredentialLog(s'.memory, id)) || BeingWritten(s'.processes, id) {
      if BeingWritten(s.processes, id) {
        var q :| q in s.processes && Writer(s.processes[q]) == Some(id);
        assert Writer(s'.processes[q]) == Some(id);
      }
    }
  }

  lemma KeptComplete(s: State, s': State)
    requires Kept(s, s') && IndexesComplete(s)
    ensures IndexesComplete(s')
  {
    forall o, e | e in OfferLog(s'.memory, o) && e.CredentialOfferCreated?
      ensures CodeListed(s', o, e) && TokenListed(s', o, e)
    {
      assert CodeListed(s, o, e) && TokenListed(s, o, e);
    }
    ListedMeansComplete(s');
  }

  lemma EntranceOk(m: Memory, request: Request)
    ensures ProcessOk(m, Process(Entrance(request), Idle))
    ensures Owned(Entrance(request)).None? && Writer(Process(Entrance(request), Idle)).None?
  {
  }

  lemma ApartArrival(processes: map<nat, Process>, pid: nat, p: Process)
    requires Apart(processes) && Owned(p.pc).None? && Writer(p).None?
    ensures Apart(processes[pid := p])
  {
  }

  lemma ArrivalKeepsInv(s: State, pid: nat, request: Request)
    requires Inv(s) && pid !in s.processes
    ensures Inv(Exec(s, Arrive(pid, request)))
  {
    var s' := Exec(s, Arrive(pid, request));
    EntranceOk(s.memory, request);
    ApartArrival(s.processes, pid, Process(Entrance(request), Idle));
    assert Kept(s, s');
    KeptShown(s, s');
    KeptComplete(s, s');
    forall q | q in s'.processes ensures ProcessOk(s'.memory, s'.processes[q]) {
      if q != pid {
        assert ProcessOk(s.memory, s.processes[q]);
      }
    }
  }

  /** Every run, of any length and any interleaving, ends in a state that satisfies the invariant. */
  lemma {:induction false} Reachable(steps: seq<Step>)
    ensures Inv(Run(steps))
  {
    if steps == [] {
      InitialInv();
    } else {
      var front, last := steps[..|steps| - 1], steps[|steps| - 1];
      Reachable(front);
      ExecKeepsInv(Run(front), last);
    }
  }

  lemma ExecKeepsInv(s: State, step: Step)
    requires Inv(s)
    ensures Inv(Exec(s, step))
  {
    if Enabled(s, step) {
      match step
      case Arrive(pid, request) => ArrivalKeepsInv(s, pid, request);
      case Move(pid, w) => MoveKeepsInv(s, pid, w);
    }
  }
}
