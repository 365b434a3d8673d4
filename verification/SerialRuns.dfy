/**
 Requests that run one after the other. Each offer is then created exactly once, as the first thing that happens to it. (For
 interleaved requests see module `Creations`.)
 */
module SerialRuns {
  import opened Wrappers
  import opened Json
  import opened EventSourcing
  import opened IssuerMachine
  import opened IssuerInvariant
  import opened IssuerPreservation
  import opened IssuerTheorems
  import opened IssuerAtomic
  import O = IssuerOffer

  /** Every offer was created once, as the first thing that happened to it. */
  ghost predicate CreatedOnce(m: Memory) {
    forall o :: OnceCreated(OfferLog(m, o))
  }

  ghost predicate OnceCreated(log: seq<O.OfferEvent>) {
    log == [] || (log[0].CredentialOfferCreated? && forall i :: 0 < i < |log| ==> !log[i].CredentialOfferCreated?)
  }

  predicate Finished(p: Process) {
    p.pc.Done? && p.pending.Idle?
  }

  ghost predicate Alone(s: State, pid: nat) {
    forall q :: q in s.processes && q != pid ==> Finished(s.processes[q])
  }

  /** Requests run one after the other. */
  ghost predicate Serial(steps: seq<Step>) {
    steps != [] ==>
      var front, last := steps[..|steps| - 1], steps[|steps| - 1];
      Serial(front) && Alone(Run(front), last.pid)
  }

  lemma {:induction false} SerialIsAtomic(steps: seq<Step>)
    requires Serial(steps)
    ensures Atomic(steps)
  {
    if steps != [] {
      SerialIsAtomic(steps[..|steps| - 1]);
    }
  }

  /** What the program point says about the offer's log when nobody interferes. */
  ghost predicate LogAtPc(m: Memory, pc: Pc) {
    match pc
    case OffersCreate(o, _) => OfferLog(m, o) == []
    case CredentialsOffer(o, _, _) => OfferLog(m, o) == []
    case OffersEncode(o) => OfferLog(m, o) != []
    case CredentialsAdd(o, _) => OfferLog(m, o) != []
    case TokenCreate(_, o) => OfferLog(m, o) != []
    case RequestVerify(_, o) => OfferLog(m, o) != []
    case RequestRespond(_, o, _, _, _) => OfferLog(m, o) != []
    case _ => true
  }

  /** A creation is appended to an empty log only, anything else to a log that is not empty. */
  predicate AppendsInOrder(m: Memory, effect: Effect) {
    effect.AppendOffer? ==> (effect.event.CredentialOfferCreated? <==> OfferLog(m, effect.id) == [])
  }

  lemma BackOfficeInOrder(m: Memory, p: Process, w: Outside)
    requires p.pending.Idle? && (AtCredentials(p.pc) || AtOffers(p.pc)) && LogAtPc(m, p.pc)
    ensures AppendsInOrder(m, Act(m, p, w).effect)
  {
    match p.pc
    case CredentialsOffer(o, id, metadata) =>
    case CredentialsAdd(o, id) =>
    case OffersCreate(o, metadata) =>
    case OffersEncode(o) =>
    case _ =>
  }

  lemma WalletSideInOrder(m: Memory, p: Process, w: Outside)
    requires p.pending.Idle? && (AtToken(p.pc) || AtRequest(p.pc)) && LogAtPc(m, p.pc)
    ensures AppendsInOrder(m, Act(m, p, w).effect)
  {
    match p.pc
    case TokenCreate(code, o) =>
    case RequestVerify(bearer, o) =>
    case RequestRespond(bearer, o, _, _, signed) =>
    case _ =>
  }

  lemma DispatchAppendsNothing(m: Memory, p: Process, w: Outside)
    requires !p.pending.Idle?
    ensures !Act(m, p, w).effect.AppendOffer? && Act(m, p, w).next.pc == p.pc
  {
  }

  lemma InOrderKeepsOnce(m: Memory, effect: Effect)
    requires CreatedOnce(m) && AppendsInOrder(m, effect)
    ensures CreatedOnce(Perform(m, effect))
  {
    forall o ensures OnceCreated(OfferLog(Perform(m, effect), o)) {
      assert OnceCreated(OfferLog(m, o));
    }
  }

  /** The lookups are right: a view is there exactly for an offer with a log. */
  predicate LookupRight(m: Memory, pc: Pc) {
    pc.OffersLookup? || pc.CredentialsLookup? ==> (pc.offerId in m.offers <==> OfferLog(m, pc.offerId) != [])
  }

  lemma OfferCommandLeavesLog(m: Memory, id: string, command: O.OfferCommand, w: Outside, ok: Pc, failed: Pc)
    requires command.CreateCredentialOffer?
    ensures var a := OfferCommand(m, id, command, w, ok, failed);
            OfferLog(Perform(m, a.effect), id) != [] && a.next.pc == ok
  {
  }

  lemma NextLogAtPc(m: Memory, p: Process, w: Outside)
    requires p.pending.Idle? && (AtCredentials(p.pc) || AtOffers(p.pc)) && LogAtPc(m, p.pc) && LookupRight(m, p.pc)
    ensures var a := Act(m, p, w); LogAtPc(Perform(m, a.effect), a.next.pc)
  {
    match p.pc
    case CredentialsOffer(o, id, metadata) =>
      OfferCommandLeavesLog(m, o, O.CreateCredentialOffer(metadata), w, CredentialsAdd(o, id), Done(ServerError));
    case OffersCreate(o, metadata) =>
      OfferCommandLeavesLog(m, o, O.CreateCredentialOffer(metadata), w, OffersEncode(o), Done(ServerError));
    case _ =>
  }

  lemma TokenStays(m: Memory, pc: Pc, w: Outside)
    requires AtToken(pc)
    ensures var next := TokenStep(m, pc, w).next.pc; AtToken(next) || next.Done?
  {
  }

  lemma RequestStays(m: Memory, pc: Pc, w: Outside)
    requires AtRequest(pc)
    ensures var next := RequestStep(m, pc, w).next.pc; AtRequest(next) || next.Done?
  {
  }

  lemma WalletSideStays(m: Memory, p: Process, w: Outside)
    requires p.pending.Idle? && !AtCredentials(p.pc) && !AtOffers(p.pc)
    ensures var next := Act(m, p, w).next.pc; !AtCredentials(next) && !AtOffers(next)
  {
    if AtToken(p.pc) {
      TokenStays(m, p.pc, w);
    } else if AtRequest(p.pc) {
      RequestStays(m, p.pc, w);
    }
  }

  /** One undisturbed step. The token and credential endpoints get their offer from an index, so it has a log. */
  lemma MoveCreatesOnce(s: State, pid: nat, w: Outside)
    requires Inv(s) && pid in s.processes && Draws(w) !! s.memory.drawn
    requires CreatedOnce(s.memory) && LogAtPc(s.memory, s.processes[pid].pc)
    requires s.processes[pid].pending.Idle? ==> LookupRight(s.memory, s.processes[pid].pc)
    ensures CreatedOnce(MoveTo(s, pid, w).memory) && LogAtPc(MoveTo(s, pid, w).memory, MoveTo(s, pid, w).processes[pid].pc)
  {
    var m, p, s' := s.memory, s.processes[pid], MoveTo(s, pid, w);
    var a := Act(m, p, w);
    assert PcFacts(s'.memory, a.next.pc) by {
      MoveKeepsInv(s, pid, w);
      assert ProcessOk(s'.memory, s'.processes[pid]);
    }
    StepInOrder(m, p, w);
    InOrderKeepsOnce(m, a.effect);
    forall o ensures OnceCreated(OfferLog(s'.memory, o)) {
      assert OnceCreated(OfferLog(Perform(m, a.effect), o));
    }
  }

  ghost predicate InOrder(m: Memory, a: Action) {
    && AppendsInOrder(m, a.effect)
    && (LogAtPc(Perform(m, a.effect), a.next.pc) || (!AtCredentials(a.next.pc) && !AtOffers(a.next.pc)))
  }

  lemma DispatchLeavesLogs(m: Memory, p: Process, w: Outside)
    requires !p.pending.Idle?
    ensures Perform(m, Act(m, p, w).effect).offerLogs == m.offerLogs
  {
    var effect := Act(m, p, w).effect;
    DispatchAppendsNothing(m, p, w);
    OnlyAppendsChangeLogs(m, effect);
  }

  lemma OnlyAppendsChangeLogs(m: Memory, effect: Effect)
    requires !effect.AppendOffer?
    ensures Perform(m, effect).offerLogs == m.offerLogs
  {
  }

  lemma DispatchInOrder(m: Memory, p: Process, w: Outside)
    requires !p.pending.Idle? && LogAtPc(m, p.pc)
    ensures InOrder(m, Act(m, p, w))
  {
    DispatchAppendsNothing(m, p, w);
    DispatchLeavesLogs(m, p, w);
  }

  lemma IdleInOrder(m: Memory, p: Process, w: Outside)
    requires p.pending.Idle? && !AtCredentials(p.pc) && !AtOffers(p.pc) && LogAtPc(m, p.pc)
    ensures InOrder(m, Act(m, p, w))
  {
    WalletSideStays(m, p, w);
    if AtToken(p.pc) || AtRequest(p.pc) {
      WalletSideInOrder(m, p, w);
    } else {
      assert Act(m, p, w).effect == NoEffect;
    }
  }

  lemma StepInOrder(m: Memory, p: Process, w: Outside)
    requires LogAtPc(m, p.pc) && (p.pending.Idle? ==> LookupRight(m, p.pc))
    ensures InOrder(m, Act(m, p, w))
  {
    if !p.pending.Idle? {
      DispatchInOrder(m, p, w);
    } else if AtCredentials(p.pc) || AtOffers(p.pc) {
      BackOfficeInOrder(m, p, w);
      NextLogAtPc(m, p, w);
    } else {
      IdleInOrder(m, p, w);
    }
  }

  ghost predicate AllInOrder(s: State) {
    CreatedOnce(s.memory) && forall p :: p in s.processes ==> LogAtPc(s.memory, s.processes[p].pc)
  }

  lemma ExactLookup(s: State, pid: nat)
    requires AtomicInv(s) && pid in s.processes && Calm(s, pid) && s.processes[pid].pending.Idle?
    ensures LookupRight(s.memory, s.processes[pid].pc)
  {
    var pc := s.processes[pid].pc;
    if pc.OffersLookup? || pc.CredentialsLookup? {
      assert OfferAt(s.memory, Idle, pc.offerId);
    }
  }

  lemma ArrivalInOrder(s: State, pid: nat, request: Request)
    requires AllInOrder(s)
    ensures AllInOrder(s.(processes := s.processes[pid := Process(Entrance(request), Idle)]))
  {
  }

  lemma MoveInOrder(s: State, pid: nat, w: Outside)
    requires pid in s.processes && Alone(s, pid) && CreatedOnce(MoveTo(s, pid, w).memory)
    requires LogAtPc(MoveTo(s, pid, w).memory, MoveTo(s, pid, w).processes[pid].pc)
    ensures AllInOrder(MoveTo(s, pid, w))
  {
    var s' := MoveTo(s, pid, w);
    forall q | q in s'.processes ensures LogAtPc(s'.memory, s'.processes[q].pc) {
      if q != pid {
        assert Finished(s.processes[q]) && s'.processes[q] == s.processes[q];
      }
    }
  }

  lemma SerialStep(s: State, step: Step)
    requires Inv(s) && AtomicInv(s) && AllInOrder(s) && Alone(s, step.pid)
    ensures AllInOrder(Exec(s, step))
  {
    if Enabled(s, step) {
      match step
      case Arrive(pid, request) => ArrivalInOrder(s, pid, request);
      case Move(pid, w) => SerialMove(s, pid, w);
    }
  }

  lemma SerialMove(s: State, pid: nat, w: Outside)
    requires Inv(s) && AtomicInv(s) && AllInOrder(s) && Alone(s, pid) && pid in s.processes && Draws(w) !! s.memory.drawn
    ensures AllInOrder(MoveTo(s, pid, w))
  {
    assert s.processes[pid].pending.Idle? ==> LookupRight(s.memory, s.processes[pid].pc) by {
      if s.processes[pid].pending.Idle? {
        ExactLookup(s, pid);
      }
    }
    MoveCreatesOnce(s, pid, w);
    MoveInOrder(s, pid, w);
  }

  lemma {:induction false} SerialInOrder(steps: seq<Step>)
    requires Serial(steps)
    ensures AllInOrder(Run(steps))
  {
    if steps != [] {
      var front, last := steps[..|steps| - 1], steps[|steps| - 1];
      SerialInOrder(front);
      SerialIsAtomic(front);
      Reachable(front);
      AtomicReachable(front);
      SerialStep(Run(front), last);
    }
  }

  /** Every run of requests one after the other, whatever the requests, creates every offer exactly once and first. */
  lemma SerialCreatesOnce(steps: seq<Step>, offerId: string)
    requires Serial(steps) && OfferLog(Run(steps).memory, offerId) != []
    ensures var log := OfferLog(Run(steps).memory, offerId);
            log[0].CredentialOfferCreated? && forall i :: 0 < i < |log| ==> !log[i].CredentialOfferCreated?
  {
    SerialInOrder(steps);
    assert OnceCreated(OfferLog(Run(steps).memory, offerId));
  }

  /** After any such run, once nothing is under way, the two indexes are bijections with the offers: every offer has exactly
      one code and one token, and no two offers share one. */
  lemma IndexesAreBijections(steps: seq<Step>, offerId: string)
    requires Serial(steps) && Quiet(Run(steps)) && OfferLog(Run(steps).memory, offerId) != []
    ensures var m := Run(steps).memory;
            && (exists code :: code in m.codes && m.codes[code] == offerId
                               && forall c :: c in m.codes && m.codes[c] == offerId ==> c == code)
            && (exists token :: token in m.tokens && m.tokens[token] == offerId
                                && forall t :: t in m.tokens && m.tokens[t] == offerId ==> t == token)
  {
    IndexesFollowLogs(steps);
    SerialInOrder(steps);
    var m := Run(steps).memory;
    var log := OfferLog(m, offerId);
    assert OnceCreated(log);
    assert log[0] in log;
    assert CodeOf(m, offerId, log[0].preAuthorizedCode);
    assert TokenOf(m, offerId, log[0].accessToken);
    assert forall e :: e in log && e.CredentialOfferCreated? ==> e == log[0];
  }
}
