/**
 Runs in which a command is atomic with its dispatch, while whole requests still interleave command by command. In these
 runs the views are exact: the list-all views and the single views agree with the logs. (Without atomic dispatch they need
 not be; modules `SharedViews`, `AllCredentials` and `AllOffers` say exactly when they are.)
 */
module IssuerAtomic {
  import opened Wrappers
  import opened EventSourcing
  import opened IssuerMachine
  import O = IssuerOffer
  import C = IssuerCredential

  /** Nobody but `pid` is in the middle of a dispatch. */
  ghost predicate Calm(s: State, pid: nat) {
    forall q :: q in s.processes && q != pid ==> s.processes[q].pending.Idle?
  }

  ghost predicate Atomic(steps: seq<Step>) {
    steps != [] ==>
      var front, last := steps[..|steps| - 1], steps[|steps| - 1];
      Atomic(front) && (last.Move? ==> Calm(Run(front), last.pid))
  }

  /** How far the two views of one aggregate are behind its log: both lack the latest event, or only the list-all view
      does. `loaded` is what the dispatch has loaded and is about to store. */
  datatype Lag<S, E> =
    | UpToDate
    | BothBehind(event: E, loaded: Option<S>)
    | AllBehind(event: E, loadedAll: Option<map<string, S>>)

  ghost predicate Exactly<S, E>(step: (S, E) -> S, empty: S, id: string, log: seq<E>,
                                single: map<string, S>, all: map<string, S>, lag: Lag<S, E>)
  {
    match lag
    case UpToDate => Follows(single, step, empty, id, log) && Follows(all, step, empty, id, log)
    case BothBehind(event, loaded) =>
      && log != [] && log[|log| - 1] == event
      && Follows(single, step, empty, id, log[..|log| - 1]) && Follows(all, step, empty, id, log[..|log| - 1])
      && (loaded.Some? ==> loaded.value == EntryOr(single, id, empty))
    case AllBehind(event, loadedAll) =>
      && log != [] && log[|log| - 1] == event
      && Follows(single, step, empty, id, log) && Follows(all, step, empty, id, log[..|log| - 1])
      && (loadedAll.Some? ==> loadedAll.value == all)
  }

  lemma StoreSingle<S, E>(step: (S, E) -> S, empty: S, id: string, log: seq<E>,
                          single: map<string, S>, all: map<string, S>, event: E, loaded: S)
    requires Exactly(step, empty, id, log, single, all, BothBehind(event, Some(loaded)))
    ensures Exactly(step, empty, id, log, single[id := step(loaded, event)], all, AllBehind(event, None))
  {
    FollowsUpdate(single, step, empty, id, log[..|log| - 1], event);
    assert log == log[..|log| - 1] + [event];
  }

  lemma StoreListed<S, E>(step: (S, E) -> S, empty: S, id: string, log: seq<E>,
                          single: map<string, S>, all: map<string, S>, event: E, loaded: map<string, S>)
    requires Exactly(step, empty, id, log, single, all, AllBehind(event, Some(loaded)))
    ensures Exactly(step, empty, id, log, single, UpdateEntry(step, empty, loaded, id, event), UpToDate)
  {
    FollowsUpdate(all, step, empty, id, log[..|log| - 1], event);
    assert log == log[..|log| - 1] + [event];
  }

  lemma StoreOther<S, E>(step: (S, E) -> S, empty: S, id: string, log: seq<E>,
                         single: map<string, S>, all: map<string, S>, single': map<string, S>, all': map<string, S>)
    requires Exactly(step, empty, id, log, single, all, UpToDate)
    requires id in single <==> id in single'
    requires id in all <==> id in all'
    requires id in single ==> single'[id] == single[id]
    requires id in all ==> all'[id] == all[id]
    ensures Exactly(step, empty, id, log, single', all', UpToDate)
  {
  }

  lemma Append<S, E>(step: (S, E) -> S, empty: S, id: string, log: seq<E>,
                     single: map<string, S>, all: map<string, S>, event: E)
    requires Exactly(step, empty, id, log, single, all, UpToDate)
    ensures Exactly(step, empty, id, log + [event], single, all, BothBehind(event, None))
  {
    assert (log + [event])[..|log|] == log;
  }

  function OfferLag(p: Pending, id: string): Lag<O.OfferView, O.OfferEvent> {
    if !p.OfferDispatch? || p.id != id then UpToDate
    else
      match p.stage
      case LoadView => BothBehind(p.event, None)
      case StoreView(view) => BothBehind(p.event, Some(view))
      case LoadAll => AllBehind(p.event, None)
      case StoreAll(listed) => AllBehind(p.event, Some(listed))
      case _ => UpToDate
  }

  function CredentialLag(p: Pending, id: string): Lag<C.CredentialView, C.CredentialEvent> {
    if !p.CredentialDispatch? || p.credentialId != id then UpToDate
    else
      match p.credentialStage
      case LoadCredential => BothBehind(p.credentialEvent, None)
      case StoreCredential(view) => BothBehind(p.credentialEvent, Some(view))
      case LoadAllCredentials => AllBehind(p.credentialEvent, None)
      case StoreAllCredentials(listed) => AllBehind(p.credentialEvent, Some(listed))
  }

  ghost predicate OfferAt(m: Memory, p: Pending, id: string) {
    Exactly(O.Update, O.EMPTY_VIEW, id, OfferLog(m, id), m.offers, m.allOffers, OfferLag(p, id))
  }

  ghost predicate CredentialAt(m: Memory, p: Pending, id: string) {
    Exactly(C.Store, C.EMPTY_VIEW, id, CredentialLog(m, id), m.credentials, m.allCredentials, CredentialLag(p, id))
  }

  ghost predicate Exact(m: Memory, p: Pending) {
    && (forall id :: OfferAt(m, p, id))
    && (forall id :: CredentialAt(m, p, id))
  }

  /** At most one process is dispatching; the views are exact up to its event. */
  ghost predicate AtomicInv(s: State) {
    || (Exact(s.memory, Idle) && forall q :: q in s.processes ==> s.processes[q].pending.Idle?)
    || exists pid :: pid in s.processes && Calm(s, pid) && Exact(s.memory, s.processes[pid].pending)
  }

  predicate StartsDispatch(a: Action) {
    || (a.effect.NoEffect? && a.next.pending.Idle?)
    || (a.effect.AppendOffer? && a.next.pending == OfferDispatch(a.effect.id, a.effect.event, LoadView))
    || (a.effect.AppendCredential?
        && a.next.pending == CredentialDispatch(a.effect.id, a.effect.credentialEvent, LoadCredential))
  }

  /** A step outside a dispatch either leaves the memory alone or appends one event and starts its dispatch. */
  lemma IdleActs(m: Memory, p: Process, w: Outside)
    requires p.pending.Idle?
    ensures StartsDispatch(Act(m, p, w))
  {
  }

  /** A view is stored only by a dispatch that has loaded it. */
  lemma OnlyHoldersStore(m: Memory, p: Process, w: Outside)
    requires Act(m, p, w).effect.PutOffer?
    ensures p.pending.OfferDispatch? && p.pending.stage.StoreView?
    ensures Act(m, p, w).effect == PutOffer(p.pending.id, O.Update(p.pending.stage.view, p.pending.event))
  {
    if p.pending.Idle? {
      IdleActs(m, p, w);
    }
  }

  lemma LeavesCredentials(m: Memory, effect: Effect)
    requires !effect.AppendCredential? && !effect.PutCredential? && !effect.PutAllCredentials?
    ensures var m' := Perform(m, effect);
            m'.credentialLogs == m.credentialLogs && m'.credentials == m.credentials && m'.allCredentials == m.allCredentials
  {
  }

  lemma LeavesOffers(m: Memory, effect: Effect)
    requires !effect.AppendOffer? && !effect.PutOffer? && !effect.PutAllOffers?
    ensures var m' := Perform(m, effect);
            m'.offerLogs == m.offerLogs && m'.offers == m.offers && m'.allOffers == m.allOffers
  {
  }

  lemma AppendOfferKeepsAt(m: Memory, offerId: string, event: O.OfferEvent, id: string)
    requires OfferAt(m, Idle, id)
    ensures OfferAt(Perform(m, AppendOffer(offerId, event)), OfferDispatch(offerId, event, LoadView), id)
  {
    Append(O.Update, O.EMPTY_VIEW, id, OfferLog(m, id), m.offers, m.allOffers, event);
  }

  lemma AppendCredentialKeepsAt(m: Memory, credentialId: string, event: C.CredentialEvent, id: string)
    requires CredentialAt(m, Idle, id)
    ensures CredentialAt(Perform(m, AppendCredential(credentialId, event)),
                         CredentialDispatch(credentialId, event, LoadCredential), id)
  {
    Append(C.Store, C.EMPTY_VIEW, id, CredentialLog(m, id), m.credentials, m.allCredentials, event);
  }

  /** One step of a process, seen from the aggregates with id `id`. */
  ghost predicate StepExact(m: Memory, p: Process, w: Outside, id: string) {
    var a := Act(m, p, w);
    OfferAt(Perform(m, a.effect), a.next.pending, id) && CredentialAt(Perform(m, a.effect), a.next.pending, id)
  }

  lemma IdleKeepsAt(m: Memory, p: Process, w: Outside, id: string)
    requires p.pending.Idle? && OfferAt(m, Idle, id) && CredentialAt(m, Idle, id)
    ensures StepExact(m, p, w, id)
  {
    IdleActs(m, p, w);
    IdleActionExact(m, Act(m, p, w), id);
  }

  lemma IdleActionExact(m: Memory, a: Action, id: string)
    requires OfferAt(m, Idle, id) && CredentialAt(m, Idle, id) && StartsDispatch(a)
    ensures OfferAt(Perform(m, a.effect), a.next.pending, id) && CredentialAt(Perform(m, a.effect), a.next.pending, id)
  {
    var m' := Perform(m, a.effect);
    if a.effect.AppendOffer? {
      AppendOfferKeepsAt(m, a.effect.id, a.effect.event, id);
    } else if a.effect.AppendCredential? {
      AppendCredentialKeepsAt(m, a.effect.id, a.effect.credentialEvent, id);
    }
  }

  /** One step of the dispatch of an offer event, seen from the offer `id`. */
  ghost predicate OfferStepExact(m: Memory, pc: Pc, p: Pending, id: string)
    requires p.OfferDispatch?
  {
    var a := DispatchOfferStep(m, pc, p.id, p.event, p.stage);
    OfferAt(Perform(m, a.effect), a.next.pending, id)
  }

  lemma LoadViewExact(m: Memory, pc: Pc, p: Pending, id: string)
    requires p.OfferDispatch? && p.stage.LoadView? && OfferAt(m, p, id)
    ensures OfferStepExact(m, pc, p, id)
  {
  }

  lemma StoreViewKeeps(m: Memory, offerId: string, event: O.OfferEvent, view: O.OfferView, id: string)
    requires OfferAt(m, OfferDispatch(offerId, event, StoreView(view)), id)
    ensures OfferAt(m.(offers := m.offers[offerId := O.Update(view, event)]), OfferDispatch(offerId, event, LoadAll), id)
  {
    if id == offerId {
      StoreSingle(O.Update, O.EMPTY_VIEW, id, OfferLog(m, id), m.offers, m.allOffers, event, view);
    } else {
      StoreOther(O.Update, O.EMPTY_VIEW, id, OfferLog(m, id), m.offers, m.allOffers,
                 m.offers[offerId := O.Update(view, event)], m.allOffers);
    }
  }

  lemma StoreViewExact(m: Memory, pc: Pc, p: Pending, id: string)
    requires p.OfferDispatch? && p.stage.StoreView? && OfferAt(m, p, id)
    ensures OfferStepExact(m, pc, p, id)
  {
    StoreViewKeeps(m, p.id, p.event, p.stage.view, id);
  }

  lemma LoadAllExact(m: Memory, pc: Pc, p: Pending, id: string)
    requires p.OfferDispatch? && p.stage.LoadAll? && OfferAt(m, p, id)
    ensures OfferStepExact(m, pc, p, id)
  {
  }

  lemma StoreAllKeeps(m: Memory, offerId: string, event: O.OfferEvent, listed: map<string, O.OfferView>, id: string)
    requires OfferAt(m, OfferDispatch(offerId, event, StoreAll(listed)), id) && listed == m.allOffers
    ensures OfferAt(m.(allOffers := UpdateEntry(O.Update, O.EMPTY_VIEW, listed, offerId, event)),
                    OfferDispatch(offerId, event, LoadCode), id)
  {
    if id == offerId {
      StoreListed(O.Update, O.EMPTY_VIEW, id, OfferLog(m, id), m.offers, m.allOffers, event, listed);
    } else {
      StoreOther(O.Update, O.EMPTY_VIEW, id, OfferLog(m, id), m.offers, m.allOffers, m.offers,
                 UpdateEntry(O.Update, O.EMPTY_VIEW, listed, offerId, event));
    }
  }

  lemma StoreAllExact(m: Memory, pc: Pc, p: Pending, id: string)
    requires p.OfferDispatch? && p.stage.StoreAll? && p.stage.listed == m.allOffers && OfferAt(m, p, id)
    ensures OfferStepExact(m, pc, p, id)
  {
    StoreAllKeeps(m, p.id, p.event, p.stage.listed, id);
  }

  lemma CodeStagesExact(m: Memory, pc: Pc, p: Pending, id: string)
    requires p.OfferDispatch? && (p.stage.LoadCode? || p.stage.StoreCode?) && OfferAt(m, p, id)
    ensures OfferStepExact(m, pc, p, id)
  {
    var a := DispatchOfferStep(m, pc, p.id, p.event, p.stage);
    LeavesOffers(m, a.effect);
  }

  lemma TokenStagesExact(m: Memory, pc: Pc, p: Pending, id: string)
    requires p.OfferDispatch? && (p.stage.LoadToken? || p.stage.StoreToken?) && OfferAt(m, p, id)
    ensures OfferStepExact(m, pc, p, id)
  {
    var a := DispatchOfferStep(m, pc, p.id, p.event, p.stage);
    LeavesOffers(m, a.effect);
  }

  lemma LoadedAllOffers(m: Memory, p: Pending)
    requires p.OfferDispatch? && p.stage.StoreAll? && OfferAt(m, p, p.id)
    ensures p.stage.listed == m.allOffers
  {
  }

  lemma OfferDispatchExact(m: Memory, pc: Pc, p: Pending, id: string)
    requires p.OfferDispatch? && OfferAt(m, p, p.id) && OfferAt(m, p, id)
    ensures OfferStepExact(m, pc, p, id)
  {
    match p.stage
    case LoadView => LoadViewExact(m, pc, p, id);
    case StoreView(_) => StoreViewExact(m, pc, p, id);
    case LoadAll => LoadAllExact(m, pc, p, id);
    case StoreAll(_) => LoadedAllOffers(m, p); StoreAllExact(m, pc, p, id);
    case LoadCode => CodeStagesExact(m, pc, p, id);
    case StoreCode(_) => CodeStagesExact(m, pc, p, id);
    case LoadToken => TokenStagesExact(m, pc, p, id);
    case StoreToken(_) => TokenStagesExact(m, pc, p, id);
  }

  ghost predicate CredentialStepExact(m: Memory, pc: Pc, p: Pending, id: string)
    requires p.CredentialDispatch?
  {
    var a := DispatchCredentialStep(m, pc, p.credentialId, p.credentialEvent, p.credentialStage);
    CredentialAt(Perform(m, a.effect), a.next.pending, id)
  }

  lemma CredentialLoadsExact(m: Memory, pc: Pc, p: Pending, id: string)
    requires p.CredentialDispatch? && (p.credentialStage.LoadCredential? || p.credentialStage.LoadAllCredentials?)
    requires CredentialAt(m, p, id)
    ensures CredentialStepExact(m, pc, p, id)
  {
  }

  lemma StoreCredentialKeeps(m: Memory, credentialId: string, event: C.CredentialEvent, view: C.CredentialView, id: string)
    requires CredentialAt(m, CredentialDispatch(credentialId, event, StoreCredential(view)), id)
    ensures CredentialAt(m.(credentials := m.credentials[credentialId := C.Store(view, event)]),
                         CredentialDispatch(credentialId, event, LoadAllCredentials), id)
  {
    if id == credentialId {
      StoreSingle(C.Store, C.EMPTY_VIEW, id, CredentialLog(m, id), m.credentials, m.allCredentials, event, view);
    } else {
      StoreOther(C.Store, C.EMPTY_VIEW, id, CredentialLog(m, id), m.credentials, m.allCredentials,
                 m.credentials[credentialId := C.Store(view, event)], m.allCredentials);
    }
  }

  lemma StoreCredentialExact(m: Memory, pc: Pc, p: Pending, id: string)
    requires p.CredentialDispatch? && p.credentialStage.StoreCredential? && CredentialAt(m, p, id)
    ensures CredentialStepExact(m, pc, p, id)
  {
    StoreCredentialKeeps(m, p.credentialId, p.credentialEvent, p.credentialStage.view, id);
  }

  lemma StoreAllCredentialsKeeps(m: Memory, credentialId: string, event: C.CredentialEvent,
                                 listed: map<string, C.CredentialView>, id: string)
    requires CredentialAt(m, CredentialDispatch(credentialId, event, StoreAllCredentials(listed)), id) && listed == m.allCredentials
    ensures CredentialAt(m.(allCredentials := UpdateEntry(C.Store, C.EMPTY_VIEW, listed, credentialId, event)), Idle, id)
  {
    if id == credentialId {
      StoreListed(C.Store, C.EMPTY_VIEW, id, CredentialLog(m, id), m.credentials, m.allCredentials, event, listed);
    } else {
      StoreOther(C.Store, C.EMPTY_VIEW, id, CredentialLog(m, id), m.credentials, m.allCredentials, m.credentials,
                 UpdateEntry(C.Store, C.EMPTY_VIEW, listed, credentialId, event));
    }
  }

  lemma StoreAllCredentialsExact(m: Memory, pc: Pc, p: Pending, id: string)
    requires p.CredentialDispatch? && p.credentialStage.StoreAllCredentials? && p.credentialStage.listed == m.allCredentials
    requires CredentialAt(m, p, id)
    ensures CredentialStepExact(m, pc, p, id)
  {
    StoreAllCredentialsKeeps(m, p.credentialId, p.credentialEvent, p.credentialStage.listed, id);
  }

  lemma LoadedAllCredentials(m: Memory, p: Pending)
    requires p.CredentialDispatch? && p.credentialStage.StoreAllCredentials? && CredentialAt(m, p, p.credentialId)
    ensures p.credentialStage.listed == m.allCredentials
  {
  }

  lemma CredentialDispatchExact(m: Memory, pc: Pc, p: Pending, id: string)
    requires p.CredentialDispatch? && CredentialAt(m, p, p.credentialId) && CredentialAt(m, p, id)
    ensures CredentialStepExact(m, pc, p, id)
  {
    match p.credentialStage
    case LoadCredential => CredentialLoadsExact(m, pc, p, id);
    case StoreCredential(_) => StoreCredentialExact(m, pc, p, id);
    case LoadAllCredentials => CredentialLoadsExact(m, pc, p, id);
    case StoreAllCredentials(_) => LoadedAllCredentials(m, p); StoreAllCredentialsExact(m, pc, p, id);
  }

  ghost predicate OfferStepQuiet(m: Memory, pc: Pc, p: Pending, id: string)
    requires p.OfferDispatch?
  {
    var a := DispatchOfferStep(m, pc, p.id, p.event, p.stage);
    CredentialAt(Perform(m, a.effect), a.next.pending, id)
  }

  lemma OfferDispatchQuiet(m: Memory, pc: Pc, p: Pending, id: string)
    requires p.OfferDispatch? && CredentialAt(m, p, id)
    ensures OfferStepQuiet(m, pc, p, id)
  {
    var a := DispatchOfferStep(m, pc, p.id, p.event, p.stage);
    LeavesCredentials(m, a.effect);
  }

  ghost predicate CredentialStepQuiet(m: Memory, pc: Pc, p: Pending, id: string)
    requires p.CredentialDispatch?
  {
    var a := DispatchCredentialStep(m, pc, p.credentialId, p.credentialEvent, p.credentialStage);
    OfferAt(Perform(m, a.effect), a.next.pending, id)
  }

  lemma CredentialDispatchQuiet(m: Memory, pc: Pc, p: Pending, id: string)
    requires p.CredentialDispatch? && OfferAt(m, p, id)
    ensures CredentialStepQuiet(m, pc, p, id)
  {
    var a := DispatchCredentialStep(m, pc, p.credentialId, p.credentialEvent, p.credentialStage);
    LeavesOffers(m, a.effect);
  }

  lemma ActKeepsExact(m: Memory, p: Process, w: Outside, drawn: set<string>)
    requires Exact(m, p.pending)
    ensures Exact(Perform(m, Act(m, p, w).effect).(drawn := drawn), Act(m, p, w).next.pending)
  {
    var m', next := Perform(m, Act(m, p, w).effect), Act(m, p, w).next;
    forall id ensures OfferAt(m'.(drawn := drawn), next.pending, id) && CredentialAt(m'.(drawn := drawn), next.pending, id) {
      assert StepExact(m, p, w, id) by {
        assert OfferAt(m, p.pending, id) && CredentialAt(m, p.pending, id);
        if p.pending.OfferDispatch? {
          assert OfferAt(m, p.pending, p.pending.id);
          OfferDispatchExact(m, p.pc, p.pending, id);
          OfferDispatchQuiet(m, p.pc, p.pending, id);
        } else if p.pending.CredentialDispatch? {
          assert CredentialAt(m, p.pending, p.pending.credentialId);
          CredentialDispatchExact(m, p.pc, p.pending, id);
          CredentialDispatchQuiet(m, p.pc, p.pending, id);
        } else {
          IdleKeepsAt(m, p, w, id);
        }
      }
    }
  }

  lemma StepKeepsAtomicInv(s: State, step: Step)
    requires AtomicInv(s) && (step.Move? ==> Calm(s, step.pid))
    ensures AtomicInv(Exec(s, step))
  {
    if Enabled(s, step) {
      var s' := Exec(s, step);
      match step
      case Arrive(pid, request) =>
        if exists q :: q in s.processes && Calm(s, q) && Exact(s.memory, s.processes[q].pending) {
          var q :| q in s.processes && Calm(s, q) && Exact(s.memory, s.processes[q].pending);
          assert s'.processes[q] == s.processes[q] && Calm(s', q);
        }
      case Move(pid, w) =>
        var p := s.processes[pid];
        ActKeepsExact(s.memory, p, w, s'.memory.drawn);
        assert pid in s'.processes && Calm(s', pid) && Exact(s'.memory, s'.processes[pid].pending);
    }
  }

  lemma {:induction false} AtomicReachable(steps: seq<Step>)
    requires Atomic(steps)
    ensures AtomicInv(Run(steps))
  {
    if steps != [] {
      var front, last := steps[..|steps| - 1], steps[|steps| - 1];
      AtomicReachable(front);
      StepKeepsAtomicInv(Run(front), last);
    }
  }

  // ----- what follows -----

  /** Agreement. Between commands every list-all view equals the map of single views, and both hold exactly the
      aggregates with a log, each with the replay of its own log. */
  lemma ListAllAgreement(steps: seq<Step>, id: string)
    requires Atomic(steps) && forall p :: p in Run(steps).processes ==> Run(steps).processes[p].pending.Idle?
    ensures var m := Run(steps).memory;
            && m.allOffers == m.offers && m.allCredentials == m.credentials
            && (id in m.offers <==> OfferLog(m, id) != []) && (id in m.offers ==> m.offers[id] == O.View(OfferLog(m, id)))
            && (id in m.credentials <==> CredentialLog(m, id) != [])
            && (id in m.credentials ==> m.credentials[id] == C.Stored(CredentialLog(m, id)))
  {
    AtomicReachable(steps);
    var m := Run(steps).memory;
    assert OfferAt(m, Idle, id) && CredentialAt(m, Idle, id);
    forall o ensures (o in m.offers <==> o in m.allOffers) && (o in m.offers ==> m.offers[o] == m.allOffers[o]) {
      assert OfferAt(m, Idle, o);
    }
    forall c ensures (c in m.credentials <==> c in m.allCredentials)
                     && (c in m.credentials ==> m.credentials[c] == m.allCredentials[c]) {
      assert CredentialAt(m, Idle, c);
    }
    assert m.allOffers.Keys == m.offers.Keys && m.allCredentials.Keys == m.credentials.Keys;
  }

  // ----- a weaker condition -----

  /** The process has loaded a view and not stored it yet. */
  predicate Divides(p: Process) {
    || (p.pending.OfferDispatch?
        && (p.pending.stage.StoreView? || p.pending.stage.StoreAll? || p.pending.stage.StoreCode? || p.pending.stage.StoreToken?))
    || (p.pending.CredentialDispatch? && (p.pending.credentialStage.StoreCredential? || p.pending.credentialStage.StoreAllCredentials?))
  }

  ghost predicate NobodyElse(s: State, pid: nat) {
    forall p :: p in s.processes && p != pid ==> !Divides(s.processes[p])
  }

  /** Every load is followed by its store before any other request moves, as if each query of each dispatch held a lock. */
  ghost predicate Undivided(steps: seq<Step>) {
    steps != [] ==>
      var front, last := steps[..|steps| - 1], steps[|steps| - 1];
      Undivided(front) && (last.Move? ==> NobodyElse(Run(front), last.pid))
  }
}
