/**
 The list of all credentials against the single credential views, in every run and any interleaving. Dispatches of one
 credential never overlap, so the list sees the events of each credential in the order of its log; what can go wrong is that
 dispatches of different credentials race for the one list. So the list equals the map of the single views if and only if
 there was no race.
 */
module AllCredentials {
  import opened Wrappers
  import opened Json
  import opened EventSourcing
  import opened IssuerMachine
  import opened IssuerInvariant
  import opened IssuerSteps
  import opened IssuerPreservation
  import opened IssuerAtomic
  import opened IssuerTheorems
  import opened SharedViews
  import opened ListAllSchedules
  import opened Traces
  import C = IssuerCredential

  // ----- the list as a trace -----

  type Event = Envelope<C.CredentialEvent>

  predicate LoadsList(p: Process) {
    p.pending.CredentialDispatch? && p.pending.credentialStage.LoadAllCredentials?
  }

  predicate StoresList(p: Process) {
    p.pending.CredentialDispatch? && p.pending.credentialStage.StoreAllCredentials?
  }

  function EventOf(p: Process): Event
    requires p.pending.CredentialDispatch?
  {
    Envelope(p.pending.credentialId, p.pending.credentialEvent)
  }

  function ListNote(s: State, step: Step): Note<Event> {
    if Enabled(s, step) && step.Move? then
      var p := s.processes[step.pid];
      if LoadsList(p) then Loads(step.pid, EventOf(p)) else if StoresList(p) then Stores(step.pid) else Nothing
    else Nothing
  }

  function ListTrace(steps: seq<Step>): Trace<Event> {
    if steps == [] then Trace([], [], map[])
    else
      var front, last := steps[..|steps| - 1], steps[|steps| - 1];
      Record(ListTrace(front), ListNote(Run(front), last))
  }

  function ListCopies(processes: map<nat, Process>): map<nat, Copy<map<string, C.CredentialView>, Event>> {
    map p | p in processes && StoresList(processes[p]) :: Copy(EventOf(processes[p]), processes[p].pending.credentialStage.listed)
  }

  ghost predicate ListNoted(s: State, step: Step) {
    var t := Exec(s, step);
    Noted(Listing(C.Store, C.EMPTY_VIEW), ListNote(s, step), s.memory.allCredentials, ListCopies(s.processes),
          t.memory.allCredentials, ListCopies(t.processes))
  }

  lemma ListLoadNoted(s: State, pid: nat, w: Outside)
    requires Enabled(s, Move(pid, w)) && LoadsList(s.processes[pid])
    ensures ListNoted(s, Move(pid, w))
  {
    var p, t := s.processes[pid], Exec(s, Move(pid, w));
    assert t.processes[pid].pending.credentialStage == StoreAllCredentials(s.memory.allCredentials);
    assert ListCopies(t.processes) == ListCopies(s.processes)[pid := Copy(EventOf(p), s.memory.allCredentials)];
  }

  lemma ListStoreNoted(s: State, pid: nat, w: Outside)
    requires Enabled(s, Move(pid, w)) && StoresList(s.processes[pid])
    ensures ListNoted(s, Move(pid, w))
  {
    var t := Exec(s, Move(pid, w));
    assert !StoresList(t.processes[pid]);
    assert ListCopies(t.processes) == ListCopies(s.processes) - {pid};
  }

  lemma ListUntouched(m: Memory, p: Process, w: Outside)
    requires !LoadsList(p) && !StoresList(p)
    ensures var a := Act(m, p, w); !a.effect.PutAllCredentials? && !StoresList(a.next)
  {
    if p.pending.Idle? {
      IdleActs(m, p, w);
    }
  }

  lemma SameListCopies(processes: map<nat, Process>, pid: nat, next: Process)
    requires !StoresList(next) && (pid in processes ==> !StoresList(processes[pid]))
    ensures ListCopies(processes[pid := next]) == ListCopies(processes)
  {
  }

  lemma SameList(m: Memory, effect: Effect, drawn: set<string>)
    requires !effect.PutAllCredentials?
    ensures Perform(m, effect).(drawn := drawn).allCredentials == m.allCredentials
  {
  }

  lemma ListStepNoted(s: State, step: Step)
    ensures Enabled(s, step) ==> ListNoted(s, step)
  {
    if Enabled(s, step) {
      match step
      case Arrive(pid, request) => SameListCopies(s.processes, pid, Process(Entrance(request), Idle));
      case Move(pid, w) =>
        var p, a := s.processes[pid], Act(s.memory, s.processes[pid], w);
        if LoadsList(p) {
          ListLoadNoted(s, pid, w);
        } else if StoresList(p) {
          ListStoreNoted(s, pid, w);
        } else {
          ListUntouched(s.memory, p, w);
          SameListCopies(s.processes, pid, a.next);
          SameList(s.memory, a.effect, Exec(s, step).memory.drawn);
        }
    }
  }

  ghost predicate ListMatches(steps: seq<Step>) {
    Matches(Listing(C.Store, C.EMPTY_VIEW), map[], ListTrace(steps), Run(steps).memory.allCredentials, ListCopies(Run(steps).processes))
  }

  lemma {:induction false} ListAlwaysMatches(steps: seq<Step>)
    ensures ListMatches(steps)
  {
    if steps != [] {
      var front, last := steps[..|steps| - 1], steps[|steps| - 1];
      var s := Run(front);
      ListAlwaysMatches(front);
      ListStepNoted(s, last);
      if Enabled(s, last) {
        RecordMatches(Listing(C.Store, C.EMPTY_VIEW), map[], ListTrace(front), ListNote(s, last), s.memory.allCredentials,
                      ListCopies(s.processes), Run(steps).memory.allCredentials, ListCopies(Run(steps).processes));
      }
    }
  }

  // ----- one dispatch at a time for each credential -----

  /** The process has yet to store the list with an event of this credential, or, unless `late`, has yet to load the list. */
  predicate Delivers(p: Process, id: string, late: bool) {
    p.pending.CredentialDispatch? && p.pending.credentialId == id && (late || !p.pending.credentialStage.StoreAllCredentials?)
  }

  ghost predicate NoneDelivers(s: State, id: string, late: bool) {
    forall p :: p in s.processes ==> !Delivers(s.processes[p], id, late)
  }

  /** Everything of the credential's log but the event that the one process brings. */
  ghost predicate AllButOne(s: State, pid: nat, id: string, late: bool, done: seq<C.CredentialEvent>) {
    && pid in s.processes && Delivers(s.processes[pid], id, late)
    && (forall p :: p in s.processes && p != pid ==> !Delivers(s.processes[p], id, late))
    && CredentialLog(s.memory, id) == done + [s.processes[pid].pending.credentialEvent]
    && (done == [] ==> Owned(s.processes[pid].pc) == Some(id))
  }

  ghost predicate Delivered(s: State, id: string, late: bool, done: seq<C.CredentialEvent>) {
    || (NoneDelivers(s, id, late) && CredentialLog(s.memory, id) == done)
    || exists pid :: AllButOne(s, pid, id, late, done)
  }

  lemma NothingDispatched(m: Memory, p: Process, w: Outside)
    requires !p.pending.CredentialDispatch? && !Act(m, p, w).effect.AppendCredential?
    ensures !Act(m, p, w).next.pending.CredentialDispatch?
  {
    if p.pending.Idle? {
      IdleActs(m, p, w);
    }
  }

  lemma LogAfter(m: Memory, effect: Effect, id: string)
    ensures CredentialLog(Perform(m, effect), id)
         == CredentialLog(m, id) + (if effect.AppendCredential? && effect.id == id then [effect.credentialEvent] else [])
  {
  }

  /** An event is put on record only when no other one of its credential is under way: before its creation there is none, and
      it is bound, and so can be signed, only after the dispatch of its creation. */
  lemma AppendFindsNone(s: State, pid: nat, w: Outside, id: string, late: bool, done: seq<C.CredentialEvent>)
    requires Inv(s) && pid in s.processes && Delivered(s, id, late, done)
    requires var a := Act(s.memory, s.processes[pid], w); a.effect.AppendCredential? && a.effect.id == id
    ensures NoneDelivers(s, id, late) && CredentialLog(s.memory, id) == done
    ensures done == [] ==> Owned(Act(s.memory, s.processes[pid], w).next.pc) == Some(id)
  {
    var a := Act(s.memory, s.processes[pid], w);
    StepJustified(s, pid, w);
    assert ProcessOk(s.memory, s.processes[pid]);
    forall p | p in s.processes ensures !AllButOne(s, p, id, late, done) {
      assert ProcessOk(s.memory, s.processes[p]);
    }
  }

  /** What a step makes of the events delivered. */
  function Delivery(p: Process, next: Process, id: string, late: bool): seq<C.CredentialEvent> {
    if Delivers(p, id, late) && !Delivers(next, id, late) then [p.pending.credentialEvent] else []
  }

  lemma AppendKeepsDelivered(s: State, pid: nat, w: Outside, id: string, late: bool, done: seq<C.CredentialEvent>)
    requires Inv(s) && pid in s.processes && Delivered(s, id, late, done) && s.processes[pid].pending.Idle?
    requires Act(s.memory, s.processes[pid], w).effect.AppendCredential?
    ensures Delivered(MoveTo(s, pid, w), id, late, done)
  {
    var a, t := Act(s.memory, s.processes[pid], w), MoveTo(s, pid, w);
    StepJustified(s, pid, w);
    LogAfter(s.memory, a.effect, id);
    if a.effect.id == id {
      AppendFindsNone(s, pid, w, id, late, done);
      assert AllButOne(t, pid, id, late, done);
    } else {
      ElsewhereKeepsDelivered(s, t, pid, id, late, done);
    }
  }

  lemma ElsewhereKeepsDelivered(s: State, t: State, pid: nat, id: string, late: bool, done: seq<C.CredentialEvent>)
    requires Delivered(s, id, late, done) && pid in t.processes && t.processes == s.processes[pid := t.processes[pid]]
    requires !(pid in s.processes && Delivers(s.processes[pid], id, late)) && !Delivers(t.processes[pid], id, late)
    requires CredentialLog(t.memory, id) == CredentialLog(s.memory, id)
    ensures Delivered(t, id, late, done)
  {
    if exists p :: AllButOne(s, p, id, late, done) {
      var p :| AllButOne(s, p, id, late, done);
      assert AllButOne(t, p, id, late, done);
    }
  }

  lemma DispatchKeepsDelivered(s: State, pid: nat, w: Outside, id: string, late: bool, done: seq<C.CredentialEvent>)
    requires pid in s.processes && Delivered(s, id, late, done) && s.processes[pid].pending.CredentialDispatch?
    ensures var t := MoveTo(s, pid, w);
            Delivered(t, id, late, done + Delivery(s.processes[pid], t.processes[pid], id, late))
  {
    var p, a, t := s.processes[pid], Act(s.memory, s.processes[pid], w), MoveTo(s, pid, w);
    LogAfter(s.memory, a.effect, id);
    if !Delivers(p, id, late) {
      ElsewhereKeepsDelivered(s, t, pid, id, late, done);
      assert done + [] == done;
    } else {
      assert AllButOne(s, pid, id, late, done);
      if Delivers(a.next, id, late) {
        assert AllButOne(t, pid, id, late, done);
        assert done + [] == done;
      } else {
        assert NoneDelivers(t, id, late);
      }
    }
  }

  lemma MoveKeepsDelivered(s: State, pid: nat, w: Outside, id: string, late: bool, done: seq<C.CredentialEvent>)
    requires Inv(s) && pid in s.processes && Delivered(s, id, late, done)
    ensures var t := MoveTo(s, pid, w);
            Delivered(t, id, late, done + Delivery(s.processes[pid], t.processes[pid], id, late))
  {
    var p, a := s.processes[pid], Act(s.memory, s.processes[pid], w);
    if p.pending.CredentialDispatch? {
      DispatchKeepsDelivered(s, pid, w, id, late, done);
    } else if a.effect.AppendCredential? {
      StepJustified(s, pid, w);
      AppendKeepsDelivered(s, pid, w, id, late, done);
      assert done + [] == done;
    } else {
      NothingDispatched(s.memory, p, w);
      LogAfter(s.memory, a.effect, id);
      ElsewhereKeepsDelivered(s, MoveTo(s, pid, w), pid, id, late, done);
      assert done + [] == done;
    }
  }

  // ----- so the list sees the events in order -----

  /** The two stages at which an event counts as delivered, and no other. */
  lemma DeliveryByStage(m: Memory, p: Process, w: Outside, id: string, late: bool)
    ensures Delivery(p, Act(m, p, w).next, id, late)
         == if p.pending.CredentialDispatch? && p.pending.credentialId == id
               && (if late then p.pending.credentialStage.StoreAllCredentials? else p.pending.credentialStage.LoadAllCredentials?)
            then [p.pending.credentialEvent] else []
  {
  }

  lemma NoteBrings(s: State, pid: nat, w: Outside, id: string, late: bool)
    requires Enabled(s, Move(pid, w))
    ensures var note, copies := ListNote(s, Move(pid, w)), ListCopies(s.processes);
            && (note.Stores? ==> note.pid in copies)
            && Brought(note, copies, id, late) == Delivery(s.processes[pid], Act(s.memory, s.processes[pid], w).next, id, late)
  {
    var p := s.processes[pid];
    DeliveryByStage(s.memory, p, w, id, late);
    if p.pending.CredentialDispatch? {
      assert [EventOf(p)][..0] == [];
      assert EventsOf([EventOf(p)], id) == if p.pending.credentialId == id then [p.pending.credentialEvent] else [];
    }
  }

  lemma TraceFollows(steps: seq<Step>, pid: nat, w: Outside, id: string, late: bool)
    requires Enabled(Run(steps), Move(pid, w))
    ensures var s := Run(steps);
            Seen(Record(ListTrace(steps), ListNote(s, Move(pid, w))), id, late)
            == Seen(ListTrace(steps), id, late) + Delivery(s.processes[pid], Act(s.memory, s.processes[pid], w).next, id, late)
  {
    var s := Run(steps);
    ListAlwaysMatches(steps);
    NoteBrings(s, pid, w, id, late);
    SeenAfter(Listing(C.Store, C.EMPTY_VIEW), map[], ListTrace(steps), ListNote(s, Move(pid, w)), s.memory.allCredentials,
              ListCopies(s.processes), id, late);
  }

  lemma {:induction false} AlwaysDelivered(steps: seq<Step>, id: string, late: bool)
    ensures Delivered(Run(steps), id, late, Seen(ListTrace(steps), id, late))
  {
    if steps == [] {
      assert NoneDelivers(INITIAL, id, late);
    } else {
      var front, last := steps[..|steps| - 1], steps[|steps| - 1];
      var s, done := Run(front), Seen(ListTrace(front), id, late);
      AlwaysDelivered(front, id, late);
      if Enabled(s, last) {
        match last
        case Arrive(pid, request) => ElsewhereKeepsDelivered(s, Exec(s, last), pid, id, late, done);
        case Move(pid, w) =>
          Reachable(front);
          MoveKeepsDelivered(s, pid, w, id, late, done);
          TraceFollows(front, pid, w, id, late);
      }
    }
  }

  // ----- the list follows the logs -----

  /** In every run without races for it, the list shows each credential's whole log, or all but its last event while that
      event is being dispatched: just what the single view shows. */
  lemma ListFollowsLogs(steps: seq<Step>, id: string)
    requires RaceFree(ListTrace(steps).schedule)
    ensures var m, log := Run(steps).memory, CredentialLog(Run(steps).memory, id);
            || Follows(m.allCredentials, C.Store, C.EMPTY_VIEW, id, log)
            || (!NoneDelivers(Run(steps), id, true) && log != []
                && Follows(m.allCredentials, C.Store, C.EMPTY_VIEW, id, log[..|log| - 1]))
  {
    var t := ListTrace(steps);
    ListAlwaysMatches(steps);
    RaceFreeLists(C.Store, C.EMPTY_VIEW, t.tasks, t.schedule, id);
    AlwaysDelivered(steps, id, true);
  }

  ghost predicate NoDispatch(s: State) {
    forall p :: p in s.processes ==> !s.processes[p].pending.CredentialDispatch?
  }

  /** Once nothing is being dispatched, the single views and the fold of the stored events are the same map. */
  lemma FoldIsViews(steps: seq<Step>)
    requires NoDispatch(Run(steps))
    ensures var t := ListTrace(steps);
            FoldAll(C.Store, C.EMPTY_VIEW, map[], Stored(t.tasks, t.schedule)) == Run(steps).memory.credentials
  {
    var t, m := ListTrace(steps), Run(steps).memory;
    var stored := Stored(t.tasks, t.schedule);
    var all := FoldAll(C.Store, C.EMPTY_VIEW, map[], stored);
    forall id ensures (id in all <==> id in m.credentials) && (id in all ==> all[id] == m.credentials[id]) {
      ListAllAgreesWithSingleViews(C.Store, C.EMPTY_VIEW, stored, id);
      MentionedHasEvents(stored, id);
      AlwaysDelivered(steps, id, true);
      assert EventsOf(stored, id) == CredentialLog(m, id);
      CredentialViewsFollowLogs(steps, id);
    }
    assert all.Keys == m.credentials.Keys;
  }

  // ----- and the other way round -----

  /** No JWT encoding has failed: a null signature leaves no mark, neither in the single view nor in the list. */
  ghost predicate NoNullSignature(m: Memory) {
    forall id, e :: e in CredentialLog(m, id) ==> e.UnsignedCredentialCreated? || e.signed != Null
  }

  lemma {:induction false} TaskInEvents<E>(tasks: seq<Envelope<E>>, i: nat) returns (k: nat)
    requires i < |tasks|
    ensures k < |EventsOf(tasks, tasks[i].aggregateId)| && EventsOf(tasks, tasks[i].aggregateId)[k] == tasks[i].payload
    ensures k == |EventsOf(tasks[..i], tasks[i].aggregateId)|
  {
    if i == |tasks| - 1 {
      k := |EventsOf(tasks[..i], tasks[i].aggregateId)|;
    } else {
      k := TaskInEvents(tasks[..|tasks| - 1], i);
      assert tasks[..|tasks| - 1][..i] == tasks[..i];
    }
  }

  lemma {:induction false} EventsInOrder<E>(tasks: seq<Envelope<E>>, i: nat, j: nat)
    requires i < j < |tasks| && tasks[i].aggregateId == tasks[j].aggregateId
    ensures |EventsOf(tasks[..i], tasks[i].aggregateId)| < |EventsOf(tasks[..j], tasks[i].aggregateId)|
  {
    assert tasks[..j][..i] == tasks[..i] && tasks[..j][i] == tasks[i];
    var k := TaskInEvents(tasks[..j], i);
  }

  /** Two tasks of one credential are its creation unsigned and its signing. */
  ghost predicate Kinds(tasks: seq<Envelope<C.CredentialEvent>>) {
    && (forall i :: 0 <= i < |tasks| ==> tasks[i].payload.UnsignedCredentialCreated? || tasks[i].payload.signed != Null)
    && (forall i, j :: 0 <= i < j < |tasks| && tasks[i].aggregateId == tasks[j].aggregateId ==>
          tasks[i].payload.UnsignedCredentialCreated? && !tasks[j].payload.UnsignedCredentialCreated?)
  }

  lemma KindsOfTasks(tasks: seq<Envelope<C.CredentialEvent>>, m: Memory)
    requires NoNullSignature(m) && forall id :: EventsOf(tasks, id) == CredentialLog(m, id) && Shape(CredentialLog(m, id))
    ensures Kinds(tasks)
  {
    forall i | 0 <= i < |tasks| ensures tasks[i].payload.UnsignedCredentialCreated? || tasks[i].payload.signed != Null {
      var k := TaskInEvents(tasks, i);
      assert tasks[i].payload in CredentialLog(m, tasks[i].aggregateId);
    }
    forall i, j | 0 <= i < j < |tasks| && tasks[i].aggregateId == tasks[j].aggregateId
      ensures tasks[i].payload.UnsignedCredentialCreated? && !tasks[j].payload.UnsignedCredentialCreated?
    {
      var k := TaskInEvents(tasks, i);
      var l := TaskInEvents(tasks, j);
      EventsInOrder(tasks, i, j);
      assert Shape(CredentialLog(m, tasks[i].aggregateId));
    }
  }

  /** Whether the list shows an event: a creation by its data, a signature by its value. */
  predicate Marks(view: C.CredentialView, event: C.CredentialEvent) {
    if event.UnsignedCredentialCreated? then view.data.Some? else C.Reload(view).signed.Some?
  }

  predicate ShowsTask(tasks: seq<Envelope<C.CredentialEvent>>, view: map<string, C.CredentialView>, i: nat) {
    i < |tasks| && tasks[i].aggregateId in view && Marks(view[tasks[i].aggregateId], tasks[i].payload)
  }

  lemma ListRemembers(tasks: seq<Envelope<C.CredentialEvent>>)
    requires Kinds(tasks)
    ensures Remembers(Listing(C.Store, C.EMPTY_VIEW), map[], tasks, (view, i) => ShowsTask(tasks, view, i))
  {
    forall view, i: nat, j: nat | i < |tasks| && j < |tasks|
      ensures ShowsTask(tasks, UpdateEntry(C.Store, C.EMPTY_VIEW, view, tasks[j].aggregateId, tasks[j].payload), i)
         <==> i == j || ShowsTask(tasks, view, i)
    {
      if tasks[i].aggregateId == tasks[j].aggregateId && i != j {
        assert tasks[i].payload.UnsignedCredentialCreated? <==> !tasks[j].payload.UnsignedCredentialCreated?;
      }
    }
  }

  /** Exactly when `all_credentials` is right, in every run whose dispatches are over: it is the map of the single views if and
      only if no dispatch stored the list between another one's load and store. */
  lemma AgreeExactlyWhenRaceFree(steps: seq<Step>)
    requires NoDispatch(Run(steps))
    ensures var m := Run(steps).memory;
            && (RaceFree(ListTrace(steps).schedule) ==> m.allCredentials == m.credentials)
            && (NoNullSignature(m) && m.allCredentials == m.credentials ==> RaceFree(ListTrace(steps).schedule))
  {
    var t, m := ListTrace(steps), Run(steps).memory;
    ListAlwaysMatches(steps);
    FoldIsViews(steps);
    FoldIsReplay(C.Store, C.EMPTY_VIEW, map[], Stored(t.tasks, t.schedule));
    if RaceFree(t.schedule) {
      RaceFreeAgrees(Listing(C.Store, C.EMPTY_VIEW), map[], t.tasks, t.schedule);
    }
    if NoNullSignature(m) {
      AllTasksOnRecord(steps);
      KindsOfTasks(t.tasks, m);
      ListRemembers(t.tasks);
      AgreesExactlyWhenRaceFree(Listing(C.Store, C.EMPTY_VIEW), map[], t.tasks, t.schedule, (view, i) => ShowsTask(t.tasks, view, i));
    }
  }

  lemma AllTasksOnRecord(steps: seq<Step>)
    requires NoDispatch(Run(steps))
    ensures forall id :: EventsOf(ListTrace(steps).tasks, id) == CredentialLog(Run(steps).memory, id)
                         && Shape(CredentialLog(Run(steps).memory, id))
  {
    Reachable(steps);
    forall id ensures EventsOf(ListTrace(steps).tasks, id) == CredentialLog(Run(steps).memory, id) {
      AlwaysDelivered(steps, id, false);
    }
  }

  /** When every load is followed by its store before another request moves, there are no races, so list and views are equal. */
  lemma {:induction false} UndividedHasNoRaces(steps: seq<Step>)
    requires Undivided(steps)
    ensures Current(ListTrace(steps))
  {
    if steps != [] {
      var front, last := steps[..|steps| - 1], steps[|steps| - 1];
      UndividedHasNoRaces(front);
      ListAlwaysMatches(front);
      assert ListTrace(front).current.Keys == ListCopies(Run(front).processes).Keys;
      RecordCurrent(ListTrace(front), ListNote(Run(front), last));
    }
  }

  lemma UndividedAgree(steps: seq<Step>)
    requires Undivided(steps) && NoDispatch(Run(steps))
    ensures Run(steps).memory.allCredentials == Run(steps).memory.credentials
  {
    UndividedHasNoRaces(steps);
    AgreeExactlyWhenRaceFree(steps);
  }
}
