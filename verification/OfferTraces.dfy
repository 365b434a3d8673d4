/**
 What the dispatches of one offer's events do to the two views that show them: its own view, and the list of all offers. Each
 is a trace in the sense of `Traces`; the tasks are the events with their positions in the offer's log.
 */
module OfferTraces {
  import opened EventSourcing
  import opened IssuerMachine
  import opened IssuerPreservation
  import opened IssuerAtomic
  import opened SharedViews
  import opened ListAllSchedules
  import opened Traces
  import opened StoreOrders
  import O = IssuerOffer

  type Event = Placed<O.OfferEvent>

  function Apply(view: O.OfferView, e: Event): O.OfferView {
    O.Update(view, e.event)
  }

  /** Which position the latest event of each process has in its log. */
  function Positions(steps: seq<Step>): map<nat, nat> {
    if steps == [] then map[]
    else
      var front, last := steps[..|steps| - 1], steps[|steps| - 1];
      PositionsAfter(Positions(front), Run(front), last)
  }

  function PositionsAfter(at: map<nat, nat>, s: State, step: Step): map<nat, nat> {
    if Enabled(s, step) && step.Move? && Act(s.memory, s.processes[step.pid], step.w).effect.AppendOffer? then
      at[step.pid := |OfferLog(s.memory, Act(s.memory, s.processes[step.pid], step.w).effect.id)|]
    else at
  }

  /** Only this process has committed an event. */
  ghost predicate OnlyMoved(at: map<nat, nat>, at': map<nat, nat>, pid: nat) {
    at' == at || (pid in at' && at' == at[pid := at'[pid]])
  }

  function EventOf(at: map<nat, nat>, pid: nat, p: Process): Event
    requires p.pending.OfferDispatch?
  {
    Placed(p.pending.event, if pid in at then at[pid] else 0)
  }

  // ----- the view of one offer -----

  predicate Into(p: Process, o: string) {
    p.pending.OfferDispatch? && p.pending.id == o
  }

  predicate StoresView(p: Process, o: string) {
    Into(p, o) && p.pending.stage.StoreView?
  }

  function ViewNote(at: map<nat, nat>, s: State, step: Step, o: string): Note<Event> {
    if Enabled(s, step) && step.Move? && Into(s.processes[step.pid], o) then
      var p := s.processes[step.pid];
      if p.pending.stage.LoadView? then Loads(step.pid, EventOf(at, step.pid, p))
      else if p.pending.stage.StoreView? then Stores(step.pid)
      else Nothing
    else Nothing
  }

  function ViewTrace(steps: seq<Step>, o: string): Trace<Event> {
    if steps == [] then Trace([], [], map[])
    else
      var front, last := steps[..|steps| - 1], steps[|steps| - 1];
      Record(ViewTrace(front, o), ViewNote(Positions(front), Run(front), last, o))
  }

  function ViewCopies(at: map<nat, nat>, processes: map<nat, Process>, o: string): map<nat, Copy<O.OfferView, Event>> {
    map p | p in processes && StoresView(processes[p], o) :: Copy(EventOf(at, p, processes[p]), processes[p].pending.stage.view)
  }

  function ViewOf(m: Memory, o: string): O.OfferView {
    EntryOr(m.offers, o, O.EMPTY_VIEW)
  }

  ghost predicate ViewNoted(at: map<nat, nat>, s: State, step: Step, o: string) {
    var t := Exec(s, step);
    Noted(Apply, ViewNote(at, s, step, o), ViewOf(s.memory, o), ViewCopies(at, s.processes, o),
          ViewOf(t.memory, o), ViewCopies(PositionsAfter(at, s, step), t.processes, o))
  }

  lemma ViewLoadNoted(at: map<nat, nat>, s: State, pid: nat, w: Outside, o: string)
    requires Enabled(s, Move(pid, w)) && Into(s.processes[pid], o) && s.processes[pid].pending.stage.LoadView?
    ensures ViewNoted(at, s, Move(pid, w), o)
  {
    var t := Exec(s, Move(pid, w));
    assert t.processes[pid].pending == OfferDispatch(o, s.processes[pid].pending.event, StoreView(ViewOf(s.memory, o)));
    assert ViewCopies(at, t.processes, o)
        == ViewCopies(at, s.processes, o)[pid := Copy(EventOf(at, pid, s.processes[pid]), ViewOf(s.memory, o))];
  }

  lemma ViewStoreNoted(at: map<nat, nat>, s: State, pid: nat, w: Outside, o: string)
    requires Enabled(s, Move(pid, w)) && StoresView(s.processes[pid], o)
    ensures ViewNoted(at, s, Move(pid, w), o)
  {
    var t := Exec(s, Move(pid, w));
    assert !StoresView(t.processes[pid], o);
    assert ViewCopies(at, t.processes, o) == ViewCopies(at, s.processes, o) - {pid};
  }

  /** Steps other than these two leave the view and the copies alone. */
  lemma ViewUntouched(m: Memory, p: Process, w: Outside, o: string)
    requires !(Into(p, o) && (p.pending.stage.LoadView? || p.pending.stage.StoreView?))
    ensures var a := Act(m, p, w); !(a.effect.PutOffer? && a.effect.id == o) && !StoresView(a.next, o)
  {
    if p.pending.Idle? {
      IdleActs(m, p, w);
    }
  }

  lemma SameViewCopies(at: map<nat, nat>, at': map<nat, nat>, processes: map<nat, Process>, pid: nat, next: Process, o: string)
    requires !StoresView(next, o) && (pid in processes ==> !StoresView(processes[pid], o))
    requires OnlyMoved(at, at', pid)
    ensures ViewCopies(at', processes[pid := next], o) == ViewCopies(at, processes, o)
  {
  }

  lemma SameView(m: Memory, effect: Effect, drawn: set<string>, o: string)
    requires !(effect.PutOffer? && effect.id == o)
    ensures ViewOf(Perform(m, effect).(drawn := drawn), o) == ViewOf(m, o)
  {
  }

  lemma ViewStepNoted(at: map<nat, nat>, s: State, step: Step, o: string)
    ensures Enabled(s, step) ==> ViewNoted(at, s, step, o)
  {
    if Enabled(s, step) {
      match step
      case Arrive(pid, request) => SameViewCopies(at, at, s.processes, pid, Process(Entrance(request), Idle), o);
      case Move(pid, w) =>
        var p, a := s.processes[pid], Act(s.memory, s.processes[pid], w);
        if Into(p, o) && p.pending.stage.LoadView? {
          ViewLoadNoted(at, s, pid, w, o);
        } else if StoresView(p, o) {
          ViewStoreNoted(at, s, pid, w, o);
        } else {
          ViewUntouched(s.memory, p, w, o);
          SameViewCopies(at, PositionsAfter(at, s, step), s.processes, pid, a.next, o);
          SameView(s.memory, a.effect, Exec(s, step).memory.drawn, o);
        }
    }
  }

  ghost predicate ViewMatches(steps: seq<Step>, o: string) {
    Matches(Apply, O.EMPTY_VIEW, ViewTrace(steps, o), ViewOf(Run(steps).memory, o),
            ViewCopies(Positions(steps), Run(steps).processes, o))
  }

  lemma {:induction false} ViewAlwaysMatches(steps: seq<Step>, o: string)
    ensures ViewMatches(steps, o)
  {
    if steps != [] {
      var front, last := steps[..|steps| - 1], steps[|steps| - 1];
      var s, at := Run(front), Positions(front);
      ViewAlwaysMatches(front, o);
      ViewStepNoted(at, s, last, o);
      if Enabled(s, last) {
        RecordMatches(Apply, O.EMPTY_VIEW, ViewTrace(front, o), ViewNote(at, s, last, o), ViewOf(s.memory, o),
                      ViewCopies(at, s.processes, o), ViewOf(Run(steps).memory, o),
                      ViewCopies(Positions(steps), Run(steps).processes, o));
      }
    }
  }

  // ----- the list of all offers -----

  predicate LoadsList(p: Process) {
    p.pending.OfferDispatch? && p.pending.stage.LoadAll?
  }

  predicate StoresList(p: Process) {
    p.pending.OfferDispatch? && p.pending.stage.StoreAll?
  }

  function ListTask(at: map<nat, nat>, pid: nat, p: Process): Envelope<Event>
    requires p.pending.OfferDispatch?
  {
    Envelope(p.pending.id, EventOf(at, pid, p))
  }

  function ListNote(at: map<nat, nat>, s: State, step: Step): Note<Envelope<Event>> {
    if Enabled(s, step) && step.Move? then
      var p := s.processes[step.pid];
      if LoadsList(p) then Loads(step.pid, ListTask(at, step.pid, p))
      else if StoresList(p) then Stores(step.pid)
      else Nothing
    else Nothing
  }

  function ListTrace(steps: seq<Step>): Trace<Envelope<Event>> {
    if steps == [] then Trace([], [], map[])
    else
      var front, last := steps[..|steps| - 1], steps[|steps| - 1];
      Record(ListTrace(front), ListNote(Positions(front), Run(front), last))
  }

  function ListCopies(at: map<nat, nat>, processes: map<nat, Process>): map<nat, Copy<map<string, O.OfferView>, Envelope<Event>>> {
    map p | p in processes && StoresList(processes[p]) :: Copy(ListTask(at, p, processes[p]), processes[p].pending.stage.listed)
  }

  ghost predicate ListNoted(at: map<nat, nat>, s: State, step: Step) {
    var t := Exec(s, step);
    Noted(Listing(Apply, O.EMPTY_VIEW), ListNote(at, s, step), s.memory.allOffers, ListCopies(at, s.processes),
          t.memory.allOffers, ListCopies(PositionsAfter(at, s, step), t.processes))
  }

  lemma ListLoadNoted(at: map<nat, nat>, s: State, pid: nat, w: Outside)
    requires Enabled(s, Move(pid, w)) && LoadsList(s.processes[pid])
    ensures ListNoted(at, s, Move(pid, w))
  {
    var p, t := s.processes[pid], Exec(s, Move(pid, w));
    assert t.processes[pid].pending == OfferDispatch(p.pending.id, p.pending.event, StoreAll(s.memory.allOffers));
    assert ListCopies(at, t.processes) == ListCopies(at, s.processes)[pid := Copy(ListTask(at, pid, p), s.memory.allOffers)];
  }

  lemma ListStoreNoted(at: map<nat, nat>, s: State, pid: nat, w: Outside)
    requires Enabled(s, Move(pid, w)) && StoresList(s.processes[pid])
    ensures ListNoted(at, s, Move(pid, w))
  {
    var t := Exec(s, Move(pid, w));
    assert !StoresList(t.processes[pid]);
    assert ListCopies(at, t.processes) == ListCopies(at, s.processes) - {pid};
  }

  lemma ListUntouched(m: Memory, p: Process, w: Outside)
    requires !LoadsList(p) && !StoresList(p)
    ensures var a := Act(m, p, w); !a.effect.PutAllOffers? && !StoresList(a.next)
  {
    if p.pending.Idle? {
      IdleActs(m, p, w);
    }
  }

  lemma SameListCopies(at: map<nat, nat>, at': map<nat, nat>, processes: map<nat, Process>, pid: nat, next: Process)
    requires !StoresList(next) && (pid in processes ==> !StoresList(processes[pid]))
    requires OnlyMoved(at, at', pid)
    ensures ListCopies(at', processes[pid := next]) == ListCopies(at, processes)
  {
  }

  lemma SameList(m: Memory, effect: Effect, drawn: set<string>)
    requires !effect.PutAllOffers?
    ensures Perform(m, effect).(drawn := drawn).allOffers == m.allOffers
  {
  }

  lemma ListStepNoted(at: map<nat, nat>, s: State, step: Step)
    ensures Enabled(s, step) ==> ListNoted(at, s, step)
  {
    if Enabled(s, step) {
      match step
      case Arrive(pid, request) => SameListCopies(at, at, s.processes, pid, Process(Entrance(request), Idle));
      case Move(pid, w) =>
        var p, a := s.processes[pid], Act(s.memory, s.processes[pid], w);
        if LoadsList(p) {
          ListLoadNoted(at, s, pid, w);
        } else if StoresList(p) {
          ListStoreNoted(at, s, pid, w);
        } else {
          ListUntouched(s.memory, p, w);
          SameListCopies(at, PositionsAfter(at, s, step), s.processes, pid, a.next);
          SameList(s.memory, a.effect, Exec(s, step).memory.drawn);
        }
    }
  }

  ghost predicate ListMatches(steps: seq<Step>) {
    Matches(Listing(Apply, O.EMPTY_VIEW), map[], ListTrace(steps), Run(steps).memory.allOffers,
            ListCopies(Positions(steps), Run(steps).processes))
  }

  lemma {:induction false} ListAlwaysMatches(steps: seq<Step>)
    ensures ListMatches(steps)
  {
    if steps != [] {
      var front, last := steps[..|steps| - 1], steps[|steps| - 1];
      var s, at := Run(front), Positions(front);
      ListAlwaysMatches(front);
      ListStepNoted(at, s, last);
      if Enabled(s, last) {
        RecordMatches(Listing(Apply, O.EMPTY_VIEW), map[], ListTrace(front), ListNote(at, s, last), s.memory.allOffers,
                      ListCopies(at, s.processes), Run(steps).memory.allOffers, ListCopies(Positions(steps), Run(steps).processes));
      }
    }
  }

  // ----- the order of the stores -----

  /** The process has yet to store the view, or, if `list`, the list, with an event of the offer. */
  predicate Before(p: Process, o: string, list: bool) {
    Into(p, o) && (p.pending.stage.LoadView? || p.pending.stage.StoreView? || (list && (p.pending.stage.LoadAll? || p.pending.stage.StoreAll?)))
  }

  function Holders(at: map<nat, nat>, processes: map<nat, Process>, o: string, list: bool): map<nat, Event> {
    map p | p in processes && Before(processes[p], o, list) :: EventOf(at, p, processes[p])
  }

  /** The events of the offer in the order in which they were stored in its view, or in the list. */
  function Order(steps: seq<Step>, o: string, list: bool): seq<Event> {
    if list then Seen(ListTrace(steps), o, true)
    else Stored(ViewTrace(steps, o).tasks, ViewTrace(steps, o).schedule)
  }

  /** What a step adds to it. */
  function Delivery(at: map<nat, nat>, s: State, step: Step, o: string, list: bool): seq<Event> {
    if Enabled(s, step) && step.Move? && Into(s.processes[step.pid], o)
       && (if list then s.processes[step.pid].pending.stage.StoreAll? else s.processes[step.pid].pending.stage.StoreView?)
    then [EventOf(at, step.pid, s.processes[step.pid])] else []
  }

  lemma ViewOrderGrows(front: seq<Step>, last: Step, o: string)
    ensures Order(front + [last], o, false) == Order(front, o, false) + Delivery(Positions(front), Run(front), last, o, false)
  {
    var s, at := Run(front), Positions(front);
    assert (front + [last])[..|front|] == front;
    ViewAlwaysMatches(front, o);
    ViewStepNoted(at, s, last, o);
    RecordStored(Apply, O.EMPTY_VIEW, ViewTrace(front, o), ViewNote(at, s, last, o), ViewOf(s.memory, o), ViewCopies(at, s.processes, o));
  }

  lemma ListDelivers(at: map<nat, nat>, s: State, step: Step, o: string)
    ensures var note, copies := ListNote(at, s, step), ListCopies(at, s.processes);
            && (note.Stores? ==> note.pid in copies)
            && Delivery(at, s, step, o, true) == Brought(note, copies, o, true)
  {
    var note := ListNote(at, s, step);
    if note.Stores? {
      var task := ListTask(at, note.pid, s.processes[note.pid]);
      assert [task][..0] == [];
      assert EventsOf([task], o) == if task.aggregateId == o then [task.payload] else [];
    }
  }

  lemma ListOrderGrows(front: seq<Step>, last: Step, o: string)
    ensures Order(front + [last], o, true) == Order(front, o, true) + Delivery(Positions(front), Run(front), last, o, true)
  {
    var s, at := Run(front), Positions(front);
    assert (front + [last])[..|front|] == front;
    ListAlwaysMatches(front);
    ListDelivers(at, s, last, o);
    SeenAfter(Listing(Apply, O.EMPTY_VIEW), map[], ListTrace(front), ListNote(at, s, last), s.memory.allOffers,
              ListCopies(at, s.processes), o, true);
  }

  ghost predicate OrderAccounted(steps: seq<Step>, o: string, list: bool) {
    Accounted(OfferLog(Run(steps).memory, o), Order(steps, o, list), Holders(Positions(steps), Run(steps).processes, o, list))
  }

  /** What a step does to the log of the offer and to the events under way: it commits one, it stores one, or neither. */
  ghost predicate Carried(at: map<nat, nat>, s: State, step: Step, o: string, list: bool) {
    var t, at' := Exec(s, step), PositionsAfter(at, s, step);
    var log, log' := OfferLog(s.memory, o), OfferLog(t.memory, o);
    var held, held' := Holders(at, s.processes, o, list), Holders(at', t.processes, o, list);
    if Delivery(at, s, step, o, list) != [] then
      log' == log && step.pid in held && held' == held - {step.pid} && Delivery(at, s, step, o, list) == [held[step.pid]]
    else
      || (log' == log && held' == held)
      || (step.pid !in held && exists event :: log' == log + [event] && held' == held[step.pid := Placed(event, |log|)])
  }

  lemma HoldersWith(at: map<nat, nat>, at': map<nat, nat>, processes: map<nat, Process>, pid: nat, next: Process, o: string, list: bool)
    requires OnlyMoved(at, at', pid) && Before(next, o, list)
    ensures Holders(at', processes[pid := next], o, list) == Holders(at, processes, o, list)[pid := EventOf(at', pid, next)]
  {
  }

  lemma HoldersWithout(at: map<nat, nat>, at': map<nat, nat>, processes: map<nat, Process>, pid: nat, next: Process, o: string, list: bool)
    requires OnlyMoved(at, at', pid) && !Before(next, o, list)
    ensures Holders(at', processes[pid := next], o, list) == Holders(at, processes, o, list) - {pid}
  {
  }

  lemma LogAfter(m: Memory, effect: Effect, drawn: set<string>, o: string)
    ensures OfferLog(Perform(m, effect).(drawn := drawn), o)
         == OfferLog(m, o) + (if effect.AppendOffer? && effect.id == o then [effect.event] else [])
  {
  }

  lemma CommitCarried(at: map<nat, nat>, s: State, pid: nat, w: Outside, o: string, list: bool)
    requires Enabled(s, Move(pid, w)) && s.processes[pid].pending.Idle?
    ensures Carried(at, s, Move(pid, w), o, list)
  {
    var m, p, t := s.memory, s.processes[pid], Exec(s, Move(pid, w));
    var a, at', held := Act(m, p, w), PositionsAfter(at, s, Move(pid, w)), Holders(at, s.processes, o, list);
    IdleActs(m, p, w);
    LogAfter(m, a.effect, t.memory.drawn, o);
    if a.effect.AppendOffer? && a.effect.id == o {
      HoldersWith(at, at', s.processes, pid, a.next, o, list);
      assert OfferLog(t.memory, o) == OfferLog(m, o) + [a.effect.event];
    } else {
      HoldersWithout(at, at', s.processes, pid, a.next, o, list);
      assert held - {pid} == held;
    }
  }

  /** A dispatch goes on with its event until it has stored it. */
  lemma DispatchGoesOn(m: Memory, p: Process, w: Outside, o: string, list: bool)
    requires !p.pending.Idle?
    ensures var a := Act(m, p, w);
            && !a.effect.AppendOffer?
            && (Before(a.next, o, list) ==> Before(p, o, list) && a.next.pending.event == p.pending.event)
            && (Before(p, o, list) && !Before(a.next, o, list) <==>
                  Into(p, o) && if list then p.pending.stage.StoreAll? else p.pending.stage.StoreView?)
  {
  }

  lemma DispatchCarried(at: map<nat, nat>, s: State, pid: nat, w: Outside, o: string, list: bool)
    requires Enabled(s, Move(pid, w)) && !s.processes[pid].pending.Idle?
    ensures Carried(at, s, Move(pid, w), o, list)
  {
    var m, p, t := s.memory, s.processes[pid], Exec(s, Move(pid, w));
    var a, held := Act(m, p, w), Holders(at, s.processes, o, list);
    DispatchGoesOn(m, p, w, o, list);
    LogAfter(m, a.effect, t.memory.drawn, o);
    if Before(a.next, o, list) {
      HoldersWith(at, at, s.processes, pid, a.next, o, list);
      assert held[pid := EventOf(at, pid, a.next)] == held;
    } else {
      HoldersWithout(at, at, s.processes, pid, a.next, o, list);
      assert !Before(p, o, list) ==> held - {pid} == held;
    }
  }

  lemma StepCarried(at: map<nat, nat>, s: State, step: Step, o: string, list: bool)
    requires Enabled(s, step)
    ensures Carried(at, s, step, o, list)
  {
    match step
    case Arrive(pid, request) =>
      assert Holders(at, Exec(s, step).processes, o, list) == Holders(at, s.processes, o, list);
    case Move(pid, w) =>
      if s.processes[pid].pending.Idle? {
        CommitCarried(at, s, pid, w, o, list);
      } else {
        DispatchCarried(at, s, pid, w, o, list);
      }
  }

  /** In every run: stored or under way is exactly what is in the log, each event once. */
  lemma {:induction false} AlwaysAccounted(steps: seq<Step>, o: string, list: bool)
    ensures OrderAccounted(steps, o, list)
  {
    if steps != [] {
      var front, last := steps[..|steps| - 1], steps[|steps| - 1];
      assert steps == front + [last];
      AlwaysAccounted(front, o, list);
      if list {
        ListOrderGrows(front, last, o);
      } else {
        ViewOrderGrows(front, last, o);
      }
      if Enabled(Run(front), last) {
        StepCarried(Positions(front), Run(front), last, o, list);
        CarriedAccounted(front, last, o, list);
      }
    }
  }

  lemma CarriedAccounted(front: seq<Step>, last: Step, o: string, list: bool)
    requires OrderAccounted(front, o, list) && Carried(Positions(front), Run(front), last, o, list) && Enabled(Run(front), last)
    requires Order(front + [last], o, list) == Order(front, o, list) + Delivery(Positions(front), Run(front), last, o, list)
    ensures OrderAccounted(front + [last], o, list)
  {
    var s, at, order := Run(front), Positions(front), Order(front, o, list);
    var log, held := OfferLog(s.memory, o), Holders(at, s.processes, o, list);
    assert (front + [last])[..|front|] == front;
    if Delivery(at, s, last, o, list) != [] {
      Delivers(log, order, held, last.pid);
    } else {
      assert order + [] == order;
      var log', held' := OfferLog(Exec(s, last).memory, o), Holders(PositionsAfter(at, s, last), Exec(s, last).processes, o, list);
      if log' != log {
        var event :| log' == log + [event] && held' == held[last.pid := Placed(event, |log|)];
        Commits(log, order, held, last.pid, event);
      }
    }
  }
}
