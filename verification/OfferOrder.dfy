/**
 Dispatches into one offer that do not overlap: from the commit of an event until it is stored in the offer's view (or, further,
 in the list of all offers) no other dispatch into that offer moves. Then its events are stored in the order of its log, the
 view is the replay of the log, and a poll sees the latest ids and the latest subject. Dispatches into other offers, and those of
 credentials, do not matter, except that they may race for the list.
 */
module OfferOrder {
  import opened Wrappers
  import opened EventSourcing
  import opened IssuerMachine
  import opened IssuerAtomic
  import opened SharedViews
  import opened Traces
  import opened StoreOrders
  import opened OfferTraces
  import opened AllOffers
  import O = IssuerOffer

  ghost predicate OnlyBefore(s: State, pid: nat, o: string, list: bool) {
    forall p :: p in s.processes && p != pid ==> !Before(s.processes[p], o, list)
  }

  /** No dispatch into the offer moves towards its store while another one is between its commit and its store. */
  ghost predicate Ordered(steps: seq<Step>, o: string, list: bool) {
    steps != [] ==>
      var front, last := steps[..|steps| - 1], steps[|steps| - 1];
      && Ordered(front, o, list)
      && (last.Move? && last.pid in Run(front).processes && Before(Run(front).processes[last.pid], o, list) ==>
            OnlyBefore(Run(front), last.pid, o, list))
  }

  lemma {:induction false} OrderedForView(steps: seq<Step>, o: string)
    requires Ordered(steps, o, true)
    ensures Ordered(steps, o, false)
  {
    if steps != [] {
      OrderedForView(steps[..|steps| - 1], o);
    }
  }

  /** Then the events are stored in the order of the log. */
  lemma {:induction false} StoredInLogOrder(steps: seq<Step>, o: string, list: bool)
    requires Ordered(steps, o, list)
    ensures InLogOrder(Order(steps, o, list))
  {
    if steps != [] {
      var front, last := steps[..|steps| - 1], steps[|steps| - 1];
      var s, at := Run(front), Positions(front);
      assert steps == front + [last];
      StoredInLogOrder(front, o, list);
      if list {
        ListOrderGrows(front, last, o);
      } else {
        ViewOrderGrows(front, last, o);
      }
      if Delivery(at, s, last, o, list) != [] {
        var held := Holders(at, s.processes, o, list);
        assert last.pid in held && Delivery(at, s, last, o, list) == [held[last.pid]];
        assert held.Keys == {last.pid};
        AlwaysAccounted(front, o, list);
        OnlyOneIsNext(OfferLog(s.memory, o), Order(front, o, list), held, last.pid);
      }
    }
  }

  /** And nobody stores the view between another one's load and store. */
  lemma {:induction false} OrderedHasNoRace(steps: seq<Step>, o: string)
    requires Ordered(steps, o, false)
    ensures Current(ViewTrace(steps, o))
  {
    if steps != [] {
      var front, last := steps[..|steps| - 1], steps[|steps| - 1];
      var note := ViewNote(Positions(front), Run(front), last, o);
      OrderedHasNoRace(front, o);
      if note.Stores? {
        ViewAlwaysMatches(front, o);
        assert ViewTrace(front, o).current.Keys == ViewCopies(Positions(front), Run(front).processes, o).Keys;
        assert Alone(ViewTrace(front, o), note.pid);
      }
      RecordCurrent(ViewTrace(front, o), note);
    }
  }

  /** So the view is the replay of the log whenever no dispatch is before its store. */
  lemma OfferViewFollowsLog(steps: seq<Step>, o: string)
    requires Ordered(steps, o, false) && NoneBefore(Run(steps), o, false)
    ensures Follows(Run(steps).memory.offers, O.Update, O.EMPTY_VIEW, o, OfferLog(Run(steps).memory, o))
  {
    StoredInLogOrder(steps, o, false);
    OrderedHasNoRace(steps, o);
    StoresAreLog(steps, o, false);
    ViewByStores(steps, o);
  }

  /** And if they do not overlap up to the list either, and no dispatch of any offer stores the list between another one's load and
      store, then view and list both are. */
  lemma BothFollowLog(steps: seq<Step>, o: string)
    requires Ordered(steps, o, true) && RaceFree(ListTrace(steps).schedule) && NoneBefore(Run(steps), o, true)
    ensures var m := Run(steps).memory;
            && Follows(m.offers, O.Update, O.EMPTY_VIEW, o, OfferLog(m, o))
            && Follows(m.allOffers, O.Update, O.EMPTY_VIEW, o, OfferLog(m, o))
  {
    OrderedForView(steps, o);
    assert NoneBefore(Run(steps), o, false);
    OfferViewFollowsLog(steps, o);
    StoredInLogOrder(steps, o, true);
    StoresAreLog(steps, o, true);
    ListByStores(steps, o);
  }

  /** Then a request that stops polling goes on with the ids of the latest `CredentialsAdded` and the subject of the latest
      `CredentialRequestVerified` on record at that moment. */
  lemma PollSeesLatest(steps: seq<Step>, pid: nat, w: Outside)
    requires pid in Run(steps).processes && Run(steps).processes[pid].pc.RequestPoll? && Run(steps).processes[pid].pending.Idle?
    requires var o := Run(steps).processes[pid].pc.offerId; Ordered(steps, o, false) && NoneBefore(Run(steps), o, false)
    requires Act(Run(steps).memory, Run(steps).processes[pid], w).next.pc.RequestSign?
    ensures var m, pc := Run(steps).memory, Act(Run(steps).memory, Run(steps).processes[pid], w).next.pc;
            && pc.offerId == Run(steps).processes[pid].pc.offerId
            && pc.ids == O.LastAdded(OfferLog(m, pc.offerId)) != []
            && Some(pc.subjectId) == O.LastVerified(OfferLog(m, pc.offerId))
            && pc.signed == []
  {
    var o := Run(steps).processes[pid].pc.offerId;
    OfferViewFollowsLog(steps, o);
    O.ViewShowsLatest(OfferLog(Run(steps).memory, o));
  }

  /** Uninterrupted dispatches are ordered, for every offer and both views. */
  lemma {:induction false} AtomicIsOrdered(steps: seq<Step>, o: string, list: bool)
    requires Atomic(steps)
    ensures Ordered(steps, o, list)
  {
    if steps != [] {
      AtomicIsOrdered(steps[..|steps| - 1], o, list);
    }
  }

  // ----- undivided accesses: no races, but no order either -----

  /** When every load is followed by its store before another request moves, there are no races for the list, ... */
  lemma {:induction false} UndividedList(steps: seq<Step>)
    requires Undivided(steps)
    ensures Current(ListTrace(steps))
  {
    if steps != [] {
      var front, last := steps[..|steps| - 1], steps[|steps| - 1];
      var at, s := Positions(front), Run(front);
      UndividedList(front);
      ListAlwaysMatches(front);
      assert ListTrace(front).current.Keys == ListCopies(at, s.processes).Keys;
      RecordCurrent(ListTrace(front), ListNote(at, s, last));
    }
  }

  /** ... nor for any view. */
  lemma {:induction false} UndividedView(steps: seq<Step>, o: string)
    requires Undivided(steps)
    ensures Current(ViewTrace(steps, o))
  {
    if steps != [] {
      var front, last := steps[..|steps| - 1], steps[|steps| - 1];
      var at, s := Positions(front), Run(front);
      UndividedView(front, o);
      ViewAlwaysMatches(front, o);
      assert ViewTrace(front, o).current.Keys == ViewCopies(at, s.processes, o).Keys;
      RecordCurrent(ViewTrace(front, o), ViewNote(at, s, last, o));
    }
  }
}
