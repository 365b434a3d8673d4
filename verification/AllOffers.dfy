/**
 The list of all offers against the single offer views, in every run and any interleaving. Unlike those of a credential, the
 dispatches of one offer may overtake each other, so its view and the list may see its events in different orders, and neither
 need be the order of the log. Without races each shows the replay of the events in the order of its own stores; so the two
 agree if and only if for each kind of event the one stored last wrote the same value. That no access of another dispatch falls
 between a load and its store is not enough for that (`ListDisagrees`).
 */
module AllOffers {
  import opened Wrappers
  import opened EventSourcing
  import opened IssuerMachine
  import opened IssuerAtomic
  import opened SharedViews
  import opened ListAllSchedules
  import opened Traces
  import opened StoreOrders
  import opened OfferTraces
  import O = IssuerOffer

  // ----- each view by its own stores -----

  lemma {:induction false} ReplayEvents(order: seq<Event>)
    ensures Replay(Apply, O.EMPTY_VIEW, order) == O.View(Events(order))
  {
    if order != [] {
      var front, last := order[..|order| - 1], order[|order| - 1];
      ReplayEvents(front);
      assert Events(order) == Events(front) + [last.event];
      ReplaySnoc(O.Update, O.EMPTY_VIEW, Events(front), last.event);
    }
  }

  lemma PresentAfter(at: map<nat, nat>, s: State, step: Step, o: string)
    ensures o in Exec(s, step).memory.offers <==> o in s.memory.offers || Delivery(at, s, step, o, false) != []
  {
    if Enabled(s, step) && step.Move? && !StoresView(s.processes[step.pid], o) {
      PutsOwn(s.memory, s.processes[step.pid], step.w, o);
      SamePresence(s.memory, Act(s.memory, s.processes[step.pid], step.w).effect, o);
    }
  }

  lemma PutsOwn(m: Memory, p: Process, w: Outside, o: string)
    requires !StoresView(p, o)
    ensures var effect := Act(m, p, w).effect; !(effect.PutOffer? && effect.id == o)
  {
    var effect := Act(m, p, w).effect;
    if effect.PutOffer? {
      OnlyHoldersStore(m, p, w);
      assert effect.id == p.pending.id;
    }
  }

  lemma SamePresence(m: Memory, effect: Effect, o: string)
    requires !(effect.PutOffer? && effect.id == o)
    ensures o in Perform(m, effect).offers <==> o in m.offers
  {
  }

  lemma {:induction false} PresentExactly(steps: seq<Step>, o: string)
    ensures o in Run(steps).memory.offers <==> Order(steps, o, false) != []
  {
    if steps != [] {
      var front, last := steps[..|steps| - 1], steps[|steps| - 1];
      assert steps == front + [last];
      PresentExactly(front, o);
      PresentAfter(Positions(front), Run(front), last, o);
      ViewOrderGrows(front, last, o);
    }
  }

  /** The view of an offer, without races for it, is the replay of its events in the order in which they were stored there. */
  lemma ViewByStores(steps: seq<Step>, o: string)
    requires RaceFree(ViewTrace(steps, o).schedule)
    ensures Follows(Run(steps).memory.offers, O.Update, O.EMPTY_VIEW, o, Events(Order(steps, o, false)))
  {
    var t := ViewTrace(steps, o);
    ViewAlwaysMatches(steps, o);
    RaceFreeAgrees(Apply, O.EMPTY_VIEW, t.tasks, t.schedule);
    ReplayEvents(Order(steps, o, false));
    PresentExactly(steps, o);
  }

  /** Its entry in the list, without races for the list, is the replay in the order in which they were stored in the list. */
  lemma ListByStores(steps: seq<Step>, o: string)
    requires RaceFree(ListTrace(steps).schedule)
    ensures Follows(Run(steps).memory.allOffers, O.Update, O.EMPTY_VIEW, o, Events(Order(steps, o, true)))
  {
    var t := ListTrace(steps);
    ListAlwaysMatches(steps);
    RaceFreeLists(Apply, O.EMPTY_VIEW, t.tasks, t.schedule, o);
    ReplayEvents(Order(steps, o, true));
  }

  // ----- each order is an order of the log -----

  ghost predicate NoneBefore(s: State, o: string, list: bool) {
    forall p :: p in s.processes ==> !Before(s.processes[p], o, list)
  }

  /** Conservation: once every dispatch of the offer has stored the view (or the list), exactly the events of its log have been
      stored there, each as often as it is in the log. */
  lemma StoresAreLog(steps: seq<Step>, o: string, list: bool)
    requires NoneBefore(Run(steps), o, list)
    ensures multiset(Events(Order(steps, o, list))) == multiset(OfferLog(Run(steps).memory, o))
    ensures InLogOrder(Order(steps, o, list)) ==> Events(Order(steps, o, list)) == OfferLog(Run(steps).memory, o)
  {
    var holders := Holders(Positions(steps), Run(steps).processes, o, list);
    AlwaysAccounted(steps, o, list);
    assert holders == map[];
    AllStored(OfferLog(Run(steps).memory, o), Order(steps, o, list), holders);
    InOrderIsLog(OfferLog(Run(steps).memory, o), Order(steps, o, list), holders);
  }

  // ----- when two orders show the same -----

  datatype Kind = Creating | Adding | Encoding | Verifying | Answering | Giving

  predicate OfKind(e: O.OfferEvent, kind: Kind) {
    match kind
    case Creating => e.CredentialOfferCreated?
    case Adding => e.CredentialsAdded?
    case Encoding => e.FormUrlEncodedCredentialOfferCreated?
    case Verifying => e.CredentialRequestVerified?
    case Answering => e.TokenResponseCreated?
    case Giving => e.CredentialResponseCreated?
  }

  function LatestOf(events: seq<O.OfferEvent>, kind: Kind): (r: Option<O.OfferEvent>)
    ensures r.Some? ==> OfKind(r.value, kind)
  {
    if events == [] then None
    else if OfKind(events[|events| - 1], kind) then Some(events[|events| - 1])
    else LatestOf(events[..|events| - 1], kind)
  }

  /** What an event writes into a view. */
  function Written(e: Option<O.OfferEvent>): O.OfferView {
    if e.Some? then O.Update(O.EMPTY_VIEW, e.value) else O.EMPTY_VIEW
  }

  /** For each kind of event, the last one of each writes the same. */
  ghost predicate SameLatest(a: seq<O.OfferEvent>, b: seq<O.OfferEvent>) {
    forall kind :: Written(LatestOf(a, kind)) == Written(LatestOf(b, kind))
  }

  /** The views agree in what events of the kind write. */
  predicate SameField(u: O.OfferView, v: O.OfferView, kind: Kind) {
    match kind
    case Creating => u.preAuthorizedCode == v.preAuthorizedCode && u.accessToken == v.accessToken
    case Adding => u.credentialIds == v.credentialIds
    case Encoding => u.form == v.form
    case Verifying => u.subjectId == v.subjectId
    case Answering => u.tokenResponse == v.tokenResponse
    case Giving => u.credentialResponse == v.credentialResponse
  }

  lemma {:induction false} FieldShowsLatest(events: seq<O.OfferEvent>, kind: Kind)
    ensures SameField(O.View(events), Written(LatestOf(events, kind)), kind)
  {
    if events != [] {
      FieldShowsLatest(events[..|events| - 1], kind);
    }
  }

  /** Two orders of events show the same if and only if, for each kind, the last ones write the same. */
  lemma SameShownExactly(a: seq<O.OfferEvent>, b: seq<O.OfferEvent>)
    ensures O.View(a) == O.View(b) <==> SameLatest(a, b)
  {
    O.ViewSimulatesAggregate(a);
    O.ViewSimulatesAggregate(b);
    forall kind ensures SameField(O.View(a), O.View(b), kind) <==> Written(LatestOf(a, kind)) == Written(LatestOf(b, kind)) {
      FieldShowsLatest(a, kind);
      FieldShowsLatest(b, kind);
    }
    assert O.View(a) == O.View(b) <==> forall kind :: SameField(O.View(a), O.View(b), kind) by {
      if forall kind :: SameField(O.View(a), O.View(b), kind) {
        assert SameField(O.View(a), O.View(b), Creating) && SameField(O.View(a), O.View(b), Adding);
        assert SameField(O.View(a), O.View(b), Encoding) && SameField(O.View(a), O.View(b), Verifying);
        assert SameField(O.View(a), O.View(b), Answering) && SameField(O.View(a), O.View(b), Giving);
      }
    }
  }

  ghost predicate NoRaces(steps: seq<Step>, o: string) {
    RaceFree(ViewTrace(steps, o).schedule) && RaceFree(ListTrace(steps).schedule)
  }

  /** Exactly when the list and the view of an offer agree, in every run without races whose dispatches of that offer are over:
      when for each kind of event the one stored last in the view and the one stored last in the list write the same value. */
  lemma AgreeExactly(steps: seq<Step>, o: string)
    requires NoneBefore(Run(steps), o, true) && NoRaces(steps, o)
    ensures var m := Run(steps).memory;
            && (o in m.offers <==> OfferLog(m, o) != []) && (o in m.allOffers <==> OfferLog(m, o) != [])
            && (o in m.offers ==>
                  (m.allOffers[o] == m.offers[o] <==> SameLatest(Events(Order(steps, o, true)), Events(Order(steps, o, false)))))
  {
    var listed, shown := Events(Order(steps, o, true)), Events(Order(steps, o, false));
    assert NoneBefore(Run(steps), o, false);
    StoresAreLog(steps, o, true);
    StoresAreLog(steps, o, false);
    ViewByStores(steps, o);
    ListByStores(steps, o);
    SameShownExactly(listed, shown);
    assert |multiset(listed)| == |listed| && |multiset(shown)| == |shown|;
  }

  // ----- the view that keeps the order -----

  /** A view that keeps the positions of its events, in the order in which it sees them. */
  const KEEP := (seen: seq<nat>, e: Event) => seen + [e.position]

  lemma {:induction false} KeepsAll(order: seq<Event>)
    ensures var seen := Replay(KEEP, [], order);
            |seen| == |order| && forall i :: 0 <= i < |order| ==> seen[i] == order[i].position
  {
    if order != [] {
      KeepsAll(order[..|order| - 1]);
    }
  }

  /** What that view shows of the offer, over the same loads and stores. */
  function KeptInView(steps: seq<Step>, o: string): seq<nat> {
    Play(KEEP, [], ViewTrace(steps, o).tasks, ViewTrace(steps, o).schedule).view
  }

  function KeptInList(steps: seq<Step>, o: string): seq<nat> {
    EntryOr(Play(Listing(KEEP, []), map[], ListTrace(steps).tasks, ListTrace(steps).schedule).view, o, [])
  }

  /** Exactly when all views agree: when the events were stored in the list in the same order as in the view. For then every view
      agrees with its list, and otherwise the one that keeps the order does not. */
  lemma SameOrderExactly(steps: seq<Step>, o: string)
    requires NoRaces(steps, o)
    ensures KeptInList(steps, o) == KeptInView(steps, o) <==> Order(steps, o, true) == Order(steps, o, false)
    ensures Order(steps, o, true) == Order(steps, o, false) ==>
              EntryOr(Run(steps).memory.allOffers, o, O.EMPTY_VIEW) == EntryOr(Run(steps).memory.offers, o, O.EMPTY_VIEW)
  {
    var v, l, shown, listed := ViewTrace(steps, o), ListTrace(steps), Order(steps, o, false), Order(steps, o, true);
    ViewAlwaysMatches(steps, o);
    ListAlwaysMatches(steps);
    RaceFreeAgrees(KEEP, [], v.tasks, v.schedule);
    RaceFreeLists(KEEP, [], l.tasks, l.schedule, o);
    KeepsAll(shown);
    KeepsAll(listed);
    AlwaysAccounted(steps, o, false);
    AlwaysAccounted(steps, o, true);
    if KeptInList(steps, o) == KeptInView(steps, o) {
      SamePlaces(OfferLog(Run(steps).memory, o), listed, shown);
    }
    ViewByStores(steps, o);
    ListByStores(steps, o);
  }

  lemma {:induction false} ViewKnown(steps: seq<Step>, o: string)
    ensures Known(ViewTrace(steps, o))
  {
    if steps != [] {
      var front, last := steps[..|steps| - 1], steps[|steps| - 1];
      var s, at := Run(front), Positions(front);
      ViewKnown(front, o);
      ViewAlwaysMatches(front, o);
      ViewStepNoted(at, s, last, o);
      assert ViewTrace(front, o).current.Keys == ViewCopies(at, s.processes, o).Keys;
      RecordKnown(ViewTrace(front, o), ViewNote(at, s, last, o));
    }
  }

  /** Once the dispatches are over, every task has been stored, and under a position of its own. */
  lemma TasksApart(steps: seq<Step>, o: string, i: nat, j: nat)
    requires NoneBefore(Run(steps), o, false)
    requires i < |ViewTrace(steps, o).tasks| && j < |ViewTrace(steps, o).tasks| && i != j
    ensures ViewTrace(steps, o).tasks[i].position != ViewTrace(steps, o).tasks[j].position
  {
    var t := ViewTrace(steps, o);
    ViewKnown(steps, o);
    ViewAlwaysMatches(steps, o);
    assert t.current.Keys == ViewCopies(Positions(steps), Run(steps).processes, o).Keys == {};
    AlwaysAccounted(steps, o, false);
    StoredApart(t.tasks, t.schedule, (e: Event) => e.position, i, j);
  }

  predicate ShowsPosition(tasks: seq<Event>, seen: seq<nat>, i: nat) {
    i < |tasks| && tasks[i].position in seen
  }

  lemma KeepRemembers(tasks: seq<Event>)
    requires forall i, j :: 0 <= i < |tasks| && 0 <= j < |tasks| && i != j ==> tasks[i].position != tasks[j].position
    ensures Remembers(KEEP, [], tasks, (seen, i) => ShowsPosition(tasks, seen, i))
  {
  }

  lemma NoneLost(steps: seq<Step>, o: string, seen: seq<nat>)
    requires seen == Numbers(|OfferLog(Run(steps).memory, o)|)
    ensures var t := ViewTrace(steps, o); NothingLost(seen, |t.tasks|, t.schedule, (seen, i) => ShowsPosition(t.tasks, seen, i))
  {
    var t, log := ViewTrace(steps, o), OfferLog(Run(steps).memory, o);
    ViewAlwaysMatches(steps, o);
    AlwaysAccounted(steps, o, false);
    forall i: nat | i < |t.tasks| && Store(i) in t.schedule ensures t.tasks[i].position in seen {
      InStored(t.tasks, t.schedule, i);
      var k :| 0 <= k < |Order(steps, o, false)| && Order(steps, o, false)[k] == t.tasks[i];
      assert At(log, Order(steps, o, false)[k]);
      assert seen[t.tasks[i].position] == t.tasks[i].position;
    }
  }

  /** Exactly when every view of an offer is right: the one that keeps the positions of its events, over the same loads and stores,
      shows the log in its order if and only if there was no race and the events were stored in the order of the log. */
  lemma RightExactly(steps: seq<Step>, o: string)
    requires NoneBefore(Run(steps), o, false)
    ensures KeptInView(steps, o) == Numbers(|OfferLog(Run(steps).memory, o)|)
       <==> RaceFree(ViewTrace(steps, o).schedule) && InLogOrder(Order(steps, o, false))
  {
    var t, order := ViewTrace(steps, o), Order(steps, o, false);
    forall i, j | 0 <= i < |t.tasks| && 0 <= j < |t.tasks| && i != j ensures t.tasks[i].position != t.tasks[j].position {
      TasksApart(steps, o, i, j);
    }
    KeepRemembers(t.tasks);
    ViewAlwaysMatches(steps, o);
    KeepsAll(order);
    StoresAreLog(steps, o, false);
    assert |order| == |OfferLog(Run(steps).memory, o)| by {
      assert |multiset(Events(order))| == |Events(order)| && |multiset(OfferLog(Run(steps).memory, o))| == |OfferLog(Run(steps).memory, o)|;
    }
    if KeptInView(steps, o) == Numbers(|OfferLog(Run(steps).memory, o)|) {
      NoneLost(steps, o, KeptInView(steps, o));
      NothingLostOnlyRaceFree(KEEP, [], t.tasks, t.schedule, (seen, i) => ShowsPosition(t.tasks, seen, i));
      RaceFreeAgrees(KEEP, [], t.tasks, t.schedule);
    } else if RaceFree(t.schedule) {
      RaceFreeAgrees(KEEP, [], t.tasks, t.schedule);
    }
  }

  lemma SamePlaces(log: seq<O.OfferEvent>, a: seq<Event>, b: seq<Event>)
    requires |a| == |b| && forall i :: 0 <= i < |a| ==> At(log, a[i]) && At(log, b[i]) && a[i].position == b[i].position
    ensures a == b
  {
    forall i | 0 <= i < |a| ensures a[i] == b[i] {
      assert At(log, a[i]) && At(log, b[i]);
    }
  }
}
