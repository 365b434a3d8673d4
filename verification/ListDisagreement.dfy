/**
 A run in which the list of all offers and the single view disagree although every load is followed by its store before another
 request moves: two requests verify, the first stores the view first and the list last.
 */
module ListDisagreement {
  import opened Wrappers
  import opened EventSourcing
  import opened IssuerMachine
  import opened IssuerAtomic
  import opened Continuations
  import opened OfferTraces
  import opened OfferOrder
  import opened AllOffers
  import SC = ServerConfig
  import O = IssuerOffer
  import C = IssuerCredential

  /** The run `all` goes on from `steps`: the memory is `m`, up to the strings drawn, and one process has moved on to `p`. */
  ghost predicate Grows(steps: seq<Step>, all: seq<Step>, m: Memory, pid: nat, p: Process) {
    && Undivided(all)
    && Run(all).memory == m.(drawn := Run(all).memory.drawn)
    && Run(all).processes == Run(steps).processes[pid := p]
  }

  lemma GrowsOn(steps: seq<Step>, mid: seq<Step>, all: seq<Step>, m: Memory, pid: nat, p: Process, m': Memory, p': Process)
    requires Grows(steps, mid, m, pid, p) && Grows(mid, all, m', pid, p')
    ensures Grows(steps, all, m', pid, p')
  {
  }

  /** One more move, with strings not used before. */
  lemma Moves(steps: seq<Step>, pid: nat, w: Outside) returns (all: seq<Step>, d: Outside)
    requires Undivided(steps) && pid in Run(steps).processes && NobodyElse(Run(steps), pid)
    ensures d == Drawing(w, d.uuid)
    ensures var s := Run(steps); var a := Act(s.memory, s.processes[pid], d); Grows(steps, all, Perform(s.memory, a.effect), pid, a.next)
  {
    var s := Run(steps);
    d := Drawing(w, NewString(s.memory.drawn));
    all := steps + [Move(pid, d)];
    assert all[..|all| - 1] == steps;
  }

  lemma Arrives(steps: seq<Step>, pid: nat, request: Request) returns (all: seq<Step>)
    requires Undivided(steps) && pid !in Run(steps).processes
    ensures Grows(steps, all, Run(steps).memory, pid, Process(Entrance(request), Idle))
  {
    all := steps + [Arrive(pid, request)];
    assert all[..|all| - 1] == steps;
  }

  // ----- the stages of a dispatch -----

  lemma StillNobodyElse(s: State, t: State, pid: nat, p: Process)
    requires NobodyElse(s, pid) && t.processes == s.processes[pid := p]
    ensures NobodyElse(t, pid)
  {
  }

  lemma Views(steps: seq<Step>, pid: nat, pc: Pc, id: string, event: O.OfferEvent) returns (all: seq<Step>)
    requires Undivided(steps) && pid in Run(steps).processes && NobodyElse(Run(steps), pid)
    requires Run(steps).processes[pid] == Process(pc, OfferDispatch(id, event, LoadView))
    ensures var m := Run(steps).memory;
            Grows(steps, all, m.(offers := UpdateEntry(O.Update, O.EMPTY_VIEW, m.offers, id, event)), pid,
                  Process(pc, OfferDispatch(id, event, LoadAll)))
  {
    var m := Run(steps).memory;
    var copy := Process(pc, OfferDispatch(id, event, StoreView(EntryOr(m.offers, id, O.EMPTY_VIEW))));
    var mid, d := Moves(steps, pid, AnyOutside());
    assert Grows(steps, mid, m, pid, copy);
    StillNobodyElse(Run(steps), Run(mid), pid, copy);
    all, d := Moves(mid, pid, AnyOutside());
    var m' := m.(offers := UpdateEntry(O.Update, O.EMPTY_VIEW, m.offers, id, event));
    assert Grows(mid, all, m', pid, Process(pc, OfferDispatch(id, event, LoadAll)));
    GrowsOn(steps, mid, all, m, pid, copy, m', Process(pc, OfferDispatch(id, event, LoadAll)));
  }

  lemma Lists(steps: seq<Step>, pid: nat, pc: Pc, id: string, event: O.OfferEvent) returns (all: seq<Step>)
    requires Undivided(steps) && pid in Run(steps).processes && NobodyElse(Run(steps), pid)
    requires Run(steps).processes[pid] == Process(pc, OfferDispatch(id, event, LoadAll))
    ensures var m := Run(steps).memory;
            Grows(steps, all, m.(allOffers := UpdateEntry(O.Update, O.EMPTY_VIEW, m.allOffers, id, event)), pid,
                  Process(pc, OfferDispatch(id, event, LoadCode)))
  {
    var m := Run(steps).memory;
    var copy := Process(pc, OfferDispatch(id, event, StoreAll(m.allOffers)));
    var mid, d := Moves(steps, pid, AnyOutside());
    assert Grows(steps, mid, m, pid, copy);
    StillNobodyElse(Run(steps), Run(mid), pid, copy);
    all, d := Moves(mid, pid, AnyOutside());
    var m' := m.(allOffers := UpdateEntry(O.Update, O.EMPTY_VIEW, m.allOffers, id, event));
    assert Grows(mid, all, m', pid, Process(pc, OfferDispatch(id, event, LoadCode)));
    GrowsOn(steps, mid, all, m, pid, copy, m', Process(pc, OfferDispatch(id, event, LoadCode)));
  }

  /** The two indexes have nothing to store for other events than creations. */
  lemma Skips(steps: seq<Step>, pid: nat, pc: Pc, id: string, event: O.OfferEvent) returns (all: seq<Step>)
    requires Undivided(steps) && pid in Run(steps).processes && NobodyElse(Run(steps), pid) && !event.CredentialOfferCreated?
    requires Run(steps).processes[pid] == Process(pc, OfferDispatch(id, event, LoadCode))
    ensures Grows(steps, all, Run(steps).memory, pid, Process(pc, Idle))
  {
    var m, token := Run(steps).memory, Process(pc, OfferDispatch(id, event, LoadToken));
    var mid, d := Moves(steps, pid, AnyOutside());
    assert Grows(steps, mid, m, pid, token);
    StillNobodyElse(Run(steps), Run(mid), pid, token);
    all, d := Moves(mid, pid, AnyOutside());
    assert Grows(mid, all, m, pid, Process(pc, Idle));
    GrowsOn(steps, mid, all, m, pid, token, m, Process(pc, Idle));
  }

  lemma Codes(steps: seq<Step>, pid: nat, pc: Pc, id: string, event: O.OfferEvent) returns (all: seq<Step>)
    requires Undivided(steps) && pid in Run(steps).processes && NobodyElse(Run(steps), pid) && event.CredentialOfferCreated?
    requires Run(steps).processes[pid] == Process(pc, OfferDispatch(id, event, LoadCode))
    ensures var m := Run(steps).memory;
            Grows(steps, all, m.(codes := m.codes[event.preAuthorizedCode := id]), pid, Process(pc, OfferDispatch(id, event, LoadToken)))
  {
    var m := Run(steps).memory;
    var copy := Process(pc, OfferDispatch(id, event, StoreCode(EntryOr(m.codes, id, ""))));
    var mid, d := Moves(steps, pid, AnyOutside());
    assert Grows(steps, mid, m, pid, copy);
    StillNobodyElse(Run(steps), Run(mid), pid, copy);
    all, d := Moves(mid, pid, AnyOutside());
    var m' := m.(codes := m.codes[event.preAuthorizedCode := id]);
    assert Grows(mid, all, m', pid, Process(pc, OfferDispatch(id, event, LoadToken)));
    GrowsOn(steps, mid, all, m, pid, copy, m', Process(pc, OfferDispatch(id, event, LoadToken)));
  }

  lemma Tokens(steps: seq<Step>, pid: nat, pc: Pc, id: string, event: O.OfferEvent) returns (all: seq<Step>)
    requires Undivided(steps) && pid in Run(steps).processes && NobodyElse(Run(steps), pid) && event.CredentialOfferCreated?
    requires Run(steps).processes[pid] == Process(pc, OfferDispatch(id, event, LoadToken))
    ensures var m := Run(steps).memory; Grows(steps, all, m.(tokens := m.tokens[event.accessToken := id]), pid, Process(pc, Idle))
  {
    var m := Run(steps).memory;
    var copy := Process(pc, OfferDispatch(id, event, StoreToken(EntryOr(m.tokens, id, ""))));
    var mid, d := Moves(steps, pid, AnyOutside());
    assert Grows(steps, mid, m, pid, copy);
    StillNobodyElse(Run(steps), Run(mid), pid, copy);
    all, d := Moves(mid, pid, AnyOutside());
    var m' := m.(tokens := m.tokens[event.accessToken := id]);
    assert Grows(mid, all, m', pid, Process(pc, Idle));
    GrowsOn(steps, mid, all, m, pid, copy, m', Process(pc, Idle));
  }

  // ----- the requests -----

  /** An `offers` request finds no offer and puts its creation on record. */
  lemma Creates(o: string, metadata: SC.Metadata) returns (all: seq<Step>, event: O.OfferEvent)
    ensures event.CredentialOfferCreated?
    ensures Grows([], all, EMPTY_MEMORY.(offerLogs := map[o := [event]]), 0, Process(OffersEncode(o), OfferDispatch(o, event, LoadView)))
  {
    assert Run([]) == INITIAL;
    var s0 := Arrives([], 0, PostOffers(o));
    var s1, d := Moves(s0, 0, AnyOutside().(metadata := Some(metadata)));
    assert Grows([], s1, EMPTY_MEMORY, 0, Process(OffersLookup(o, metadata), Idle));
    var s2;
    s2, d := Moves(s1, 0, AnyOutside());
    assert Grows([], s2, EMPTY_MEMORY, 0, Process(OffersCreate(o, metadata), Idle));
    all, event := Commits(s2, o, metadata);
  }

  lemma Commits(steps: seq<Step>, o: string, metadata: SC.Metadata) returns (all: seq<Step>, event: O.OfferEvent)
    requires Grows([], steps, EMPTY_MEMORY, 0, Process(OffersCreate(o, metadata), Idle))
    ensures event.CredentialOfferCreated?
    ensures Grows([], all, EMPTY_MEMORY.(offerLogs := map[o := [event]]), 0, Process(OffersEncode(o), OfferDispatch(o, event, LoadView)))
  {
    assert Run([]) == INITIAL;
    var d;
    all, d := Moves(steps, 0, AnyOutside());
    event := O.CredentialOfferCreated(O.CredentialOffer(metadata.credentialIssuer, metadata.configurations.Keys, d.uuid), d.uuid, d.uuid);
    assert OfferLog(Run(steps).memory, o) == [] && [] + [event] == [event];
    assert Act(Run(steps).memory, Run(steps).processes[0], d)
        == Action(AppendOffer(o, event), Process(OffersEncode(o), OfferDispatch(o, event, LoadView)));
  }

  /** The offer is up: created, dispatched, and nothing else. */
  ghost predicate Up(steps: seq<Step>, o: string, event: O.OfferEvent) {
    var m := Run(steps).memory;
    && Undivided(steps) && event.CredentialOfferCreated?
    && Run(steps).processes == map[0 := Process(OffersEncode(o), Idle)]
    && OfferLog(m, o) == [event] && o in m.offers && o in m.allOffers && event.accessToken in m.tokens && m.tokens[event.accessToken] == o
  }

  lemma GoesUp(o: string, metadata: SC.Metadata) returns (steps: seq<Step>, event: O.OfferEvent)
    ensures Up(steps, o, event)
  {
    var pc := OffersEncode(o);
    assert Run([]) == INITIAL;
    var s0, s1, s2, s3;
    s0, event := Creates(o, metadata);
    s1 := Views(s0, 0, pc, o, event);
    s2 := Lists(s1, 0, pc, o, event);
    s3 := Codes(s2, 0, pc, o, event);
    steps := Tokens(s3, 0, pc, o, event);
    assert Run(steps).processes == map[0 := Process(pc, Idle)];
  }

  lemma Enters(steps: seq<Step>, pid: nat, bearer: string, o: string) returns (all: seq<Step>)
    requires Undivided(steps) && pid !in Run(steps).processes && NobodyElse(Run(steps), pid)
    requires bearer in Run(steps).memory.tokens && Run(steps).memory.tokens[bearer] == o
    ensures Grows(steps, all, Run(steps).memory, pid, Process(RequestMetadata(bearer, o), Idle))
  {
    var m, start := Run(steps).memory, Process(RequestStart(bearer), Idle);
    var mid := Arrives(steps, pid, PostCredential(bearer));
    StillNobodyElse(Run(steps), Run(mid), pid, start);
    var d;
    all, d := Moves(mid, pid, AnyOutside());
    assert Grows(mid, all, m, pid, Process(RequestMetadata(bearer, o), Idle));
    GrowsOn(steps, mid, all, m, pid, start, m, Process(RequestMetadata(bearer, o), Idle));
  }

  /** A credential request comes in and gets as far as its proof. */
  lemma Asks(steps: seq<Step>, pid: nat, bearer: string, o: string) returns (all: seq<Step>)
    requires Undivided(steps) && pid !in Run(steps).processes && NobodyElse(Run(steps), pid)
    requires bearer in Run(steps).memory.tokens && Run(steps).memory.tokens[bearer] == o
    ensures Grows(steps, all, Run(steps).memory, pid, Process(RequestVerify(bearer, o), Idle))
  {
    var m, reading := Run(steps).memory, Process(RequestMetadata(bearer, o), Idle);
    var mid := Enters(steps, pid, bearer, o);
    StillNobodyElse(Run(steps), Run(mid), pid, reading);
    var d;
    all, d := Moves(mid, pid, AnyOutside().(metadata := Some(SC.Metadata("", map[]))));
    assert Grows(mid, all, m, pid, Process(RequestVerify(bearer, o), Idle));
    GrowsOn(steps, mid, all, m, pid, reading, m, Process(RequestVerify(bearer, o), Idle));
  }

  lemma Verifies(steps: seq<Step>, pid: nat, bearer: string, o: string, subjectId: string) returns (all: seq<Step>)
    requires Undivided(steps) && pid !in Run(steps).processes && NobodyElse(Run(steps), pid)
    requires bearer in Run(steps).memory.tokens && Run(steps).memory.tokens[bearer] == o
    ensures var m, event := Run(steps).memory, O.CredentialRequestVerified(subjectId);
            Grows(steps, all, m.(offerLogs := m.offerLogs[o := OfferLog(m, o) + [event]]), pid,
                  Process(RequestPoll(bearer, o), OfferDispatch(o, event, LoadView)))
  {
    var m, event := Run(steps).memory, O.CredentialRequestVerified(subjectId);
    var asking := Process(RequestVerify(bearer, o), Idle);
    var mid := Asks(steps, pid, bearer, o);
    StillNobodyElse(Run(steps), Run(mid), pid, asking);
    var d;
    all, d := Moves(mid, pid, AnyOutside().(offer := AnyOutside().offer.(proof := Success(subjectId))));
    var m', next := m.(offerLogs := m.offerLogs[o := OfferLog(m, o) + [event]]), Process(RequestPoll(bearer, o), OfferDispatch(o, event, LoadView));
    assert Act(Run(mid).memory, asking, d) == Action(AppendOffer(o, event), next);
    assert Grows(mid, all, m', pid, next);
    GrowsOn(steps, mid, all, m, pid, asking, m', next);
  }

  /** A request verifies and stores the view, but not yet the list. */
  lemma VerifiesInView(steps: seq<Step>, pid: nat, bearer: string, o: string, subjectId: string) returns (all: seq<Step>)
    requires Undivided(steps) && pid !in Run(steps).processes && NobodyElse(Run(steps), pid) && o in Run(steps).memory.offers
    requires bearer in Run(steps).memory.tokens && Run(steps).memory.tokens[bearer] == o
    ensures var m, event := Run(steps).memory, O.CredentialRequestVerified(subjectId);
            Grows(steps, all, m.(offerLogs := m.offerLogs[o := OfferLog(m, o) + [event]],
                                 offers := m.offers[o := m.offers[o].(subjectId := Some(subjectId))]), pid,
                  Process(RequestPoll(bearer, o), OfferDispatch(o, event, LoadAll)))
  {
    var event := O.CredentialRequestVerified(subjectId);
    var mid := Verifies(steps, pid, bearer, o, subjectId);
    StillNobodyElse(Run(steps), Run(mid), pid, Process(RequestPoll(bearer, o), OfferDispatch(o, event, LoadView)));
    all := Views(mid, pid, RequestPoll(bearer, o), o, event);
    assert Run(all).processes == Run(steps).processes[pid := Process(RequestPoll(bearer, o), OfferDispatch(o, event, LoadAll))];
  }

  /** Then it stores the list, and its dispatch is over. */
  lemma Finishes(steps: seq<Step>, pid: nat, bearer: string, o: string, subjectId: string) returns (all: seq<Step>)
    requires Undivided(steps) && pid in Run(steps).processes && NobodyElse(Run(steps), pid) && o in Run(steps).memory.allOffers
    requires Run(steps).processes[pid]
          == Process(RequestPoll(bearer, o), OfferDispatch(o, O.CredentialRequestVerified(subjectId), LoadAll))
    ensures var m := Run(steps).memory;
            Grows(steps, all, m.(allOffers := m.allOffers[o := m.allOffers[o].(subjectId := Some(subjectId))]), pid,
                  Process(RequestPoll(bearer, o), Idle))
  {
    var event := O.CredentialRequestVerified(subjectId);
    var mid := Lists(steps, pid, RequestPoll(bearer, o), o, event);
    StillNobodyElse(Run(steps), Run(mid), pid, Process(RequestPoll(bearer, o), OfferDispatch(o, event, LoadCode)));
    all := Skips(mid, pid, RequestPoll(bearer, o), o, event);
    assert Run(all).processes == Run(steps).processes[pid := Process(RequestPoll(bearer, o), Idle)];
  }

  /** A request has verified and stored the view, and not yet the list. */
  predicate VerifiedInView(p: Process, bearer: string, o: string, subjectId: string) {
    p == Process(RequestPoll(bearer, o), OfferDispatch(o, O.CredentialRequestVerified(subjectId), LoadAll))
  }

  lemma OneVerifies(steps: seq<Step>, o: string, event: O.OfferEvent) returns (all: seq<Step>)
    requires Up(steps, o, event)
    ensures Undivided(all) && Run(all).processes.Keys == {0, 1} && Run(all).processes[0].pending.Idle?
    ensures VerifiedInView(Run(all).processes[1], event.accessToken, o, "first")
    ensures var m := Run(all).memory;
            && o in m.offers && o in m.allOffers && OfferLog(m, o) == [event, O.CredentialRequestVerified("first")]
            && event.accessToken in m.tokens && m.tokens[event.accessToken] == o
  {
    all := VerifiesInView(steps, 1, event.accessToken, o, "first");
  }

  /** Two requests have verified and stored the view, one after the other. */
  lemma TwoVerify(steps: seq<Step>, o: string, event: O.OfferEvent) returns (all: seq<Step>)
    requires Up(steps, o, event)
    ensures Undivided(all) && Run(all).processes.Keys == {0, 1, 2} && Run(all).processes[0].pending.Idle?
    ensures VerifiedInView(Run(all).processes[1], event.accessToken, o, "first")
    ensures VerifiedInView(Run(all).processes[2], event.accessToken, o, "second")
    ensures var m := Run(all).memory;
            && o in m.offers && m.offers[o].subjectId == Some("second") && o in m.allOffers
            && OfferLog(m, o) == [event, O.CredentialRequestVerified("first"), O.CredentialRequestVerified("second")]
  {
    var mid := OneVerifies(steps, o, event);
    all := VerifiesInView(mid, 2, event.accessToken, o, "second");
  }

  /** In this run every load is followed by its store before another request moves, so there are no races, and it ends with every
      dispatch over. Yet the view shows the subject verified last and the list shows the one verified before it. */
  lemma ListDisagrees(o: string, metadata: SC.Metadata) returns (steps: seq<Step>)
    ensures Undivided(steps) && NoRaces(steps, o) && forall p :: p in Run(steps).processes ==> Run(steps).processes[p].pending.Idle?
    ensures var m := Run(steps).memory;
            && o in m.offers && m.offers[o].subjectId == Some("second") == O.LastVerified(OfferLog(m, o))
            && o in m.allOffers && m.allOffers[o].subjectId == Some("first")
  {
    var s0, event := GoesUp(o, metadata);
    var s1 := TwoVerify(s0, o, event);
    var s2 := Finishes(s1, 2, event.accessToken, o, "second");
    steps := Finishes(s2, 1, event.accessToken, o, "first");
    UndividedList(steps);
    UndividedView(steps, o);
    var log := OfferLog(Run(steps).memory, o);
    assert log[|log| - 1] == O.CredentialRequestVerified("second");
  }
}
