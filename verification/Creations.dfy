/**
 How often an offer is created. `offers` and `credentials` look an offer up and create it when it is not there; the two
 steps are not one. In every run the creations on record, together with the requests about to create, are exactly the
 lookups that found the offer absent.
 */
module Creations {
  import opened Wrappers
  import opened EventSourcing
  import opened IssuerMachine
  import opened Continuations
  import SC = ServerConfig
  import O = IssuerOffer

  /** The creations on record. */
  function Creations(log: seq<O.OfferEvent>): nat {
    if log == [] then 0
    else Creations(log[..|log| - 1]) + (if log[|log| - 1].CredentialOfferCreated? then 1 else 0)
  }

  function Created(m: Memory, offerId: string): nat {
    Creations(OfferLog(m, offerId))
  }

  /** The request is on the creating branch: it goes on to create the offer whatever it finds. */
  predicate Creates(p: Process, offerId: string) {
    (p.pc.OffersCreate? || p.pc.CredentialsOffer?) && p.pc.offerId == offerId
  }

  function Creators(s: State, offerId: string): set<nat> {
    set p | p in s.processes && Creates(s.processes[p], offerId)
  }

  /** The request is about to look the offer up, and will find nothing. */
  predicate FindsNothing(m: Memory, p: Process, offerId: string) {
    p.pending.Idle? && (p.pc.OffersLookup? || p.pc.CredentialsLookup?) && p.pc.offerId == offerId && offerId !in m.offers
  }

  predicate AbsentLookup(s: State, step: Step, offerId: string) {
    Enabled(s, step) && step.Move? && FindsNothing(s.memory, s.processes[step.pid], offerId)
  }

  /** The lookups of a run that found the offer absent. */
  function AbsentLookups(steps: seq<Step>, offerId: string): nat {
    if steps == [] then 0
    else
      var front, last := steps[..|steps| - 1], steps[|steps| - 1];
      AbsentLookups(front, offerId) + (if AbsentLookup(Run(front), last, offerId) then 1 else 0)
  }

  // ----- one step -----

  /** What a step of a process does to the count: an absent lookup puts it on the creating branch, and on that branch its next
      step of its own is the creation. */
  ghost predicate Accounted(m: Memory, p: Process, a: Action, offerId: string) {
    var created := if a.effect.AppendOffer? && a.effect.id == offerId && a.effect.event.CredentialOfferCreated? then 1 else 0;
    created + (if Creates(a.next, offerId) then 1 else 0)
    == (if Creates(p, offerId) then 1 else 0) + (if FindsNothing(m, p, offerId) then 1 else 0)
  }

  lemma DispatchAccounted(m: Memory, p: Process, w: Outside, offerId: string)
    requires !p.pending.Idle?
    ensures Accounted(m, p, Act(m, p, w), offerId)
  {
    var a := Act(m, p, w);
    assert !a.effect.AppendOffer? && a.next.pc == p.pc;
  }

  lemma CredentialsAccounted(m: Memory, p: Process, w: Outside, offerId: string)
    requires p.pending.Idle? && AtCredentials(p.pc)
    ensures Accounted(m, p, CredentialsStep(m, p.pc, w), offerId)
  {
  }

  lemma OffersAccounted(m: Memory, p: Process, w: Outside, offerId: string)
    requires p.pending.Idle? && AtOffers(p.pc)
    ensures Accounted(m, p, OffersStep(m, p.pc, w), offerId)
  {
  }

  lemma TokenAccounted(m: Memory, p: Process, w: Outside, offerId: string)
    requires p.pending.Idle? && AtToken(p.pc)
    ensures Accounted(m, p, TokenStep(m, p.pc, w), offerId)
  {
  }

  lemma RequestAccounted(m: Memory, p: Process, w: Outside, offerId: string)
    requires p.pending.Idle? && AtRequest(p.pc)
    ensures Accounted(m, p, RequestStep(m, p.pc, w), offerId)
  {
  }

  lemma MoveAccounted(m: Memory, p: Process, w: Outside, offerId: string)
    ensures Accounted(m, p, Act(m, p, w), offerId)
  {
    if !p.pending.Idle? {
      DispatchAccounted(m, p, w, offerId);
    } else if AtCredentials(p.pc) {
      CredentialsAccounted(m, p, w, offerId);
    } else if AtOffers(p.pc) {
      OffersAccounted(m, p, w, offerId);
    } else if AtToken(p.pc) {
      TokenAccounted(m, p, w, offerId);
    } else if AtRequest(p.pc) {
      RequestAccounted(m, p, w, offerId);
    }
  }

  lemma SameLogAfter(m: Memory, effect: Effect, offerId: string)
    requires !(effect.AppendOffer? && effect.id == offerId)
    ensures OfferLog(Perform(m, effect), offerId) == OfferLog(m, offerId)
  {
  }

  lemma CreatedAfter(m: Memory, effect: Effect, offerId: string)
    ensures Created(Perform(m, effect), offerId)
         == Created(m, offerId)
            + (if effect.AppendOffer? && effect.id == offerId && effect.event.CredentialOfferCreated? then 1 else 0)
  {
    if effect.AppendOffer? && effect.id == offerId {
      var log := OfferLog(m, offerId);
      assert OfferLog(Perform(m, effect), offerId) == log + [effect.event];
      assert (log + [effect.event])[..|log|] == log;
    } else {
      SameLogAfter(m, effect, offerId);
    }
  }

  lemma CreatorsWithout(s: State, t: State, pid: nat, p: Process, offerId: string)
    requires t.processes == s.processes[pid := p]
    ensures Creators(t, offerId) - {pid} == Creators(s, offerId) - {pid}
    ensures pid in Creators(t, offerId) <==> Creates(p, offerId)
  {
  }

  lemma SizeWithout(ids: set<nat>, pid: nat)
    ensures |ids| == |ids - {pid}| + (if pid in ids then 1 else 0)
  {
    if pid in ids {
      assert ids == (ids - {pid}) + {pid};
    } else {
      assert ids == ids - {pid};
    }
  }

  lemma CreatorsAfter(s: State, t: State, pid: nat, p: Process, offerId: string)
    requires t.processes == s.processes[pid := p]
    ensures |Creators(t, offerId)|
         == |Creators(s, offerId)| + (if Creates(p, offerId) then 1 else 0)
            - (if pid in s.processes && Creates(s.processes[pid], offerId) then 1 else 0)
  {
    CreatorsWithout(s, t, pid, p, offerId);
    SizeWithout(Creators(s, offerId), pid);
    SizeWithout(Creators(t, offerId), pid);
  }

  /** Creations on record plus requests about to create: one step changes the sum exactly when it is an absent lookup. */
  lemma StepConserves(s: State, step: Step, offerId: string)
    ensures var t := Exec(s, step);
            Created(t.memory, offerId) + |Creators(t, offerId)|
            == Created(s.memory, offerId) + |Creators(s, offerId)| + (if AbsentLookup(s, step, offerId) then 1 else 0)
  {
    if Enabled(s, step) {
      match step
      case Arrive(pid, request) =>
        CreatorsAfter(s, Exec(s, step), pid, Process(Entrance(request), Idle), offerId);
      case Move(pid, w) =>
        var a := Act(s.memory, s.processes[pid], w);
        MoveAccounted(s.memory, s.processes[pid], w, offerId);
        CreatedAfter(s.memory, a.effect, offerId);
        assert OfferLog(Exec(s, step).memory, offerId) == OfferLog(Perform(s.memory, a.effect), offerId);
        CreatorsAfter(s, Exec(s, step), pid, a.next, offerId);
    }
  }

  // ----- every run -----

  /** Conservation, in every run and any interleaving: the creations of an offer are the lookups that found it absent, except
      for those whose request has not got to the creation yet. */
  lemma {:induction false} CreationsAreAbsentLookups(steps: seq<Step>, offerId: string)
    ensures Created(Run(steps).memory, offerId) + |Creators(Run(steps), offerId)| == AbsentLookups(steps, offerId)
  {
    if steps != [] {
      CreationsAreAbsentLookups(steps[..|steps| - 1], offerId);
      StepConserves(Run(steps[..|steps| - 1]), steps[|steps| - 1], offerId);
    } else {
      assert Creators(INITIAL, offerId) == {};
    }
  }

  lemma OffersGrow(m: Memory, effect: Effect, offerId: string)
    ensures offerId in m.offers ==> offerId in Perform(m, effect).offers
  {
  }

  lemma {:induction false} ListedConserves(s: State, later: seq<Step>, offerId: string)
    requires offerId in s.memory.offers
    ensures var t := From(s, later);
            && offerId in t.memory.offers
            && Created(t.memory, offerId) + |Creators(t, offerId)| == Created(s.memory, offerId) + |Creators(s, offerId)|
            && Created(t.memory, offerId) >= Created(s.memory, offerId)
  {
    if later != [] {
      var front, last := later[..|later| - 1], later[|later| - 1];
      ListedConserves(s, front, offerId);
      var t := From(s, front);
      StepConserves(t, last, offerId);
      if Enabled(t, last) && last.Move? {
        var effect := Act(t.memory, t.processes[last.pid], last.w).effect;
        OffersGrow(t.memory, effect, offerId);
        CreatedAfter(t.memory, effect, offerId);
        assert OfferLog(Exec(t, last).memory, offerId) == OfferLog(Perform(t.memory, effect), offerId);
      }
    }
  }

  /** One of the requests on the creating branch creates. */
  lemma OneCreates(s: State, pid: nat, offerId: string) returns (t: State)
    requires pid in Creators(s, offerId)
    ensures Leads(s, t) && Created(t.memory, offerId) == Created(s.memory, offerId) + 1
    ensures |Creators(t, offerId)| == |Creators(s, offerId)| - 1
  {
    var p := s.processes[pid];
    var u := Unheld(s, pid);
    var w;
    t, w := CanMove(u, pid, AnyOutside());
    LeadsOn(s, u, t);
    CreatorMoves(u, t, pid, w, offerId);
    CreatorsAfter(s, u, pid, u.processes[pid], offerId);
    assert OfferLog(u.memory, offerId) == OfferLog(s.memory, offerId);
  }

  lemma CreatorMoves(s: State, t: State, pid: nat, w: Outside, offerId: string)
    requires pid in s.processes && s.processes[pid].pending.Idle? && Creates(s.processes[pid], offerId)
    requires var a := Act(s.memory, s.processes[pid], w);
             t.memory == Perform(s.memory, a.effect).(drawn := t.memory.drawn) && t.processes == s.processes[pid := a.next]
    ensures Created(t.memory, offerId) == Created(s.memory, offerId) + 1
    ensures |Creators(t, offerId)| == |Creators(s, offerId)| - 1
  {
    var a := Act(s.memory, s.processes[pid], w);
    CreatedAfter(s.memory, a.effect, offerId);
    assert OfferLog(t.memory, offerId) == OfferLog(Perform(s.memory, a.effect), offerId);
    CreatorsAfter(s, t, pid, a.next, offerId);
  }

  /** A process can finish its dispatch wherever it stands in it. */
  lemma {:induction false} Unheld(s: State, pid: nat) returns (t: State)
    requires pid in s.processes
    ensures Leads(s, t) && t.processes == s.processes[pid := Process(s.processes[pid].pc, Idle)]
    ensures t.memory.offerLogs == s.memory.offerLogs
    decreases Remaining(s.processes[pid].pending)
  {
    var p := s.processes[pid];
    if HoldsView(p) {
      var u, w := CanMove(s, pid, AnyOutside());
      assert u.memory.offerLogs == s.memory.offerLogs && u.processes[pid].pc == p.pc;
      t := Unheld(u, pid);
      LeadsOn(s, u, t);
      assert u.processes[pid := Process(p.pc, Idle)] == s.processes[pid := Process(p.pc, Idle)];
    } else {
      t := CanFinish(s, pid);
    }
  }

  /** All of them do, in some continuation. */
  lemma {:induction false} AllCreate(s: State, offerId: string) returns (t: State)
    ensures Leads(s, t) && Creators(t, offerId) == {}
    ensures Created(t.memory, offerId) == Created(s.memory, offerId) + |Creators(s, offerId)|
    decreases |Creators(s, offerId)|
  {
    if Creators(s, offerId) == {} {
      LeadsNowhere(s);
      t := s;
    } else {
      var pid :| pid in Creators(s, offerId);
      var u := OneCreates(s, pid, offerId);
      t := AllCreate(u, offerId);
      LeadsOn(s, u, t);
    }
  }

  /** Exactly when an offer that is there is created no more, under every interleaving: when no request stands on the creating
      branch for it. */
  lemma NoMoreCreationsExactly(s: State, offerId: string)
    requires offerId in s.memory.offers
    ensures (forall p :: p in s.processes ==> !Creates(s.processes[p], offerId))
       <==> forall later :: Created(From(s, later).memory, offerId) == Created(s.memory, offerId)
  {
    if forall p :: p in s.processes ==> !Creates(s.processes[p], offerId) {
      assert Creators(s, offerId) == {};
      forall later ensures Created(From(s, later).memory, offerId) == Created(s.memory, offerId) {
        ListedConserves(s, later, offerId);
      }
    } else {
      var t := AllCreate(s, offerId);
      var later :| From(s, later) == t;
      var p :| p in s.processes && Creates(s.processes[p], offerId);
      assert p in Creators(s, offerId);
      assert Created(From(s, later).memory, offerId) > Created(s.memory, offerId);
    }
  }

  /** Some continuation of the run has that many creations. */
  ghost predicate CanReach(steps: seq<Step>, offerId: string, n: nat) {
    exists later :: Created(Run(steps + later).memory, offerId) == n
  }

  /** No continuation has more. */
  ghost predicate NeverAbove(steps: seq<Step>, offerId: string, n: nat) {
    forall later :: Created(Run(steps + later).memory, offerId) <= n
  }

  /** So a run can go on to as many creations as there have been absent lookups, and once the offer is listed to no more. In
      particular two requests that both found it absent can both create it, and one that did alone never does so twice. */
  lemma CreationsReach(steps: seq<Step>, offerId: string)
    ensures CanReach(steps, offerId, AbsentLookups(steps, offerId))
    ensures offerId in Run(steps).memory.offers ==> NeverAbove(steps, offerId, AbsentLookups(steps, offerId))
  {
    var s := Run(steps);
    CreationsAreAbsentLookups(steps, offerId);
    var t := AllCreate(s, offerId);
    var later :| From(s, later) == t;
    RunOn(steps, later);
    if offerId in s.memory.offers {
      forall later ensures Created(Run(steps + later).memory, offerId) <= AbsentLookups(steps, offerId) {
        RunOn(steps, later);
        ListedConserves(s, later, offerId);
      }
    }
  }

  /** A listed offer stays created at most once, under every interleaving to come, exactly when at most one lookup has found
      it absent. */
  lemma AtMostOnceExactly(steps: seq<Step>, offerId: string)
    requires offerId in Run(steps).memory.offers
    ensures NeverAbove(steps, offerId, 1) <==> AbsentLookups(steps, offerId) <= 1
  {
    CreationsReach(steps, offerId);
    var later :| Created(Run(steps + later).memory, offerId) == AbsentLookups(steps, offerId);
  }

  // ----- it does happen -----

  lemma CanFindNothing(s: State, pid: nat, offerId: string, metadata: SC.Metadata) returns (t: State)
    requires pid in s.processes && s.processes[pid] == Process(OffersStart(offerId), Idle) && offerId !in s.memory.offers
    ensures Becomes(s, t, s.memory, pid, Process(OffersCreate(offerId, metadata), Idle))
  {
    var looking := Process(OffersLookup(offerId, metadata), Idle);
    var u, w := CanMove(s, pid, AnyOutside().(metadata := Some(metadata)));
    assert Becomes(s, u, s.memory, pid, looking);
    t, w := CanMove(u, pid, AnyOutside());
    assert Becomes(u, t, s.memory, pid, Process(OffersCreate(offerId, metadata), Idle));
    BecomesOn(s, u, s.memory, pid, looking, t, s.memory, Process(OffersCreate(offerId, metadata), Idle));
  }

  /** Two `offers` requests for one absent offer that both look it up before either creates it: the offer is created twice. */
  lemma CreatedTwice(offerId: string, metadata: SC.Metadata) returns (steps: seq<Step>)
    ensures Created(Run(steps).memory, offerId) == 2
  {
    var start := Process(OffersStart(offerId), Idle);
    var s0 := Exec(INITIAL, Arrive(0, PostOffers(offerId)));
    var s1 := Exec(s0, Arrive(1, PostOffers(offerId)));
    LeadsOneStep(INITIAL, Arrive(0, PostOffers(offerId)));
    LeadsOneStep(s0, Arrive(1, PostOffers(offerId)));
    LeadsOn(INITIAL, s0, s1);
    assert s1.processes[0] == start && s1.processes[1] == start && s1.memory == EMPTY_MEMORY;
    var s2 := CanFindNothing(s1, 0, offerId, metadata);
    var s3 := CanFindNothing(s2, 1, offerId, metadata);
    LeadsOn(INITIAL, s1, s2);
    LeadsOn(INITIAL, s2, s3);
    assert Creators(s3, offerId) == {0, 1};
    var t := AllCreate(s3, offerId);
    LeadsOn(INITIAL, s3, t);
    assert Run([]) == INITIAL;
    steps := ReachableOn([], t);
  }
}
