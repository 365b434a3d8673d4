/**
 Does an issued code always get its token? The handler appends the token response, waits for the dispatch, and reads the
 response back from the offer view. A concurrent dispatch that loaded the view earlier may store it in between. Exactly
 that decides (`AnsweredExactly`), and it does happen (`AnswerLost`).
 */
module TokenAnswers {
  import opened Wrappers
  import opened Json
  import opened EventSourcing
  import opened IssuerMachine
  import opened IssuerInvariant
  import opened IssuerPreservation
  import opened IssuerTheorems
  import opened IssuerAtomic
  import opened SerialRuns
  import opened Continuations
  import opened Scenarios
  import SC = ServerConfig
  import O = IssuerOffer

  // ----- the view keeps its token response -----

  /** The process holds a copy of the offer's view without a token response, and will store it without one. */
  predicate Stale(p: Process, offerId: string) {
    && p.pending.OfferDispatch? && p.pending.id == offerId && p.pending.stage.StoreView?
    && p.pending.stage.view.tokenResponse.None? && !p.pending.event.TokenResponseCreated?
  }

  predicate ShowsResponse(m: Memory, offerId: string) {
    offerId in m.offers && m.offers[offerId].tokenResponse.Some?
  }

  /** The view shows a token response, and no copy about to be stored lacks one. */
  ghost predicate Settled(s: State, offerId: string) {
    ShowsResponse(s.memory, offerId) && forall q :: q in s.processes ==> !Stale(s.processes[q], offerId)
  }

  lemma OtherViewsStay(m: Memory, effect: Effect, offerId: string)
    requires !(effect.PutOffer? && effect.id == offerId) && offerId in m.offers
    ensures offerId in Perform(m, effect).offers && Perform(m, effect).offers[offerId] == m.offers[offerId]
  {
  }

  lemma ViewAfter(m: Memory, p: Process, w: Outside, offerId: string)
    requires ShowsResponse(m, offerId) && !Stale(p, offerId)
    ensures ShowsResponse(Perform(m, Act(m, p, w).effect), offerId)
  {
    var effect := Act(m, p, w).effect;
    if effect.PutOffer? && effect.id == offerId {
      OnlyHoldersStore(m, p, w);
    } else {
      OtherViewsStay(m, effect, offerId);
    }
  }

  /** A copy is loaded from the view as it is. */
  lemma CopyAfter(m: Memory, p: Process, w: Outside, offerId: string)
    requires ShowsResponse(m, offerId)
    ensures !Stale(Act(m, p, w).next, offerId)
  {
    if p.pending.Idle? {
      IdleActs(m, p, w);
    }
  }

  lemma StepKeepsSettled(s: State, step: Step, offerId: string)
    requires Settled(s, offerId)
    ensures Settled(Exec(s, step), offerId)
  {
    if Enabled(s, step) && step.Move? {
      ViewAfter(s.memory, s.processes[step.pid], step.w, offerId);
      CopyAfter(s.memory, s.processes[step.pid], step.w, offerId);
    }
  }

  // ----- the request that reads it back -----

  predicate TokenFor(reply: Reply, code: string, offerId: string) {
    reply.TokenGiven? && reply.code == code && reply.offerId == offerId
  }

  /** The request is about to give the token, or has given it. */
  predicate Gives(p: Process, code: string, offerId: string) {
    p.pc == TokenReply(code, offerId) || (p.pc.Done? && TokenFor(p.pc.reply, code, offerId))
  }

  /** However the run goes on, the request is answered with a token for its code or not at all. */
  ghost predicate AlwaysAnswered(s: State, pid: nat, code: string, offerId: string) {
    forall later, reply :: Answered(From(s, later), pid, reply) ==> TokenFor(reply, code, offerId)
  }

  lemma ActKeepsGiving(m: Memory, p: Process, w: Outside, code: string, offerId: string)
    requires Gives(p, code, offerId) && ShowsResponse(m, offerId)
    ensures Gives(Act(m, p, w).next, code, offerId)
  {
    if !p.pending.Idle? {
      DispatchAppendsNothing(m, p, w);
    }
  }

  lemma {:induction false} SettledGives(s: State, later: seq<Step>, pid: nat, code: string, offerId: string)
    requires Settled(s, offerId) && pid in s.processes && Gives(s.processes[pid], code, offerId)
    ensures var t := From(s, later);
            Settled(t, offerId) && pid in t.processes && Gives(t.processes[pid], code, offerId)
  {
    if later != [] {
      var front, last := later[..|later| - 1], later[|later| - 1];
      SettledGives(s, front, pid, code, offerId);
      var t := From(s, front);
      StepKeepsSettled(t, last, offerId);
      if Enabled(t, last) && last.Move? && last.pid == pid {
        ActKeepsGiving(t.memory, t.processes[pid], last.w, code, offerId);
      }
    }
  }

  /** A request that finds no response in the view can go straight to its error. */
  lemma CanFail(s: State, pid: nat, code: string, offerId: string) returns (t: State)
    requires pid in s.processes && s.processes[pid].pc == TokenReply(code, offerId) && !HoldsView(s.processes[pid])
    requires !ShowsResponse(s.memory, offerId)
    ensures Leads(s, t) && Answered(t, pid, ServerError) && t.memory.offerLogs == s.memory.offerLogs
  {
    var u := CanFinish(s, pid);
    var w;
    t, w := CanMove(u, pid, AnyOutside());
    LeadsOn(s, u, t);
  }

  lemma StoresStale(s: State, q: nat, offerId: string) returns (t: State)
    requires q in s.processes && Stale(s.processes[q], offerId)
    ensures Leads(s, t) && !ShowsResponse(t.memory, offerId) && t.memory.offerLogs == s.memory.offerLogs
    ensures forall p :: p in s.processes && p != q ==> p in t.processes && t.processes[p] == s.processes[p]
  {
    var w;
    t, w := CanMove(s, q, AnyOutside());
  }

  /** Exactly when a token request that has put its response on record and dispatched it to the view will be answered: when
      the view shows a response and nobody holds a copy without one. Then every continuation, under any interleaving, answers
      it with a token for its code; otherwise some continuation answers it with an error. */
  lemma AnsweredExactly(s: State, pid: nat, code: string, offerId: string)
    requires pid in s.processes && s.processes[pid].pc == TokenReply(code, offerId) && !HoldsView(s.processes[pid])
    ensures Settled(s, offerId) <==> AlwaysAnswered(s, pid, code, offerId)
  {
    if Settled(s, offerId) {
      forall later, reply | Answered(From(s, later), pid, reply)
        ensures TokenFor(reply, code, offerId)
      {
        SettledGives(s, later, pid, code, offerId);
      }
    } else {
      var t := CanBeLost(s, pid, code, offerId);
      var later :| From(s, later) == t;
      assert Answered(From(s, later), pid, ServerError) && !TokenFor(ServerError, code, offerId);
    }
  }

  lemma CanBeLost(s: State, pid: nat, code: string, offerId: string) returns (t: State)
    requires pid in s.processes && s.processes[pid].pc == TokenReply(code, offerId) && !HoldsView(s.processes[pid])
    requires !Settled(s, offerId)
    ensures Leads(s, t) && Answered(t, pid, ServerError) && t.memory.offerLogs == s.memory.offerLogs
  {
    if !ShowsResponse(s.memory, offerId) {
      t := CanFail(s, pid, code, offerId);
    } else {
      var q :| q in s.processes && Stale(s.processes[q], offerId);
      var u := StoresStale(s, q, offerId);
      t := CanFail(u, pid, code, offerId);
      LeadsOn(s, u, t);
    }
  }

  /** At the moment a request has stored its own response, the condition is that nobody holds a stale copy. */
  lemma OwnStoreSettles(s: State, pid: nat, w: Outside, offerId: string)
    requires pid in s.processes && Draws(w) !! s.memory.drawn
    requires Holding(s.processes[pid], offerId) && s.processes[pid].pending.stage.StoreView?
    requires s.processes[pid].pending.event.TokenResponseCreated?
    ensures var t := MoveTo(s, pid, w);
            Settled(t, offerId) <==> forall q :: q in t.processes ==> !Stale(t.processes[q], offerId)
  {
  }

  /** Every code ever issued, in every run: its request finds its offer exactly if the code is listed, and a code that is not
      is still being dispatched; then it puts a response on record; and from the moment that response is in the view,
      `Settled` decides about the answer. */
  lemma TokenAnswered(steps: seq<Step>, pid: nat, w: Outside, offerId: string, code: string)
    requires CodeOf(Run(steps).memory, offerId, code)
    requires pid in Run(steps).processes && AtToken(Run(steps).processes[pid].pc) && Run(steps).processes[pid].pc.code == code
    ensures var s, p := Run(steps), Run(steps).processes[pid];
            var a := Act(s.memory, p, w);
            && (p.pc.TokenStart? && p.pending.Idle? ==> (a.next.pc == TokenCreate(code, offerId) <==> code in s.memory.codes))
            && (code in s.memory.codes || exists q, e :: q in s.processes && CodeUnderWay(s.processes[q], offerId, e))
            && (p.pc.TokenCreate? && p.pending.Idle? ==>
                  a.next.pc == TokenReply(code, offerId) && a.effect.AppendOffer? && a.effect.id == offerId
                  && a.effect.event.TokenResponseCreated?)
            && (p.pc.TokenReply? && !HoldsView(p) ==> (Settled(s, offerId) <==> AlwaysAnswered(s, pid, code, offerId)))
  {
    var s, p := Run(steps), Run(steps).processes[pid];
    CodeListedOrUnderWay(steps, offerId, code);
    if p.pc.TokenStart? {
      StartFinds(steps, pid, w, offerId);
    } else {
      OwnOffer(steps, pid, offerId);
    }
    if p.pc.TokenCreate? && p.pending.Idle? {
      CreateResponds(s.memory, p, w);
    }
    if p.pc.TokenReply? && !HoldsView(p) {
      AnsweredExactly(s, pid, code, offerId);
    }
  }

  lemma CodeListedOrUnderWay(steps: seq<Step>, offerId: string, code: string)
    requires CodeOf(Run(steps).memory, offerId, code)
    ensures var s := Run(steps);
            code in s.memory.codes || exists q, e :: q in s.processes && CodeUnderWay(s.processes[q], offerId, e)
  {
    var s := Run(steps);
    assert IndexesComplete(s) by {
      Reachable(steps);
    }
    var e :| e in OfferLog(s.memory, offerId) && e.CredentialOfferCreated? && e.preAuthorizedCode == code;
    if code !in s.memory.codes {
      var q :| q in s.processes && CodeUnderWay(s.processes[q], offerId, e);
    }
  }

  lemma StartFinds(steps: seq<Step>, pid: nat, w: Outside, offerId: string)
    requires pid in Run(steps).processes && Run(steps).processes[pid].pc.TokenStart?
    requires CodeOf(Run(steps).memory, offerId, Run(steps).processes[pid].pc.code)
    ensures var m, p := Run(steps).memory, Run(steps).processes[pid];
            p.pending.Idle? ==> (Act(m, p, w).next.pc == TokenCreate(p.pc.code, offerId) <==> p.pc.code in m.codes)
  {
    var m, code := Run(steps).memory, Run(steps).processes[pid].pc.code;
    assert IndexesSound(m) && UniqueIssue(m) by {
      Reachable(steps);
    }
    OneOfferPerCode(m, offerId, code);
  }

  lemma OwnOffer(steps: seq<Step>, pid: nat, offerId: string)
    requires pid in Run(steps).processes && (Run(steps).processes[pid].pc.TokenCreate? || Run(steps).processes[pid].pc.TokenReply?)
    requires CodeOf(Run(steps).memory, offerId, Run(steps).processes[pid].pc.code)
    ensures Run(steps).processes[pid].pc.offerId == offerId
  {
    var m, pc := Run(steps).memory, Run(steps).processes[pid].pc;
    assert UniqueIssue(m) && CodeOf(m, pc.offerId, pc.code) by {
      Reachable(steps);
      assert ProcessOk(m, Run(steps).processes[pid]);
    }
    OneOfferPerCode(m, offerId, pc.code);
  }

  lemma CreateResponds(m: Memory, p: Process, w: Outside)
    requires p.pending.Idle? && p.pc.TokenCreate?
    ensures var a := Act(m, p, w);
            && a.next.pc == TokenReply(p.pc.code, p.pc.offerId)
            && a.effect.AppendOffer? && a.effect.id == p.pc.offerId && a.effect.event.TokenResponseCreated?
  {
  }

  ghost predicate Responded(m: Memory, offerId: string) {
    exists e :: e in OfferLog(m, offerId) && e.TokenResponseCreated?
  }

  // ----- it does happen -----

  /** Process 0, the `offers` request, puts the encoded offer on record and loads the view. */
  lemma CanHoldCopy(s: State, offerId: string, draw: string) returns (t: State)
    requires Offered(s, offerId, draw)
    ensures Leads(INITIAL, t) && t.processes.Keys == {0} && Stale(t.processes[0], offerId)
    ensures offerId in t.memory.offers && t.memory.codes == s.memory.codes
    ensures forall e :: e in OfferLog(s.memory, offerId) ==> e in OfferLog(t.memory, offerId)
  {
    var log := OfferLog(s.memory, offerId);
    EncodedAfterCreation(log);
    var u, w := CanMove(s, 0, AnyOutside());
    LeadsOn(INITIAL, s, u);
    assert Holding(u.processes[0], offerId) && u.processes[0].pending.event.FormUrlEncodedCredentialOfferCreated?;
    t, w := CanMove(u, 0, AnyOutside());
    LeadsOn(INITIAL, u, t);
  }

  lemma EncodedAfterCreation(log: seq<O.OfferEvent>)
    requires |log| == 1 && log[0].CredentialOfferCreated?
    ensures O.Aggregate(log).credentialOffer.Some?
  {
    assert log[..0] == [];
  }

  /** Process 1, the `token` request, puts its response on record, dispatches it and is about to read it back. */
  lemma CanRespond(s: State, offerId: string, code: string) returns (t: State)
    requires Leads(INITIAL, s) && s.processes.Keys == {0} && Stale(s.processes[0], offerId)
    requires code in s.memory.codes && s.memory.codes[code] == offerId
    ensures Leads(INITIAL, t) && 1 in t.processes && t.processes[1] == Process(TokenReply(code, offerId), Idle)
    ensures 0 in t.processes && Stale(t.processes[0], offerId) && Responded(t.memory, offerId)
    ensures forall e :: e in OfferLog(s.memory, offerId) ==> e in OfferLog(t.memory, offerId)
  {
    var s1 := Exec(s, Arrive(1, PostToken(Some(code))));
    LeadsOneStep(s, Arrive(1, PostToken(Some(code))));
    LeadsOn(INITIAL, s, s1);
    var s2, w := CanMove(s1, 1, AnyOutside());
    LeadsOn(INITIAL, s1, s2);
    assert s2.processes[1] == Process(TokenCreate(code, offerId), Idle);
    var s3;
    s3, w := CanMove(s2, 1, AnyOutside());
    LeadsOn(INITIAL, s2, s3);
    var event := s3.processes[1].pending.event;
    assert event.TokenResponseCreated? && event in OfferLog(s3.memory, offerId);
    var s4 := CanStoreView(s3, 1, TokenReply(code, offerId), offerId, event);
    LeadsOn(INITIAL, s3, s4);
    t := CanFinish(s4, 1);
    LeadsOn(INITIAL, s4, t);
    assert OfferLog(t.memory, offerId) == OfferLog(s3.memory, offerId);
  }

  /** A run in which an issued code is answered with an error. The token response is on record, but an `offers` request for
      the same offer, whose dispatch had loaded the view before, stores it before the handler reads it back. */
  lemma AnswerLost(offerId: string, metadata: SC.Metadata) returns (steps: seq<Step>, code: string)
    ensures Answered(Run(steps), 1, ServerError)
    ensures CodeOf(Run(steps).memory, offerId, code) && Responded(Run(steps).memory, offerId)
  {
    var s0;
    s0, code := OfferUp(offerId, metadata);
    var creation := OfferLog(s0.memory, offerId)[0];
    var s1 := CanHoldCopy(s0, offerId, code);
    var s2 := CanRespond(s1, offerId, code);
    assert creation in OfferLog(s2.memory, offerId);
    var t := CanBeLost(s2, 1, code, offerId);
    LeadsOn(INITIAL, s2, t);
    assert OfferLog(t.memory, offerId) == OfferLog(s2.memory, offerId);
    assert Run([]) == INITIAL;
    steps := ReachableOn([], t);
  }
}
