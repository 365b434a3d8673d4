/**
 What a credential request signs, and for whom. The request verifies its proof, which puts a subject on record and into the
 offer view, and then polls that view for the subject and the credential ids. A concurrent dispatch that holds an older copy, or
 an older event that is not in the view yet, may overwrite either in between. Exactly that decides (`RecentExactly`), for the
 subject and for the ids alike, and it does happen (`StalePoll`, `StaleIds`).
 */
module Polls {
  import opened Wrappers
  import opened Json
  import opened EventSourcing
  import opened IssuerMachine
  import opened IssuerInvariant
  import opened IssuerPreservation
  import opened IssuerTheorems
  import opened IssuerAtomic
  import opened SerialRuns
  import opened Continuations
  import opened Scenarios
  import SC = ServerConfig
  import O = IssuerOffer

  /** The two fields of the view that a poll leaves with. */
  datatype Field = Subject | Ids

  /** The event that writes what the view shows, if it shows anything. */
  function Value(view: O.OfferView, field: Field): Option<O.OfferEvent> {
    match field
    case Subject => if view.subjectId.Some? then Some(O.CredentialRequestVerified(view.subjectId.value)) else None
    case Ids => if view.credentialIds != [] then Some(O.CredentialsAdded(view.credentialIds)) else None
  }

  /** The event is on record for the offer at position `n` of its log or later. */
  ghost predicate Since(m: Memory, offerId: string, n: nat, event: O.OfferEvent) {
    exists j :: n <= j < |OfferLog(m, offerId)| && OfferLog(m, offerId)[j] == event
  }

  ghost predicate Recent(m: Memory, offerId: string, n: nat, value: Option<O.OfferEvent>) {
    value.Some? ==> Since(m, offerId, n, value.value)
  }

  /** What a dispatch under way is going to leave in the field: its event, or what the copy shows that it holds. */
  function Brings(p: Process, field: Field): Option<O.OfferEvent>
    requires HoldsView(p)
  {
    Value(O.Update(if p.pending.stage.StoreView? then p.pending.stage.view else O.EMPTY_VIEW, p.pending.event), field)
  }

  ghost predicate BringsRecent(m: Memory, p: Process, offerId: string, n: nat, field: Field) {
    Holding(p, offerId) ==> Recent(m, offerId, n, Brings(p, field))
  }

  function ViewValue(m: Memory, offerId: string, field: Field): Option<O.OfferEvent> {
    Value(EntryOr(m.offers, offerId, O.EMPTY_VIEW), field)
  }

  /** The view shows nothing that is on record only before position `n`, and no dispatch under way is going to leave it. */
  ghost predicate UpToDate(s: State, offerId: string, n: nat, field: Field) {
    && Recent(s.memory, offerId, n, ViewValue(s.memory, offerId, field))
    && forall q :: q in s.processes ==> BringsRecent(s.memory, s.processes[q], offerId, n, field)
  }

  // ----- what a step keeps -----

  lemma SinceGrows(m: Memory, effect: Effect, offerId: string, n: nat, event: O.OfferEvent)
    requires Since(m, offerId, n, event)
    ensures Since(Perform(m, effect), offerId, n, event)
  {
    var log, log' := OfferLog(m, offerId), OfferLog(Perform(m, effect), offerId);
    assert log' == log || (effect.AppendOffer? && log' == log + [effect.event]);
    var j :| n <= j < |log| && log[j] == event;
    assert log'[j] == log[j];
  }

  lemma RecentGrows(m: Memory, effect: Effect, offerId: string, n: nat, value: Option<O.OfferEvent>)
    requires Recent(m, offerId, n, value)
    ensures Recent(Perform(m, effect), offerId, n, value)
  {
    if value.Some? {
      SinceGrows(m, effect, offerId, n, value.value);
    }
  }

  lemma OtherViewsStay(m: Memory, effect: Effect, offerId: string, field: Field)
    requires !(effect.PutOffer? && effect.id == offerId)
    ensures ViewValue(Perform(m, effect), offerId, field) == ViewValue(m, offerId, field)
  {
  }

  /** A store leaves in the view what its dispatch brings. */
  lemma StoreLeaves(m: Memory, p: Process, w: Outside, offerId: string, field: Field)
    requires var effect := Act(m, p, w).effect; effect.PutOffer? && effect.id == offerId
    ensures Holding(p, offerId) && ViewValue(Perform(m, Act(m, p, w).effect), offerId, field) == Brings(p, field)
  {
    OnlyHoldersStore(m, p, w);
  }

  lemma ViewAfter(m: Memory, p: Process, w: Outside, offerId: string, n: nat, field: Field)
    requires Recent(m, offerId, n, ViewValue(m, offerId, field)) && BringsRecent(m, p, offerId, n, field)
    ensures Recent(m, offerId, n, ViewValue(Perform(m, Act(m, p, w).effect), offerId, field))
  {
    var effect := Act(m, p, w).effect;
    if effect.PutOffer? && effect.id == offerId {
      StoreLeaves(m, p, w, offerId, field);
    } else {
      OtherViewsStay(m, effect, offerId, field);
    }
  }

  /** A dispatch that has just begun has its event just appended; one that has loaded the view holds what it shows. */
  lemma HolderAfter(m: Memory, p: Process, w: Outside, offerId: string)
    ensures var a := Act(m, p, w);
            Holding(a.next, offerId) ==>
              || (a.effect.AppendOffer? && a.effect.id == offerId && a.next.pending == OfferDispatch(offerId, a.effect.event, LoadView))
              || (a.effect.NoEffect? && Holding(p, offerId) && p.pending.stage.LoadView?
                  && a.next.pending == OfferDispatch(offerId, p.pending.event, StoreView(EntryOr(m.offers, offerId, O.EMPTY_VIEW))))
  {
    if p.pending.Idle? {
      IdleActs(m, p, w);
    }
  }

  /** An event writes its own value, or leaves what was there. */
  lemma UpdateBrings(view: O.OfferView, event: O.OfferEvent, field: Field)
    ensures var own, after := Value(O.Update(O.EMPTY_VIEW, event), field), Value(O.Update(view, event), field);
            if own.Some? then own == Some(event) && after == own else after.None? || after == Value(view, field)
  {
  }

  lemma AppendedIsRecent(m: Memory, event: O.OfferEvent, offerId: string, n: nat, field: Field)
    requires n <= |OfferLog(m, offerId)|
    ensures Recent(Perform(m, AppendOffer(offerId, event)), offerId, n, Value(O.Update(O.EMPTY_VIEW, event), field))
  {
    var log := OfferLog(m, offerId);
    UpdateBrings(O.EMPTY_VIEW, event, field);
    assert OfferLog(Perform(m, AppendOffer(offerId, event)), offerId) == log + [event];
    assert (log + [event])[|log|] == event;
  }

  lemma CopyAfter(m: Memory, p: Process, w: Outside, offerId: string, n: nat, field: Field)
    requires n <= |OfferLog(m, offerId)|
    requires Recent(m, offerId, n, ViewValue(m, offerId, field)) && BringsRecent(m, p, offerId, n, field)
    ensures var a := Act(m, p, w); BringsRecent(Perform(m, a.effect), a.next, offerId, n, field)
  {
    var a := Act(m, p, w);
    HolderAfter(m, p, w, offerId);
    if Holding(a.next, offerId) {
      if a.effect.AppendOffer? {
        AppendedIsRecent(m, a.effect.event, offerId, n, field);
      } else {
        UpdateBrings(EntryOr(m.offers, offerId, O.EMPTY_VIEW), p.pending.event, field);
        RecentGrows(m, a.effect, offerId, n, Brings(a.next, field));
      }
    }
  }

  lemma BringsGrows(m: Memory, effect: Effect, q: Process, offerId: string, n: nat, field: Field)
    requires BringsRecent(m, q, offerId, n, field)
    ensures BringsRecent(Perform(m, effect), q, offerId, n, field)
  {
    if Holding(q, offerId) {
      RecentGrows(m, effect, offerId, n, Brings(q, field));
    }
  }

  lemma DrawnSame(m: Memory, drawn: set<string>, offerId: string, n: nat, value: Option<O.OfferEvent>)
    requires Recent(m, offerId, n, value)
    ensures Recent(m.(drawn := drawn), offerId, n, value)
  {
    assert OfferLog(m.(drawn := drawn), offerId) == OfferLog(m, offerId);
  }

  lemma BringsDrawn(m: Memory, drawn: set<string>, q: Process, offerId: string, n: nat, field: Field)
    requires BringsRecent(m, q, offerId, n, field)
    ensures BringsRecent(m.(drawn := drawn), q, offerId, n, field)
  {
    if Holding(q, offerId) {
      DrawnSame(m, drawn, offerId, n, Brings(q, field));
    }
  }

  lemma HoldersKept(s: State, pid: nat, w: Outside, offerId: string, n: nat, field: Field)
    requires UpToDate(s, offerId, n, field) && n <= |OfferLog(s.memory, offerId)| && pid in s.processes
    ensures var t := MoveTo(s, pid, w);
            forall q :: q in t.processes ==> BringsRecent(t.memory, t.processes[q], offerId, n, field)
  {
    var t := MoveTo(s, pid, w);
    var a := Act(s.memory, s.processes[pid], w);
    assert BringsRecent(s.memory, s.processes[pid], offerId, n, field);
    CopyAfter(s.memory, s.processes[pid], w, offerId, n, field);
    forall q | q in t.processes ensures BringsRecent(t.memory, t.processes[q], offerId, n, field) {
      if q != pid {
        BringsGrows(s.memory, a.effect, s.processes[q], offerId, n, field);
      }
      BringsDrawn(Perform(s.memory, a.effect), t.memory.drawn, t.processes[q], offerId, n, field);
    }
  }

  lemma LogsGrow(m: Memory, effect: Effect, offerId: string)
    ensures |OfferLog(Perform(m, effect), offerId)| >= |OfferLog(m, offerId)|
  {
  }

  lemma StepKeepsUpToDate(s: State, step: Step, offerId: string, n: nat, field: Field)
    requires UpToDate(s, offerId, n, field) && n <= |OfferLog(s.memory, offerId)|
    ensures UpToDate(Exec(s, step), offerId, n, field) && n <= |OfferLog(Exec(s, step).memory, offerId)|
  {
    if Enabled(s, step) && step.Move? {
      var m, p, t := s.memory, s.processes[step.pid], Exec(s, step);
      var effect := Act(m, p, step.w).effect;
      var value := ViewValue(Perform(m, effect), offerId, field);
      assert BringsRecent(m, p, offerId, n, field);
      ViewAfter(m, p, step.w, offerId, n, field);
      RecentGrows(m, effect, offerId, n, value);
      DrawnSame(Perform(m, effect), t.memory.drawn, offerId, n, value);
      HoldersKept(s, step.pid, step.w, offerId, n, field);
      LogsGrow(m, effect, offerId);
      assert OfferLog(t.memory, offerId) == OfferLog(Perform(m, effect), offerId);
    }
  }

  // ----- the request that polls -----

  predicate Signing(pc: Pc) {
    pc.RequestSign? || pc.RequestRead? || pc.RequestRespond?
  }

  /** What a request signs with: the subject, or the ids. */
  function SignedWith(pc: Pc, field: Field): O.OfferEvent
    requires Signing(pc)
  {
    match field
    case Subject => O.CredentialRequestVerified(pc.subjectId)
    case Ids => O.CredentialsAdded(pc.ids)
  }

  /** A request for the offer from its poll on: where it signs, it signs with something recent. */
  ghost predicate SignsRecent(m: Memory, pc: Pc, offerId: string, n: nat, field: Field) {
    || ((pc.RequestPoll? || pc.RequestReply?) && pc.offerId == offerId)
    || (Signing(pc) && pc.offerId == offerId && Since(m, offerId, n, SignedWith(pc, field)))
    || pc.Done?
  }

  lemma SignerGrows(m: Memory, effect: Effect, drawn: set<string>, pc: Pc, offerId: string, n: nat, field: Field)
    requires SignsRecent(m, pc, offerId, n, field)
    ensures SignsRecent(Perform(m, effect).(drawn := drawn), pc, offerId, n, field)
  {
    if Signing(pc) {
      assert Recent(m, offerId, n, Some(SignedWith(pc, field)));
      RecentGrows(m, effect, offerId, n, Some(SignedWith(pc, field)));
      DrawnSame(Perform(m, effect), drawn, offerId, n, Some(SignedWith(pc, field)));
    }
  }

  /** The poll leaves with what the view shows, and later steps keep it. */
  lemma RequestMoves(m: Memory, pc: Pc, w: Outside, field: Field)
    requires pc.RequestPoll? || pc.RequestReply? || Signing(pc)
    ensures var next := RequestStep(m, pc, w).next.pc;
            next.Done? || ((next.RequestPoll? || next.RequestReply? || Signing(next)) && next.offerId == pc.offerId)
    ensures var next := RequestStep(m, pc, w).next.pc;
            Signing(next) ==> if Signing(pc) then SignedWith(next, field) == SignedWith(pc, field)
                              else pc.RequestPoll? && ViewValue(m, pc.offerId, field) == Some(SignedWith(next, field))
  {
  }

  lemma ActKeepsSigner(m: Memory, p: Process, w: Outside, offerId: string, n: nat, field: Field)
    requires SignsRecent(m, p.pc, offerId, n, field) && Recent(m, offerId, n, ViewValue(m, offerId, field))
    ensures SignsRecent(m, Act(m, p, w).next.pc, offerId, n, field)
  {
    if !p.pending.Idle? {
      DispatchAppendsNothing(m, p, w);
    } else if !p.pc.Done? {
      RequestMoves(m, p.pc, w, field);
    }
  }

  lemma StepKeepsSigner(s: State, step: Step, pid: nat, offerId: string, n: nat, field: Field)
    requires UpToDate(s, offerId, n, field) && pid in s.processes && SignsRecent(s.memory, s.processes[pid].pc, offerId, n, field)
    ensures var t := Exec(s, step); pid in t.processes && SignsRecent(t.memory, t.processes[pid].pc, offerId, n, field)
  {
    if Enabled(s, step) && step.Move? {
      var a := Act(s.memory, s.processes[step.pid], step.w);
      var t := Exec(s, step);
      if step.pid == pid {
        ActKeepsSigner(s.memory, s.processes[pid], step.w, offerId, n, field);
      }
      SignerGrows(s.memory, a.effect, t.memory.drawn, t.processes[pid].pc, offerId, n, field);
    }
  }

  /** What keeps a request signing with what is recent. */
  ghost predicate KeepsRecent(s: State, pid: nat, offerId: string, n: nat, field: Field) {
    && UpToDate(s, offerId, n, field) && n <= |OfferLog(s.memory, offerId)|
    && pid in s.processes && SignsRecent(s.memory, s.processes[pid].pc, offerId, n, field)
  }

  lemma {:induction false} UpToDateSignsRecent(s: State, later: seq<Step>, pid: nat, offerId: string, n: nat, field: Field)
    requires KeepsRecent(s, pid, offerId, n, field)
    ensures KeepsRecent(From(s, later), pid, offerId, n, field)
  {
    if later != [] {
      var front, last := later[..|later| - 1], later[|later| - 1];
      UpToDateSignsRecent(s, front, pid, offerId, n, field);
      StepKeepsSigner(From(s, front), last, pid, offerId, n, field);
      StepKeepsUpToDate(From(s, front), last, offerId, n, field);
    }
  }

  // ----- the other direction -----

  /** A dispatch under way leaves in the view what it brings. */
  lemma CanLeave(s: State, q: nat, offerId: string, field: Field) returns (t: State)
    requires q in s.processes && Holding(s.processes[q], offerId) && Brings(s.processes[q], field).Some?
    ensures Leads(s, t) && t.memory.offerLogs == s.memory.offerLogs && t.memory.tokens == s.memory.tokens && offerId in t.memory.offers
    ensures ViewValue(t.memory, offerId, field) == Brings(s.processes[q], field)
    ensures forall p :: p in s.processes && p != q ==> p in t.processes && t.processes[p] == s.processes[p]
  {
    var pc, event := s.processes[q].pc, s.processes[q].pending.event;
    if s.processes[q].pending.stage.LoadView? {
      UpdateBrings(EntryOr(s.memory.offers, offerId, O.EMPTY_VIEW), event, field);
      t := CanStoreView(s, q, pc, offerId, event);
    } else {
      var w;
      t, w := CanMove(s, q, AnyOutside());
    }
  }

  predicate Writes(event: O.OfferEvent, field: Field) {
    match field
    case Subject => event.CredentialRequestVerified?
    case Ids => event.CredentialsAdded?
  }

  /** One event of another kind has been put on record. */
  ghost predicate OneOther(m: Memory, m': Memory, offerId: string, field: Field) {
    exists e :: !Writes(e, field) && OfferLog(m', offerId) == OfferLog(m, offerId) + [e]
  }

  lemma OtherIsNotSince(m: Memory, m': Memory, offerId: string, n: nat, event: O.OfferEvent, field: Field)
    requires OneOther(m, m', offerId, field) && Writes(event, field) && Since(m', offerId, n, event)
    ensures Since(m, offerId, n, event)
  {
    var j :| n <= j < |OfferLog(m', offerId)| && OfferLog(m', offerId)[j] == event;
    assert j < |OfferLog(m, offerId)| && OfferLog(m, offerId)[j] == OfferLog(m', offerId)[j];
  }

  /** `t` is a continuation of `s` with the field as it was and the other one filled in; the process has not moved. */
  ghost predicate Completed(s: State, t: State, pid: nat, offerId: string, field: Field) {
    && Leads(s, t) && pid in s.processes && pid in t.processes && t.processes[pid] == s.processes[pid] && offerId in t.memory.offers
    && ViewValue(t.memory, offerId, field) == ViewValue(s.memory, offerId, field)
    && ViewValue(t.memory, offerId, if field.Subject? then Ids else Subject).Some?
    && OneOther(s.memory, t.memory, offerId, field)
  }

  /** An offer that is there can be given a credential; its subject stays as it is. */
  lemma CanGetCredential(s: State, pid: nat, offerId: string) returns (t: State)
    requires pid in s.processes && offerId in s.memory.offers
    ensures Completed(s, t, pid, offerId, Subject)
  {
    var newPid := NewPid(s.processes.Keys);
    var id;
    t, id := CanBind(s, newPid, offerId, Object([]));
    assert OfferLog(t.memory, offerId) == OfferLog(s.memory, offerId) + [O.CredentialsAdded([id])];
  }

  /** A subject can be verified for it, by another request with the same token; its ids stay as they are. */
  lemma CanGetSubject(s: State, pid: nat, bearer: string, offerId: string) returns (t: State)
    requires pid in s.processes && offerId in s.memory.offers && bearer in s.memory.tokens && s.memory.tokens[bearer] == offerId
    ensures Completed(s, t, pid, offerId, Ids)
  {
    var newPid := NewPid(s.processes.Keys);
    var event := O.CredentialRequestVerified("");
    var u := CanVerify(s, newPid, bearer, offerId, "");
    t := CanStoreView(u, newPid, RequestPoll(bearer, offerId), offerId, event);
    LeadsOn(s, u, t);
    assert OfferLog(t.memory, offerId) == OfferLog(s.memory, offerId) + [event];
  }

  /** The bearer token of the request is listed. */
  predicate Listed(s: State, pid: nat)
    requires pid in s.processes && s.processes[pid].pc.RequestPoll?
  {
    var pc := s.processes[pid].pc; pc.bearer in s.memory.tokens && s.memory.tokens[pc.bearer] == pc.offerId
  }

  lemma CanComplete(s: State, pid: nat, offerId: string, field: Field) returns (t: State)
    requires pid in s.processes && s.processes[pid].pc.RequestPoll? && s.processes[pid].pc.offerId == offerId
    requires offerId in s.memory.offers && (field.Ids? ==> Listed(s, pid))
    ensures Completed(s, t, pid, offerId, field)
  {
    match field
    case Subject => t := CanGetCredential(s, pid, offerId);
    case Ids => t := CanGetSubject(s, pid, s.processes[pid].pc.bearer, offerId);
  }

  /** Once it polls, it leaves with what the view shows. */
  lemma CanLeavePoll(s: State, pid: nat, offerId: string, field: Field) returns (t: State)
    requires pid in s.processes && s.processes[pid].pc.RequestPoll? && s.processes[pid].pc.offerId == offerId
    requires s.processes[pid].pending.Idle? && offerId in s.memory.offers
    requires ViewValue(s.memory, offerId, Subject).Some? && ViewValue(s.memory, offerId, Ids).Some?
    ensures Leads(s, t) && pid in t.processes && t.processes[pid].pc.RequestSign? && t.processes[pid].pc.offerId == offerId
    ensures Some(SignedWith(t.processes[pid].pc, field)) == ViewValue(s.memory, offerId, field)
    ensures OfferLog(t.memory, offerId) == OfferLog(s.memory, offerId)
  {
    var w;
    t, w := CanMove(s, pid, AnyOutside());
  }

  /** A request that polls can be led to sign with what the view shows now. */
  lemma CanSignWith(s: State, pid: nat, offerId: string, field: Field) returns (t: State)
    requires pid in s.processes && s.processes[pid].pc.RequestPoll? && s.processes[pid].pc.offerId == offerId
    requires !HoldsView(s.processes[pid]) && offerId in s.memory.offers && ViewValue(s.memory, offerId, field).Some?
    requires field.Ids? ==> Listed(s, pid)
    ensures Leads(s, t) && pid in t.processes && t.processes[pid].pc.RequestSign? && t.processes[pid].pc.offerId == offerId
    ensures Some(SignedWith(t.processes[pid].pc, field)) == ViewValue(s.memory, offerId, field)
    ensures OneOther(s.memory, t.memory, offerId, field)
  {
    var u := CanComplete(s, pid, offerId, field);
    var v := CanFinish(u, pid);
    LeadsOn(s, u, v);
    t := CanLeavePoll(v, pid, offerId, field);
    LeadsOn(s, v, t);
    assert OfferLog(t.memory, offerId) == OfferLog(u.memory, offerId);
  }

  /** A value that is not recent, in the view or brought by a dispatch, can come to be in the view. */
  lemma CanShowStale(s: State, pid: nat, offerId: string, n: nat, field: Field) returns (t: State)
    requires pid in s.processes && !HoldsView(s.processes[pid]) && !UpToDate(s, offerId, n, field)
    ensures Leads(s, t) && pid in t.processes && t.processes[pid] == s.processes[pid] && offerId in t.memory.offers
    ensures OfferLog(t.memory, offerId) == OfferLog(s.memory, offerId) && t.memory.tokens == s.memory.tokens
    ensures !Recent(t.memory, offerId, n, ViewValue(t.memory, offerId, field))
  {
    if Recent(s.memory, offerId, n, ViewValue(s.memory, offerId, field)) {
      var q :| q in s.processes && !BringsRecent(s.memory, s.processes[q], offerId, n, field);
      t := CanLeave(s, q, offerId, field);
      assert OfferLog(t.memory, offerId) == OfferLog(s.memory, offerId);
    } else {
      LeadsNowhere(s);
      t := s;
    }
  }

  lemma ValueWrites(view: O.OfferView, field: Field)
    ensures Value(view, field).Some? ==> Writes(Value(view, field).value, field)
  {
  }

  lemma CanSignStale(s: State, pid: nat, offerId: string, n: nat, field: Field) returns (t: State)
    requires pid in s.processes && s.processes[pid].pc.RequestPoll? && s.processes[pid].pc.offerId == offerId
    requires !HoldsView(s.processes[pid]) && !UpToDate(s, offerId, n, field) && (field.Ids? ==> Listed(s, pid))
    ensures Leads(s, t) && pid in t.processes && t.processes[pid].pc.RequestSign? && t.processes[pid].pc.offerId == offerId
    ensures !Since(t.memory, offerId, n, SignedWith(t.processes[pid].pc, field))
    ensures OneOther(s.memory, t.memory, offerId, field)
  {
    var u := CanShowStale(s, pid, offerId, n, field);
    var stale := ViewValue(u.memory, offerId, field).value;
    t := CanSignWith(u, pid, offerId, field);
    LeadsOn(s, u, t);
    ValueWrites(EntryOr(u.memory.offers, offerId, O.EMPTY_VIEW), field);
    if Since(t.memory, offerId, n, stale) {
      OtherIsNotSince(u.memory, t.memory, offerId, n, stale, field);
    }
  }

  /** However the run goes on, the request signs only with what is on record at position `n` or later. */
  ghost predicate AlwaysSignsRecent(s: State, pid: nat, offerId: string, n: nat, field: Field) {
    forall later :: pid in From(s, later).processes
                    && SignsRecent(From(s, later).memory, From(s, later).processes[pid].pc, offerId, n, field)
  }

  /** Exactly when a request whose verification is in the view will sign for a subject no older than position `n` of the log
      (its own verification, say), or only ids added since: when the view shows nothing older and no dispatch under way is going
      to leave anything older. Then every continuation does, under any interleaving; otherwise some continuation does not. For the
      ids the token of the request has to be listed, as it is in every run (`RunSignsRecentExactly`). */
  lemma RecentExactly(s: State, pid: nat, offerId: string, n: nat, field: Field)
    requires n <= |OfferLog(s.memory, offerId)|
    requires pid in s.processes && s.processes[pid].pc.RequestPoll? && s.processes[pid].pc.offerId == offerId
    requires !HoldsView(s.processes[pid]) && (field.Ids? ==> Listed(s, pid))
    ensures UpToDate(s, offerId, n, field) <==> AlwaysSignsRecent(s, pid, offerId, n, field)
  {
    if UpToDate(s, offerId, n, field) {
      forall later ensures pid in From(s, later).processes
                           && SignsRecent(From(s, later).memory, From(s, later).processes[pid].pc, offerId, n, field) {
        UpToDateSignsRecent(s, later, pid, offerId, n, field);
      }
    } else {
      var t := CanSignStale(s, pid, offerId, n, field);
      var later :| From(s, later) == t;
      assert !SignsRecent(From(s, later).memory, From(s, later).processes[pid].pc, offerId, n, field);
    }
  }

  // ----- in runs -----

  predicate Resolved(pc: Pc) {
    pc.RequestMetadata? || pc.RequestVerify? || pc.RequestPoll?
  }

  lemma TokensGrow(m: Memory, effect: Effect, bearer: string)
    requires bearer in m.tokens
    ensures bearer in Perform(m, effect).tokens
  {
  }

  lemma RequestResolves(m: Memory, pc: Pc, w: Outside)
    requires AtRequest(pc) && Resolved(RequestStep(m, pc, w).next.pc)
    ensures var next := RequestStep(m, pc, w).next.pc;
            (Resolved(pc) && next.bearer == pc.bearer) || (pc.RequestStart? && next.bearer in m.tokens)
  {
  }

  lemma OthersResolveNothing(m: Memory, p: Process, w: Outside)
    requires p.pending.Idle? && !AtRequest(p.pc)
    ensures !Resolved(Act(m, p, w).next.pc)
  {
  }

  lemma ResolvedBy(m: Memory, p: Process, w: Outside)
    requires Resolved(Act(m, p, w).next.pc)
    ensures var next := Act(m, p, w).next.pc;
            (Resolved(p.pc) && next.bearer == p.pc.bearer) || (p.pc.RequestStart? && next.bearer in m.tokens)
  {
    if !p.pending.Idle? {
      DispatchAppendsNothing(m, p, w);
    } else if AtRequest(p.pc) {
      assert Act(m, p, w) == RequestStep(m, p.pc, w);
      RequestResolves(m, p.pc, w);
    } else {
      OthersResolveNothing(m, p, w);
    }
  }

  /** The token a request has resolved stays in the index. */
  lemma {:induction false} BearerStays(steps: seq<Step>, pid: nat)
    requires pid in Run(steps).processes && Resolved(Run(steps).processes[pid].pc)
    ensures Run(steps).processes[pid].pc.bearer in Run(steps).memory.tokens
  {
    if steps != [] {
      var front, last := steps[..|steps| - 1], steps[|steps| - 1];
      var s := Run(front);
      if Enabled(s, last) && last.Move? {
        var p := s.processes[last.pid];
        if pid == last.pid {
          ResolvedBy(s.memory, p, last.w);
        }
        if pid in s.processes && Resolved(s.processes[pid].pc) {
          BearerStays(front, pid);
          TokensGrow(s.memory, Act(s.memory, p, last.w).effect, s.processes[pid].pc.bearer);
        } else {
          TokensGrow(s.memory, Act(s.memory, p, last.w).effect, Run(steps).processes[pid].pc.bearer);
        }
      } else {
        BearerStays(front, pid);
      }
    }
  }

  lemma OnlyOwner(m: Memory, bearer: string, offerId: string)
    requires UniqueIssue(m) && IndexesSound(m) && TokenOf(m, offerId, bearer) && bearer in m.tokens
    ensures m.tokens[bearer] == offerId
  {
    assert TokenOf(m, m.tokens[bearer], bearer);
  }

  lemma AlwaysListed(steps: seq<Step>, pid: nat)
    requires pid in Run(steps).processes && Run(steps).processes[pid].pc.RequestPoll?
    ensures Listed(Run(steps), pid)
  {
    var m, pc := Run(steps).memory, Run(steps).processes[pid].pc;
    BearerStays(steps, pid);
    assert UniqueIssue(m) && IndexesSound(m) && PcFacts(m, pc) by {
      Reachable(steps);
      assert ProcessOk(m, Run(steps).processes[pid]);
    }
    OnlyOwner(m, pc.bearer, pc.offerId);
  }

  /** In every run, for the subject and for the ids. */
  lemma RunSignsRecentExactly(steps: seq<Step>, pid: nat, n: nat, field: Field)
    requires pid in Run(steps).processes && Run(steps).processes[pid].pc.RequestPoll? && !HoldsView(Run(steps).processes[pid])
    requires n <= |OfferLog(Run(steps).memory, Run(steps).processes[pid].pc.offerId)|
    ensures var s, offerId := Run(steps), Run(steps).processes[pid].pc.offerId;
            UpToDate(s, offerId, n, field) <==> AlwaysSignsRecent(s, pid, offerId, n, field)
  {
    AlwaysListed(steps, pid);
    RecentExactly(Run(steps), pid, Run(steps).processes[pid].pc.offerId, n, field);
  }

  // ----- it does happen: the subject of another request -----

  predicate TwoVerified(log: seq<O.OfferEvent>) {
    && |log| == 3 && log[0].CredentialOfferCreated?
    && log[1] == O.CredentialRequestVerified("first") && log[2] == O.CredentialRequestVerified("second")
  }

  /** Two requests for one offer: the first has verified and not yet written the view, the second has done both. */
  lemma CanOvertake(offerId: string, metadata: SC.Metadata) returns (t: State)
    ensures Leads(INITIAL, t) && 2 in t.processes && t.processes[2].pc.RequestPoll? && t.processes[2].pc.offerId == offerId
    ensures !HoldsView(t.processes[2]) && 1 in t.processes && Holding(t.processes[1], offerId)
    ensures Brings(t.processes[1], Subject) == Some(O.CredentialRequestVerified("first")) && TwoVerified(OfferLog(t.memory, offerId))
  {
    var s0, bearer := OfferUp(offerId, metadata);
    var s1 := CanVerify(s0, 1, bearer, offerId, "first");
    LeadsOn(INITIAL, s0, s1);
    var s2 := CanVerify(s1, 2, bearer, offerId, "second");
    LeadsOn(INITIAL, s1, s2);
    t := CanStoreView(s2, 2, RequestPoll(bearer, offerId), offerId, O.CredentialRequestVerified("second"));
    LeadsOn(INITIAL, s2, t);
  }

  /** A run in which a request signs for the subject of another. Request 2 has verified its proof after request 1 has, and
      nobody has verified since; but the view is overwritten with the subject of request 1. */
  lemma StalePoll(offerId: string, metadata: SC.Metadata) returns (steps: seq<Step>)
    ensures var s := Run(steps);
            && 2 in s.processes && s.processes[2].pc.RequestSign? && s.processes[2].pc.offerId == offerId
            && s.processes[2].pc.subjectId == "first" && O.LastVerified(OfferLog(s.memory, offerId)) == Some("second")
  {
    var t := CanOvertake(offerId, metadata);
    var before := OfferLog(t.memory, offerId);
    assert !BringsRecent(t.memory, t.processes[1], offerId, 2, Subject);
    var u := CanSignStale(t, 2, offerId, 2, Subject);
    LeadsOn(INITIAL, t, u);
    assert Run([]) == INITIAL;
    steps := ReachableOn([], u);
    SignsForVerifiedSubject(steps, 2);
    OnlyFirstIsLeft(before, t.memory, u.memory, offerId, u.processes[2].pc.subjectId);
  }

  lemma OnlyFirstIsLeft(before: seq<O.OfferEvent>, m: Memory, m': Memory, offerId: string, subjectId: string)
    requires TwoVerified(before) && OfferLog(m, offerId) == before && OneOther(m, m', offerId, Subject)
    requires O.CredentialRequestVerified(subjectId) in OfferLog(m', offerId)
    requires !Since(m', offerId, 2, O.CredentialRequestVerified(subjectId))
    ensures subjectId == "first" && O.LastVerified(OfferLog(m', offerId)) == Some("second")
  {
    var log := OfferLog(m', offerId);
    var e :| !Writes(e, Subject) && log == before + [e];
    assert log[..3] == before && log[2] == before[2];
    var j :| 0 <= j < |log| && log[j] == O.CredentialRequestVerified(subjectId);
  }

  // ----- and the ids of an older credential -----

  predicate TwoAdded(log: seq<O.OfferEvent>, first: string, second: string) {
    && |log| == 4 && log[0].CredentialOfferCreated? && log[1] == O.CredentialsAdded([first]) && log[2] == O.CredentialsAdded([second])
    && log[3].CredentialRequestVerified?
  }

  /** A signed credential handed in is about to be bound to the offer in its view; the binding is on record. */
  lemma CanBindLate(s: State, pid: nat, offerId: string, credential: Json) returns (t: State, id: string)
    requires pid !in s.processes && credential.Object? && offerId in s.memory.offers
    ensures id !in s.memory.drawn && Leads(s, t) && t.memory.offers == s.memory.offers && t.memory.tokens == s.memory.tokens
    ensures var added := O.CredentialsAdded([id]);
            && t.memory.offerLogs == s.memory.offerLogs[offerId := OfferLog(s.memory, offerId) + [added]]
            && t.processes == s.processes[pid := Process(CredentialsReply(id), OfferDispatch(offerId, added, LoadView))]
    ensures CredentialLog(t.memory, id) != []
  {
    var u, v, w;
    u, id := CanRecord(s, pid, offerId, credential);
    v := CanLookUp(u, pid, offerId, id);
    LeadsOn(s, u, v);
    t, w := CanMove(v, pid, AnyOutside());
    LeadsOn(s, v, t);
    assert t.processes == s.processes[pid := t.processes[pid]];
  }

  lemma OnRecordIsDrawn(s: State, id: string)
    requires Leads(INITIAL, s) && CredentialLog(s.memory, id) != []
    ensures id in s.memory.drawn
  {
    assert Run([]) == INITIAL;
    var steps := ReachableOn([], s);
    assert AllDrawn(s.memory) by {
      Reachable(steps);
    }
  }

  /** Two credentials have been bound, the second one in the view already and the first one not yet. */
  ghost predicate TwoBound(s: State, bearer: string, offerId: string, first: string, second: string) {
    && Leads(INITIAL, s) && s.processes.Keys == {0, 1, 2} && first != second
    && bearer in s.memory.tokens && s.memory.tokens[bearer] == offerId
    && s.processes[1].pending == OfferDispatch(offerId, O.CredentialsAdded([first]), LoadView)
    && |OfferLog(s.memory, offerId)| == 3 && OfferLog(s.memory, offerId)[0].CredentialOfferCreated?
    && OfferLog(s.memory, offerId)[1] == O.CredentialsAdded([first]) && OfferLog(s.memory, offerId)[2] == O.CredentialsAdded([second])
  }

  lemma CanBindTwo(offerId: string, metadata: SC.Metadata) returns (t: State, bearer: string, first: string, second: string)
    ensures TwoBound(t, bearer, offerId, first, second)
  {
    var s0, s1;
    s0, bearer := OfferUp(offerId, metadata);
    s1, first := CanBindLate(s0, 1, offerId, Object([]));
    LeadsOn(INITIAL, s0, s1);
    OnRecordIsDrawn(s1, first);
    t, second := CanBind(s1, 2, offerId, Object([]));
    LeadsOn(INITIAL, s1, t);
  }

  /** Then a request verifies, and polls. */
  ghost predicate Overtaken(s: State, offerId: string, first: string, second: string) {
    && Leads(INITIAL, s) && 1 in s.processes && 3 in s.processes && first != second
    && s.processes[3].pc.RequestPoll? && s.processes[3].pc.offerId == offerId && !HoldsView(s.processes[3]) && Listed(s, 3)
    && s.processes[1].pending == OfferDispatch(offerId, O.CredentialsAdded([first]), LoadView)
    && TwoAdded(OfferLog(s.memory, offerId), first, second)
  }

  lemma CanOvertakeIds(offerId: string, metadata: SC.Metadata) returns (t: State, first: string, second: string)
    ensures Overtaken(t, offerId, first, second)
  {
    var s0, bearer;
    s0, bearer, first, second := CanBindTwo(offerId, metadata);
    var s1 := CanVerify(s0, 3, bearer, offerId, "");
    LeadsOn(INITIAL, s0, s1);
    t := CanStoreView(s1, 3, RequestPoll(bearer, offerId), offerId, O.CredentialRequestVerified(""));
    LeadsOn(INITIAL, s1, t);
  }

  /** A run in which a request signs an older credential of the offer, although a newer one has been bound in its place before the
      request came in and nothing has been bound since. */
  lemma StaleIds(offerId: string, metadata: SC.Metadata) returns (steps: seq<Step>, first: string, second: string)
    ensures var s := Run(steps);
            && 3 in s.processes && s.processes[3].pc.RequestSign? && s.processes[3].pc.offerId == offerId
            && s.processes[3].pc.ids == [first] && O.LastAdded(OfferLog(s.memory, offerId)) == [second] && first != second
  {
    var t;
    t, first, second := CanOvertakeIds(offerId, metadata);
    assert Brings(t.processes[1], Ids) == Some(O.CredentialsAdded([first]));
    assert !BringsRecent(t.memory, t.processes[1], offerId, 2, Ids) by {
      NotSinceTwo(t.memory, offerId, first, second);
    }
    var u := CanSignStale(t, 3, offerId, 2, Ids);
    LeadsOn(INITIAL, t, u);
    assert Run([]) == INITIAL;
    steps := ReachableOn([], u);
    IdsOnRecord(steps, 3);
    OnlyOldIdsAreLeft(t.memory, u.memory, offerId, first, second, u.processes[3].pc.ids);
  }

  lemma NotSinceTwo(m: Memory, offerId: string, first: string, second: string)
    requires TwoAdded(OfferLog(m, offerId), first, second) && first != second
    ensures !Since(m, offerId, 2, O.CredentialsAdded([first]))
  {
    assert [first][0] != [second][0];
  }

  lemma IdsOnRecord(steps: seq<Step>, pid: nat)
    requires pid in Run(steps).processes && Run(steps).processes[pid].pc.RequestSign?
    ensures var pc := Run(steps).processes[pid].pc; O.CredentialsAdded(pc.ids) in OfferLog(Run(steps).memory, pc.offerId)
  {
    var m, pc := Run(steps).memory, Run(steps).processes[pid].pc;
    assert PcFacts(m, pc) by {
      Reachable(steps);
      assert ProcessOk(m, Run(steps).processes[pid]);
    }
  }

  lemma OnlyOldIdsAreLeft(m: Memory, m': Memory, offerId: string, first: string, second: string, ids: seq<string>)
    requires TwoAdded(OfferLog(m, offerId), first, second) && OneOther(m, m', offerId, Ids)
    requires O.CredentialsAdded(ids) in OfferLog(m', offerId) && !Since(m', offerId, 2, O.CredentialsAdded(ids))
    ensures ids == [first] && O.LastAdded(OfferLog(m', offerId)) == [second]
  {
    var before, log := OfferLog(m, offerId), OfferLog(m', offerId);
    var e :| !Writes(e, Ids) && log == before + [e];
    assert log[..4] == before && before[..3][2] == O.CredentialsAdded([second]);
    assert O.LastAdded(before[..3]) == [second] && before[3] == log[3];
    var j :| 0 <= j < |log| && log[j] == O.CredentialsAdded(ids);
  }
}
