/** What can still happen from a state: continuations of a run, and how to build one. */
module Continuations {
  import opened Wrappers
  import opened Json
  import opened EventSourcing
  import opened IssuerMachine
  import O = IssuerOffer
  import C = IssuerCredential

  function From(s: State, later: seq<Step>): State {
    Replay(Exec, s, later)
  }

  lemma RunOn(steps: seq<Step>, later: seq<Step>)
    ensures Run(steps + later) == From(Run(steps), later)
  {
    ReplayAppend(Exec, INITIAL, steps, later);
  }

  ghost predicate Leads(s: State, t: State) {
    exists later :: From(s, later) == t
  }

  lemma LeadsNowhere(s: State)
    ensures Leads(s, s)
  {
    assert From(s, []) == s;
  }

  lemma LeadsOneStep(s: State, step: Step)
    ensures Leads(s, Exec(s, step))
  {
    ReplaySnoc(Exec, s, [], step);
    assert [] + [step] == [step];
    assert From(s, [step]) == Exec(s, step);
  }

  lemma LeadsOn(s: State, t: State, u: State)
    requires Leads(s, t) && Leads(t, u)
    ensures Leads(s, u)
  {
    var first :| From(s, first) == t;
    var second :| From(t, second) == u;
    ReplayAppend(Exec, s, first, second);
    assert From(s, first + second) == u;
  }

  lemma ReachableOn(steps: seq<Step>, t: State) returns (all: seq<Step>)
    requires Leads(Run(steps), t)
    ensures steps <= all && Run(all) == t
  {
    var later :| From(Run(steps), later) == t;
    RunOn(steps, later);
    all := steps + later;
  }

  // ----- there is always a new string -----

  predicate AllShorter(used: set<string>, n: nat) {
    forall s :: s in used ==> |s| < n
  }

  lemma {:induction false} SomeBound(used: set<string>) returns (n: nat)
    ensures AllShorter(used, n)
  {
    if used == {} {
      n := 0;
    } else {
      var s :| s in used;
      n := SomeBound(used - {s});
      if n <= |s| {
        n := |s| + 1;
      }
      forall t | t in used ensures |t| < n {
        assert t == s || t in used - {s};
      }
    }
  }

  lemma {:induction false} LeastBound(used: set<string>, bound: nat) returns (n: nat)
    requires AllShorter(used, bound)
    ensures AllShorter(used, n) && (n == 0 || !AllShorter(used, n - 1))
  {
    if bound == 0 || !AllShorter(used, bound - 1) {
      n := bound;
    } else {
      n := LeastBound(used, bound - 1);
    }
  }

  lemma LeastBoundExists(used: set<string>)
    ensures exists n: nat :: AllShorter(used, n) && (n == 0 || !AllShorter(used, n - 1))
  {
    var bound := SomeBound(used);
    var n := LeastBound(used, bound);
  }

  /** A string longer than all that are used. */
  function NewString(used: set<string>): (r: string)
    ensures r !in used
  {
    LeastBoundExists(used);
    var n: nat :| AllShorter(used, n) && (n == 0 || !AllShorter(used, n - 1));
    seq(n, _ => 'a')
  }

  /** Surroundings that draw one string. */
  function Drawing(w: Outside, draw: string): (r: Outside)
    ensures Draws(r) == {draw}
  {
    w.(uuid := draw, offer := w.offer.(preAuthorizedCode := draw, accessToken := draw, cNonce := draw))
  }

  /** `t` is a continuation of `s` with memory `m`, up to the strings drawn, and one process moved on to `p`. */
  ghost predicate Becomes(s: State, t: State, m: Memory, pid: nat, p: Process) {
    Leads(s, t) && t.memory == m.(drawn := t.memory.drawn) && t.processes == s.processes[pid := p]
  }

  lemma BecomesOn(s: State, t: State, m: Memory, pid: nat, p: Process, u: State, m': Memory, p': Process)
    requires Becomes(s, t, m, pid, p) && Becomes(t, u, m', pid, p')
    ensures Becomes(s, u, m', pid, p')
  {
    LeadsOn(s, t, u);
    assert s.processes[pid := p][pid := p'] == s.processes[pid := p'];
  }

  /** Any process can move, whatever the surroundings give it, with strings not used before. */
  lemma CanMove(s: State, pid: nat, w: Outside) returns (t: State, drawn: Outside)
    requires pid in s.processes
    ensures drawn == Drawing(w, drawn.uuid) && drawn.uuid !in s.memory.drawn
    ensures var a := Act(s.memory, s.processes[pid], drawn); Becomes(s, t, Perform(s.memory, a.effect), pid, a.next)
  {
    drawn := Drawing(w, NewString(s.memory.drawn));
    t := Exec(s, Move(pid, drawn));
    LeadsOneStep(s, Move(pid, drawn));
  }

  // ----- a dispatch can be finished -----

  /** The process is about to rewrite the view of the offer. */
  predicate Holding(p: Process, offerId: string) {
    p.pending.OfferDispatch? && p.pending.id == offerId && (p.pending.stage.LoadView? || p.pending.stage.StoreView?)
  }

  predicate HoldsView(p: Process) {
    p.pending.OfferDispatch? && (p.pending.stage.LoadView? || p.pending.stage.StoreView?)
  }

  /** How many steps the dispatch still takes. */
  function Remaining(pending: Pending): nat {
    match pending
    case Idle => 0
    case OfferDispatch(_, _, stage) =>
      (match stage
       case LoadView => 8
       case StoreView(_) => 7
       case LoadAll => 6
       case StoreAll(_) => 5
       case LoadCode => 4
       case StoreCode(_) => 3
       case LoadToken => 2
       case StoreToken(_) => 1)
    case CredentialDispatch(_, _, stage) =>
      (match stage
       case LoadCredential => 4
       case StoreCredential(_) => 3
       case LoadAllCredentials => 2
       case StoreAllCredentials(_) => 1)
  }

  /** One step of a dispatch that is past the offer view: it comes nearer to its end and leaves offers and logs alone. */
  lemma LaterStep(m: Memory, p: Process, w: Outside)
    requires !p.pending.Idle? && !HoldsView(p)
    ensures var a := Act(m, p, w);
            && a.next.pc == p.pc && Remaining(a.next.pending) < Remaining(p.pending) && !HoldsView(a.next)
            && !a.effect.AppendOffer? && !a.effect.AppendCredential? && !a.effect.PutOffer?
  {
  }

  lemma LeavesOffersAndLogs(m: Memory, effect: Effect)
    requires !effect.AppendOffer? && !effect.AppendCredential? && !effect.PutOffer?
    ensures var m' := Perform(m, effect);
            m'.offers == m.offers && m'.offerLogs == m.offerLogs && m'.credentialLogs == m.credentialLogs
  {
  }

  /** `t` is `s` with one process moved on to `p`; offer views and logs are the same. */
  ghost predicate SameOffers(s: State, t: State, pid: nat, p: Process) {
    && t.processes == s.processes[pid := p]
    && t.memory.offers == s.memory.offers
    && t.memory.offerLogs == s.memory.offerLogs && t.memory.credentialLogs == s.memory.credentialLogs
  }

  lemma {:induction false} CanFinish(s: State, pid: nat) returns (t: State)
    requires pid in s.processes && !HoldsView(s.processes[pid])
    ensures Leads(s, t) && SameOffers(s, t, pid, Process(s.processes[pid].pc, Idle))
    decreases Remaining(s.processes[pid].pending)
  {
    var p := s.processes[pid];
    if p.pending.Idle? {
      LeadsNowhere(s);
      assert s.processes[pid := Process(p.pc, Idle)] == s.processes;
      t := s;
    } else {
      var u, w := CanMove(s, pid, AnyOutside());
      LaterStep(s.memory, p, w);
      LeavesOffersAndLogs(s.memory, Act(s.memory, p, w).effect);
      t := CanFinish(u, pid);
      LeadsOn(s, u, t);
      assert u.processes[pid := Process(p.pc, Idle)] == s.processes[pid := Process(p.pc, Idle)];
    }
  }

  function AnyOutside(): Outside {
    Outside("", None, O.OfferServices("", "", "", Failure(O.MissingProofError), false),
            C.CredentialServices("", _ => None, (_, _, _) => None, (_, _) => Null), false)
  }

  // ----- the stages of a dispatch, one after the other -----

  lemma CanStoreView(s: State, pid: nat, pc: Pc, id: string, event: O.OfferEvent) returns (t: State)
    requires pid in s.processes && s.processes[pid] == Process(pc, OfferDispatch(id, event, LoadView))
    ensures Becomes(s, t, s.memory.(offers := UpdateEntry(O.Update, O.EMPTY_VIEW, s.memory.offers, id, event)),
                    pid, Process(pc, OfferDispatch(id, event, LoadAll)))
  {
    var copy := Process(pc, OfferDispatch(id, event, StoreView(EntryOr(s.memory.offers, id, O.EMPTY_VIEW))));
    var u, w := CanMove(s, pid, AnyOutside());
    assert Becomes(s, u, s.memory, pid, copy);
    t, w := CanMove(u, pid, AnyOutside());
    var m := s.memory.(offers := UpdateEntry(O.Update, O.EMPTY_VIEW, s.memory.offers, id, event));
    assert Becomes(u, t, m, pid, Process(pc, OfferDispatch(id, event, LoadAll)));
    BecomesOn(s, u, s.memory, pid, copy, t, m, Process(pc, OfferDispatch(id, event, LoadAll)));
  }

  lemma CanStoreAll(s: State, pid: nat, pc: Pc, id: string, event: O.OfferEvent) returns (t: State)
    requires pid in s.processes && s.processes[pid] == Process(pc, OfferDispatch(id, event, LoadAll))
    ensures Becomes(s, t, s.memory.(allOffers := UpdateEntry(O.Update, O.EMPTY_VIEW, s.memory.allOffers, id, event)),
                    pid, Process(pc, OfferDispatch(id, event, LoadCode)))
  {
    var copy := Process(pc, OfferDispatch(id, event, StoreAll(s.memory.allOffers)));
    var u, w := CanMove(s, pid, AnyOutside());
    assert Becomes(s, u, s.memory, pid, copy);
    t, w := CanMove(u, pid, AnyOutside());
    var m := s.memory.(allOffers := UpdateEntry(O.Update, O.EMPTY_VIEW, s.memory.allOffers, id, event));
    assert Becomes(u, t, m, pid, Process(pc, OfferDispatch(id, event, LoadCode)));
    BecomesOn(s, u, s.memory, pid, copy, t, m, Process(pc, OfferDispatch(id, event, LoadCode)));
  }

  lemma CanStoreCode(s: State, pid: nat, pc: Pc, id: string, event: O.OfferEvent) returns (t: State)
    requires pid in s.processes && s.processes[pid] == Process(pc, OfferDispatch(id, event, LoadCode)) && event.CredentialOfferCreated?
    ensures Becomes(s, t, s.memory.(codes := s.memory.codes[event.preAuthorizedCode := id]),
                    pid, Process(pc, OfferDispatch(id, event, LoadToken)))
  {
    var copy := Process(pc, OfferDispatch(id, event, StoreCode(EntryOr(s.memory.codes, id, ""))));
    var u, w := CanMove(s, pid, AnyOutside());
    assert Becomes(s, u, s.memory, pid, copy);
    t, w := CanMove(u, pid, AnyOutside());
    var m := s.memory.(codes := s.memory.codes[event.preAuthorizedCode := id]);
    assert Becomes(u, t, m, pid, Process(pc, OfferDispatch(id, event, LoadToken)));
    BecomesOn(s, u, s.memory, pid, copy, t, m, Process(pc, OfferDispatch(id, event, LoadToken)));
  }

  lemma CanStoreToken(s: State, pid: nat, pc: Pc, id: string, event: O.OfferEvent) returns (t: State)
    requires pid in s.processes && s.processes[pid] == Process(pc, OfferDispatch(id, event, LoadToken)) && event.CredentialOfferCreated?
    ensures Becomes(s, t, s.memory.(tokens := s.memory.tokens[event.accessToken := id]), pid, Process(pc, Idle))
  {
    var copy := Process(pc, OfferDispatch(id, event, StoreToken(EntryOr(s.memory.tokens, id, ""))));
    var u, w := CanMove(s, pid, AnyOutside());
    assert Becomes(s, u, s.memory, pid, copy);
    t, w := CanMove(u, pid, AnyOutside());
    var m := s.memory.(tokens := s.memory.tokens[event.accessToken := id]);
    assert Becomes(u, t, m, pid, Process(pc, Idle));
    BecomesOn(s, u, s.memory, pid, copy, t, m, Process(pc, Idle));
  }

  lemma CanStoreCredential(s: State, pid: nat, pc: Pc, id: string, event: C.CredentialEvent) returns (t: State)
    requires pid in s.processes && s.processes[pid] == Process(pc, CredentialDispatch(id, event, LoadCredential))
    ensures Becomes(s, t, s.memory.(credentials := UpdateEntry(C.Store, C.EMPTY_VIEW, s.memory.credentials, id, event)),
                    pid, Process(pc, CredentialDispatch(id, event, LoadAllCredentials)))
  {
    var copy := Process(pc, CredentialDispatch(id, event, StoreCredential(EntryOr(s.memory.credentials, id, C.EMPTY_VIEW))));
    var u, w := CanMove(s, pid, AnyOutside());
    assert Becomes(s, u, s.memory, pid, copy);
    t, w := CanMove(u, pid, AnyOutside());
    var m := s.memory.(credentials := UpdateEntry(C.Store, C.EMPTY_VIEW, s.memory.credentials, id, event));
    assert Becomes(u, t, m, pid, Process(pc, CredentialDispatch(id, event, LoadAllCredentials)));
    BecomesOn(s, u, s.memory, pid, copy, t, m, Process(pc, CredentialDispatch(id, event, LoadAllCredentials)));
  }

  lemma CanStoreAllCredentials(s: State, pid: nat, pc: Pc, id: string, event: C.CredentialEvent) returns (t: State)
    requires pid in s.processes && s.processes[pid] == Process(pc, CredentialDispatch(id, event, LoadAllCredentials))
    ensures Becomes(s, t, s.memory.(allCredentials := UpdateEntry(C.Store, C.EMPTY_VIEW, s.memory.allCredentials, id, event)),
                    pid, Process(pc, Idle))
  {
    var copy := Process(pc, CredentialDispatch(id, event, StoreAllCredentials(s.memory.allCredentials)));
    var u, w := CanMove(s, pid, AnyOutside());
    assert Becomes(s, u, s.memory, pid, copy);
    t, w := CanMove(u, pid, AnyOutside());
    var m := s.memory.(allCredentials := UpdateEntry(C.Store, C.EMPTY_VIEW, s.memory.allCredentials, id, event));
    assert Becomes(u, t, m, pid, Process(pc, Idle));
    BecomesOn(s, u, s.memory, pid, copy, t, m, Process(pc, Idle));
  }

  // ----- there is always a new request -----

  lemma {:induction false} NewPid(used: set<nat>) returns (pid: nat)
    ensures forall p :: p in used ==> p < pid
  {
    if used == {} {
      pid := 0;
    } else {
      var p :| p in used;
      pid := NewPid(used - {p});
      if pid <= p {
        pid := p + 1;
      }
      forall q | q in used ensures q < pid {
        assert q == p || q in used - {p};
      }
    }
  }
}
