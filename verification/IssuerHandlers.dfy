/**
 The issuer's request handlers as the code writes them: sequences of queries and commands over shared repositories, with
 early returns, a polling loop and a signing loop. Between any two accesses other requests may move (`Others`). Every
 handler is proved to take exactly the steps of its process in `IssuerMachine`, so the theorems about runs hold for the
 replies the handlers return; the `serial` clauses say what more is true when no other request moves meanwhile.
 */
module IssuerHandlers {
  import opened Wrappers
  import opened Json
  import opened EventSourcing
  import opened IssuerMachine
  import opened IssuerInvariant
  import opened IssuerTheorems
  import opened Continuations
  import OfferIndexes
  import O = IssuerOffer
  import C = IssuerCredential

  /** What an uninterrupted dispatch leaves in the repositories. */
  function Dispatched(m: Memory, id: string, event: O.OfferEvent): Memory {
    m.(offers := UpdateEntry(O.Update, O.EMPTY_VIEW, m.offers, id, event),
       allOffers := UpdateEntry(O.Update, O.EMPTY_VIEW, m.allOffers, id, event),
       codes := if event.CredentialOfferCreated? then m.codes[event.preAuthorizedCode := id] else m.codes,
       tokens := if event.CredentialOfferCreated? then m.tokens[event.accessToken := id] else m.tokens)
  }

  /** It is what the four queries leave, each applied to the batch: `GenericQuery`, `ListAllQuery` and the two of `IndexQuery`. */
  lemma DispatchedByQueries(m: Memory, id: string, event: O.OfferEvent)
    ensures var after, batch := Dispatched(m, id, event), Enveloped(id, [event]);
            && after.offers == m.offers[id := Replay(O.Update, EntryOr(m.offers, id, O.EMPTY_VIEW), [event])]
            && after.allOffers == FoldAll(O.Update, O.EMPTY_VIEW, m.allOffers, batch)
            && after.codes == OfferIndexes.Filed(OfferIndexes.PreAuthorizedCode, m.codes, batch)
            && after.tokens == OfferIndexes.Filed(OfferIndexes.AccessToken, m.tokens, batch)
  {
    var batch := Enveloped(id, [event]);
    assert [event][..0] == [] && batch[..0] == [];
    FoldBatch(O.Update, O.EMPTY_VIEW, m.allOffers, id, [event]);
  }

  lemma DispatchedCredentialByQueries(m: Memory, id: string, event: C.CredentialEvent)
    ensures var after := DispatchedCredential(m, id, event);
            && after.credentials == m.credentials[id := Replay(C.Store, EntryOr(m.credentials, id, C.EMPTY_VIEW), [event])]
            && after.allCredentials == FoldAll(C.Store, C.EMPTY_VIEW, m.allCredentials, Enveloped(id, [event]))
  {
    assert [event][..0] == [];
    FoldBatch(C.Store, C.EMPTY_VIEW, m.allCredentials, id, [event]);
  }

  function DispatchedCredential(m: Memory, id: string, event: C.CredentialEvent): Memory {
    m.(credentials := UpdateEntry(C.Store, C.EMPTY_VIEW, m.credentials, id, event),
       allCredentials := UpdateEntry(C.Store, C.EMPTY_VIEW, m.allCredentials, id, event))
  }

  function Appended(m: Memory, id: string, event: O.OfferEvent): Memory {
    m.(offerLogs := m.offerLogs[id := OfferLog(m, id) + [event]])
  }

  function AppendedCredential(m: Memory, id: string, event: C.CredentialEvent): Memory {
    m.(credentialLogs := m.credentialLogs[id := CredentialLog(m, id) + [event]])
  }

  /** The one event a command on an offer commits, if it succeeds. */
  function Emitted(r: Result<seq<O.OfferEvent>, O.OfferError>): Option<O.OfferEvent>
    requires r.Success? ==> |r.value| == 1
  {
    match r case Success(events) => Some(events[0]) case Failure(_) => None
  }

  /** A command on a credential fails, does nothing, or commits one event. */
  function CredentialOutcome(r: Result<seq<C.CredentialEvent>, C.CredentialError>): Result<Option<C.CredentialEvent>, C.CredentialError> {
    match r
    case Success(events) => Success(if events == [] then None else Some(events[0]))
    case Failure(error) => Failure(error)
  }

  lemma RunSnoc(history: seq<Step>, pid: nat, w: Outside)
    requires pid in Run(history).processes && Draws(w) !! Run(history).memory.drawn
    ensures Run(history + [Move(pid, w)]) == MoveTo(Run(history), pid, w)
  {
    ReplaySnoc(Exec, INITIAL, history, Move(pid, w));
  }

  /** Meanwhile the request took a step, in these surroundings. */
  ghost predicate Took(before: seq<Step>, after: seq<Step>, pid: nat, w: Outside) {
    before <= after && exists i :: |before| <= i < |after| && after[i] == Move(pid, w)
  }

  lemma TookWithin(first: seq<Step>, before: seq<Step>, after: seq<Step>, last: seq<Step>, pid: nat, w: Outside)
    requires first <= before && Took(before, after, pid, w) && after <= last
    ensures Took(first, last, pid, w)
  {
    var i :| |before| <= i < |after| && after[i] == Move(pid, w);
    assert last[i] == after[i];
  }

  /** Surroundings of which nothing is expected but new strings: each is longer than all used before. */
  function PlainWorld(used: set<string>, n: nat): (w: Outside)
    ensures Draws(w) !! used
  {
    Drawing(AnyOutside(), NewString(used))
  }

  class IssuanceState {
    var offerLogs: map<string, seq<O.OfferEvent>>
    var credentialLogs: map<string, seq<C.CredentialEvent>>
    var offers: map<string, O.OfferView>
    var allOffers: map<string, O.OfferView>
    var codes: map<string, string>
    var tokens: map<string, string>
    var credentials: map<string, C.CredentialView>
    var allCredentials: map<string, C.CredentialView>
    /** Random strings used so far, and the number of steps taken; both only feed the random generator. */
    var drawn: set<string>
    var ticks: nat
    /** Random strings, configuration, foreign code: what the surroundings supply at each step. */
    const world: (set<string>, nat) -> Outside
    /** All steps of all requests up to now. */
    ghost var history: seq<Step>
    /** No other request moves during a call. */
    ghost const serial: bool

    /** `issuance_state`: an event store and repositories with nothing in them. */
    constructor (world: (set<string>, nat) -> Outside, ghost serial: bool)
      requires forall used, n :: Draws(world(used, n)) !! used
      ensures Valid() && history == [] && Mem() == EMPTY_MEMORY && this.world == world && this.serial == serial
    {
      offerLogs, credentialLogs := map[], map[];
      offers, allOffers, codes, tokens, credentials, allCredentials := map[], map[], map[], map[], map[], map[];
      drawn, ticks := {}, 0;
      this.world, this.serial := world, serial;
      history := [];
    }

    /** A new request comes in and stands at the entrance of its handler. */
    method Admit(pid: nat, ghost request: Request)
      requires Valid() && pid !in Run(history).processes
      modifies `history
      ensures Valid() && At(pid, Process(Entrance(request), Idle)) && history == old(history) + [Arrive(pid, request)]
    {
      ReplaySnoc(Exec, INITIAL, history, Arrive(pid, request));
      history := history + [Arrive(pid, request)];
    }

    ghost function Mem(): Memory
      reads this
    {
      Memory(offerLogs, credentialLogs, offers, allOffers, codes, tokens, credentials, allCredentials, drawn)
    }

    /** The memory without the generator's bookkeeping. */
    ghost function Stores(): Memory
      reads this
    {
      Mem().(drawn := {})
    }

    ghost predicate FreshWorld() {
      forall used, n :: Draws(world(used, n)) !! used
    }

    /** The fields are the memory of the run so far. */
    ghost predicate Valid()
      reads this
    {
      Run(history).memory == Mem() && FreshWorld()
    }

    ghost predicate At(pid: nat, p: Process)
      reads this
    {
      pid in Run(history).processes && Run(history).processes[pid] == p
    }

    /** Any other requests take any number of steps; none in a serial run. */
    method Others(pid: nat, ghost p: Process)
      requires Valid() && At(pid, p)
      modifies this
      ensures Valid() && At(pid, p) && old(history) <= history
      ensures forall step :: step in history[|old(history)|..] ==> step.pid != pid
      ensures serial ==> Stores() == old(Stores()) && history == old(history)
    {
    }

    /** One step of the request has been carried out on the fields: it goes on record. */
    method Record(pid: nat, w: Outside, ghost before: Memory, ghost p: Process)
      requires At(pid, p) && Run(history).memory == before && FreshWorld() && Draws(w) !! before.drawn
      requires Mem() == Perform(before, Act(before, p, w).effect)
      modifies `drawn, `ticks, `history
      ensures Valid() && At(pid, Act(before, p, w).next) && Took(old(history), history, pid, w)
      ensures Stores() == old(Stores())
    {
      RunSnoc(history, pid, w);
      assert (history + [Move(pid, w)])[|history|] == Move(pid, w);
      history := history + [Move(pid, w)];
      drawn := drawn + Draws(w);
      ticks := ticks + 1;
    }

    // ----- dispatch of a committed event, query by query -----

    method DispatchOffer(pid: nat, id: string, event: O.OfferEvent, ghost pc: Pc)
      requires Valid() && At(pid, Process(pc, OfferDispatch(id, event, LoadView)))
      modifies this
      ensures Valid() && At(pid, Process(pc, Idle)) && old(history) <= history
      ensures serial ==> Stores() == Dispatched(old(Stores()), id, event)
    {
      DispatchView(pid, id, event, pc);
      DispatchAll(pid, id, event, pc);
      DispatchCode(pid, id, event, pc);
      DispatchToken(pid, id, event, pc);
    }

    /** The generic query behind the single-offer view. */
    method DispatchView(pid: nat, id: string, event: O.OfferEvent, ghost pc: Pc)
      requires Valid() && At(pid, Process(pc, OfferDispatch(id, event, LoadView)))
      modifies this
      ensures Valid() && At(pid, Process(pc, OfferDispatch(id, event, LoadAll))) && old(history) <= history
      ensures serial ==> Stores() == old(Stores()).(offers := UpdateEntry(O.Update, O.EMPTY_VIEW, old(offers), id, event))
    {
      ghost var p := Process(pc, OfferDispatch(id, event, LoadView));
      Others(pid, p);
      var w := world(drawn, ticks);
      var view := EntryOr(offers, id, O.EMPTY_VIEW);
      Record(pid, w, Mem(), p);

      p := Process(pc, OfferDispatch(id, event, StoreView(view)));
      Others(pid, p);
      w := world(drawn, ticks);
      ghost var before := Mem();
      offers := offers[id := O.Update(view, event)];
      Record(pid, w, before, p);
    }

    /** The list-all query. */
    method DispatchAll(pid: nat, id: string, event: O.OfferEvent, ghost pc: Pc)
      requires Valid() && At(pid, Process(pc, OfferDispatch(id, event, LoadAll)))
      modifies this
      ensures Valid() && At(pid, Process(pc, OfferDispatch(id, event, LoadCode))) && old(history) <= history
      ensures serial ==> Stores() == old(Stores()).(allOffers := UpdateEntry(O.Update, O.EMPTY_VIEW, old(allOffers), id, event))
    {
      var listed := LoadListedOffers(pid, id, event, pc);
      StoreListedOffers(pid, id, event, listed, pc);
    }

    method LoadListedOffers(pid: nat, id: string, event: O.OfferEvent, ghost pc: Pc) returns (listed: map<string, O.OfferView>)
      requires Valid() && At(pid, Process(pc, OfferDispatch(id, event, LoadAll)))
      modifies this
      ensures Valid() && At(pid, Process(pc, OfferDispatch(id, event, StoreAll(listed)))) && old(history) <= history
      ensures serial ==> Stores() == old(Stores()) && listed == old(allOffers)
    {
      ghost var p := Process(pc, OfferDispatch(id, event, LoadAll));
      Others(pid, p);
      var w := world(drawn, ticks);
      listed := allOffers;
      Record(pid, w, Mem(), p);
    }

    method StoreListedOffers(pid: nat, id: string, event: O.OfferEvent, listed: map<string, O.OfferView>, ghost pc: Pc)
      requires Valid() && At(pid, Process(pc, OfferDispatch(id, event, StoreAll(listed))))
      modifies this
      ensures Valid() && At(pid, Process(pc, OfferDispatch(id, event, LoadCode))) && old(history) <= history
      ensures serial ==> Stores() == old(Stores()).(allOffers := UpdateEntry(O.Update, O.EMPTY_VIEW, listed, id, event))
    {
      ghost var p := Process(pc, OfferDispatch(id, event, StoreAll(listed)));
      Others(pid, p);
      var w := world(drawn, ticks);
      ghost var before := Mem();
      allOffers := UpdateEntry(O.Update, O.EMPTY_VIEW, listed, id, event);
      Record(pid, w, before, p);
    }

    /** The pre-authorized-code query: it loads under the id of the offer and stores under the code. */
    method DispatchCode(pid: nat, id: string, event: O.OfferEvent, ghost pc: Pc)
      requires Valid() && At(pid, Process(pc, OfferDispatch(id, event, LoadCode)))
      modifies this
      ensures Valid() && At(pid, Process(pc, OfferDispatch(id, event, LoadToken))) && old(history) <= history
      ensures serial ==> Stores() == old(Stores()).(codes := if event.CredentialOfferCreated?
                                                             then old(codes)[event.preAuthorizedCode := id] else old(codes))
    {
      var offerId := LoadCodeUnderId(pid, id, event, pc);
      if event.CredentialOfferCreated? {
        StoreUnderCode(pid, id, event, offerId, pc);
      }
    }

    method LoadCodeUnderId(pid: nat, id: string, event: O.OfferEvent, ghost pc: Pc) returns (offerId: string)
      requires Valid() && At(pid, Process(pc, OfferDispatch(id, event, LoadCode)))
      modifies this
      ensures Valid() && old(history) <= history
      ensures At(pid, Process(pc, OfferDispatch(id, event, if event.CredentialOfferCreated? then StoreCode(offerId) else LoadToken)))
      ensures serial ==> Stores() == old(Stores())
    {
      ghost var p := Process(pc, OfferDispatch(id, event, LoadCode));
      Others(pid, p);
      var w := world(drawn, ticks);
      offerId := EntryOr(codes, id, "");
      Record(pid, w, Mem(), p);
    }

    method StoreUnderCode(pid: nat, id: string, event: O.OfferEvent, loaded: string, ghost pc: Pc)
      requires Valid() && event.CredentialOfferCreated? && At(pid, Process(pc, OfferDispatch(id, event, StoreCode(loaded))))
      modifies this
      ensures Valid() && At(pid, Process(pc, OfferDispatch(id, event, LoadToken))) && old(history) <= history
      ensures serial ==> Stores() == old(Stores()).(codes := old(codes)[event.preAuthorizedCode := id])
    {
      ghost var p := Process(pc, OfferDispatch(id, event, StoreCode(loaded)));
      Others(pid, p);
      var w := world(drawn, ticks);
      ghost var before := Mem();
      var offerId := loaded;
      offerId := id;
      codes := codes[event.preAuthorizedCode := offerId];
      Record(pid, w, before, p);
    }

    /** The access-token query, likewise. */
    method DispatchToken(pid: nat, id: string, event: O.OfferEvent, ghost pc: Pc)
      requires Valid() && At(pid, Process(pc, OfferDispatch(id, event, LoadToken)))
      modifies this
      ensures Valid() && At(pid, Process(pc, Idle)) && old(history) <= history
      ensures serial ==> Stores() == old(Stores()).(tokens := if event.CredentialOfferCreated?
                                                              then old(tokens)[event.accessToken := id] else old(tokens))
    {
      var offerId := LoadUnderId(pid, id, event, pc);
      if event.CredentialOfferCreated? {
        StoreUnderToken(pid, id, event, offerId, pc);
      }
    }

    method LoadUnderId(pid: nat, id: string, event: O.OfferEvent, ghost pc: Pc) returns (offerId: string)
      requires Valid() && At(pid, Process(pc, OfferDispatch(id, event, LoadToken)))
      modifies this
      ensures Valid() && old(history) <= history
      ensures At(pid, Process(pc, if event.CredentialOfferCreated? then OfferDispatch(id, event, StoreToken(offerId)) else Idle))
      ensures serial ==> Stores() == old(Stores())
    {
      ghost var p := Process(pc, OfferDispatch(id, event, LoadToken));
      Others(pid, p);
      var w := world(drawn, ticks);
      offerId := EntryOr(tokens, id, "");
      Record(pid, w, Mem(), p);
    }

    method StoreUnderToken(pid: nat, id: string, event: O.OfferEvent, loaded: string, ghost pc: Pc)
      requires Valid() && event.CredentialOfferCreated? && At(pid, Process(pc, OfferDispatch(id, event, StoreToken(loaded))))
      modifies this
      ensures Valid() && At(pid, Process(pc, Idle)) && old(history) <= history
      ensures serial ==> Stores() == old(Stores()).(tokens := old(tokens)[event.accessToken := id])
    {
      ghost var p := Process(pc, OfferDispatch(id, event, StoreToken(loaded)));
      Others(pid, p);
      var w := world(drawn, ticks);
      ghost var before := Mem();
      var offerId := loaded;
      offerId := id;
      tokens := tokens[event.accessToken := offerId];
      Record(pid, w, before, p);
    }

    method DispatchCredential(pid: nat, id: string, event: C.CredentialEvent, ghost pc: Pc)
      requires Valid() && At(pid, Process(pc, CredentialDispatch(id, event, LoadCredential)))
      modifies this
      ensures Valid() && At(pid, Process(pc, Idle)) && old(history) <= history
      ensures serial ==> Stores() == DispatchedCredential(old(Stores()), id, event)
    {
      DispatchCredentialView(pid, id, event, pc);
      DispatchAllCredentials(pid, id, event, pc);
    }

    method DispatchCredentialView(pid: nat, id: string, event: C.CredentialEvent, ghost pc: Pc)
      requires Valid() && At(pid, Process(pc, CredentialDispatch(id, event, LoadCredential)))
      modifies this
      ensures Valid() && At(pid, Process(pc, CredentialDispatch(id, event, LoadAllCredentials))) && old(history) <= history
      ensures serial ==>
                Stores() == old(Stores()).(credentials := UpdateEntry(C.Store, C.EMPTY_VIEW, old(credentials), id, event))
    {
      var view := LoadCredentialView(pid, id, event, pc);
      StoreCredentialView(pid, id, event, view, pc);
    }

    method LoadCredentialView(pid: nat, id: string, event: C.CredentialEvent, ghost pc: Pc) returns (view: C.CredentialView)
      requires Valid() && At(pid, Process(pc, CredentialDispatch(id, event, LoadCredential)))
      modifies this
      ensures Valid() && At(pid, Process(pc, CredentialDispatch(id, event, StoreCredential(view)))) && old(history) <= history
      ensures serial ==> Stores() == old(Stores()) && view == EntryOr(old(credentials), id, C.EMPTY_VIEW)
    {
      ghost var p := Process(pc, CredentialDispatch(id, event, LoadCredential));
      Others(pid, p);
      var w := world(drawn, ticks);
      view := EntryOr(credentials, id, C.EMPTY_VIEW);
      Record(pid, w, Mem(), p);
    }

    method StoreCredentialView(pid: nat, id: string, event: C.CredentialEvent, view: C.CredentialView, ghost pc: Pc)
      requires Valid() && At(pid, Process(pc, CredentialDispatch(id, event, StoreCredential(view))))
      modifies this
      ensures Valid() && At(pid, Process(pc, CredentialDispatch(id, event, LoadAllCredentials))) && old(history) <= history
      ensures serial ==> Stores() == old(Stores()).(credentials := old(credentials)[id := C.Store(view, event)])
    {
      ghost var p := Process(pc, CredentialDispatch(id, event, StoreCredential(view)));
      Others(pid, p);
      var w := world(drawn, ticks);
      ghost var before := Mem();
      credentials := credentials[id := C.Store(view, event)];
      Record(pid, w, before, p);
    }

    method DispatchAllCredentials(pid: nat, id: string, event: C.CredentialEvent, ghost pc: Pc)
      requires Valid() && At(pid, Process(pc, CredentialDispatch(id, event, LoadAllCredentials)))
      modifies this
      ensures Valid() && At(pid, Process(pc, Idle)) && old(history) <= history
      ensures serial ==>
                Stores() == old(Stores()).(allCredentials := UpdateEntry(C.Store, C.EMPTY_VIEW, old(allCredentials), id, event))
    {
      var listed := LoadListed(pid, id, event, pc);
      StoreListed(pid, id, event, listed, pc);
    }

    method LoadListed(pid: nat, id: string, event: C.CredentialEvent, ghost pc: Pc) returns (listed: map<string, C.CredentialView>)
      requires Valid() && At(pid, Process(pc, CredentialDispatch(id, event, LoadAllCredentials)))
      modifies this
      ensures Valid() && At(pid, Process(pc, CredentialDispatch(id, event, StoreAllCredentials(listed)))) && old(history) <= history
      ensures serial ==> Stores() == old(Stores()) && listed == old(allCredentials)
    {
      ghost var p := Process(pc, CredentialDispatch(id, event, LoadAllCredentials));
      Others(pid, p);
      var w := world(drawn, ticks);
      listed := allCredentials;
      Record(pid, w, Mem(), p);
    }

    method StoreListed(pid: nat, id: string, event: C.CredentialEvent, listed: map<string, C.CredentialView>, ghost pc: Pc)
      requires Valid() && At(pid, Process(pc, CredentialDispatch(id, event, StoreAllCredentials(listed))))
      modifies this
      ensures Valid() && At(pid, Process(pc, Idle)) && old(history) <= history
      ensures serial ==> Stores() == old(Stores()).(allCredentials := UpdateEntry(C.Store, C.EMPTY_VIEW, listed, id, event))
    {
      ghost var p := Process(pc, CredentialDispatch(id, event, StoreAllCredentials(listed)));
      Others(pid, p);
      var w := world(drawn, ticks);
      ghost var before := Mem();
      allCredentials := UpdateEntry(C.Store, C.EMPTY_VIEW, listed, id, event);
      Record(pid, w, before, p);
    }

    // ----- commands -----

    /** Load, handle and append in one step. */
    method CommitOffer(pid: nat, id: string, command: O.OfferCommand, w: Outside, ghost pc: Pc, ghost ok: Pc, ghost failed: Pc)
      returns (event: Option<O.OfferEvent>)
      requires Valid() && At(pid, Process(pc, Idle)) && Draws(w) !! drawn
      requires Act(Mem(), Process(pc, Idle), w) == OfferCommand(Mem(), id, command, w, ok, failed)
      modifies this
      ensures Valid() && Took(old(history), history, pid, w)
      ensures event == Emitted(O.Handle(O.Aggregate(OfferLog(old(Mem()), id)), command, w.offer))
      ensures At(pid, if event.Some? then Process(ok, OfferDispatch(id, event.value, LoadView)) else Process(failed, Idle))
      ensures Stores() == if event.Some? then Appended(old(Stores()), id, event.value) else old(Stores())
    {
      ghost var before := Mem();
      var result := O.Handle(O.Aggregate(EntryOr(offerLogs, id, [])), command, w.offer);
      match result {
        case Failure(_) =>
          event := None;
        case Success(events) =>
          offerLogs := offerLogs[id := EntryOr(offerLogs, id, []) + [events[0]]];
          event := Some(events[0]);
      }
      Record(pid, w, before, Process(pc, Idle));
    }

    method CommitCredential(pid: nat, id: string, command: C.CredentialCommand, w: Outside, ghost pc: Pc, ghost ok: Pc, ghost failed: Pc)
      returns (r: Result<Option<C.CredentialEvent>, C.CredentialError>)
      requires Valid() && At(pid, Process(pc, Idle)) && Draws(w) !! drawn
      requires Act(Mem(), Process(pc, Idle), w) == CredentialCommand(Mem(), id, command, w, ok, failed)
      modifies this
      ensures Valid() && Took(old(history), history, pid, w)
      ensures r == CredentialOutcome(C.Handle(C.Aggregate(CredentialLog(old(Mem()), id)), command, w.credential))
      ensures At(pid, match r
                      case Failure(error) => Process(if error == C.Panic then Done(Crashed) else failed, Idle)
                      case Success(None) => Process(ok, Idle)
                      case Success(Some(event)) => Process(ok, CredentialDispatch(id, event, LoadCredential)))
      ensures Stores() == if r.Success? && r.value.Some? then AppendedCredential(old(Stores()), id, r.value.value) else old(Stores())
    {
      ghost var before := Mem();
      var result := C.Handle(C.Aggregate(EntryOr(credentialLogs, id, [])), command, w.credential);
      match result {
        case Failure(error) =>
          r := Failure(error);
        case Success(events) =>
          if events == [] {
            r := Success(None);
          } else {
            credentialLogs := credentialLogs[id := EntryOr(credentialLogs, id, []) + [events[0]]];
            r := Success(Some(events[0]));
          }
      }
      Record(pid, w, before, Process(pc, Idle));
    }

    /** `command_handler` on an offer: commit, then dispatch to every query before returning. */
    method ExecuteOffer(pid: nat, id: string, command: O.OfferCommand, w: Outside, ghost pc: Pc, ghost ok: Pc, ghost failed: Pc)
      returns (event: Option<O.OfferEvent>)
      requires Valid() && At(pid, Process(pc, Idle)) && Draws(w) !! drawn
      requires Act(Mem(), Process(pc, Idle), w) == OfferCommand(Mem(), id, command, w, ok, failed)
      modifies this
      ensures Valid() && Took(old(history), history, pid, w)
      ensures event == Emitted(O.Handle(O.Aggregate(OfferLog(old(Mem()), id)), command, w.offer))
      ensures At(pid, Process(if event.Some? then ok else failed, Idle))
      ensures serial ==> Stores() == if event.Some? then Dispatched(Appended(old(Stores()), id, event.value), id, event.value)
                                     else old(Stores())
    {
      event := CommitOffer(pid, id, command, w, pc, ok, failed);
      ghost var committed := history;
      if event.Some? {
        DispatchOffer(pid, id, event.value, ok);
      }
      TookWithin(old(history), old(history), committed, history, pid, w);
    }

    /** `command_handler` on a credential. */
    method ExecuteCredential(pid: nat, id: string, command: C.CredentialCommand, w: Outside, ghost pc: Pc, ghost ok: Pc, ghost failed: Pc)
      returns (r: Result<Option<C.CredentialEvent>, C.CredentialError>)
      requires Valid() && At(pid, Process(pc, Idle)) && Draws(w) !! drawn
      requires Act(Mem(), Process(pc, Idle), w) == CredentialCommand(Mem(), id, command, w, ok, failed)
      modifies this
      ensures Valid() && Took(old(history), history, pid, w)
      ensures r == CredentialOutcome(C.Handle(C.Aggregate(CredentialLog(old(Mem()), id)), command, w.credential))
      ensures At(pid, Process(if r.Success? then ok else if r.error == C.Panic then Done(Crashed) else failed, Idle))
      ensures serial ==> Stores() == if r.Success? && r.value.Some?
                                     then DispatchedCredential(AppendedCredential(old(Stores()), id, r.value.value), id, r.value.value)
                                     else old(Stores())
    {
      r := CommitCredential(pid, id, command, w, pc, ok, failed);
      ghost var committed := history;
      if r.Success? && r.value.Some? {
        DispatchCredential(pid, id, r.value.value, ok);
      }
      TookWithin(old(history), old(history), committed, history, pid, w);
    }
  }
}
