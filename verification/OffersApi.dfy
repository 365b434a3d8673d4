/** The back-office issuer endpoints: `offers` and `credentials` (`agent_api_rest/src/issuance`). Both create the offer when it
    is absent; alone they create each offer once, interleaved they may create it more than once. */
module OffersApi {
  import opened Wrappers
  import opened Json
  import opened EventSourcing
  import opened IssuerMachine
  import opened IssuerInvariant
  import opened IssuerPreservation
  import opened IssuerTheorems
  import opened IssuerAtomic
  import opened Continuations
  import opened IssuerHandlers
  import opened SerialRuns
  import SC = ServerConfig
  import O = IssuerOffer
  import C = IssuerCredential

  // ----- POST /v0/offers and POST /v0/credentials -----

  /** `after` differs from `before` in one offer's log, by the events `more`. */
  ghost predicate Extended(before: Memory, after: Memory, offerId: string, more: seq<O.OfferEvent>) {
    OfferLog(after, offerId) == OfferLog(before, offerId) + more
    && forall o :: o != offerId ==> OfferLog(after, o) == OfferLog(before, o)
  }

  /** One creation of the offer was put on record and dispatched, an offer for this configuration with its own code. */
  ghost predicate OneCreation(before: Memory, after: Memory, offerId: string, metadata: SC.Metadata) {
    exists offer, code, token ::
      var event := O.CredentialOfferCreated(offer, code, token);
      O.Announces(offer, metadata, code) && after == Dispatched(Appended(before, offerId, event), offerId, event)
  }

  /** `query_handler` on the offer view, then create the offer when there is none. */
  ghost predicate CreateIfAbsent(before: Memory, after: Memory, offerId: string, metadata: SC.Metadata) {
    if offerId in before.offers then after == before else OneCreation(before, after, offerId, metadata)
  }

  /** The latest creation on record is for this configuration. */
  ghost predicate Announced(log: seq<O.OfferEvent>, metadata: SC.Metadata) {
    O.LastCreated(log).Some?
    && O.Announces(O.LastCreated(log).value.credentialOffer, metadata, O.LastCreated(log).value.preAuthorizedCode)
  }

  lemma StillLast(log: seq<O.OfferEvent>, event: O.OfferEvent)
    requires !event.CredentialOfferCreated?
    ensures O.LastCreated(log + [event]) == O.LastCreated(log)
  {
    assert (log + [event])[..|log|] == log;
  }

  method CreateOffer(state: IssuanceState, pid: nat, offerId: string, metadata: SC.Metadata, ghost pc: Pc, ghost ok: Pc)
    requires state.Valid() && state.At(pid, Process(pc, Idle))
    requires (pc.CredentialsOffer? && pc == CredentialsOffer(offerId, pc.id, metadata) && ok == CredentialsAdd(offerId, pc.id))
             || (pc == OffersCreate(offerId, metadata) && ok == OffersEncode(offerId))
    modifies state
    ensures state.Valid() && old(state.history) <= state.history && state.At(pid, Process(ok, Idle))
    ensures state.serial ==> OneCreation(old(state.Stores()), state.Stores(), offerId, metadata)
  {
    state.Others(pid, Process(pc, Idle));
    var w := state.world(state.drawn, state.ticks);
    var event := state.ExecuteOffer(pid, offerId, O.CreateCredentialOffer(metadata), w, pc, ok, Done(ServerError));
  }

  method FindForOffers(state: IssuanceState, pid: nat, offerId: string, metadata: SC.Metadata) returns (present: bool)
    requires state.Valid() && state.At(pid, Process(OffersLookup(offerId, metadata), Idle))
    modifies state
    ensures state.Valid() && old(state.history) <= state.history
    ensures state.At(pid, Process(if present then OffersEncode(offerId) else OffersCreate(offerId, metadata), Idle))
    ensures state.serial ==> state.Stores() == old(state.Stores()) && present == (offerId in old(state.offers))
  {
    state.Others(pid, Process(OffersLookup(offerId, metadata), Idle));
    var w := state.world(state.drawn, state.ticks);
    present := offerId in state.offers;
    state.Record(pid, w, state.Mem(), Process(OffersLookup(offerId, metadata), Idle));
  }

  method LookupForOffers(state: IssuanceState, pid: nat, offerId: string, metadata: SC.Metadata)
    requires state.Valid() && state.At(pid, Process(OffersLookup(offerId, metadata), Idle))
    modifies state
    ensures state.Valid() && old(state.history) <= state.history && state.At(pid, Process(OffersEncode(offerId), Idle))
    ensures state.serial ==> CreateIfAbsent(old(state.Stores()), state.Stores(), offerId, metadata)
  {
    var present := FindForOffers(state, pid, offerId, metadata);
    if !present {
      CreateOffer(state, pid, offerId, metadata, OffersCreate(offerId, metadata), OffersEncode(offerId));
    }
  }

  method EncodeOffer(state: IssuanceState, pid: nat, offerId: string) returns (done: bool, ghost form: O.Form)
    requires state.Valid() && state.At(pid, Process(OffersEncode(offerId), Idle))
    modifies state
    ensures state.Valid() && old(state.history) <= state.history
    ensures state.At(pid, Process(if done then OffersReply(offerId) else Done(ServerError), Idle))
    ensures state.serial ==>
              (done <==> O.LastCreated(OfferLog(old(state.Stores()), offerId)).Some?)
              && (done ==> form == Some(O.LastCreated(OfferLog(old(state.Stores()), offerId)).value.credentialOffer))
              && if !done then state.Stores() == old(state.Stores())
                 else var event := O.FormUrlEncodedCredentialOfferCreated(form);
                      state.Stores() == Dispatched(Appended(old(state.Stores()), offerId, event), offerId, event)
  {
    state.Others(pid, Process(OffersEncode(offerId), Idle));
    var w := state.world(state.drawn, state.ticks);
    var event := state.ExecuteOffer(pid, offerId, O.CreateFormUrlEncodedCredentialOffer, w, OffersEncode(offerId),
                                    OffersReply(offerId), Done(ServerError));
    if state.serial {
      O.AccessTokenIsLatest(OfferLog(old(state.Stores()), offerId));
    }
    done := event.Some?;
    form := if event.Some? then event.value.form else None;
  }

  method ReadOffer(state: IssuanceState, pid: nat, offerId: string) returns (reply: Reply)
    requires state.Valid() && state.At(pid, Process(OffersReply(offerId), Idle))
    modifies state
    ensures state.Valid() && old(state.history) <= state.history && state.At(pid, Process(Done(reply), Idle))
    ensures state.serial ==>
              state.Stores() == old(state.Stores())
              && reply == if offerId in old(state.offers) then OfferShown(offerId, old(state.offers)[offerId].form) else ServerError
  {
    state.Others(pid, Process(OffersReply(offerId), Idle));
    var w := state.world(state.drawn, state.ticks);
    reply := if offerId in state.offers then OfferShown(offerId, state.offers[offerId].form) else ServerError;
    state.Record(pid, w, state.Mem(), Process(OffersReply(offerId), Idle));
  }

  method ReadOffersMetadata(state: IssuanceState, pid: nat, offerId: string) returns (metadata: Option<SC.Metadata>, ghost read: Outside)
    requires state.Valid() && state.At(pid, Process(OffersStart(offerId), Idle))
    modifies state
    ensures state.Valid() && Took(old(state.history), state.history, pid, read) && metadata == read.metadata
    ensures state.At(pid, Process(if metadata.Some? then OffersLookup(offerId, metadata.value) else Done(ServerError), Idle))
    ensures state.serial ==> state.Stores() == old(state.Stores())
  {
    state.Others(pid, Process(OffersStart(offerId), Idle));
    ghost var now := state.history;
    var surroundings := state.world(state.drawn, state.ticks);
    metadata, read := surroundings.metadata, surroundings;
    state.Record(pid, surroundings, state.Mem(), Process(OffersStart(offerId), Idle));
    TookWithin(old(state.history), now, state.history, state.history, pid, read);
  }

  /** The views are exact and every offer was created once: how requests that run one after the other find the memory. */
  ghost predicate Orderly(m: Memory) {
    Exact(m, Idle) && CreatedOnce(m)
  }

  lemma {:induction false} CreatedHasOffer(log: seq<O.OfferEvent>)
    requires log != [] && log[0].CredentialOfferCreated?
    ensures O.LastCreated(log).Some?
  {
    var front := log[..|log| - 1];
    if |log| > 1 {
      CreatedHasOffer(front);
    }
  }

  lemma CreateIfAbsentKeepsOnce(before: Memory, after: Memory, offerId: string, metadata: SC.Metadata)
    requires CreatedOnce(before) && OfferAt(before, Idle, offerId) && CreateIfAbsent(before, after, offerId, metadata)
    ensures CreatedOnce(after) && OfferLog(after, offerId) != [] && OfferLog(after, offerId)[0].CredentialOfferCreated?
    ensures offerId !in before.offers ==> |OfferLog(after, offerId)| == 1 && Announced(OfferLog(after, offerId), metadata)
    ensures offerId in before.offers ==> after == before
    ensures forall o :: o != offerId ==> OfferLog(after, o) == OfferLog(before, o)
  {
    assert OnceCreated(OfferLog(before, offerId));
    forall o ensures OnceCreated(OfferLog(after, o)) {
      assert OnceCreated(OfferLog(before, o));
    }
  }

  lemma ExtensionKeepsOnce(before: Memory, after: Memory, offerId: string, event: O.OfferEvent)
    requires CreatedOnce(before) && OfferLog(before, offerId) != [] && !event.CredentialOfferCreated?
    requires Extended(before, after, offerId, [event])
    ensures CreatedOnce(after)
  {
    forall o ensures OnceCreated(OfferLog(after, o)) {
      assert OnceCreated(OfferLog(before, o));
    }
  }

  /** What an `offers` request does when it runs alone on an orderly memory: with a configuration it succeeds, the offer is there
      and still created once, and the answer is the offer of that creation: one that was there, or a new one for the
      configuration that was read, with the code on record. */
  ghost predicate OffersAlone(before: Memory, after: Memory, offerId: string, read: Outside, reply: Reply) {
    if read.metadata.None? then after == before && reply == ServerError
    else Orderly(before) ==> CreatedOnce(after) && Shows(before, after, offerId, read.metadata.value, reply)
  }

  ghost predicate Shows(before: Memory, after: Memory, offerId: string, metadata: SC.Metadata, reply: Reply) {
    var log, present := OfferLog(after, offerId), offerId in before.offers;
    && reply.OfferShown? && reply.offerId == offerId
    && |log| == |OfferLog(before, offerId)| + (if present then 1 else 2)
    && log[|log| - 1] == O.FormUrlEncodedCredentialOfferCreated(reply.form)
    && O.LastCreated(log).Some? && reply.form == Some(O.LastCreated(log).value.credentialOffer)
    && if present then O.LastCreated(log) == O.LastCreated(OfferLog(before, offerId)) else Announced(log, metadata)
  }

  method Offers(state: IssuanceState, pid: nat, offerId: string) returns (reply: Reply, ghost read: Outside)
    requires state.Valid() && state.At(pid, Process(Entrance(PostOffers(offerId)), Idle))
    modifies state
    ensures state.Valid() && Took(old(state.history), state.history, pid, read) && state.At(pid, Process(Done(reply), Idle))
    ensures state.serial ==> OffersAlone(old(state.Stores()), state.Stores(), offerId, read, reply)
  {
    var metadata;
    metadata, read := ReadOffersMetadata(state, pid, offerId);
    if metadata.None? {
      return ServerError, read;
    }
    ghost var now := state.history;
    reply := ShowOffer(state, pid, offerId, metadata.value);
    TookWithin(old(state.history), old(state.history), now, state.history, pid, read);
  }

  method ShowOffer(state: IssuanceState, pid: nat, offerId: string, metadata: SC.Metadata) returns (reply: Reply)
    requires state.Valid() && state.At(pid, Process(OffersLookup(offerId, metadata), Idle))
    modifies state
    ensures state.Valid() && old(state.history) <= state.history && state.At(pid, Process(Done(reply), Idle))
    ensures state.serial && Orderly(old(state.Stores())) ==>
              CreatedOnce(state.Stores()) && Shows(old(state.Stores()), state.Stores(), offerId, metadata, reply)
  {
    LookupForOffers(state, pid, offerId, metadata);
    ghost var created := state.Stores();
    var done, form := EncodeOffer(state, pid, offerId);
    ghost var encoded := state.Stores();
    if done {
      reply := ReadOffer(state, pid, offerId);
    } else {
      reply := ServerError;
    }
    if state.serial && Orderly(old(state.Stores())) {
      assert OfferAt(old(state.Stores()), Idle, offerId);
      CreateIfAbsentKeepsOnce(old(state.Stores()), created, offerId, metadata);
      CreatedHasOffer(OfferLog(created, offerId));
      EncodedAfterCreated(old(state.Stores()), created, encoded, offerId, metadata, form);
    }
  }

  lemma EncodedAfterCreated(before: Memory, created: Memory, encoded: Memory, offerId: string, metadata: SC.Metadata, form: O.Form)
    requires CreatedOnce(created) && OfferLog(created, offerId) != []
    requires if offerId in before.offers then created == before
             else |OfferLog(created, offerId)| == |OfferLog(before, offerId)| + 1 && Announced(OfferLog(created, offerId), metadata)
    requires O.LastCreated(OfferLog(created, offerId)).Some?
    requires form == Some(O.LastCreated(OfferLog(created, offerId)).value.credentialOffer)
    requires var event := O.FormUrlEncodedCredentialOfferCreated(form);
             encoded == Dispatched(Appended(created, offerId, event), offerId, event)
    ensures CreatedOnce(encoded) && offerId in encoded.offers && encoded.offers[offerId].form == form
    ensures Shows(before, encoded, offerId, metadata, OfferShown(offerId, form))
  {
    var event := O.FormUrlEncodedCredentialOfferCreated(form);
    ExtensionKeepsOnce(created, encoded, offerId, event);
    assert OfferLog(encoded, offerId) == OfferLog(created, offerId) + [event];
    StillLast(OfferLog(created, offerId), event);
  }

  // ----- POST /v0/credentials -----

  /** A string never drawn before names no credential yet. */
  lemma FreshIdUnknown(history: seq<Step>, id: string)
    requires id !in Run(history).memory.drawn
    ensures CredentialLog(Run(history).memory, id) == [] && id !in Run(history).memory.credentials
  {
    Reachable(history);
    CredentialViewsFollowLogs(history, id);
  }

  /** What the request can make a credential from, in the configuration it reads. */
  predicate Acceptable(credential: Json, configurationId: string, read: Outside) {
    (credential.Object? || credential.Str?) && read.metadata.Some? && configurationId in read.metadata.value.configurations
  }

  function Creation(credential: Json, isSigned: bool, configurationId: string, read: Outside): C.CredentialCommand
    requires Acceptable(credential, configurationId, read)
  {
    if isSigned then C.CreateSignedCredential(credential)
    else C.CreateUnsignedCredential(C.Data(credential), read.metadata.value.configurations[configurationId])
  }

  predicate Creatable(command: C.CredentialCommand, create: Outside)
    requires !command.SignCredential?
  {
    command.CreateSignedCredential? || C.Create(command.data, command.configuration, create.credential).Success?
  }

  /** The answer when there is nothing to make a credential from. */
  function Unacceptable(credential: Json, configurationId: string, read: Outside): Reply
    requires !Acceptable(credential, configurationId, read)
  {
    if !(credential.Object? || credential.Str?) then BadRequest
    else if read.metadata.None? then ServerError
    else NotFound
  }

  /** The answer when none is made. */
  function Uncreatable(command: C.CredentialCommand, create: Outside): Reply
    requires !command.SignCredential? && !Creatable(command, create)
  {
    if C.Create(command.data, command.configuration, create.credential) == Failure(C.Panic) then Crashed else ServerError
  }

  method StartCredentials(state: IssuanceState, pid: nat, offerId: string, credential: Json, isSigned: bool, configurationId: string)
    returns (r: Result<(string, C.CredentialCommand), Reply>, ghost read: Outside)
    requires state.Valid() && state.At(pid, Process(CredentialsStart(offerId, credential, isSigned, configurationId), Idle))
    modifies state
    ensures state.Valid() && Took(old(state.history), state.history, pid, read)
    ensures state.At(pid, Process(if r.Success? then CredentialsCreate(offerId, r.value.0, r.value.1) else Done(r.error), Idle))
    ensures r.Success? <==> Acceptable(credential, configurationId, read)
    ensures r.Failure? ==> r.error == Unacceptable(credential, configurationId, read)
    ensures r.Success? ==> r.value.1 == Creation(credential, isSigned, configurationId, read)
    ensures state.serial ==> state.Stores() == old(state.Stores())
    ensures state.serial && r.Success? ==>
              CredentialLog(old(state.Stores()), r.value.0) == [] && r.value.0 !in old(state.credentials)
  {
    ghost var p := Process(CredentialsStart(offerId, credential, isSigned, configurationId), Idle);
    state.Others(pid, p);
    ghost var now := state.history;
    var w := state.world(state.drawn, state.ticks);
    read := w;
    FreshIdUnknown(state.history, w.uuid);
    if !(credential.Object? || credential.Str?) {
      r := Failure(BadRequest);
    } else if w.metadata.None? {
      r := Failure(ServerError);
    } else if configurationId !in w.metadata.value.configurations {
      r := Failure(NotFound);
    } else if isSigned {
      r := Success((w.uuid, C.CreateSignedCredential(credential)));
    } else {
      r := Success((w.uuid, C.CreateUnsignedCredential(C.Data(credential), w.metadata.value.configurations[configurationId])));
    }
    state.Record(pid, w, state.Mem(), p);
    TookWithin(old(state.history), now, state.history, state.history, pid, read);
  }

  /** The event of a creation. */
  ghost predicate Creates(command: C.CredentialCommand, create: Outside, event: C.CredentialEvent)
    requires !command.SignCredential?
  {
    if command.CreateSignedCredential? then event == C.SignedCredentialCreated(command.signed)
    else
      && C.Create(command.data, command.configuration, create.credential) == Success([event])
      && event.UnsignedCredentialCreated? && event.configuration == command.configuration
  }

  /** What comes of a creation, whatever is on record for the credential. */
  lemma CreationOutcome(self: C.Credential, command: C.CredentialCommand, create: Outside)
    requires !command.SignCredential?
    ensures var r := CredentialOutcome(C.Handle(self, command, create.credential));
            && (r.Success? <==> Creatable(command, create))
            && (r.Success? ==> r.value.Some? && Creates(command, create, r.value.value))
            && (r.Failure? ==> (if r.error == C.Panic then Crashed else ServerError) == Uncreatable(command, create))
  {
  }

  method CreateCredential(state: IssuanceState, pid: nat, offerId: string, id: string, create: C.CredentialCommand)
    returns (event: Result<Option<C.CredentialEvent>, Reply>, ghost w: Outside)
    requires state.Valid() && state.At(pid, Process(CredentialsCreate(offerId, id, create), Idle)) && !create.SignCredential?
    modifies state
    ensures state.Valid() && Took(old(state.history), state.history, pid, w)
    ensures state.At(pid, Process(if event.Success? then CredentialsMetadata(offerId, id) else Done(event.error), Idle))
    ensures event.Success? <==> Creatable(create, w)
    ensures event.Success? ==> event.value.Some? && Creates(create, w, event.value.value)
    ensures event.Failure? ==> event.error == Uncreatable(create, w)
    ensures state.serial ==> state.Stores() == if event.Success? then DispatchedCredential(AppendedCredential(old(state.Stores()), id, event.value.value),
                                                                                           id, event.value.value)
                                               else old(state.Stores())
  {
    ghost var pc, next := CredentialsCreate(offerId, id, create), CredentialsMetadata(offerId, id);
    state.Others(pid, Process(pc, Idle));
    ghost var now := state.history;
    var surroundings := state.world(state.drawn, state.ticks);
    w := surroundings;
    CreationOutcome(C.Aggregate(CredentialLog(state.Mem(), id)), create, w);
    var r := state.ExecuteCredential(pid, id, create, surroundings, pc, next, Done(ServerError));
    event := match r
      case Success(e) => Success(e)
      case Failure(error) => Failure(if error == C.Panic then Crashed else ServerError);
    TookWithin(old(state.history), now, state.history, state.history, pid, w);
  }

  method ReadMetadataAgain(state: IssuanceState, pid: nat, offerId: string, id: string)
    returns (metadata: Option<SC.Metadata>, ghost w: Outside)
    requires state.Valid() && state.At(pid, Process(CredentialsMetadata(offerId, id), Idle))
    modifies state
    ensures state.Valid() && Took(old(state.history), state.history, pid, w) && metadata == w.metadata
    ensures state.At(pid, Process(if metadata.Some? then CredentialsLookup(offerId, id, metadata.value) else Done(ServerError), Idle))
    ensures state.serial ==> state.Stores() == old(state.Stores())
  {
    state.Others(pid, Process(CredentialsMetadata(offerId, id), Idle));
    ghost var now := state.history;
    var surroundings := state.world(state.drawn, state.ticks);
    metadata, w := surroundings.metadata, surroundings;
    state.Record(pid, surroundings, state.Mem(), Process(CredentialsMetadata(offerId, id), Idle));
    TookWithin(old(state.history), now, state.history, state.history, pid, w);
  }

  method FindForCredentials(state: IssuanceState, pid: nat, offerId: string, id: string, metadata: SC.Metadata) returns (present: bool)
    requires state.Valid() && state.At(pid, Process(CredentialsLookup(offerId, id, metadata), Idle))
    modifies state
    ensures state.Valid() && old(state.history) <= state.history
    ensures state.At(pid, Process(if present then CredentialsAdd(offerId, id) else CredentialsOffer(offerId, id, metadata), Idle))
    ensures state.serial ==> state.Stores() == old(state.Stores()) && present == (offerId in old(state.offers))
  {
    state.Others(pid, Process(CredentialsLookup(offerId, id, metadata), Idle));
    var w := state.world(state.drawn, state.ticks);
    present := offerId in state.offers;
    state.Record(pid, w, state.Mem(), Process(CredentialsLookup(offerId, id, metadata), Idle));
  }

  method LookupForCredentials(state: IssuanceState, pid: nat, offerId: string, id: string, metadata: SC.Metadata)
    requires state.Valid() && state.At(pid, Process(CredentialsLookup(offerId, id, metadata), Idle))
    modifies state
    ensures state.Valid() && old(state.history) <= state.history && state.At(pid, Process(CredentialsAdd(offerId, id), Idle))
    ensures state.serial ==> CreateIfAbsent(old(state.Stores()), state.Stores(), offerId, metadata)
  {
    var present := FindForCredentials(state, pid, offerId, id, metadata);
    if !present {
      CreateOffer(state, pid, offerId, metadata, CredentialsOffer(offerId, id, metadata), CredentialsAdd(offerId, id));
    }
  }

  method BindCredential(state: IssuanceState, pid: nat, offerId: string, id: string)
    requires state.Valid() && state.At(pid, Process(CredentialsAdd(offerId, id), Idle))
    modifies state
    ensures state.Valid() && old(state.history) <= state.history && state.At(pid, Process(CredentialsReply(id), Idle))
    ensures state.serial ==> state.Stores() == Dispatched(Appended(old(state.Stores()), offerId, O.CredentialsAdded([id])),
                                                          offerId, O.CredentialsAdded([id]))
  {
    state.Others(pid, Process(CredentialsAdd(offerId, id), Idle));
    var w := state.world(state.drawn, state.ticks);
    var event := state.ExecuteOffer(pid, offerId, O.AddCredentials([id]), w, CredentialsAdd(offerId, id),
                                    CredentialsReply(id), Done(ServerError));
  }

  method ReadCredential(state: IssuanceState, pid: nat, id: string) returns (reply: Reply)
    requires state.Valid() && state.At(pid, Process(CredentialsReply(id), Idle))
    modifies state
    ensures state.Valid() && old(state.history) <= state.history && state.At(pid, Process(Done(reply), Idle))
    ensures state.serial ==>
              state.Stores() == old(state.Stores())
              && reply == if id in old(state.credentials) && old(state.credentials)[id].data.Some?
                          then CredentialMade(old(state.credentials)[id].data.value.raw) else ServerError
  {
    state.Others(pid, Process(CredentialsReply(id), Idle));
    var w := state.world(state.drawn, state.ticks);
    reply := if id in state.credentials && state.credentials[id].data.Some? then CredentialMade(state.credentials[id].data.value.raw)
             else ServerError;
    state.Record(pid, w, state.Mem(), Process(CredentialsReply(id), Idle));
  }

  /** What a `credentials` request that got as far as binding has done when it ran alone: one new credential on record, as the
      command made it, bound to the offer as its latest list; the offer created if it was absent, for the configuration that was
      read, and still created once. The answer is the credential, except that a credential handed in signed is answered with an
      error although all of this has happened. */
  ghost predicate CredentialsAlone(before: Memory, after: Memory, offerId: string, id: string, command: C.CredentialCommand,
                                   create: Outside, metadata: SC.Metadata, reply: Reply)
    requires !command.SignCredential?
  {
    && CredentialLog(before, id) == [] && |CredentialLog(after, id)| == 1
    && Creates(command, create, CredentialLog(after, id)[0])
    && reply == (if command.CreateSignedCredential? then ServerError else CredentialMade(CredentialLog(after, id)[0].data.raw))
    && (Orderly(before) ==> CreatedOnce(after) && Binding(before, after, offerId, id, metadata))
  }

  ghost predicate Binding(before: Memory, after: Memory, offerId: string, id: string, metadata: SC.Metadata) {
    var log, present := OfferLog(after, offerId), offerId in before.offers;
    && |log| == |OfferLog(before, offerId)| + (if present then 1 else 2)
    && log[|log| - 1] == O.CredentialsAdded([id])
    && O.LastAdded(log) == [id]
    && if present then O.LastCreated(log) == O.LastCreated(OfferLog(before, offerId)) else Announced(log, metadata)
  }

  lemma BoundAfterCreated(before: Memory, created: Memory, offerId: string, id: string, metadata: SC.Metadata)
    requires CreatedOnce(created) && OfferLog(created, offerId) != []
    requires if offerId in before.offers then OfferLog(created, offerId) == OfferLog(before, offerId)
             else |OfferLog(created, offerId)| == |OfferLog(before, offerId)| + 1 && Announced(OfferLog(created, offerId), metadata)
    ensures var event := O.CredentialsAdded([id]);
            var after := Dispatched(Appended(created, offerId, event), offerId, event);
            CreatedOnce(after) && Binding(before, after, offerId, id, metadata)
  {
    var event := O.CredentialsAdded([id]);
    var after := Dispatched(Appended(created, offerId, event), offerId, event);
    ExtensionKeepsOnce(created, after, offerId, event);
    assert OfferLog(after, offerId) == OfferLog(created, offerId) + [event];
    StillLast(OfferLog(created, offerId), event);
  }

  /** A new credential does not touch the offers. */
  lemma CredentialLeavesOffers(before: Memory, offerId: string, id: string, event: C.CredentialEvent)
    requires CreatedOnce(before) && OfferAt(before, Idle, offerId)
    ensures var after := DispatchedCredential(AppendedCredential(before, id, event), id, event);
            CreatedOnce(after) && OfferAt(after, Idle, offerId) && after.offers == before.offers
            && OfferLog(after, offerId) == OfferLog(before, offerId)
  {
    var after := DispatchedCredential(AppendedCredential(before, id, event), id, event);
    forall o ensures OnceCreated(OfferLog(after, o)) {
      assert OnceCreated(OfferLog(before, o));
    }
  }

  lemma BindingStages(before: Memory, stored: Memory, created: Memory, after: Memory, offerId: string, id: string,
                      event: C.CredentialEvent, metadata: SC.Metadata)
    requires Orderly(before)
    requires stored == DispatchedCredential(AppendedCredential(before, id, event), id, event)
    requires CreateIfAbsent(stored, created, offerId, metadata)
    requires after == Dispatched(Appended(created, offerId, O.CredentialsAdded([id])), offerId, O.CredentialsAdded([id]))
    ensures CreatedOnce(after) && Binding(before, after, offerId, id, metadata)
  {
    assert OfferAt(before, Idle, offerId);
    CredentialLeavesOffers(before, offerId, id, event);
    CreateIfAbsentKeepsOnce(stored, created, offerId, metadata);
    BoundAfterCreated(before, created, offerId, id, metadata);
  }

  lemma CreatingLeavesCredentials(before: Memory, after: Memory, offerId: string, metadata: SC.Metadata)
    requires CreateIfAbsent(before, after, offerId, metadata)
    ensures after.credentialLogs == before.credentialLogs && after.credentials == before.credentials
  {
  }

  /** The stages of an undisturbed `credentials` request, put together. */
  lemma StagesAlone(before: Memory, stored: Memory, created: Memory, after: Memory, offerId: string, id: string,
                    command: C.CredentialCommand, create: Outside, event: C.CredentialEvent, metadata: SC.Metadata, reply: Reply)
    requires CredentialLog(before, id) == [] && id !in before.credentials
    requires !command.SignCredential? && Creates(command, create, event)
    requires stored == DispatchedCredential(AppendedCredential(before, id, event), id, event)
    requires CreateIfAbsent(stored, created, offerId, metadata)
    requires after == Dispatched(Appended(created, offerId, O.CredentialsAdded([id])), offerId, O.CredentialsAdded([id]))
    requires reply == if id in after.credentials && after.credentials[id].data.Some?
                      then CredentialMade(after.credentials[id].data.value.raw) else ServerError
    ensures CredentialsAlone(before, after, offerId, id, command, create, metadata, reply)
  {
    CreatingLeavesCredentials(stored, created, offerId, metadata);
    StoredShows(before, stored, id, event);
    if Orderly(before) {
      BindingStages(before, stored, created, after, offerId, id, event, metadata);
    }
  }

  lemma StoredShows(before: Memory, stored: Memory, id: string, event: C.CredentialEvent)
    requires CredentialLog(before, id) == [] && id !in before.credentials && !event.CredentialSigned?
    requires stored == DispatchedCredential(AppendedCredential(before, id, event), id, event)
    ensures CredentialLog(stored, id) == [event] && id in stored.credentials
    ensures stored.credentials[id].data == if event.UnsignedCredentialCreated? then Some(event.data) else None
  {
  }

  /** The surroundings of the three steps of the request that depend on them. */
  datatype Circumstances = Circumstances(read: Outside, create: Outside, again: Outside)

  /** The request gets as far as binding exactly when the credential is an object or a string, its configuration is known, the
      credential can be created, and the configuration is still there. */
  predicate Binds(credential: Json, isSigned: bool, configurationId: string, c: Circumstances) {
    && Acceptable(credential, configurationId, c.read)
    && Creatable(Creation(credential, isSigned, configurationId, c.read), c.create)
    && c.again.metadata.Some?
  }

  /** The answer of a request that does not get that far. */
  function Refusal(credential: Json, isSigned: bool, configurationId: string, c: Circumstances): Reply
    requires !Binds(credential, isSigned, configurationId, c)
  {
    if !Acceptable(credential, configurationId, c.read) then Unacceptable(credential, configurationId, c.read)
    else if !Creatable(Creation(credential, isSigned, configurationId, c.read), c.create)
    then Uncreatable(Creation(credential, isSigned, configurationId, c.read), c.create)
    else ServerError
  }

  /** As far as the request gets, these are the surroundings of its own steps. */
  ghost predicate TookIn(before: seq<Step>, after: seq<Step>, pid: nat, credential: Json, isSigned: bool, configurationId: string,
                         c: Circumstances)
  {
    && Took(before, after, pid, c.read)
    && (Acceptable(credential, configurationId, c.read) ==>
          && Took(before, after, pid, c.create)
          && (Creatable(Creation(credential, isSigned, configurationId, c.read), c.create) ==> Took(before, after, pid, c.again)))
  }

  /** The first half: a credential of its own. */
  method MakeCredential(state: IssuanceState, pid: nat, offerId: string, credential: Json, isSigned: bool, configurationId: string)
    returns (r: Result<(string, C.CredentialEvent), Reply>, ghost read: Outside, ghost create: Outside)
    requires state.Valid() && state.At(pid, Process(CredentialsStart(offerId, credential, isSigned, configurationId), Idle))
    modifies state
    ensures state.Valid() && Took(old(state.history), state.history, pid, read)
    ensures state.At(pid, Process(if r.Success? then CredentialsMetadata(offerId, r.value.0) else Done(r.error), Idle))
    ensures Acceptable(credential, configurationId, read) ==> Took(old(state.history), state.history, pid, create)
    ensures r.Success? <==> Acceptable(credential, configurationId, read)
                            && Creatable(Creation(credential, isSigned, configurationId, read), create)
    ensures r.Failure? ==>
              r.error == if !Acceptable(credential, configurationId, read) then Unacceptable(credential, configurationId, read)
                         else Uncreatable(Creation(credential, isSigned, configurationId, read), create)
    ensures r.Success? ==> Creates(Creation(credential, isSigned, configurationId, read), create, r.value.1)
    ensures state.serial && r.Success? ==>
              && CredentialLog(old(state.Stores()), r.value.0) == [] && r.value.0 !in old(state.credentials)
              && state.Stores() == DispatchedCredential(AppendedCredential(old(state.Stores()), r.value.0, r.value.1), r.value.0, r.value.1)
  {
    create := AnyOutside();
    var started;
    started, read := StartCredentials(state, pid, offerId, credential, isSigned, configurationId);
    if started.Failure? {
      return Failure(started.error), read, create;
    }
    ghost var now := state.history;
    var event;
    event, create := CreateCredential(state, pid, offerId, started.value.0, started.value.1);
    r := if event.Failure? then Failure(event.error) else Success((started.value.0, event.value.value));
    TookWithin(old(state.history), old(state.history), now, state.history, pid, read);
    TookWithin(old(state.history), now, state.history, state.history, pid, create);
  }

  /** The second half: the credential is bound to its offer, which is created if it is not there. */
  method BindToFound(state: IssuanceState, pid: nat, offerId: string, id: string, metadata: SC.Metadata, ghost before: Memory,
                     ghost command: C.CredentialCommand, ghost create: Outside, ghost event: C.CredentialEvent)
    returns (reply: Reply)
    requires state.Valid() && state.At(pid, Process(CredentialsLookup(offerId, id, metadata), Idle))
    requires !command.SignCredential? && Creates(command, create, event)
    requires state.serial ==>
               && CredentialLog(before, id) == [] && id !in before.credentials
               && state.Stores() == DispatchedCredential(AppendedCredential(before, id, event), id, event)
    modifies state
    ensures state.Valid() && old(state.history) <= state.history && state.At(pid, Process(Done(reply), Idle))
    ensures state.serial ==> CredentialsAlone(before, state.Stores(), offerId, id, command, create, metadata, reply)
  {
    ghost var stored := state.Stores();
    LookupForCredentials(state, pid, offerId, id, metadata);
    ghost var created := state.Stores();
    BindCredential(state, pid, offerId, id);
    ghost var after := state.Stores();
    reply := ReadCredential(state, pid, id);
    if state.serial {
      StagesAlone(before, stored, created, after, offerId, id, command, create, event, metadata, reply);
    }
  }

  /** It is bound unless the configuration has gone in between. */
  method BindToOffer(state: IssuanceState, pid: nat, offerId: string, id: string, ghost before: Memory,
                     ghost command: C.CredentialCommand, ghost create: Outside, ghost event: C.CredentialEvent)
    returns (reply: Reply, bound: bool, ghost again: Outside)
    requires state.Valid() && state.At(pid, Process(CredentialsMetadata(offerId, id), Idle))
    requires !command.SignCredential? && Creates(command, create, event)
    requires state.serial ==>
               && CredentialLog(before, id) == [] && id !in before.credentials
               && state.Stores() == DispatchedCredential(AppendedCredential(before, id, event), id, event)
    modifies state
    ensures state.Valid() && Took(old(state.history), state.history, pid, again) && state.At(pid, Process(Done(reply), Idle))
    ensures bound <==> again.metadata.Some?
    ensures !bound ==> reply == ServerError
    ensures state.serial && bound ==>
              CredentialsAlone(before, state.Stores(), offerId, id, command, create, again.metadata.value, reply)
  {
    var metadata;
    metadata, again := ReadMetadataAgain(state, pid, offerId, id);
    if metadata.None? {
      return ServerError, false, again;
    }
    ghost var now := state.history;
    bound := true;
    reply := BindToFound(state, pid, offerId, id, metadata.value, before, command, create, event);
    TookWithin(old(state.history), old(state.history), now, state.history, pid, again);
  }

  method Credentials(state: IssuanceState, pid: nat, offerId: string, credential: Json, isSigned: bool, configurationId: string)
    returns (reply: Reply, bound: Option<string>, ghost c: Circumstances)
    requires state.Valid() && state.At(pid, Process(Entrance(PostCredentials(offerId, credential, isSigned, configurationId)), Idle))
    modifies state
    ensures state.Valid() && old(state.history) <= state.history && state.At(pid, Process(Done(reply), Idle))
    ensures TookIn(old(state.history), state.history, pid, credential, isSigned, configurationId, c)
    ensures bound.Some? <==> Binds(credential, isSigned, configurationId, c)
    ensures bound.None? ==> reply == Refusal(credential, isSigned, configurationId, c)
    ensures state.serial && bound.Some? ==>
              CredentialsAlone(old(state.Stores()), state.Stores(), offerId, bound.value,
                               Creation(credential, isSigned, configurationId, c.read), c.create, c.again.metadata.value, reply)
  {
    var made;
    ghost var read, create;
    made, read, create := MakeCredential(state, pid, offerId, credential, isSigned, configurationId);
    c := Circumstances(read, create, AnyOutside());
    if made.Failure? {
      return made.error, None, c;
    }
    ghost var now := state.history;
    var done;
    ghost var again;
    reply, done, again := BindToOffer(state, pid, offerId, made.value.0, old(state.Stores()),
                                      Creation(credential, isSigned, configurationId, read), create, made.value.1);
    bound := if done then Some(made.value.0) else None;
    c := c.(again := again);
    TookWithin(old(state.history), old(state.history), now, state.history, pid, read);
    TookWithin(old(state.history), old(state.history), now, state.history, pid, create);
    TookWithin(old(state.history), now, state.history, state.history, pid, again);
  }
}
