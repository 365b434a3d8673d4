/**
 The four issuer endpoints as processes over shared memory.

 One step is one thing another request can observe or be observed by: a query of a repository, the atomic
 load-handle-append of a command, or one load or one store of one query while a committed event is dispatched. Steps of
 any number of requests mix freely. Everything the code cannot choose (random strings, the configuration that is read,
 the outcome of proof validation, the builders, the encoder, the clock) is supplied with the step.
 */
module IssuerMachine {
  import opened Wrappers
  import opened Json
  import opened EventSourcing
  import SC = ServerConfig
  import O = IssuerOffer
  import C = IssuerCredential

  /** The event store and the repositories of `issuance_state`; `drawn` records the random strings used so far. */
  datatype Memory = Memory(
    offerLogs: map<string, seq<O.OfferEvent>>,
    credentialLogs: map<string, seq<C.CredentialEvent>>,
    offers: map<string, O.OfferView>,
    allOffers: map<string, O.OfferView>,
    codes: map<string, string>,
    tokens: map<string, string>,
    credentials: map<string, C.CredentialView>,
    allCredentials: map<string, C.CredentialView>,
    drawn: set<string>)

  const EMPTY_MEMORY := Memory(map[], map[], map[], map[], map[], map[], map[], map[], {})

  function OfferLog(m: Memory, id: string): seq<O.OfferEvent> {
    EntryOr(m.offerLogs, id, [])
  }

  function CredentialLog(m: Memory, id: string): seq<C.CredentialEvent> {
    EntryOr(m.credentialLogs, id, [])
  }

  // ----- requests and their program points -----

  datatype Request =
    | PostCredentials(offerId: string, credential: Json, isSigned: bool, configurationId: string)
    | PostOffers(offerId: string)
    | PostToken(code: Option<string>) // none: another grant type
    | PostCredential(bearer: string)

  datatype Reply =
    | BadRequest
    | Unauthorized
    | NotFound
    | ServerError
    | Crashed
    | CredentialMade(raw: Json)
    | OfferShown(offerId: string, form: O.Form)
    | TokenGiven(code: string, offerId: string, token: O.TokenResponse)
    | CredentialGiven(bearer: string, offerId: string, response: O.CredentialResponse)

  datatype Pc =
    // POST /v0/credentials
    | CredentialsStart(offerId: string, credential: Json, isSigned: bool, configurationId: string)
    | CredentialsCreate(offerId: string, id: string, create: C.CredentialCommand)
    | CredentialsMetadata(offerId: string, id: string)
    | CredentialsLookup(offerId: string, id: string, metadata: SC.Metadata)
    | CredentialsOffer(offerId: string, id: string, metadata: SC.Metadata)
    | CredentialsAdd(offerId: string, id: string)
    | CredentialsReply(id: string)
    // POST /v0/offers
    | OffersStart(offerId: string)
    | OffersLookup(offerId: string, metadata: SC.Metadata)
    | OffersCreate(offerId: string, metadata: SC.Metadata)
    | OffersEncode(offerId: string)
    | OffersReply(offerId: string)
    // POST /auth/token
    | TokenStart(code: string)
    | TokenCreate(code: string, offerId: string)
    | TokenReply(code: string, offerId: string)
    // POST /openid4vci/credential
    | RequestStart(bearer: string)
    | RequestMetadata(bearer: string, offerId: string)
    | RequestVerify(bearer: string, offerId: string)
    | RequestPoll(bearer: string, offerId: string)
    | RequestSign(bearer: string, offerId: string, subjectId: string, ids: seq<string>, signed: seq<Json>)
    | RequestRead(bearer: string, offerId: string, subjectId: string, ids: seq<string>, signed: seq<Json>)
    | RequestRespond(bearer: string, offerId: string, subjectId: string, ids: seq<string>, signed: seq<Json>)
    | RequestReply(bearer: string, offerId: string)
    | Done(reply: Reply)

  predicate AtCredentials(pc: Pc) {
    pc.CredentialsStart? || pc.CredentialsCreate? || pc.CredentialsMetadata? || pc.CredentialsLookup?
    || pc.CredentialsOffer? || pc.CredentialsAdd? || pc.CredentialsReply?
  }

  predicate AtOffers(pc: Pc) {
    pc.OffersStart? || pc.OffersLookup? || pc.OffersCreate? || pc.OffersEncode? || pc.OffersReply?
  }

  predicate AtToken(pc: Pc) {
    pc.TokenStart? || pc.TokenCreate? || pc.TokenReply?
  }

  predicate AtRequest(pc: Pc) {
    pc.RequestStart? || pc.RequestMetadata? || pc.RequestVerify? || pc.RequestPoll? || pc.RequestSign?
    || pc.RequestRead? || pc.RequestRespond? || pc.RequestReply?
  }

  /** Where the dispatch of a committed event stands: the queries run in registration order, each loads and then stores.
      The view loaded by the two index queries is kept to show that it plays no part in what they store. */
  datatype OfferStage =
    | LoadView
    | StoreView(view: O.OfferView)
    | LoadAll
    | StoreAll(listed: map<string, O.OfferView>)
    | LoadCode
    | StoreCode(loaded: string)
    | LoadToken
    | StoreToken(loaded: string)

  datatype CredentialStage =
    | LoadCredential
    | StoreCredential(view: C.CredentialView)
    | LoadAllCredentials
    | StoreAllCredentials(listed: map<string, C.CredentialView>)

  datatype Pending =
    | Idle
    | OfferDispatch(id: string, event: O.OfferEvent, stage: OfferStage)
    | CredentialDispatch(credentialId: string, credentialEvent: C.CredentialEvent, credentialStage: CredentialStage)

  /** A request: the program point it continues at, and the dispatch its last command still has to finish. */
  datatype Process = Process(pc: Pc, pending: Pending)

  datatype Outside = Outside(
    uuid: string, metadata: Option<SC.Metadata>, offer: O.OfferServices, credential: C.CredentialServices, expired: bool)

  function Draws(w: Outside): set<string> {
    {w.uuid, w.offer.preAuthorizedCode, w.offer.accessToken, w.offer.cNonce}
  }

  // ----- what a step does -----

  datatype Effect =
    | NoEffect
    | AppendOffer(id: string, event: O.OfferEvent)
    | AppendCredential(id: string, credentialEvent: C.CredentialEvent)
    | PutOffer(id: string, view: O.OfferView)
    | PutAllOffers(listed: map<string, O.OfferView>)
    | PutCode(code: string, owner: string)
    | PutToken(token: string, owner: string)
    | PutCredential(id: string, credentialView: C.CredentialView)
    | PutAllCredentials(listedCredentials: map<string, C.CredentialView>)

  datatype Action = Action(effect: Effect, next: Process)

  function Perform(m: Memory, effect: Effect): Memory {
    match effect
    case NoEffect => m
    case AppendOffer(id, event) => m.(offerLogs := m.offerLogs[id := OfferLog(m, id) + [event]])
    case AppendCredential(id, event) => m.(credentialLogs := m.credentialLogs[id := CredentialLog(m, id) + [event]])
    case PutOffer(id, view) => m.(offers := m.offers[id := view])
    case PutAllOffers(listed) => m.(allOffers := listed)
    case PutCode(code, owner) => m.(codes := m.codes[code := owner])
    case PutToken(token, owner) => m.(tokens := m.tokens[token := owner])
    case PutCredential(id, view) => m.(credentials := m.credentials[id := view])
    case PutAllCredentials(listed) => m.(allCredentials := listed)
  }

  function Goto(pc: Pc): Action {
    Action(NoEffect, Process(pc, Idle))
  }

  /** A command on an offer: load, handle, append. */
  function OfferCommand(m: Memory, id: string, command: O.OfferCommand, w: Outside, ok: Pc, failed: Pc): Action {
    match O.Handle(O.Aggregate(OfferLog(m, id)), command, w.offer)
    case Failure(_) => Goto(failed)
    case Success(events) =>
      if events == [] then Goto(ok)
      else Action(AppendOffer(id, events[0]), Process(ok, OfferDispatch(id, events[0], LoadView)))
  }

  function CredentialCommand(m: Memory, id: string, command: C.CredentialCommand, w: Outside, ok: Pc, failed: Pc): Action {
    match C.Handle(C.Aggregate(CredentialLog(m, id)), command, w.credential)
    case Failure(error) => Goto(if error == C.Panic then Done(Crashed) else failed)
    case Success(events) =>
      if events == [] then Goto(ok)
      else Action(AppendCredential(id, events[0]), Process(ok, CredentialDispatch(id, events[0], LoadCredential)))
  }

  /** `update` of the two index views: the loaded value is overwritten by the id of the aggregate. */
  function UpdateIndex(loaded: string, event: O.OfferEvent, aggregateId: string): string {
    if event.CredentialOfferCreated? then aggregateId else loaded
  }

  function DispatchOfferStep(m: Memory, pc: Pc, id: string, event: O.OfferEvent, stage: OfferStage): Action {
    match stage
    case LoadView =>
      Action(NoEffect, Process(pc, OfferDispatch(id, event, StoreView(EntryOr(m.offers, id, O.EMPTY_VIEW)))))
    case StoreView(view) =>
      Action(PutOffer(id, O.Update(view, event)), Process(pc, OfferDispatch(id, event, LoadAll)))
    case LoadAll =>
      Action(NoEffect, Process(pc, OfferDispatch(id, event, StoreAll(m.allOffers))))
    case StoreAll(listed) =>
      Action(PutAllOffers(UpdateEntry(O.Update, O.EMPTY_VIEW, listed, id, event)), Process(pc, OfferDispatch(id, event, LoadCode)))
    case LoadCode =>
      Action(NoEffect, Process(pc, OfferDispatch(id, event,
                                                 if event.CredentialOfferCreated? then StoreCode(EntryOr(m.codes, id, "")) else LoadToken)))
    case StoreCode(loaded) =>
      Action(if event.CredentialOfferCreated? then PutCode(event.preAuthorizedCode, UpdateIndex(loaded, event, id)) else NoEffect,
             Process(pc, OfferDispatch(id, event, LoadToken)))
    case LoadToken =>
      Action(NoEffect, Process(pc, if event.CredentialOfferCreated?
                                   then OfferDispatch(id, event, StoreToken(EntryOr(m.tokens, id, ""))) else Idle))
    case StoreToken(loaded) =>
      Action(if event.CredentialOfferCreated? then PutToken(event.accessToken, UpdateIndex(loaded, event, id)) else NoEffect,
             Process(pc, Idle))
  }

  function DispatchCredentialStep(m: Memory, pc: Pc, id: string, event: C.CredentialEvent, stage: CredentialStage): Action {
    match stage
    case LoadCredential =>
      Action(NoEffect, Process(pc, CredentialDispatch(id, event, StoreCredential(EntryOr(m.credentials, id, C.EMPTY_VIEW)))))
    case StoreCredential(view) =>
      Action(PutCredential(id, C.Store(view, event)), Process(pc, CredentialDispatch(id, event, LoadAllCredentials)))
    case LoadAllCredentials =>
      Action(NoEffect, Process(pc, CredentialDispatch(id, event, StoreAllCredentials(m.allCredentials))))
    case StoreAllCredentials(listed) =>
      Action(PutAllCredentials(UpdateEntry(C.Store, C.EMPTY_VIEW, listed, id, event)), Process(pc, Idle))
  }

  function CredentialsStep(m: Memory, pc: Pc, w: Outside): Action
    requires AtCredentials(pc)
  {
    match pc
    case CredentialsStart(offerId, credential, isSigned, configurationId) =>
      if !(credential.Object? || credential.Str?) then Goto(Done(BadRequest))
      else if w.metadata.None? then Goto(Done(ServerError))
      else if configurationId !in w.metadata.value.configurations then Goto(Done(NotFound))
      else
        var create := if isSigned then C.CreateSignedCredential(credential)
                      else C.CreateUnsignedCredential(C.Data(credential), w.metadata.value.configurations[configurationId]);
        Goto(CredentialsCreate(offerId, w.uuid, create))
    case CredentialsCreate(offerId, id, create) =>
      CredentialCommand(m, id, create, w, CredentialsMetadata(offerId, id), Done(ServerError))
    case CredentialsMetadata(offerId, id) =>
      Goto(if w.metadata.None? then Done(ServerError) else CredentialsLookup(offerId, id, w.metadata.value))
    case CredentialsLookup(offerId, id, metadata) =>
      Goto(if offerId in m.offers then CredentialsAdd(offerId, id) else CredentialsOffer(offerId, id, metadata))
    case CredentialsOffer(offerId, id, metadata) =>
      OfferCommand(m, offerId, O.CreateCredentialOffer(metadata), w, CredentialsAdd(offerId, id), Done(ServerError))
    case CredentialsAdd(offerId, id) =>
      OfferCommand(m, offerId, O.AddCredentials([id]), w, CredentialsReply(id), Done(ServerError))
    case CredentialsReply(id) =>
      Goto(Done(if id in m.credentials && m.credentials[id].data.Some? then CredentialMade(m.credentials[id].data.value.raw)
                else ServerError))
  }

  function OffersStep(m: Memory, pc: Pc, w: Outside): Action
    requires AtOffers(pc)
  {
    match pc
    case OffersStart(offerId) =>
      Goto(if w.metadata.None? then Done(ServerError) else OffersLookup(offerId, w.metadata.value))
    case OffersLookup(offerId, metadata) =>
      Goto(if offerId in m.offers then OffersEncode(offerId) else OffersCreate(offerId, metadata))
    case OffersCreate(offerId, metadata) =>
      OfferCommand(m, offerId, O.CreateCredentialOffer(metadata), w, OffersEncode(offerId), Done(ServerError))
    case OffersEncode(offerId) =>
      OfferCommand(m, offerId, O.CreateFormUrlEncodedCredentialOffer, w, OffersReply(offerId), Done(ServerError))
    case OffersReply(offerId) =>
      Goto(Done(if offerId in m.offers then OfferShown(offerId, m.offers[offerId].form) else ServerError))
  }

  function TokenStep(m: Memory, pc: Pc, w: Outside): Action
    requires AtToken(pc)
  {
    match pc
    case TokenStart(code) =>
      Goto(if code in m.codes then TokenCreate(code, m.codes[code]) else Done(ServerError))
    case TokenCreate(code, offerId) =>
      OfferCommand(m, offerId, O.CreateTokenResponse, w, TokenReply(code, offerId), Done(ServerError))
    case TokenReply(code, offerId) =>
      Goto(Done(if offerId in m.offers && m.offers[offerId].tokenResponse.Some?
                then TokenGiven(code, offerId, m.offers[offerId].tokenResponse.value) else ServerError))
  }

  /** A failed `VerifyCredentialRequest`, `SignCredential` or `CreateCredentialResponse` builds an error response and drops
      it: the request goes on as if the command had succeeded. */
  function RequestStep(m: Memory, pc: Pc, w: Outside): Action
    requires AtRequest(pc)
  {
    match pc
    case RequestStart(bearer) =>
      Goto(if bearer in m.tokens then RequestMetadata(bearer, m.tokens[bearer]) else Done(Unauthorized))
    case RequestMetadata(bearer, offerId) =>
      Goto(if w.metadata.None? then Done(ServerError) else RequestVerify(bearer, offerId))
    case RequestVerify(bearer, offerId) =>
      OfferCommand(m, offerId, O.VerifyCredentialRequest, w, RequestPoll(bearer, offerId), RequestPoll(bearer, offerId))
    case RequestPoll(bearer, offerId) =>
      if offerId !in m.offers then Goto(Done(ServerError))
      else if m.offers[offerId].credentialIds == [] then Goto(if w.expired then Done(ServerError) else pc)
      else if m.offers[offerId].subjectId.None? then Goto(Done(ServerError))
      else Goto(RequestSign(bearer, offerId, m.offers[offerId].subjectId.value, m.offers[offerId].credentialIds, []))
    case RequestSign(bearer, offerId, subjectId, ids, signed) =>
      if |signed| < |ids| then
        CredentialCommand(m, ids[|signed|], C.SignCredential(subjectId, false), w,
                          RequestRead(bearer, offerId, subjectId, ids, signed), RequestRead(bearer, offerId, subjectId, ids, signed))
      else Goto(RequestRespond(bearer, offerId, subjectId, ids, signed))
    case RequestRead(bearer, offerId, subjectId, ids, signed) =>
      if |signed| < |ids| && ids[|signed|] in m.credentials && m.credentials[ids[|signed|]].signed.Some? then
        var signed' := signed + [m.credentials[ids[|signed|]].signed.value];
        Goto(if |signed'| < |ids| then RequestSign(bearer, offerId, subjectId, ids, signed')
             else RequestRespond(bearer, offerId, subjectId, ids, signed'))
      else Goto(Done(ServerError))
    case RequestRespond(bearer, offerId, subjectId, ids, signed) =>
      OfferCommand(m, offerId, O.CreateCredentialResponse(signed), w, RequestReply(bearer, offerId), RequestReply(bearer, offerId))
    case RequestReply(bearer, offerId) =>
      Goto(Done(if offerId in m.offers && m.offers[offerId].credentialResponse.Some?
                then CredentialGiven(bearer, offerId, m.offers[offerId].credentialResponse.value) else ServerError))
  }

  function Act(m: Memory, p: Process, w: Outside): Action {
    match p.pending
    case OfferDispatch(id, event, stage) => DispatchOfferStep(m, p.pc, id, event, stage)
    case CredentialDispatch(id, event, stage) => DispatchCredentialStep(m, p.pc, id, event, stage)
    case Idle =>
      if AtCredentials(p.pc) then CredentialsStep(m, p.pc, w)
      else if AtOffers(p.pc) then OffersStep(m, p.pc, w)
      else if AtToken(p.pc) then TokenStep(m, p.pc, w)
      else if AtRequest(p.pc) then RequestStep(m, p.pc, w)
      else Goto(p.pc)
  }

  // ----- runs -----

  datatype State = State(memory: Memory, processes: map<nat, Process>)

  datatype Step =
    | Arrive(pid: nat, request: Request)
    | Move(pid: nat, w: Outside)

  const INITIAL := State(EMPTY_MEMORY, map[])

  function Entrance(request: Request): Pc {
    match request
    case PostCredentials(offerId, credential, isSigned, configurationId) =>
      CredentialsStart(offerId, credential, isSigned, configurationId)
    case PostOffers(offerId) => OffersStart(offerId)
    case PostToken(None) => Done(BadRequest)
    case PostToken(Some(code)) => TokenStart(code)
    case PostCredential(bearer) => RequestStart(bearer)
  }

  /** A step is possible when its process exists, or is new for an arrival, and the strings it draws are new. */
  predicate Enabled(s: State, step: Step) {
    match step
    case Arrive(pid, _) => pid !in s.processes
    case Move(pid, w) => pid in s.processes && Draws(w) !! s.memory.drawn
  }

  function MoveTo(s: State, pid: nat, w: Outside): State
    requires pid in s.processes
  {
    var action := Act(s.memory, s.processes[pid], w);
    var memory := Perform(s.memory, action.effect);
    State(memory.(drawn := memory.drawn + Draws(w)), s.processes[pid := action.next])
  }

  /** An impossible step changes nothing, so every sequence of steps is a run. */
  function Exec(s: State, step: Step): State {
    if !Enabled(s, step) then s
    else
      match step
      case Arrive(pid, request) => s.(processes := s.processes[pid := Process(Entrance(request), Idle)])
      case Move(pid, w) => MoveTo(s, pid, w)
  }

  function Run(steps: seq<Step>): State {
    Replay(Exec, INITIAL, steps)
  }
}
