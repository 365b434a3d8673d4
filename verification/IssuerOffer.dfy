/** The issuer's offer aggregate and its single-offer view (`agent_issuance/src/offer`). */
module IssuerOffer {
  import opened Wrappers
  import opened Json
  import opened EventSourcing
  import ServerConfig

  /** `configurationIds` is a set because the code collects the keys of a hash map, in no particular order. */
  datatype CredentialOffer = CredentialOffer(credentialIssuer: string, configurationIds: set<string>, preAuthorizedCode: string)

  /** The URL-encoded offer, standing for the offer it encodes; none is the empty string a new offer starts with. */
  type Form = Option<CredentialOffer>

  /** The token type is always "bearer" and the other optional fields are never set. */
  datatype TokenResponse = TokenResponse(accessToken: string, cNonce: string)

  datatype CredentialResponse = CredentialResponse(credential: Json)

  datatype OfferEvent =
    | CredentialOfferCreated(credentialOffer: CredentialOffer, preAuthorizedCode: string, accessToken: string)
    | CredentialsAdded(credentialIds: seq<string>)
    | FormUrlEncodedCredentialOfferCreated(form: Form)
    | CredentialOfferSent(targetUrl: string)
    | CredentialRequestVerified(subjectId: string)
    | TokenResponseCreated(tokenResponse: TokenResponse)
    | CredentialResponseCreated(credentialResponse: CredentialResponse)

  datatype OfferCommand =
    | CreateCredentialOffer(metadata: ServerConfig.Metadata)
    | AddCredentials(credentialIds: seq<string>)
    | SendCredentialOffer(targetUrl: string)
    | CreateFormUrlEncodedCredentialOffer
    | CreateTokenResponse
    | VerifyCredentialRequest
    | CreateCredentialResponse(signedCredentials: seq<Json>)

  datatype OfferError =
    | MissingCredentialOfferError
    | SendCredentialOfferError
    | MissingCredentialError
    | MissingProofError
    | InvalidProofError
    | MissingProofIssuerError

  /** What the surroundings supply while a command is handled: random strings, the outcome of proof validation (the
      proven issuer of the proof, or why it was refused), and whether the offer could be sent. */
  datatype OfferServices = OfferServices(
    preAuthorizedCode: string, accessToken: string, cNonce: string,
    proof: Result<string, OfferError>, delivered: bool)

  datatype Offer = Offer(
    credentialOffer: Option<CredentialOffer>, subjectId: Option<string>, credentialIds: seq<string>, form: Form,
    preAuthorizedCode: string, accessToken: string, tokenResponse: Option<TokenResponse>,
    credentialResponse: Option<CredentialResponse>)

  const EMPTY_OFFER := Offer(None, None, [], None, "", "", None, None)

  function Handle(self: Offer, command: OfferCommand, services: OfferServices): (r: Result<seq<OfferEvent>, OfferError>)
    ensures r.Success? ==> |r.value| == 1
  {
    match command
    case CreateCredentialOffer(metadata) =>
      var offer := CredentialOffer(metadata.credentialIssuer, metadata.configurations.Keys, services.preAuthorizedCode);
      Success([CredentialOfferCreated(offer, services.preAuthorizedCode, services.accessToken)])
    case AddCredentials(ids) =>
      Success([CredentialsAdded(ids)])
    case SendCredentialOffer(targetUrl) =>
      if self.credentialOffer.None? then Failure(MissingCredentialOfferError)
      else if !services.delivered then Failure(SendCredentialOfferError)
      else Success([CredentialOfferSent(targetUrl)])
    case CreateFormUrlEncodedCredentialOffer =>
      if self.credentialOffer.None? then Failure(MissingCredentialOfferError)
      else Success([FormUrlEncodedCredentialOfferCreated(self.credentialOffer)])
    case CreateTokenResponse =>
      Success([TokenResponseCreated(TokenResponse(self.accessToken, services.cNonce))])
    case VerifyCredentialRequest =>
      (match services.proof
       case Failure(error) => Failure(error)
       case Success(subjectId) => Success([CredentialRequestVerified(subjectId)]))
    case CreateCredentialResponse(signed) =>
      if signed == [] then Failure(MissingCredentialError)
      else Success([CredentialResponseCreated(CredentialResponse(signed[|signed| - 1]))])
  }

  function Apply(self: Offer, event: OfferEvent): Offer {
    match event
    case CredentialOfferCreated(offer, code, token) =>
      self.(preAuthorizedCode := code, accessToken := token, credentialOffer := Some(offer))
    case CredentialsAdded(ids) => self.(credentialIds := ids)
    case FormUrlEncodedCredentialOfferCreated(form) => self.(form := form)
    case CredentialOfferSent(_) => self
    case CredentialRequestVerified(subjectId) => self.(subjectId := Some(subjectId))
    case TokenResponseCreated(response) => self.(tokenResponse := Some(response))
    case CredentialResponseCreated(response) => self.(credentialResponse := Some(response))
  }

  datatype OfferView = OfferView(
    credentialOffer: Option<CredentialOffer>, subjectId: Option<string>, credentialIds: seq<string>,
    preAuthorizedCode: string, accessToken: string, form: Form, tokenResponse: Option<TokenResponse>,
    credentialResponse: Option<CredentialResponse>)

  const EMPTY_VIEW := OfferView(None, None, [], "", "", None, None, None)

  /** The projection; unlike the aggregate it never stores the credential offer. */
  function Update(view: OfferView, event: OfferEvent): OfferView {
    match event
    case CredentialOfferCreated(_, code, token) => view.(preAuthorizedCode := code, accessToken := token)
    case CredentialsAdded(ids) => view.(credentialIds := ids)
    case FormUrlEncodedCredentialOfferCreated(form) => view.(form := form)
    case CredentialOfferSent(_) => view
    case CredentialRequestVerified(subjectId) => view.(subjectId := Some(subjectId))
    case TokenResponseCreated(response) => view.(tokenResponse := Some(response))
    case CredentialResponseCreated(response) => view.(credentialResponse := Some(response))
  }

  function Aggregate(events: seq<OfferEvent>): Offer {
    Replay(Apply, EMPTY_OFFER, events)
  }

  function View(events: seq<OfferEvent>): OfferView {
    Replay(Update, EMPTY_VIEW, events)
  }

  /** For every log: the view is the aggregate with the credential offer left out. */
  lemma {:induction false} ViewSimulatesAggregate(events: seq<OfferEvent>)
    ensures var a, v := Aggregate(events), View(events);
            v == OfferView(None, a.subjectId, a.credentialIds, a.preAuthorizedCode, a.accessToken, a.form,
                           a.tokenResponse, a.credentialResponse)
  {
    if events != [] {
      ViewSimulatesAggregate(events[..|events| - 1]);
    }
  }

  /** So the two agree on every field exactly as long as no offer has been created. */
  lemma {:induction false} CredentialOfferMissingExactly(events: seq<OfferEvent>)
    ensures View(events).credentialOffer == Aggregate(events).credentialOffer
       <==> forall e :: e in events ==> !e.CredentialOfferCreated?
  {
    ViewSimulatesAggregate(events);
    if events != [] {
      var front, last := events[..|events| - 1], events[|events| - 1];
      ViewSimulatesAggregate(front);
      CredentialOfferMissingExactly(front);
      assert events == front + [last];
      assert last in events;
      forall e | e in front ensures e in events {}
    }
  }

  /** The fields of a view come from events of the log: the last of each kind. */
  function LastAdded(events: seq<OfferEvent>): seq<string> {
    if events == [] then []
    else if events[|events| - 1].CredentialsAdded? then events[|events| - 1].credentialIds
    else LastAdded(events[..|events| - 1])
  }

  function LastVerified(events: seq<OfferEvent>): Option<string> {
    if events == [] then None
    else if events[|events| - 1].CredentialRequestVerified? then Some(events[|events| - 1].subjectId)
    else LastVerified(events[..|events| - 1])
  }

  /** `CredentialsAdded` replaces the list of ids and does not extend it. */
  lemma {:induction false} ViewShowsLatest(events: seq<OfferEvent>)
    ensures View(events).credentialIds == LastAdded(events)
    ensures View(events).subjectId == LastVerified(events)
    ensures LastAdded(events) == [] || CredentialsAdded(LastAdded(events)) in events
    ensures LastVerified(events).Some? ==> CredentialRequestVerified(LastVerified(events).value) in events
  {
    if events != [] {
      var front := events[..|events| - 1];
      ViewShowsLatest(front);
      assert events == front + [events[|events| - 1]];
    }
  }

  /** An offer for this configuration and this code: its issuer, and all its configurations. */
  ghost predicate Announces(offer: CredentialOffer, metadata: ServerConfig.Metadata, code: string) {
    && offer.credentialIssuer == metadata.credentialIssuer
    && (forall id :: id in offer.configurationIds <==> id in metadata.configurations)
    && offer.preAuthorizedCode == code
  }

  /** What gets encoded after a creation: the issuer, all its configurations, and the code that was just drawn. */
  lemma CreateThenEncode(self: Offer, metadata: ServerConfig.Metadata, services: OfferServices, later: OfferServices)
    ensures var created := Handle(self, CreateCredentialOffer(metadata), services);
            && created.Success?
            && var offer := CredentialOffer(metadata.credentialIssuer, metadata.configurations.Keys, services.preAuthorizedCode);
               && Handle(Replay(Apply, self, created.value), CreateFormUrlEncodedCredentialOffer, later)
                  == Success([FormUrlEncodedCredentialOfferCreated(Some(offer))])
               && Handle(Replay(Apply, self, created.value), CreateTokenResponse, later)
                  == Success([TokenResponseCreated(TokenResponse(services.accessToken, later.cNonce))])
  {
    var created := Handle(self, CreateCredentialOffer(metadata), services);
    assert created.value[..0] == [];
  }

  function LastCreated(events: seq<OfferEvent>): (r: Option<OfferEvent>)
    ensures r.Some? ==> r.value.CredentialOfferCreated?
  {
    if events == [] then None
    else if events[|events| - 1].CredentialOfferCreated? then Some(events[|events| - 1])
    else LastCreated(events[..|events| - 1])
  }

  /** Code, token and offer of the aggregate are those of the latest creation, and the defaults before the first. */
  lemma {:induction false} AccessTokenIsLatest(events: seq<OfferEvent>)
    ensures var a, last := Aggregate(events), LastCreated(events);
            match last
            case None => a.credentialOffer == None && a.preAuthorizedCode == "" && a.accessToken == ""
                         && forall e :: e in events ==> !e.CredentialOfferCreated?
            case Some(e) => e in events && e.CredentialOfferCreated? && a.credentialOffer == Some(e.credentialOffer)
                            && a.preAuthorizedCode == e.preAuthorizedCode && a.accessToken == e.accessToken
  {
    if events != [] {
      var front, last := events[..|events| - 1], events[|events| - 1];
      assert events == front + [last];
      AccessTokenIsLatest(front);
    }
  }

  /** The error of a command that does not succeed, and the event of one that no view shows. */
  lemma CommandFails(events: seq<OfferEvent>, command: OfferCommand, services: OfferServices)
    ensures var r := Handle(Aggregate(events), command, services);
            r.Failure? ==>
              r.error == match command
                         case VerifyCredentialRequest => services.proof.error
                         case CreateCredentialResponse(_) => MissingCredentialError
                         case _ => if LastCreated(events).None? then MissingCredentialOfferError else SendCredentialOfferError
    ensures var r := Handle(Aggregate(events), command, services);
            r.Success? && command.SendCredentialOffer? ==> r.value == [CredentialOfferSent(command.targetUrl)]
  {
    AccessTokenIsLatest(events);
  }

  /** Which commands succeed after which events, and what a reader of the view sees next. */
  lemma CommandShows(events: seq<OfferEvent>, command: OfferCommand, services: OfferServices)
    ensures var r := Handle(Aggregate(events), command, services);
            r.Success? <==>
              match command
              case CreateFormUrlEncodedCredentialOffer => LastCreated(events).Some?
              case SendCredentialOffer(_) => LastCreated(events).Some? && services.delivered
              case VerifyCredentialRequest => services.proof.Success?
              case CreateCredentialResponse(signed) => signed != []
              case _ => true
    ensures var r := Handle(Aggregate(events), command, services);
            r.Success? ==>
              var before, after := View(events), View(events + r.value);
              match command
              case CreateCredentialOffer(_) =>
                after == before.(preAuthorizedCode := services.preAuthorizedCode, accessToken := services.accessToken)
              case AddCredentials(ids) => after == before.(credentialIds := ids)
              case SendCredentialOffer(_) => after == before
              case CreateFormUrlEncodedCredentialOffer => after == before.(form := Some(LastCreated(events).value.credentialOffer))
              case CreateTokenResponse =>
                after == before.(tokenResponse := Some(TokenResponse(before.accessToken, services.cNonce)))
              case VerifyCredentialRequest => after == before.(subjectId := Some(services.proof.value))
              case CreateCredentialResponse(signed) =>
                after == before.(credentialResponse := Some(CredentialResponse(signed[|signed| - 1])))
  {
    var r := Handle(Aggregate(events), command, services);
    AccessTokenIsLatest(events);
    ViewSimulatesAggregate(events);
    if r.Success? {
      assert r.value == [r.value[0]];
      ReplaySnoc(Update, EMPTY_VIEW, events, r.value[0]);
    }
  }
}
