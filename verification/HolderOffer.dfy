/**
 The holder's offer aggregate and its view (`agent_holder/src/offer`): a status machine whose commands commit one or two
 events together. The logs it can ever produce are characterised exactly (`Lawful`), and the history rules follow.
 */
module HolderOffer {
  import opened Wrappers
  import opened Json
  import opened EventSourcing

  datatype Status = Pending | Accepted | Received | Rejected

  /** Of the grants only the pre-authorized code is read. */
  datatype Parameters = Parameters(credentialIssuer: string, configurationIds: seq<string>, preAuthorizedCode: Option<string>)

  datatype OfferSource = ByValue(parameters: Parameters) | ByUri(uri: string)

  type Configurations = map<string, Json>

  datatype OfferEvent =
    | CredentialOfferReceived(credentialOffer: Parameters, configurations: Configurations)
    | CredentialOfferAccepted(status: Status)
    | TokenResponseReceived(tokenResponse: Json)
    | CredentialResponseReceived(status: Status, credentials: seq<Json>)
    | CredentialOfferRejected(status: Status)

  datatype OfferCommand =
    | ReceiveCredentialOffer(source: OfferSource)
    | AcceptCredentialOffer
    | SendCredentialRequest
    | RejectCredentialOffer

  datatype OfferError =
    | CredentialOfferByReferenceRetrievalError
    | CredentialIssuerMetadataRetrievalError
    | AuthorizationServerMetadataRetrievalError
    | MissingCredentialOfferError
    | MissingPreAuthorizedCodeError
    | MissingTokenEndpointError
    | MissingTokenResponseError
    | MissingCredentialConfigurationsError
    | MissingCredentialConfigurationError
    | TokenResponseError
    | CredentialResponseError
    | CredentialOfferStatusNotAcceptedError
    | CredentialOfferStatusNotPendingError
    | BatchCredentialRequestError
    | UnsupportedDeferredCredentialResponseError

  datatype Answer = Immediate(credential: Json) | Deferred

  /** The wallet talks to the issuer; any of its calls may fail, and no answer is constrained. */
  datatype Wallet = Wallet(
    credentialOffer: string -> Option<Parameters>,
    issuerMetadata: string -> Option<Configurations>,
    tokenEndpoint: string -> Option<Option<string>>,
    accessToken: (string, string) -> Option<Json>,
    credential: (Configurations, Json, Json) -> Option<Answer>)

  datatype Offer = Offer(
    credentialOffer: Option<Parameters>, status: Status, configurations: Option<Configurations>,
    tokenResponse: Option<Json>, credentials: seq<Json>)

  const EMPTY_OFFER := Offer(None, Pending, None, None, [])

  // ----- commands -----

  function Receive(source: OfferSource, wallet: Wallet): Result<seq<OfferEvent>, OfferError> {
    var found := if source.ByUri? then wallet.credentialOffer(source.uri) else Some(source.parameters);
    match found
    case None => Failure(CredentialOfferByReferenceRetrievalError)
    case Some(parameters) =>
      match wallet.issuerMetadata(parameters.credentialIssuer)
      case None => Failure(CredentialIssuerMetadataRetrievalError)
      case Some(supported) =>
        var offered := map id | id in supported && id in parameters.configurationIds :: supported[id];
        Success([CredentialOfferReceived(parameters, offered)])
  }

  /** Allowed from every status. */
  function Accept(self: Offer, wallet: Wallet): Result<seq<OfferEvent>, OfferError> {
    match self.credentialOffer
    case None => Failure(MissingCredentialOfferError)
    case Some(parameters) =>
      match wallet.tokenEndpoint(parameters.credentialIssuer)
      case None => Failure(AuthorizationServerMetadataRetrievalError)
      case Some(endpoint) =>
        if parameters.preAuthorizedCode.None? then Failure(MissingPreAuthorizedCodeError)
        else if endpoint.None? then Failure(MissingTokenEndpointError)
        else
          match wallet.accessToken(endpoint.value, parameters.preAuthorizedCode.value)
          case None => Failure(TokenResponseError)
          case Some(response) => Success([CredentialOfferAccepted(Accepted), TokenResponseReceived(response)])
  }

  function Fetch(ids: seq<string>, configurations: Configurations, supported: Configurations, token: Json, wallet: Wallet)
    : Result<seq<Json>, OfferError>
  {
    if |ids| == 0 then Success([])
    else if |ids| > 1 then Failure(BatchCredentialRequestError)
    else if ids[0] !in configurations then Failure(MissingCredentialConfigurationError)
    else
      match wallet.credential(supported, token, configurations[ids[0]])
      case None => Failure(CredentialResponseError)
      case Some(Deferred) => Failure(UnsupportedDeferredCredentialResponseError)
      case Some(Immediate(credential)) => Success([credential])
  }

  function Request(self: Offer, wallet: Wallet): Result<seq<OfferEvent>, OfferError> {
    if self.status != Accepted then Failure(CredentialOfferStatusNotAcceptedError)
    else if self.credentialOffer.None? then Failure(MissingCredentialOfferError)
    else if self.tokenResponse.None? then Failure(MissingTokenResponseError)
    else
      match wallet.issuerMetadata(self.credentialOffer.value.credentialIssuer)
      case None => Failure(CredentialIssuerMetadataRetrievalError)
      case Some(supported) =>
        if self.configurations.None? then Failure(MissingCredentialConfigurationsError)
        else
          match Fetch(self.credentialOffer.value.configurationIds, self.configurations.value, supported,
                      self.tokenResponse.value, wallet)
          case Failure(error) => Failure(error)
          case Success(credentials) => Success([CredentialResponseReceived(Received, credentials)])
  }

  function Handle(self: Offer, command: OfferCommand, wallet: Wallet): Result<seq<OfferEvent>, OfferError> {
    match command
    case ReceiveCredentialOffer(source) => Receive(source, wallet)
    case AcceptCredentialOffer => Accept(self, wallet)
    case SendCredentialRequest => Request(self, wallet)
    case RejectCredentialOffer =>
      if self.status != Pending then Failure(CredentialOfferStatusNotPendingError)
      else Success([CredentialOfferRejected(Rejected)])
  }

  function Apply(self: Offer, event: OfferEvent): Offer {
    match event
    case CredentialOfferReceived(parameters, configurations) =>
      self.(credentialOffer := Some(parameters), configurations := Some(configurations))
    case CredentialOfferAccepted(status) => self.(status := status)
    case TokenResponseReceived(response) => self.(tokenResponse := Some(response))
    case CredentialResponseReceived(status, credentials) => self.(status := status, credentials := credentials)
    case CredentialOfferRejected(status) => self.(status := status)
  }

  function Aggregate(events: seq<OfferEvent>): Offer {
    Replay(Apply, EMPTY_OFFER, events)
  }

  // ----- the view -----

  datatype ReceivedOfferView = ReceivedOfferView(
    credentialOffer: Option<Parameters>, status: Status, configurations: Option<Configurations>,
    tokenResponse: Option<Json>, credentials: seq<Json>)

  const EMPTY_VIEW := ReceivedOfferView(None, Pending, None, None, [])

  function Update(view: ReceivedOfferView, event: OfferEvent): ReceivedOfferView {
    match event
    case CredentialOfferReceived(parameters, configurations) =>
      view.(credentialOffer := Some(parameters), configurations := Some(configurations))
    case CredentialOfferAccepted(status) => view.(status := status)
    case TokenResponseReceived(response) => view.(tokenResponse := Some(response))
    case CredentialResponseReceived(status, credentials) => view.(status := status, credentials := credentials)
    case CredentialOfferRejected(status) => view.(status := status)
  }

  function View(events: seq<OfferEvent>): ReceivedOfferView {
    Replay(Update, EMPTY_VIEW, events)
  }

  /** For every log, reachable or not, the view equals the aggregate field by field. */
  lemma {:induction false} ViewEqualsAggregate(events: seq<OfferEvent>)
    ensures var a, v := Aggregate(events), View(events);
            v == ReceivedOfferView(a.credentialOffer, a.status, a.configurations, a.tokenResponse, a.credentials)
  {
    if events != [] {
      ViewEqualsAggregate(events[..|events| - 1]);
    }
  }

  // ----- what the log says -----

  function LastReceived(log: seq<OfferEvent>): (r: Option<OfferEvent>)
    ensures r.Some? ==> r.value.CredentialOfferReceived?
  {
    if log == [] then None
    else if log[|log| - 1].CredentialOfferReceived? then Some(log[|log| - 1])
    else LastReceived(log[..|log| - 1])
  }

  function LastToken(log: seq<OfferEvent>): Option<Json> {
    if log == [] then None
    else if log[|log| - 1].TokenResponseReceived? then Some(log[|log| - 1].tokenResponse)
    else LastToken(log[..|log| - 1])
  }

  function LastResponse(log: seq<OfferEvent>): (r: Option<OfferEvent>)
    ensures r.Some? ==> r.value.CredentialResponseReceived?
  {
    if log == [] then None
    else if log[|log| - 1].CredentialResponseReceived? then Some(log[|log| - 1])
    else LastResponse(log[..|log| - 1])
  }

  /** The events that carry a status. */
  predicate Decides(event: OfferEvent) {
    event.CredentialOfferAccepted? || event.CredentialResponseReceived? || event.CredentialOfferRejected?
  }

  function LastStatus(log: seq<OfferEvent>): Option<Status> {
    if log == [] then None
    else if Decides(log[|log| - 1]) then Some(log[|log| - 1].status)
    else LastStatus(log[..|log| - 1])
  }

  /** For every log: the credentials an offer holds are those of its latest response, and none before the first. */
  lemma {:induction false} HoldsLatestResponse(log: seq<OfferEvent>)
    ensures match LastResponse(log)
            case None => Aggregate(log).credentials == [] && forall e :: e in log ==> !e.CredentialResponseReceived?
            case Some(e) => e in log && e.credentials == Aggregate(log).credentials
  {
    if log != [] {
      var front, last := log[..|log| - 1], log[|log| - 1];
      assert log == front + [last];
      HoldsLatestResponse(front);
    }
  }

  /** For every log: parameters and configurations are those of the latest received offer, and none before the first. */
  lemma {:induction false} HoldsLatestReceived(log: seq<OfferEvent>)
    ensures match LastReceived(log)
            case None => Aggregate(log).credentialOffer.None? && Aggregate(log).configurations.None?
                         && forall e :: e in log ==> !e.CredentialOfferReceived?
            case Some(e) => e in log && Aggregate(log).credentialOffer == Some(e.credentialOffer)
                            && Aggregate(log).configurations == Some(e.configurations)
  {
    if log != [] {
      var front, last := log[..|log| - 1], log[|log| - 1];
      assert log == front + [last];
      HoldsLatestReceived(front);
    }
  }

  /** For every log: the token response is the latest one, and none before the first; the status is the one set last, Pending
      before any. */
  lemma {:induction false} HoldsLatestToken(log: seq<OfferEvent>)
    ensures Aggregate(log).tokenResponse == LastToken(log)
    ensures match LastToken(log)
            case None => forall e :: e in log ==> !e.TokenResponseReceived?
            case Some(token) => TokenResponseReceived(token) in log
    ensures Aggregate(log).status == if LastStatus(log).Some? then LastStatus(log).value else Pending
    ensures LastStatus(log).None? <==> forall e :: e in log ==> !Decides(e)
  {
    if log != [] {
      var front, last := log[..|log| - 1], log[|log| - 1];
      assert log == front + [last];
      HoldsLatestToken(front);
    }
  }

  /** So for every log, reachable or not, the view shows what the log says, and the aggregate agrees with it. */
  lemma ViewShowsLog(log: seq<OfferEvent>)
    ensures var v, received, response := View(log), LastReceived(log), LastResponse(log);
            && v.credentialOffer == (if received.Some? then Some(received.value.credentialOffer) else None)
            && v.configurations == (if received.Some? then Some(received.value.configurations) else None)
            && v.tokenResponse == LastToken(log)
            && v.status == (if LastStatus(log).Some? then LastStatus(log).value else Pending)
            && v.credentials == (if response.Some? then response.value.credentials else [])
  {
    ViewEqualsAggregate(log);
    HoldsLatestReceived(log);
    HoldsLatestToken(log);
    HoldsLatestResponse(log);
  }

  // ----- the logs that can come about -----

  datatype Attempt = Attempt(command: OfferCommand, wallet: Wallet)

  /** The log after a run of commands; a failed command leaves it as it was. */
  function Log(attempts: seq<Attempt>): seq<OfferEvent> {
    if attempts == [] then []
    else
      var log, last := Log(attempts[..|attempts| - 1]), attempts[|attempts| - 1];
      match Handle(Aggregate(log), last.command, last.wallet)
      case Failure(_) => log
      case Success(events) => log + events
  }

  /** An offer can be accepted when it is there and grants a pre-authorized code, whatever its status. */
  predicate Acceptable(offer: Offer) {
    offer.credentialOffer.Some? && offer.credentialOffer.value.preAuthorizedCode.Some?
  }

  /** Which credentials a request may bring in: only for an accepted offer, and one exactly when one is offered. */
  predicate Brings(offer: Offer, credentials: seq<Json>) {
    && offer.status == Accepted && offer.credentialOffer.Some? && offer.configurations.Some?
    && var ids := offer.credentialOffer.value.configurationIds;
       |credentials| == |ids| <= 1 && forall id :: id in ids ==> id in offer.configurations.value
  }

  /** What one command may commit to an offer. */
  ghost predicate Batch(offer: Offer, more: seq<OfferEvent>) {
    || (|more| == 1 && more[0].CredentialOfferReceived?
        && forall id :: id in more[0].configurations ==> id in more[0].credentialOffer.configurationIds)
    || (|more| == 2 && more[0] == CredentialOfferAccepted(Accepted) && more[1].TokenResponseReceived? && Acceptable(offer))
    || (|more| == 1 && more[0].CredentialResponseReceived? && more[0].status == Received && Brings(offer, more[0].credentials))
    || (|more| == 1 && more[0] == CredentialOfferRejected(Rejected) && offer.status == Pending)
  }

  function BatchSize(last: OfferEvent): nat {
    if last.TokenResponseReceived? then 2 else 1
  }

  /** A log put together from such batches. */
  ghost predicate Lawful(log: seq<OfferEvent>) {
    log == [] ||
    (BatchSize(log[|log| - 1]) <= |log|
     && var n := |log| - BatchSize(log[|log| - 1]);
        Lawful(log[..n]) && Batch(Aggregate(log[..n]), log[n..]))
  }

  function ApplyBatch(offer: Offer, more: seq<OfferEvent>): Offer {
    if |more| == 1 then Apply(offer, more[0])
    else if |more| == 2 then Apply(Apply(offer, more[0]), more[1])
    else offer
  }

  lemma AggregateBatch(before: seq<OfferEvent>, more: seq<OfferEvent>)
    requires 1 <= |more| <= 2
    ensures Aggregate(before + more) == ApplyBatch(Aggregate(before), more)
  {
    ReplaySnoc(Apply, EMPTY_OFFER, before, more[0]);
    if |more| == 1 {
      assert before + more == before + [more[0]];
    } else {
      ReplaySnoc(Apply, EMPTY_OFFER, before + [more[0]], more[1]);
      assert before + more == before + [more[0]] + [more[1]];
    }
  }

  lemma LawfulAppend(before: seq<OfferEvent>, more: seq<OfferEvent>)
    requires Lawful(before) && Batch(Aggregate(before), more)
    ensures Lawful(before + more)
  {
    var log := before + more;
    assert log[..|before|] == before && log[|before|..] == more;
    assert log[|log| - 1] == more[|more| - 1];
  }

  /** The log before the last batch, and that batch. */
  lemma LastBatch(log: seq<OfferEvent>) returns (before: seq<OfferEvent>, more: seq<OfferEvent>)
    requires Lawful(log) && log != []
    ensures log == before + more && |before| < |log|
    ensures Lawful(before) && Batch(Aggregate(before), more) && Aggregate(log) == ApplyBatch(Aggregate(before), more)
  {
    var n := |log| - BatchSize(log[|log| - 1]);
    before, more := log[..n], log[n..];
    AggregateBatch(before, more);
    assert log == before + more;
  }

  /** A token response is on record, and the offer with its configurations, once an offer has been accepted. */
  ghost predicate Complete(offer: Offer) {
    && (offer.status == Accepted || offer.status == Received ==> offer.tokenResponse.Some? && offer.credentialOffer.Some?)
    && (offer.credentialOffer.Some? <==> offer.configurations.Some?)
    && (offer.configurations.Some? ==>
          forall id :: id in offer.configurations.value ==> id in offer.credentialOffer.value.configurationIds)
    && |offer.credentials| <= 1
  }

  lemma BatchKeepsComplete(offer: Offer, more: seq<OfferEvent>)
    requires Complete(offer) && Batch(offer, more)
    ensures Complete(ApplyBatch(offer, more))
  {
  }

  lemma {:induction false} LawfulComplete(log: seq<OfferEvent>)
    requires Lawful(log)
    ensures Complete(Aggregate(log))
    decreases |log|
  {
    if log != [] {
      var before, more := LastBatch(log);
      LawfulComplete(before);
      BatchKeepsComplete(Aggregate(before), more);
    }
  }

  lemma HandledIsBatch(offer: Offer, command: OfferCommand, wallet: Wallet)
    ensures var r := Handle(offer, command, wallet); r.Success? ==> Batch(offer, r.value)
  {
  }

  /** Every log a run of commands produces is lawful. */
  lemma {:induction false} LogLawful(attempts: seq<Attempt>)
    ensures Lawful(Log(attempts))
  {
    if attempts != [] {
      var log, last := Log(attempts[..|attempts| - 1]), attempts[|attempts| - 1];
      LogLawful(attempts[..|attempts| - 1]);
      HandledIsBatch(Aggregate(log), last.command, last.wallet);
      var r := Handle(Aggregate(log), last.command, last.wallet);
      if r.Success? {
        LawfulAppend(log, r.value);
      }
    }
  }

  /** A wallet with the same answers to all questions. */
  function SteadyWallet(supported: Configurations, token: Json, answer: Answer): Wallet {
    Wallet(_ => None, _ => Some(supported), _ => Some(Some("")), (_, _) => Some(token), (_, _, _) => Some(answer))
  }

  lemma ReceivesOffered(parameters: Parameters, offered: Configurations)
    requires forall id :: id in offered ==> id in parameters.configurationIds
    ensures Receive(ByValue(parameters), SteadyWallet(offered, Null, Deferred)) == Success([CredentialOfferReceived(parameters, offered)])
  {
    assert offered == map id | id in offered && id in parameters.configurationIds :: offered[id];
  }

  /** Some command, talking to some wallet, commits each such batch. */
  lemma BatchIsHandled(offer: Offer, more: seq<OfferEvent>) returns (attempt: Attempt)
    requires Complete(offer) && Batch(offer, more)
    ensures Handle(offer, attempt.command, attempt.wallet) == Success(more)
  {
    if more[0].CredentialOfferReceived? {
      attempt := Attempt(ReceiveCredentialOffer(ByValue(more[0].credentialOffer)), SteadyWallet(more[0].configurations, Null, Deferred));
      ReceivesOffered(more[0].credentialOffer, more[0].configurations);
      assert more == [more[0]];
    } else if |more| == 2 {
      attempt := Attempt(AcceptCredentialOffer, SteadyWallet(map[], more[1].tokenResponse, Deferred));
      assert more == [more[0], more[1]];
    } else if more[0].CredentialResponseReceived? {
      var credentials := more[0].credentials;
      attempt := Attempt(SendCredentialRequest,
                         SteadyWallet(map[], Null, if credentials == [] then Deferred else Immediate(credentials[0])));
      RequestBrings(offer, credentials, attempt.wallet);
      assert more == [more[0]];
    } else {
      attempt := Attempt(RejectCredentialOffer, SteadyWallet(map[], Null, Deferred));
      assert more == [more[0]];
    }
  }

  lemma RequestBrings(offer: Offer, credentials: seq<Json>, wallet: Wallet)
    requires Complete(offer) && Brings(offer, credentials)
    requires forall issuer :: wallet.issuerMetadata(issuer).Some?
    requires credentials != [] ==> forall s, t, c :: wallet.credential(s, t, c) == Some(Immediate(credentials[0]))
    ensures Request(offer, wallet) == Success([CredentialResponseReceived(Received, credentials)])
  {
    if credentials != [] {
      assert offer.credentialOffer.value.configurationIds[0] in offer.configurations.value;
      assert credentials == [credentials[0]];
    }
  }

  ghost predicate Possible(log: seq<OfferEvent>) {
    exists attempts :: Log(attempts) == log
  }

  lemma {:induction false} LawfulPossible(log: seq<OfferEvent>)
    requires Lawful(log)
    ensures Possible(log)
    decreases |log|
  {
    if log == [] {
      assert Log([]) == log;
    } else {
      var before, more := LastBatch(log);
      LawfulPossible(before);
      var attempts :| Log(attempts) == before;
      LawfulComplete(before);
      var attempt := BatchIsHandled(Aggregate(before), more);
      assert (attempts + [attempt])[..|attempts|] == attempts;
      assert Log(attempts + [attempt]) == log;
    }
  }

  /** Exactly the lawful logs can come about. */
  lemma LawfulExactly(log: seq<OfferEvent>)
    ensures Possible(log) <==> Lawful(log)
  {
    if Lawful(log) {
      LawfulPossible(log);
    }
    if Possible(log) {
      var attempts :| Log(attempts) == log;
      LogLawful(attempts);
    }
  }

  // ----- what holds after every run of commands -----

  /** At every command boundary: an accepted or received offer has its parameters, its configurations (only offered ones)
      and a token response, and holds at most one credential. */
  lemma ReachableComplete(attempts: seq<Attempt>)
    ensures Complete(Aggregate(Log(attempts)))
  {
    LogLawful(attempts);
    LawfulComplete(Log(attempts));
  }

  /** What a request for the received offer brings, when it is sent with this token: nothing if no configuration is offered,
      otherwise the credential that the wallet gets for the one offered configuration. */
  ghost predicate Fetches(received: OfferEvent, token: Json, wallet: Wallet, credentials: seq<Json>)
    requires received.CredentialOfferReceived?
  {
    var supported, ids := wallet.issuerMetadata(received.credentialOffer.credentialIssuer), received.credentialOffer.configurationIds;
    && supported.Some?
    && |credentials| == |ids| <= 1
    && (|ids| == 1 ==>
          && ids[0] in received.configurations
          && wallet.credential(supported.value, token, received.configurations[ids[0]]) == Some(Immediate(credentials[0])))
  }

  /** What a request brings, read off the log: the offer is accepted, and it can be fetched with the latest token. */
  ghost predicate Brought(log: seq<OfferEvent>, wallet: Wallet, credentials: seq<Json>) {
    && LastStatus(log) == Some(Accepted) && LastReceived(log).Some? && LastToken(log).Some?
    && Fetches(LastReceived(log).value, LastToken(log).value, wallet, credentials)
  }

  /** For every log: a request succeeds exactly when it brings something or nothing is offered, and that is what goes on record. */
  lemma RequestSucceedsExactly(log: seq<OfferEvent>, wallet: Wallet)
    ensures var r := Handle(Aggregate(log), SendCredentialRequest, wallet);
            && (r.Success? <==> exists credentials :: Brought(log, wallet, credentials))
            && (forall credentials :: Brought(log, wallet, credentials) ==> r == Success([CredentialResponseReceived(Received, credentials)]))
  {
    HoldsLatestReceived(log);
    HoldsLatestToken(log);
    var r := Handle(Aggregate(log), SendCredentialRequest, wallet);
    if r.Success? {
      assert Brought(log, wallet, r.value[0].credentials);
    }
    forall credentials | Brought(log, wallet, credentials) ensures r == Success([CredentialResponseReceived(Received, credentials)]) {
      if credentials != [] {
        assert credentials == [credentials[0]];
      }
    }
  }

  /** What keeps a request for the received offer from bringing anything. */
  ghost predicate Obstructs(received: OfferEvent, token: Json, wallet: Wallet, error: OfferError)
    requires received.CredentialOfferReceived?
  {
    var supported, ids := wallet.issuerMetadata(received.credentialOffer.credentialIssuer), received.credentialOffer.configurationIds;
    if supported.None? then error == CredentialIssuerMetadataRetrievalError
    else if |ids| > 1 then error == BatchCredentialRequestError
    else
      && |ids| == 1
      && if ids[0] !in received.configurations then error == MissingCredentialConfigurationError
         else
           var answer := wallet.credential(supported.value, token, received.configurations[ids[0]]);
           (answer.None? && error == CredentialResponseError)
           || (answer == Some(Deferred) && error == UnsupportedDeferredCredentialResponseError)
  }

  lemma RequestObstructed(offer: Offer, received: OfferEvent, token: Json, wallet: Wallet, error: OfferError)
    requires received.CredentialOfferReceived? && offer.status == Accepted && offer.tokenResponse == Some(token)
    requires offer.credentialOffer == Some(received.credentialOffer) && offer.configurations == Some(received.configurations)
    ensures Handle(offer, SendCredentialRequest, wallet) == Failure(error) <==> Obstructs(received, token, wallet, error)
  {
  }

  /** Which error a request ends in at a command boundary. Three of the error exits are dead. */
  lemma RequestFailsExactly(attempts: seq<Attempt>, wallet: Wallet, error: OfferError)
    ensures var log := Log(attempts);
            Handle(Aggregate(log), SendCredentialRequest, wallet) == Failure(error)
            <==> if LastStatus(log) != Some(Accepted) then error == CredentialOfferStatusNotAcceptedError
                 else LastReceived(log).Some? && LastToken(log).Some?
                      && Obstructs(LastReceived(log).value, LastToken(log).value, wallet, error)
    ensures var log := Log(attempts); LastStatus(log) == Some(Accepted) ==> LastReceived(log).Some? && LastToken(log).Some?
  {
    ReachableComplete(attempts);
    var log := Log(attempts);
    HoldsLatestReceived(log);
    HoldsLatestToken(log);
    if LastStatus(log) == Some(Accepted) {
      RequestObstructed(Aggregate(log), LastReceived(log).value, LastToken(log).value, wallet, error);
    }
  }

  /** Receiving keeps exactly the offered configurations that the issuer supports, as the issuer describes them; by value or by
      reference it succeeds exactly when the offer can be had and its issuer's metadata too. */
  lemma ReceiveExactly(self: Offer, source: OfferSource, wallet: Wallet)
    ensures var r := Handle(self, ReceiveCredentialOffer(source), wallet);
            match (if source.ByUri? then wallet.credentialOffer(source.uri) else Some(source.parameters))
            case None => r == Failure(CredentialOfferByReferenceRetrievalError)
            case Some(parameters) =>
              var supported := wallet.issuerMetadata(parameters.credentialIssuer);
              if supported.None? then r == Failure(CredentialIssuerMetadataRetrievalError)
              else
                && r.Success? && |r.value| == 1 && r.value[0].CredentialOfferReceived? && r.value[0].credentialOffer == parameters
                && var kept := r.value[0].configurations;
                   && (forall id :: id in kept <==> id in supported.value && id in parameters.configurationIds)
                   && (forall id :: id in kept ==> kept[id] == supported.value[id])
  {
  }

  ghost predicate Grants(parameters: Parameters, wallet: Wallet, endpoint: string, response: Json) {
    && parameters.preAuthorizedCode.Some?
    && wallet.tokenEndpoint(parameters.credentialIssuer) == Some(Some(endpoint))
    && wallet.accessToken(endpoint, parameters.preAuthorizedCode.value) == Some(response)
  }

  /** A token that accepting can bring. */
  ghost predicate Granted(log: seq<OfferEvent>, wallet: Wallet, response: Json) {
    LastReceived(log).Some? && exists endpoint :: Grants(LastReceived(log).value.credentialOffer, wallet, endpoint, response)
  }

  /** Accepting does not look at the status. It succeeds exactly when the offer is there with a code, its issuer names a token
      endpoint, and the endpoint answers; acceptance and answer are committed together. */
  lemma AcceptExactly(log: seq<OfferEvent>, status: Status, wallet: Wallet)
    ensures var r := Handle(Aggregate(log), AcceptCredentialOffer, wallet);
            && Handle(Aggregate(log).(status := status), AcceptCredentialOffer, wallet) == r
            && (r.Success? <==> exists response :: Granted(log, wallet, response))
            && (forall response :: Granted(log, wallet, response) ==>
                  r == Success([CredentialOfferAccepted(Accepted), TokenResponseReceived(response)]))
  {
    HoldsLatestReceived(log);
    if Handle(Aggregate(log), AcceptCredentialOffer, wallet).Success? {
      var parameters := LastReceived(log).value.credentialOffer;
      var endpoint := wallet.tokenEndpoint(parameters.credentialIssuer).value.value;
      var response := wallet.accessToken(endpoint, parameters.preAuthorizedCode.value).value;
      assert Grants(parameters, wallet, endpoint, response);
      assert Granted(log, wallet, response);
    }
  }

  /** Which error an acceptance ends in. */
  lemma AcceptFailsExactly(log: seq<OfferEvent>, wallet: Wallet)
    ensures var r := Handle(Aggregate(log), AcceptCredentialOffer, wallet);
            match LastReceived(log)
            case None => r == Failure(MissingCredentialOfferError)
            case Some(received) =>
              var code, endpoint := received.credentialOffer.preAuthorizedCode, wallet.tokenEndpoint(received.credentialOffer.credentialIssuer);
              && (r == Failure(AuthorizationServerMetadataRetrievalError) <==> endpoint.None?)
              && (r == Failure(MissingPreAuthorizedCodeError) <==> endpoint.Some? && code.None?)
              && (r == Failure(MissingTokenEndpointError) <==> endpoint == Some(None) && code.Some?)
              && (r == Failure(TokenResponseError) <==> code.Some? && endpoint.Some? && endpoint.value.Some?
                                                        && wallet.accessToken(endpoint.value.value, code.value).None?)
  {
    HoldsLatestReceived(log);
  }

  /** What accepting leaves a request to work with. */
  lemma AfterAcceptance(log: seq<OfferEvent>, token: Json)
    ensures var log' := log + [CredentialOfferAccepted(Accepted), TokenResponseReceived(token)];
            LastStatus(log') == Some(Accepted) && LastToken(log') == Some(token) && LastReceived(log') == LastReceived(log)
  {
    var midway := log + [CredentialOfferAccepted(Accepted)];
    var log' := log + [CredentialOfferAccepted(Accepted), TokenResponseReceived(token)];
    assert log'[..|log'| - 1] == midway && midway[..|midway| - 1] == log;
  }

  /** A rejection is possible exactly while nothing has been decided. */
  lemma RejectExactly(log: seq<OfferEvent>, wallet: Wallet)
    ensures Handle(Aggregate(log), RejectCredentialOffer, wallet)
         == if LastStatus(log) in {None, Some(Pending)} then Success([CredentialOfferRejected(Rejected)])
            else Failure(CredentialOfferStatusNotPendingError)
  {
    HoldsLatestToken(log);
  }

  // ----- history -----

  /** A prefix of a lawful log is lawful, or stops between the two events that an acceptance commits together. */
  ghost predicate LawfulOrMidway(log: seq<OfferEvent>) {
    || Lawful(log)
    || (log != [] && Lawful(log[..|log| - 1]) && log[|log| - 1] == CredentialOfferAccepted(Accepted))
  }

  lemma BatchForm(offer: Offer, more: seq<OfferEvent>)
    requires Batch(offer, more)
    ensures 1 <= |more| <= 2
    ensures |more| == 2 <==> more[|more| - 1].TokenResponseReceived?
    ensures |more| == 2 ==> more[0] == CredentialOfferAccepted(Accepted)
  {
  }

  /** The last batch by its form alone. */
  lemma LastForm(log: seq<OfferEvent>) returns (before: seq<OfferEvent>)
    requires Lawful(log) && log != []
    ensures before < log && Lawful(before) && |log| <= |before| + 2
    ensures |log| == |before| + 2 ==> log[|before|] == CredentialOfferAccepted(Accepted)
  {
    var more;
    before, more := LastBatch(log);
    BatchForm(Aggregate(before), more);
    assert log[|before|] == more[0];
  }

  lemma PrefixInside(before: seq<OfferEvent>, log: seq<OfferEvent>, k: nat)
    requires k <= |before| && before <= log && LawfulOrMidway(before[..k])
    ensures LawfulOrMidway(log[..k])
  {
    assert before[..k] == log[..k];
  }

  lemma PrefixMidway(before: seq<OfferEvent>, log: seq<OfferEvent>)
    requires Lawful(before) && before < log && log[|before|] == CredentialOfferAccepted(Accepted)
    ensures LawfulOrMidway(log[..|before| + 1])
  {
    assert log[..|before| + 1][..|before|] == before;
  }

  lemma {:induction false} PrefixLawful(log: seq<OfferEvent>, k: nat)
    requires Lawful(log) && k <= |log|
    ensures LawfulOrMidway(log[..k])
    decreases |log|
  {
    if k == |log| {
      assert log[..k] == log;
    } else {
      var before := LastForm(log);
      if k <= |before| {
        PrefixLawful(before, k);
        PrefixInside(before, log, k);
      } else {
        PrefixMidway(before, log);
      }
    }
  }

  /** Pending means undecided: nothing but received offers is on record. */
  ghost predicate PendingExactly(log: seq<OfferEvent>) {
    && (Aggregate(log).status == Pending ==> forall e :: e in log ==> e.CredentialOfferReceived?)
    && (Aggregate(log).status != Pending ==> exists e :: e in log && Decides(e))
  }

  lemma {:induction false} LawfulPendingExactly(log: seq<OfferEvent>)
    requires Lawful(log)
    ensures PendingExactly(log)
    decreases |log|
  {
    if log != [] {
      var before, more := LastBatch(log);
      LawfulPendingExactly(before);
      BatchMovesStatus(Aggregate(before), more);
      PendingBatch(before, more);
    }
  }

  /** How a batch moves the status: a received offer leaves it, anything else sets it, and not to Pending. */
  predicate StatusMoves(status: Status, more: seq<OfferEvent>, next: Status) {
    && |more| > 0
    && if more[0].CredentialOfferReceived? then |more| == 1 && next == status
       else Decides(more[0]) && next != Pending && (next == Accepted <==> more[0].CredentialOfferAccepted?)
  }

  lemma BatchMovesStatus(offer: Offer, more: seq<OfferEvent>)
    requires Batch(offer, more)
    ensures StatusMoves(offer.status, more, ApplyBatch(offer, more).status)
  {
  }

  lemma PendingBatch(before: seq<OfferEvent>, more: seq<OfferEvent>)
    requires PendingExactly(before) && StatusMoves(Aggregate(before).status, more, Aggregate(before + more).status)
    ensures PendingExactly(before + more)
  {
    var log := before + more;
    if !more[0].CredentialOfferReceived? {
      assert log[|before|] == more[0];
    } else if Aggregate(before).status != Pending {
      var e :| e in before && Decides(e);
      assert e in log;
    } else {
      forall e | e in log ensures e.CredentialOfferReceived? {
        assert e in before || e == more[0];
      }
    }
  }

  lemma PrefixPendingExactly(attempts: seq<Attempt>, k: nat)
    requires k <= |Log(attempts)|
    ensures PendingExactly(Log(attempts)[..k])
  {
    LogLawful(attempts);
    PrefixLawful(Log(attempts), k);
    var log := Log(attempts)[..k];
    if Lawful(log) {
      LawfulPendingExactly(log);
    } else {
      assert log[k - 1] in log;
    }
  }

  /** On every prefix of a log the status is Pending exactly until the first accept, response or reject; so once left it
      never comes back. */
  lemma PendingNeverReturns(attempts: seq<Attempt>, k: nat, later: nat)
    requires k <= later <= |Log(attempts)|
    ensures Aggregate(Log(attempts)[..k]).status == Pending <==> forall e :: e in Log(attempts)[..k] ==> !Decides(e)
    ensures Aggregate(Log(attempts)[..k]).status != Pending ==> Aggregate(Log(attempts)[..later]).status != Pending
  {
    PrefixPendingExactly(attempts, k);
    PrefixPendingExactly(attempts, later);
    assert Log(attempts)[..later][..k] == Log(attempts)[..k];
    if Aggregate(Log(attempts)[..k]).status != Pending {
      var e :| e in Log(attempts)[..k] && Decides(e);
      assert e in Log(attempts)[..later];
    }
  }

  lemma LastAlone(log: seq<OfferEvent>)
    requires Lawful(log) && log != [] && !log[|log| - 1].TokenResponseReceived?
    ensures Lawful(log[..|log| - 1]) && Batch(Aggregate(log[..|log| - 1]), [log[|log| - 1]])
  {
    var n := |log| - 1;
    assert BatchSize(log[n]) == 1;
    assert log[n..] == [log[n]];
  }

  /** A rejection or a response is a batch of its own, committed to what was there before. */
  lemma DecidedAfter(log: seq<OfferEvent>, j: nat)
    requires Lawful(log) && j < |log|
    requires log[j].CredentialOfferRejected? || log[j].CredentialResponseReceived?
    ensures Lawful(log[..j]) && Batch(Aggregate(log[..j]), [log[j]])
  {
    PrefixLawful(log, j + 1);
    LastAlone(log[..j + 1]);
    assert log[..j + 1][..j] == log[..j];
  }

  /** Nothing but received offers comes before a rejection: a log holds at most one, and it precedes every acceptance. */
  lemma RejectionComesFirst(attempts: seq<Attempt>, i: nat, j: nat)
    requires i < j < |Log(attempts)| && Log(attempts)[j].CredentialOfferRejected?
    ensures Log(attempts)[i].CredentialOfferReceived?
  {
    var log := Log(attempts);
    LogLawful(attempts);
    DecidedAfter(log, j);
    LawfulPendingExactly(log[..j]);
    assert log[i] == log[..j][i];
  }

  datatype Counts = Counts(accepts: nat, responses: nat)

  function Tally(counts: Counts, event: OfferEvent): Counts {
    Counts(counts.accepts + (if event.CredentialOfferAccepted? then 1 else 0),
           counts.responses + (if event.CredentialResponseReceived? then 1 else 0))
  }

  function Counted(log: seq<OfferEvent>): Counts {
    Replay(Tally, Counts(0, 0), log)
  }

  function TallyBatch(counts: Counts, more: seq<OfferEvent>): Counts
    requires 1 <= |more| <= 2
  {
    if |more| == 1 then Tally(counts, more[0]) else Tally(Tally(counts, more[0]), more[1])
  }

  lemma CountedBatch(before: seq<OfferEvent>, more: seq<OfferEvent>)
    requires 1 <= |more| <= 2
    ensures Counted(before + more) == TallyBatch(Counted(before), more)
  {
    ReplaySnoc(Tally, Counts(0, 0), before, more[0]);
    if |more| == 1 {
      assert before + more == before + [more[0]];
    } else {
      ReplaySnoc(Tally, Counts(0, 0), before + [more[0]], more[1]);
      assert before + more == before + [more[0]] + [more[1]];
    }
  }

  /** An accepted offer has an acceptance in hand that no response has used up. */
  predicate Leads(counts: Counts, status: Status) {
    counts.responses + (if status == Accepted then 1 else 0) <= counts.accepts
  }

  lemma BatchKeepsLead(offer: Offer, more: seq<OfferEvent>, counts: Counts)
    requires Batch(offer, more) && Leads(counts, offer.status)
    ensures Leads(TallyBatch(counts, more), ApplyBatch(offer, more).status)
  {
  }

  lemma {:induction false} LawfulAcceptsLead(log: seq<OfferEvent>)
    requires Lawful(log)
    ensures Leads(Counted(log), Aggregate(log).status)
    decreases |log|
  {
    if log != [] {
      var before, more := LastBatch(log);
      LawfulAcceptsLead(before);
      BatchKeepsLead(Aggregate(before), more, Counted(before));
      CountedBatch(before, more);
    }
  }

  /** On every prefix the responses never outnumber the acceptances. */
  lemma AcceptsLead(attempts: seq<Attempt>, k: nat)
    requires k <= |Log(attempts)|
    ensures Counted(Log(attempts)[..k]).responses <= Counted(Log(attempts)[..k]).accepts
  {
    LogLawful(attempts);
    PrefixLawful(Log(attempts), k);
    var log := Log(attempts)[..k];
    if Lawful(log) {
      LawfulAcceptsLead(log);
    } else {
      LawfulAcceptsLead(log[..k - 1]);
    }
  }

  ghost predicate AcceptedAfter(log: seq<OfferEvent>, i: nat) {
    exists k :: i < k < |log| && log[k].CredentialOfferAccepted?
  }

  lemma AcceptedLater(before: seq<OfferEvent>, log: seq<OfferEvent>, i: nat)
    requires before <= log && AcceptedAfter(before, i)
    ensures AcceptedAfter(log, i)
  {
    var k :| i < k < |before| && before[k].CredentialOfferAccepted?;
    assert log[k].CredentialOfferAccepted?;
  }

  lemma AcceptedByBatch(before: seq<OfferEvent>, more: seq<OfferEvent>, log: seq<OfferEvent>, i: nat)
    requires Batch(Aggregate(before), more) && ApplyBatch(Aggregate(before), more).status == Accepted
    requires log == before + more && i < |log| && log[i].CredentialResponseReceived?
    requires i < |before| && Aggregate(before).status == Accepted ==> AcceptedAfter(before, i)
    ensures AcceptedAfter(log, i)
  {
    BatchMovesStatus(Aggregate(before), more);
    BatchForm(Aggregate(before), more);
    assert log[|before|] == more[0];
    if more[0].CredentialOfferReceived? {
      AcceptedLater(before, log, i);
    } else {
      forall k | |before| <= k < |log| ensures !log[k].CredentialResponseReceived? {
        assert log[k] == more[k - |before|];
      }
    }
  }

  lemma {:induction false} AcceptedSinceResponse(log: seq<OfferEvent>, i: nat)
    requires Lawful(log) && Aggregate(log).status == Accepted
    requires i < |log| && log[i].CredentialResponseReceived?
    ensures AcceptedAfter(log, i)
    decreases |log|
  {
    var before, more := LastBatch(log);
    if i < |before| && Aggregate(before).status == Accepted {
      AcceptedSinceResponse(before, i);
    }
    AcceptedByBatch(before, more, log, i);
  }

  /** Between any two responses the offer was accepted anew. */
  lemma AcceptBetweenResponses(attempts: seq<Attempt>, i: nat, j: nat)
    requires i < j < |Log(attempts)|
    requires Log(attempts)[i].CredentialResponseReceived? && Log(attempts)[j].CredentialResponseReceived?
    ensures exists k :: i < k < j && Log(attempts)[k].CredentialOfferAccepted?
  {
    var log := Log(attempts);
    LogLawful(attempts);
    DecidedAfter(log, j);
    assert log[..j][i] == log[i];
    AcceptedSinceResponse(log[..j], i);
    var k :| i < k < j && log[..j][k].CredentialOfferAccepted?;
    assert log[k] == log[..j][k];
  }
}
