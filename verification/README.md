# A verified model of the agent's issuance and holder core

The agent is event sourced. An aggregate decides events (`handle`) and is the replay of its own events (`apply`); every
committed event is shown to a chain of queries that keep read-side views in repositories; REST handlers drive the
aggregates with sequences of queries and commands, many of them at once. This project models that core and proves what it
promises its callers, over every run. The issuer side is the Pre-Authorized Code Flow of OpenID4VCI draft 13 (section 3.5, with the
token endpoint of section 6 and the credential endpoint of section 7).

How the files fit together:

| file | what it holds |
|---|---|
| `EventSourcing.dfy` | replay, list-all folds, and the repository and query classes, generic over aggregate and view |
| `IssuerOffer.dfy`, `IssuerCredential.dfy`, `ServerConfig.dfy`, `HolderOffer.dfy`, `HolderCredential.dfy` | the aggregates and their views as step functions, the commands with every error case, and how view and aggregate compare for every log |
| `OfferIndexes.dfy` | the code index and the token index as the loop that maintains them |
| `IssuerMachine.dfy` | the four issuer endpoints as processes over shared memory; one step is one query, one command, or one load or store of a dispatch |
| `IssuerInvariant.dfy`, `IssuerSteps.dfy`, `IssuerPreservation.dfy` | an invariant of every reachable state, for any number of requests and any interleaving, and its proof |
| `IssuerTheorems.dfy` | what follows for callers: provenance, resolution of codes and tokens, write-once signatures |
| `RunContents.dfy`, `CredentialOrigins.dfy` | where the contents of a run come from: every event was written by a step of some request; offers carry what was read for them, credentials come of the request that started them |
| `IssuerAtomic.dfy` | runs whose dispatches are not interrupted: views equal logs; and the weaker condition that each load is followed by its store |
| `Continuations.dfy`, `Scenarios.dfy` | what can still happen from a state: building continuations, and states that do come about |
| `Creations.dfy` | how often an offer is created, in every run: a conservation law, and exactly when it is created no more |
| `SerialRuns.dfy` | runs of requests one after the other: every offer is created once, the indexes are bijections |
| `TokenAnswers.dfy` | exactly when an issued code is answered in every continuation; and a run in which it is not |
| `Polls.dfy` | exactly when a credential request signs for a recent subject, and only ids added recently; and runs in which it does not |
| `EarlierSubjects.dfy` | a request answered with a value that was signed for somebody else |
| `SharedViews.dfy`, `ListAllSchedules.dfy` | interleaved loads and stores of one view, and of a list-all view: exactly when it is right |
| `Traces.dfy` | a run seen from one view is such a schedule |
| `AllCredentials.dfy` | the list of all credentials against the single views: exactly when they agree |
| `StoreOrders.dfy`, `OfferTraces.dfy`, `AllOffers.dfy` | the list of all offers against the single views: the order in which each stores an offer's events, and exactly when they agree |
| `OfferOrder.dfy` | dispatches into one offer that do not overlap: view and list equal its log, and polls see the latest |
| `ListDisagreement.dfy` | a run in which list and view of an offer disagree although no access of a dispatch is interrupted |
| `IssuerHandlers.dfy`, `IssuerApi.dfy`, `OffersApi.dfy` | the handlers as imperative code over the repositories, proved to take exactly the steps of their process, so that the theorems hold for the replies they return |
| `HolderAccept.dfy` | the holder's `accept` handler and its fan-out, with other requests going on |
| `EventPublisher.dfy` | which events a publisher posts |
| `Json.dfy`, `Wrappers.dfy` | ordered JSON objects; optional values and results |

The credential that a wallet is given is followed back to where it started: in every run it is bound to the one offer of the
wallet's token (`IssuerTheorems.Provenance`), and it comes of the one `credentials` request that handed it in for that very offer
(`CredentialOrigins.GivenComesOfRequest`).

Some results a reader of the code may not expect:

- The list-all views can lose updates: two dispatches that both load before either stores leave one event out
  (`ListAllSchedules.LostUpdate`). A schedule is safe for every view if and only if no store falls between another dispatch's load
  and store (`SharedViews.RaceFreeExactly`). The two indexes do not have this problem (`IssuerTheorems.IndexesFollowLogs`), and
  neither do the single credential views (`IssuerTheorems.CredentialViewsFollowLogs`).
- For credentials that is all that can go wrong: a finished run in which no JWT encoding failed leaves `all_credentials` equal to the
  single views if and only if it had no such race (`AllCredentials.AgreeExactlyWhenRaceFree`).
- For offers it is not: dispatches of one offer can overtake each other between its view and the list, so that the two disagree
  when all is over although every load is followed by its store at once (`ListDisagreement.ListDisagrees`). Without races they agree if and
  only if for each kind of event the one stored last in the view and the one stored last in the list write the same
  (`AllOffers.AgreeExactly`), and under every view if and only if both stored the events in the same order
  (`AllOffers.SameOrderExactly`).
- The single offer view can lose updates too, with a visible effect: in a concrete run an issued code is answered with an error
  although the token response is on record (`TokenAnswers.AnswerLost`). Once a request's response is in the view, every
  continuation answers it if and only if no other dispatch is about to store a copy without a response
  (`TokenAnswers.AnsweredExactly`).
- For the same reason a credential request can sign for the subject of another one, although its own proof was verified later
  (`Polls.StalePoll`), and it can sign an older credential of the offer, although a newer one was bound before it came in
  (`Polls.StaleIds`). It never does if and only if the view shows nothing older and no dispatch under way is going to leave anything
  older there (`Polls.RecentExactly`, `Polls.RunSignsRecentExactly`).
- A request can be answered with a value signed for the subject of an earlier request, even when its own proof is refused
  (`EarlierSubjects.AnsweredForEarlier`). `IssuerApi.Credential` says exactly when a request that runs alone gets which answer.
- Two interleaved requests can create the same offer twice (`Creations.CreatedTwice`); both codes stay valid. In every run the
  creations of an offer, with those requests about to create it, are exactly the lookups that found it absent
  (`Creations.CreationsAreAbsentLookups`).
- `OfferView` equals the aggregate except for `credential_offer`, which it never stores
  (`IssuerOffer.CredentialOfferMissingExactly`). `CredentialView` equals it except after a failed JWT encoding: the value is
  null, and a stored null reads back as absent (`IssuerCredential.ViewEqualsAggregateExactly`).
- A configuration added before the first initialisation changes the aggregate and not the view
  (`ServerConfig.ViewAgreesExactly`).
- The signed credential names the requesting subject exactly when the credential's data named nobody or that very subject
  (`IssuerCredential.SubjectIdExactly`).
- A `credentials` request with `isSigned` does all its work and then answers with an error (`OffersApi.Credentials`).
- A holder that subscribes to `TokenResponseReceived`, or an issuer to `ServerMetadataInitialized`, is never served
  (`EventPublisher.ReceivedOffersPostedExactly`, `EventPublisher.ServerConfigPostedExactly`).

The error responses of `credential` that the code builds and drops are modelled as dropped: the request goes on.

## Model

| member | source | states |
|---|---|---|
| `IssuerTheorems.Provenance` | agent_api_rest/src/issuance/credential_issuer/credential.rs:40-142 | Every run, every interleaving: a 200 carries the signed value of a credential bound to the one offer created with the bearer token and to no other; the response is on that offer's record, behind a verified request |
| `IssuerTheorems.FlowStaysInOneOffer` | agent_api_rest/src/issuance/credential_issuer/credential.rs:31-143 | Offer shown, token given for its code, credential given for that token: all three are about one offer, and the credential is bound to it |
| `IssuerTheorems.TokenRoundTrip` | agent_api_rest/src/issuance/credential_issuer/token.rs:36-58 | Every run: a token response answers with a token of the one offer the code was issued for; it resolves to that offer, or its creation is still being dispatched, and never to another offer. Who gets a token is `TokenAnswers.TokenAnswered` |
| `IssuerTheorems.ShownCodeIsOwn` | agent_api_rest/src/issuance/offers/mod.rs:63-82 | Every run: the offer that `offers` shows carries a code of that very offer and of no other |
| `IssuerTheorems.IndexesFollowLogs` | agent_issuance/src/offer/queries/pre_authorized_code.rs:52-75 | Loads and stores of concurrent dispatches mixed at will: what an index holds is right at every moment, and once dispatches are over the two indexes are exactly the codes and tokens ever issued, superseded ones included |
| `IssuerTheorems.OneSignature` | agent_issuance/src/credential/aggregate.rs:170-174 | Every run: a credential has at most one signed value on record |
| `IssuerTheorems.WriteOnce` | agent_issuance/src/credential/aggregate.rs:171-174 | Once a view shows a signed value it shows that value in every later state, whatever requests follow |
| `IssuerTheorems.CredentialViewsFollowLogs` | agent_issuance/src/credential/queries/mod.rs:16-33 | Although load and store are not atomic, a credential view shows its whole log, or all but the last event while that event is being dispatched |
| `IssuerTheorems.SignsForVerifiedSubject` | agent_api_rest/src/issuance/credential_issuer/credential.rs:99-112 | Every run: each signing is for a subject verified for the offer, and for credentials bound to that offer only. Which of the verified subjects is `Polls.RecentExactly` |
| `IssuerTheorems.SignsOne` | agent_api_rest/src/issuance/credential_issuer/credential.rs:99-123 | Every run: the list of ids that a request signs has one element, although the loop is over a list |
| `RunContents.CreatedWasRead` | agent_api_rest/src/issuance/offers/mod.rs:35-61 | Every run, every interleaving: each `CredentialOfferCreated` carries the issuer and exactly the configurations of a configuration that some request had read for that very offer, and its own code |
| `RunContents.EncodedWasCreated` | agent_issuance/src/offer/aggregate.rs:94-101 | Every run: each offer that was encoded is one that was created for the same offer id, as it was created |
| `RunContents.ShownWasRead` | agent_api_rest/src/issuance/offers/mod.rs:63-82 | Every run: so each offer that `offers` shows is one that was created, with issuer and configurations that were read for it |
| `CredentialOrigins.GivenComesOfRequest` | agent_api_rest/src/issuance/credential_issuer/credential.rs:31-143 | End to end, every run, every interleaving: the credential a wallet is given is bound to the offer of its token and comes of the one `credentials` request that started it, which was for that offer: as handed in if it came signed, otherwise signed over what the builders made of that request's data |
| `CredentialOrigins.SignedWasComputed` | agent_issuance/src/credential/aggregate.rs:171-228 | Every run: a signature made here is the encoding of the data on record for that credential, with issuer and subject put in, and of a subject verified for the offer the credential is bound to |
| `CredentialOrigins.MadeWasStarted` | agent_api_rest/src/issuance/credentials.rs:66-111 | Every run: a credential on record was made from what some request handed in under this id, in the configuration that request had read |
| `CredentialOrigins.BoundWasStarted` | agent_api_rest/src/issuance/credentials.rs:140-148 | Every run: a credential is bound only to the offer that the request which started it was for |
| `CredentialOrigins.StartedOnce` | agent_api_rest/src/issuance/credentials.rs:66-66 | Every run: a credential id is started by one request only, for one offer, with one set of data |
| `IssuerPreservation.Reachable` | agent_store/src/in_memory.rs:118-182 | Every state of every run satisfies the invariant: logs, indexes, views and all requests under way are consistent |
| `IssuerPreservation.MoveKeepsInv` | agent_store/src/in_memory.rs:44-65 | One step of any request keeps the whole invariant, including that no credential view has two writers and no unbound credential two owners |
| `IssuerSteps.StepJustified` | agent_api_rest/src/issuance/credential_issuer/credential.rs:40-142 | What a request does in one step is within its rights: codes and tokens are fresh, responses follow verification, views are written from the log, bindings are its own |
| `IssuerSteps.SignEvents` | agent_issuance/src/credential/aggregate.rs:171-228 | Without overwrite an event comes out only for a credential created unsigned and not yet signed |
| `IssuerAtomic.ListAllAgreement` | agent_shared/src/custom_queries.rs:69-87 | After any run with uninterrupted dispatches both list-all views equal the single views, for exactly the ids in the log, each the replay of its own log |
| `TokenAnswers.TokenAnswered` | agent_api_rest/src/issuance/credential_issuer/token.rs:35-58 | Every run, every code ever issued: its request finds the offer if and only if the code is listed, which it is once its creation is dispatched; it puts a response on record; and from then on every answer it can get is a token if and only if no other dispatch is about to store a copy of the view without a response |
| `TokenAnswers.AnsweredExactly` | agent_api_rest/src/issuance/credential_issuer/token.rs:51-58 | The exact condition by itself, from any state: with it the request, in every continuation, has been answered with a token for the code and the offer or has not been answered yet; without it some continuation answers with an error |
| `TokenAnswers.AnswerLost` | agent_api_rest/src/issuance/credential_issuer/token.rs:51-58 | A concrete run where a concurrent dispatch stores an older copy of the offer view and the handler answers with an error, the response being on record |
| `Polls.RecentExactly` | agent_api_rest/src/issuance/credential_issuer/credential.rs:70-97 | From any state, for any position in the offer's log, for the subject and for the ids: every continuation signs only with what is on record there or later if and only if the view shows nothing older and no dispatch under way is going to leave anything older |
| `Polls.RunSignsRecentExactly` | agent_api_rest/src/issuance/credential_issuer/credential.rs:70-97 | The same at every moment of every run, where the token of a request that polls is always listed |
| `Polls.StalePoll` | agent_api_rest/src/issuance/credential_issuer/credential.rs:77-97 | A concrete run: a request whose proof was verified last signs for the subject of an earlier request |
| `Polls.StaleIds` | agent_api_rest/src/issuance/credential_issuer/credential.rs:77-97 | A concrete run: a request signs an older credential of the offer, although a newer one was bound before the request came in |
| `OfferOrder.OfferViewFollowsLog` | agent_store/src/in_memory.rs:44-65 | As long as dispatches into this one offer do not overlap up to their store of the view, it is the replay of the log whenever none is before its store, whatever goes on elsewhere |
| `OfferOrder.BothFollowLog` | agent_shared/src/custom_queries.rs:69-87 | As long as they do not overlap up to their store of the list, and nobody stores the list between another one's load and store, view and list entry of the offer are both the replay of its log |
| `OfferOrder.PollSeesLatest` | agent_api_rest/src/issuance/credential_issuer/credential.rs:77-97 | Under the same condition on the one offer, the poll that succeeds leaves with the ids of the latest `CredentialsAdded` and the subject of the latest `CredentialRequestVerified` |
| `EarlierSubjects.AnsweredForEarlier` | agent_api_rest/src/issuance/credential_issuer/credential.rs:58-68 | For any outcome of a request's own proof, refused or naming whomever, there is a run in which it gets a 200 with the value signed for the subject of an earlier request |
| `Creations.CreationsAreAbsentLookups` | agent_api_rest/src/issuance/offers/mod.rs:43-61 | Conservation, every run and every interleaving: creations on record plus requests about to create are the lookups that found the offer absent |
| `Creations.NoMoreCreationsExactly` | agent_api_rest/src/issuance/credentials.rs:120-138 | A listed offer is created no more in any continuation if and only if no request stands on the creating branch for it |
| `Creations.CreationsReach` | agent_api_rest/src/issuance/credentials.rs:120-138 | From every run there is a continuation with as many creations as absent lookups so far, and once the offer is listed none has more |
| `Creations.AtMostOnceExactly` | agent_api_rest/src/issuance/offers/mod.rs:43-61 | A listed offer is created at most once in all continuations if and only if at most one lookup has found it absent |
| `Creations.CreatedTwice` | agent_api_rest/src/issuance/offers/mod.rs:43-61 | Create-if-absent is not atomic: a concrete interleaving of two `offers` requests creates one offer twice |
| `SerialRuns.SerialCreatesOnce` | agent_api_rest/src/issuance/credentials.rs:120-138 | Requests one after the other, of any kind: every offer has exactly one `CredentialOfferCreated`, as its first event. Interleaved requests are counted by `Creations.CreationsAreAbsentLookups` |
| `SerialRuns.IndexesAreBijections` | agent_issuance/src/offer/queries/access_token.rs:46-73 | In such runs every offer has exactly one code and one token in the indexes, and no two offers share one |
| `SharedViews.AgreesExactlyWhenRaceFree` | agent_shared/src/custom_queries.rs:79-87 | With loads and stores scheduled at will, a view that remembers its events is their replay if and only if no store falls between another dispatch's load and store |
| `SharedViews.RaceFreeExactly` | agent_shared/src/custom_queries.rs:79-87 | The same for all events: without races every view is the replay of the events stored, with a race the view that collects sequence numbers is not |
| `ListAllSchedules.NewAggregatesExactly` | agent_shared/src/custom_queries.rs:79-87 | For events that each open a new aggregate, every single list-all view is right if and only if there was no race |
| `ListAllSchedules.RaceFreeLists` | agent_shared/src/custom_queries.rs:79-87 | Without races a list-all view holds exactly the ids stored, each with the replay of its own events in the order of their stores |
| `ListAllSchedules.LostUpdate` | agent_store/src/in_memory.rs:44-65 | The shortest schedule that loses an event |
| `Traces.RecordMatches` | agent_shared/src/custom_queries.rs:79-87 | A run seen from one view is such a schedule: what each step does to the view and to the copies of it is what the schedule does |
| `OfferTraces.AlwaysAccounted` | agent_store/src/in_memory.rs:161-172 | Conservation, every run and every interleaving: the events of an offer stored in its view (or in the list) and those under way to it are exactly the events of its log, each once |
| `AllOffers.StoresAreLog` | agent_store/src/in_memory.rs:161-172 | Once no dispatch of the offer is before its store, the events stored are those of the log, as often as there, in some order |
| `AllOffers.ViewByStores` | agent_shared/src/generic_query.rs:9-19 | Every run without races for it: an offer's view is the replay of its events in the order in which they were stored there |
| `AllOffers.ListByStores` | agent_shared/src/custom_queries.rs:69-87 | Every run without races for the list: an offer's entry is the replay in the order in which they were stored in the list |
| `AllOffers.AgreeExactly` | agent_issuance/src/offer/queries/all_offers.rs:13-23 | Then, once the dispatches of the offer are over, list and view show it exactly if it has a log, and show the same if and only if for each kind of event the last one stored in each writes the same value |
| `AllOffers.SameOrderExactly` | agent_issuance/src/offer/queries/all_offers.rs:13-23 | They show the same under every view if and only if both stored the events in the same order: the view that keeps positions tells the orders apart |
| `AllOffers.RightExactly` | agent_shared/src/generic_query.rs:9-19 | With or without races: the view that keeps positions shows the log in its order if and only if there was no race and the events were stored in the order of the log |
| `ListDisagreement.ListDisagrees` | agent_shared/src/custom_queries.rs:69-87 | A concrete run, from the empty state to all dispatches over, in which every load is followed by its store before another request moves: the view shows the subject verified last, the list the one before it |
| `AllCredentials.ListFollowsLogs` | agent_shared/src/custom_queries.rs:69-87 | Every run without races: an entry of `all_credentials` shows its credential's whole log, or all but the event being dispatched |
| `AllCredentials.AgreeExactlyWhenRaceFree` | agent_shared/src/custom_queries.rs:69-87 | Every run whose dispatches are over: without races `all_credentials` is the map of the single views; and, where no JWT encoding failed, only without races |
| `AllCredentials.UndividedAgree` | agent_shared/src/custom_queries.rs:69-87 | Where every load is followed by its store before another request moves, the list of credentials is the map of the single views |
| `OfferIndexes.IndexQuery.ApplyEvents` | agent_issuance/src/offer/queries/access_token.rs:62-72 | The load-update-store loop files every created offer under its key, whatever it loaded under the offer's id |
| `OfferIndexes.FiledExactly` | agent_issuance/src/offer/queries/access_token.rs:80-88 | The index relates a key to an offer if and only if that offer was created with that key |
| `OfferIndexes.OrderDoesNotMatter` | agent_issuance/src/offer/queries/pre_authorized_code.rs:62-75 | Any order of the same events gives the same index |
| `EventSourcing.ListAllAgreesWithSingleViews` | agent_issuance/src/offer/queries/all_offers.rs:13-23 | For every interleaved log the list-all view holds exactly the ids in it, each with the replay of its own events |
| `EventSourcing.BatchesDoNotMatter` | agent_shared/src/custom_queries.rs:79-87 | How events are cut into committed batches makes no difference |
| `EventSourcing.FoldBatch` | agent_shared/src/custom_queries.rs:79-87 | Applying a batch event by event through the stored map equals one replay of the entry |
| `EventSourcing.ListAllQuery.ApplyEvents` | agent_shared/src/custom_queries.rs:69-87 | The loop leaves the fold of the events in the stored view and touches no other view |
| `EventSourcing.GenericQuery.ApplyEvents` | agent_shared/src/generic_query.rs:9-19 | One load, all events of the batch, one store |
| `IssuerApi.Credential` | agent_api_rest/src/issuance/credential_issuer/credential.rs:31-143 | The handler takes the steps of its process whatever others do, so provenance holds for its reply; alone, from any state, it gives a 200 if and only if the token is listed, the configuration is there, a subject is verified now or before, the offer has a credential, and that one is signed already or can be signed. The value is the signature shown or, for an unsigned one, the encoding of the data on record with issuer and rebuilt subject put in, and of the subject; otherwise the reply is exactly 401, 500 or a panic as stated |
| `IssuerApi.SignedNowReadsBack` | agent_api_rest/src/issuance/credential_issuer/credential.rs:101-122 | By the credential's log: what one round of signing reads back, signed before, without data, without a subject object, or signed now; it panics exactly for an unsigned credential without a subject object |
| `IssuerApi.Enter` | agent_api_rest/src/issuance/credential_issuer/credential.rs:40-56 | Goes on exactly when the token is listed and the configuration is there, with the offer of the token; otherwise 401 or 500 as the one or the other is missing |
| `IssuerApi.Serve` | agent_api_rest/src/issuance/credential_issuer/credential.rs:58-142 | From the proof to the reply: exactly which answer or error a lone request gets |
| `IssuerApi.Prepare` | agent_api_rest/src/issuance/credential_issuer/credential.rs:58-97 | Leaves with a non-empty list of ids; alone, exactly when a subject is verified now or before and the offer has a credential, and with just these |
| `IssuerApi.VerifyRequest` | agent_api_rest/src/issuance/credential_issuer/credential.rs:58-68 | The event is that of the proof's outcome: a refused proof leaves no event, and the request goes on to poll |
| `IssuerApi.PollOffer` | agent_api_rest/src/issuance/credential_issuer/credential.rs:70-97 | At most timeout/100 + 2 queries; never a timeout while the elapsed time is within the limit; it leaves at the first view that has ids, among those the repository held at increasing moments of the run; alone the view at hand decides |
| `IssuerApi.TimeOutIsTight` | agent_api_rest/src/issuance/credential_issuer/credential.rs:77-87 | The bound on the queries is reached |
| `IssuerApi.SignAll` | agent_api_rest/src/issuance/credential_issuer/credential.rs:99-123 | Each collected value is the signed value shown for its id, also after everything others did meanwhile; alone it is the new signature if one is made and otherwise the one that was there |
| `IssuerApi.SignOne` | agent_api_rest/src/issuance/credential_issuer/credential.rs:101-122 | A failed signing is not looked at; what counts is the value read back |
| `IssuerApi.SignAndRespond` | agent_api_rest/src/issuance/credential_issuer/credential.rs:99-142 | There is exactly one id, so the last element that the response takes is its value; alone a 200 is given if and only if that id is signed or can be signed |
| `IssuerApi.Token` | agent_api_rest/src/issuance/credential_issuer/token.rs:20-59 | Code and token given belong to one offer; alone, every listed code is answered with the token of the latest creation, which resolves to that offer; 400 exactly for another grant, 500 exactly for an unlisted code |
| `IssuerApi.StillSigned` | agent_issuance/src/credential/aggregate.rs:171-174 | Signed values read earlier in a run are still shown later |
| `OffersApi.Offers` | agent_api_rest/src/issuance/offers/mod.rs:27-83 | Alone on orderly memory: with a configuration it shows the offer created last for this id; if there was none, that is a new one with the issuer and configurations this request has read and the code now on record; without a configuration it changes nothing and answers 500 |
| `OffersApi.Credentials` | agent_api_rest/src/issuance/credentials.rs:46-163 | Goes as far as binding if and only if the body is an object or a string, the configuration names it and is still there when read again, and the credential can be made, with the exact error otherwise; alone: one new credential on record, made by that command in the configuration read, bound as the offer's latest list; the offer created, if absent, for the configuration read again; the reply is the credential exactly when it was not handed in signed |
| `OffersApi.LookupForOffers` | agent_api_rest/src/issuance/offers/mod.rs:43-61 | Creates exactly when the view is absent, and then for the configuration that was read, with its issuer, all its ids and the drawn code |
| `OffersApi.LookupForCredentials` | agent_api_rest/src/issuance/credentials.rs:120-138 | Likewise |
| `OffersApi.BindCredential` | agent_api_rest/src/issuance/credentials.rs:140-148 | Appends the one-element list and dispatches it |
| `IssuerHandlers.IssuanceState.ExecuteOffer` | agent_shared/src/handlers.rs:33-53 | Load, handle, append, then dispatch to every query before returning |
| `IssuerHandlers.IssuanceState.ExecuteCredential` | agent_shared/src/handlers.rs:33-53 | The same for credentials, where a command may emit nothing or panic |
| `IssuerHandlers.IssuanceState.DispatchOffer` | agent_store/src/in_memory.rs:161-172 | The four queries in registration order; uninterrupted they leave exactly the folded views and indexes |
| `IssuerHandlers.IssuanceState.DispatchCode` | agent_issuance/src/offer/queries/pre_authorized_code.rs:62-75 | Loads under the offer id, stores the offer id under the code |
| `IssuerHandlers.IssuanceState.DispatchToken` | agent_issuance/src/offer/queries/access_token.rs:62-72 | Loads under the offer id, stores the offer id under the token |
| `IssuerHandlers.IssuanceState.DispatchCredential` | agent_store/src/in_memory.rs:152-160 | The two queries of a credential event |
| `IssuerHandlers.DispatchedByQueries` | agent_store/src/in_memory.rs:161-172 | What the dispatch leaves is what the generic query, the list-all query and the two index queries leave, each over its own repository |
| `IssuerHandlers.DispatchedCredentialByQueries` | agent_store/src/in_memory.rs:152-160 | Likewise for a credential event |
| `IssuerHandlers.IssuanceState.constructor` | agent_store/src/in_memory.rs:118-182 | A new application with empty repositories satisfies all that the handlers ask for |
| `IssuerHandlers.IssuanceState.Admit` | agent_store/src/in_memory.rs:118-182 | Any request can come in at any time, and then stands where its handler starts |
| `IssuerOffer.ViewSimulatesAggregate` | agent_issuance/src/offer/queries/mod.rs:25-63 | For every log the view is the aggregate with the credential offer left out |
| `IssuerOffer.CredentialOfferMissingExactly` | agent_issuance/src/offer/queries/mod.rs:30-37 | They agree on all fields if and only if no offer has been created |
| `IssuerOffer.ViewShowsLatest` | agent_issuance/src/offer/aggregate.rs:212-214 | `CredentialsAdded` replaces: the view has the latest list and the latest verified subject |
| `IssuerOffer.AccessTokenIsLatest` | agent_issuance/src/offer/aggregate.rs:202-211 | Code, token and offer of the aggregate are those of the latest creation on record, and the defaults if and only if there is none |
| `IssuerOffer.CreateThenEncode` | agent_issuance/src/offer/aggregate.rs:48-101 | After a creation the encoded offer has the issuer, all configurations and the new code, and the token response has the new token |
| `IssuerOffer.CommandShows` | agent_issuance/src/offer/aggregate.rs:41-194 | For every log and command: exactly when it succeeds, and which one field of the view a reader sees changed, and how |
| `IssuerOffer.CommandFails` | agent_issuance/src/offer/aggregate.rs:84-194 | For every log and command: exactly which error, and the event of a sent offer, which no view shows |
| `IssuerCredential.LastSupported` | agent_issuance/src/credential/aggregate.rs:93-164 | The greatest index holding a supported type, or none if no entry is supported |
| `IssuerCredential.CreateUnsigned` | agent_issuance/src/credential/aggregate.rs:58-169 | The pop loop decides by the greatest supported index, so `CreatedExactly` and `NotCreated` say what it returns; given a JWT format and a subject it fails with `UnsupportedCredentialFormat` if and only if no entry is supported |
| `IssuerCredential.CreatedExactly` | agent_issuance/src/credential/aggregate.rs:94-161 | For the last supported type: an achievement succeeds if and only if its builder accepts type, display name or default name, and subject, and then exactly the builder's JSON goes on record; a plain credential goes on record as built with the configured types written in; both with the configuration given |
| `IssuerCredential.NotCreated` | agent_issuance/src/credential/aggregate.rs:86-168 | The exact error for another format, a missing subject, and a list without a supported type |
| `IssuerCredential.NoFallback` | agent_issuance/src/credential/aggregate.rs:94-125 | The last supported type alone decides, whatever stands before it: a subject refused at that type, by the builder or by the schema, is an error and earlier entries are never tried |
| `IssuerCredential.TypesWritten` | agent_issuance/src/credential/aggregate.rs:117-124 | A plain credential carries all configured types in order, in place of what the builder wrote there, and the builder's other fields |
| `IssuerCredential.RebuildSubject` | agent_issuance/src/credential/aggregate.rs:188-197 | The loop computes the rebuilt subject |
| `IssuerCredential.RebuiltKeys` | agent_issuance/src/credential/aggregate.rs:190-197 | Key order: `id`, then the original keys in order without `id` |
| `IssuerCredential.RebuiltValues` | agent_issuance/src/credential/aggregate.rs:190-197 | Every original entry keeps its value, an original `id` included |
| `IssuerCredential.SubjectIdExactly` | agent_issuance/src/credential/aggregate.rs:190-197 | `id` is the requesting subject if and only if the data had no `id` or that same value |
| `IssuerCredential.PanicsExactly` | agent_issuance/src/credential/aggregate.rs:184-188 | Signing panics if and only if the data has no subject object |
| `IssuerCredential.PayloadField` | agent_issuance/src/credential/aggregate.rs:183-200 | The payload has the issuer, the rebuilt subject, and every other field unchanged; that it is what gets signed is `SignsExactly` |
| `IssuerCredential.SignsExactly` | agent_issuance/src/credential/aggregate.rs:171-228 | For every log: signing does nothing over a signature it may not overwrite, fails without data, panics without a subject object, and otherwise emits one event: the encoding, for that subject, of the latest data with `issuer` set, the subject rebuilt with `id` first, and every other field and its place kept |
| `IssuerCredential.SignatureShowsArguments` | agent_issuance/src/credential/aggregate.rs:209-224 | An encoder that returns its first argument gives that credential, one that returns its second gives the subject |
| `IssuerCredential.FieldsAreLatest` | agent_issuance/src/credential/aggregate.rs:234-256 | For every log: data, configuration and signature are those of the latest events that carry them, and nothing before the first |
| `IssuerCredential.ViewShowsLog` | agent_issuance/src/credential/queries/mod.rs:16-33 | For every log the stored view shows the same, a null signature read as none |
| `IssuerCredential.SignTwice` | agent_issuance/src/credential/aggregate.rs:171-174 | Without overwrite signing again does nothing; with it only the signature changes |
| `IssuerCredential.ViewSimulatesAggregate` | agent_issuance/src/credential/queries/mod.rs:16-33 | For every log the stored view is the aggregate, a null signature read as none |
| `IssuerCredential.ViewEqualsAggregateExactly` | agent_issuance/src/credential/queries/mod.rs:16-33 | Field by field equal if and only if the latest signature is not null |
| `IssuerCredential.CommandShows` | agent_issuance/src/credential/aggregate.rs:50-231 | For every log: exactly when a signing or a hand-in succeeds, that a hand-in records what was handed in, the missing-data error exactly, and that only the signature in the view changes, to the one emitted |
| `Json.InsertKeys` | agent_issuance/src/credential/aggregate.rs:191-197 | Insertion keeps the place of an existing key and appends a new one |
| `Json.LookupInsert` | agent_issuance/src/credential/aggregate.rs:191-197 | An insertion is seen under its key and nowhere else |
| `ServerConfig.ViewAgreesExactly` | agent_issuance/src/server_config/queries.rs:15-38 | For every log the view has the aggregate's metadata if and only if an initialisation is on record, before that none |
| `ServerConfig.FieldsAreLatest` | agent_issuance/src/server_config/aggregate.rs:116-133 | For every log: both servers are those of the latest initialisation, the configurations those of the last event of either kind |
| `ServerConfig.StartUpOrder` | agent_issuance/src/startup_commands.rs:10-12 | Initialise, then add, reaches agreement and shows the configuration; the other order drops it |
| `HolderOffer.LawfulExactly` | agent_holder/src/offer/aggregate.rs:49-262 | A log can come about by some run of commands and wallet answers if and only if it is put together from lawful batches |
| `HolderOffer.HandledIsBatch` | agent_holder/src/offer/aggregate.rs:49-229 | Every command that succeeds commits a lawful batch, from any state |
| `HolderOffer.BatchIsHandled` | agent_holder/src/offer/aggregate.rs:49-229 | Every lawful batch is committed by some command and wallet |
| `HolderOffer.ReceiveExactly` | agent_holder/src/offer/aggregate.rs:57-94 | By value or by reference: the retrieval error exactly for an unresolvable reference, the metadata error exactly without metadata, and otherwise the offer with exactly the offered configurations the issuer supports, unchanged |
| `HolderOffer.AcceptExactly` | agent_holder/src/offer/aggregate.rs:95-153 | For every log, independent of the status: succeeds if and only if the offer received last has a code, and endpoint and token can be had, and commits acceptance and that token together |
| `HolderOffer.AcceptFailsExactly` | agent_holder/src/offer/aggregate.rs:106-139 | For every log: exactly which error an acceptance ends in |
| `HolderOffer.RejectExactly` | agent_holder/src/offer/aggregate.rs:218-228 | For every log: a rejection succeeds if and only if the status set last is Pending or none was set |
| `HolderOffer.ReachableComplete` | agent_holder/src/offer/aggregate.rs:95-179 | At every command boundary an accepted or received offer has parameters, configurations and token response, and at most one credential |
| `HolderOffer.RequestSucceedsExactly` | agent_holder/src/offer/aggregate.rs:154-217 | For every log: a request succeeds if and only if the offer is accepted and, with the latest token and for the offer received last, nothing is offered or the wallet gets the one offered credential; and exactly that goes on record |
| `HolderOffer.RequestFailsExactly` | agent_holder/src/offer/aggregate.rs:154-211 | At every command boundary: exactly which error a request ends in; three of the error exits are dead |
| `HolderOffer.PendingNeverReturns` | agent_holder/src/offer/aggregate.rs:218-228 | On every prefix the status is Pending exactly until the first accept, response or reject, and never again |
| `HolderOffer.RejectionComesFirst` | agent_holder/src/offer/aggregate.rs:218-228 | Only received offers precede a rejection: there is at most one, before every acceptance |
| `HolderOffer.AcceptsLead` | agent_holder/src/offer/aggregate.rs:154-157 | On every prefix responses never outnumber acceptances |
| `HolderOffer.AcceptBetweenResponses` | agent_holder/src/offer/aggregate.rs:154-157 | Between any two responses there is an acceptance |
| `HolderOffer.HoldsLatestResponse` | agent_holder/src/offer/aggregate.rs:232-262 | For every log: the credentials held are those of the latest response, and none before the first |
| `HolderOffer.HoldsLatestReceived` | agent_holder/src/offer/aggregate.rs:238-245 | For every log: parameters and configurations are those of the latest received offer, and none before the first |
| `HolderOffer.HoldsLatestToken` | agent_holder/src/offer/aggregate.rs:246-260 | For every log: the token response is the latest one, and none before the first; the status is the one set last, Pending before any |
| `HolderOffer.ViewShowsLog` | agent_holder/src/offer/queries/mod.rs:22-52 | For every log: every field of the view is what the log says last |
| `HolderOffer.ViewEqualsAggregate` | agent_holder/src/offer/queries/mod.rs:22-52 | For every log the view equals the aggregate field by field; what both hold is `ViewShowsLog` |
| `HolderCredential.FieldsAreLatest` | agent_holder/src/credential/queries/mod.rs:15-31 | For every log: view and aggregate hold credential id, offer id and credential of the last event, each under its own name, a null credential read as none by the view |
| `HolderCredential.AddedShows` | agent_holder/src/credential/aggregate.rs:36-73 | An added credential shows under its own id, with the offer it came from |
| `HolderAccept.HolderState.Accept` | agent_api_rest/src/holder/holder/offers/accept.rs:14-73 | Whatever other requests do meanwhile: 404 only for an offer that was unknown; 200 only when every credential of a response on record for the offer was stored, each tagged with its own id and the offer in both views, and what was there stays. Alone: 404 exactly for an unknown offer; a token goes on record exactly when one is granted for the offer received last, a response exactly when that token brings one; 200 exactly when its credentials were all stored, and the list grows by exactly them |
| `HolderAccept.HolderState.FanOut` | agent_api_rest/src/holder/holder/offers/accept.rs:48-69 | The loop adds the credentials in order under fresh ids, up to the first that is not stored, also with other requests in between |
| `HolderAccept.GrownExactly` | agent_holder/src/credential/queries/all_credentials.rs:13-23 | Conservation: as many new entries as credentials, each with its own id and the id of the offer, in order; all other entries unchanged |
| `HolderAccept.AddedTagged` | agent_holder/src/credential/queries/mod.rs:20-28 | The event of an added credential leaves exactly such an entry |
| `HolderAccept.HolderState.AcceptAndRequest` | agent_api_rest/src/holder/holder/offers/accept.rs:19-51 | The credentials it goes on with are those of a response on record; alone, what the two commands put on record in each outcome |
| `HolderAccept.HolderState.CommandOffer` | agent_store/src/in_memory.rs:212-221 | A command commits its batch and dispatches it; both views still show exactly the logs |
| `HolderAccept.HolderState.AddCredential` | agent_store/src/in_memory.rs:203-211 | One event, seen in both views under the credential's id with the offer's, or nothing at all |
| `HolderAccept.HolderState.constructor` | agent_store/src/in_memory.rs:185-231 | Four empty repositories, wired to their queries |
| `HolderAccept.ShowBatch` | agent_holder/src/offer/queries/all_offers.rs:13-23 | A dispatched batch keeps both views equal to the logs, for every id |
| `EventPublisher.Dispatch` | agent_event_publisher_http/src/lib.rs:221-246 | Posts the events at an ascending list of positions that holds exactly the positions of wanted events: each once, and in order |
| `EventPublisher.ReceivedOffersPostedExactly` | agent_holder/src/offer/event.rs:39-46 | A configuration is served exactly unless it names `TokenResponseReceived` and one is emitted; that one event goes by another type, all others by their names |
| `EventPublisher.ServerConfigPostedExactly` | agent_issuance/src/server_config/event.rs:23-31 | Likewise for `ServerMetadataInitialized` |

## Left out

- The event-sourcing library (`cqrs_es`) is not part of this model. Assumed of it: one command on one aggregate loads, handles and
  appends atomically; queries are dispatched in the order they were appended, before the command returns; its generic query
  loads a view once, applies the batch and stores it once.
- Random identifiers and random strings are assumed fresh: every step draws strings not used before. Everything else the code
  does not choose (configuration read at a step, proof validation, builders, JWT encoder, wallet answers, the clock) is any value.
- Cryptography, DID resolution, key storage, and the credential and metadata builders are uninterpreted.
- URL encoding of an offer is taken as the offer itself, and the token response keeps only its access token and nonce.
- The Postgres repository and its version check; the modelled repository is the in-memory one, whose queries never fail.
- A request body that does not parse: the handlers answer 400 before doing anything, and the model starts after that.
- The offer id and credential id that issuer events repeat are dropped, since the handlers always pass the aggregate's own id.
- The handlers of the issuer endpoints `send` and the list endpoints, and of the holder's `reject` and `offers` receipt endpoint; the
  aggregate commands behind them are part of the model.
- The verification crate.
- The partition of publishers into seven lists, the `take` accessors, and HTTP delivery.
- The keys of a hash map are kept as a set where the code collects them in no particular order.
- HolderAccept.HolderState.Accept: between its commands others may do anything, but each command, its own or another's, is one step
  with its dispatch; the loads and stores inside concurrent dispatches are the subject of `SharedViews` and `ListAllSchedules`.
- HolderAccept.HolderState.Others: its contract is the interference (any commands of other requests); its own body issues none.
- IssuerHandlers.IssuanceState.Others: its contract is the interference (any steps of other requests); its own body takes none.
- IssuerAtomic.ListAllAgreement: for uninterrupted dispatches only. For credentials the exact condition is
  `AllCredentials.AgreeExactlyWhenRaceFree`. For offers it is false even when every single load and store is undivided
  (`ListDisagreement.ListDisagrees`); `AllOffers.AgreeExactly` says when it holds, and `OfferOrder.BothFollowLog` gives a condition
  for each offer that does not ask anything of other offers' dispatches but to leave the list between load and store.
- IssuerCredential.SignsExactly: what the value is over is stated for a subject in which no key is repeated, as in every
  `serde_json::Map`; so are the results that follow from it.
- IssuerTheorems.TokenRoundTrip: about the token responses given; which requests are given one is `TokenAnswers.TokenAnswered`.
- IssuerTheorems.SignsForVerifiedSubject: any subject verified so far, because a request can sign for one that is not the latest
  (`Polls.StalePoll`); the exact condition is `Polls.RecentExactly`.
- SerialRuns.SerialCreatesOnce: for requests one after the other; what holds of all runs is in `Creations`.
- OfferOrder.PollSeesLatest: for ordered dispatches into the one offer; without order it can fail for the subject
  (`Polls.StalePoll`) and for the ids (`Polls.StaleIds`), and the exact condition is `Polls.RecentExactly`.
- AllCredentials.AgreeExactlyWhenRaceFree: one direction asks that no signature on record is null, because a null signature shows in
  no view, so losing it cannot show either.
- AllOffers.AgreeExactly: for runs without races for the offer's view and for the list; with a race an event can be missing from one of
  them, which need not show, because later events overwrite what earlier ones wrote. `AllOffers.RightExactly` covers races.
- Aggregates and views are values, as the code serialises them between steps; the in-place `apply` and `update` of the code are their
  step functions.
