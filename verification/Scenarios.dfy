/** States that do come about, to show that what the theorems leave open can happen. */
module Scenarios {
  import opened Wrappers
  import opened Json
  import opened EventSourcing
  import opened IssuerMachine
  import opened Continuations
  import opened Creations
  import SC = ServerConfig
  import O = IssuerOffer
  import C = IssuerCredential

  /** An offer that has been created and dispatched, and nothing else; its code and its token are the same random string. */
  ghost predicate Offered(s: State, offerId: string, draw: string) {
    && Leads(INITIAL, s)
    && s.processes == map[0 := Process(OffersEncode(offerId), Idle)]
    && |OfferLog(s.memory, offerId)| == 1
    && OfferLog(s.memory, offerId)[0].CredentialOfferCreated?
    && OfferLog(s.memory, offerId)[0].preAuthorizedCode == draw == OfferLog(s.memory, offerId)[0].accessToken
    && offerId in s.memory.offers && s.memory.offers[offerId] == O.Update(O.EMPTY_VIEW, OfferLog(s.memory, offerId)[0])
    && draw in s.memory.codes && s.memory.codes[draw] == offerId
    && draw in s.memory.tokens && s.memory.tokens[draw] == offerId
    && s.memory.credentialLogs == map[] && s.memory.credentials == map[]
  }

  lemma CanDispatchCreation(s: State, pid: nat, pc: Pc, id: string, event: O.OfferEvent) returns (t: State)
    requires pid in s.processes && s.processes[pid] == Process(pc, OfferDispatch(id, event, LoadView)) && event.CredentialOfferCreated?
    ensures Becomes(s, t, s.memory.(offers := UpdateEntry(O.Update, O.EMPTY_VIEW, s.memory.offers, id, event),
                                    allOffers := UpdateEntry(O.Update, O.EMPTY_VIEW, s.memory.allOffers, id, event),
                                    codes := s.memory.codes[event.preAuthorizedCode := id],
                                    tokens := s.memory.tokens[event.accessToken := id]),
                    pid, Process(pc, Idle))
  {
    var u1 := CanStoreView(s, pid, pc, id, event);
    var u2 := CanStoreAll(u1, pid, pc, id, event);
    LeadsOn(s, u1, u2);
    var u3 := CanStoreCode(u2, pid, pc, id, event);
    LeadsOn(s, u2, u3);
    t := CanStoreToken(u3, pid, pc, id, event);
    LeadsOn(s, u3, t);
    assert t.processes == s.processes[pid := Process(pc, Idle)];
  }

  lemma CanCommitCreation(s: State, pid: nat, offerId: string, metadata: SC.Metadata) returns (t: State, event: O.OfferEvent)
    requires pid in s.processes && s.processes[pid] == Process(OffersCreate(offerId, metadata), Idle)
    ensures event.CredentialOfferCreated? && event.preAuthorizedCode == event.accessToken
    ensures Becomes(s, t, s.memory.(offerLogs := s.memory.offerLogs[offerId := OfferLog(s.memory, offerId) + [event]]),
                    pid, Process(OffersEncode(offerId), OfferDispatch(offerId, event, LoadView)))
  {
    var w;
    t, w := CanMove(s, pid, AnyOutside());
    var offer := O.CredentialOffer(metadata.credentialIssuer, metadata.configurations.Keys, w.uuid);
    event := O.CredentialOfferCreated(offer, w.uuid, w.uuid);
    assert Act(s.memory, s.processes[pid], w)
        == Action(AppendOffer(offerId, event), Process(OffersEncode(offerId), OfferDispatch(offerId, event, LoadView)));
  }

  lemma OfferUp(offerId: string, metadata: SC.Metadata) returns (s: State, draw: string)
    ensures Offered(s, offerId, draw)
  {
    var s0 := Exec(INITIAL, Arrive(0, PostOffers(offerId)));
    LeadsOneStep(INITIAL, Arrive(0, PostOffers(offerId)));
    assert s0.memory == EMPTY_MEMORY && s0.processes == map[0 := Process(OffersStart(offerId), Idle)];
    var s1 := CanFindNothing(s0, 0, offerId, metadata);
    LeadsOn(INITIAL, s0, s1);
    var s2, event := CanCommitCreation(s1, 0, offerId, metadata);
    LeadsOn(INITIAL, s1, s2);
    s := CanDispatchCreation(s2, 0, OffersEncode(offerId), offerId, event);
    LeadsOn(INITIAL, s2, s);
    draw := event.accessToken;
    assert OfferLog(s.memory, offerId) == [event];
    assert s.processes == map[0 := Process(OffersEncode(offerId), Idle)];
  }

  // ----- binding a credential -----

  const CONFIGURED := SC.Metadata("", map["any" := C.EMPTY_CONFIGURATION])

  /** A new `credentials` request that hands in a signed credential gets as far as having put it on record. */
  lemma CanHandIn(s: State, pid: nat, offerId: string, credential: Json) returns (t: State, id: string)
    requires pid !in s.processes && credential.Object?
    ensures id !in s.memory.drawn
    ensures Becomes(s, t, s.memory.(credentialLogs := s.memory.credentialLogs[id := CredentialLog(s.memory, id) + [C.SignedCredentialCreated(credential)]]),
                    pid, Process(CredentialsMetadata(offerId, id), CredentialDispatch(id, C.SignedCredentialCreated(credential), LoadCredential)))
  {
    var arrive := Arrive(pid, PostCredentials(offerId, credential, true, "any"));
    var s1 := Exec(s, arrive);
    LeadsOneStep(s, arrive);
    assert s1.memory == s.memory && s1.processes[pid] == Process(CredentialsStart(offerId, credential, true, "any"), Idle);
    var s2, w := CanMove(s1, pid, AnyOutside().(metadata := Some(CONFIGURED)));
    id := w.uuid;
    LeadsOn(s, s1, s2);
    assert s2.processes[pid] == Process(CredentialsCreate(offerId, id, C.CreateSignedCredential(credential)), Idle);
    t, w := CanMove(s2, pid, AnyOutside());
    LeadsOn(s, s2, t);
    assert t.processes == s.processes[pid := t.processes[pid]];
  }

  lemma CanLookUp(s: State, pid: nat, offerId: string, id: string) returns (t: State)
    requires pid in s.processes && s.processes[pid] == Process(CredentialsMetadata(offerId, id), Idle) && offerId in s.memory.offers
    ensures Becomes(s, t, s.memory, pid, Process(CredentialsAdd(offerId, id), Idle))
  {
    var looking := Process(CredentialsLookup(offerId, id, CONFIGURED), Idle);
    var u, w := CanMove(s, pid, AnyOutside().(metadata := Some(CONFIGURED)));
    assert Becomes(s, u, s.memory, pid, looking);
    t, w := CanMove(u, pid, AnyOutside());
    assert Becomes(u, t, s.memory, pid, Process(CredentialsAdd(offerId, id), Idle));
    BecomesOn(s, u, s.memory, pid, looking, t, s.memory, Process(CredentialsAdd(offerId, id), Idle));
  }

  lemma CanAdd(s: State, pid: nat, offerId: string, id: string) returns (t: State)
    requires pid in s.processes && s.processes[pid] == Process(CredentialsAdd(offerId, id), Idle)
    ensures var event := O.CredentialsAdded([id]);
            Becomes(s, t, s.memory.(offerLogs := s.memory.offerLogs[offerId := OfferLog(s.memory, offerId) + [event]],
                                    offers := UpdateEntry(O.Update, O.EMPTY_VIEW, s.memory.offers, offerId, event)),
                    pid, Process(CredentialsReply(id), OfferDispatch(offerId, event, LoadAll)))
  {
    var event := O.CredentialsAdded([id]);
    var u, w := CanMove(s, pid, AnyOutside());
    assert u.processes[pid] == Process(CredentialsReply(id), OfferDispatch(offerId, event, LoadView));
    t := CanStoreView(u, pid, CredentialsReply(id), offerId, event);
    LeadsOn(s, u, t);
    assert t.processes == s.processes[pid := t.processes[pid]];
  }

  /** What a new request that hands in a signed credential leaves behind: the credential signed in its view, and bound to the
      offer as its latest list. */
  ghost predicate HandedIn(s: State, t: State, pid: nat, offerId: string, id: string, credential: Json) {
    var added, created := O.CredentialsAdded([id]), C.SignedCredentialCreated(credential);
    && Leads(s, t)
    && t.processes == s.processes[pid := Process(CredentialsReply(id), OfferDispatch(offerId, added, LoadAll))]
    && t.memory.offerLogs == s.memory.offerLogs[offerId := OfferLog(s.memory, offerId) + [added]]
    && t.memory.offers == UpdateEntry(O.Update, O.EMPTY_VIEW, s.memory.offers, offerId, added)
    && t.memory.credentialLogs == s.memory.credentialLogs[id := CredentialLog(s.memory, id) + [created]]
    && t.memory.credentials == UpdateEntry(C.Store, C.EMPTY_VIEW, s.memory.credentials, id, created)
    && t.memory.tokens == s.memory.tokens
  }

  lemma CanRecord(s: State, pid: nat, offerId: string, credential: Json) returns (t: State, id: string)
    requires pid !in s.processes && credential.Object?
    ensures id !in s.memory.drawn && Leads(s, t)
    ensures var created := C.SignedCredentialCreated(credential);
            && t.processes == s.processes[pid := Process(CredentialsMetadata(offerId, id), Idle)]
            && t.memory.credentialLogs == s.memory.credentialLogs[id := CredentialLog(s.memory, id) + [created]]
            && t.memory.credentials == UpdateEntry(C.Store, C.EMPTY_VIEW, s.memory.credentials, id, created)
            && t.memory.offerLogs == s.memory.offerLogs && t.memory.offers == s.memory.offers && t.memory.tokens == s.memory.tokens
  {
    var u, v;
    u, id := CanHandIn(s, pid, offerId, credential);
    v := CanStoreCredential(u, pid, CredentialsMetadata(offerId, id), id, C.SignedCredentialCreated(credential));
    t := CanStoreAllCredentials(v, pid, CredentialsMetadata(offerId, id), id, C.SignedCredentialCreated(credential));
    LeadsOn(s, u, v);
    LeadsOn(s, v, t);
    assert t.processes == s.processes[pid := t.processes[pid]];
  }

  lemma CanBind(s: State, pid: nat, offerId: string, credential: Json) returns (t: State, id: string)
    requires pid !in s.processes && credential.Object? && offerId in s.memory.offers
    ensures id !in s.memory.drawn && HandedIn(s, t, pid, offerId, id, credential)
  {
    var u, v;
    u, id := CanRecord(s, pid, offerId, credential);
    v := CanLookUp(u, pid, offerId, id);
    t := CanAdd(v, pid, offerId, id);
    LeadsOn(s, u, v);
    LeadsOn(s, v, t);
    assert t.processes == s.processes[pid := t.processes[pid]];
  }

  // ----- verifying a proof -----

  lemma CanEnter(s: State, pid: nat, bearer: string, offerId: string) returns (t: State)
    requires pid !in s.processes && bearer in s.memory.tokens && s.memory.tokens[bearer] == offerId
    ensures Becomes(s, t, s.memory, pid, Process(RequestMetadata(bearer, offerId), Idle))
  {
    var arrive := Arrive(pid, PostCredential(bearer));
    var u, w := Exec(s, arrive), AnyOutside();
    LeadsOneStep(s, arrive);
    assert u == State(s.memory, s.processes[pid := Process(RequestStart(bearer), Idle)]);
    t, w := CanMove(u, pid, AnyOutside());
    LeadsOn(s, u, t);
    assert t.processes == s.processes[pid := t.processes[pid]];
  }

  /** A new credential request is about to have its proof verified. */
  lemma CanAsk(s: State, pid: nat, bearer: string, offerId: string) returns (t: State)
    requires pid !in s.processes && bearer in s.memory.tokens && s.memory.tokens[bearer] == offerId
    ensures Becomes(s, t, s.memory, pid, Process(RequestVerify(bearer, offerId), Idle))
  {
    var u, w;
    u := CanEnter(s, pid, bearer, offerId);
    t, w := CanMove(u, pid, AnyOutside().(metadata := Some(CONFIGURED)));
    assert Becomes(u, t, s.memory, pid, Process(RequestVerify(bearer, offerId), Idle));
    BecomesOn(s, u, s.memory, pid, Process(RequestMetadata(bearer, offerId), Idle), t, s.memory, Process(RequestVerify(bearer, offerId), Idle));
  }

  /** A new credential request whose proof names `subjectId` has put its verification on record. */
  lemma CanVerify(s: State, pid: nat, bearer: string, offerId: string, subjectId: string) returns (t: State)
    requires pid !in s.processes && bearer in s.memory.tokens && s.memory.tokens[bearer] == offerId
    ensures var event := O.CredentialRequestVerified(subjectId);
            Becomes(s, t, s.memory.(offerLogs := s.memory.offerLogs[offerId := OfferLog(s.memory, offerId) + [event]]),
                    pid, Process(RequestPoll(bearer, offerId), OfferDispatch(offerId, event, LoadView)))
  {
    var u, w;
    u := CanAsk(s, pid, bearer, offerId);
    t, w := CanMove(u, pid, AnyOutside().(offer := AnyOutside().offer.(proof := Success(subjectId))));
    LeadsOn(s, u, t);
    assert t.processes == s.processes[pid := t.processes[pid]];
  }
}
