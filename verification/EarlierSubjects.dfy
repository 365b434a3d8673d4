/**
 Whom the returned value was signed for. A credential that is signed is returned as it is, so a request may be answered with
 a value signed for the subject of an earlier one, and may be so answered although its own proof is refused. `IssuerApi`
 says exactly when (`CredentialAlone`); here is the run.
 */
module EarlierSubjects {
  import opened Wrappers
  import opened Json
  import opened EventSourcing
  import opened IssuerMachine
  import opened IssuerTheorems
  import opened Continuations
  import opened Scenarios
  import SC = ServerConfig
  import O = IssuerOffer
  import C = IssuerCredential

  // ----- a request is answered with a signature that is there -----

  /** The offer has one credential, and its signature is in the view. */
  ghost predicate HasSigned(m: Memory, offerId: string, id: string, value: Json) {
    && offerId in m.offers && m.offers[offerId].credentialIds == [id] && m.offers[offerId].subjectId.Some?
    && id in m.credentials && m.credentials[id].signed == Some(value)
    && C.Aggregate(CredentialLog(m, id)).signed.Some?
  }

  lemma CanReSign(s: State, pid: nat, bearer: string, offerId: string, subjectId: string, id: string) returns (t: State)
    requires pid in s.processes && s.processes[pid] == Process(RequestSign(bearer, offerId, subjectId, [id], []), Idle)
    requires C.Aggregate(CredentialLog(s.memory, id)).signed.Some?
    ensures Becomes(s, t, s.memory, pid, Process(RequestRead(bearer, offerId, subjectId, [id], []), Idle))
  {
    var w;
    t, w := CanMove(s, pid, AnyOutside());
    C.SignTwice(C.Aggregate(CredentialLog(s.memory, id)), subjectId, false, w.credential);
  }

  lemma CanFindSubject(s: State, pid: nat, bearer: string, offerId: string, id: string, value: Json) returns (t: State, subjectId: string)
    requires pid in s.processes && s.processes[pid] == Process(RequestPoll(bearer, offerId), Idle)
    requires HasSigned(s.memory, offerId, id, value)
    ensures Becomes(s, t, s.memory, pid, Process(RequestSign(bearer, offerId, subjectId, [id], []), Idle))
  {
    subjectId := s.memory.offers[offerId].subjectId.value;
    var w;
    t, w := CanMove(s, pid, AnyOutside());
  }

  lemma CanCollect(s: State, pid: nat, bearer: string, offerId: string, subjectId: string, id: string, value: Json) returns (t: State)
    requires pid in s.processes && s.processes[pid] == Process(RequestRead(bearer, offerId, subjectId, [id], []), Idle)
    requires id in s.memory.credentials && s.memory.credentials[id].signed == Some(value)
    ensures Becomes(s, t, s.memory, pid, Process(RequestRespond(bearer, offerId, subjectId, [id], [value]), Idle))
  {
    var w;
    t, w := CanMove(s, pid, AnyOutside());
    assert [] + [value] == [value];
  }

  lemma CanRead(s: State, pid: nat, bearer: string, offerId: string, id: string, value: Json) returns (t: State, subjectId: string)
    requires pid in s.processes && s.processes[pid] == Process(RequestPoll(bearer, offerId), Idle)
    requires HasSigned(s.memory, offerId, id, value)
    ensures Becomes(s, t, s.memory, pid, Process(RequestRespond(bearer, offerId, subjectId, [id], [value]), Idle))
  {
    var u, v;
    u, subjectId := CanFindSubject(s, pid, bearer, offerId, id, value);
    assert CredentialLog(u.memory, id) == CredentialLog(s.memory, id);
    v := CanReSign(u, pid, bearer, offerId, subjectId, id);
    t := CanCollect(v, pid, bearer, offerId, subjectId, id, value);
    LeadsOn(s, u, v);
    LeadsOn(s, v, t);
    assert t.processes == s.processes[pid := t.processes[pid]];
  }

  lemma CanCommitResponse(s: State, pid: nat, bearer: string, offerId: string, subjectId: string, id: string, value: Json) returns (t: State)
    requires pid in s.processes && s.processes[pid] == Process(RequestRespond(bearer, offerId, subjectId, [id], [value]), Idle)
    ensures Leads(s, t) && pid in t.processes
    ensures t.processes[pid] == Process(RequestReply(bearer, offerId),
                                        OfferDispatch(offerId, O.CredentialResponseCreated(O.CredentialResponse(value)), LoadView))
  {
    var w;
    t, w := CanMove(s, pid, AnyOutside());
  }

  lemma CanRespond(s: State, pid: nat, bearer: string, offerId: string, subjectId: string, id: string, value: Json) returns (t: State)
    requires pid in s.processes && s.processes[pid] == Process(RequestRespond(bearer, offerId, subjectId, [id], [value]), Idle)
    ensures Leads(s, t) && pid in t.processes && t.processes[pid].pc == RequestReply(bearer, offerId) && !HoldsView(t.processes[pid])
    ensures offerId in t.memory.offers && t.memory.offers[offerId].credentialResponse == Some(O.CredentialResponse(value))
  {
    var u := CanCommitResponse(s, pid, bearer, offerId, subjectId, id, value);
    t := CanStoreView(u, pid, RequestReply(bearer, offerId), offerId, O.CredentialResponseCreated(O.CredentialResponse(value)));
    LeadsOn(s, u, t);
  }

  lemma CanReply(s: State, pid: nat, bearer: string, offerId: string, subjectId: string, id: string, value: Json) returns (t: State)
    requires pid in s.processes && s.processes[pid] == Process(RequestRespond(bearer, offerId, subjectId, [id], [value]), Idle)
    ensures Leads(s, t) && Answered(t, pid, CredentialGiven(bearer, offerId, O.CredentialResponse(value)))
  {
    var u := CanRespond(s, pid, bearer, offerId, subjectId, id, value);
    var v := CanFinish(u, pid);
    LeadsOn(s, u, v);
    var w;
    t, w := CanMove(v, pid, AnyOutside());
    LeadsOn(s, v, t);
  }

  /** Whatever becomes of its proof, the request is answered with that signature. */
  lemma CanBeAnswered(s: State, pid: nat, w: Outside, bearer: string, offerId: string, id: string, value: Json) returns (t: State)
    requires pid in s.processes && s.processes[pid] == Process(RequestVerify(bearer, offerId), Idle) && Draws(w) !! s.memory.drawn
    requires HasSigned(s.memory, offerId, id, value)
    ensures Leads(MoveTo(s, pid, w), t) && Answered(t, pid, CredentialGiven(bearer, offerId, O.CredentialResponse(value)))
  {
    var s1 := MoveTo(s, pid, w);
    var s2 := s1;
    LeadsNowhere(s1);
    if w.offer.proof.Success? {
      var event := O.CredentialRequestVerified(w.offer.proof.value);
      assert s1.processes[pid] == Process(RequestPoll(bearer, offerId), OfferDispatch(offerId, event, LoadView));
      var u := CanStoreView(s1, pid, RequestPoll(bearer, offerId), offerId, event);
      s2 := CanPoll(u, pid);
      LeadsOn(s1, u, s2);
    }
    assert s2.processes[pid] == Process(RequestPoll(bearer, offerId), Idle) && HasSigned(s2.memory, offerId, id, value);
    var s3, subjectId := CanRead(s2, pid, bearer, offerId, id, value);
    LeadsOn(s1, s2, s3);
    t := CanReply(s3, pid, bearer, offerId, subjectId, id, value);
    LeadsOn(s1, s3, t);
  }

  /** The rest of the dispatch of a verification. */
  lemma CanPoll(s: State, pid: nat) returns (t: State)
    requires pid in s.processes && s.processes[pid].pending.OfferDispatch? && s.processes[pid].pending.stage.LoadAll?
    requires s.processes[pid].pending.event.CredentialRequestVerified?
    ensures Leads(s, t) && t.processes == s.processes[pid := Process(s.processes[pid].pc, Idle)]
    ensures t.memory.offers == s.memory.offers && t.memory.credentials == s.memory.credentials
    ensures t.memory.credentialLogs == s.memory.credentialLogs && t.memory.tokens == s.memory.tokens
  {
    var p := s.processes[pid];
    var u, v, w;
    u := CanStoreAll(s, pid, p.pc, p.pending.id, p.pending.event);
    v, w := CanMove(u, pid, AnyOutside());
    LeadsOn(s, u, v);
    assert v.processes[pid] == Process(p.pc, OfferDispatch(p.pending.id, p.pending.event, LoadToken));
    t, w := CanMove(v, pid, AnyOutside());
    LeadsOn(s, v, t);
    assert t.processes == s.processes[pid := Process(p.pc, Idle)];
  }

  // ----- a credential signed for an earlier subject -----

  const CONFIGURATION := SC.Configuration(SC.JwtVcJson(["VerifiableCredential"]), None)

  /** An unsigned credential, and what it looks like with its type written. */
  const BUILT := Object([("credentialSubject", Object([]))])
  const TYPED := Object([("credentialSubject", Object([])), ("type", Array([Str("VerifiableCredential")]))])

  /** A builder that builds that credential, and an encoder that puts the subject into the signed value. */
  function Signer(): Outside {
    AnyOutside().(metadata := Some(SC.Metadata("", map["any" := CONFIGURATION])),
                  credential := C.CredentialServices("", _ => Some(BUILT), (_, _, _) => None, (_, subjectId) => Str(subjectId)))
  }

  const UNSIGNED := C.UnsignedCredentialCreated(C.Data(TYPED), CONFIGURATION)

  lemma TypeWritten()
    ensures SetField(BUILT, "type", Array([Str("VerifiableCredential")])) == Some(TYPED)
    ensures Get(BUILT, "credentialSubject") == Some(Object([])) == Get(TYPED, "credentialSubject")
  {
    var types := Array([Str("VerifiableCredential")]);
    InsertKeys(BUILT.fields, "type", types);
    assert Keys(BUILT.fields) == ["credentialSubject"] && |"type"| != |"credentialSubject"|;
    assert Insert(BUILT.fields, "type", types) == BUILT.fields + [("type", types)] == TYPED.fields;
  }

  lemma UnsignedBuilt(services: C.CredentialServices)
    requires services.buildVerifiableCredential(Object([])) == Some(BUILT)
    ensures C.Build("VerifiableCredential", Object([]), CONFIGURATION, services) == Success([UNSIGNED])
  {
    var types := CONFIGURATION.format.types;
    assert seq(|types|, i requires 0 <= i < |types| => Str(types[i])) == [Str("VerifiableCredential")];
    TypeWritten();
  }

  lemma UnsignedCreated(self: C.Credential, services: C.CredentialServices)
    requires services.buildVerifiableCredential(Object([])) == Some(BUILT)
    ensures C.Handle(self, C.CreateUnsignedCredential(C.Data(BUILT), CONFIGURATION), services) == Success([UNSIGNED])
  {
    UnsignedBuilt(services);
    TypeWritten();
    var types := ["VerifiableCredential"];
    assert C.LastSupported(types) == Some(0);
    assert C.Create(C.Data(BUILT), CONFIGURATION, services) == C.Build(types[0], Object([]), CONFIGURATION, services);
  }

  lemma CanStartUnsigned(s: State, pid: nat, offerId: string) returns (t: State, id: string)
    requires pid !in s.processes
    ensures Becomes(s, t, s.memory, pid, Process(CredentialsCreate(offerId, id, C.CreateUnsignedCredential(C.Data(BUILT), CONFIGURATION)), Idle))
  {
    var arrive := Arrive(pid, PostCredentials(offerId, BUILT, false, "any"));
    var u := Exec(s, arrive);
    LeadsOneStep(s, arrive);
    assert u == State(s.memory, s.processes[pid := Process(CredentialsStart(offerId, BUILT, false, "any"), Idle)]);
    var w;
    t, w := CanMove(u, pid, Signer());
    id := w.uuid;
    LeadsOn(s, u, t);
    assert t.processes == s.processes[pid := t.processes[pid]];
  }

  lemma CanCreateUnsigned(s: State, pid: nat, offerId: string) returns (t: State, id: string)
    requires pid !in s.processes && s.memory.credentialLogs == map[]
    ensures Becomes(s, t, s.memory.(credentialLogs := map[id := [UNSIGNED]]), pid,
                    Process(CredentialsMetadata(offerId, id), CredentialDispatch(id, UNSIGNED, LoadCredential)))
  {
    var u, w;
    u, id := CanStartUnsigned(s, pid, offerId);
    t, w := CanMove(u, pid, Signer());
    LeadsOn(s, u, t);
    UnsignedCreated(C.Aggregate(CredentialLog(u.memory, id)), w.credential);
    assert CredentialLog(u.memory, id) == [] && [] + [UNSIGNED] == [UNSIGNED];
    assert u.memory.credentialLogs[id := [UNSIGNED]] == map[id := [UNSIGNED]];
    assert t.processes == s.processes[pid := t.processes[pid]];
  }

  ghost predicate Bare(s: State, offerId: string, bearer: string, id: string) {
    && Leads(INITIAL, s) && s.processes.Keys == {0, 1}
    && offerId in s.memory.offers && s.memory.offers[offerId].credentialIds == [id]
    && bearer in s.memory.tokens && s.memory.tokens[bearer] == offerId
    && CredentialLog(s.memory, id) == [UNSIGNED]
  }

  /** An offer with one credential, not signed yet. */
  lemma CanOfferUnsigned(offerId: string, metadata: SC.Metadata) returns (t: State, bearer: string, id: string)
    ensures Bare(t, offerId, bearer, id)
  {
    var s0, s1;
    s0, bearer := OfferUp(offerId, metadata);
    s1, id := CanCreateUnsigned(s0, 1, offerId);
    LeadsOn(INITIAL, s0, s1);
    var s2 := CanStoreCredential(s1, 1, CredentialsMetadata(offerId, id), id, UNSIGNED);
    LeadsOn(INITIAL, s1, s2);
    var s3 := CanStoreAllCredentials(s2, 1, CredentialsMetadata(offerId, id), id, UNSIGNED);
    LeadsOn(INITIAL, s2, s3);
    var s4 := CanLookUp(s3, 1, offerId, id);
    LeadsOn(INITIAL, s3, s4);
    t := CanAdd(s4, 1, offerId, id);
    LeadsOn(INITIAL, s4, t);
    assert CredentialLog(t.memory, id) == CredentialLog(s1.memory, id);
  }

  lemma FirstSigns(m: Memory, id: string, services: C.CredentialServices)
    requires CredentialLog(m, id) == [UNSIGNED] && services.issuerDid == "" && forall payload :: services.encode(payload, "first") == Str("first")
    ensures C.Handle(C.Aggregate(CredentialLog(m, id)), C.SignCredential("first", false), services)
         == Success([C.CredentialSigned(Str("first"))])
  {
    ReplaySnoc(C.Apply, C.EMPTY_CREDENTIAL, [], UNSIGNED);
    assert [] + [UNSIGNED] == [UNSIGNED];
    assert C.Aggregate([UNSIGNED]) == C.Credential(Some(C.Data(TYPED)), CONFIGURATION, None);
    TypeWritten();
    C.PanicsExactly(C.Data(TYPED), "first", "");
  }

  /** Request 2 has verified the subject "first" and is about to sign for it. */
  lemma CanStartSigning(s: State, bearer: string, offerId: string, id: string) returns (t: State)
    requires Bare(s, offerId, bearer, id)
    ensures Leads(INITIAL, t) && t.processes.Keys == {0, 1, 2}
    ensures t.processes[2] == Process(RequestSign(bearer, offerId, "first", [id], []), Idle)
    ensures offerId in t.memory.offers && t.memory.offers[offerId].credentialIds == [id] && t.memory.offers[offerId].subjectId == Some("first")
    ensures bearer in t.memory.tokens && t.memory.tokens[bearer] == offerId && CredentialLog(t.memory, id) == [UNSIGNED]
  {
    var event := O.CredentialRequestVerified("first");
    var s1 := CanVerify(s, 2, bearer, offerId, "first");
    LeadsOn(INITIAL, s, s1);
    var s2 := CanStoreView(s1, 2, RequestPoll(bearer, offerId), offerId, event);
    LeadsOn(INITIAL, s1, s2);
    var s3 := CanPoll(s2, 2);
    LeadsOn(INITIAL, s2, s3);
    var w;
    t, w := CanMove(s3, 2, AnyOutside());
    LeadsOn(INITIAL, s3, t);
  }

  /** The signing of the credential for "first", up to its commit. */
  lemma CanSignFirst(s: State, bearer: string, offerId: string, id: string) returns (t: State)
    requires 2 in s.processes && s.processes[2] == Process(RequestSign(bearer, offerId, "first", [id], []), Idle)
    requires CredentialLog(s.memory, id) == [UNSIGNED]
    ensures var event := C.CredentialSigned(Str("first"));
            Becomes(s, t, s.memory.(credentialLogs := s.memory.credentialLogs[id := [UNSIGNED, event]]), 2,
                    Process(RequestRead(bearer, offerId, "first", [id], []), CredentialDispatch(id, event, LoadCredential)))
  {
    var w;
    t, w := CanMove(s, 2, Signer());
    FirstSigns(s.memory, id, w.credential);
    assert [UNSIGNED] + [C.CredentialSigned(Str("first"))] == [UNSIGNED, C.CredentialSigned(Str("first"))];
  }

  lemma FirstIsSigned()
    ensures C.Aggregate([UNSIGNED, C.CredentialSigned(Str("first"))]).signed == Some(Str("first"))
  {
    ReplaySnoc(C.Apply, C.EMPTY_CREDENTIAL, [UNSIGNED], C.CredentialSigned(Str("first")));
    assert [UNSIGNED] + [C.CredentialSigned(Str("first"))] == [UNSIGNED, C.CredentialSigned(Str("first"))];
  }

  /** The credential is signed for "first", and the signature is in the view. */
  lemma CanBeSigned(offerId: string, metadata: SC.Metadata) returns (t: State, bearer: string, id: string)
    ensures Leads(INITIAL, t) && t.processes.Keys == {0, 1, 2} && HasSigned(t.memory, offerId, id, Str("first"))
    ensures bearer in t.memory.tokens && t.memory.tokens[bearer] == offerId
  {
    var s0;
    s0, bearer, id := CanOfferUnsigned(offerId, metadata);
    var s1 := CanStartSigning(s0, bearer, offerId, id);
    var s2 := CanSignFirst(s1, bearer, offerId, id);
    LeadsOn(INITIAL, s1, s2);
    t := CanStoreCredential(s2, 2, RequestRead(bearer, offerId, "first", [id], []), id, C.CredentialSigned(Str("first")));
    LeadsOn(INITIAL, s2, t);
    assert t.processes.Keys == s1.processes.Keys;
    FirstIsSigned();
  }

  /** A run, for any outcome of a later request's own proof, refused or naming whomever: the request verifies after `before`
      in the surroundings `w`, and is answered with the value signed for the subject "first" of an earlier one. */
  lemma AnsweredForEarlier(offerId: string, metadata: SC.Metadata, proof: Result<string, O.OfferError>)
    returns (before: seq<Step>, w: Outside, after: seq<Step>, bearer: string)
    ensures 3 in Run(before).processes && Run(before).processes[3] == Process(RequestVerify(bearer, offerId), Idle)
    ensures Enabled(Run(before), Move(3, w)) && w.offer.proof == proof
    ensures Answered(Run(before + [Move(3, w)] + after), 3, CredentialGiven(bearer, offerId, O.CredentialResponse(Str("first"))))
  {
    var s0, id;
    s0, bearer, id := CanBeSigned(offerId, metadata);
    var s1 := CanAsk(s0, 3, bearer, offerId);
    LeadsOn(INITIAL, s0, s1);
    assert Run([]) == INITIAL;
    before := ReachableOn([], s1);
    w := Drawing(AnyOutside().(offer := AnyOutside().offer.(proof := proof)), NewString(s1.memory.drawn));
    assert HasSigned(s1.memory, offerId, id, Str("first"));
    var t := CanBeAnswered(s1, 3, w, bearer, offerId, id, Str("first"));
    ReplaySnoc(Exec, INITIAL, before, Move(3, w));
    after :| From(MoveTo(s1, 3, w), after) == t;
    RunOn(before + [Move(3, w)], after);
  }
}
