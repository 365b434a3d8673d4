/** What every reachable state of the issuer satisfies, whatever the interleaving. */
module IssuerInvariant {
  import opened Wrappers
  import opened Json
  import opened EventSourcing
  import opened IssuerMachine
  import O = IssuerOffer
  import C = IssuerCredential

  // ----- facts about the logs; they stay true while logs grow -----

  ghost predicate CodeOf(m: Memory, offerId: string, code: string) {
    exists e :: e in OfferLog(m, offerId) && e.CredentialOfferCreated? && e.preAuthorizedCode == code
  }

  ghost predicate TokenOf(m: Memory, offerId: string, token: string) {
    exists e :: e in OfferLog(m, offerId) && e.CredentialOfferCreated? && e.accessToken == token
  }

  ghost predicate Verified(m: Memory, offerId: string) {
    exists e :: e in OfferLog(m, offerId) && e.CredentialRequestVerified?
  }

  ghost predicate VerifiedAs(m: Memory, offerId: string, subjectId: string) {
    O.CredentialRequestVerified(subjectId) in OfferLog(m, offerId)
  }

  ghost predicate Added(m: Memory, offerId: string, ids: seq<string>) {
    O.CredentialsAdded(ids) in OfferLog(m, offerId)
  }

  ghost predicate Bound(m: Memory, offerId: string, id: string) {
    Added(m, offerId, [id])
  }

  ghost predicate SignedAs(m: Memory, id: string, value: Json) {
    C.SignedCredentialCreated(value) in CredentialLog(m, id) || C.CredentialSigned(value) in CredentialLog(m, id)
  }

  /** `value` is the signed form of a credential bound to the offer. */
  ghost predicate Carries(m: Memory, offerId: string, value: Json) {
    exists id :: Bound(m, offerId, id) && SignedAs(m, id, value)
  }

  ghost predicate Extends(m: Memory, m': Memory) {
    && (forall o, e :: e in OfferLog(m, o) ==> e in OfferLog(m', o))
    && (forall c, e :: e in CredentialLog(m, c) ==> e in CredentialLog(m', c))
  }

  ghost predicate EventOk(m: Memory, offerId: string, event: O.OfferEvent) {
    match event
    case CredentialOfferCreated(offer, code, _) => offer.preAuthorizedCode == code
    case FormUrlEncodedCredentialOfferCreated(form) => form.Some? && CodeOf(m, offerId, form.value.preAuthorizedCode)
    case CredentialsAdded(ids) => |ids| == 1 && CredentialLog(m, ids[0]) != []
    case TokenResponseCreated(response) => TokenOf(m, offerId, response.accessToken)
    case CredentialResponseCreated(response) => Carries(m, offerId, response.credential)
    case _ => true
  }

  /** Every field of an offer view was written by some event of that offer, even when concurrent stores lose updates. */
  ghost predicate ViewOk(m: Memory, offerId: string, view: O.OfferView) {
    && (view.credentialIds == [] || Added(m, offerId, view.credentialIds))
    && (view.subjectId.Some? ==> VerifiedAs(m, offerId, view.subjectId.value))
    && (view.form.Some? ==> O.FormUrlEncodedCredentialOfferCreated(view.form) in OfferLog(m, offerId))
    && (view.tokenResponse.Some? ==> O.TokenResponseCreated(view.tokenResponse.value) in OfferLog(m, offerId))
    && (view.credentialResponse.Some? ==>
          O.CredentialResponseCreated(view.credentialResponse.value) in OfferLog(m, offerId))
  }

  ghost predicate SignedSoFar(m: Memory, ids: seq<string>, signed: seq<Json>) {
    |signed| <= |ids| && forall j :: 0 <= j < |signed| ==> SignedAs(m, ids[j], signed[j])
  }

  ghost predicate PcFacts(m: Memory, pc: Pc) {
    match pc
    case TokenCreate(code, o) => CodeOf(m, o, code)
    case TokenReply(code, o) => CodeOf(m, o, code)
    case RequestMetadata(bearer, o) => TokenOf(m, o, bearer)
    case RequestVerify(bearer, o) => TokenOf(m, o, bearer)
    case RequestPoll(bearer, o) => TokenOf(m, o, bearer)
    case RequestSign(bearer, o, subjectId, ids, signed) =>
      TokenOf(m, o, bearer) && VerifiedAs(m, o, subjectId) && Added(m, o, ids) && SignedSoFar(m, ids, signed)
    case RequestRead(bearer, o, subjectId, ids, signed) =>
      TokenOf(m, o, bearer) && VerifiedAs(m, o, subjectId) && Added(m, o, ids) && SignedSoFar(m, ids, signed)
    case RequestRespond(bearer, o, subjectId, ids, signed) =>
      TokenOf(m, o, bearer) && VerifiedAs(m, o, subjectId) && Added(m, o, ids) && SignedSoFar(m, ids, signed)
      && |signed| == |ids|
    case RequestReply(bearer, o) => TokenOf(m, o, bearer)
    case Done(OfferShown(o, form)) =>
      form.Some? ==> O.FormUrlEncodedCredentialOfferCreated(form) in OfferLog(m, o)
    case Done(TokenGiven(code, o, response)) =>
      CodeOf(m, o, code) && O.TokenResponseCreated(response) in OfferLog(m, o)
    case Done(CredentialGiven(bearer, o, response)) =>
      TokenOf(m, o, bearer) && O.CredentialResponseCreated(response) in OfferLog(m, o)
    case _ => true
  }

  ghost predicate PendingFacts(m: Memory, pending: Pending) {
    match pending
    case OfferDispatch(id, event, stage) =>
      event in OfferLog(m, id) && (stage.StoreView? ==> ViewOk(m, id, stage.view))
    case _ => true
  }

  lemma FactsGrow(m: Memory, m': Memory)
    requires Extends(m, m')
    ensures forall o, code :: CodeOf(m, o, code) ==> CodeOf(m', o, code)
    ensures forall o, token :: TokenOf(m, o, token) ==> TokenOf(m', o, token)
    ensures forall c, v :: SignedAs(m, c, v) ==> SignedAs(m', c, v)
    ensures forall o, v :: Carries(m, o, v) ==> Carries(m', o, v)
    ensures forall c :: CredentialLog(m, c) != [] ==> CredentialLog(m', c) != []
  {
    forall o, code | CodeOf(m, o, code) ensures CodeOf(m', o, code) {
      var e :| e in OfferLog(m, o) && e.CredentialOfferCreated? && e.preAuthorizedCode == code;
      assert e in OfferLog(m', o);
    }
    forall o, token | TokenOf(m, o, token) ensures TokenOf(m', o, token) {
      var e :| e in OfferLog(m, o) && e.CredentialOfferCreated? && e.accessToken == token;
      assert e in OfferLog(m', o);
    }
    forall o, v | Carries(m, o, v) ensures Carries(m', o, v) {
      var c :| Bound(m, o, c) && SignedAs(m, c, v);
      assert Bound(m', o, c) && SignedAs(m', c, v);
    }
    forall c | CredentialLog(m, c) != [] ensures CredentialLog(m', c) != [] {
      assert CredentialLog(m, c)[0] in CredentialLog(m', c);
    }
  }

  lemma ProcessFactsGrow(m: Memory, m': Memory, p: Process)
    requires Extends(m, m') && PcFacts(m, p.pc) && PendingFacts(m, p.pending)
    ensures PcFacts(m', p.pc) && PendingFacts(m', p.pending)
  {
    FactsGrow(m, m');
  }

  // ----- memory -----

  /** A pre-authorized code or an access token belongs to one creation event. */
  ghost predicate UniqueIssue(m: Memory) {
    forall o1, o2, e1, e2 :: e1 in OfferLog(m, o1) && e2 in OfferLog(m, o2)
      && e1.CredentialOfferCreated? && e2.CredentialOfferCreated?
      && (e1.preAuthorizedCode == e2.preAuthorizedCode || e1.accessToken == e2.accessToken)
      ==> o1 == o2 && e1 == e2
  }

  ghost predicate AllDrawn(m: Memory) {
    && (forall o, e :: e in OfferLog(m, o) && e.CredentialOfferCreated? ==>
          e.preAuthorizedCode in m.drawn && e.accessToken in m.drawn)
    && (forall c :: CredentialLog(m, c) != [] ==> c in m.drawn)
  }

  ghost predicate EventsOk(m: Memory) {
    forall o, e :: e in OfferLog(m, o) ==> EventOk(m, o, e)
  }

  /** No response is on record without a verified request before it. */
  ghost predicate VerifiedFirst(log: seq<O.OfferEvent>) {
    forall i :: 0 <= i < |log| && log[i].CredentialResponseCreated? ==>
      exists j :: 0 <= j < i && log[j].CredentialRequestVerified?
  }

  ghost predicate BoundOnce(m: Memory) {
    forall o1, o2, c :: Bound(m, o1, c) && Bound(m, o2, c) ==> o1 == o2
  }

  /** A credential's whole life: created signed, or created unsigned and signed at most once. */
  ghost predicate Shape(log: seq<C.CredentialEvent>) {
    || log == []
    || (|log| == 1 && !log[0].CredentialSigned?)
    || (|log| == 2 && log[0].UnsignedCredentialCreated? && log[1].CredentialSigned?)
  }

  ghost predicate IndexesSound(m: Memory) {
    && (forall code :: code in m.codes ==> CodeOf(m, m.codes[code], code))
    && (forall token :: token in m.tokens ==> TokenOf(m, m.tokens[token], token))
  }

  ghost predicate OffersOk(m: Memory) {
    forall o :: o in m.offers ==> ViewOk(m, o, m.offers[o])
  }

  ghost predicate MemoryOk(m: Memory) {
    && UniqueIssue(m)
    && AllDrawn(m)
    && EventsOk(m)
    && (forall o :: VerifiedFirst(OfferLog(m, o)))
    && BoundOnce(m)
    && (forall c :: Shape(CredentialLog(m, c)))
    && IndexesSound(m)
    && OffersOk(m)
  }

  // ----- who works on which credential -----

  /** The credential a `credentials` request has drawn and not yet bound to its offer. */
  function Owned(pc: Pc): Option<string> {
    match pc
    case CredentialsCreate(_, id, _) => Some(id)
    case CredentialsMetadata(_, id) => Some(id)
    case CredentialsLookup(_, id, _) => Some(id)
    case CredentialsOffer(_, id, _) => Some(id)
    case CredentialsAdd(_, id) => Some(id)
    case _ => None
  }

  /** The credential whose view the process is about to rewrite. */
  function Writer(p: Process): Option<string> {
    if p.pending.CredentialDispatch? && (p.pending.credentialStage.LoadCredential? || p.pending.credentialStage.StoreCredential?)
    then Some(p.pending.credentialId) else None
  }

  /** An unbound credential, before or after its creation is on record. */
  ghost predicate Owns(m: Memory, id: string, created: bool) {
    && id in m.drawn
    && (forall o :: !Bound(m, o, id))
    && |CredentialLog(m, id)| == (if created then 1 else 0)
  }

  ghost predicate OwnerOk(m: Memory, pc: Pc) {
    && (Owned(pc).Some? ==> Owns(m, Owned(pc).value, !pc.CredentialsCreate?))
    && (pc.CredentialsCreate? ==> !pc.create.SignCredential?)
  }

  ghost predicate Shown(m: Memory, id: string, log: seq<C.CredentialEvent>) {
    if log == [] then id !in m.credentials else id in m.credentials && m.credentials[id] == C.Stored(log)
  }

  ghost predicate WriterOk(m: Memory, p: Process) {
    Writer(p).Some? ==>
      var id, event, log := Writer(p).value, p.pending.credentialEvent, CredentialLog(m, Writer(p).value);
      && log != [] && log[|log| - 1] == event
      && (|log| == 1 ==> Owned(p.pc) == Some(id))
      && Shown(m, id, log[..|log| - 1])
      && (p.pending.credentialStage.StoreCredential? ==> p.pending.credentialStage.view == C.Stored(log[..|log| - 1]))
  }

  ghost predicate Apart(processes: map<nat, Process>) {
    forall p, q :: p in processes && q in processes && p != q ==>
      && (Owned(processes[p].pc).Some? ==> Owned(processes[p].pc) != Owned(processes[q].pc))
      && (Writer(processes[p]).Some? ==> Writer(processes[p]) != Writer(processes[q]))
  }

  ghost predicate BeingWritten(processes: map<nat, Process>, id: string) {
    exists p :: p in processes && Writer(processes[p]) == Some(id)
  }

  /** A credential view shows the whole log of its credential, unless the dispatch that will make it so is under way. */
  ghost predicate CredentialsShown(s: State) {
    forall id :: Shown(s.memory, id, CredentialLog(s.memory, id)) || BeingWritten(s.processes, id)
  }

  // ----- the indexes miss nothing but what is under way -----

  predicate Dispatches(p: Process, offerId: string, event: O.OfferEvent) {
    p.pending.OfferDispatch? && p.pending.id == offerId && p.pending.event == event
  }

  predicate CodeUnderWay(p: Process, offerId: string, event: O.OfferEvent) {
    Dispatches(p, offerId, event) && !p.pending.stage.LoadToken? && !p.pending.stage.StoreToken?
  }

  ghost predicate IndexesComplete(s: State) {
    forall o, e :: e in OfferLog(s.memory, o) && e.CredentialOfferCreated? ==>
      && ((e.preAuthorizedCode in s.memory.codes && s.memory.codes[e.preAuthorizedCode] == o)
          || exists p :: p in s.processes && CodeUnderWay(s.processes[p], o, e))
      && ((e.accessToken in s.memory.tokens && s.memory.tokens[e.accessToken] == o)
          || exists p :: p in s.processes && Dispatches(s.processes[p], o, e))
  }

  ghost predicate ProcessOk(m: Memory, p: Process) {
    PcFacts(m, p.pc) && PendingFacts(m, p.pending) && OwnerOk(m, p.pc) && WriterOk(m, p)
  }

  ghost predicate Inv(s: State) {
    && MemoryOk(s.memory)
    && (forall p :: p in s.processes ==> ProcessOk(s.memory, s.processes[p]))
    && Apart(s.processes)
    && CredentialsShown(s)
    && IndexesComplete(s)
  }

  lemma EmptyMemoryOk()
    ensures MemoryOk(EMPTY_MEMORY)
  {
    assert forall o :: OfferLog(EMPTY_MEMORY, o) == [];
    assert forall c :: CredentialLog(EMPTY_MEMORY, c) == [];
  }

  lemma InitialInv()
    ensures Inv(INITIAL)
  {
    EmptyMemoryOk();
    assert forall o :: OfferLog(EMPTY_MEMORY, o) == [];
    assert forall c :: Shown(EMPTY_MEMORY, c, CredentialLog(EMPTY_MEMORY, c));
  }
}
