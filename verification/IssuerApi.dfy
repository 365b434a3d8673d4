/** The wallet-facing issuer endpoints: `token` and `credential` (`agent_api_rest/src/issuance/credential_issuer`). */
module IssuerApi {
  import opened Wrappers
  import opened Json
  import opened EventSourcing
  import opened IssuerMachine
  import opened IssuerInvariant
  import opened IssuerPreservation
  import opened IssuerTheorems
  import opened IssuerAtomic
  import opened Continuations
  import opened IssuerHandlers
  import O = IssuerOffer
  import C = IssuerCredential

  // ----- POST /auth/token -----

  method ResolveCode(state: IssuanceState, pid: nat, code: string) returns (found: Option<string>)
    requires state.Valid() && state.At(pid, Process(TokenStart(code), Idle))
    modifies state
    ensures state.Valid() && old(state.history) <= state.history
    ensures state.At(pid, Process(if found.Some? then TokenCreate(code, found.value) else Done(ServerError), Idle))
    ensures state.serial ==>
              state.Stores() == old(state.Stores())
              && found == if code in old(state.codes) then Some(old(state.codes)[code]) else None
  {
    state.Others(pid, Process(TokenStart(code), Idle));
    var w := state.world(state.drawn, state.ticks);
    found := if code in state.codes then Some(state.codes[code]) else None;
    state.Record(pid, w, state.Mem(), Process(TokenStart(code), Idle));
  }

  method CreateTokenResponse(state: IssuanceState, pid: nat, code: string, offerId: string)
    requires state.Valid() && state.At(pid, Process(TokenCreate(code, offerId), Idle))
    modifies state
    ensures state.Valid() && old(state.history) <= state.history
    ensures state.At(pid, Process(TokenReply(code, offerId), Idle))
    ensures state.serial ==>
              exists nonce ::
                var event := O.TokenResponseCreated(O.TokenResponse(O.Aggregate(OfferLog(old(state.Stores()), offerId)).accessToken, nonce));
                state.Stores() == Dispatched(Appended(old(state.Stores()), offerId, event), offerId, event)
  {
    state.Others(pid, Process(TokenCreate(code, offerId), Idle));
    var w := state.world(state.drawn, state.ticks);
    var event := state.ExecuteOffer(pid, offerId, O.CreateTokenResponse, w, TokenCreate(code, offerId),
                                    TokenReply(code, offerId), Done(ServerError));
  }

  method ReadTokenResponse(state: IssuanceState, pid: nat, code: string, offerId: string) returns (reply: Reply)
    requires state.Valid() && state.At(pid, Process(TokenReply(code, offerId), Idle))
    modifies state
    ensures state.Valid() && old(state.history) <= state.history && state.At(pid, Process(Done(reply), Idle))
    ensures reply.TokenGiven? ==> reply.code == code && reply.offerId == offerId
    ensures state.serial ==>
              state.Stores() == old(state.Stores())
              && reply == if offerId in old(state.offers) && old(state.offers)[offerId].tokenResponse.Some?
                          then TokenGiven(code, offerId, old(state.offers)[offerId].tokenResponse.value) else ServerError
  {
    state.Others(pid, Process(TokenReply(code, offerId), Idle));
    var w := state.world(state.drawn, state.ticks);
    var view := if offerId in state.offers then Some(state.offers[offerId]) else None;
    state.Record(pid, w, state.Mem(), Process(TokenReply(code, offerId), Idle));
    reply := if view.Some? && view.value.tokenResponse.Some? then TokenGiven(code, offerId, view.value.tokenResponse.value)
             else ServerError;
  }

  /** In a quiet state the token an offer would answer with is listed. */
  lemma CurrentTokenListed(history: seq<Step>, code: string)
    requires Quiet(Run(history)) && code in Run(history).memory.codes
    ensures var m := Run(history).memory;
            var token := O.Aggregate(OfferLog(m, m.codes[code])).accessToken;
            token in m.tokens && m.tokens[token] == m.codes[code]
  {
    IndexesFollowLogs(history);
    var m := Run(history).memory;
    O.AccessTokenIsLatest(OfferLog(m, m.codes[code]));
    assert TokenOf(m, m.codes[code], O.Aggregate(OfferLog(m, m.codes[code])).accessToken);
  }

  /** What a token reply means, whatever other requests do: code and token belong to one and the same offer. */
  ghost predicate TokenReplyRight(m: Memory, request: Option<string>, reply: Reply) {
    reply.TokenGiven? ==>
      && request == Some(reply.code)
      && (forall o :: CodeOf(m, o, reply.code) <==> o == reply.offerId)
      && (forall o :: TokenOf(m, o, reply.token.accessToken) <==> o == reply.offerId)
  }

  ghost predicate LatestToken(log: seq<O.OfferEvent>, token: string) {
    O.LastCreated(log).Some? ==> token == O.LastCreated(log).value.accessToken
  }

  /** What a token request does when it runs alone: every listed code is answered, the response is on record with the
      token of the latest creation, and from a quiet state the token given resolves to the offer of the code. */
  ghost predicate TokenAlone(before: Memory, after: Memory, quiet: bool, request: Option<string>, reply: Reply) {
    && (reply.TokenGiven? <==> request.Some? && request.value in before.codes)
    && (!reply.TokenGiven? ==> reply == if request.None? then BadRequest else ServerError)
    && (reply.TokenGiven? && request == Some(reply.code) ==>
          && reply.offerId == before.codes[reply.code]
          && OfferLog(after, reply.offerId) == OfferLog(before, reply.offerId) + [O.TokenResponseCreated(reply.token)]
          && LatestToken(OfferLog(before, reply.offerId), reply.token.accessToken)
          && (quiet ==> reply.token.accessToken in after.tokens && after.tokens[reply.token.accessToken] == reply.offerId))
  }

  method Token(state: IssuanceState, pid: nat, request: Option<string>) returns (reply: Reply)
    requires state.Valid() && state.At(pid, Process(Entrance(PostToken(request)), Idle))
    modifies state
    ensures state.Valid() && old(state.history) <= state.history && state.At(pid, Process(Done(reply), Idle))
    ensures TokenReplyRight(state.Mem(), request, reply)
    ensures state.serial ==> TokenAlone(old(state.Stores()), state.Stores(), Quiet(Run(old(state.history))), request, reply)
  {
    if request.None? {
      return BadRequest;
    }
    var offerId := ResolveCode(state, pid, request.value);
    if offerId.None? {
      return ServerError;
    }
    CreateTokenResponse(state, pid, request.value, offerId.value);
    reply := ReadTokenResponse(state, pid, request.value, offerId.value);
    O.AccessTokenIsLatest(OfferLog(old(state.Stores()), offerId.value));
    if reply.TokenGiven? {
      TokenRoundTrip(state.history, pid, request.value, offerId.value, reply.token);
      if state.serial && Quiet(Run(old(state.history))) {
        CurrentTokenListed(old(state.history), request.value);
      }
    }
  }

  // ----- POST /openid4vci/credential -----

  method ResolveToken(state: IssuanceState, pid: nat, bearer: string) returns (found: Option<string>)
    requires state.Valid() && state.At(pid, Process(RequestStart(bearer), Idle))
    modifies state
    ensures state.Valid() && old(state.history) <= state.history
    ensures state.At(pid, Process(if found.Some? then RequestMetadata(bearer, found.value) else Done(Unauthorized), Idle))
    ensures state.serial ==>
              state.Stores() == old(state.Stores())
              && found == if bearer in old(state.tokens) then Some(old(state.tokens)[bearer]) else None
  {
    state.Others(pid, Process(RequestStart(bearer), Idle));
    var w := state.world(state.drawn, state.ticks);
    found := if bearer in state.tokens then Some(state.tokens[bearer]) else None;
    state.Record(pid, w, state.Mem(), Process(RequestStart(bearer), Idle));
  }

  method ReadMetadata(state: IssuanceState, pid: nat, bearer: string, offerId: string) returns (ok: bool, ghost w: Outside)
    requires state.Valid() && state.At(pid, Process(RequestMetadata(bearer, offerId), Idle))
    modifies state
    ensures state.Valid() && Took(old(state.history), state.history, pid, w) && ok == w.metadata.Some?
    ensures state.At(pid, Process(if ok then RequestVerify(bearer, offerId) else Done(ServerError), Idle))
    ensures state.serial ==> state.Stores() == old(state.Stores())
  {
    state.Others(pid, Process(RequestMetadata(bearer, offerId), Idle));
    ghost var now := state.history;
    var surroundings := state.world(state.drawn, state.ticks);
    ok, w := surroundings.metadata.Some?, surroundings;
    state.Record(pid, surroundings, state.Mem(), Process(RequestMetadata(bearer, offerId), Idle));
    TookWithin(old(state.history), now, state.history, state.history, pid, w);
  }

  function Proven(proof: Result<string, O.OfferError>): Option<string> {
    if proof.Success? then Some(proof.value) else None
  }

  /** The outcome is not looked at: after a refused proof the request goes on to poll. */
  method VerifyRequest(state: IssuanceState, pid: nat, bearer: string, offerId: string)
    returns (ghost verified: Option<string>, ghost w: Outside)
    requires state.Valid() && state.At(pid, Process(RequestVerify(bearer, offerId), Idle))
    modifies state
    ensures state.Valid() && Took(old(state.history), state.history, pid, w) && verified == Proven(w.offer.proof)
    ensures state.At(pid, Process(RequestPoll(bearer, offerId), Idle))
    ensures state.serial ==>
              state.Stores() == if verified.None? then old(state.Stores())
                                else var event := O.CredentialRequestVerified(verified.value);
                                     Dispatched(Appended(old(state.Stores()), offerId, event), offerId, event)
  {
    state.Others(pid, Process(RequestVerify(bearer, offerId), Idle));
    ghost var now := state.history;
    var surroundings := state.world(state.drawn, state.ticks);
    w := surroundings;
    var event := state.ExecuteOffer(pid, offerId, O.VerifyCredentialRequest, surroundings, RequestVerify(bearer, offerId),
                                    RequestPoll(bearer, offerId), RequestPoll(bearer, offerId));
    verified := if event.Some? then Some(event.value.subjectId) else None;
    TookWithin(old(state.history), now, state.history, state.history, pid, w);
  }

  datatype Poll = Ready(ids: seq<string>, subjectId: string) | NotReady(timedOut: bool)

  function ViewOf(m: Memory, offerId: string): Option<O.OfferView> {
    if offerId in m.offers then Some(m.offers[offerId]) else None
  }

  /** What was seen is what the repository held, query by query, at later and later moments of the run. */
  ghost predicate SeenAt(history: seq<Step>, offerId: string, seen: seq<Option<O.OfferView>>, moments: seq<nat>) {
    && |moments| == |seen|
    && (forall k :: 0 <= k < |moments| ==> moments[k] <= |history| && seen[k] == ViewOf(Run(history[..moments[k]]).memory, offerId))
    && (forall j, k :: 0 <= j < k < |moments| ==> moments[j] < moments[k])
  }

  lemma StillSeen(earlier: seq<Step>, now: seq<Step>, offerId: string, seen: seq<Option<O.OfferView>>, moments: seq<nat>)
    requires SeenAt(earlier, offerId, seen, moments) && earlier <= now
    ensures SeenAt(now, offerId, seen, moments)
  {
    forall k | 0 <= k < |moments| ensures seen[k] == ViewOf(Run(now[..moments[k]]).memory, offerId) {
      assert now[..moments[k]] == earlier[..moments[k]];
    }
  }

  /** One more query, at a later moment. */
  lemma SeenNext(earlier: seq<Step>, now: seq<Step>, offerId: string, seen: seq<Option<O.OfferView>>, moments: seq<nat>,
                 view: Option<O.OfferView>, moment: nat)
    requires SeenAt(earlier, offerId, seen, moments) && earlier <= now && (forall k :: 0 <= k < |moments| ==> moments[k] < |earlier|)
    requires |earlier| <= moment <= |now| && view == ViewOf(Run(now[..moment]).memory, offerId)
    ensures SeenAt(now, offerId, seen + [view], moments + [moment])
  {
    StillSeen(earlier, now, offerId, seen, moments);
  }

  method PollOnce(state: IssuanceState, pid: nat, bearer: string, offerId: string, expired: bool)
    returns (seen: Option<O.OfferView>, ghost moment: nat)
    requires state.Valid() && state.At(pid, Process(RequestPoll(bearer, offerId), Idle))
    modifies state
    ensures state.Valid() && old(state.history) <= state.history
    ensures state.At(pid, Process(
      if seen.None? then Done(ServerError)
      else if seen.value.credentialIds == [] then (if expired then Done(ServerError) else RequestPoll(bearer, offerId))
      else if seen.value.subjectId.None? then Done(ServerError)
      else RequestSign(bearer, offerId, seen.value.subjectId.value, seen.value.credentialIds, []), Idle))
    ensures state.serial ==>
              state.Stores() == old(state.Stores())
              && seen == if offerId in old(state.offers) then Some(old(state.offers)[offerId]) else None
    ensures |old(state.history)| <= moment < |state.history|
    ensures seen == ViewOf(Run(state.history[..moment]).memory, offerId)
  {
    state.Others(pid, Process(RequestPoll(bearer, offerId), Idle));
    moment := |state.history|;
    ghost var now := state.history;
    var w := state.world(state.drawn, state.ticks).(expired := expired);
    seen := if offerId in state.offers then Some(state.offers[offerId]) else None;
    state.Record(pid, w, state.Mem(), Process(RequestPoll(bearer, offerId), Idle));
    assert state.history[..moment] == now;
  }

  /** How polling ends: it has waited through every view without ids while the time limit had not passed, and nothing
      else; the first view that has ids, or is missing, or is too late decides. */
  ghost predicate PollRight(seen: seq<Option<O.OfferView>>, elapsed: nat -> nat, timeout: nat, r: Poll) {
    && seen != []
    && (forall k :: 0 <= k < |seen| - 1 ==> seen[k].Some? && seen[k].value.credentialIds == [] && elapsed(k) <= timeout)
    && var last := seen[|seen| - 1];
       match r
       case Ready(ids, subjectId) => last.Some? && last.value.credentialIds == ids != [] && last.value.subjectId == Some(subjectId)
       case NotReady(timedOut) =>
         if timedOut then last.Some? && last.value.credentialIds == [] && elapsed(|seen| - 1) > timeout
         else last.None? || (last.value.credentialIds != [] && last.value.subjectId.None?)
  }

  /** The clock: every sleep takes at least the polling interval of 100 milliseconds. */
  ghost predicate Sleeps(elapsed: nat -> nat) {
    forall k: nat :: elapsed(k + 1) >= elapsed(k) + 100
  }

  lemma {:induction false} SleepsAddUp(elapsed: nat -> nat, k: nat)
    requires Sleeps(elapsed)
    ensures elapsed(k) >= 100 * k
  {
    if k > 0 {
      SleepsAddUp(elapsed, k - 1);
      assert elapsed(k - 1 + 1) >= elapsed(k - 1) + 100;
    }
  }

  /** The bound on the number of queries is reached by the fastest clock. */
  lemma TimeOutIsTight(seen: seq<Option<O.OfferView>>, elapsed: nat -> nat, timeout: nat)
    requires PollRight(seen, elapsed, timeout, NotReady(true)) && forall k: nat :: elapsed(k) == 100 * k
    ensures |seen| == timeout / 100 + 2
  {
    assert elapsed(|seen| - 1) == 100 * (|seen| - 1);
    if |seen| >= 2 {
      assert elapsed(|seen| - 2) == 100 * (|seen| - 2);
    }
  }

  /** Polling so far: nothing but views without ids, within the time limit. */
  ghost predicate Waiting(history: seq<Step>, offerId: string, seen: seq<Option<O.OfferView>>, moments: seq<nat>,
                          elapsed: nat -> nat, timeout: nat)
  {
    && SeenAt(history, offerId, seen, moments)
    && (forall k :: 0 <= k < |moments| ==> moments[k] < |history|)
    && (forall k :: 0 <= k < |seen| ==> seen[k].Some? && seen[k].value.credentialIds == [] && elapsed(k) <= timeout)
  }

  lemma WaitingOn(earlier: seq<Step>, now: seq<Step>, offerId: string, seen: seq<Option<O.OfferView>>, moments: seq<nat>,
                  elapsed: nat -> nat, timeout: nat, view: Option<O.OfferView>, moment: nat)
    requires Waiting(earlier, offerId, seen, moments, elapsed, timeout) && earlier <= now && |earlier| <= moment < |now|
    requires view == ViewOf(Run(now[..moment]).memory, offerId)
    ensures SeenAt(now, offerId, seen + [view], moments + [moment])
    ensures view.Some? && view.value.credentialIds == [] && elapsed(|seen|) <= timeout ==>
              Waiting(now, offerId, seen + [view], moments + [moment], elapsed, timeout)
  {
    SeenNext(earlier, now, offerId, seen, moments, view, moment);
  }

  /** What a view with ids or no view at all makes of a poll. */
  function Decided(view: Option<O.OfferView>): Poll {
    if view.Some? && view.value.credentialIds != [] && view.value.subjectId.Some?
    then Ready(view.value.credentialIds, view.value.subjectId.value) else NotReady(false)
  }

  method PollOffer(state: IssuanceState, pid: nat, bearer: string, offerId: string, elapsed: nat -> nat, timeout: nat)
    returns (r: Poll, queries: nat, ghost seen: seq<Option<O.OfferView>>, ghost moments: seq<nat>)
    requires state.Valid() && state.At(pid, Process(RequestPoll(bearer, offerId), Idle)) && Sleeps(elapsed)
    modifies state
    ensures state.Valid() && old(state.history) <= state.history
    ensures state.At(pid, Process(if r.Ready? then RequestSign(bearer, offerId, r.subjectId, r.ids, []) else Done(ServerError), Idle))
    ensures SeenAt(state.history, offerId, seen, moments)
    ensures PollRight(seen, elapsed, timeout, r) && queries == |seen| <= timeout / 100 + 2
    ensures state.serial ==>
              state.Stores() == old(state.Stores())
              && (if r.Ready? then r else NotReady(false)) == Decided(ViewOf(old(state.Stores()), offerId))
  {
    queries, seen, moments := 0, [], [];
    while true
      invariant state.Valid() && old(state.history) <= state.history
      invariant state.At(pid, Process(RequestPoll(bearer, offerId), Idle))
      invariant queries == |seen| && 100 * queries <= timeout + 100
      invariant Waiting(state.history, offerId, seen, moments, elapsed, timeout)
      invariant state.serial ==> state.Stores() == old(state.Stores())
      decreases timeout + 200 - 100 * queries
    {
      var expired := elapsed(queries) > timeout;
      ghost var earlier := state.history;
      var view, moment := PollOnce(state, pid, bearer, offerId, expired);
      WaitingOn(earlier, state.history, offerId, seen, moments, elapsed, timeout, view, moment);
      SleepsAddUp(elapsed, queries);
      seen, moments := seen + [view], moments + [moment];
      queries := queries + 1;
      if view.None? || view.value.credentialIds != [] {
        return Decided(view), queries, seen, moments;
      } else if expired {
        return NotReady(true), queries, seen, moments;
      }
    }
  }

  /** What one round of the signing loop reads back when nobody interferes: the new signature if one is made, otherwise what the
      view shows already. */
  function SignedNow(m: Memory, id: string, subjectId: string, services: C.CredentialServices): Option<Json> {
    var shown := EntryOr(m.credentials, id, C.EMPTY_VIEW).signed;
    match C.Handle(C.Aggregate(CredentialLog(m, id)), C.SignCredential(subjectId, false), services)
    case Success(events) =>
      if events == [] then shown else if events[0].signed == Null then None else Some(events[0].signed)
    case Failure(error) => if error == C.Panic then None else shown
  }

  /** Signing this credential unwinds: it is unsigned and its data has no subject object. */
  ghost predicate Unwinds(m: Memory, id: string) {
    var log := CredentialLog(m, id);
    C.LastSignature(log).None? && C.LastUnsigned(log).Some?
    && !C.IsObject(Get(C.LastUnsigned(log).value.data.raw, "credentialSubject"))
  }

  /** What is read back for a credential, by its log: what the view shows already if it has a signature, or has no data to sign;
      nothing if signing unwinds; otherwise the value signed for the subject, and nothing if that is null. */
  ghost predicate ReadBack(m: Memory, id: string, subjectId: string, services: C.CredentialServices, answer: Option<Json>) {
    var log := CredentialLog(m, id);
    if C.LastSignature(log).Some? || C.LastUnsigned(log).None? then answer == EntryOr(m.credentials, id, C.EMPTY_VIEW).signed
    else if Unwinds(m, id) then answer.None?
    else
      var raw := C.LastUnsigned(log).value.data.raw;
      C.HasSubject(raw) ==>
        exists value :: C.SignatureOf(raw, subjectId, services, value) && answer == if value == Null then None else Some(value)
  }

  lemma SignedNowReadsBack(m: Memory, id: string, subjectId: string, services: C.CredentialServices)
    ensures ReadBack(m, id, subjectId, services, SignedNow(m, id, subjectId, services))
    ensures Emits(m, id, subjectId, services) == Failure(C.Panic) <==> Unwinds(m, id)
  {
    C.SignsExactly(CredentialLog(m, id), subjectId, false, services);
  }

  /** One round of the signing loop: sign, then read the signed form back. A refused signature is not looked at. */
  method SignOne(state: IssuanceState, pid: nat, bearer: string, offerId: string, subjectId: string, ids: seq<string>, signed: seq<Json>)
    returns (read: Option<Json>, panicked: bool, ghost w: Outside)
    requires state.Valid() && |signed| < |ids|
    requires state.At(pid, Process(RequestSign(bearer, offerId, subjectId, ids, signed), Idle))
    modifies state
    ensures state.Valid() && Took(old(state.history), state.history, pid, w)
    ensures state.At(pid, Process(
      if panicked then Done(Crashed)
      else if read.None? then Done(ServerError)
      else if |signed| + 1 < |ids| then RequestSign(bearer, offerId, subjectId, ids, signed + [read.value])
      else RequestRespond(bearer, offerId, subjectId, ids, signed + [read.value]), Idle))
    ensures panicked ==> read.None?
    ensures read.Some? ==> ShowsSigned(Run(state.history), ids[|signed|], read.value)
    ensures state.serial ==>
              && state.offerLogs == old(state.offerLogs) && state.offers == old(state.offers)
              && read == SignedNow(old(state.Stores()), ids[|signed|], subjectId, w.credential)
              && (panicked <==> Emits(old(state.Stores()), ids[|signed|], subjectId, w.credential) == Failure(C.Panic))
  {
    var id := ids[|signed|];
    var r;
    r, w := CommandSign(state, pid, bearer, offerId, subjectId, ids, signed);
    ghost var now := state.history;
    panicked := r == Failure(C.Panic);
    if r == Failure(C.Panic) {
      return None, true, w;
    }
    read := ReadSigned(state, pid, bearer, offerId, subjectId, ids, signed);
    TookWithin(old(state.history), old(state.history), now, state.history, pid, w);
  }

  function Emits(m: Memory, id: string, subjectId: string, services: C.CredentialServices)
    : Result<Option<C.CredentialEvent>, C.CredentialError>
  {
    CredentialOutcome(C.Handle(C.Aggregate(CredentialLog(m, id)), C.SignCredential(subjectId, false), services))
  }

  method CommandSign(state: IssuanceState, pid: nat, bearer: string, offerId: string, subjectId: string, ids: seq<string>, signed: seq<Json>)
    returns (r: Result<Option<C.CredentialEvent>, C.CredentialError>, ghost w: Outside)
    requires state.Valid() && |signed| < |ids|
    requires state.At(pid, Process(RequestSign(bearer, offerId, subjectId, ids, signed), Idle))
    modifies state
    ensures state.Valid() && Took(old(state.history), state.history, pid, w)
    ensures state.At(pid, Process(if r == Failure(C.Panic) then Done(Crashed) else RequestRead(bearer, offerId, subjectId, ids, signed), Idle))
    ensures state.serial ==>
              && r == Emits(old(state.Stores()), ids[|signed|], subjectId, w.credential)
              && state.Stores() == if r.Success? && r.value.Some?
                                   then DispatchedCredential(AppendedCredential(old(state.Stores()), ids[|signed|], r.value.value),
                                                             ids[|signed|], r.value.value)
                                   else old(state.Stores())
  {
    var id := ids[|signed|];
    ghost var pc, next := RequestSign(bearer, offerId, subjectId, ids, signed), RequestRead(bearer, offerId, subjectId, ids, signed);
    state.Others(pid, Process(pc, Idle));
    ghost var now := state.history;
    var surroundings := state.world(state.drawn, state.ticks);
    w := surroundings;
    r := state.ExecuteCredential(pid, id, C.SignCredential(subjectId, false), surroundings, pc, next, next);
    TookWithin(old(state.history), now, state.history, state.history, pid, w);
  }

  method ReadSigned(state: IssuanceState, pid: nat, bearer: string, offerId: string, subjectId: string, ids: seq<string>, signed: seq<Json>)
    returns (read: Option<Json>)
    requires state.Valid() && |signed| < |ids|
    requires state.At(pid, Process(RequestRead(bearer, offerId, subjectId, ids, signed), Idle))
    modifies state
    ensures state.Valid() && old(state.history) <= state.history
    ensures state.At(pid, Process(
      if read.None? then Done(ServerError)
      else if |signed| + 1 < |ids| then RequestSign(bearer, offerId, subjectId, ids, signed + [read.value])
      else RequestRespond(bearer, offerId, subjectId, ids, signed + [read.value]), Idle))
    ensures read.Some? ==> ShowsSigned(Run(state.history), ids[|signed|], read.value)
    ensures state.serial ==>
              state.Stores() == old(state.Stores()) && read == EntryOr(old(state.credentials), ids[|signed|], C.EMPTY_VIEW).signed
  {
    ghost var p := Process(RequestRead(bearer, offerId, subjectId, ids, signed), Idle);
    state.Others(pid, p);
    var w := state.world(state.drawn, state.ticks);
    var id := ids[|signed|];
    read := if id in state.credentials then state.credentials[id].signed else None;
    state.Record(pid, w, state.Mem(), p);
  }

  /** Signatures read earlier in a run are still shown later. */
  lemma StillSigned(earlier: seq<Step>, now: seq<Step>, ids: seq<string>, signed: seq<Json>)
    requires earlier <= now && |signed| <= |ids|
    requires forall j :: 0 <= j < |signed| ==> ShowsSigned(Run(earlier), ids[j], signed[j])
    ensures forall j :: 0 <= j < |signed| ==> ShowsSigned(Run(now), ids[j], signed[j])
  {
    assert now == earlier + now[|earlier|..];
    forall j | 0 <= j < |signed| ensures ShowsSigned(Run(now), ids[j], signed[j]) {
      WriteOnce(earlier, now[|earlier|..], ids[j], signed[j]);
    }
  }

  /** The loop is over all ids, though in every state there is just one (`SignsOne`). `w` is what its first round signs with. */
  method SignAll(state: IssuanceState, pid: nat, bearer: string, offerId: string, subjectId: string, ids: seq<string>)
    returns (signed: Option<seq<Json>>, panicked: bool, ghost w: Outside)
    requires state.Valid() && ids != [] && state.At(pid, Process(RequestSign(bearer, offerId, subjectId, ids, []), Idle))
    modifies state
    ensures state.Valid() && Took(old(state.history), state.history, pid, w)
    ensures state.At(pid, Process(if panicked then Done(Crashed) else if signed.None? then Done(ServerError)
                                  else RequestRespond(bearer, offerId, subjectId, ids, signed.value), Idle))
    ensures panicked ==> signed.None?
    ensures signed.Some? ==> |signed.value| == |ids|
                             && forall j :: 0 <= j < |ids| ==> ShowsSigned(Run(state.history), ids[j], signed.value[j])
    ensures state.serial ==> state.offerLogs == old(state.offerLogs) && state.offers == old(state.offers)
    ensures state.serial && |ids| == 1 ==>
              && (if signed.Some? then Some(signed.value[0]) else None) == SignedNow(old(state.Stores()), ids[0], subjectId, w.credential)
              && (panicked <==> Emits(old(state.Stores()), ids[0], subjectId, w.credential) == Failure(C.Panic))
  {
    w := AnyOutside();
    var signedCredentials: seq<Json> := [];
    for i := 0 to |ids|
      invariant state.Valid() && old(state.history) <= state.history
      invariant |signedCredentials| == i
      invariant state.At(pid, Process(if i < |ids| then RequestSign(bearer, offerId, subjectId, ids, signedCredentials)
                                      else RequestRespond(bearer, offerId, subjectId, ids, signedCredentials), Idle))
      invariant forall j :: 0 <= j < i ==> ShowsSigned(Run(state.history), ids[j], signedCredentials[j])
      invariant state.serial ==> state.offerLogs == old(state.offerLogs) && state.offers == old(state.offers)
      invariant if i == 0 then state.Stores() == old(state.Stores())
                else Took(old(state.history), state.history, pid, w)
                     && (state.serial ==>
                           && SignedNow(old(state.Stores()), ids[0], subjectId, w.credential) == Some(signedCredentials[0])
                           && Emits(old(state.Stores()), ids[0], subjectId, w.credential) != Failure(C.Panic))
    {
      ghost var earlier := state.history;
      var read;
      ghost var surroundings;
      read, panicked, surroundings := SignOne(state, pid, bearer, offerId, subjectId, ids, signedCredentials);
      w := if i == 0 then surroundings else w;
      if i == 0 {
        TookWithin(old(state.history), earlier, state.history, state.history, pid, w);
      } else {
        TookWithin(old(state.history), old(state.history), earlier, state.history, pid, w);
      }
      if read.None? {
        return None, panicked, w;
      }
      StillSigned(earlier, state.history, ids, signedCredentials);
      signedCredentials := signedCredentials + [read.value];
    }
    return Some(signedCredentials), false, w;
  }

  lemma RespondAct(m: Memory, pc: Pc, w: Outside)
    requires pc.RequestRespond?
    ensures Act(m, Process(pc, Idle), w)
         == OfferCommand(m, pc.offerId, O.CreateCredentialResponse(pc.signed), w,
                         RequestReply(pc.bearer, pc.offerId), RequestReply(pc.bearer, pc.offerId))
  {
  }

  method Respond(state: IssuanceState, pid: nat, bearer: string, offerId: string, ghost subjectId: string, ghost ids: seq<string>, signed: seq<Json>)
    requires state.Valid() && signed != []
    requires state.At(pid, Process(RequestRespond(bearer, offerId, subjectId, ids, signed), Idle))
    modifies state
    ensures state.Valid() && old(state.history) <= state.history && state.At(pid, Process(RequestReply(bearer, offerId), Idle))
    ensures state.serial ==>
              var event := O.CredentialResponseCreated(O.CredentialResponse(signed[|signed| - 1]));
              state.Stores() == Dispatched(Appended(old(state.Stores()), offerId, event), offerId, event)
  {
    ghost var pc := RequestRespond(bearer, offerId, subjectId, ids, signed);
    state.Others(pid, Process(pc, Idle));
    var w := state.world(state.drawn, state.ticks);
    RespondAct(state.Mem(), pc, w);
    var event := state.ExecuteOffer(pid, offerId, O.CreateCredentialResponse(signed), w, pc,
                                    RequestReply(bearer, offerId), RequestReply(bearer, offerId));
  }

  method ReadResponse(state: IssuanceState, pid: nat, bearer: string, offerId: string) returns (reply: Reply)
    requires state.Valid() && state.At(pid, Process(RequestReply(bearer, offerId), Idle))
    modifies state
    ensures state.Valid() && old(state.history) <= state.history && state.At(pid, Process(Done(reply), Idle))
    ensures reply.CredentialGiven? ==> reply.bearer == bearer && reply.offerId == offerId
    ensures state.serial ==>
              state.Stores() == old(state.Stores())
              && reply == if offerId in old(state.offers) && old(state.offers)[offerId].credentialResponse.Some?
                          then CredentialGiven(bearer, offerId, old(state.offers)[offerId].credentialResponse.value) else ServerError
  {
    ghost var p := Process(RequestReply(bearer, offerId), Idle);
    state.Others(pid, p);
    var w := state.world(state.drawn, state.ticks);
    var view := if offerId in state.offers then Some(state.offers[offerId]) else None;
    state.Record(pid, w, state.Mem(), p);
    reply := if view.Some? && view.value.credentialResponse.Some?
             then CredentialGiven(bearer, offerId, view.value.credentialResponse.value) else ServerError;
  }

  /** What a credential reply means, whatever other requests do. */
  ghost predicate CredentialReplyRight(m: Memory, bearer: string, reply: Reply) {
    reply.CredentialGiven? ==>
      && reply.bearer == bearer
      && (forall o :: TokenOf(m, o, bearer) <==> o == reply.offerId)
      && (exists id :: SignedAs(m, id, reply.response.credential) && forall o :: Bound(m, o, id) <==> o == reply.offerId)
      && VerifiedFirst(OfferLog(m, reply.offerId))
  }

  /** The subject a lone request signs for: its own if its proof is accepted, otherwise the one verified before, if any. */
  function SubjectNow(m: Memory, offerId: string, proof: Result<string, O.OfferError>): Option<string> {
    if proof.Success? then Some(proof.value) else EntryOr(m.offers, offerId, O.EMPTY_VIEW).subjectId
  }

  function IdsNow(m: Memory, offerId: string): seq<string> {
    EntryOr(m.offers, offerId, O.EMPTY_VIEW).credentialIds
  }

  /** The surroundings of the three steps of a request that depend on them: the configuration it reads, the proof it has
      verified, and what it signs with. */
  datatype Circumstances = Circumstances(read: Outside, verify: Outside, sign: Outside)

  /** What a lone request answers for its offer: nothing but an error, or a credential. */
  function AnswerFor(m: Memory, offerId: string, verify: Outside, sign: Outside): Option<Json> {
    var subject, ids := SubjectNow(m, offerId, verify.offer.proof), IdsNow(m, offerId);
    if subject.None? || ids == [] then None else SignedNow(m, ids[|ids| - 1], subject.value, sign.credential)
  }

  function AnswerAlone(m: Memory, bearer: string, c: Circumstances): Option<Json> {
    if bearer !in m.tokens || c.read.metadata.None? then None else AnswerFor(m, m.tokens[bearer], c.verify, c.sign)
  }

  /** What the answer is, by the logs: none without a subject or without a credential, otherwise what is read back for the last
      id. */
  ghost predicate AnswerRight(m: Memory, subject: Option<string>, ids: seq<string>, services: C.CredentialServices, answer: Option<Json>) {
    if subject.None? || ids == [] then answer.None? else ReadBack(m, ids[|ids| - 1], subject.value, services, answer)
  }

  lemma AnswerForRight(m: Memory, offerId: string, verify: Outside, sign: Outside)
    ensures AnswerRight(m, SubjectNow(m, offerId, verify.offer.proof), IdsNow(m, offerId), sign.credential, AnswerFor(m, offerId, verify, sign))
  {
    AnswerReadsBack(m, SubjectNow(m, offerId, verify.offer.proof), IdsNow(m, offerId), sign.credential);
  }

  lemma AnswerReadsBack(m: Memory, subject: Option<string>, ids: seq<string>, services: C.CredentialServices)
    ensures AnswerRight(m, subject, ids, services,
                        if subject.None? || ids == [] then None else SignedNow(m, ids[|ids| - 1], subject.value, services))
  {
    if subject.Some? && ids != [] {
      SignedNowReadsBack(m, ids[|ids| - 1], subject.value, services);
    }
  }

  /** The request unwinds while it signs. */
  ghost predicate RequestUnwinds(m: Memory, offerId: string, verify: Outside) {
    SubjectNow(m, offerId, verify.offer.proof).Some? && IdsNow(m, offerId) != []
    && Unwinds(m, IdsNow(m, offerId)[|IdsNow(m, offerId)| - 1])
  }

  /** The reply is this answer, and it shows in the view of the offer's last id; without an answer it is an error. */
  ghost predicate Given(m: Memory, after: State, offerId: string, verify: Outside, answer: Option<Json>, reply: Reply) {
    && (reply.CredentialGiven? <==> answer.Some?)
    && (!reply.CredentialGiven? ==> reply == if RequestUnwinds(m, offerId, verify) then Crashed else ServerError)
    && (reply.CredentialGiven? ==>
          && reply.offerId == offerId && Some(reply.response.credential) == answer
          && IdsNow(m, offerId) != []
          && ShowsSigned(after, IdsNow(m, offerId)[|IdsNow(m, offerId)| - 1], reply.response.credential))
  }

  /** As far as the request gets, these are the surroundings of its own steps. */
  ghost predicate TookIn(before: seq<Step>, after: seq<Step>, pid: nat, m: Memory, bearer: string, c: Circumstances) {
    bearer in m.tokens ==>
      && Took(before, after, pid, c.read)
      && (c.read.metadata.Some? ==>
            && Took(before, after, pid, c.verify)
            && (SubjectNow(m, m.tokens[bearer], c.verify.offer.proof).Some? && IdsNow(m, m.tokens[bearer]) != [] ==>
                  Took(before, after, pid, c.sign)))
  }

  /** When a lone request is answered, and with what: exactly when its token is listed, the configuration is there, a subject
      has been verified now or before, the offer has a credential, and that credential is signed already or can be signed
      for the subject. A refused proof does not matter if there is a subject from before, and a credential that is signed
      already is given as it is, whomever it was signed for. What is signed, and which error it is otherwise, are given too. */
  ghost predicate CredentialAlone(before: Memory, after: State, bearer: string, c: Circumstances, reply: Reply) {
    if bearer !in before.tokens then reply == Unauthorized
    else if c.read.metadata.None? then reply == ServerError
    else
      var offerId, answer := before.tokens[bearer], AnswerAlone(before, bearer, c);
      && Given(before, after, offerId, c.verify, answer, reply)
      && AnswerRight(before, SubjectNow(before, offerId, c.verify.offer.proof), IdsNow(before, offerId), c.sign.credential, answer)
      && (Exact(before, Idle) ==> LatestAtHand(before, offerId))
  }

  /** The ids at hand are the latest on record, and what the credential views show as signed is the latest signature. */
  ghost predicate LatestAtHand(m: Memory, offerId: string) {
    && IdsNow(m, offerId) == O.LastAdded(OfferLog(m, offerId))
    && EntryOr(m.offers, offerId, O.EMPTY_VIEW).subjectId == O.LastVerified(OfferLog(m, offerId))
    && forall id :: SignatureShown(m, id)
  }

  ghost predicate SignatureShown(m: Memory, id: string) {
    var signature := C.LastSignature(CredentialLog(m, id));
    EntryOr(m.credentials, id, C.EMPTY_VIEW).signed == if signature == Some(Null) then None else signature
  }

  lemma ExactAtHand(m: Memory, offerId: string)
    requires Exact(m, Idle)
    ensures LatestAtHand(m, offerId)
  {
    assert OfferAt(m, Idle, offerId);
    O.ViewShowsLatest(OfferLog(m, offerId));
    forall id ensures SignatureShown(m, id) {
      assert CredentialAt(m, Idle, id);
      C.ViewShowsLog(CredentialLog(m, id));
    }
  }

  /** From the bearer token to its offer, with the configuration read. */
  method Enter(state: IssuanceState, pid: nat, bearer: string) returns (offerId: string, failure: Option<Reply>, ghost read: Outside)
    requires state.Valid() && state.At(pid, Process(RequestStart(bearer), Idle))
    modifies state
    ensures state.Valid() && old(state.history) <= state.history
    ensures failure.Some? ==> state.At(pid, Process(Done(failure.value), Idle)) && !failure.value.CredentialGiven?
    ensures failure.None? ==> state.At(pid, Process(RequestVerify(bearer, offerId), Idle)) && Took(old(state.history), state.history, pid, read)
    ensures state.serial ==>
              && (bearer in old(state.tokens) ==> Took(old(state.history), state.history, pid, read))
              && state.Stores() == old(state.Stores())
              && (failure.None? <==> bearer in old(state.tokens) && read.metadata.Some?)
              && (failure.Some? ==> failure.value == if bearer in old(state.tokens) then ServerError else Unauthorized)
              && (failure.None? ==> offerId == old(state.tokens)[bearer])
  {
    read := AnyOutside();
    var found := ResolveToken(state, pid, bearer);
    if found.None? {
      return "", Some(Unauthorized), read;
    }
    ghost var now := state.history;
    offerId := found.value;
    var ok;
    ok, read := ReadMetadata(state, pid, bearer, offerId);
    failure := if ok then None else Some(ServerError);
    TookWithin(old(state.history), now, state.history, state.history, pid, read);
  }

  /** From the offer to the ids to sign and the subject to sign for. */
  method Prepare(state: IssuanceState, pid: nat, bearer: string, offerId: string, elapsed: nat -> nat, timeout: nat)
    returns (poll: Poll, ghost verify: Outside)
    requires state.Valid() && state.At(pid, Process(RequestVerify(bearer, offerId), Idle)) && Sleeps(elapsed)
    modifies state
    ensures state.Valid() && Took(old(state.history), state.history, pid, verify)
    ensures poll.NotReady? ==> state.At(pid, Process(Done(ServerError), Idle))
    ensures poll.Ready? ==> state.At(pid, Process(RequestSign(bearer, offerId, poll.subjectId, poll.ids, []), Idle)) && poll.ids != []
    ensures state.serial ==>
              && SameCredentials(old(state.Stores()), state.Stores())
              && (poll.Ready? ==> offerId in state.offers)
              && var subject, ids := SubjectNow(old(state.Stores()), offerId, verify.offer.proof), IdsNow(old(state.Stores()), offerId);
                 if subject.Some? && ids != [] then poll == Ready(ids, subject.value) else poll.NotReady?
  {
    ghost var verified;
    verified, verify := VerifyRequest(state, pid, bearer, offerId);
    ghost var now, m := state.history, state.Stores();
    var queries;
    ghost var seen, moments;
    poll, queries, seen, moments := PollOffer(state, pid, bearer, offerId, elapsed, timeout);
    TookWithin(old(state.history), old(state.history), now, state.history, pid, verify);
    if state.serial {
      VerifiedView(old(state.Stores()), m, offerId, verified);
    }
  }

  ghost predicate SameCredentials(m: Memory, m': Memory) {
    m'.credentialLogs == m.credentialLogs && m'.credentials == m.credentials
  }

  lemma VerifiedView(before: Memory, after: Memory, offerId: string, verified: Option<string>)
    requires after == if verified.None? then before
                      else var event := O.CredentialRequestVerified(verified.value);
                           Dispatched(Appended(before, offerId, event), offerId, event)
    ensures SameCredentials(before, after)
    ensures IdsNow(after, offerId) == IdsNow(before, offerId)
    ensures EntryOr(after.offers, offerId, O.EMPTY_VIEW).subjectId
         == if verified.Some? then verified else EntryOr(before.offers, offerId, O.EMPTY_VIEW).subjectId
    ensures offerId !in after.offers ==> offerId !in before.offers
  {
  }

  /** The reply when nothing is read back. */
  function Failed(m: Memory, id: string, subjectId: string, services: C.CredentialServices): Reply {
    if Emits(m, id, subjectId, services) == Failure(C.Panic) then Crashed else ServerError
  }

  /** From the ids to the reply. */
  method SignAndRespond(state: IssuanceState, pid: nat, bearer: string, offerId: string, subjectId: string, ids: seq<string>)
    returns (reply: Reply, ghost sign: Outside)
    requires state.Valid() && ids != [] && state.At(pid, Process(RequestSign(bearer, offerId, subjectId, ids, []), Idle))
    modifies state
    ensures state.Valid() && Took(old(state.history), state.history, pid, sign) && state.At(pid, Process(Done(reply), Idle))
    ensures |ids| == 1
    ensures reply.CredentialGiven? ==> reply.bearer == bearer && reply.offerId == offerId
    ensures state.serial && offerId in old(state.offers) ==>
              && (reply.CredentialGiven? <==> SignedNow(old(state.Stores()), ids[0], subjectId, sign.credential).Some?)
              && (!reply.CredentialGiven? ==> reply == Failed(old(state.Stores()), ids[0], subjectId, sign.credential))
              && (reply.CredentialGiven? ==>
                    && SignedNow(old(state.Stores()), ids[0], subjectId, sign.credential) == Some(reply.response.credential)
                    && ShowsSigned(Run(state.history), ids[0], reply.response.credential))
  {
    SignsOne(state.history, pid);
    var signed, panicked;
    signed, panicked, sign := SignAll(state, pid, bearer, offerId, subjectId, ids);
    if signed.None? {
      reply := if panicked then Crashed else ServerError;
      return;
    }
    ghost var now := state.history;
    reply := RespondAndRead(state, pid, bearer, offerId, subjectId, ids, signed.value);
    TookWithin(old(state.history), old(state.history), now, state.history, pid, sign);
    StillSigned(now, state.history, ids, signed.value);
  }

  method RespondAndRead(state: IssuanceState, pid: nat, bearer: string, offerId: string, ghost subjectId: string, ghost ids: seq<string>,
                        signed: seq<Json>)
    returns (reply: Reply)
    requires state.Valid() && signed != []
    requires state.At(pid, Process(RequestRespond(bearer, offerId, subjectId, ids, signed), Idle))
    modifies state
    ensures state.Valid() && old(state.history) <= state.history && state.At(pid, Process(Done(reply), Idle))
    ensures reply.CredentialGiven? ==> reply.bearer == bearer && reply.offerId == offerId
    ensures state.serial ==> reply == CredentialGiven(bearer, offerId, O.CredentialResponse(signed[|signed| - 1]))
  {
    Respond(state, pid, bearer, offerId, subjectId, ids, signed);
    reply := ReadResponse(state, pid, bearer, offerId);
  }

  /** What comes of a request when its poll ends without ids or without a subject. */
  lemma NotReadyGives(m: Memory, after: State, offerId: string, verify: Outside, sign: Outside)
    requires SubjectNow(m, offerId, verify.offer.proof).None? || IdsNow(m, offerId) == []
    ensures Given(m, after, offerId, verify, AnswerFor(m, offerId, verify, sign), ServerError)
  {
  }

  /** What comes of it when the poll ends with both. */
  lemma ReadyGives(m: Memory, prepared: Memory, after: State, offerId: string, verify: Outside, sign: Outside, subjectId: string,
                   ids: seq<string>, reply: Reply)
    requires SameCredentials(m, prepared) && |ids| == 1 && ids == IdsNow(m, offerId)
    requires SubjectNow(m, offerId, verify.offer.proof) == Some(subjectId)
    requires reply.CredentialGiven? <==> SignedNow(prepared, ids[0], subjectId, sign.credential).Some?
    requires !reply.CredentialGiven? ==> reply == Failed(prepared, ids[0], subjectId, sign.credential)
    requires reply.CredentialGiven? ==>
               && reply.offerId == offerId
               && SignedNow(prepared, ids[0], subjectId, sign.credential) == Some(reply.response.credential)
               && ShowsSigned(after, ids[0], reply.response.credential)
    ensures Given(m, after, offerId, verify, AnswerFor(m, offerId, verify, sign), reply)
  {
    SameCredentialsSigned(m, prepared, ids[0], subjectId, sign.credential);
    SignedNowReadsBack(m, ids[0], subjectId, sign.credential);
  }

  /** From the verification to the reply. */
  method Serve(state: IssuanceState, pid: nat, bearer: string, offerId: string, elapsed: nat -> nat, timeout: nat)
    returns (reply: Reply, ghost verify: Outside, ghost sign: Outside)
    requires state.Valid() && state.At(pid, Process(RequestVerify(bearer, offerId), Idle)) && Sleeps(elapsed)
    modifies state
    ensures state.Valid() && Took(old(state.history), state.history, pid, verify) && state.At(pid, Process(Done(reply), Idle))
    ensures reply.CredentialGiven? ==> reply.bearer == bearer && reply.offerId == offerId
    ensures state.serial ==>
              var m := old(state.Stores());
              && (SubjectNow(m, offerId, verify.offer.proof).Some? && IdsNow(m, offerId) != [] ==>
                    Took(old(state.history), state.history, pid, sign))
              && Given(m, Run(state.history), offerId, verify, AnswerFor(m, offerId, verify, sign), reply)
  {
    ghost var m := state.Stores();
    sign := AnyOutside();
    var poll;
    poll, verify := Prepare(state, pid, bearer, offerId, elapsed, timeout);
    if poll.NotReady? {
      if state.serial {
        NotReadyGives(m, Run(state.history), offerId, verify, sign);
      }
      return ServerError, verify, sign;
    }
    ghost var history, prepared := state.history, state.Stores();
    reply, sign := SignAndRespond(state, pid, bearer, offerId, poll.subjectId, poll.ids);
    TookWithin(old(state.history), old(state.history), history, state.history, pid, verify);
    TookWithin(old(state.history), history, state.history, state.history, pid, sign);
    if state.serial {
      ReadyGives(m, prepared, Run(state.history), offerId, verify, sign, poll.subjectId, poll.ids, reply);
    }
  }

  lemma SameCredentialsSigned(m: Memory, m': Memory, id: string, subjectId: string, services: C.CredentialServices)
    requires SameCredentials(m, m')
    ensures SignedNow(m', id, subjectId, services) == SignedNow(m, id, subjectId, services)
    ensures Failed(m', id, subjectId, services) == Failed(m, id, subjectId, services)
  {
  }

  method Credential(state: IssuanceState, pid: nat, bearer: string, elapsed: nat -> nat, timeout: nat)
    returns (reply: Reply, ghost c: Circumstances)
    requires state.Valid() && state.At(pid, Process(Entrance(PostCredential(bearer)), Idle)) && Sleeps(elapsed)
    modifies state
    ensures state.Valid() && old(state.history) <= state.history && state.At(pid, Process(Done(reply), Idle))
    ensures CredentialReplyRight(state.Mem(), bearer, reply)
    ensures state.serial ==>
              && TookIn(old(state.history), state.history, pid, old(state.Stores()), bearer, c)
              && CredentialAlone(old(state.Stores()), Run(state.history), bearer, c, reply)
  {
    var offerId, failure;
    ghost var read;
    offerId, failure, read := Enter(state, pid, bearer);
    c := Circumstances(read, AnyOutside(), AnyOutside());
    if failure.Some? {
      return failure.value, c;
    }
    ghost var entered := state.history;
    ghost var verify, sign;
    reply, verify, sign := Serve(state, pid, bearer, offerId, elapsed, timeout);
    c := Circumstances(read, verify, sign);
    if reply.CredentialGiven? {
      Provenance(state.history, pid, bearer, offerId, reply.response);
    }
    if state.serial {
      TookWithin(old(state.history), old(state.history), entered, state.history, pid, read);
      TookWithin(old(state.history), entered, state.history, state.history, pid, verify);
      TookSigning(old(state.history), entered, state.history, pid, sign);
      AnswerForRight(old(state.Stores()), offerId, verify, sign);
      if Exact(old(state.Stores()), Idle) {
        ExactAtHand(old(state.Stores()), offerId);
      }
    }
  }

  lemma TookSigning(first: seq<Step>, before: seq<Step>, after: seq<Step>, pid: nat, w: Outside)
    requires first <= before
    ensures Took(before, after, pid, w) ==> Took(first, after, pid, w)
  {
    if Took(before, after, pid, w) {
      TookWithin(first, before, after, after, pid, w);
    }
  }
}
