/** What the issuer promises its callers, over every run and every interleaving of its four endpoints. */
module IssuerTheorems {
  import opened Wrappers
  import opened Json
  import opened EventSourcing
  import opened IssuerMachine
  import opened IssuerInvariant
  import opened IssuerSteps
  import opened IssuerPreservation
  import O = IssuerOffer

  ghost predicate Answered(s: State, pid: nat, reply: Reply) {
    pid in s.processes && s.processes[pid].pc == Done(reply)
  }

  /** No dispatch is under way. */
  ghost predicate Quiet(s: State) {
    forall p :: p in s.processes ==> s.processes[p].pending.Idle?
  }

  /** Provenance. A successful credential response carries the signed value of a credential bound to the one offer that
      was created with the bearer token, and to no other offer; and no response of that offer went on record before a
      credential request for it had been verified. */
  lemma Provenance(steps: seq<Step>, pid: nat, bearer: string, offerId: string, response: O.CredentialResponse)
    requires Answered(Run(steps), pid, CredentialGiven(bearer, offerId, response))
    ensures var m := Run(steps).memory;
            && (forall o :: TokenOf(m, o, bearer) <==> o == offerId)
            && (exists id :: SignedAs(m, id, response.credential) && forall o :: Bound(m, o, id) <==> o == offerId)
            && O.CredentialResponseCreated(response) in OfferLog(m, offerId)
            && VerifiedFirst(OfferLog(m, offerId))
  {
    var s := Run(steps);
    var m := s.memory;
    assert PcFacts(m, s.processes[pid].pc) && UniqueIssue(m) && EventsOk(m) && BoundOnce(m) && VerifiedFirst(OfferLog(m, offerId)) by {
      Reachable(steps);
      assert ProcessOk(m, s.processes[pid]);
    }
    OneOfferPerToken(m, offerId, bearer);
    CarriedByOneOffer(m, offerId, response);
  }

  lemma CarriedByOneOffer(m: Memory, offerId: string, response: O.CredentialResponse)
    requires EventsOk(m) && BoundOnce(m) && O.CredentialResponseCreated(response) in OfferLog(m, offerId)
    ensures exists id :: SignedAs(m, id, response.credential) && forall o :: Bound(m, o, id) <==> o == offerId
  {
    assert EventOk(m, offerId, O.CredentialResponseCreated(response));
    var id :| Bound(m, offerId, id) && SignedAs(m, id, response.credential);
    assert forall o :: Bound(m, o, id) <==> o == offerId;
  }

  lemma OneOfferPerToken(m: Memory, offerId: string, token: string)
    requires UniqueIssue(m) && TokenOf(m, offerId, token)
    ensures forall o :: TokenOf(m, o, token) <==> o == offerId
  {
    var e :| e in OfferLog(m, offerId) && e.CredentialOfferCreated? && e.accessToken == token;
    forall o | TokenOf(m, o, token) ensures o == offerId {
      var f :| f in OfferLog(m, o) && f.CredentialOfferCreated? && f.accessToken == token;
    }
  }

  lemma OneOfferPerCode(m: Memory, offerId: string, code: string)
    requires UniqueIssue(m) && CodeOf(m, offerId, code)
    ensures forall o :: CodeOf(m, o, code) <==> o == offerId
  {
    var e :| e in OfferLog(m, offerId) && e.CredentialOfferCreated? && e.preAuthorizedCode == code;
    forall o | CodeOf(m, o, code) ensures o == offerId {
      var f :| f in OfferLog(m, o) && f.CredentialOfferCreated? && f.preAuthorizedCode == code;
    }
  }

  /** Interleaving independence. However the loads and stores of concurrent dispatches mix, once they are over the two
      indexes hold exactly the codes and tokens ever issued, superseded ones included, each with its own offer: the result
      is a function of the logs alone. Before that, what an index holds is already right. */
  lemma IndexesFollowLogs(steps: seq<Step>)
    ensures var s := Run(steps);
            && (forall code :: code in s.memory.codes ==> CodeOf(s.memory, s.memory.codes[code], code))
            && (forall token :: token in s.memory.tokens ==> TokenOf(s.memory, s.memory.tokens[token], token))
            && (Quiet(s) ==> forall o, code :: (code in s.memory.codes && s.memory.codes[code] == o) <==> CodeOf(s.memory, o, code))
            && (Quiet(s) ==> forall o, token :: (token in s.memory.tokens && s.memory.tokens[token] == o) <==> TokenOf(s.memory, o, token))
  {
    Reachable(steps);
    var s := Run(steps);
    if Quiet(s) {
      forall o, code | CodeOf(s.memory, o, code) ensures code in s.memory.codes && s.memory.codes[code] == o {
        var e :| e in OfferLog(s.memory, o) && e.CredentialOfferCreated? && e.preAuthorizedCode == code;
      }
      forall o, token | TokenOf(s.memory, o, token) ensures token in s.memory.tokens && s.memory.tokens[token] == o {
        var e :| e in OfferLog(s.memory, o) && e.CredentialOfferCreated? && e.accessToken == token;
      }
    }
  }

  /** Code to token. A token response answers with an access token of the one offer the code was issued for, and unless
      the creation of that token is still being dispatched, the token resolves to that offer. It never resolves to another. */
  lemma TokenRoundTrip(steps: seq<Step>, pid: nat, code: string, offerId: string, response: O.TokenResponse)
    requires Answered(Run(steps), pid, TokenGiven(code, offerId, response))
    ensures var s, token := Run(steps), response.accessToken;
            && (forall o :: CodeOf(s.memory, o, code) <==> o == offerId)
            && (forall o :: TokenOf(s.memory, o, token) <==> o == offerId)
            && (token in s.memory.tokens ==> s.memory.tokens[token] == offerId)
            && (token in s.memory.tokens
                || exists p: nat, e: O.OfferEvent :: p in s.processes && e.CredentialOfferCreated? && e.accessToken == token
                                  && Dispatches(s.processes[p], offerId, e))
  {
    var s, token := Run(steps), response.accessToken;
    TokenReplyFacts(steps, pid, code, offerId, response);
    OneOfferPerCode(s.memory, offerId, code);
    OneOfferPerToken(s.memory, offerId, token);
    TokenListedOrUnderWay(s, offerId, token);
    if token in s.memory.tokens {
      assert TokenOf(s.memory, s.memory.tokens[token], token);
    }
  }

  lemma TokenReplyFacts(steps: seq<Step>, pid: nat, code: string, offerId: string, response: O.TokenResponse)
    requires Answered(Run(steps), pid, TokenGiven(code, offerId, response))
    ensures var m := Run(steps).memory;
            && UniqueIssue(m) && IndexesSound(m) && IndexesComplete(Run(steps))
            && CodeOf(m, offerId, code) && TokenOf(m, offerId, response.accessToken)
  {
    Reachable(steps);
    assert ProcessOk(Run(steps).memory, Run(steps).processes[pid]);
    assert EventOk(Run(steps).memory, offerId, O.TokenResponseCreated(response));
  }

  lemma TokenListedOrUnderWay(s: State, offerId: string, token: string)
    requires IndexesComplete(s) && TokenOf(s.memory, offerId, token)
    ensures token in s.memory.tokens
            || exists p: nat, e: O.OfferEvent :: p in s.processes && e.CredentialOfferCreated? && e.accessToken == token
                                                 && Dispatches(s.processes[p], offerId, e)
  {
    var e :| e in OfferLog(s.memory, offerId) && e.CredentialOfferCreated? && e.accessToken == token;
    if token !in s.memory.tokens {
      var p :| p in s.processes && Dispatches(s.processes[p], offerId, e);
    }
  }

  /** What `offers` shows as an offer carries a code of that offer and of no other. */
  lemma ShownCodeIsOwn(steps: seq<Step>, pid: nat, offerId: string, form: O.Form)
    requires Answered(Run(steps), pid, OfferShown(offerId, form)) && form.Some?
    ensures forall o :: CodeOf(Run(steps).memory, o, form.value.preAuthorizedCode) <==> o == offerId
  {
    var m := Run(steps).memory;
    assert PcFacts(m, Run(steps).processes[pid].pc) && UniqueIssue(m) && EventsOk(m) by {
      Reachable(steps);
      assert ProcessOk(m, Run(steps).processes[pid]);
    }
    assert EventOk(m, offerId, O.FormUrlEncodedCredentialOfferCreated(form));
    OneOfferPerCode(m, offerId, form.value.preAuthorizedCode);
  }

  /** The whole flow, whatever else goes on: an offer shown for `offer0`, a token given for its code, a credential given for
      that token. All three are about the same offer, and the credential is the signed form of one bound to it. */
  lemma FlowStaysInOneOffer(steps: seq<Step>, p: nat, offer0: string, form: O.Form, q: nat, offer1: string, token: O.TokenResponse,
                            r: nat, offer2: string, response: O.CredentialResponse)
    requires Answered(Run(steps), p, OfferShown(offer0, form)) && form.Some?
    requires Answered(Run(steps), q, TokenGiven(form.value.preAuthorizedCode, offer1, token))
    requires Answered(Run(steps), r, CredentialGiven(token.accessToken, offer2, response))
    ensures offer0 == offer1 == offer2
    ensures exists id :: SignedAs(Run(steps).memory, id, response.credential) && forall o :: Bound(Run(steps).memory, o, id) <==> o == offer0
  {
    ShownCodeIsOwn(steps, p, offer0, form);
    TokenRoundTrip(steps, q, form.value.preAuthorizedCode, offer1, token);
    Provenance(steps, r, token.accessToken, offer2, response);
    assert CodeOf(Run(steps).memory, offer1, form.value.preAuthorizedCode);
    assert TokenOf(Run(steps).memory, offer1, token.accessToken);
  }

  // ----- signing -----

  /** A credential has at most one signed value on record, ever. */
  lemma OneSignature(steps: seq<Step>, id: string, v1: Json, v2: Json)
    requires SignedAs(Run(steps).memory, id, v1) && SignedAs(Run(steps).memory, id, v2)
    ensures v1 == v2
  {
    Reachable(steps);
    assert Shape(CredentialLog(Run(steps).memory, id));
  }

  ghost predicate ShowsSigned(s: State, id: string, value: Json) {
    id in s.memory.credentials && s.memory.credentials[id].signed == Some(value)
  }

  lemma OtherViewsKept(m: Memory, effect: Effect, id: string)
    requires id in m.credentials && (effect.PutCredential? ==> effect.id != id)
    ensures id in Perform(m, effect).credentials && Perform(m, effect).credentials[id] == m.credentials[id]
  {
  }

  lemma RightfulStoreKeepsSigned(m: Memory, p: Process, action: Action, id: string, value: Json)
    requires WriterOk(m, p) && WriterRight(m, p, action) && Shape(CredentialLog(m, id))
    requires id in m.credentials && m.credentials[id].signed == Some(value)
    ensures var m' := Perform(m, action.effect); id in m'.credentials && m'.credentials[id].signed == Some(value)
  {
    if action.effect.PutCredential? && action.effect.id == id {
      RewrittenUnsigned(m, p, id);
    } else {
      OtherViewsKept(m, action.effect, id);
    }
  }

  lemma StepKeepsSigned(s: State, step: Step, id: string, value: Json)
    requires Inv(s) && ShowsSigned(s, id, value)
    ensures ShowsSigned(Exec(s, step), id, value)
  {
    if Enabled(s, step) && step.Move? {
      var p := s.processes[step.pid];
      var action := Act(s.memory, p, step.w);
      assert WriterOk(s.memory, p) && WriterRight(s.memory, p, action) by {
        assert ProcessOk(s.memory, p);
        StepJustified(s, step.pid, step.w);
      }
      RightfulStoreKeepsSigned(s.memory, p, action, id, value);
    }
  }

  /** Write-once. What a credential view shows as signed it shows for the rest of the run, whatever requests follow. */
  lemma {:induction false} WriteOnce(steps: seq<Step>, later: seq<Step>, id: string, value: Json)
    requires ShowsSigned(Run(steps), id, value)
    ensures ShowsSigned(Run(steps + later), id, value)
  {
    if later == [] {
      assert steps + later == steps;
    } else {
      var front, last := later[..|later| - 1], later[|later| - 1];
      WriteOnce(steps, front, id, value);
      assert steps + later == (steps + front) + [last];
      ReplaySnoc(Exec, INITIAL, steps + front, last);
      Reachable(steps + front);
      StepKeepsSigned(Run(steps + front), last, id, value);
    }
  }

  /** The credential views need no luck: apart from the one dispatch that may be rewriting a view, every view shows the
      whole log of its credential, although loads and stores are not atomic. */
  lemma CredentialViewsFollowLogs(steps: seq<Step>, id: string)
    ensures var s := Run(steps);
            Shown(s.memory, id, CredentialLog(s.memory, id))
            || (BeingWritten(s.processes, id)
                && CredentialLog(s.memory, id) != []
                && Shown(s.memory, id, CredentialLog(s.memory, id)[..|CredentialLog(s.memory, id)| - 1]))
  {
    Reachable(steps);
    var s := Run(steps);
    if !Shown(s.memory, id, CredentialLog(s.memory, id)) {
      var p :| p in s.processes && Writer(s.processes[p]) == Some(id);
      assert ProcessOk(s.memory, s.processes[p]);
    }
  }

  /** A request never signs more than one credential: every list of ids on record has one element. */
  lemma SignsOne(steps: seq<Step>, pid: nat)
    requires pid in Run(steps).processes
    ensures var pc := Run(steps).processes[pid].pc;
            pc.RequestSign? || pc.RequestRead? || pc.RequestRespond? ==> |pc.ids| == 1
  {
    var m, pc := Run(steps).memory, Run(steps).processes[pid].pc;
    assert PcFacts(m, pc) && EventsOk(m) by {
      Reachable(steps);
      assert ProcessOk(m, Run(steps).processes[pid]);
    }
    if pc.RequestSign? || pc.RequestRead? || pc.RequestRespond? {
      assert EventOk(m, pc.offerId, O.CredentialsAdded(pc.ids));
    }
  }

  /** A credential is only ever signed for a subject that was verified for the offer it is bound to. */
  lemma SignsForVerifiedSubject(steps: seq<Step>, pid: nat)
    requires pid in Run(steps).processes && Run(steps).processes[pid].pc.RequestSign?
    ensures var m, pc := Run(steps).memory, Run(steps).processes[pid].pc;
            && O.CredentialRequestVerified(pc.subjectId) in OfferLog(m, pc.offerId)
            && (forall id :: id in pc.ids ==> forall o :: Bound(m, o, id) <==> o == pc.offerId)
  {
    var s := Run(steps);
    var m, pc := s.memory, s.processes[pid].pc;
    assert PcFacts(m, pc) && EventsOk(m) && BoundOnce(m) by {
      Reachable(steps);
      assert ProcessOk(m, s.processes[pid]);
    }
    assert EventOk(m, pc.offerId, O.CredentialsAdded(pc.ids));
    assert pc.ids == [pc.ids[0]];
    assert Bound(m, pc.offerId, pc.ids[0]);
  }
}
