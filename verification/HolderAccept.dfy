/**
 The holder's `accept` handler (`agent_api_rest/src/holder/holder/offers/accept.rs`): accept the offer, request its credentials,
 and give each of them an aggregate of its own.
 */
module HolderAccept {
  import opened Wrappers
  import opened Json
  import opened EventSourcing
  import H = HolderOffer
  import HC = HolderCredential

  datatype Reply = Ok | NotFound | ServerError

  // ----- what the fan-out adds, on values -----

  /** The entry of a credential: its own id, the offer it came from, and the credential, absent when it is null. */
  function Tagged(id: string, offerId: string, credential: Json): HC.CredentialView {
    HC.CredentialView(credentialId := Some(id), offerId := Some(offerId),
                      credential := if credential == Null then None else Some(credential))
  }

  /** What the event of an added credential makes of the empty view. */
  lemma AddedTagged(id: string, offerId: string, credential: Json)
    ensures HC.Store(HC.EMPTY_VIEW, HC.CredentialAdded(id, offerId, credential)) == Tagged(id, offerId, credential)
  {
    var event := HC.CredentialAdded(id, offerId, credential);
    HC.FieldsAreLatest([event]);
    assert [event][..0] == [];
  }

  /** The list after the first credentials have been added under `added`, in order. */
  function Grown(listed: map<string, HC.CredentialView>, offerId: string, credentials: seq<Json>, added: seq<string>)
    : map<string, HC.CredentialView>
    requires |added| <= |credentials|
  {
    if added == [] then listed
    else
      var n := |added| - 1;
      Grown(listed, offerId, credentials, added[..n])[added[n] := Tagged(added[n], offerId, credentials[n])]
  }

  ghost predicate Fresh(used: set<string>, added: seq<string>) {
    && (forall i :: 0 <= i < |added| ==> added[i] !in used)
    && (forall i, j :: 0 <= i < j < |added| ==> added[i] != added[j])
  }

  lemma {:induction false} GrownMembers(listed: map<string, HC.CredentialView>, offerId: string, credentials: seq<Json>,
                                        added: seq<string>, id: string)
    requires |added| <= |credentials|
    ensures id in Grown(listed, offerId, credentials, added) <==> id in listed || id in added
  {
    if added != [] {
      var n := |added| - 1;
      GrownMembers(listed, offerId, credentials, added[..n], id);
      assert added == added[..n] + [added[n]];
    }
  }

  lemma SizeOfUpdate<K, V>(m: map<K, V>, key: K, value: V)
    requires key !in m
    ensures |m[key := value]| == |m| + 1
  {
    assert m[key := value].Keys == m.Keys + {key};
    assert |m| == |m.Keys| && |m[key := value]| == |m[key := value].Keys|;
  }

  lemma {:induction false} GrownSize(listed: map<string, HC.CredentialView>, offerId: string, credentials: seq<Json>, added: seq<string>)
    requires |added| <= |credentials| && Fresh(listed.Keys, added)
    ensures |Grown(listed, offerId, credentials, added)| == |listed| + |added|
  {
    if added != [] {
      var n := |added| - 1;
      GrownSize(listed, offerId, credentials, added[..n]);
      GrownMembers(listed, offerId, credentials, added[..n], added[n]);
      SizeOfUpdate(Grown(listed, offerId, credentials, added[..n]), added[n], Tagged(added[n], offerId, credentials[n]));
    }
  }

  lemma {:induction false} GrownEntry(listed: map<string, HC.CredentialView>, offerId: string, credentials: seq<Json>,
                                      added: seq<string>, i: nat)
    requires i < |added| <= |credentials| && Fresh(listed.Keys, added)
    ensures var grown := Grown(listed, offerId, credentials, added);
            added[i] in grown && grown[added[i]] == Tagged(added[i], offerId, credentials[i])
  {
    var n := |added| - 1;
    if i < n {
      GrownEntry(listed, offerId, credentials, added[..n], i);
    }
  }

  lemma {:induction false} GrownElsewhere(listed: map<string, HC.CredentialView>, offerId: string, credentials: seq<Json>,
                                          added: seq<string>, id: string)
    requires |added| <= |credentials| && id in listed && id !in added
    ensures var grown := Grown(listed, offerId, credentials, added); id in grown && grown[id] == listed[id]
  {
    if added != [] {
      assert added[|added| - 1] in added;
      GrownElsewhere(listed, offerId, credentials, added[..|added| - 1], id);
    }
  }

  /** Conservation: under fresh ids exactly one entry per credential is new, tagged with the offer and in order, and no
      other entry changes. */
  lemma GrownExactly(listed: map<string, HC.CredentialView>, offerId: string, credentials: seq<Json>, added: seq<string>)
    requires |added| <= |credentials| && Fresh(listed.Keys, added)
    ensures var grown := Grown(listed, offerId, credentials, added);
            && |grown| == |listed| + |added|
            && (forall id :: id in grown <==> id in listed || id in added)
            && (forall id :: id in listed ==> grown[id] == listed[id])
            && (forall i :: 0 <= i < |added| ==> grown[added[i]] == Tagged(added[i], offerId, credentials[i]))
  {
    var grown := Grown(listed, offerId, credentials, added);
    GrownSize(listed, offerId, credentials, added);
    forall id ensures id in grown <==> id in listed || id in added {
      GrownMembers(listed, offerId, credentials, added, id);
    }
    forall id | id in listed ensures grown[id] == listed[id] {
      GrownElsewhere(listed, offerId, credentials, added, id);
    }
    forall i | 0 <= i < |added| ensures grown[added[i]] == Tagged(added[i], offerId, credentials[i]) {
      GrownEntry(listed, offerId, credentials, added, i);
    }
  }

  // ----- what a dispatched batch does to the views, on values -----

  ghost predicate ShowsOne<S, E>(step: (S, E) -> S, empty: S, logs: map<string, seq<E>>, views: map<string, S>,
                                 listed: map<string, S>, id: string)
  {
    var log := EntryOr(logs, id, []);
    Follows(views, step, empty, id, log) && Follows(listed, step, empty, id, log)
  }

  /** Two views, single and listed, that show exactly the logs. */
  ghost predicate Show<S, E>(step: (S, E) -> S, empty: S, logs: map<string, seq<E>>, views: map<string, S>, listed: map<string, S>) {
    forall id :: ShowsOne(step, empty, logs, views, listed, id)
  }

  function WithBatch<S, E>(step: (S, E) -> S, empty: S, views: map<string, S>, id: string, events: seq<E>): map<string, S> {
    views[id := Replay(step, EntryOr(views, id, empty), events)]
  }

  lemma ShowBatch<S, E>(step: (S, E) -> S, empty: S, logs: map<string, seq<E>>, views: map<string, S>, listed: map<string, S>,
                        id: string, events: seq<E>)
    requires Show(step, empty, logs, views, listed) && events != []
    ensures Show(step, empty, logs[id := EntryOr(logs, id, []) + events],
                 WithBatch(step, empty, views, id, events), WithBatch(step, empty, listed, id, events))
  {
    var log := EntryOr(logs, id, []);
    assert ShowsOne(step, empty, logs, views, listed, id);
    FollowsBatch(views, step, empty, id, log, events);
    FollowsBatch(listed, step, empty, id, log, events);
    var logs', views' := logs[id := log + events], WithBatch(step, empty, views, id, events);
    var listed' := WithBatch(step, empty, listed, id, events);
    forall o ensures ShowsOne(step, empty, logs', views', listed', o) {
      assert ShowsOne(step, empty, logs, views, listed, o);
    }
  }

  /** A new credential: its one event makes it appear, tagged, in both views. */
  lemma NewInBoth(logs: map<string, seq<HC.CredentialEvent>>, views: map<string, HC.CredentialView>,
                  listed: map<string, HC.CredentialView>, id: string, events: seq<HC.CredentialEvent>)
    requires Show(HC.Store, HC.EMPTY_VIEW, logs, views, listed) && id !in logs && |events| == 1
    ensures id !in views && id !in listed
    ensures WithBatch(HC.Store, HC.EMPTY_VIEW, listed, id, events)[id] == HC.Store(HC.EMPTY_VIEW, events[0])
    ensures FoldAll(HC.Store, HC.EMPTY_VIEW, listed, Enveloped(id, events)) == WithBatch(HC.Store, HC.EMPTY_VIEW, listed, id, events)
    ensures Show(HC.Store, HC.EMPTY_VIEW, logs[id := events], WithBatch(HC.Store, HC.EMPTY_VIEW, views, id, events),
                 WithBatch(HC.Store, HC.EMPTY_VIEW, listed, id, events))
  {
    assert ShowsOne(HC.Store, HC.EMPTY_VIEW, logs, views, listed, id);
    assert events[..0] == [] && [] + events == events;
    ShowBatch(HC.Store, HC.EMPTY_VIEW, logs, views, listed, id, events);
    FoldBatch(HC.Store, HC.EMPTY_VIEW, listed, id, events);
  }

  ghost predicate AllLawful(logs: map<string, seq<H.OfferEvent>>) {
    forall o :: o in logs ==> H.Lawful(logs[o])
  }

  lemma HandledStaysLawful(logs: map<string, seq<H.OfferEvent>>, id: string, command: H.OfferCommand, wallet: H.Wallet)
    requires AllLawful(logs)
    ensures var log := EntryOr(logs, id, []);
            var r := H.Handle(H.Aggregate(log), command, wallet);
            r.Success? ==> r.value != [] && AllLawful(logs[id := log + r.value])
  {
    var log := EntryOr(logs, id, []);
    var r := H.Handle(H.Aggregate(log), command, wallet);
    assert H.Lawful(log);
    H.HandledIsBatch(H.Aggregate(log), command, wallet);
    if r.Success? {
      H.LawfulAppend(log, r.value);
    }
  }

  // ----- what other requests may have done meanwhile -----

  datatype Logs = Logs(offers: map<string, seq<H.OfferEvent>>, credentials: map<string, seq<HC.CredentialEvent>>, drawn: set<string>)

  /** Logs of offers grow, credentials stay as they were added, and new ones have new ids. */
  ghost predicate Grew(before: Logs, after: Logs) {
    && (forall o :: EntryOr(before.offers, o, []) <= EntryOr(after.offers, o, []))
    && (forall c :: c in before.credentials ==> c in after.credentials && after.credentials[c] == before.credentials[c])
    && (forall c :: c in after.credentials && c !in before.credentials ==> c !in before.drawn)
    && before.drawn <= after.drawn
  }

  lemma GrewOn(first: Logs, second: Logs, third: Logs)
    requires Grew(first, second) && Grew(second, third)
    ensures Grew(first, third)
  {
    forall o ensures EntryOr(first.offers, o, []) <= EntryOr(third.offers, o, []) {
      assert EntryOr(first.offers, o, []) <= EntryOr(second.offers, o, []) <= EntryOr(third.offers, o, []);
    }
  }

  /** The credentials that a request has added: each under its own id, tagged with the offer, in order. */
  ghost predicate Mine(credentialLogs: map<string, seq<HC.CredentialEvent>>, offerId: string, credentials: seq<Json>, added: seq<string>) {
    && |added| <= |credentials|
    && forall i :: 0 <= i < |added| ==>
         added[i] in credentialLogs && credentialLogs[added[i]] == [HC.CredentialAdded(added[i], offerId, credentials[i])]
  }

  /** How far a fan-out has got: what it has added since `first`, all of it stored. */
  ghost predicate Added(first: Logs, now: Logs, offerId: string, credentials: seq<Json>, added: seq<string>, stored: nat -> bool) {
    && Grew(first, now) && Mine(now.credentials, offerId, credentials, added) && Fresh(first.drawn, added)
    && forall j :: 0 <= j < |added| ==> added[j] in now.drawn && stored(j)
  }

  lemma AddedKept(first: Logs, before: Logs, now: Logs, offerId: string, credentials: seq<Json>, added: seq<string>, stored: nat -> bool)
    requires Added(first, before, offerId, credentials, added, stored) && Grew(before, now)
    ensures Added(first, now, offerId, credentials, added, stored)
  {
    GrewOn(first, before, now);
  }

  lemma AddedNext(first: Logs, now: Logs, offerId: string, credentials: seq<Json>, added: seq<string>, stored: nat -> bool,
                  drawnBefore: set<string>, id: string)
    requires Added(first, now, offerId, credentials, added, stored) && |added| < |credentials| && stored(|added|)
    requires first.drawn <= drawnBefore && (forall j :: 0 <= j < |added| ==> added[j] in drawnBefore) && id !in drawnBefore && id in now.drawn
    requires id in now.credentials && now.credentials[id] == [HC.CredentialAdded(id, offerId, credentials[|added|])]
    ensures Added(first, now, offerId, credentials, added + [id], stored)
  {
  }

  class HolderState {
    var offerLogs: map<string, seq<H.OfferEvent>>
    var credentialLogs: map<string, seq<HC.CredentialEvent>>
    const receivedOffer: GenericQuery<H.ReceivedOfferView, H.OfferEvent>
    const allReceivedOffers: ListAllQuery<H.ReceivedOfferView, H.OfferEvent>
    const holderCredential: GenericQuery<HC.CredentialView, HC.CredentialEvent>
    const allHolderCredentials: ListAllQuery<HC.CredentialView, HC.CredentialEvent>
    /** The ids used so far, and how many were drawn: they feed the random generator. */
    var drawn: set<string>
    var ticks: nat
    const uuid: (set<string>, nat) -> string
    /** No other request moves during a call. */
    ghost const serial: bool

    /** `holder_state`: everything empty. */
    constructor (uuid: (set<string>, nat) -> string, ghost serial: bool)
      requires forall used, n :: uuid(used, n) !in used
      ensures Valid() && offerLogs == map[] && credentialLogs == map[] && fresh(Repositories()) && this.serial == serial
    {
      var views := new MemRepository<H.ReceivedOfferView>();
      var allViews := new MemRepository<map<string, H.ReceivedOfferView>>();
      var credentialViews := new MemRepository<HC.CredentialView>();
      var allCredentialViews := new MemRepository<map<string, HC.CredentialView>>();
      receivedOffer := new GenericQuery(views, H.Update, H.EMPTY_VIEW);
      allReceivedOffers := new ListAllQuery(allViews, "all_received_offers", H.Update, H.EMPTY_VIEW);
      holderCredential := new GenericQuery(credentialViews, HC.Store, HC.EMPTY_VIEW);
      allHolderCredentials := new ListAllQuery(allCredentialViews, "all_holder_credentials", HC.Store, HC.EMPTY_VIEW);
      offerLogs, credentialLogs, drawn, ticks := map[], map[], {}, 0;
      this.uuid, this.serial := uuid, serial;
    }

    ghost function Now(): Logs
      reads this
    {
      Logs(offerLogs, credentialLogs, drawn)
    }

    /** Any other requests take any number of steps, each a whole command; none in a serial run. */
    method Others()
      requires Valid()
      modifies this, Repositories()
      ensures Valid() && Grew(old(Now()), Now())
      ensures serial ==> Now() == old(Now()) && allHolderCredentials.Listed() == old(allHolderCredentials.Listed())
    {
    }

    function OfferLog(id: string): seq<H.OfferEvent>
      reads this
    {
      EntryOr(offerLogs, id, [])
    }

    ghost function Repositories(): set<object> {
      {receivedOffer.repository, allReceivedOffers.repository, holderCredential.repository, allHolderCredentials.repository}
    }

    /** The queries as `holder_state` registers them, over four repositories. */
    ghost predicate Wired() {
      && (receivedOffer.repository as object) != allReceivedOffers.repository
      && (holderCredential.repository as object) != allHolderCredentials.repository
      && {receivedOffer.repository as object, allReceivedOffers.repository}
         !! {holderCredential.repository as object, allHolderCredentials.repository}
      && receivedOffer.step == H.Update && receivedOffer.empty == H.EMPTY_VIEW
      && allReceivedOffers.step == H.Update && allReceivedOffers.empty == H.EMPTY_VIEW
      && holderCredential.step == HC.Store && holderCredential.empty == HC.EMPTY_VIEW
      && allHolderCredentials.step == HC.Store && allHolderCredentials.empty == HC.EMPTY_VIEW
    }

    ghost predicate OffersValid()
      reads this, receivedOffer.repository, allReceivedOffers.repository
    {
      && AllLawful(offerLogs)
      && Show(H.Update, H.EMPTY_VIEW, offerLogs, receivedOffer.repository.entries, allReceivedOffers.Listed())
    }

    ghost predicate CredentialsValid()
      reads this, holderCredential.repository, allHolderCredentials.repository
    {
      && Show(HC.Store, HC.EMPTY_VIEW, credentialLogs, holderCredential.repository.entries, allHolderCredentials.Listed())
      && credentialLogs.Keys <= drawn
      && (forall used, n :: uuid(used, n) !in used)
    }

    ghost predicate Valid()
      reads this, Repositories()
    {
      Wired() && OffersValid() && CredentialsValid()
    }

    /** A command on the offer: load, handle, append, and dispatch of the whole batch. */
    method CommandOffer(id: string, command: H.OfferCommand, wallet: H.Wallet) returns (r: Result<seq<H.OfferEvent>, H.OfferError>)
      requires Wired() && OffersValid()
      modifies this`offerLogs, receivedOffer.repository, allReceivedOffers.repository
      ensures OffersValid()
      ensures r == H.Handle(H.Aggregate(old(OfferLog(id))), command, wallet)
      ensures offerLogs == if r.Success? then old(offerLogs)[id := old(OfferLog(id)) + r.value] else old(offerLogs)
      ensures Grew(old(Now()), Now())
    {
      r := H.Handle(H.Aggregate(OfferLog(id)), command, wallet);
      if r.Success? {
        HandledStaysLawful(offerLogs, id, command, wallet);
        ShowBatch(H.Update, H.EMPTY_VIEW, offerLogs, receivedOffer.repository.entries, allReceivedOffers.Listed(), id, r.value);
        FoldBatch(H.Update, H.EMPTY_VIEW, allReceivedOffers.Listed(), id, r.value);
        offerLogs := offerLogs[id := OfferLog(id) + r.value];
        receivedOffer.ApplyEvents(id, r.value);
        allReceivedOffers.ApplyEvents(Enveloped(id, r.value));
      }
    }

    /** `uuid::Uuid::new_v4`. */
    method NewId() returns (id: string)
      requires CredentialsValid()
      modifies this`drawn, this`ticks
      ensures CredentialsValid()
      ensures id !in old(drawn) && drawn == old(drawn) + {id}
    {
      id := uuid(drawn, ticks);
      drawn, ticks := drawn + {id}, ticks + 1;
    }

    /** `AddCredential` for a new credential; `stored` says whether the event store took the event. */
    method AddCredential(id: string, offerId: string, credential: Json, stored: bool)
      requires Wired() && CredentialsValid() && id in drawn && id !in credentialLogs
      modifies this`credentialLogs, holderCredential.repository, allHolderCredentials.repository
      ensures CredentialsValid()
      ensures credentialLogs == if stored then old(credentialLogs)[id := [HC.CredentialAdded(id, offerId, credential)]] else old(credentialLogs)
      ensures allHolderCredentials.Listed() == if stored then old(allHolderCredentials.Listed())[id := Tagged(id, offerId, credential)]
                                               else old(allHolderCredentials.Listed())
    {
      if stored {
        var events := HC.Handle(HC.EMPTY_CREDENTIAL, HC.AddCredential(id, offerId, credential));
        NewInBoth(credentialLogs, holderCredential.repository.entries, allHolderCredentials.Listed(), id, events);
        AddedTagged(id, offerId, credential);
        credentialLogs := credentialLogs[id := events];
        holderCredential.ApplyEvents(id, events);
        allHolderCredentials.ApplyEvents(Enveloped(id, events));
      }
    }

    method AddNew(offerId: string, credential: Json, stored: bool) returns (id: string)
      requires Valid()
      modifies this`credentialLogs, this`drawn, this`ticks, holderCredential.repository, allHolderCredentials.repository
      ensures Valid() && id !in old(drawn) && id in drawn && Grew(old(Now()), Now())
      ensures stored ==> id in credentialLogs && credentialLogs[id] == [HC.CredentialAdded(id, offerId, credential)]
      ensures allHolderCredentials.Listed() == if stored then old(allHolderCredentials.Listed())[id := Tagged(id, offerId, credential)]
                                               else old(allHolderCredentials.Listed())
    {
      id := NewId();
      AddCredential(id, offerId, credential, stored);
    }

    /** One round of the loop, after whatever others did. */
    method AddNext(offerId: string, credential: Json, stored: bool) returns (id: string)
      requires Valid()
      modifies this, Repositories()
      ensures Valid() && id !in old(drawn) && id in drawn && Grew(old(Now()), Now())
      ensures stored ==> id in credentialLogs && credentialLogs[id] == [HC.CredentialAdded(id, offerId, credential)]
      ensures serial ==>
                && offerLogs == old(offerLogs)
                && allHolderCredentials.Listed() == if stored then old(allHolderCredentials.Listed())[id := Tagged(id, offerId, credential)]
                                                    else old(allHolderCredentials.Listed())
    {
      Others();
      ghost var now := Now();
      id := AddNew(offerId, credential, stored);
      GrewOn(old(Now()), now, Now());
    }

    /** The loop: a new id and a new aggregate per credential, until the event store refuses one. */
    method FanOut(offerId: string, credentials: seq<Json>, stored: nat -> bool) returns (ok: bool, ghost added: seq<string>)
      requires Valid()
      modifies this, Repositories()
      ensures Valid() && Added(old(Now()), Now(), offerId, credentials, added, stored)
      ensures (ok <==> |added| == |credentials|) && (!ok ==> !stored(|added|))
      ensures serial ==>
                && offerLogs == old(offerLogs)
                && allHolderCredentials.Listed() == Grown(old(allHolderCredentials.Listed()), offerId, credentials, added)
    {
      added := [];
      for i := 0 to |credentials|
        invariant Valid() && |added| == i && Added(old(Now()), Now(), offerId, credentials, added, stored)
        invariant serial ==>
                    && offerLogs == old(offerLogs)
                    && allHolderCredentials.Listed() == Grown(old(allHolderCredentials.Listed()), offerId, credentials, added)
      {
        ghost var now := Now();
        var id := AddNext(offerId, credentials[i], stored(i));
        AddedKept(old(Now()), now, Now(), offerId, credentials, added, stored);
        if !stored(i) {
          return false, added;
        }
        AddedNext(old(Now()), Now(), offerId, credentials, added, stored, now.drawn, id);
        assert (added + [id])[..i] == added;
        added := added + [id];
      }
      ok := true;
    }

    /** A credential on record is listed, tagged with its offer. */
    lemma MineListed(offerId: string, credentials: seq<Json>, added: seq<string>, i: nat)
      requires CredentialsValid() && Mine(credentialLogs, offerId, credentials, added) && i < |added|
      ensures var listed := allHolderCredentials.Listed();
              added[i] in listed && listed[added[i]] == Tagged(added[i], offerId, credentials[i])
    {
      assert ShowsOne(HC.Store, HC.EMPTY_VIEW, credentialLogs, holderCredential.repository.entries, allHolderCredentials.Listed(), added[i]);
      var event := HC.CredentialAdded(added[i], offerId, credentials[i]);
      assert [event][..0] == [];
      AddedTagged(added[i], offerId, credentials[i]);
    }

    lemma ListedAreUsed()
      requires CredentialsValid()
      ensures allHolderCredentials.Listed().Keys <= drawn
    {
      forall id | id in allHolderCredentials.Listed() ensures id in drawn {
        assert ShowsOne(HC.Store, HC.EMPTY_VIEW, credentialLogs, holderCredential.repository.entries, allHolderCredentials.Listed(), id);
      }
    }

    /** What is on record for an offer shows in its view. */
    lemma ShownOffer(offerId: string)
      requires OffersValid()
      ensures offerId in receivedOffer.repository.entries <==> OfferLog(offerId) != []
      ensures offerId in receivedOffer.repository.entries ==>
                receivedOffer.repository.entries[offerId].credentials == H.Aggregate(OfferLog(offerId)).credentials
    {
      assert ShowsOne(H.Update, H.EMPTY_VIEW, offerLogs, receivedOffer.repository.entries, allReceivedOffers.Listed(), offerId);
      H.ViewEqualsAggregate(OfferLog(offerId));
    }

    /** Accept the offer if it exists. */
    method AcceptExisting(offerId: string, wallet: H.Wallet) returns (failure: Option<Reply>, ghost events: seq<H.OfferEvent>)
      requires Valid()
      modifies this, Repositories()
      ensures Valid() && Grew(old(Now()), Now())
      ensures failure == Some(NotFound) ==> old(OfferLog(offerId)) == []
      ensures failure != Some(Ok)
      ensures serial ==>
                && allHolderCredentials.Listed() == old(allHolderCredentials.Listed())
                && AcceptedAlone(old(offerLogs), offerLogs, offerId, wallet, failure, events)
    {
      Others();
      ghost var now := Now();
      ShownOffer(offerId);
      var view := receivedOffer.repository.Load(offerId);
      if view.None? {
        NothingGranted(wallet);
        return Some(NotFound), [];
      }
      var accepted;
      accepted, events := SendAcceptance(offerId, wallet);
      GrewOn(old(Now()), now, Now());
      failure := if accepted then None else Some(ServerError);
    }

    method SendAcceptance(offerId: string, wallet: H.Wallet) returns (accepted: bool, ghost events: seq<H.OfferEvent>)
      requires Valid()
      modifies this, Repositories()
      ensures Valid() && Grew(old(Now()), Now())
      ensures serial ==>
                && allHolderCredentials.Listed() == old(allHolderCredentials.Listed())
                && if accepted then offerLogs == old(offerLogs)[offerId := old(OfferLog(offerId)) + events]
                                    && Acceptance(old(OfferLog(offerId)), wallet, events)
                   else offerLogs == old(offerLogs) && events == [] && NotGranted(old(OfferLog(offerId)), wallet)
    {
      Others();
      ghost var now := Now();
      AcceptOutcome(OfferLog(offerId), wallet);
      var r := CommandOffer(offerId, H.AcceptCredentialOffer, wallet);
      GrewOn(old(Now()), now, Now());
      accepted, events := r.Success?, if r.Success? then r.value else [];
    }

    /** Send the credential request and read the credentials back. Another request for the offer may have had a response in
        between; what is read is the latest. */
    method RequestCredentials(offerId: string, wallet: H.Wallet) returns (credentials: Option<seq<Json>>)
      requires Valid()
      modifies this, Repositories()
      ensures Valid() && Grew(old(Now()), Now())
      ensures credentials.Some? ==> OnRecord(OfferLog(offerId), credentials.value)
      ensures serial ==>
                && allHolderCredentials.Listed() == old(allHolderCredentials.Listed())
                && RequestedAlone(old(offerLogs), offerLogs, offerId, wallet, credentials)
    {
      var requested := SendRequest(offerId, wallet);
      if !requested {
        return None;
      }
      ghost var now, log := Now(), OfferLog(offerId);
      Others();
      GrewOn(old(Now()), now, Now());
      ShownOffer(offerId);
      LawfulNow(offerId);
      assert log <= OfferLog(offerId);
      LatestOnRecord(log, OfferLog(offerId));
      var view := receivedOffer.repository.Load(offerId);
      credentials := match view case None => None case Some(v) => Some(v.credentials);
    }

    method SendRequest(offerId: string, wallet: H.Wallet) returns (requested: bool)
      requires Valid()
      modifies this, Repositories()
      ensures Valid() && Grew(old(Now()), Now())
      ensures requested ==> exists e :: e in OfferLog(offerId) && e.CredentialResponseReceived?
      ensures serial ==>
                && allHolderCredentials.Listed() == old(allHolderCredentials.Listed())
                && RequestedAlone(old(offerLogs), offerLogs, offerId, wallet,
                                  if requested then Some(H.Aggregate(OfferLog(offerId)).credentials) else None)
    {
      Others();
      ghost var now := Now();
      RequestOutcome(OfferLog(offerId), wallet);
      var r := CommandOffer(offerId, H.SendCredentialRequest, wallet);
      GrewOn(old(Now()), now, Now());
      requested := r.Success?;
      if requested {
        Requested(now.offers, offerLogs, offerId, wallet, r.value);
      }
    }

    lemma LawfulNow(offerId: string)
      requires OffersValid()
      ensures |H.Aggregate(OfferLog(offerId)).credentials| <= 1
    {
      assert H.Lawful(OfferLog(offerId));
      H.LawfulComplete(OfferLog(offerId));
    }

    /** Both commands on the offer. */
    method AcceptAndRequest(offerId: string, accepting: H.Wallet, requesting: H.Wallet)
      returns (credentials: Result<seq<Json>, Reply>, ghost events: seq<H.OfferEvent>)
      requires Valid()
      modifies this, Repositories()
      ensures Valid() && Grew(old(Now()), Now())
      ensures credentials == Failure(NotFound) ==> old(OfferLog(offerId)) == []
      ensures credentials.Failure? ==> !credentials.error.Ok?
      ensures credentials.Success? ==> OnRecord(OfferLog(offerId), credentials.value)
      ensures serial ==>
                && allHolderCredentials.Listed() == old(allHolderCredentials.Listed())
                && BothAlone(old(offerLogs), offerLogs, offerId, accepting, requesting, credentials, events)
    {
      var failure;
      failure, events := AcceptExisting(offerId, accepting);
      if failure.Some? {
        return Failure(failure.value), events;
      }
      ghost var midway := Now();
      var requested := RequestCredentials(offerId, requesting);
      GrewOn(old(Now()), midway, Now());
      if requested.None? {
        if serial {
          OnlyAccepted(old(OfferLog(offerId)), accepting, requesting, events);
        }
        return Failure(ServerError), events;
      }
      if serial {
        AcceptedAndRequested(old(OfferLog(offerId)), accepting, requesting, events, requested.value);
        BothCommands(old(offerLogs), midway.offers, offerLogs, offerId, events, requested.value);
      }
      return Success(requested.value), events + [H.CredentialResponseReceived(H.Received, requested.value)];
    }

    /** Whatever other requests do: what is added is at most one credential, that of a response on record for the offer, under a
        new id and tagged with the offer; credentials that were there stay as they were. Alone: the response is the one this
        request brought in, and the list grows by exactly its credentials. */
    method Accept(offerId: string, accepting: H.Wallet, requesting: H.Wallet, stored: nat -> bool)
      returns (reply: Reply, ghost events: seq<H.OfferEvent>, ghost credentials: seq<Json>, ghost added: seq<string>)
      requires Valid()
      modifies this, Repositories()
      ensures Valid() && Added(old(Now()), Now(), offerId, credentials, added, stored)
      ensures reply == NotFound ==> old(OfferLog(offerId)) == []
      ensures added != [] || reply == Ok ==> OnRecord(OfferLog(offerId), credentials)
      ensures reply == Ok ==> |added| == |credentials|
      ensures forall i :: 0 <= i < |added| ==>
                added[i] in allHolderCredentials.Listed()
                && allHolderCredentials.Listed()[added[i]] == Tagged(added[i], offerId, credentials[i])
      ensures serial ==>
                Alone(old(offerLogs), offerLogs, old(allHolderCredentials.Listed()), allHolderCredentials.Listed(), offerId, accepting,
                      requesting, reply, events, credentials, added, stored)
    {
      ListedAreUsed();
      var read;
      read, events := AcceptAndRequest(offerId, accepting, requesting);
      credentials, added := if read.Success? then read.value else [], [];
      if read.Failure? {
        return read.error, events, credentials, added;
      }
      ghost var now, log := Now(), OfferLog(offerId);
      var ok;
      ok, added := FanOut(offerId, read.value, stored);
      reply := if ok then Ok else ServerError;
      AddedSince(old(Now()), now, Now(), offerId, credentials, added, stored);
      assert log <= OfferLog(offerId);
      forall i | 0 <= i < |added|
        ensures added[i] in allHolderCredentials.Listed()
                && allHolderCredentials.Listed()[added[i]] == Tagged(added[i], offerId, credentials[i])
      {
        MineListed(offerId, credentials, added, i);
      }
    }
  }

  lemma AddedSince(first: Logs, before: Logs, now: Logs, offerId: string, credentials: seq<Json>, added: seq<string>, stored: nat -> bool)
    requires Grew(first, before) && Added(before, now, offerId, credentials, added, stored)
    ensures Added(first, now, offerId, credentials, added, stored)
  {
    GrewOn(first, before, now);
  }

  /** What a successful request puts on record. */
  lemma Requested(before: map<string, seq<H.OfferEvent>>, after: map<string, seq<H.OfferEvent>>, offerId: string, wallet: H.Wallet,
                  events: seq<H.OfferEvent>)
    requires H.Handle(H.Aggregate(EntryOr(before, offerId, [])), H.SendCredentialRequest, wallet) == Success(events)
    requires after == before[offerId := EntryOr(before, offerId, []) + events]
    ensures exists e :: e in after[offerId] && e.CredentialResponseReceived?
    ensures RequestedAlone(before, after, offerId, wallet, Some(H.Aggregate(after[offerId]).credentials))
  {
    var log := EntryOr(before, offerId, []);
    RequestOutcome(log, wallet);
    assert events == [events[0]];
    ReplaySnoc(H.Apply, H.EMPTY_OFFER, log, events[0]);
    assert after[offerId][|log|] == events[0];
  }

  /** At most one credential, from a response on record. */
  ghost predicate OnRecord(log: seq<H.OfferEvent>, credentials: seq<Json>) {
    |credentials| <= 1 && exists e :: e in log && e.CredentialResponseReceived? && e.credentials == credentials
  }

  lemma LatestOnRecord(before: seq<H.OfferEvent>, log: seq<H.OfferEvent>)
    requires before <= log && exists e :: e in before && e.CredentialResponseReceived?
    requires |H.Aggregate(log).credentials| <= 1
    ensures OnRecord(log, H.Aggregate(log).credentials)
  {
    var e :| e in before && e.CredentialResponseReceived?;
    assert e in log;
    H.HoldsLatestResponse(log);
  }

  /** Acceptance and token response, the token one that the wallet was granted for the offer on record. */
  ghost predicate Acceptance(log: seq<H.OfferEvent>, wallet: H.Wallet, events: seq<H.OfferEvent>) {
    && |events| == 2 && events[0] == H.CredentialOfferAccepted(H.Accepted) && events[1].TokenResponseReceived?
    && H.Granted(log, wallet, events[1].tokenResponse)
  }

  ghost predicate NotGranted(log: seq<H.OfferEvent>, wallet: H.Wallet) {
    forall response :: !H.Granted(log, wallet, response)
  }

  ghost predicate NotBrought(log: seq<H.OfferEvent>, wallet: H.Wallet) {
    forall credentials :: !H.Brought(log, wallet, credentials)
  }

  ghost predicate AcceptedAlone(before: map<string, seq<H.OfferEvent>>, after: map<string, seq<H.OfferEvent>>, offerId: string,
                                wallet: H.Wallet, failure: Option<Reply>, events: seq<H.OfferEvent>)
  {
    var log := EntryOr(before, offerId, []);
    if failure.Some? then
      events == [] && after == before && failure.value == (if log == [] then NotFound else ServerError) && NotGranted(log, wallet)
    else
      log != [] && after == before[offerId := log + events] && Acceptance(log, wallet, events)
  }

  ghost predicate RequestedAlone(before: map<string, seq<H.OfferEvent>>, after: map<string, seq<H.OfferEvent>>, offerId: string,
                                 wallet: H.Wallet, credentials: Option<seq<Json>>)
  {
    var log := EntryOr(before, offerId, []);
    if credentials.None? then after == before && NotBrought(log, wallet)
    else
      && after == before[offerId := log + [H.CredentialResponseReceived(H.Received, credentials.value)]]
      && H.Brings(H.Aggregate(log), credentials.value) && H.Brought(log, wallet, credentials.value)
  }

  /** What both commands put on record: nothing without a token; the acceptance with the token; and with it the response, if the
      token brings one for the offer on record. */
  ghost predicate Recorded(log: seq<H.OfferEvent>, accepting: H.Wallet, requesting: H.Wallet, events: seq<H.OfferEvent>,
                           credentials: seq<Json>)
  {
    if NotGranted(log, accepting) then events == []
    else
      && |events| in {2, 3} && Acceptance(log, accepting, events[..2])
      && if |events| == 2 then NotBrought(log + events, requesting)
         else
           && events[2] == H.CredentialResponseReceived(H.Received, credentials)
           && H.Fetches(H.LastReceived(log).value, events[1].tokenResponse, requesting, credentials)
  }

  ghost predicate BothAlone(before: map<string, seq<H.OfferEvent>>, after: map<string, seq<H.OfferEvent>>, offerId: string,
                            accepting: H.Wallet, requesting: H.Wallet, credentials: Result<seq<Json>, Reply>, events: seq<H.OfferEvent>)
  {
    var log := EntryOr(before, offerId, []);
    && after == (if events == [] then before else before[offerId := log + events])
    && (credentials == Failure(NotFound) <==> log == [])
    && (credentials == Failure(NotFound) ==> events == [])
    && Recorded(log, accepting, requesting, events, if credentials.Success? then credentials.value else [])
    && (credentials.Success? <==> |events| == 3)
    && (credentials.Success? ==> OnePerConfiguration(H.Aggregate(EntryOr(after, offerId, [])), credentials.value))
  }

  /** An `accept` that runs alone: nothing is added unless a response came in, and then the credentials of that response in
      order, all of them or those before the first one that was not stored. */
  ghost predicate Alone(before: map<string, seq<H.OfferEvent>>, after: map<string, seq<H.OfferEvent>>,
                        listed: map<string, HC.CredentialView>, grown: map<string, HC.CredentialView>, offerId: string,
                        accepting: H.Wallet, requesting: H.Wallet, reply: Reply,
                        events: seq<H.OfferEvent>, credentials: seq<Json>, added: seq<string>, stored: nat -> bool)
  {
    && |added| <= |credentials| && Fresh(listed.Keys, added) && grown == Grown(listed, offerId, credentials, added)
    && (reply == NotFound <==> EntryOr(before, offerId, []) == [])
    && after == (if events == [] then before else before[offerId := EntryOr(before, offerId, []) + events])
    && Recorded(EntryOr(before, offerId, []), accepting, requesting, events, credentials)
    && (reply == Ok <==> |events| == 3 && |added| == |credentials|)
    && (if |events| < 3 then credentials == []
        else
          && OnePerConfiguration(H.Aggregate(EntryOr(after, offerId, [])), credentials)
          && (|added| < |credentials| ==> !stored(|added|)))
  }

  /** A received offer holds these credentials: one if one configuration is offered, none if none is. */
  ghost predicate OnePerConfiguration(offer: H.Offer, credentials: seq<Json>) {
    && offer.status == H.Received && offer.credentials == credentials
    && offer.credentialOffer.Some? && |credentials| == |offer.credentialOffer.value.configurationIds| <= 1
  }

  lemma AcceptOutcome(log: seq<H.OfferEvent>, wallet: H.Wallet)
    ensures var r := H.Handle(H.Aggregate(log), H.AcceptCredentialOffer, wallet);
            if r.Success? then Acceptance(log, wallet, r.value) else NotGranted(log, wallet)
  {
    H.AcceptExactly(log, H.Pending, wallet);
    var r := H.Handle(H.Aggregate(log), H.AcceptCredentialOffer, wallet);
    if r.Success? {
      var response :| H.Granted(log, wallet, response);
      assert r.value[1] == H.TokenResponseReceived(response);
    }
  }

  lemma NothingGranted(wallet: H.Wallet)
    ensures NotGranted([], wallet)
  {
  }

  lemma RequestOutcome(log: seq<H.OfferEvent>, wallet: H.Wallet)
    ensures var r := H.Handle(H.Aggregate(log), H.SendCredentialRequest, wallet);
            if r.Failure? then NotBrought(log, wallet)
            else |r.value| == 1 && r.value[0].CredentialResponseReceived? && H.Brought(log, wallet, r.value[0].credentials)
  {
    H.RequestSucceedsExactly(log, wallet);
  }

  lemma OnlyAccepted(log: seq<H.OfferEvent>, accepting: H.Wallet, requesting: H.Wallet, events: seq<H.OfferEvent>)
    requires Acceptance(log, accepting, events) && NotBrought(log + events, requesting)
    ensures Recorded(log, accepting, requesting, events, [])
  {
    assert events[..2] == events;
  }

  lemma AcceptedAndRequested(log: seq<H.OfferEvent>, accepting: H.Wallet, requesting: H.Wallet, events: seq<H.OfferEvent>,
                             credentials: seq<Json>)
    requires Acceptance(log, accepting, events) && H.Brought(log + events, requesting, credentials)
    ensures Recorded(log, accepting, requesting, events + [H.CredentialResponseReceived(H.Received, credentials)], credentials)
  {
    assert (events + [H.CredentialResponseReceived(H.Received, credentials)])[..2] == events;
    assert events == [H.CredentialOfferAccepted(H.Accepted), H.TokenResponseReceived(events[1].tokenResponse)];
    H.AfterAcceptance(log, events[1].tokenResponse);
  }

  lemma BothCommands(before: map<string, seq<H.OfferEvent>>, midway: map<string, seq<H.OfferEvent>>,
                     after: map<string, seq<H.OfferEvent>>, offerId: string, events: seq<H.OfferEvent>, credentials: seq<Json>)
    requires midway == before[offerId := EntryOr(before, offerId, []) + events]
    requires after == midway[offerId := midway[offerId] + [H.CredentialResponseReceived(H.Received, credentials)]]
    requires H.Brings(H.Aggregate(midway[offerId]), credentials)
    ensures after == before[offerId := EntryOr(before, offerId, []) + (events + [H.CredentialResponseReceived(H.Received, credentials)])]
    ensures OnePerConfiguration(H.Aggregate(after[offerId]), credentials)
  {
    var response := H.CredentialResponseReceived(H.Received, credentials);
    assert EntryOr(before, offerId, []) + events + [response] == EntryOr(before, offerId, []) + (events + [response]);
    ReplaySnoc(H.Apply, H.EMPTY_OFFER, midway[offerId], response);
  }
}
