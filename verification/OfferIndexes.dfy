/**
 The two secondary indexes of the issuer, code to offer and access token to offer
 (`agent_issuance/src/offer/queries/pre_authorized_code.rs`, `access_token.rs`). The two queries differ only in the string
 they file a created offer under.
 */
module OfferIndexes {
  import opened Wrappers
  import opened EventSourcing
  import O = IssuerOffer

  type OfferEnvelope = Envelope<O.OfferEvent>

  datatype Key = PreAuthorizedCode | AccessToken

  function KeyOf(key: Key, event: O.OfferEvent): string
    requires event.CredentialOfferCreated?
  {
    if key.PreAuthorizedCode? then event.preAuthorizedCode else event.accessToken
  }

  /** The index after a run of events. */
  function Filed(key: Key, index: map<string, string>, log: seq<OfferEnvelope>): map<string, string> {
    if log == [] then index
    else
      var before, last := Filed(key, index, log[..|log| - 1]), log[|log| - 1];
      if last.payload.CredentialOfferCreated? then before[KeyOf(key, last.payload) := last.aggregateId] else before
  }

  ghost predicate Files(key: Key, envelope: OfferEnvelope, k: string) {
    envelope.payload.CredentialOfferCreated? && KeyOf(key, envelope.payload) == k
  }

  /** No two creations of different offers share a key: keys are random and fresh. */
  ghost predicate KeysUnique(key: Key, log: seq<OfferEnvelope>) {
    forall x, y, k :: x in log && y in log && Files(key, x, k) && Files(key, y, k) ==> x.aggregateId == y.aggregateId
  }

  lemma {:induction false} FiledMembers(key: Key, log: seq<OfferEnvelope>, k: string)
    ensures k in Filed(key, map[], log) <==> exists x :: x in log && Files(key, x, k)
    ensures k in Filed(key, map[], log) ==>
              exists x :: x in log && Files(key, x, k) && Filed(key, map[], log)[k] == x.aggregateId
  {
    if log != [] {
      var front, last := log[..|log| - 1], log[|log| - 1];
      assert log == front + [last];
      FiledMembers(key, front, k);
      if Files(key, last, k) {
        assert last in log;
      } else {
        assert k in Filed(key, map[], log) <==> k in Filed(key, map[], front);
        if k in Filed(key, map[], front) {
          var x :| x in front && Files(key, x, k) && Filed(key, map[], front)[k] == x.aggregateId;
          assert x in log;
        }
      }
    }
  }

  /** The index is exactly the relation between keys and the offers created with them, superseded keys included. */
  lemma FiledExactly(key: Key, log: seq<OfferEnvelope>, k: string, offerId: string)
    requires KeysUnique(key, log)
    ensures (k in Filed(key, map[], log) && Filed(key, map[], log)[k] == offerId)
       <==> exists x :: x in log && Files(key, x, k) && x.aggregateId == offerId
  {
    FiledMembers(key, log, k);
  }

  /** So the order in which concurrent dispatches get through makes no difference. */
  lemma OrderDoesNotMatter(key: Key, log: seq<OfferEnvelope>, other: seq<OfferEnvelope>)
    requires KeysUnique(key, log) && multiset(log) == multiset(other)
    ensures Filed(key, map[], log) == Filed(key, map[], other)
  {
    assert forall x :: x in log <==> x in multiset(log);
    assert forall x :: x in other <==> x in multiset(other);
    var a, b := Filed(key, map[], log), Filed(key, map[], other);
    forall k ensures (k in a <==> k in b) && (k in a ==> a[k] == b[k]) {
      FiledMembers(key, log, k);
      FiledMembers(key, other, k);
    }
    assert a.Keys == b.Keys;
  }

  class IndexQuery {
    const repository: MemRepository<string>
    const key: Key

    constructor (repository: MemRepository<string>, key: Key)
      ensures this.repository == repository && this.key == key
    {
      this.repository, this.key := repository, key;
    }

    /** The loop loads under the id of the dispatched offer and stores under the key. What it loads is overwritten, so it may
        be anything: even another entry, when the client's offer id happens to equal an existing key. */
    method ApplyEvents(viewId: string, events: seq<OfferEnvelope>)
      modifies repository
      ensures repository.entries == Filed(key, old(repository.entries), events)
    {
      for i := 0 to |events|
        invariant repository.entries == Filed(key, old(repository.entries), events[..i])
      {
        assert events[..i + 1][..i] == events[..i];
        var loaded := repository.Load(viewId);
        var viewInstanceId, offerId := viewId, match loaded case None => "" case Some(view) => view;
        if events[i].payload.CredentialOfferCreated? {
          viewInstanceId := KeyOf(key, events[i].payload);
          offerId := events[i].aggregateId;
          repository.UpdateView(offerId, viewInstanceId);
        }
      }
      assert events[..|events|] == events;
    }
  }
}
