/**
 Outbound publishers (`agent_event_publisher_http/src/lib.rs`): which events are posted. Delivery itself is not part of this
 model.
 */
module EventPublisher {
  import SC = ServerConfig
  import H = HolderOffer

  // ----- what is posted -----

  datatype Publisher = Publisher(targetUrl: string, targetEvents: seq<string>)

  /** The events whose type is wanted, in order. */
  function Wanted<E>(events: seq<E>, eventType: E -> string, targets: seq<string>): seq<E> {
    if events == [] then []
    else
      var last := events[|events| - 1];
      Wanted(events[..|events| - 1], eventType, targets) + (if eventType(last) in targets then [last] else [])
  }

  /** Ascending positions below n. */
  ghost predicate Ascending(positions: seq<nat>, n: nat) {
    && (forall i, j :: 0 <= i < j < |positions| ==> positions[i] < positions[j])
    && (forall i :: 0 <= i < |positions| ==> positions[i] < n)
  }

  /** The posted events are those at these positions: ascending, and exactly the positions of wanted events. */
  ghost predicate At<E>(events: seq<E>, eventType: E -> string, targets: seq<string>, posted: seq<E>, positions: seq<nat>) {
    && Ascending(positions, |events|)
    && |positions| == |posted|
    && (forall i :: 0 <= i < |positions| ==> posted[i] == events[positions[i]])
    && (forall k :: 0 <= k < |events| ==> (k in positions <==> eventType(events[k]) in targets))
  }

  /** So every wanted event is posted exactly as often as it was committed, and in that order. */
  ghost predicate Picks<E>(events: seq<E>, eventType: E -> string, targets: seq<string>, posted: seq<E>) {
    exists positions :: At(events, eventType, targets, posted, positions)
  }

  lemma AscendingNext(positions: seq<nat>, n: nat)
    requires Ascending(positions, n)
    ensures n !in positions && Ascending(positions, n + 1) && Ascending(positions + [n], n + 1)
    ensures forall k :: k in positions + [n] <==> k in positions || k == n
  {
  }

  lemma AtNext<E>(events: seq<E>, last: E, eventType: E -> string, targets: seq<string>, posted: seq<E>, positions: seq<nat>)
    returns (next: seq<nat>)
    requires At(events, eventType, targets, posted, positions)
    ensures At(events + [last], eventType, targets, posted + (if eventType(last) in targets then [last] else []), next)
  {
    var n := |events|;
    AscendingNext(positions, n);
    next := if eventType(last) in targets then positions + [n] else positions;
    forall k | 0 <= k < n + 1 ensures k in next <==> eventType((events + [last])[k]) in targets {
      assert k < n ==> (events + [last])[k] == events[k];
    }
  }

  lemma {:induction false} WantedAt<E>(events: seq<E>, eventType: E -> string, targets: seq<string>) returns (positions: seq<nat>)
    ensures At(events, eventType, targets, Wanted(events, eventType, targets), positions)
  {
    if events == [] {
      positions := [];
    } else {
      var front, last := events[..|events| - 1], events[|events| - 1];
      positions := WantedAt(front, eventType, targets);
      positions := AtNext(front, last, eventType, targets, Wanted(front, eventType, targets), positions);
      assert events == front + [last];
    }
  }

  method Dispatch<E>(publisher: Publisher, events: seq<E>, eventType: E -> string) returns (posted: seq<E>)
    ensures posted == Wanted(events, eventType, publisher.targetEvents)
    ensures Picks(events, eventType, publisher.targetEvents, posted)
  {
    posted := [];
    for i := 0 to |events|
      invariant posted == Wanted(events[..i], eventType, publisher.targetEvents)
    {
      assert events[..i + 1][..i] == events[..i];
      if eventType(events[i]) in publisher.targetEvents {
        posted := posted + [events[i]];
      }
    }
    assert events[..|events|] == events;
    ghost var positions := WantedAt(events, eventType, publisher.targetEvents);
  }

  // ----- configured names against emitted types -----

  function ServerConfigType(event: SC.ServerConfigEvent): string {
    match event
    case ServerMetadataInitialized(_, _) => "ServerMetadataLoaded"
    case CredentialConfigurationAdded(_) => "CredentialConfigurationAdded"
  }

  /** The name an event has in the configuration: that of its variant. */
  function ServerConfigName(event: SC.ServerConfigEvent): string {
    match event
    case ServerMetadataInitialized(_, _) => "ServerMetadataInitialized"
    case CredentialConfigurationAdded(_) => "CredentialConfigurationAdded"
  }

  const SERVER_CONFIG_NAMES := {"ServerMetadataInitialized", "CredentialConfigurationAdded"}

  function ReceivedOfferType(event: H.OfferEvent): string {
    match event
    case CredentialOfferReceived(_, _) => "CredentialOfferReceived"
    case CredentialOfferAccepted(_) => "CredentialOfferAccepted"
    case TokenResponseReceived(_) => "AccessTokenReceived"
    case CredentialResponseReceived(_, _) => "CredentialResponseReceived"
    case CredentialOfferRejected(_) => "CredentialOfferRejected"
  }

  function ReceivedOfferName(event: H.OfferEvent): string {
    match event
    case CredentialOfferReceived(_, _) => "CredentialOfferReceived"
    case CredentialOfferAccepted(_) => "CredentialOfferAccepted"
    case TokenResponseReceived(_) => "TokenResponseReceived"
    case CredentialResponseReceived(_, _) => "CredentialResponseReceived"
    case CredentialOfferRejected(_) => "CredentialOfferRejected"
  }

  const RECEIVED_OFFER_NAMES :=
    {"CredentialOfferReceived", "CredentialOfferAccepted", "TokenResponseReceived", "CredentialResponseReceived", "CredentialOfferRejected"}

  lemma {:induction false} WantedMembers<E>(events: seq<E>, eventType: E -> string, targets: seq<string>, e: E)
    ensures e in Wanted(events, eventType, targets) <==> e in events && eventType(e) in targets
  {
    if events != [] {
      var front, last := events[..|events| - 1], events[|events| - 1];
      assert events == front + [last];
      WantedMembers(front, eventType, targets, e);
    }
  }

  lemma {:induction false} SameWanted<E>(events: seq<E>, eventType: E -> string, name: E -> string, targets: seq<string>)
    requires forall e :: e in events ==> (eventType(e) in targets <==> name(e) in targets)
    ensures Wanted(events, eventType, targets) == Wanted(events, name, targets)
  {
    if events != [] {
      var front, last := events[..|events| - 1], events[|events| - 1];
      assert events == front + [last];
      SameWanted(front, eventType, name, targets);
    }
  }

  /** Posting by emitted type gives what the configuration names exactly when the two agree on every event at hand. */
  lemma PostedAsNamedExactly<E>(events: seq<E>, eventType: E -> string, name: E -> string, targets: seq<string>)
    ensures Wanted(events, eventType, targets) == Wanted(events, name, targets)
       <==> forall e :: e in events ==> (eventType(e) in targets <==> name(e) in targets)
  {
    if Wanted(events, eventType, targets) == Wanted(events, name, targets) {
      forall e | e in events ensures eventType(e) in targets <==> name(e) in targets {
        WantedMembers(events, eventType, targets, e);
        WantedMembers(events, name, targets, e);
      }
    } else if forall e :: e in events ==> (eventType(e) in targets <==> name(e) in targets) {
      SameWanted(events, eventType, name, targets);
    }
  }

  /** A holder's subscription is served exactly unless it names the token response and one is emitted: that event goes by
      another type, which no configuration can name. */
  lemma ReceivedOffersPostedExactly(events: seq<H.OfferEvent>, targets: seq<string>)
    requires forall t :: t in targets ==> t in RECEIVED_OFFER_NAMES
    ensures Wanted(events, ReceivedOfferType, targets) == Wanted(events, ReceivedOfferName, targets)
       <==> !("TokenResponseReceived" in targets && exists e :: e in events && e.TokenResponseReceived?)
    ensures forall e :: e in events ==>
              ReceivedOfferType(e) == if e.TokenResponseReceived? then "AccessTokenReceived" else ReceivedOfferName(e)
  {
    PostedAsNamedExactly(events, ReceivedOfferType, ReceivedOfferName, targets);
    assert "AccessTokenReceived" !in RECEIVED_OFFER_NAMES;
  }

  /** Likewise for the initialisation of the server metadata. */
  lemma ServerConfigPostedExactly(events: seq<SC.ServerConfigEvent>, targets: seq<string>)
    requires forall t :: t in targets ==> t in SERVER_CONFIG_NAMES
    ensures Wanted(events, ServerConfigType, targets) == Wanted(events, ServerConfigName, targets)
       <==> !("ServerMetadataInitialized" in targets && exists e :: e in events && e.ServerMetadataInitialized?)
    ensures forall e :: e in events ==>
              ServerConfigType(e) == if e.ServerMetadataInitialized? then "ServerMetadataLoaded" else ServerConfigName(e)
  {
    PostedAsNamedExactly(events, ServerConfigType, ServerConfigName, targets);
    assert "ServerMetadataLoaded" !in SERVER_CONFIG_NAMES;
  }
}
