/** The holder's credential aggregate and its view (`agent_holder/src/credential`). */
module HolderCredential {
  import opened Wrappers
  import opened Json
  import opened EventSourcing

  datatype CredentialEvent = CredentialAdded(credentialId: string, offerId: string, credential: Json)

  datatype CredentialCommand = AddCredential(credentialId: string, offerId: string, credential: Json)

  datatype Credential = Credential(credentialId: Option<string>, offerId: Option<string>, credential: Option<Json>)

  const EMPTY_CREDENTIAL := Credential(None, None, None)

  function Handle(self: Credential, command: CredentialCommand): seq<CredentialEvent> {
    [CredentialAdded(command.credentialId, command.offerId, command.credential)]
  }

  function Apply(self: Credential, event: CredentialEvent): Credential {
    Credential(Some(event.credentialId), Some(event.offerId), Some(event.credential))
  }

  datatype CredentialView = CredentialView(credentialId: Option<string>, offerId: Option<string>, credential: Option<Json>)

  const EMPTY_VIEW := CredentialView(None, None, None)

  function Update(view: CredentialView, event: CredentialEvent): CredentialView {
    CredentialView(Some(event.credentialId), Some(event.offerId), Some(event.credential))
  }

  /** Repositories keep views as JSON, and an optional value that holds null is read back as absent. */
  function Reload(view: CredentialView): CredentialView {
    view.(credential := if view.credential == Some(Null) then None else view.credential)
  }

  function Store(view: CredentialView, event: CredentialEvent): CredentialView {
    Reload(Update(view, event))
  }

  function Aggregate(events: seq<CredentialEvent>): Credential {
    Replay(Apply, EMPTY_CREDENTIAL, events)
  }

  function Stored(events: seq<CredentialEvent>): CredentialView {
    Replay(Store, EMPTY_VIEW, events)
  }

  /** For every log: aggregate and stored view hold the three fields of the last event, each under its own name, and nothing
      before the first; a credential that is null reads as absent from the view. */
  lemma FieldsAreLatest(events: seq<CredentialEvent>)
    ensures var a, v := Aggregate(events), Stored(events);
            && v.credentialId == a.credentialId && v.offerId == a.offerId
            && v.credential == (if a.credential == Some(Null) then None else a.credential)
            && if events == [] then a.credentialId.None? && a.offerId.None? && a.credential.None?
               else
                 var last := events[|events| - 1];
                 && a.credentialId == Some(last.credentialId)
                 && a.offerId == Some(last.offerId)
                 && a.credential == Some(last.credential)
  {
  }

  /** A credential that is added shows under its own id, with the offer it came from. */
  lemma AddedShows(self: Credential, command: CredentialCommand)
    ensures var events := Handle(self, command);
            && |events| == 1
            && Stored(events).credentialId == Some(command.credentialId)
            && Stored(events).offerId == Some(command.offerId)
            && Stored(events).credential == if command.credential == Null then None else Some(command.credential)
  {
    FieldsAreLatest(Handle(self, command));
  }
}
