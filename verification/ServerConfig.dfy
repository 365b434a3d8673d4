/** The server configuration aggregate and its view (`agent_issuance/src/server_config`). */
module ServerConfig {
  import opened Wrappers
  import opened EventSourcing

  datatype Format = JwtVcJson(types: seq<string>) | OtherFormat

  /** Of the display entries only the name of the first one is read. */
  datatype Configuration = Configuration(format: Format, displayName: Option<string>)

  datatype AuthorizationServerMetadata = AuthorizationServerMetadata(issuer: string, tokenEndpoint: Option<string>)

  datatype Metadata = Metadata(credentialIssuer: string, configurations: map<string, Configuration>)

  datatype ServerConfigEvent =
    | ServerMetadataInitialized(authorizationServer: AuthorizationServerMetadata, credentialIssuer: Metadata)
    | CredentialConfigurationAdded(configurations: map<string, Configuration>)

  datatype ServerConfigCommand =
    | InitializeServerMetadata(authorizationServer: AuthorizationServerMetadata, credentialIssuer: Metadata)
    | AddCredentialConfiguration(id: string, configuration: Configuration)

  datatype Aggregate = Aggregate(authorizationServer: AuthorizationServerMetadata, credentialIssuer: Metadata)

  datatype View = View(authorizationServer: AuthorizationServerMetadata, credentialIssuer: Option<Metadata>)

  const DEFAULT_AUTHORIZATION := AuthorizationServerMetadata("", None)
  const EMPTY_AGGREGATE := Aggregate(DEFAULT_AUTHORIZATION, Metadata("", map[]))
  const EMPTY_VIEW := View(DEFAULT_AUTHORIZATION, None)

  /** A new configuration replaces all earlier ones: the emitted map holds just the one entry. */
  function Handle(command: ServerConfigCommand): seq<ServerConfigEvent> {
    match command
    case InitializeServerMetadata(a, c) => [ServerMetadataInitialized(a, c)]
    case AddCredentialConfiguration(id, configuration) => [CredentialConfigurationAdded(map[id := configuration])]
  }

  function Apply(self: Aggregate, event: ServerConfigEvent): Aggregate {
    match event
    case ServerMetadataInitialized(a, c) => Aggregate(a, c)
    case CredentialConfigurationAdded(configurations) =>
      self.(credentialIssuer := self.credentialIssuer.(configurations := configurations))
  }

  /** The view's metadata is optional, so a configuration added too early has nothing to be written to. */
  function Update(view: View, event: ServerConfigEvent): View {
    match event
    case ServerMetadataInitialized(a, c) => View(a, Some(c))
    case CredentialConfigurationAdded(configurations) =>
      match view.credentialIssuer
      case None => view
      case Some(metadata) => view.(credentialIssuer := Some(metadata.(configurations := configurations)))
  }

  ghost predicate Initialized(events: seq<ServerConfigEvent>) {
    exists e :: e in events && e.ServerMetadataInitialized?
  }

  function LastInitialized(events: seq<ServerConfigEvent>): (r: Option<ServerConfigEvent>)
    ensures r.Some? ==> r.value.ServerMetadataInitialized?
  {
    if events == [] then None
    else if events[|events| - 1].ServerMetadataInitialized? then Some(events[|events| - 1])
    else LastInitialized(events[..|events| - 1])
  }

  /** The configurations that the last event brought. */
  function LastConfigurations(events: seq<ServerConfigEvent>): map<string, Configuration> {
    if events == [] then map[]
    else
      match events[|events| - 1]
      case ServerMetadataInitialized(_, metadata) => metadata.configurations
      case CredentialConfigurationAdded(configurations) => configurations
  }

  /** For every log: both servers are those of the latest initialisation, and the defaults before the first; the configurations
      are those of the last event of either kind. */
  lemma {:induction false} FieldsAreLatest(events: seq<ServerConfigEvent>)
    ensures var a, last := Replay(Apply, EMPTY_AGGREGATE, events), LastInitialized(events);
            && a.authorizationServer == (if last.Some? then last.value.authorizationServer else DEFAULT_AUTHORIZATION)
            && a.credentialIssuer.credentialIssuer == (if last.Some? then last.value.credentialIssuer.credentialIssuer else "")
            && a.credentialIssuer.configurations == LastConfigurations(events)
    ensures LastInitialized(events).Some? <==> Initialized(events)
  {
    if events != [] {
      var front, last := events[..|events| - 1], events[|events| - 1];
      FieldsAreLatest(front);
      assert events == front + [last];
      assert last in events;
      assert Initialized(front) ==> Initialized(events);
    }
  }

  /** For every log: from the first initialisation on the view has the aggregate's metadata, before it none at all. */
  lemma {:induction false} ViewAgreesExactly(events: seq<ServerConfigEvent>)
    ensures var a, v := Replay(Apply, EMPTY_AGGREGATE, events), Replay(Update, EMPTY_VIEW, events);
            && v.authorizationServer == a.authorizationServer
            && v.credentialIssuer == (if Initialized(events) then Some(a.credentialIssuer) else None)
  {
    if events != [] {
      var front, last := events[..|events| - 1], events[|events| - 1];
      ViewAgreesExactly(front);
      assert events == front + [last];
      assert last in events;
      assert Initialized(front) ==> Initialized(events);
    }
  }

  /** The start-up order, initialise and then add a configuration, reaches agreement and shows that one configuration.
      In the other order the initialisation drops the configuration from aggregate and view alike. */
  lemma StartUpOrder(a: AuthorizationServerMetadata, c: Metadata, id: string, configuration: Configuration)
    ensures var initialize, add := InitializeServerMetadata(a, c), AddCredentialConfiguration(id, configuration);
            && Replay(Update, EMPTY_VIEW, Handle(initialize) + Handle(add)).authorizationServer == a
            && Replay(Update, EMPTY_VIEW, Handle(initialize) + Handle(add)).credentialIssuer
               == Some(c.(configurations := map[id := configuration]))
            && Replay(Update, EMPTY_VIEW, Handle(add) + Handle(initialize)).credentialIssuer == Some(c)
            && Replay(Apply, EMPTY_AGGREGATE, Handle(add) + Handle(initialize)).credentialIssuer == c
  {
    var initialized, added := ServerMetadataInitialized(a, c), CredentialConfigurationAdded(map[id := configuration]);
    assert [initialized, added][..1] == [initialized] && [initialized][..0] == [];
    assert [added, initialized][..1] == [added] && [added][..0] == [];
    assert Handle(InitializeServerMetadata(a, c)) + Handle(AddCredentialConfiguration(id, configuration))
        == [initialized, added];
    assert Handle(AddCredentialConfiguration(id, configuration)) + Handle(InitializeServerMetadata(a, c))
        == [added, initialized];
  }
}
