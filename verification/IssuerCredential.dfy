/** The issuer's credential aggregate and its view (`agent_issuance/src/credential`). */
module IssuerCredential {
  import opened Wrappers
  import opened Json
  import opened EventSourcing
  import ServerConfig

  datatype Data = Data(raw: Json)

  datatype CredentialEvent =
    | UnsignedCredentialCreated(data: Data, configuration: ServerConfig.Configuration)
    | SignedCredentialCreated(signed: Json)
    | CredentialSigned(signed: Json)

  datatype CredentialCommand =
    | CreateUnsignedCredential(data: Data, configuration: ServerConfig.Configuration)
    | CreateSignedCredential(signed: Json)
    | SignCredential(subjectId: string, overwrite: bool)

  /** `Panic` stands for the places where the code unwinds instead of returning an error. */
  datatype CredentialError =
    | UnsupportedCredentialFormat
    | MissingCredentialSubjectError
    | InvalidVerifiableCredentialError
    | MissingCredentialDataError
    | Panic

  /** Foreign code: the two credential builders (subject parsing included), which may refuse the subject, and the JWT
      encoder, whose failure shows as the JSON value null. */
  datatype CredentialServices = CredentialServices(
    issuerDid: string,
    buildVerifiableCredential: Json -> Option<Json>,
    buildAchievement: (string, string, Json) -> Option<Json>,
    encode: (Json, string) -> Json)

  datatype Credential = Credential(data: Option<Data>, configuration: ServerConfig.Configuration, signed: Option<Json>)

  const EMPTY_CONFIGURATION := ServerConfig.Configuration(ServerConfig.OtherFormat, None)
  const EMPTY_CREDENTIAL := Credential(None, EMPTY_CONFIGURATION, None)

  // ----- choosing the type -----

  predicate Supported(t: string) {
    t == "VerifiableCredential" || t == "AchievementCredential" || t == "OpenBadgeCredential"
  }

  /** The greatest index that holds a supported type. */
  function LastSupported(types: seq<string>): (r: Option<nat>)
    ensures r.Some? ==> r.value < |types| && Supported(types[r.value])
                        && forall j :: r.value < j < |types| ==> !Supported(types[j])
    ensures r.None? ==> forall j :: 0 <= j < |types| ==> !Supported(types[j])
  {
    if types == [] then None
    else if Supported(types[|types| - 1]) then Some(|types| - 1)
    else LastSupported(types[..|types| - 1])
  }

  function TypeArray(types: seq<string>): Json {
    Array(seq(|types|, i requires 0 <= i < |types| => Str(types[i])))
  }

  /** The credential built for one supported type. */
  function Build(chosen: string, subject: Json, configuration: ServerConfig.Configuration, services: CredentialServices)
    : Result<seq<CredentialEvent>, CredentialError>
    requires configuration.format.JwtVcJson?
  {
    if chosen == "VerifiableCredential" then
      match services.buildVerifiableCredential(subject)
      case None => Failure(InvalidVerifiableCredentialError)
      case Some(built) =>
        (match SetField(built, "type", TypeArray(configuration.format.types))
         case None => Failure(Panic)
         case Some(raw) => Success([UnsignedCredentialCreated(Data(raw), configuration)]))
    else
      var name := match configuration.displayName case Some(name) => name case None => "OpenBadge Credential";
      match services.buildAchievement(chosen, name, subject)
      case None => Failure(InvalidVerifiableCredentialError)
      case Some(raw) => Success([UnsignedCredentialCreated(Data(raw), configuration)])
  }

  function Create(data: Data, configuration: ServerConfig.Configuration, services: CredentialServices)
    : Result<seq<CredentialEvent>, CredentialError>
  {
    match configuration.format
    case OtherFormat => Failure(UnsupportedCredentialFormat)
    case JwtVcJson(types) =>
      match Get(data.raw, "credentialSubject")
      case None => Failure(MissingCredentialSubjectError)
      case Some(subject) =>
        match LastSupported(types)
        case None => Failure(UnsupportedCredentialFormat)
        case Some(i) => Build(types[i], subject, configuration, services)
  }

  /** The pop loop of the code. It tries types from the back, and the first supported one decides. */
  method CreateUnsigned(data: Data, configuration: ServerConfig.Configuration, services: CredentialServices)
    returns (r: Result<seq<CredentialEvent>, CredentialError>)
    ensures r == Create(data, configuration, services)
    ensures configuration.format.JwtVcJson? && Get(data.raw, "credentialSubject").Some? ==>
              (r == Failure(UnsupportedCredentialFormat) <==> forall t :: t in configuration.format.types ==> !Supported(t))
  {
    match configuration.format {
      case OtherFormat =>
        return Failure(UnsupportedCredentialFormat);
      case JwtVcJson(types) =>
        var credentialTypes := types;
        match Get(data.raw, "credentialSubject") {
          case None =>
            return Failure(MissingCredentialSubjectError);
          case Some(subject) =>
            while credentialTypes != []
              invariant credentialTypes <= types
              invariant forall j :: |credentialTypes| <= j < |types| ==> !Supported(types[j])
              invariant LastSupported(credentialTypes) == LastSupported(types)
            {
              var credentialFormat := credentialTypes[|credentialTypes| - 1];
              credentialTypes := credentialTypes[..|credentialTypes| - 1];
              if credentialFormat == "VerifiableCredential" || credentialFormat == "AchievementCredential"
                 || credentialFormat == "OpenBadgeCredential" {
                assert credentialFormat in types && Supported(credentialFormat);
                return Build(credentialFormat, subject, configuration, services);
              }
            }
            assert forall t :: t in types ==> !Supported(t);
            return Failure(UnsupportedCredentialFormat);
        }
    }
  }

  // ----- the subject of a signed credential -----

  function Rebuilt(subjectId: string, fields: Fields): Fields {
    if fields == [] then [("id", Str(subjectId))]
    else
      var last := fields[|fields| - 1];
      Insert(Rebuilt(subjectId, fields[..|fields| - 1]), last.0, last.1)
  }

  method RebuildSubject(subjectId: string, credentialSubject: Fields) returns (r: Fields)
    ensures r == Rebuilt(subjectId, credentialSubject)
  {
    r := Insert([], "id", Str(subjectId));
    for i := 0 to |credentialSubject|
      invariant r == Rebuilt(subjectId, credentialSubject[..i])
    {
      assert credentialSubject[..i + 1][..i] == credentialSubject[..i];
      r := Insert(r, credentialSubject[i].0, credentialSubject[i].1);
    }
    assert credentialSubject[..|credentialSubject|] == credentialSubject;
  }

  function Without(keys: seq<string>, key: string): seq<string> {
    if keys == [] then []
    else
      Without(keys[..|keys| - 1], key) + (if keys[|keys| - 1] == key then [] else [keys[|keys| - 1]])
  }

  lemma {:induction false} WithoutMembers(keys: seq<string>, key: string, k: string)
    ensures k in Without(keys, key) <==> k in keys && k != key
  {
    if keys != [] {
      WithoutMembers(keys[..|keys| - 1], key, k);
      assert keys == keys[..|keys| - 1] + [keys[|keys| - 1]];
    }
  }

  lemma {:induction false} LookupAppend(fields: Fields, last: (string, Json), key: string)
    requires last.0 !in Keys(fields)
    ensures Lookup(fields + [last], key) == if key == last.0 then Some(last.1) else Lookup(fields, key)
  {
    if fields != [] {
      assert (fields + [last])[1..] == fields[1..] + [last];
      assert Keys(fields) == [fields[0].0] + Keys(fields[1..]);
      LookupAppend(fields[1..], last, key);
    }
  }

  /** What `Distinct` says about the last entry. */
  lemma SplitLast(fields: Fields)
    requires Distinct(fields) && fields != []
    ensures var front, last := fields[..|fields| - 1], fields[|fields| - 1];
            Distinct(front) && fields == front + [last] && Keys(fields) == Keys(front) + [last.0] && last.0 !in Keys(front)
  {
    var front, last := fields[..|fields| - 1], fields[|fields| - 1];
    forall i | 0 <= i < |front| ensures Keys(front)[i] != last.0 {
      assert Keys(front)[i] == fields[i].0;
    }
  }

  /** Key order of the rebuilt subject: `id` first, then the original keys in order without `id`. */
  lemma {:induction false} RebuiltKeys(subjectId: string, fields: Fields)
    requires Distinct(fields)
    ensures Keys(Rebuilt(subjectId, fields)) == ["id"] + Without(Keys(fields), "id")
  {
    if fields != [] {
      SplitLast(fields);
      var front, last := fields[..|fields| - 1], fields[|fields| - 1];
      RebuiltKeys(subjectId, front);
      var r := Rebuilt(subjectId, front);
      InsertKeys(r, last.0, last.1);
      assert Keys(fields)[..|Keys(fields)| - 1] == Keys(front);
      if last.0 != "id" {
        WithoutMembers(Keys(front), "id", last.0);
        assert Keys(r + [(last.0, last.1)]) == Keys(r) + [last.0];
      } else {
        assert Keys(r)[0] == "id";
      }
    }
  }

  /** Values of the rebuilt subject: every original entry keeps its value, so an original `id` wins over the
      requesting subject's. */
  lemma {:induction false} RebuiltValues(subjectId: string, fields: Fields, key: string)
    requires Distinct(fields)
    ensures Lookup(Rebuilt(subjectId, fields), key)
         == if key in Keys(fields) then Lookup(fields, key) else if key == "id" then Some(Str(subjectId)) else None
  {
    if fields != [] {
      SplitLast(fields);
      var front, last := fields[..|fields| - 1], fields[|fields| - 1];
      RebuiltValues(subjectId, front, key);
      LookupAppend(front, last, key);
      LookupInsert(Rebuilt(subjectId, front), last.0, last.1, key);
    }
  }

  /** The signed credential names the requesting subject exactly when the data named nobody, or named that subject. */
  lemma SubjectIdExactly(subjectId: string, fields: Fields)
    requires Distinct(fields)
    ensures Lookup(Rebuilt(subjectId, fields), "id") == Some(Str(subjectId))
       <==> Lookup(fields, "id") == None || Lookup(fields, "id") == Some(Str(subjectId))
  {
    RebuiltValues(subjectId, fields, "id");
  }

  // ----- commands and events -----

  /** What is handed to the encoder: the data with the issuer and the rebuilt subject put in. */
  function Payload(data: Data, subjectId: string, issuerDid: string): Option<Json> {
    match SetField(data.raw, "issuer", Str(issuerDid))
    case None => None
    case Some(raw) =>
      match Get(raw, "credentialSubject")
      case Some(Object(fields)) => SetField(raw, "credentialSubject", Object(Rebuilt(subjectId, fields)))
      case _ => None
  }

  predicate IsObject(value: Option<Json>) {
    value.Some? && value.value.Object?
  }

  /** The code panics exactly when there is no subject object to rebuild. */
  lemma PanicsExactly(data: Data, subjectId: string, issuerDid: string)
    ensures Payload(data, subjectId, issuerDid).None? <==> !IsObject(Get(data.raw, "credentialSubject"))
  {
    GetSetField(data.raw, "issuer", Str(issuerDid), "credentialSubject");
  }

  /** Otherwise the encoder gets the data with the issuer set and the subject rebuilt, and every other field as it was. */
  lemma PayloadField(data: Data, subjectId: string, issuerDid: string, key: string)
    requires IsObject(Get(data.raw, "credentialSubject"))
    ensures var payload := Payload(data, subjectId, issuerDid);
            && payload.Some?
            && Get(payload.value, key) == if key == "credentialSubject"
                                          then Some(Object(Rebuilt(subjectId, Get(data.raw, "credentialSubject").value.fields)))
                                          else if key == "issuer" then Some(Str(issuerDid)) else Get(data.raw, key)
  {
    var issuer, subject := Str(issuerDid), Object(Rebuilt(subjectId, Get(data.raw, "credentialSubject").value.fields));
    GetSetField(data.raw, "issuer", issuer, "credentialSubject");
    GetSetField(data.raw, "issuer", issuer, key);
    GetSetField(SetField(data.raw, "issuer", issuer).value, "credentialSubject", subject, key);
  }

  function Handle(self: Credential, command: CredentialCommand, services: CredentialServices)
    : (r: Result<seq<CredentialEvent>, CredentialError>)
    ensures r.Success? ==> |r.value| <= 1
  {
    match command
    case CreateUnsignedCredential(data, configuration) => Create(data, configuration, services)
    case CreateSignedCredential(signed) => Success([SignedCredentialCreated(signed)])
    case SignCredential(subjectId, overwrite) =>
      if self.signed.Some? && !overwrite then Success([])
      else
        match self.data
        case None => Failure(MissingCredentialDataError)
        case Some(data) =>
          match Payload(data, subjectId, services.issuerDid)
          case None => Failure(Panic)
          case Some(payload) => Success([CredentialSigned(services.encode(payload, subjectId))])
  }

  // ----- what a creation puts on record -----

  /** The last supported entry is this one. */
  ghost predicate LastIs(types: seq<string>, chosen: string) {
    exists i :: 0 <= i < |types| && types[i] == chosen && Supported(chosen) && forall j :: i < j < |types| ==> !Supported(types[j])
  }

  lemma LastChosen(types: seq<string>, chosen: string)
    requires LastIs(types, chosen)
    ensures LastSupported(types).Some? && types[LastSupported(types).value] == chosen
  {
    var i :| 0 <= i < |types| && types[i] == chosen && Supported(chosen) && forall j :: i < j < |types| ==> !Supported(types[j]);
    var last := LastSupported(types);
    assert last.Some? && !(last.value < i) && !(last.value > i);
  }

  /** What was built, with all configured types in order written over its `type`, in place or at the end, and every other field
      as the builder left it. */
  ghost predicate Typed(built: Json, types: seq<string>, raw: Json) {
    && raw.Object?
    && KeysWith(built, "type", raw.fields)
    && Get(raw, "type").Some? && Get(raw, "type").value.Array?
    && |Get(raw, "type").value.items| == |types|
    && (forall i :: 0 <= i < |types| ==> Get(raw, "type").value.items[i] == Str(types[i]))
    && (forall key :: key != "type" ==> Get(raw, key) == Get(built, key))
  }

  /** The keys of an object or null after an assignment to one field. */
  predicate KeysWith(value: Json, key: string, fields: Fields) {
    var keys := if value.Object? then Keys(value.fields) else [];
    Keys(fields) == if key in keys then keys else keys + [key]
  }

  lemma SetFieldKeys(value: Json, key: string, field: Json)
    requires value.Object? || value.Null?
    ensures var r := SetField(value, key, field); r.Some? && r.value.Object? && KeysWith(value, key, r.value.fields)
  {
    if value.Object? {
      InsertKeys(value.fields, key, field);
      assert Keys(value.fields + [(key, field)]) == Keys(value.fields) + [key];
    }
  }

  lemma TypesWritten(built: Json, types: seq<string>)
    requires built.Object? || built.Null?
    ensures var raw := SetField(built, "type", TypeArray(types)); raw.Some? && Typed(built, types, raw.value)
  {
    SetFieldKeys(built, "type", TypeArray(types));
    forall key
      ensures Get(SetField(built, "type", TypeArray(types)).value, key)
           == if key == "type" then Some(TypeArray(types)) else Get(built, key)
    {
      GetSetField(built, "type", TypeArray(types), key);
    }
  }

  /** A creation from a subject: the last supported type decides, and entries before it are never tried. For a plain credential
      the builder's result goes on record with the configured types written in; for an achievement the builder's result for the
      type, the display name and the subject, exactly as it is. The configuration on record is the one given. */
  lemma CreatedExactly(self: Credential, data: Data, configuration: ServerConfig.Configuration, services: CredentialServices,
                       subject: Json, chosen: string)
    requires configuration.format.JwtVcJson? && LastIs(configuration.format.types, chosen)
    requires Get(data.raw, "credentialSubject") == Some(subject)
    ensures var r := Handle(self, CreateUnsignedCredential(data, configuration), services);
            if chosen == "VerifiableCredential" then
              var built := services.buildVerifiableCredential(subject);
              if built.None? then r == Failure(InvalidVerifiableCredentialError)
              else if !(built.value.Object? || built.value.Null?) then r == Failure(Panic)
              else exists raw :: Typed(built.value, configuration.format.types, raw)
                                 && r == Success([UnsignedCredentialCreated(Data(raw), configuration)])
            else
              var name := if configuration.displayName.Some? then configuration.displayName.value else "OpenBadge Credential";
              var built := services.buildAchievement(chosen, name, subject);
              if built.None? then r == Failure(InvalidVerifiableCredentialError)
              else r == Success([UnsignedCredentialCreated(Data(built.value), configuration)])
  {
    LastChosen(configuration.format.types, chosen);
    if chosen == "VerifiableCredential" {
      var built := services.buildVerifiableCredential(subject);
      if built.Some? && (built.value.Object? || built.value.Null?) {
        TypesWritten(built.value, configuration.format.types);
      }
    }
  }

  /** The other creations: none from another format, without a subject, or without a supported type. */
  lemma NotCreated(self: Credential, data: Data, configuration: ServerConfig.Configuration, services: CredentialServices)
    ensures var r := Handle(self, CreateUnsignedCredential(data, configuration), services);
            match configuration.format
            case OtherFormat => r == Failure(UnsupportedCredentialFormat)
            case JwtVcJson(types) =>
              var subject := Get(data.raw, "credentialSubject");
              && (subject.None? ==> r == Failure(MissingCredentialSubjectError))
              && (subject.Some? && (forall t :: t in types ==> !Supported(t)) ==> r == Failure(UnsupportedCredentialFormat))
  {
  }

  /** The builder for the type does not take the subject. */
  predicate Refuses(chosen: string, subject: Json, configuration: ServerConfig.Configuration, services: CredentialServices) {
    if chosen == "VerifiableCredential" then services.buildVerifiableCredential(subject).None?
    else services.buildAchievement(chosen, if configuration.displayName.Some? then configuration.displayName.value else "OpenBadge Credential",
                                   subject).None?
  }

  /** A subject refused at the chosen type is an error: entries before it are never tried, whatever they are. */
  lemma NoFallback(self: Credential, data: Data, configuration: ServerConfig.Configuration, services: CredentialServices,
                   before: seq<string>, chosen: string, after: seq<string>, subject: Json)
    requires configuration.format == ServerConfig.JwtVcJson(before + [chosen] + after)
    requires Supported(chosen) && forall t :: t in after ==> !Supported(t)
    requires Get(data.raw, "credentialSubject") == Some(subject)
    ensures Refuses(chosen, subject, configuration, services) ==>
              Handle(self, CreateUnsignedCredential(data, configuration), services) == Failure(InvalidVerifiableCredentialError)
  {
    var types := before + [chosen] + after;
    assert types[|before|] == chosen;
    forall j | |before| < j < |types| ensures !Supported(types[j]) {
      assert types[j] == after[j - |before| - 1];
    }
    assert LastIs(types, chosen);
    CreatedExactly(self, data, configuration, services, subject, chosen);
  }

  function Apply(self: Credential, event: CredentialEvent): Credential {
    match event
    case UnsignedCredentialCreated(data, configuration) => self.(data := Some(data), configuration := configuration)
    case SignedCredentialCreated(signed) => self.(signed := Some(signed))
    case CredentialSigned(signed) => self.(signed := Some(signed))
  }

  datatype CredentialView = CredentialView(data: Option<Data>, configuration: ServerConfig.Configuration, signed: Option<Json>)

  const EMPTY_VIEW := CredentialView(None, EMPTY_CONFIGURATION, None)

  function Update(view: CredentialView, event: CredentialEvent): CredentialView {
    match event
    case UnsignedCredentialCreated(data, configuration) => view.(data := Some(data), configuration := configuration)
    case SignedCredentialCreated(signed) => view.(signed := Some(signed))
    case CredentialSigned(signed) => view.(signed := Some(signed))
  }

  /** Repositories keep views as JSON, and an optional value that holds null is read back as absent. */
  function Reload(view: CredentialView): CredentialView {
    view.(signed := if view.signed == Some(Null) then None else view.signed)
  }

  /** One update of the stored view, as the next reader sees it. */
  function Store(view: CredentialView, event: CredentialEvent): CredentialView {
    Reload(Update(view, event))
  }

  function Aggregate(events: seq<CredentialEvent>): Credential {
    Replay(Apply, EMPTY_CREDENTIAL, events)
  }

  function Stored(events: seq<CredentialEvent>): CredentialView {
    Replay(Store, EMPTY_VIEW, events)
  }

  /** For every log: the stored view is the aggregate, except that a null signature reads as no signature. */
  lemma {:induction false} ViewSimulatesAggregate(events: seq<CredentialEvent>)
    ensures var a, v := Aggregate(events), Stored(events);
            v == Reload(CredentialView(a.data, a.configuration, a.signed))
  {
    if events != [] {
      ViewSimulatesAggregate(events[..|events| - 1]);
    }
  }

  /** Field by field the two are equal exactly when no encoding failure is on record as the latest signature. */
  lemma ViewEqualsAggregateExactly(events: seq<CredentialEvent>)
    ensures var a, v := Aggregate(events), Stored(events);
            (v.data == a.data && v.configuration == a.configuration && v.signed == a.signed) <==> a.signed != Some(Null)
  {
    ViewSimulatesAggregate(events);
  }

  /** Signing without `overwrite` never changes an existing signature; with it, only the signature changes. */
  lemma SignTwice(self: Credential, subjectId: string, overwrite: bool, services: CredentialServices)
    requires self.signed.Some?
    ensures !overwrite ==> Handle(self, SignCredential(subjectId, overwrite), services) == Success([])
    ensures var r := Handle(self, SignCredential(subjectId, overwrite), services);
            r.Success? ==> Replay(Apply, self, r.value).(signed := self.signed) == self
  {
    var r := Handle(self, SignCredential(subjectId, overwrite), services);
    if r.Success? && |r.value| == 1 {
      assert r.value[..0] == [];
    }
  }

  // ----- what the log says -----

  function LastUnsigned(events: seq<CredentialEvent>): (r: Option<CredentialEvent>)
    ensures r.Some? ==> r.value.UnsignedCredentialCreated?
  {
    if events == [] then None
    else if events[|events| - 1].UnsignedCredentialCreated? then Some(events[|events| - 1])
    else LastUnsigned(events[..|events| - 1])
  }

  /** The value that was handed in signed, or signed here, last. */
  function LastSignature(events: seq<CredentialEvent>): Option<Json> {
    if events == [] then None
    else if !events[|events| - 1].UnsignedCredentialCreated? then Some(events[|events| - 1].signed)
    else LastSignature(events[..|events| - 1])
  }

  /** For every log: data and configuration are those of the latest unsigned credential, the signature is the latest one, and
      nothing before the first. */
  lemma {:induction false} FieldsAreLatest(events: seq<CredentialEvent>)
    ensures var a, last := Aggregate(events), LastUnsigned(events);
            && a.data == (if last.Some? then Some(last.value.data) else None)
            && a.configuration == (if last.Some? then last.value.configuration else EMPTY_CONFIGURATION)
            && a.signed == LastSignature(events)
    ensures LastUnsigned(events).Some? ==> LastUnsigned(events).value in events
    ensures LastUnsigned(events).None? ==> forall e :: e in events ==> !e.UnsignedCredentialCreated?
    ensures LastSignature(events).None? <==> forall e :: e in events ==> e.UnsignedCredentialCreated?
  {
    if events != [] {
      var front, last := events[..|events| - 1], events[|events| - 1];
      assert events == front + [last];
      FieldsAreLatest(front);
    }
  }

  /** The stored view shows the same, except that a null signature reads as none. */
  lemma ViewShowsLog(events: seq<CredentialEvent>)
    ensures var v, last := Stored(events), LastUnsigned(events);
            && v.data == (if last.Some? then Some(last.value.data) else None)
            && v.configuration == (if last.Some? then last.value.configuration else EMPTY_CONFIGURATION)
            && v.signed == (if LastSignature(events) == Some(Null) then None else LastSignature(events))
  {
    FieldsAreLatest(events);
    ViewSimulatesAggregate(events);
  }

  // ----- what gets signed -----

  /** The subject as it is signed: `id` first and then the original keys in order, every original entry with its own value, and
      the requesting subject as `id` where the original names nobody. */
  ghost predicate SubjectOf(original: Fields, subjectId: string, rebuilt: Fields) {
    && Keys(rebuilt) == ["id"] + Without(Keys(original), "id")
    && forall key :: Lookup(rebuilt, key) == if key in Keys(original) then Lookup(original, key)
                                             else if key == "id" then Some(Str(subjectId)) else None
  }

  /** The credential as it is signed: the data with this issuer, in place or at the end, with the subject so rebuilt, and every
      other field as it was. */
  ghost predicate Credentialed(raw: Json, issuerDid: string, subjectId: string, payload: Json) {
    && payload.Object? && KeysWith(raw, "issuer", payload.fields)
    && Get(payload, "issuer") == Some(Str(issuerDid))
    && IsObject(Get(raw, "credentialSubject")) && IsObject(Get(payload, "credentialSubject"))
    && SubjectOf(Get(raw, "credentialSubject").value.fields, subjectId, Get(payload, "credentialSubject").value.fields)
    && forall key :: key != "issuer" && key != "credentialSubject" ==> Get(payload, key) == Get(raw, key)
  }

  /** The data has a subject object, a `Map` like every other. */
  ghost predicate HasSubject(raw: Json) {
    IsObject(Get(raw, "credentialSubject")) && Distinct(Get(raw, "credentialSubject").value.fields)
  }

  lemma PayloadKeys(data: Data, subjectId: string, issuerDid: string)
    requires IsObject(Get(data.raw, "credentialSubject"))
    ensures var payload := Payload(data, subjectId, issuerDid);
            payload.Some? && payload.value.Object? && KeysWith(data.raw, "issuer", payload.value.fields)
  {
    var issuer, subject := Str(issuerDid), Object(Rebuilt(subjectId, Get(data.raw, "credentialSubject").value.fields));
    GetSetField(data.raw, "issuer", issuer, "credentialSubject");
    SetFieldKeys(data.raw, "issuer", issuer);
    SetFieldKeys(SetField(data.raw, "issuer", issuer).value, "credentialSubject", subject);
  }

  lemma PayloadCredentialed(data: Data, subjectId: string, issuerDid: string)
    requires HasSubject(data.raw)
    ensures Payload(data, subjectId, issuerDid).Some?
    ensures Credentialed(data.raw, issuerDid, subjectId, Payload(data, subjectId, issuerDid).value)
  {
    var subject := Get(data.raw, "credentialSubject").value.fields;
    PayloadKeys(data, subjectId, issuerDid);
    var payload := Payload(data, subjectId, issuerDid).value;
    forall key ensures Get(payload, key) == if key == "credentialSubject" then Some(Object(Rebuilt(subjectId, subject)))
                                            else if key == "issuer" then Some(Str(issuerDid)) else Get(data.raw, key)
    {
      PayloadField(data, subjectId, issuerDid, key);
    }
    RebuiltKeys(subjectId, subject);
    forall key ensures Lookup(Rebuilt(subjectId, subject), key)
                    == if key in Keys(subject) then Lookup(subject, key) else if key == "id" then Some(Str(subjectId)) else None
    {
      RebuiltValues(subjectId, subject, key);
    }
  }

  /** The value signed for a subject: what the encoder makes of the credential with issuer and subject put in, and of that subject. */
  ghost predicate SignatureOf(raw: Json, subjectId: string, services: CredentialServices, value: Json) {
    exists payload :: Credentialed(raw, services.issuerDid, subjectId, payload) && value == services.encode(payload, subjectId)
  }

  /** What signing does, for every log: nothing if there is a signature that may not be overwritten; an error without data; a panic
      without a subject object; otherwise one event, with the encoding of the latest data for the subject. */
  lemma SignsExactly(events: seq<CredentialEvent>, subjectId: string, overwrite: bool, services: CredentialServices)
    ensures var r := Handle(Aggregate(events), SignCredential(subjectId, overwrite), services);
            if LastSignature(events).Some? && !overwrite then r == Success([])
            else
              match LastUnsigned(events)
              case None => r == Failure(MissingCredentialDataError)
              case Some(created) =>
                if !IsObject(Get(created.data.raw, "credentialSubject")) then r == Failure(Panic)
                else
                  && r.Success? && |r.value| == 1 && r.value[0].CredentialSigned?
                  && (HasSubject(created.data.raw) ==> SignatureOf(created.data.raw, subjectId, services, r.value[0].signed))
  {
    FieldsAreLatest(events);
    var created := LastUnsigned(events);
    if created.Some? {
      PanicsExactly(created.value.data, subjectId, services.issuerDid);
      if HasSubject(created.value.data.raw) {
        PayloadCredentialed(created.value.data, subjectId, services.issuerDid);
      }
    }
  }

  /** With an encoder that returns its first argument the value is the credential itself, with one that returns its second it is
      the subject. */
  lemma SignatureShowsArguments(raw: Json, subjectId: string, services: CredentialServices, value: Json)
    requires SignatureOf(raw, subjectId, services, value)
    ensures (forall payload, s :: services.encode(payload, s) == payload) ==> Credentialed(raw, services.issuerDid, subjectId, value)
    ensures (forall payload, s :: services.encode(payload, s) == Str(s)) ==> value == Str(subjectId)
  {
  }

  /** Which signing and hand-in commands succeed, and what a reader of the view sees next. */
  lemma CommandShows(events: seq<CredentialEvent>, command: CredentialCommand, services: CredentialServices)
    requires !command.CreateUnsignedCredential?
    ensures var self := Aggregate(events);
            var r := Handle(self, command, services);
            && (r.Success? <==>
                  || command.CreateSignedCredential?
                  || (self.signed.Some? && !command.overwrite)
                  || (self.data.Some? && IsObject(Get(self.data.value.raw, "credentialSubject"))))
            && (r == Failure(MissingCredentialDataError) <==>
                  command.SignCredential? && self.data.None? && (self.signed.None? || command.overwrite))
            && (command.CreateSignedCredential? ==> r == Success([SignedCredentialCreated(command.signed)]))
    ensures var r := Handle(Aggregate(events), command, services);
            r.Success? ==>
              Stored(events + r.value)
              == if r.value == [] then Stored(events)
                 else Stored(events).(signed := if r.value[0].signed == Null then None else Some(r.value[0].signed))
  {
    var self := Aggregate(events);
    var r := Handle(self, command, services);
    if command.SignCredential? && self.data.Some? {
      PanicsExactly(self.data.value, command.subjectId, services.issuerDid);
    }
    if r.Success? {
      if r.value == [] {
        assert events + r.value == events;
      } else {
        assert r.value == [r.value[0]];
        ReplaySnoc(Store, EMPTY_VIEW, events, r.value[0]);
      }
    }
  }
}
