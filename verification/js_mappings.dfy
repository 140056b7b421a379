/** The mappings of the JavaScript client between its own request and
    response shapes and the root canister's Candid shapes
    (`cns-root-mappings.ts`). Field names follow each side: camel case on the
    client side, the Candid names on the canister side. */
module JsMappings {
  import opened Wrappers
  import opened JsUtils
  import opened Principals

  // ---------------------------------------------------------------------------
  // Client-side shapes.

  /** A record as the client presents it; the TTL is a `bigint`. */
  datatype DomainRecord = DomainRecord(ttl: nat, recordType: string, data: string, name: string)

  datatype LookupDomainResponse = LookupDomainResponse(answers: seq<DomainRecord>, additionals: seq<DomainRecord>,
                                                       authorities: seq<DomainRecord>)

  datatype ControllerRole = ADMINISTRATIVE | TECHNICAL | REGISTRAR | REGISTRANT

  /** A controller id given as text or as a principal. */
  datatype PrincipalArg = Text(text: string) | Id(id: Principal)

  /** The declared request: its id field is `controller_id`; it has no field
      `principal`. */
  datatype RegistrationControllerRequest = RegistrationControllerRequest(controller_id: PrincipalArg, roles: seq<ControllerRole>)

  datatype RegistrationRecordRequest = RegistrationRecordRequest(controller: seq<RegistrationControllerRequest>,
                                                                 domainRecords: Js<seq<DomainRecord>>)

  // ---------------------------------------------------------------------------
  // Canister-side (Candid) shapes.

  datatype CanisterDomainRecord = CanisterDomainRecord(ttl: nat, record_type: string, data: string, name: string)

  datatype CanisterDomainLookup = CanisterDomainLookup(answers: seq<CanisterDomainRecord>,
                                                       additionals: seq<CanisterDomainRecord>,
                                                       authorities: seq<CanisterDomainRecord>)

  /** The Candid variant of a role. */
  datatype CanisterControllerRole = Administrative | Technical | Registrar | Registrant

  datatype CanisterRegistrationController = CanisterRegistrationController(principal: Principal,
                                                                           roles: seq<CanisterControllerRole>)

  datatype CanisterRegistrationRecords = CanisterRegistrationRecords(controller: seq<CanisterRegistrationController>,
                                                                     records: CandidOpt<seq<CanisterDomainRecord>>)

  datatype CanisterRegisterResult = CanisterRegisterResult(success: bool, message: CandidOpt<string>)

  // ---------------------------------------------------------------------------
  // Records.

  /** `mapDomainRecordRequest`. */
  function MapDomainRecordRequest(req: DomainRecord): (r: CanisterDomainRecord)
    ensures MapDomainRecordResponse(r) == req
  {
    CanisterDomainRecord(req.ttl, req.recordType, req.data, req.name)
  }

  /** `mapDomainRecordResponse`. */
  function MapDomainRecordResponse(res: CanisterDomainRecord): (r: DomainRecord)
  {
    DomainRecord(res.ttl, res.record_type, res.data, res.name)
  }

  /** The two record mappings are inverse to each other. */
  lemma RecordMappingsInverse(req: DomainRecord, res: CanisterDomainRecord)
    ensures MapDomainRecordResponse(MapDomainRecordRequest(req)) == req
    ensures MapDomainRecordRequest(MapDomainRecordResponse(res)) == res
  {
  }

  /** `Array.prototype.map` with `mapDomainRecordResponse`. */
  function MapResponses(s: seq<CanisterDomainRecord>): (r: seq<DomainRecord>)
    ensures |r| == |s|
    ensures forall i :: 0 <= i < |s| ==>
      && r[i].name == s[i].name && r[i].recordType == s[i].record_type
      && r[i].ttl == s[i].ttl && r[i].data == s[i].data
  {
    if |s| == 0 then [] else [MapDomainRecordResponse(s[0])] + MapResponses(s[1..])
  }

  /** `Array.prototype.map` with `mapDomainRecordRequest`. */
  function MapRequests(s: seq<DomainRecord>): (r: seq<CanisterDomainRecord>)
    ensures |r| == |s|
    ensures MapResponses(r) == s
  {
    if |s| == 0 then [] else [MapDomainRecordRequest(s[0])] + MapRequests(s[1..])
  }

  /** `mapDomainLookupResponse`: each of the three lists mapped element by
      element, in order. */
  function MapDomainLookupResponse(res: CanisterDomainLookup): (r: LookupDomainResponse)
    ensures |r.answers| == |res.answers| && |r.additionals| == |res.additionals|
      && |r.authorities| == |res.authorities|
    ensures forall i :: 0 <= i < |res.answers| ==> MapDomainRecordRequest(r.answers[i]) == res.answers[i]
    ensures forall i :: 0 <= i < |res.additionals| ==> MapDomainRecordRequest(r.additionals[i]) == res.additionals[i]
    ensures forall i :: 0 <= i < |res.authorities| ==> MapDomainRecordRequest(r.authorities[i]) == res.authorities[i]
  {
    LookupDomainResponse(MapResponses(res.answers), MapResponses(res.additionals), MapResponses(res.authorities))
  }

  // ---------------------------------------------------------------------------
  // Registration.

  /** `mapControllerRoleRequest`. */
  function MapControllerRoleRequest(req: ControllerRole): (r: CanisterControllerRole)
  {
    match req
    case ADMINISTRATIVE => Administrative
    case TECHNICAL => Technical
    case REGISTRAR => Registrar
    case REGISTRANT => Registrant
  }

  /** Each role maps to its own variant: the mapping is a bijection. */
  lemma RoleMappingBijective(a: ControllerRole, b: ControllerRole, v: CanisterControllerRole)
    ensures MapControllerRoleRequest(a) == MapControllerRoleRequest(b) <==> a == b
    ensures exists c :: MapControllerRoleRequest(c) == v
  {
    match v
    case Administrative => assert MapControllerRoleRequest(ADMINISTRATIVE) == v;
    case Technical => assert MapControllerRoleRequest(TECHNICAL) == v;
    case Registrar => assert MapControllerRoleRequest(REGISTRAR) == v;
    case Registrant => assert MapControllerRoleRequest(REGISTRANT) == v;
  }

  function MapRoles(s: seq<ControllerRole>): (r: seq<CanisterControllerRole>)
    ensures |r| == |s|
    ensures forall i :: 0 <= i < |s| ==> r[i] == MapControllerRoleRequest(s[i])
  {
    if |s| == 0 then [] else [MapControllerRoleRequest(s[0])] + MapRoles(s[1..])
  }

  /** `Principal.from`: a principal is kept, a text is parsed (and throws
      when malformed). */
  function PrincipalFrom(codec: Codec, arg: PrincipalArg): (r: Result<Principal, string>)
    ensures arg.Id? ==> r == Ok(arg.id)
    ensures arg.Text? ==> (r.Ok? <==> codec.fromText(arg.text).Some?)
    ensures arg.Text? && r.Ok? ==> codec.fromText(arg.text) == Some(r.value)
  {
    match arg
    case Id(p) => Ok(p)
    case Text(t) =>
      match codec.fromText(t)
      case Some(p) => Ok(p)
      case None => Err(t)
  }

  /** `Principal.from` on any JavaScript value: nil is neither a text nor a
      principal, and throws (the message is not modelled). */
  function PrincipalFromValue(codec: Codec, v: Js<PrincipalArg>): (r: Result<Principal, string>)
    ensures IsNil(v) ==> r.Err?
    ensures v.Present? ==> r == PrincipalFrom(codec, v.value)
  {
    match v
    case Present(arg) => PrincipalFrom(codec, arg)
    case Undefined => Err("undefined")
    case Null => Err("null")
  }

  /** Reading the property `principal` of a declared request: the type has
      no such field, so the value is `undefined`. */
  function PrincipalProperty(req: RegistrationControllerRequest): Js<PrincipalArg> {
    Undefined
  }

  /** `mapRegistrationControllerRequest` as written: the principal is taken
      from `req.principal`. */
  function MapRegistrationControllerRequestAsWritten(codec: Codec, req: RegistrationControllerRequest)
    : (r: Result<CanisterRegistrationController, string>)
    ensures r.Ok? <==> PrincipalFromValue(codec, PrincipalProperty(req)).Ok?
    ensures r.Err? ==> r.error == PrincipalFromValue(codec, PrincipalProperty(req)).error
  {
    match PrincipalFromValue(codec, PrincipalProperty(req))
    case Err(t) => Err(t)
    case Ok(p) => Ok(CanisterRegistrationController(p, MapRoles(req.roles)))
  }

  /** As written, the mapping throws for every declared request, whatever
      its `controller_id`. */
  lemma ControllerMappingAsWrittenThrows(codec: Codec, req: RegistrationControllerRequest)
    ensures MapRegistrationControllerRequestAsWritten(codec, req).Err?
    ensures PrincipalFrom(codec, req.controller_id).Ok? ==>
      MapRegistrationControllerRequestAsWritten(codec, req) != MapRegistrationControllerRequest(codec, req)
  {
  }

  /** `mapRegistrationControllerRequest` reading the declared field
      `controller_id`: the controller's principal and its roles, mapped one
      by one. */
  function MapRegistrationControllerRequest(codec: Codec, req: RegistrationControllerRequest)
    : (r: Result<CanisterRegistrationController, string>)
    ensures r.Ok? <==> PrincipalFrom(codec, req.controller_id).Ok?
    ensures r.Ok? ==>
      && r.value.principal == PrincipalFrom(codec, req.controller_id).value
      && |r.value.roles| == |req.roles|
      && forall i :: 0 <= i < |req.roles| ==> r.value.roles[i] == MapControllerRoleRequest(req.roles[i])
  {
    match PrincipalFrom(codec, req.controller_id)
    case Err(t) => Err(t)
    case Ok(p) => Ok(CanisterRegistrationController(p, MapRoles(req.roles)))
  }

  /** The mapping keeps the controller: a principal given as such, or as its
      text when that parses back, becomes the Candid controller's principal,
      with the roles mapped in order. */
  lemma ControllerIdIsKept(codec: Codec, req: RegistrationControllerRequest, p: Principal)
    requires req.controller_id == Id(p) || (req.controller_id == Text(codec.toText(p)) && codec.fromText(codec.toText(p)) == Some(p))
    ensures MapRegistrationControllerRequest(codec, req) == Ok(CanisterRegistrationController(p, MapRoles(req.roles)))
  {
  }

  /** The controllers mapped one by one with `f`, in order, as
      `Array.prototype.map` calls it; the first controller that throws ends
      the mapping with its error. */
  function MapEach(f: RegistrationControllerRequest -> Result<CanisterRegistrationController, string>,
                   s: seq<RegistrationControllerRequest>)
    : (r: Result<seq<CanisterRegistrationController>, string>)
    ensures r.Ok? <==> forall i :: 0 <= i < |s| ==> f(s[i]).Ok?
    ensures r.Ok? ==> |r.value| == |s| && forall i :: 0 <= i < |s| ==> r.value[i] == f(s[i]).value
    ensures r.Err? ==> exists i :: 0 <= i < |s| && f(s[i]) == Err(r.error) && forall j :: 0 <= j < i ==> f(s[j]).Ok?
  {
    if |s| == 0 then Ok([])
    else
      match f(s[0])
      case Err(t) => Err(t)
      case Ok(c) =>
        match MapEach(f, s[1..])
        case Err(t) =>
          assert forall j :: 1 <= j < |s| ==> s[j] == s[1..][j - 1];
          Err(t)
        case Ok(cs) =>
          assert forall j :: 1 <= j < |s| ==> s[j] == s[1..][j - 1];
          Ok([c] + cs)
  }

  /** `req.controller.map(mapRegistrationControllerRequest)` with the
      controller mapping that reads `controller_id`; the first malformed
      principal throws. */
  function MapControllers(codec: Codec, s: seq<RegistrationControllerRequest>)
    : (r: Result<seq<CanisterRegistrationController>, string>)
    ensures r.Ok? <==> forall i :: 0 <= i < |s| ==> MapRegistrationControllerRequest(codec, s[i]).Ok?
    ensures r.Ok? ==>
      && |r.value| == |s|
      && forall i :: 0 <= i < |s| ==> r.value[i] == MapRegistrationControllerRequest(codec, s[i]).value
  {
    MapEach(req => MapRegistrationControllerRequest(codec, req), s)
  }

  /** `req.controller.map(mapRegistrationControllerRequest)` as written,
      through `MapRegistrationControllerRequestAsWritten`. */
  function MapControllersAsWritten(codec: Codec, s: seq<RegistrationControllerRequest>)
    : (r: Result<seq<CanisterRegistrationController>, string>)
    ensures r.Ok? <==> forall i :: 0 <= i < |s| ==> MapRegistrationControllerRequestAsWritten(codec, s[i]).Ok?
    ensures r.Err? ==> exists i :: 0 <= i < |s| && MapRegistrationControllerRequestAsWritten(codec, s[i]) == Err(r.error)
  {
    MapEach(req => MapRegistrationControllerRequestAsWritten(codec, req), s)
  }

  /** The Candid registration built from mapped controllers: absent records
      become `[]`, present ones `[records]` mapped element by element. */
  function WithRecords(controllers: seq<CanisterRegistrationController>, domainRecords: Js<seq<DomainRecord>>)
    : (r: CanisterRegistrationRecords)
    ensures r.controller == controllers
    ensures |r.records| == 0 <==> IsNil(domainRecords)
    ensures domainRecords.Present? ==> |r.records| == 1 && MapResponses(r.records[0]) == domainRecords.value
  {
    var records := match domainRecords
      case Present(rs) => Present(MapRequests(rs))
      case Null => Undefined
      case Undefined => Undefined;
    CanisterRegistrationRecords(controllers, ToCandidOpt(records))
  }

  /** `mapRegistrationRecordRequest` with the controller mapping that reads
      `controller_id`. */
  function MapRegistrationRecordRequest(codec: Codec, req: RegistrationRecordRequest)
    : (r: Result<CanisterRegistrationRecords, string>)
    ensures r.Ok? <==> MapControllers(codec, req.controller).Ok?
    ensures r.Ok? ==> r.value.controller == MapControllers(codec, req.controller).value
    ensures r.Ok? ==> (|r.value.records| == 0 <==> IsNil(req.domainRecords))
    ensures r.Ok? && req.domainRecords.Present? ==>
      |r.value.records| == 1 && MapResponses(r.value.records[0]) == req.domainRecords.value
  {
    match MapControllers(codec, req.controller)
    case Err(t) => Err(t)
    case Ok(cs) => Ok(WithRecords(cs, req.domainRecords))
  }

  /** `mapRegistrationRecordRequest` as written, through
      `MapControllersAsWritten`. */
  function MapRegistrationRecordRequestAsWritten(codec: Codec, req: RegistrationRecordRequest)
    : (r: Result<CanisterRegistrationRecords, string>)
    ensures r.Ok? <==> MapControllersAsWritten(codec, req.controller).Ok?
    ensures r.Ok? ==> r.value == WithRecords(MapControllersAsWritten(codec, req.controller).value, req.domainRecords)
    ensures r.Err? ==> r.error == MapControllersAsWritten(codec, req.controller).error
  {
    match MapControllersAsWritten(codec, req.controller)
    case Err(t) => Err(t)
    case Ok(cs) => Ok(WithRecords(cs, req.domainRecords))
  }

  /** As written, a registration throws exactly when it names a controller,
      with the error of `Principal.from(undefined)`; without controllers it
      agrees with the mapping that reads `controller_id`. */
  lemma {:induction false} RecordRequestAsWrittenThrows(codec: Codec, req: RegistrationRecordRequest)
    ensures MapRegistrationRecordRequestAsWritten(codec, req).Ok? <==> |req.controller| == 0
    ensures MapRegistrationRecordRequestAsWritten(codec, req).Err? ==>
      MapRegistrationRecordRequestAsWritten(codec, req).error == PrincipalFromValue(codec, Undefined).error
    ensures |req.controller| == 0 ==>
      MapRegistrationRecordRequestAsWritten(codec, req) == MapRegistrationRecordRequest(codec, req)
  {
    if |req.controller| > 0 {
      ControllerMappingAsWrittenThrows(codec, req.controller[0]);
    }
  }

  const NO_ERROR_MESSAGE: string := "Domain registration failed with no error message"

  /** `mapDomainRegistrationResponse`: returns normally on success, and
      otherwise throws the remote message, or a fixed text when there is
      none. */
  function MapDomainRegistrationResponse(res: CanisterRegisterResult): (r: Result<(), string>)
    ensures r.Ok? <==> res.success
    ensures r.Err? && |res.message| == 1 ==> r.error == res.message[0]
    ensures r.Err? && |res.message| == 0 ==> r.error == NO_ERROR_MESSAGE
  {
    if !res.success then
      match FromCandidOpt(res.message)
      case Present(m) => Err(m)
      case _ => Err(NO_ERROR_MESSAGE)
    else Ok(())
  }
}
