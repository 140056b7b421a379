/** The Rust client library of the naming service
    (`ic-cns-canister-client`): resolve a domain by asking the root for the
    domain's naming canister (`NC`), then asking that naming canister for the
    record wanted; register a domain through its naming canister; and find
    the name of a canister or subnet through the reverse `PTR` records.

    Inter-canister calls are an oracle (`Network`) and every operation
    returns the calls it made, so that "no second call" can be stated. The
    textual encoding of principals is a pair of functions (`Codec` of the
    module `Principals`). */
module CanisterClient {
  import opened Wrappers
  import opened Principals

  // ---------------------------------------------------------------------------
  // Errors and messages.

  /** The reject codes of the system API. */
  datatype RejectionCode = NoError | SysFatal | SysTransient | DestinationInvalid | CanisterReject | CanisterError | Unknown

  /** A rejected call: its code and message. */
  datatype Rejection = Rejection(code: RejectionCode, message: string)

  datatype CnsError =
    | NotFound(notFound: string)
    | CallFailed(code: RejectionCode, reason: string)
    | MalformedData(malformed: string)
    | Internal(internal: string)

  /** `From<(RejectionCode, String)>`: a rejection becomes `CallFailed`
      carrying the code and message unchanged. */
  function FromRejection(rej: Rejection): (e: CnsError)
    ensures e.CallFailed? && e.code == rej.code && e.reason == rej.message
  {
    CallFailed(rej.code, rej.message)
  }

  /** A record as the naming canisters exchange it; the TTL is an unbounded
      natural number (`Nat`). */
  datatype DomainRecord = DomainRecord(name: string, record_type: string, ttl: nat, data: string)

  datatype DomainLookup = DomainLookup(answers: seq<DomainRecord>, additionals: seq<DomainRecord>,
                                       authorities: seq<DomainRecord>)

  datatype RegistrationControllerRole = Registrar | Registrant | Technical | Administrative

  datatype RegistrationController = RegistrationController(controller_id: Principal,
                                                           roles: seq<RegistrationControllerRole>)

  datatype RegistrationRecords = RegistrationRecords(controllers: seq<RegistrationController>,
                                                     records: Option<seq<DomainRecord>>)

  datatype RegisterResult = RegisterResult(success: bool, message: Option<string>)

  // ---------------------------------------------------------------------------
  // The network.

  /** The replies of the remote `lookup` and `register` methods of a target
      canister: a reply or a rejection. */
  datatype Network = Network(
    lookup: (Principal, string, string) -> Result<DomainLookup, Rejection>,
    register: (Principal, string, RegistrationRecords) -> Result<RegisterResult, Rejection>)

  /** One remote call: the target canister and the arguments. */
  datatype Call =
    | LookupCall(target: Principal, domain: string, recordType: string)
    | RegisterCall(target: Principal, domain: string, records: RegistrationRecords)

  /** The outcome of an operation and the calls it made, in order. */
  datatype Run<X> = Run(result: Result<X, CnsError>, calls: seq<Call>)

  /** The root canister the client asks for naming canisters. */
  datatype Client = Client(root: Principal)

  const CNS_ROOT_MAINNET: string := "rupqg-4qaaa-aaaad-qhosa-cai"

  /** The client as the library starts: the root parsed from the mainnet
      id, which the library requires to parse. */
  function Mainnet(codec: Codec): (c: Client)
    requires codec.fromText(CNS_ROOT_MAINNET).Some?
    ensures codec.fromText(CNS_ROOT_MAINNET) == Some(c.root)
  {
    Client(codec.fromText(CNS_ROOT_MAINNET).value)
  }

  /** `override_cns_root_for_testing`. */
  function OverrideCnsRoot(c: Client, root: Principal): (r: Client)
    ensures r.root == root
  {
    Client(root)
  }

  // ---------------------------------------------------------------------------
  // Resolution.

  /** `get_principal_id_from_records`: the principal in the data of the
      FIRST record, whatever the later records hold. */
  function GetPrincipalIdFromRecords(codec: Codec, records: seq<DomainRecord>, context: string): (r: Result<Principal, CnsError>)
    ensures |records| == 0 <==> r.Err? && r.error.NotFound?
    ensures |records| == 0 ==> r.error.notFound == "No record for " + context
    ensures |records| > 0 ==> (r.Ok? <==> codec.fromText(records[0].data).Some?)
    ensures r.Ok? ==> codec.fromText(records[0].data) == Some(r.value)
    ensures r.Err? && |records| > 0 ==>
      r.error == MalformedData("Malformed principal id `" + records[0].data + "` for " + context)
  {
    if |records| > 0 then
      match codec.fromText(records[0].data)
      case Some(id) => Ok(id)
      case None => Err(MalformedData("Malformed principal id `" + records[0].data + "` for " + context))
    else Err(NotFound("No record for " + context))
  }

  /** Only the first record decides: two answer lists with the same first
      record resolve alike. */
  lemma OnlyFirstRecordMatters(codec: Codec, a: seq<DomainRecord>, b: seq<DomainRecord>, context: string)
    requires |a| > 0 && |b| > 0 && a[0] == b[0]
    ensures GetPrincipalIdFromRecords(codec, a, context) == GetPrincipalIdFromRecords(codec, b, context)
  {
  }

  /** A malformed first record hides a well-formed second one. */
  lemma MalformedFirstRecordWins(codec: Codec, a: DomainRecord, b: DomainRecord, context: string)
    requires codec.fromText(a.data).None? && codec.fromText(b.data).Some?
    ensures GetPrincipalIdFromRecords(codec, [a, b], context).Err?
    ensures GetPrincipalIdFromRecords(codec, [a, b], context).error.MalformedData?
  {
  }

  /** `lookup_nc`: ask the root for the `NC` record of the domain. */
  function LookupNc(net: Network, codec: Codec, c: Client, domain: string): (r: Run<Principal>)
    ensures r.calls == [LookupCall(c.root, domain, "NC")]
    ensures net.lookup(c.root, domain, "NC").Err? ==>
      r.result == Err(FromRejection(net.lookup(c.root, domain, "NC").error))
    ensures net.lookup(c.root, domain, "NC").Ok? && |net.lookup(c.root, domain, "NC").value.answers| == 0 ==>
      r.result == Err(NotFound("No record for NC lookup for " + domain))
  {
    var calls := [LookupCall(c.root, domain, "NC")];
    assert "No record for " + ("NC lookup for " + domain) == "No record for NC lookup for " + domain;
    match net.lookup(c.root, domain, "NC")
    case Err(rej) => Run(Err(FromRejection(rej)), calls)
    case Ok(lookup) => Run(GetPrincipalIdFromRecords(codec, lookup.answers, "NC lookup for " + domain), calls)
  }

  /** Resolve `domain` to the principal of its `recordType` record through
      its naming canister (the common shape of `lookup_domain` and
      `lookup_subnet`). */
  function LookupThroughNc(net: Network, codec: Codec, c: Client, domain: string, recordType: string): (r: Run<Principal>)
    ensures |r.calls| >= 1 && r.calls[0] == LookupCall(c.root, domain, "NC")
    ensures LookupNc(net, codec, c, domain).result.Err? ==>
      r == Run(Err(LookupNc(net, codec, c, domain).result.error), LookupNc(net, codec, c, domain).calls)
    ensures LookupNc(net, codec, c, domain).result.Ok? ==>
      var nc := LookupNc(net, codec, c, domain).result.value;
      && r.calls == [LookupCall(c.root, domain, "NC"), LookupCall(nc, domain, recordType)]
      && (net.lookup(nc, domain, recordType).Err? ==> r.result == Err(FromRejection(net.lookup(nc, domain, recordType).error)))
      && (net.lookup(nc, domain, recordType).Ok? ==>
            r.result == GetPrincipalIdFromRecords(codec, net.lookup(nc, domain, recordType).value.answers,
                                                  recordType + " lookup for " + domain))
  {
    var first := LookupNc(net, codec, c, domain);
    match first.result
    case Err(e) => Run(Err(e), first.calls)
    case Ok(nc) =>
      var calls := first.calls + [LookupCall(nc, domain, recordType)];
      match net.lookup(nc, domain, recordType)
      case Err(rej) => Run(Err(FromRejection(rej)), calls)
      case Ok(lookup) => Run(GetPrincipalIdFromRecords(codec, lookup.answers, recordType + " lookup for " + domain), calls)
  }

  /** `lookup_domain`: the `CID` record through the naming canister. */
  function LookupDomain(net: Network, codec: Codec, c: Client, domain: string): (r: Run<Principal>)
    ensures |r.calls| >= 1 && r.calls[0] == LookupCall(c.root, domain, "NC")
    ensures LookupNc(net, codec, c, domain).result.Err? ==>
      r == Run(Err(LookupNc(net, codec, c, domain).result.error), [LookupCall(c.root, domain, "NC")])
    ensures LookupNc(net, codec, c, domain).result.Ok? ==>
      var nc := LookupNc(net, codec, c, domain).result.value;
      var reply := net.lookup(nc, domain, "CID");
      && r.calls == [LookupCall(c.root, domain, "NC"), LookupCall(nc, domain, "CID")]
      && (reply.Err? ==> r.result == Err(FromRejection(reply.error)))
      && (reply.Ok? ==> r.result == GetPrincipalIdFromRecords(codec, reply.value.answers, "CID lookup for " + domain))
  {
    assert "CID" + " lookup for " + domain == "CID lookup for " + domain;
    LookupThroughNc(net, codec, c, domain, "CID")
  }

  /** `lookup_subnet`: the `SID` record through the naming canister. */
  function LookupSubnet(net: Network, codec: Codec, c: Client, subnetName: string): (r: Run<Principal>)
    ensures |r.calls| >= 1 && r.calls[0] == LookupCall(c.root, subnetName, "NC")
    ensures LookupNc(net, codec, c, subnetName).result.Err? ==>
      r == Run(Err(LookupNc(net, codec, c, subnetName).result.error), [LookupCall(c.root, subnetName, "NC")])
    ensures LookupNc(net, codec, c, subnetName).result.Ok? ==>
      var nc := LookupNc(net, codec, c, subnetName).result.value;
      var reply := net.lookup(nc, subnetName, "SID");
      && r.calls == [LookupCall(c.root, subnetName, "NC"), LookupCall(nc, subnetName, "SID")]
      && (reply.Err? ==> r.result == Err(FromRejection(reply.error)))
      && (reply.Ok? ==> r.result == GetPrincipalIdFromRecords(codec, reply.value.answers, "SID lookup for " + subnetName))
  {
    assert "SID" + " lookup for " + subnetName == "SID lookup for " + subnetName;
    LookupThroughNc(net, codec, c, subnetName, "SID")
  }

  const REGISTRATION_TTL: nat := 3600

  /** The registration `register_domain` sends: one `CID` record for the
      domain pointing at the canister, no controllers. */
  function Registration(codec: Codec, domain: string, cid: Principal): (r: RegistrationRecords)
    ensures r.controllers == [] && r.records.Some? && |r.records.value| == 1
    ensures var rec := r.records.value[0];
      rec.name == domain && rec.record_type == "CID" && rec.ttl == 3600 && rec.data == codec.toText(cid)
  {
    RegistrationRecords([], Some([DomainRecord(domain, "CID", REGISTRATION_TTL, codec.toText(cid))]))
  }

  /** The error of a failed registration. */
  function RegistrationFailure(domain: string, message: Option<string>): (e: CnsError)
    ensures e.CallFailed? && e.code == NoError
    ensures var prefix := "Registration of domain ";
      && |e.reason| == |prefix| + |domain| + |" failed with error "| + |message.GetOr("")|
      && e.reason[..|prefix|] == prefix
      && e.reason[|prefix|..|prefix| + |domain|] == domain
      && e.reason[|e.reason| - |message.GetOr("")|..] == message.GetOr("")
  {
    CallFailed(NoError, "Registration of domain " + domain + " failed with error " + message.GetOr(""))
  }

  /** `register_domain`: find the naming canister, then send it the
      registration; success only on a reply that says so. */
  function RegisterDomain(net: Network, codec: Codec, c: Client, domain: string, cid: Principal): (r: Run<()>)
    ensures |r.calls| >= 1 && r.calls[0] == LookupCall(c.root, domain, "NC")
    ensures LookupNc(net, codec, c, domain).result.Err? ==>
      r == Run(Err(LookupNc(net, codec, c, domain).result.error), LookupNc(net, codec, c, domain).calls)
    ensures LookupNc(net, codec, c, domain).result.Ok? ==>
      var nc := LookupNc(net, codec, c, domain).result.value;
      var reply := net.register(nc, domain, Registration(codec, domain, cid));
      && r.calls == [LookupCall(c.root, domain, "NC"), RegisterCall(nc, domain, Registration(codec, domain, cid))]
      && (r.result.Ok? <==> reply.Ok? && reply.value.success)
      && (reply.Err? ==> r.result == Err(FromRejection(reply.error)))
      && (reply.Ok? && !reply.value.success ==> r.result == Err(RegistrationFailure(domain, reply.value.message)))
  {
    var first := LookupNc(net, codec, c, domain);
    match first.result
    case Err(e) => Run(Err(e), first.calls)
    case Ok(nc) =>
      var records := Registration(codec, domain, cid);
      var calls := first.calls + [RegisterCall(nc, domain, records)];
      match net.register(nc, domain, records)
      case Err(rej) => Run(Err(FromRejection(rej)), calls)
      case Ok(reply) =>
        if reply.success then Run(Ok(()), calls)
        else Run(Err(RegistrationFailure(domain, reply.message)), calls)
  }

  // ---------------------------------------------------------------------------
  // Reverse lookup.

  /** The reverse name of a principal: `<id>.reverse.icp.`. */
  function ReverseName(codec: Codec, id: Principal): (s: string)
    ensures |s| == |codec.toText(id)| + 13 && s[..|codec.toText(id)|] == codec.toText(id)
  {
    codec.toText(id) + ".reverse.icp."
  }

  /** `get_ptr_records`: the naming canister of `.icp.`, then its `PTR`
      answers for the reverse name. */
  function GetPtrRecords(net: Network, codec: Codec, c: Client, id: Principal): (r: Run<seq<DomainRecord>>)
    ensures |r.calls| >= 1 && r.calls[0] == LookupCall(c.root, ".icp.", "NC")
    ensures LookupNc(net, codec, c, ".icp.").result.Err? ==>
      r == Run(Err(LookupNc(net, codec, c, ".icp.").result.error), LookupNc(net, codec, c, ".icp.").calls)
    ensures LookupNc(net, codec, c, ".icp.").result.Ok? ==>
      var nc := LookupNc(net, codec, c, ".icp.").result.value;
      && r.calls == [LookupCall(c.root, ".icp.", "NC"), LookupCall(nc, ReverseName(codec, id), "PTR")]
      && (r.result.Ok? <==> net.lookup(nc, ReverseName(codec, id), "PTR").Ok?)
      && (r.result.Ok? ==> r.result.value == net.lookup(nc, ReverseName(codec, id), "PTR").value.answers)
  {
    var first := LookupNc(net, codec, c, ".icp.");
    match first.result
    case Err(e) => Run(Err(e), first.calls)
    case Ok(nc) =>
      var calls := first.calls + [LookupCall(nc, ReverseName(codec, id), "PTR")];
      match net.lookup(nc, ReverseName(codec, id), "PTR")
      case Err(rej) => Run(Err(FromRejection(rej)), calls)
      case Ok(lookup) => Run(Ok(lookup.answers), calls)
  }

  /** The data of the first `PTR` answer, or `NotFound` with the message
      when there is none. */
  function FirstPtrData(ptr: Run<seq<DomainRecord>>, notFound: string): (r: Run<string>)
    ensures r.calls == ptr.calls
    ensures ptr.result.Err? ==> r.result == Err(ptr.result.error)
    ensures ptr.result.Ok? && |ptr.result.value| > 0 ==> r.result == Ok(ptr.result.value[0].data)
    ensures ptr.result.Ok? && |ptr.result.value| == 0 ==> r.result == Err(NotFound(notFound))
  {
    match ptr.result
    case Err(e) => Run(Err(e), ptr.calls)
    case Ok(records) =>
      if |records| > 0 then Run(Ok(records[0].data), ptr.calls)
      else Run(Err(NotFound(notFound)), ptr.calls)
  }

  /** `domain_for_canister`. */
  function DomainForCanister(net: Network, codec: Codec, c: Client, canisterId: Principal): (r: Run<string>)
    ensures r.calls == GetPtrRecords(net, codec, c, canisterId).calls
    ensures r.result.Ok? ==>
      && GetPtrRecords(net, codec, c, canisterId).result.Ok?
      && |GetPtrRecords(net, codec, c, canisterId).result.value| > 0
      && r.result.value == GetPtrRecords(net, codec, c, canisterId).result.value[0].data
    ensures GetPtrRecords(net, codec, c, canisterId).result == Ok([]) ==>
      r.result == Err(NotFound("No domain found for canister " + codec.toText(canisterId)))
  {
    FirstPtrData(GetPtrRecords(net, codec, c, canisterId), "No domain found for canister " + codec.toText(canisterId))
  }

  /** `name_for_subnet`. */
  function NameForSubnet(net: Network, codec: Codec, c: Client, subnetId: Principal): (r: Run<string>)
    ensures r.calls == GetPtrRecords(net, codec, c, subnetId).calls
    ensures r.result.Ok? ==>
      && GetPtrRecords(net, codec, c, subnetId).result.Ok?
      && |GetPtrRecords(net, codec, c, subnetId).result.value| > 0
      && r.result.value == GetPtrRecords(net, codec, c, subnetId).result.value[0].data
    ensures GetPtrRecords(net, codec, c, subnetId).result == Ok([]) ==>
      r.result == Err(NotFound("No name found for subnet " + codec.toText(subnetId)))
  {
    FirstPtrData(GetPtrRecords(net, codec, c, subnetId), "No name found for subnet " + codec.toText(subnetId))
  }

  // ---------------------------------------------------------------------------
  // Properties across operations.

  /** The two reverse lookups make the same calls and agree on every
      outcome except an empty `PTR` answer, where only the `NotFound`
      message differs. */
  lemma ReverseLookupsAgree(net: Network, codec: Codec, c: Client, id: Principal)
    ensures DomainForCanister(net, codec, c, id).calls == NameForSubnet(net, codec, c, id).calls
    ensures GetPtrRecords(net, codec, c, id).result != Ok([]) ==>
      DomainForCanister(net, codec, c, id).result == NameForSubnet(net, codec, c, id).result
    ensures GetPtrRecords(net, codec, c, id).result == Ok([]) ==>
      && DomainForCanister(net, codec, c, id).result.Err? && DomainForCanister(net, codec, c, id).result.error.NotFound?
      && NameForSubnet(net, codec, c, id).result.Err? && NameForSubnet(net, codec, c, id).result.error.NotFound?
  {
  }

  /** The reverse lookup end to end: with the root naming the operator of
      `.icp.` and the operator answering the reverse name's `PTR` query, both
      lookups return the data of the first `PTR` answer after exactly those
      two calls. */
  lemma ReverseLookupEndToEnd(net: Network, codec: Codec, c: Client, id: Principal, operator: Principal,
                              ptr: DomainRecord, rest: seq<DomainRecord>)
    requires codec.fromText(codec.toText(operator)) == Some(operator)
    requires net.lookup(c.root, ".icp.", "NC") == Ok(DomainLookup([DomainRecord(".icp.", "NC", 0, codec.toText(operator))], [], []))
    requires net.lookup(operator, ReverseName(codec, id), "PTR") == Ok(DomainLookup([ptr] + rest, [], []))
    ensures var calls := [LookupCall(c.root, ".icp.", "NC"), LookupCall(operator, ReverseName(codec, id), "PTR")];
      && DomainForCanister(net, codec, c, id) == Run(Ok(ptr.data), calls)
      && NameForSubnet(net, codec, c, id) == Run(Ok(ptr.data), calls)
  {
  }


  /** When the naming-canister step fails, lookup, subnet lookup and
      registration make no second call and return that error unchanged. */
  lemma NcFailureShortCircuits(net: Network, codec: Codec, c: Client, domain: string, cid: Principal)
    requires LookupNc(net, codec, c, domain).result.Err?
    ensures var e := LookupNc(net, codec, c, domain).result.error;
      && LookupDomain(net, codec, c, domain) == Run(Err(e), [LookupCall(c.root, domain, "NC")])
      && LookupSubnet(net, codec, c, domain) == Run(Err(e), [LookupCall(c.root, domain, "NC")])
      && RegisterDomain(net, codec, c, domain, cid) == Run(Err(e), [LookupCall(c.root, domain, "NC")])
  {
  }

  /** A rejected root call surfaces as `CallFailed` with the rejection's code
      and message, from every operation that starts with it. */
  lemma RootRejectionIsVerbatim(net: Network, codec: Codec, c: Client, domain: string, cid: Principal, rej: Rejection)
    requires net.lookup(c.root, domain, "NC") == Err(rej)
    ensures LookupDomain(net, codec, c, domain).result == Err(CallFailed(rej.code, rej.message))
    ensures RegisterDomain(net, codec, c, domain, cid).result == Err(CallFailed(rej.code, rej.message))
  {
  }

  /** After overriding the root, every naming-canister query goes to the
      new root. */
  lemma OverrideRedirectsNcQueries(net: Network, codec: Codec, c: Client, root: Principal, domain: string, cid: Principal, id: Principal)
    ensures LookupDomain(net, codec, OverrideCnsRoot(c, root), domain).calls[0].target == root
    ensures LookupSubnet(net, codec, OverrideCnsRoot(c, root), domain).calls[0].target == root
    ensures RegisterDomain(net, codec, OverrideCnsRoot(c, root), domain, cid).calls[0].target == root
    ensures DomainForCanister(net, codec, OverrideCnsRoot(c, root), id).calls[0].target == root
  {
  }

  /** A root that knows no naming canister for the domain: both
      registration and lookup fail with "No record for NC lookup for …". */
  lemma MissingNcIsReported(net: Network, codec: Codec, c: Client, domain: string, cid: Principal)
    requires net.lookup(c.root, domain, "NC").Ok? && |net.lookup(c.root, domain, "NC").value.answers| == 0
    ensures RegisterDomain(net, codec, c, domain, cid).result == Err(NotFound("No record for NC lookup for " + domain))
    ensures LookupDomain(net, codec, c, domain).result == Err(NotFound("No record for NC lookup for " + domain))
    ensures var m := "No record for NC";
      LookupDomain(net, codec, c, domain).result.error.notFound[..|m|] == m
  {
  }

  /** A successful registration followed by a lookup: when the naming
      canister answers the `CID` query with the record that was registered,
      the lookup returns the registered canister. */
  lemma RegisterThenLookup(net: Network, codec: Codec, c: Client, domain: string, cid: Principal)
    requires LookupNc(net, codec, c, domain).result.Ok?
    requires RegisterDomain(net, codec, c, domain, cid).result.Ok?
    requires codec.fromText(codec.toText(cid)) == Some(cid)
    requires var nc := LookupNc(net, codec, c, domain).result.value;
      net.lookup(nc, domain, "CID") == Ok(DomainLookup(Registration(codec, domain, cid).records.value, [], []))
    ensures LookupDomain(net, codec, c, domain).result == Ok(cid)
  {
  }
}
