/** The caching client of the JavaScript library (`cns-client.ts`): it
    resolves a domain's naming canister through the root (`NC` records) and
    its canister id through that naming canister (`CID` records), and keeps
    every successful answer in a per-domain cache.

    The remote `lookupDomain` of a canister is an oracle returning the
    already-mapped response or a thrown error; each operation returns the
    client after the call and the queries it sent. */
module JsClient {
  import opened Wrappers
  import opened Principals
  import opened JsUtils
  import opened JsMappings

  /** What an operation throws. */
  datatype JsError =
    | Error(message: string)
    | MalformedPrincipal(text: string)
    | Remote(reason: string)

  /** `cnsRoot` as the constructor receives it. */
  datatype RootArg = RootText(text: string) | RootId(id: Principal)

  const DEFAULT_CNS_ROOT: string := "rdmx6-jaaaa-aaaaa-aaadq-cai"

  /** The client's state: its root and the two caches. */
  datatype CnsClient = CnsClient(root: Principal, namingCanisters: map<string, Principal>, canisterIds: map<string, Principal>)

  /** One query: the canister asked and the arguments. */
  datatype Query = Query(target: Principal, domain: string, recordType: string)

  /** The remote lookups. */
  type Network = (Principal, string, string) -> Result<LookupDomainResponse, JsError>

  /** The outcome of an operation, the client after it, and the queries it
      sent. */
  datatype Step<X> = Step(result: Result<X, JsError>, client: CnsClient, queries: seq<Query>)

  /** JavaScript truthiness of the argument: nil and the empty string are
      false. */
  predicate Truthy(arg: Js<RootArg>) {
    arg.Present? && !(arg.value.RootText? && arg.value.text == "")
  }

  /** The constructor: `Principal.from(cnsRoot)` when it is truthy, the
      default root otherwise; the caches start empty. The default id must
      parse, since the constructor would otherwise throw. */
  function New(codec: Codec, cnsRoot: Js<RootArg>): (r: Result<CnsClient, JsError>)
    requires codec.fromText(DEFAULT_CNS_ROOT).Some?
    ensures r.Ok? ==> r.value.namingCanisters == map[] && r.value.canisterIds == map[]
    ensures !Truthy(cnsRoot) ==> r.Ok? && Some(r.value.root) == codec.fromText(DEFAULT_CNS_ROOT)
    ensures Truthy(cnsRoot) && cnsRoot.value.RootId? ==> r.Ok? && r.value.root == cnsRoot.value.id
    ensures Truthy(cnsRoot) && cnsRoot.value.RootText? ==>
      (r.Ok? <==> codec.fromText(cnsRoot.value.text).Some?)
      && (r.Ok? ==> Some(r.value.root) == codec.fromText(cnsRoot.value.text))
  {
    var root :=
      if !Truthy(cnsRoot) then Ok(codec.fromText(DEFAULT_CNS_ROOT).value)
      else match cnsRoot.value
        case RootId(p) => Ok(p)
        case RootText(t) =>
          match codec.fromText(t)
          case Some(p) => Ok(p)
          case None => Err(MalformedPrincipal(t));
    match root
    case Err(e) => Err(e)
    case Ok(p) => Ok(CnsClient(p, map[], map[]))
  }

  // ---------------------------------------------------------------------------
  // Answers.

  /** The position of the first answer of the given type, if any. */
  function FindAnswer(answers: seq<DomainRecord>, recordType: string): (r: Option<nat>)
    ensures r.Some? ==> r.value < |answers| && answers[r.value].recordType == recordType
    ensures r.Some? ==> forall j :: 0 <= j < r.value ==> answers[j].recordType != recordType
    ensures r.None? ==> forall j :: 0 <= j < |answers| ==> answers[j].recordType != recordType
  {
    if |answers| == 0 then None
    else if answers[0].recordType == recordType then Some(0)
    else match FindAnswer(answers[1..], recordType)
      case None => None
      case Some(i) => Some(i + 1)
  }

  /** `getAnswer`: the first answer of the requested type, wherever it is;
      without one, the error names the type and the domain. */
  function GetAnswer(domain: string, res: LookupDomainResponse, recordType: string): (r: Result<DomainRecord, JsError>)
    ensures r.Ok? ==> exists i :: 0 <= i < |res.answers| && res.answers[i] == r.value
                                && r.value.recordType == recordType
                                && forall j :: 0 <= j < i ==> res.answers[j].recordType != recordType
    ensures r.Err? <==> forall j :: 0 <= j < |res.answers| ==> res.answers[j].recordType != recordType
    ensures r.Err? ==> r.error == Error("No " + recordType + " record found for domain " + domain)
  {
    match FindAnswer(res.answers, recordType)
    case Some(i) => Ok(res.answers[i])
    case None => Err(Error("No " + recordType + " record found for domain " + domain))
  }

  /** `getPrincipalAnswer`: the principal in the data of that answer. */
  function GetPrincipalAnswer(codec: Codec, domain: string, res: LookupDomainResponse, recordType: string)
    : (r: Result<Principal, JsError>)
    ensures GetAnswer(domain, res, recordType).Err? ==> r == Err(GetAnswer(domain, res, recordType).error)
    ensures r.Ok? ==>
      && GetAnswer(domain, res, recordType).Ok?
      && codec.fromText(GetAnswer(domain, res, recordType).value.data) == Some(r.value)
  {
    match GetAnswer(domain, res, recordType)
    case Err(e) => Err(e)
    case Ok(answer) =>
      match codec.fromText(answer.data)
      case Some(p) => Ok(p)
      case None => Err(MalformedPrincipal(answer.data))
  }

  /** The first answer of a type is found past answers of other types. */
  lemma AnswerAtAnyPosition(domain: string, others: seq<DomainRecord>, answer: DomainRecord, rest: seq<DomainRecord>)
    requires forall j :: 0 <= j < |others| ==> others[j].recordType != answer.recordType
    ensures GetAnswer(domain, LookupDomainResponse(others + [answer] + rest, [], []), answer.recordType) == Ok(answer)
  {
    var answers := others + [answer] + rest;
    assert answers[|others|] == answer;
    assert forall j :: 0 <= j < |others| ==> answers[j] == others[j];
  }

  // ---------------------------------------------------------------------------
  // Lookups.

  /** `lookupNamingCanister`: the cached naming canister of the domain with
      no query; otherwise the root is asked for the domain's `NC` answer,
      which is cached only on success. */
  function LookupNamingCanister(net: Network, codec: Codec, c: CnsClient, domain: string): (r: Step<Principal>)
    ensures domain in c.namingCanisters ==> r == Step(Ok(c.namingCanisters[domain]), c, [])
    ensures domain !in c.namingCanisters ==> r.queries == [Query(c.root, domain, "NC")]
    ensures r.result.Err? ==> r.client == c
    ensures r.result.Ok? ==> r.client == c.(namingCanisters := c.namingCanisters[domain := r.result.value])
    ensures domain !in c.namingCanisters && r.result.Ok? ==>
      net(c.root, domain, "NC").Ok? && r.result == GetPrincipalAnswer(codec, domain, net(c.root, domain, "NC").value, "NC")
  {
    if domain in c.namingCanisters then Step(Ok(c.namingCanisters[domain]), c, [])
    else
      var queries := [Query(c.root, domain, "NC")];
      match net(c.root, domain, "NC")
      case Err(e) => Step(Err(e), c, queries)
      case Ok(res) =>
        match GetPrincipalAnswer(codec, domain, res, "NC")
        case Err(e) => Step(Err(e), c, queries)
        case Ok(nc) => Step(Ok(nc), c.(namingCanisters := c.namingCanisters[domain := nc]), queries)
  }

  /** `lookupCanisterId`: the cached canister id with no query; otherwise
      the naming canister (cached or looked up), then its `CID` answer, which
      is cached only on success. */
  function LookupCanisterId(net: Network, codec: Codec, c: CnsClient, domain: string): (r: Step<Principal>)
    ensures domain in c.canisterIds ==> r == Step(Ok(c.canisterIds[domain]), c, [])
    ensures r.client.root == c.root
    ensures r.client.canisterIds == if r.result.Ok? then c.canisterIds[domain := r.result.value] else c.canisterIds
    ensures r.result.Ok? && domain !in c.canisterIds ==>
      var nc := LookupNamingCanister(net, codec, c, domain);
      && nc.result.Ok?
      && r.queries == nc.queries + [Query(nc.result.value, domain, "CID")]
  {
    if domain in c.canisterIds then Step(Ok(c.canisterIds[domain]), c, [])
    else
      var nc := LookupNamingCanister(net, codec, c, domain);
      match nc.result
      case Err(e) => Step(Err(e), nc.client, nc.queries)
      case Ok(namingCanister) =>
        var queries := nc.queries + [Query(namingCanister, domain, "CID")];
        match net(namingCanister, domain, "CID")
        case Err(e) => Step(Err(e), nc.client, queries)
        case Ok(res) =>
          match GetPrincipalAnswer(codec, domain, res, "CID")
          case Err(e) => Step(Err(e), nc.client, queries)
          case Ok(id) => Step(Ok(id), nc.client.(canisterIds := nc.client.canisterIds[domain := id]), queries)
  }

  // ---------------------------------------------------------------------------
  // Properties across calls.

  /** A second lookup of the same domain answers the same from the cache,
      with no query and no change to the client. */
  lemma LookupsAreCached(net: Network, net': Network, codec: Codec, c: CnsClient, domain: string)
    ensures var first := LookupNamingCanister(net, codec, c, domain);
      first.result.Ok? ==> LookupNamingCanister(net', codec, first.client, domain) == Step(first.result, first.client, [])
    ensures var first := LookupCanisterId(net, codec, c, domain);
      first.result.Ok? ==> LookupCanisterId(net', codec, first.client, domain) == Step(first.result, first.client, [])
  {
  }

  /** Without a root argument, or with an empty one, the client asks the
      default root. */
  lemma DefaultRootIsAsked(net: Network, codec: Codec, cnsRoot: Js<RootArg>, domain: string)
    requires codec.fromText(DEFAULT_CNS_ROOT).Some?
    requires cnsRoot == Undefined || cnsRoot == Null || cnsRoot == Present(RootText(""))
    ensures New(codec, cnsRoot).Ok?
    ensures LookupNamingCanister(net, codec, New(codec, cnsRoot).value, domain).queries
      == [Query(codec.fromText(DEFAULT_CNS_ROOT).value, domain, "NC")]
  {
  }

  /** The end-to-end lookup: with the root answering the domain's `NC`
      record with the operator and the operator answering its `CID` record
      with the canister, a fresh client resolves the operator, then the
      canister. */
  lemma LookupEndToEnd(net: Network, codec: Codec, root: Principal, domain: string,
                       operator: Principal, canister: Principal)
    requires codec.fromText(codec.toText(operator)) == Some(operator)
    requires codec.fromText(codec.toText(canister)) == Some(canister)
    requires net(root, domain, "NC") == Ok(LookupDomainResponse([DomainRecord(0, "NC", codec.toText(operator), domain)], [], []))
    requires net(operator, domain, "CID") == Ok(LookupDomainResponse([DomainRecord(0, "CID", codec.toText(canister), domain)], [], []))
    ensures var c := CnsClient(root, map[], map[]);
      var first := LookupNamingCanister(net, codec, c, domain);
      && first.result == Ok(operator)
      && LookupCanisterId(net, codec, first.client, domain).result == Ok(canister)
      && LookupCanisterId(net, codec, first.client, domain).queries == [Query(operator, domain, "CID")]
  {
  }
}
