/**
 * The DNS client of the dns package: configuration defaulting, the
 * idempotent add and delete of a record under the base domain, listing, and
 * best-effort bulk cleanup. Every SDK call's reply is an input of the
 * operation that makes the call; the calls actually issued come back as a
 * trace, so what the client sends to the service can be stated exactly.
 */
module Dns {
  import opened Wrappers
  import opened GoString
  import opened AliDns

  const DefaultEndpoint: Str := FromAscii("alidns.cn-hangzhou.aliyuncs.com")
  const DefaultBaseDomain: Str := FromAscii("alaudatech.net")
  const TypeA: Str := FromAscii("A")
  const TypeAAAA: Str := FromAscii("AAAA")

  /** The page size the listing asks for. */
  const ListPageSize: int := 100

  /**
   * What `net.ParseIP` and `To4` say of an address: not an IP at all, one
   * with a four-byte form (IPv4, including IPv4-mapped IPv6), or IPv6 only.
   */
  datatype ParsedIp = Invalid | IPv4 | IPv6

  /** The errors the client returns, each wrapping its cause. */
  datatype Error =
    | ClientCreateFailed(cause: ApiError)
    | InvalidIpAddress(ip: Str)
    | CheckFailed(cause: ApiError)
    | AddFailed(cause: ApiError)
    | FindFailed(cause: ApiError)
    | DeleteFailed(cause: ApiError)
    | ListFailed(cause: ApiError)

  /** A DNS record as the client hands it to its callers. */
  datatype DomainRecord = DomainRecord(id: Str, rr: Str, recordType: Str, value: Str, status: Str)

  /** The configuration a client is created from; creating a client fills in its defaults in place. */
  class Config {
    var accessKeyId: Str
    var accessKeySecret: Str
    var baseDomain: Str
    var endpoint: Str

    constructor (accessKeyId: Str, accessKeySecret: Str, baseDomain: Str, endpoint: Str)
      ensures this.accessKeyId == accessKeyId && this.accessKeySecret == accessKeySecret
      ensures this.baseDomain == baseDomain && this.endpoint == endpoint
    {
      this.accessKeyId := accessKeyId;
      this.accessKeySecret := accessKeySecret;
      this.baseDomain := baseDomain;
      this.endpoint := endpoint;
    }
  }

  /** The lookup of records named `prefix` of one type, as the existence check sends it. */
  function TypedLookup(base: Str, prefix: Str, recordType: Str): DescribeRequest
  {
    DescribeRequest(base, Some(prefix), Some(recordType), None)
  }

  /** The lookup of records named `prefix` of any type, as the record-id search sends it. */
  function PrefixLookup(base: Str, prefix: Str): DescribeRequest
  {
    DescribeRequest(base, Some(prefix), None, None)
  }

  /** The lookup of every record under the base domain, one page of `ListPageSize`. */
  function ListLookup(base: Str): DescribeRequest
  {
    DescribeRequest(base, None, None, Some(ListPageSize))
  }

  /** A returned record has exactly the name `prefix` and the value `ip`. */
  predicate Matches(record: ApiRecord, prefix: Str, ip: Str)
  {
    StringValue(record.rr) == prefix && StringValue(record.value) == ip
  }

  predicate HasMatch(records: seq<ApiRecord>, prefix: Str, ip: Str)
  {
    exists k :: 0 <= k < |records| && Matches(records[k], prefix, ip)
  }

  /** `d` is `r` with every field read through `StringValue`. */
  predicate CopiedFrom(d: DomainRecord, r: ApiRecord)
  {
    d.id == StringValue(r.recordId) && d.rr == StringValue(r.rr) &&
    d.recordType == StringValue(r.recordType) && d.value == StringValue(r.value) &&
    d.status == StringValue(r.status)
  }

  /**
   * `findRecordID` once its lookup has been answered: the id of the first
   * returned record (through `StringValue`), or "" when none was returned.
   */
  function FindRecordId(reply: DescribeReply): (r: Result<Str, ApiError>)
    ensures r.Err? <==> reply.DescribeFailed?
    ensures reply.DescribeFailed? ==> r.error == reply.error
    ensures reply.Described? && RecordsOf(reply.records) == [] ==> r == Ok([])
    ensures reply.Described? && RecordsOf(reply.records) != [] ==>
      r == Ok(StringValue(RecordsOf(reply.records)[0].recordId))
  {
    match reply
    case DescribeFailed(e) => Err(e)
    case Described(records) =>
      if records.None? then Ok([])
      else if |records.value| > 0 then Ok(StringValue(records.value[0].recordId))
      else Ok([])
  }

  /** `id` is a record id that the lookup answered with: the prefix names an existing record. */
  predicate FoundId(reply: DescribeReply, id: Str)
  {
    FindRecordId(reply) == Ok(id) && id != []
  }

  /** The calls one delete of `prefix` issues: the lookup, then the delete of the found id if any. */
  function DeleteCalls(base: Str, prefix: Str, lookup: DescribeReply): seq<Call>
  {
    [DescribeCall(PrefixLookup(base, prefix))] +
    if lookup.Described? && FoundId(lookup, FindRecordId(lookup).value)
    then [DeleteCall(FindRecordId(lookup).value)] else []
  }

  /** The calls a cleanup of `prefixes` issues: one delete sequence per prefix, in order. */
  function CleanupCalls(base: Str, prefixes: seq<Str>, lookups: seq<DescribeReply>): seq<Call>
    requires |lookups| == |prefixes|
    decreases |prefixes|
  {
    if prefixes == [] then []
    else
      var n := |prefixes| - 1;
      CleanupCalls(base, prefixes[..n], lookups[..n]) + DeleteCalls(base, prefixes[n], lookups[n])
  }

  /**
   * Go's `NewClient(cfg)`: default an empty endpoint and an empty base domain
   * in `cfg` itself, then create the SDK client; `sdkError` is what the SDK's
   * constructor returns.
   */
  method NewClient(cfg: Config, sdkError: Option<ApiError>) returns (client: Result<Client, Error>)
    modifies cfg
    ensures cfg.endpoint == if old(cfg.endpoint) == [] then DefaultEndpoint else old(cfg.endpoint)
    ensures cfg.baseDomain == if old(cfg.baseDomain) == [] then DefaultBaseDomain else old(cfg.baseDomain)
    ensures cfg.accessKeyId == old(cfg.accessKeyId) && cfg.accessKeySecret == old(cfg.accessKeySecret)
    ensures sdkError.Some? ==> client == Err(ClientCreateFailed(sdkError.value))
    ensures sdkError.None? ==> client.Ok? && fresh(client.value)
    ensures sdkError.None? ==> client.value.baseDomain == cfg.baseDomain
    ensures sdkError.None? ==>
      client.value.sdk == SdkConfig(cfg.accessKeyId, cfg.accessKeySecret, cfg.endpoint)
  {
    if cfg.endpoint == [] {
      cfg.endpoint := DefaultEndpoint;
    }
    if cfg.baseDomain == [] {
      cfg.baseDomain := DefaultBaseDomain;
    }
    var config := SdkConfig(cfg.accessKeyId, cfg.accessKeySecret, cfg.endpoint);
    if sdkError.Some? {
      return Err(ClientCreateFailed(sdkError.value));
    }
    var c := new Client(config, cfg.baseDomain);
    client := Ok(c);
  }

  /** A client bound to one base domain; nothing in it changes after creation. */
  class Client {
    const sdk: SdkConfig
    const baseDomain: Str

    constructor (sdk: SdkConfig, baseDomain: Str)
      ensures this.sdk == sdk && this.baseDomain == baseDomain
    {
      this.sdk := sdk;
      this.baseDomain := baseDomain;
    }

    /**
     * `checkRecordExists` once its lookup has been answered: true iff some
     * returned record has exactly the name `prefix` and the value `ipAddr`;
     * a failed lookup passes its error on.
     */
    method CheckRecordExists(prefix: Str, ipAddr: Str, reply: DescribeReply)
      returns (found: bool, err: Option<ApiError>)
      ensures reply.DescribeFailed? ==> !found && err == Some(reply.error)
      ensures reply.Described? ==> err == None
      ensures reply.Described? ==> (found <==> HasMatch(RecordsOf(reply.records), prefix, ipAddr))
    {
      if reply.DescribeFailed? {
        return false, Some(reply.error);
      }
      if reply.records.None? {
        return false, None;
      }
      var records := reply.records.value;
      var i := 0;
      while i < |records|
        invariant 0 <= i <= |records|
        invariant forall j :: 0 <= j < i ==> !Matches(records[j], prefix, ipAddr)
      {
        if StringValue(records[i].rr) == prefix && StringValue(records[i].value) == ipAddr {
          return true, None;
        }
        i := i + 1;
      }
      return false, None;
    }

    /**
     * Go's `AddDomainRecord(prefix, ipAddr)`. `parsed` is what parsing the
     * address gives, `lookup` the reply to the existence check and `addReply`
     * the error the create call returns, if it is made.
     */
    method AddDomainRecord(prefix: Str, ipAddr: Str, parsed: ParsedIp,
                           lookup: DescribeReply, addReply: Option<ApiError>)
      returns (err: Option<Error>, calls: seq<Call>)
      ensures parsed.Invalid? ==> err == Some(InvalidIpAddress(ipAddr)) && calls == []
      ensures parsed.IPv4? ==> |calls| > 0 && calls[0] == DescribeCall(TypedLookup(baseDomain, prefix, TypeA))
      ensures parsed.IPv6? ==> |calls| > 0 && calls[0] == DescribeCall(TypedLookup(baseDomain, prefix, TypeAAAA))
      ensures !parsed.Invalid? && lookup.DescribeFailed? ==>
        err == Some(CheckFailed(lookup.error)) && |calls| == 1
      ensures !parsed.Invalid? && lookup.Described? && HasMatch(RecordsOf(lookup.records), prefix, ipAddr) ==>
        err == None && |calls| == 1
      ensures !parsed.Invalid? && lookup.Described? && !HasMatch(RecordsOf(lookup.records), prefix, ipAddr) ==>
        |calls| == 2 &&
        calls[1] == AddCall(baseDomain, prefix, if parsed.IPv4? then TypeA else TypeAAAA, ipAddr) &&
        err == if addReply.None? then None else Some(AddFailed(addReply.value))
      ensures |Added(calls)| <= 1 && Deleted(calls) == []
      ensures |Added(calls)| == 1 <==>
        !parsed.Invalid? && lookup.Described? && !HasMatch(RecordsOf(lookup.records), prefix, ipAddr)
    {
      var recordType := TypeA;
      if parsed.Invalid? {
        return Some(InvalidIpAddress(ipAddr)), [];
      }
      if parsed.IPv6? {
        recordType := TypeAAAA;
      }
      calls := [DescribeCall(TypedLookup(baseDomain, prefix, recordType))];
      var found, lookupErr := CheckRecordExists(prefix, ipAddr, lookup);
      if lookupErr.Some? {
        return Some(CheckFailed(lookupErr.value)), calls;
      }
      if found {
        return None, calls;
      }
      calls := calls + [AddCall(baseDomain, prefix, recordType, ipAddr)];
      if addReply.Some? {
        return Some(AddFailed(addReply.value)), calls;
      }
      return None, calls;
    }

    /**
     * Go's `DeleteDomainRecord(prefix, ipAddr)`: look the prefix up and delete
     * the first record returned, if any. `ipAddr` plays no part. `deleteReply`
     * is the error the delete call returns, if it is made.
     */
    method DeleteDomainRecord(prefix: Str, ipAddr: Str, lookup: DescribeReply, deleteReply: Option<ApiError>)
      returns (err: Option<Error>, calls: seq<Call>)
      ensures calls == DeleteCalls(baseDomain, prefix, lookup)
      ensures calls[0] == DescribeCall(PrefixLookup(baseDomain, prefix)) && Added(calls) == []
      ensures lookup.DescribeFailed? ==> err == Some(FindFailed(lookup.error)) && |calls| == 1
      ensures FindRecordId(lookup) == Ok([]) ==> err == None && |calls| == 1
      ensures lookup.Described? && FindRecordId(lookup).value != [] ==>
        calls == [calls[0], DeleteCall(FindRecordId(lookup).value)] &&
        err == if deleteReply.None? then None else Some(DeleteFailed(deleteReply.value))
    {
      calls := [DescribeCall(PrefixLookup(baseDomain, prefix))];
      var found := FindRecordId(lookup);
      if found.Err? {
        return Some(FindFailed(found.error)), calls;
      }
      var recordId := found.value;
      if recordId == [] {
        return None, calls;
      }
      calls := calls + [DeleteCall(recordId)];
      if deleteReply.Some? {
        return Some(DeleteFailed(deleteReply.value)), calls;
      }
      return None, calls;
    }

    /**
     * Go's `ListAllDomainRecords()`: one page of the base domain's records,
     * copied field by field in the order returned.
     */
    method ListAllDomainRecords(reply: DescribeReply)
      returns (records: Result<seq<DomainRecord>, Error>, calls: seq<Call>)
      ensures calls == [DescribeCall(ListLookup(baseDomain))]
      ensures reply.DescribeFailed? ==> records == Err(ListFailed(reply.error))
      ensures reply.Described? ==> records.Ok? && |records.value| == |RecordsOf(reply.records)|
      ensures reply.Described? ==> forall k :: 0 <= k < |records.value| ==>
        CopiedFrom(records.value[k], RecordsOf(reply.records)[k])
    {
      calls := [DescribeCall(ListLookup(baseDomain))];
      if reply.DescribeFailed? {
        return Err(ListFailed(reply.error)), calls;
      }
      if reply.records.None? {
        return Ok([]), calls;
      }
      var response := reply.records.value;
      var list: seq<DomainRecord> := [];
      for i := 0 to |response|
        invariant |list| == i
        invariant forall k :: 0 <= k < i ==> CopiedFrom(list[k], response[k])
      {
        var r := response[i];
        list := list + [DomainRecord(StringValue(r.recordId), StringValue(r.rr),
                                     StringValue(r.recordType), StringValue(r.value),
                                     StringValue(r.status))];
      }
      return Ok(list), calls;
    }

    /**
     * Go's `CleanupDomainRecords(prefixes)`: for each prefix in turn, look it
     * up and delete the first record found; a failed lookup or delete only
     * moves on to the next prefix, and the whole always succeeds.
     * `lookups[k]` and `deleteReplies[k]` answer the calls made for `prefixes[k]`.
     */
    method CleanupDomainRecords(prefixes: seq<Str>, lookups: seq<DescribeReply>,
                                deleteReplies: seq<Option<ApiError>>)
      returns (err: Option<Error>, calls: seq<Call>)
      requires |lookups| == |prefixes| && |deleteReplies| == |prefixes|
      ensures err == None
      ensures calls == CleanupCalls(baseDomain, prefixes, lookups)
    {
      calls := [];
      var k := 0;
      while k < |prefixes|
        invariant 0 <= k <= |prefixes|
        invariant calls == CleanupCalls(baseDomain, prefixes[..k], lookups[..k])
      {
        assert prefixes[..k + 1][..k] == prefixes[..k];
        assert lookups[..k + 1][..k] == lookups[..k];
        var prefix := prefixes[k];
        calls := calls + [DescribeCall(PrefixLookup(baseDomain, prefix))];
        var found := FindRecordId(lookups[k]);
        if found.Err? {
          k := k + 1;
          continue;
        }
        var recordId := found.value;
        if recordId == [] {
          k := k + 1;
          continue;
        }
        calls := calls + [DeleteCall(recordId)];
        if deleteReplies[k].Some? {
          k := k + 1;
          continue;
        }
        k := k + 1;
      }
      assert prefixes[..k] == prefixes && lookups[..k] == lookups;
      return None, calls;
    }
  }
}
