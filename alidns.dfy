/**
 * The surface of the Alibaba Cloud DNS SDK that the client uses, as data:
 * the requests it sends, the replies it gets back and the trace of the calls
 * it issues. The service itself is not modelled; its replies are inputs.
 */
module AliDns {
  import opened Wrappers
  import opened GoString

  /** An error returned by the SDK (transport or service); its content is opaque. */
  datatype ApiError = ApiError(message: Str)

  /** What the SDK client is created from: the credentials and the endpoint. */
  datatype SdkConfig = SdkConfig(accessKeyId: Str, accessKeySecret: Str, endpoint: Str)

  /** One entry of a DescribeDomainRecords reply; every field is a `*string` that may be nil. */
  datatype ApiRecord = ApiRecord(
    recordId: Option<Str>,
    rr: Option<Str>,
    recordType: Option<Str>,
    value: Option<Str>,
    status: Option<Str>)

  /** A DescribeDomainRecords request; `None` stands for a parameter left unset. */
  datatype DescribeRequest = DescribeRequest(
    domainName: Str,
    rrKeyWord: Option<Str>,
    recordType: Option<Str>,
    pageSize: Option<int>)

  /**
   * The reply to DescribeDomainRecords: an error, or a body whose record list
   * is `None` when the body's DomainRecords or its Record list is nil.
   */
  datatype DescribeReply =
    | DescribeFailed(error: ApiError)
    | Described(records: Option<seq<ApiRecord>>)

  /** One call issued to the service. */
  datatype Call =
    | DescribeCall(request: DescribeRequest)
    | AddCall(domainName: Str, rr: Str, recordType: Str, value: Str)
    | DeleteCall(recordId: Str)

  /** The SDK's `tea.StringValue`: the pointed-to string, or "" for nil. */
  function StringValue(p: Option<Str>): Str
  {
    if p.Some? then p.value else []
  }

  /** The records a reply lists; ranging over a nil list visits nothing. */
  function RecordsOf(records: Option<seq<ApiRecord>>): seq<ApiRecord>
  {
    if records.Some? then records.value else []
  }

  /** The lookups in a trace, in order. */
  function Lookups(calls: seq<Call>): (r: seq<DescribeRequest>)
    ensures |r| <= |calls|
  {
    if calls == [] then []
    else (if calls[0].DescribeCall? then [calls[0].request] else []) + Lookups(calls[1..])
  }

  /** The record creations in a trace, in order. */
  function Added(calls: seq<Call>): (r: seq<Call>)
    ensures |r| <= |calls|
    ensures forall k :: 0 <= k < |r| ==> r[k].AddCall?
  {
    if calls == [] then []
    else (if calls[0].AddCall? then [calls[0]] else []) + Added(calls[1..])
  }

  /** The ids of the record deletions in a trace, in order. */
  function Deleted(calls: seq<Call>): (r: seq<Str>)
    ensures |r| <= |calls|
  {
    if calls == [] then []
    else (if calls[0].DeleteCall? then [calls[0].recordId] else []) + Deleted(calls[1..])
  }

  /** Each projection of a trace distributes over concatenation of traces. */
  lemma {:induction false} LookupsAppend(a: seq<Call>, b: seq<Call>)
    ensures Lookups(a + b) == Lookups(a) + Lookups(b)
  {
    if a == [] {
      assert a + b == b;
    } else {
      assert (a + b)[0] == a[0] && (a + b)[1..] == a[1..] + b;
      LookupsAppend(a[1..], b);
    }
  }

  lemma {:induction false} AddedAppend(a: seq<Call>, b: seq<Call>)
    ensures Added(a + b) == Added(a) + Added(b)
  {
    if a == [] {
      assert a + b == b;
    } else {
      assert (a + b)[0] == a[0] && (a + b)[1..] == a[1..] + b;
      AddedAppend(a[1..], b);
    }
  }

  lemma {:induction false} DeletedAppend(a: seq<Call>, b: seq<Call>)
    ensures Deleted(a + b) == Deleted(a) + Deleted(b)
  {
    if a == [] {
      assert a + b == b;
    } else {
      assert (a + b)[0] == a[0] && (a + b)[1..] == a[1..] + b;
      DeletedAppend(a[1..], b);
    }
  }
}
