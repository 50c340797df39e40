/**
 * What the cleanup's trace promises: every prefix is looked up, in input
 * order, whatever happened to the earlier ones; at most one delete is issued
 * per prefix, and a delete only ever follows a successful lookup of a prefix
 * that returned a non-empty record id, and deletes that id.
 */
module CleanupProperties {
  import opened GoString
  import opened AliDns
  import opened Dns

  lemma DeleteCallsShape(base: Str, prefix: Str, lookup: DescribeReply)
    ensures Lookups(DeleteCalls(base, prefix, lookup)) == [PrefixLookup(base, prefix)]
    ensures |Deleted(DeleteCalls(base, prefix, lookup))| <= 1
    ensures forall id :: id in Deleted(DeleteCalls(base, prefix, lookup)) ==> FoundId(lookup, id)
  {
  }

  /** Every prefix is looked up once, in input order, whatever the replies were. */
  lemma {:induction false} CleanupLooksUpEveryPrefix(base: Str, prefixes: seq<Str>, lookups: seq<DescribeReply>)
    requires |lookups| == |prefixes|
    ensures |Lookups(CleanupCalls(base, prefixes, lookups))| == |prefixes|
    ensures forall k :: 0 <= k < |prefixes| ==>
      Lookups(CleanupCalls(base, prefixes, lookups))[k] == PrefixLookup(base, prefixes[k])
    decreases |prefixes|
  {
    if prefixes != [] {
      var n := |prefixes| - 1;
      var before := CleanupCalls(base, prefixes[..n], lookups[..n]);
      var last := DeleteCalls(base, prefixes[n], lookups[n]);
      CleanupLooksUpEveryPrefix(base, prefixes[..n], lookups[..n]);
      LookupsAppend(before, last);
      DeleteCallsShape(base, prefixes[n], lookups[n]);
    }
  }

  /** At most one delete per prefix, and each deletes an id some prefix's lookup returned. */
  lemma {:induction false} CleanupDeletesOnlyFoundIds(base: Str, prefixes: seq<Str>, lookups: seq<DescribeReply>)
    requires |lookups| == |prefixes|
    ensures |Deleted(CleanupCalls(base, prefixes, lookups))| <= |prefixes|
    ensures forall id :: id in Deleted(CleanupCalls(base, prefixes, lookups)) ==>
      exists k :: 0 <= k < |prefixes| && FoundId(lookups[k], id)
    decreases |prefixes|
  {
    if prefixes != [] {
      var n := |prefixes| - 1;
      var before := CleanupCalls(base, prefixes[..n], lookups[..n]);
      var last := DeleteCalls(base, prefixes[n], lookups[n]);
      CleanupDeletesOnlyFoundIds(base, prefixes[..n], lookups[..n]);
      DeletedAppend(before, last);
      DeleteCallsShape(base, prefixes[n], lookups[n]);
      forall id | id in Deleted(CleanupCalls(base, prefixes, lookups))
        ensures exists k :: 0 <= k < |prefixes| && FoundId(lookups[k], id)
      {
        if id in Deleted(before) {
          var k :| 0 <= k < n && FoundId(lookups[..n][k], id);
          assert lookups[..n][k] == lookups[k];
        } else {
          assert FoundId(lookups[n], id);
        }
      }
    }
  }

  /**
   * The call at `j` of a cleanup trace is a delete right after the k-th
   * lookup of the trace, where k counts the lookups before `j`; that lookup
   * is of the k-th prefix and its reply found exactly the deleted id.
   */
  predicate DeleteAfterLookup(calls: seq<Call>, base: Str, prefixes: seq<Str>, lookups: seq<DescribeReply>, j: int)
    requires |lookups| == |prefixes| && 0 <= j < |calls| && calls[j].DeleteCall?
  {
    var k := |Lookups(calls[..j])| - 1;
    0 < j && 0 <= k < |prefixes| &&
    calls[j - 1] == DescribeCall(PrefixLookup(base, prefixes[k])) &&
    FoundId(lookups[k], calls[j].recordId)
  }

  /**
   * A delete is never the first call and always comes right after the lookup
   * of its own prefix (the one whose position matches the number of lookups
   * so far), whose reply returned exactly the id it deletes, non-empty.
   */
  lemma {:induction false} CleanupDeleteFollowsItsLookup(base: Str, prefixes: seq<Str>, lookups: seq<DescribeReply>)
    requires |lookups| == |prefixes|
    ensures forall j ::
      0 <= j < |CleanupCalls(base, prefixes, lookups)| && CleanupCalls(base, prefixes, lookups)[j].DeleteCall?
      ==> DeleteAfterLookup(CleanupCalls(base, prefixes, lookups), base, prefixes, lookups, j)
    decreases |prefixes|
  {
    if prefixes != [] {
      var n := |prefixes| - 1;
      var before := CleanupCalls(base, prefixes[..n], lookups[..n]);
      var last := DeleteCalls(base, prefixes[n], lookups[n]);
      var calls := CleanupCalls(base, prefixes, lookups);
      assert calls == before + last;
      CleanupDeleteFollowsItsLookup(base, prefixes[..n], lookups[..n]);
      forall j | 0 <= j < |calls| && calls[j].DeleteCall?
        ensures DeleteAfterLookup(calls, base, prefixes, lookups, j)
      {
        if j < |before| {
          assert calls[j] == before[j];
          assert DeleteAfterLookup(before, base, prefixes[..n], lookups[..n], j);
          assert calls[..j] == before[..j];
          var k := |Lookups(before[..j])| - 1;
          assert prefixes[..n][k] == prefixes[k] && lookups[..n][k] == lookups[k];
          assert calls[j - 1] == before[j - 1];
        } else {
          assert calls[j] == last[j - |before|];
          assert j == |before| + 1;
          assert calls[j - 1] == last[0];
          assert calls[..j] == before + [last[0]];
          CleanupLooksUpEveryPrefix(base, prefixes[..n], lookups[..n]);
          LookupsAppend(before, [last[0]]);
          assert Lookups([last[0]]) == [PrefixLookup(base, prefixes[n])] by {
            assert [last[0]][1..] == [];
          }
          assert FoundId(lookups[n], calls[j].recordId);
        }
      }
    }
  }
}
