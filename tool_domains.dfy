/** `GenerateToolDomains`: one domain prefix per DevOps tool, derived from an IP address. */
module ToolDomains {
  import opened GoString
  import opened Replace

  /** The tools, in the order the names are generated. */
  const Tools: seq<Str> := [
    FromAscii("jenkins"), FromAscii("gitlab"), FromAscii("sonar"),
    FromAscii("harbor"), FromAscii("katanomi"), FromAscii("nexus")
  ]

  /**
   * The IP address with every ':' and then every '.' replaced by '-', by the
   * `replaceAll` the code calls (unmatched bytes re-encoded by `string(s[i])`).
   */
  function SanitizedIpAsWritten(ip: Str): Str
  {
    ReplacedAsWritten(ReplacedAsWritten(ip, [Colon], [Dash]), [Dot], [Dash])
  }

  /** The same two replacements with unmatched bytes copied unchanged. */
  function SanitizedIp(ip: Str): Str
  {
    Replaced(Replaced(ip, [Colon], [Dash]), [Dot], [Dash])
  }

  /**
   * With unmatched bytes copied, the sanitized address has the length of the
   * address, a '-' wherever the address has ':' or '.', the address's byte
   * everywhere else, and so neither ':' nor '.' anywhere.
   */
  lemma SanitizedIpShape(ip: Str)
    ensures |SanitizedIp(ip)| == |ip|
    ensures forall k :: 0 <= k < |ip| ==>
      SanitizedIp(ip)[k] == if ip[k] == Colon || ip[k] == Dot then Dash else ip[k]
    ensures forall k :: 0 <= k < |ip| ==> SanitizedIp(ip)[k] != Colon && SanitizedIp(ip)[k] != Dot
  {
    ReplacedSingleByte(ip, Colon, Dash);
    ReplacedSingleByte(Replaced(ip, [Colon], [Dash]), Dot, Dash);
  }

  /** Whatever its bytes, the address as the code sanitizes it holds no ':' and no '.'. */
  lemma SanitizedIpAsWrittenHasNoSeparators(ip: Str)
    ensures forall x :: x in SanitizedIpAsWritten(ip) ==> x != Colon && x != Dot
  {
    var once := ReplacedAsWritten(ip, [Colon], [Dash]);
    AsWrittenSingleByte(ip, Colon, Dash);
    AsWrittenSingleByte(once, Dot, Dash);
  }

  /** On an ASCII address the code as written sanitizes exactly as the byte copy does. */
  lemma SanitizedIpAgreesOnAscii(ip: Str)
    requires AllAscii(ip)
    ensures SanitizedIpAsWritten(ip) == SanitizedIp(ip)
  {
    AsWrittenAgreesOnAscii(ip, [Colon], [Dash]);
    ReplacedSingleByte(ip, Colon, Dash);
    AsWrittenAgreesOnAscii(Replaced(ip, [Colon], [Dash]), [Dot], [Dash]);
  }

  /** Go's `GenerateToolDomains(ipAddr)`: "<sanitized ip>-<tool>" for each tool, in order. */
  method GenerateToolDomains(ipAddr: Str) returns (domains: seq<Str>)
    ensures |domains| == |Tools| == 6
    ensures forall k :: 0 <= k < |Tools| ==> domains[k] == SanitizedIpAsWritten(ipAddr) + [Dash] + Tools[k]
  {
    var name := ipAddr;
    name := ReplaceAllAsWritten(name, [Colon], [Dash]);
    name := ReplaceAllAsWritten(name, [Dot], [Dash]);
    domains := [];
    for k := 0 to |Tools|
      invariant |domains| == k
      invariant forall j :: 0 <= j < k ==> domains[j] == name + [Dash] + Tools[j]
    {
      domains := domains + [name + [Dash] + Tools[k]];
    }
  }

  /**
   * Every generated name is the sanitized address, which holds no ':' or '.',
   * a '-', and the tool name; for an ASCII address the sanitized part has the
   * address's length and is the address with ':' and '.' turned into '-'.
   */
  lemma GeneratedNameShape(ipAddr: Str, name: Str, k: int)
    requires 0 <= k < |Tools|
    requires name == SanitizedIpAsWritten(ipAddr) + [Dash] + Tools[k]
    ensures var n := |SanitizedIpAsWritten(ipAddr)|;
      name[..n] == SanitizedIpAsWritten(ipAddr) && name[n] == Dash && name[n + 1..] == Tools[k]
    ensures forall j :: 0 <= j < |SanitizedIpAsWritten(ipAddr)| ==> name[j] != Colon && name[j] != Dot
    ensures AllAscii(ipAddr) ==> |SanitizedIpAsWritten(ipAddr)| == |ipAddr|
    ensures AllAscii(ipAddr) ==> forall j :: 0 <= j < |ipAddr| ==>
      name[j] == if ipAddr[j] == Colon || ipAddr[j] == Dot then Dash else ipAddr[j]
  {
    var s := SanitizedIpAsWritten(ipAddr);
    SanitizedIpAsWrittenHasNoSeparators(ipAddr);
    forall j | 0 <= j < |s| ensures name[j] != Colon && name[j] != Dot {
      assert name[j] == s[j] && s[j] in s;
    }
    if AllAscii(ipAddr) {
      SanitizedIpAgreesOnAscii(ipAddr);
      SanitizedIpShape(ipAddr);
    }
  }
}
