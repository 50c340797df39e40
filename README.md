# dnscli DNS client, modelled in Dafny

This project models the client core of `dnscli`, a command-line tool that manages
A/AAAA records under one base domain on Alibaba Cloud DNS. The core is the
`dns` package (`pkg/dns/client.go`). It covers:

- the hand-written `replaceAll` helper and `GenerateToolDomains`, which builds
  the six tool domain prefixes from an IP address;
- `NewClient`, which fills in the default endpoint and base domain;
- the decision logic of the record operations: the existence check, the
  record-id search, the idempotent add and delete, listing, and the
  continue-on-error cleanup.

The SDK handle is modelled as data (`AliDns`). Each SDK call's reply is an input
of the operation that makes the call, so the model assumes nothing about what the
service answers. Each operation returns the trace of calls it issued
(`seq<Call>`), and the contracts say exactly which lookups, creates and deletes
go out. The three lookup requests the code builds appear in the traces:
`TypedLookup` for the existence check (`pkg/dns/client.go:124-128`),
`PrefixLookup` for the record-id search (`pkg/dns/client.go:150-153`) and
`ListLookup` for the listing (`pkg/dns/client.go:173-176`). Go strings are modelled as byte sequences (`GoString.Str`), because
`len`, indexing and slicing in `replaceAll` work on bytes.

Files, one module each:

- `wrappers.dfy`: `Option` and `Result`.
- `go_string.dfy`: bytes and strings, and the byte-to-string conversion `string(b)`.
- `replace.dfy`: `replaceAll` as written and corrected, with its properties.
- `tool_domains.dfy`: `GenerateToolDomains`.
- `alidns.dfy`: the SDK requests, replies and call traces.
- `client.dfy`: `Config`, `NewClient`, `Client` and its record operations.
- `cleanup_properties.dfy`: what the cleanup's call trace guarantees.

Two modelling choices follow the code:

- `NewClient` overwrites the caller's `Config` in place when it fills in defaults
  (`pkg/dns/client.go:29-34`), so `Config` is a class and `NewClient` modifies it.
- Each failure is wrapped with a message about the step that failed, so
  `Dns.Error` has one constructor per step, and each carries its cause.

## Model

| member | source | states |
|---|---|---|
| `GoString.RuneBytes` | pkg/dns/client.go:263 | `string(s[i])` gives the byte itself below 0x80 and two UTF-8 bytes (lead C2/C3, continuation 80..BF) from 0x80 on |
| `GoString.RuneBytesDecodes` | pkg/dns/client.go:263 | decoding the two-byte form gives the original byte back, so the conversion reads the byte as code point U+00XX |
| `Replace.ReplaceAll` | pkg/dns/client.go:256-267 | the loop, with its skip of `len(old)-1` and guard `i <= len(s)-len(old)`, terminates when the pattern is non-empty (or the string is empty) and returns the left-to-right, non-overlapping replacement `Replaced(s, old, new)`, with unmatched bytes copied |
| `Replace.ReplaceAllAsWritten` | pkg/dns/client.go:256-267 | the same loop with `string(s[i])` as written returns `ReplacedAsWritten(s, old, new)`, which re-encodes each unmatched byte through `RuneBytes` |
| `Replace.ReplacedWithoutOccurrence` | pkg/dns/client.go:256-267 | with a non-empty pattern that occurs nowhere in `s`, the result is `s` unchanged |
| `Replace.ReplacedSingleByte` | pkg/dns/client.go:256-267 | replacing byte `a` by byte `b` keeps the length, puts `b` exactly where `a` was, keeps every other byte in place, and leaves no `a` when `a != b` |
| `Replace.AsWrittenSingleByte` | pkg/dns/client.go:256-267 | replacing byte `a` by byte `d` with the code as written leaves only `d`, re-encoded bytes from 0x80 up, and ASCII bytes of the input other than `a` |
| `Replace.AsWrittenAgreesOnAscii` | pkg/dns/client.go:263 | on ASCII input the code as written and the corrected byte copy give the same result |
| `Replace.AsWrittenReencodesNonAscii` | pkg/dns/client.go:263 | as written, "é" (C3 A9) with no ':' in it comes back as C3 83 C2 A9, while the corrected version returns it unchanged |
| `ToolDomains.SanitizedIpAsWrittenHasNoSeparators` | pkg/dns/client.go:243-246 | for any address, ASCII or not, the two `replaceAll` calls as written leave no ':' and no '.' |
| `ToolDomains.SanitizedIpAgreesOnAscii` | pkg/dns/client.go:244-246 | on an ASCII address the two `replaceAll` calls as written give exactly the byte-copying sanitization |
| `ToolDomains.SanitizedIpShape` | pkg/dns/client.go:243-246 | with unmatched bytes copied (and so, by `SanitizedIpAgreesOnAscii`, for every ASCII address as the code runs), the sanitized address has the input's length, a '-' wherever the input has ':' or '.', the input byte elsewhere, and no ':' or '.' |
| `ToolDomains.GenerateToolDomains` | pkg/dns/client.go:241-253 | exactly 6 names, in the order jenkins, gitlab, sonar, harbor, katanomi, nexus, each the address sanitized by the two `replaceAll` calls as written, + "-" + the tool |
| `ToolDomains.GeneratedNameShape` | pkg/dns/client.go:250 | a generated name splits into the sanitized address (no ':' or '.', for any input), then '-', then the tool name; for an ASCII address the sanitized part has the address's length and is the address with ':' and '.' turned into '-' |
| `Dns.Config.constructor` | pkg/dns/client.go:20-25 | a configuration holds the credential pair, the base domain and the endpoint as given |
| `Dns.NewClient` | pkg/dns/client.go:28-51 | an empty endpoint becomes "alidns.cn-hangzhou.aliyuncs.com" and an empty base domain becomes "alaudatech.net", in `cfg` itself, even when the SDK then fails; non-empty values and the credentials are untouched; on SDK failure the error is wrapped; otherwise a fresh client whose base domain is the defaulted `cfg.BaseDomain` and whose SDK config is the credentials plus the defaulted endpoint |
| `Dns.Client.constructor` | pkg/dns/client.go:47-50 | a client holds the SDK handle and the base domain it was given |
| `Dns.FindRecordId` | pkg/dns/client.go:155-168 | a failed lookup passes its error on; otherwise the id of the first returned record (nil read as ""), or "" when the list is nil or empty |
| `Dns.Client.CheckRecordExists` | pkg/dns/client.go:130-145 | a failed lookup gives false and its error; otherwise no error, and true iff some returned record has RR == prefix and Value == ip exactly (so false for a nil or empty list) |
| `Dns.Client.AddDomainRecord` | pkg/dns/client.go:54-92 | an unparseable IP fails with no call at all; otherwise one typed lookup, of type "A" for an address with a four-byte form and "AAAA" otherwise; no create when the lookup fails or shows a match; else exactly one create (baseDomain, prefix, type, ip), whose failure is wrapped; never a delete; a create is issued iff the IP parses, the lookup succeeds and no record matches |
| `Dns.Client.DeleteDomainRecord` | pkg/dns/client.go:95-120 | one untyped lookup of the prefix; no delete when it fails (error wrapped) or finds no id ("does not exist" is success); otherwise exactly one delete of the found id, whose failure is wrapped; the IP plays no part; never a create |
| `CleanupProperties.DeleteCallsShape` | pkg/dns/client.go:99-113 | a delete of one prefix looks it up once and deletes at most once, and only an id that its lookup found |
| `Dns.Client.ListAllDomainRecords` | pkg/dns/client.go:172-199 | one lookup of the base domain with page size 100; a failure is wrapped; otherwise one record per returned entry, in order, each field copied through `StringValue`, and an empty list for a nil response |
| `Dns.Client.CleanupDomainRecords` | pkg/dns/client.go:202-229 | always returns nil; issues, prefix by prefix in input order, exactly the calls a single delete of that prefix issues, whatever the earlier prefixes' replies were |
| `CleanupProperties.CleanupLooksUpEveryPrefix` | pkg/dns/client.go:204-210 | the cleanup's lookups are exactly one per prefix, in input order, whatever the replies, so a failure on one prefix does not stop the later ones |
| `CleanupProperties.CleanupDeletesOnlyFoundIds` | pkg/dns/client.go:204-225 | at most as many deletes as prefixes, and each deletes a non-empty id that some prefix's lookup returned |
| `CleanupProperties.CleanupDeleteFollowsItsLookup` | pkg/dns/client.go:206-221 | a delete is never the first call and always comes right after the k-th lookup of the trace, k counted by position, which is the lookup of the k-th prefix; that lookup's reply returned exactly the id it deletes, so a delete belongs to its own prefix and there is at most one delete per lookup |

## Left out

- The Alibaba Cloud SDK calls (`alidns.NewClient`, `DescribeDomainRecords`, `AddDomainRecord`, `DeleteDomainRecord`) are foreign network calls. Their replies are parameters with arbitrary values. What the service's keyword search returns, and how the service's state changes, is not modelled.
- `net.ParseIP` and `To4` are library code. Their combined answer is the `ParsedIp` parameter, and its link to the address text is not modelled.
- All `fmt.Printf` and `os.Stderr` output, including the `fullDomain` string built only for those messages, is I/O. The error values keep only the failing step and the cause.
- `Replace.ReplaceAll`, `Replace.ReplaceAllAsWritten`, `Replace.Replaced`, `Replace.ReplacedAsWritten`: with an empty `old` and a non-empty `s` the Go loop never advances and never returns. The `requires` excludes exactly that case, and divergence is not modelled.
- ToolDomains.GeneratedNameShape: the sanitized part has the address's length only for an ASCII address. As written, each byte from 0x80 up becomes two bytes, so for other addresses only "no ':' or '.'" is stated.
- A nil response body or a nil entry in the record list makes the Go code dereference nil. The model assumes both are present, and represents only a nil `DomainRecords` or `Record` list (`None`).
- Pagination: the listing asks for one page of 100 records (`ListLookup`). What the provider does with the page size is not modelled.
- Idempotence across two separate `AddDomainRecord` calls depends on what the service's second lookup returns. The model states the one-call behaviour it rests on: no create when the lookup shows a match.
- `cmd/root.go` is not part of this model. It is CLI wiring: flag variables, required-flag checks, per-prefix loops that log and ignore errors, and table printing.
- Check-then-act races between separate invocations are concurrency outside the program.

## Findings

| source | as written | input that shows it | evidently intended | confidence | as-written member | corrected member |
|---|---|---|---|---|---|---|
| pkg/dns/client.go:263 | `result += string(s[i])` converts the byte to a one-rune string, so each byte from 0x80 up becomes two UTF-8 bytes | `replaceAll("é", ":", "-")` with "é" the bytes C3 A9 returns C3 83 C2 A9 ("Ã©"), not the input | copy the byte itself (`s[i:i+1]`), so that a string without the pattern comes back unchanged | high; not executed | `Replace.AsWrittenReencodesNonAscii` | `Replace.ReplaceAll` |

`GenerateToolDomains` calls `replaceAll` as the code does, so its names follow the
as-written version. For an ASCII address, `ToolDomains.SanitizedIpAgreesOnAscii`
proves that the two chained calls give the same result as the corrected ones. For
any address, `ToolDomains.SanitizedIpAsWrittenHasNoSeparators` proves that no ':' or
'.' is left.
