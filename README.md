# Country-code renaming of Surge proxy lists

A model of the Sub-Store script `rename.js`, which rewrites a Surge proxy
list so that every proxy's display name becomes the ISO 3166-1 alpha-2 code
of the country its server is located in, optionally behind a label prefix
(the `name` argument) and a flag emoji (the `flag` argument).

The script reads the response body line by line. A line whose trimmed text
is empty, starts with `[` (a section header), contains no `=`, or contains
no ` = ` is emitted unchanged. Any other line is split at its first ` = `
into a name and a configuration text (both trimmed). The configuration is
split on `,`, every field is trimmed, and the first field starting with
`server=` or `server ` gives the server address (the text after its first
seven characters). A non-empty server is resolved to a country code: a
dotted-quad literal goes straight to the ip-api.com geolocation service, a
hostname is first resolved through Cloudflare's DNS-over-HTTPS JSON API and
only a non-empty answer is then geolocated. When a code comes back the name
is rebuilt from it; in every other case the old name is kept. The line is
rebuilt as `name = configuration` and the lines are joined with `\n`.

The model is split along the script's structure:

- `wrappers.dfy` — `Option`, standing for `null`/`undefined`.
- `text.dfy` — the JavaScript string operations the script relies on:
  `trim` (with ECMAScript's full whitespace and line-terminator set),
  `startsWith`, `indexOf`, `split` on one character and `join`, with the
  split/join round trips.
- `lookup.dfy` — the IPv4 pattern `^(\d{1,3}\.){3}\d{1,3}$`, the acceptance
  rules of the DNS and geolocation callbacks, and the routing of an address
  through them. HTTP is not modelled: a service is a function from its
  argument to the reply it gives (`Response`: a transport error, or a
  status and a body that is either a parsed JSON object or `None` when
  `JSON.parse` throws). `ResolveServer` also returns the queries it issued,
  in order, so that "geolocation is never asked after a failed DNS query"
  can be stated.
- `naming.dfy` — the flag table `FG` (25 codes, each mapped to its pair of
  Unicode regional-indicator symbols) and the name composition.
- `rename.dfy` — the line classifier, the field scan, the main loop as
  methods (`FindServer`, `Compose`, `RewriteLine`, `RenameDocument`) proved
  equal to their specification functions (`FirstServer`, `ComposeName`,
  `RenameLine`, `RenameText`), and the properties of the whole rewrite.

One behaviour is worth calling out. With both a prefix and the flag set,
the script builds `flag + " " + prefix + " " + code` (the flag is prepended
last, so it comes first; `Naming.ComposeFlagComesFirst`). The space after the prefix depends on the
flag option alone, so it is inserted even when the table has no glyph for
the code (`Naming.ComposeFlagWithoutGlyph`).

## Model

| member | source | states |
|---|---|---|
| Text.Trim | rename.js:96 | the result has no whitespace at either end, is no longer than the input and has only characters of the input |
| Text.TrimSlice | rename.js:96 | the result of `trim` is a slice of the input with only whitespace before and after it, so exactly the leading and trailing whitespace is removed |
| Text.TrimIdempotent | rename.js:109-110 | trimming an already trimmed text (the name and configuration cut from a trimmed line) changes nothing |
| Text.TrimTrimmed | rename.js:109-110 | a text without whitespace at its ends is its own trim |
| Text.IndexOf | rename.js:103 | a found position holds the pattern and no earlier position does; `None` means no position holds it |
| Text.IndexOfFirst | rename.js:103 | the first position holding the pattern is what `indexOf` returns |
| Text.Split | rename.js:92 | `split` on one character always yields at least one piece (the pieces are the text between separators) |
| Text.Join | rename.js:144 | `join` puts the separator between neighbouring pieces; an empty list joins to the empty text |
| Text.SplitPiecesLackSeparator | rename.js:92 | no piece of `split` contains the separator |
| Text.SplitAtFirst | rename.js:113 | splitting at the first separator gives the text before it followed by the split of the rest |
| Text.SplitWithout | rename.js:113 | a text without the separator splits into itself alone |
| Text.JoinSplit | rename.js:144 | joining the pieces of a split on the same character gives back the text |
| Text.SplitJoin | rename.js:144 | splitting the join of separator-free pieces gives back the pieces, count and order included |
| Lookup.IsIPv4Literal | rename.js:29 | the pattern `^(\d{1,3}\.){3}\d{1,3}$` as a predicate: splitting on `.` gives exactly four groups of one to three digits |
| Lookup.FourGroupsAreIPv4 | rename.js:29 | four groups of one to three digits joined by dots match the pattern and split back into those groups |
| Lookup.IPv4IsFourGroups | rename.js:29 | every text matching the pattern is four digit groups of length one to three joined by dots |
| Lookup.OutOfRangeOctetsAreIPv4 | rename.js:29 | the pattern is lexical only: `999.999.999.999` matches |
| Lookup.LongGroupIsNotIPv4 | rename.js:29 | a four-digit group does not match |
| Lookup.HostnameIsNotIPv4 | rename.js:29 | `example.com` does not match, so it is resolved as a hostname |
| Lookup.ExampleAddressIsIPv4 | rename.js:29 | `93.184.216.34` matches |
| Lookup.ExampleAddressGeolocated | rename.js:76-78 | that address is sent to geolocation only, and its code is what geolocation answers |
| Lookup.ResolveDomainToIP | rename.js:40-53 | an address comes back only from an error-free status-200 reply whose JSON has `Status` 0 and a non-empty `Answer`, and it is the first answer's `data`; transport error, other status, unparsable body, other `Status` or empty `Answer` give nothing; an accepted reply yields the first answer's `data` |
| Lookup.GetCountryCode | rename.js:62-71 | a code comes back only from an error-free status-200 reply with a parsed body, it is non-empty and it is that body's `countryCode`; such a non-empty `countryCode` is always returned |
| Lookup.ResolveServer | rename.js:29-88 | a literal issues exactly one geolocation query for itself and its code is what geolocation answers for it; a hostname issues its DNS query first; a code is only ever the answer of the last query, which is a geolocation query; a code is never empty |
| Lookup.UnresolvedHostnameSkipsGeolocation | rename.js:81-86 | a hostname whose DNS answer is missing or empty gets no code and no geolocation query |
| Lookup.ResolvedHostnameIsGeolocated | rename.js:81-83 | a hostname with a non-empty DNS answer is resolved by geolocating that answer |
| Lookup.AtMostOneQueryOfEachKind | rename.js:76-88 | one or two queries per address, and with two, DNS comes before geolocation |
| Naming.RegionalIndicator | rename.js:20-26 | the glyph of a letter is a regional-indicator symbol |
| Naming.FG | rename.js:20-26 | the flag table: exactly the 25 codes of the script, each mapped to its two regional-indicator symbols |
| Naming.FlagCodeIsLetterPair | rename.js:20-26 | every code of the table is two upper-case letters |
| Naming.FlagTableEntries | rename.js:20-26 | every table entry is the two regional indicators spelling its code |
| Naming.ComposeName | rename.js:125-136 | without a code (absent or empty) the old name is kept; with one, the name ends with the code |
| Naming.ComposeWithoutOptions | rename.js:128-129 | with no prefix and no flag the name is the code itself |
| Naming.ComposePrefixWithoutFlag | rename.js:130-132 | with a prefix and no flag the name is prefix and code glued together |
| Naming.ComposeFlagComesFirst | rename.js:129-135 | with the flag and a known code the name is glyph, space, then prefix and space if any, then the code |
| Naming.ComposeFlagWithoutGlyph | rename.js:131-135 | with the flag and an unknown code no glyph is added but the space after a prefix still is |
| Naming.ComposeNameAvoids | rename.js:125-136 | a character other than a space or a regional indicator appears in the new name only if it was in the old name, the prefix or the code |
| Naming.ComposedNameLast | rename.js:129-135 | a composed name ends with the code's last character |
| Naming.ComposedNameFirst | rename.js:129-135 | a composed name starts with neither whitespace nor `[` when the prefix and the code do not |
| Naming.ComposeNameIsPlain | rename.js:125-136 | from a plain old name, prefix and code (no `=`, no whitespace at the ends, no leading `[`) a plain name is built |
| Rename.Classify | rename.js:96-110 | a line passes through exactly when its trimmed text is empty, starts with `[` or lacks ` = `; a proxy entry has a non-empty trimmed name not starting with `[` and a non-empty trimmed configuration, which are the trimmed text before and after the first ` = ` of the trimmed line |
| Rename.EqualsTestIsImplied | rename.js:97-104 | a text without `=` has no ` = `, so the `=` test only shortcuts the ` = ` test |
| Rename.SeparatorInside | rename.js:103-110 | in a trimmed line the first ` = ` has a non-empty name before it and a non-empty configuration after it |
| Rename.SeparatorAfterName | rename.js:103 | after a name without `=`, the first ` = ` is the one following the name |
| Rename.ClassifyEntry | rename.js:96-110 | `name = rest` with a plain name is classified as that name and the trimmed rest; later ` = ` stay in the configuration |
| Rename.TrimAll | rename.js:113 | every field is trimmed, one per piece, in order |
| Rename.FirstServer | rename.js:114-123 | no server exactly when no field starts with `server=` or `server `; otherwise the value after the first such field's seven-character key |
| Rename.FirstServerAt | rename.js:115-122 | the first server field determines the server |
| Rename.SpacedServerFieldKeepsEquals | rename.js:119-120 | a field `server = x` yields the server `= x` |
| Rename.ServerOf | rename.js:113-123 | the server of a configuration: the first server field among its comma-separated, trimmed fields |
| Rename.FindServer | rename.js:114-123 | the scan with early exit returns the first server field's value |
| Rename.NewName | rename.js:125-137 | the new name: composed from the resolved code when the server is present and non-empty, the old name otherwise |
| Rename.RenameLine | rename.js:95-141 | the output line: the line itself when it passes through, otherwise the new name, ` = ` and the configuration |
| Rename.RenameLines | rename.js:91-144 | one output line per input line, in order, each the rewrite of its input line |
| Rename.RenameText | rename.js:91-144 | the output document: the body split on line breaks, each line rewritten, joined with line breaks |
| Rename.Compose | rename.js:125-136 | the step-by-step rewrite of the name equals the composed name |
| Rename.RewriteLine | rename.js:95-141 | the body of the main loop produces the specified output line |
| Rename.RenameDocument | rename.js:91-144 | the main loop produces the specified rewritten document |
| Rename.PassThroughVerbatim | rename.js:97-106 | a passed-through line is emitted exactly as it was, surrounding whitespace included |
| Rename.NameKeptUnlessResolved | rename.js:125-140 | an entry keeps its name unless a non-empty server resolves to a code, in which case the name is composed from that code; either way the line is `name = configuration` |
| Rename.RenamedLineReclassifies | rename.js:103-110 | with a plain prefix and plain codes, the output line of an entry whose name has no `=` is classified as the new name and the same configuration |
| Rename.NewNameIsPlain | rename.js:125-137 | a plain old name stays plain when renamed with a plain prefix and plain codes |
| Rename.ReclassifyPlain | rename.js:103-110 | a plain name joined by ` = ` to a trimmed configuration is classified back into that name and configuration |
| Rename.EntryAvoids | rename.js:109-110 | a character absent from the line is absent from its name and configuration |
| Rename.NewNameAvoids | rename.js:125-136 | a character other than a space or a regional indicator absent from the old name, the prefix and every code is absent from the new name |
| Rename.RenameLineAvoids | rename.js:95-141 | such a character, also other than `=`, absent from the input line is absent from the output line |
| Rename.RenameKeepsLines | rename.js:92-144 | when neither the prefix nor any code holds a line break, splitting the output gives the rewritten lines back: same count, same order |
| Rename.SplitFirstTwo | rename.js:113 | the first two fields of `a,b...` are `a` and `b` |
| Rename.TrimServerField | rename.js:113 | the field ` server=x` trims to `server=x` |
| Rename.ServerFieldShape | rename.js:113 | the second field of `kind, server=x...` is ` server=x` |
| Rename.SecondFieldServer | rename.js:113-123 | a configuration `kind, server=x...` whose first field is not a server field has server `x` |
| Rename.EntryLineRenamed | rename.js:109-140 | `name = configuration` with a plain name and trimmed configuration is rebuilt from the configuration's server |
| Rename.ServerEntryRenamed | rename.js:109-140 | `name = kind, server=x...` becomes the name composed from what `x` resolves to, with the configuration unchanged |
| Rename.WorkedLineParts | rename.js:109-116 | the parts of `MyNode = ss, server=93.184.216.34, port=443` are a plain name, a non-server first field, a comma-free address and a trimmed configuration |
| Rename.LiteralServerRenamed | rename.js:91-141 | `MyNode = ss, server=93.184.216.34, port=443` with geolocation answering `US` and no options becomes `US = ss, server=93.184.216.34, port=443` |

## Left out

- HTTP itself (URLs, `encodeURIComponent`, headers, `$httpClient`), the host globals `$arguments`, `$response` and `$done`, and `decodeURI` of the `name` argument: the services are function parameters and the options a value.
- Each service answers every argument the same way throughout a run: the rate limiting of ip-api.com the script warns about (rename.js:10) and transient failures of repeated queries for the same address are not represented.
- The `async`/`Promise` plumbing: the lines are processed one after another, as the script awaits each lookup in turn.
- `JSON.parse` is abstracted to "parsed object or not"; JSON values of unexpected types (a numeric `data`, a non-string `countryCode`, `null` elements in `Answer`) are not modelled. `Status` is a number or absent.
- Lookup.ResolveServer: a DNS answer is used only when it is a non-empty string; the script would also pass any other truthy `data` value on to geolocation.
- Naming.ComposeName: the lookup `FG[countryCode]` is modelled as membership in the 25-entry table; names inherited from `Object.prototype` (such as `constructor`) are not.
- The `flag` argument is a boolean; other truthy values behave like `true` in the script.
- The unused `EN` list of codes and the documented `noCache` and `insecure` arguments, which the script never reads.
- Rename.RenameKeepsLines: holds only when the prefix and the country codes contain no line break; otherwise the joined output has more lines than the input.
- Rename.RenamedLineReclassifies: needs a name without `=`, a plain prefix and plain codes; a name such as `a =` followed by a tab would be read back differently.
