/**
 The driver: each line of the proxy list is classified, a proxy line is
 split into its name and its configuration, the server field is located,
 the server is resolved to a country code and the name replaced; one output
 line per input line, joined again with `\n`.
 */
module Rename {
  import opened Wrappers
  import opened Text
  import opened Lookup
  import opened Naming

  /** A line either passes through untouched or is a proxy entry with its
      trimmed name and trimmed configuration text. */
  datatype LineKind = PassThrough | ProxyEntry(oldName: string, configStr: string)

  /** The separator between a proxy's name and its configuration. */
  const Separator: string := " = "

  /** A line passes through when its trimmed text is empty, starts with `[`,
      has no `=`, or has no ` = `; otherwise it is split at the first ` = `. */
  function Classify(line: string): (k: LineKind)
    ensures k.PassThrough? <==>
      (var t := Trim(line); t == [] || t[0] == '[' || IndexOf(t, Separator).None?)
    ensures k.ProxyEntry? ==>
      && k.oldName != [] && IsTrimmed(k.oldName)
      && k.configStr != [] && IsTrimmed(k.configStr)
    ensures k.ProxyEntry? ==> k.oldName[0] == Trim(line)[0] && k.oldName[0] != '['
    ensures k.ProxyEntry? ==>
      var t := Trim(line);
      && IndexOf(t, Separator).Some?
      && k.oldName == Trim(t[..IndexOf(t, Separator).value])
      && k.configStr == Trim(t[IndexOf(t, Separator).value + 3..])
  {
    var t := Trim(line);
    EqualsTestIsImplied(t);
    if t == [] || t[0] == '[' || '=' !in t then PassThrough
    else match IndexOf(t, Separator)
      case None => PassThrough
      case Some(i) =>
        SeparatorInside(t, i);
        ProxyEntry(Trim(t[..i]), Trim(t[i + 3..]))
  }

  /** A non-empty text that starts or ends with a non-whitespace character keeps it under `trim`. */
  lemma NonEmptyTrim(s: string)
    requires s != [] && (!IsWhitespace(s[0]) || !IsWhitespace(s[|s| - 1]))
    ensures Trim(s) != []
  {
  }

  /** In a trimmed text the separator has something on both sides, so neither part trims to nothing. */
  lemma SeparatorInside(t: string, i: nat)
    requires t != [] && IsTrimmed(t) && OccursAt(t, Separator, i)
    ensures 0 < i && i + 3 < |t|
    ensures Trim(t[..i]) != [] && Trim(t[i + 3..]) != []
    ensures Trim(t[..i])[0] == t[0]
  {
    assert t[i] == ' ' && t[i + 2] == ' ' by {
      assert t[i..i + 3] == Separator;
    }
    NonEmptyTrim(t[..i]);
    NonEmptyTrim(t[i + 3..]);
    assert TrimStart(t[..i]) == t[..i];
  }

  /** The `=` test of the classifier is implied by the ` = ` test. */
  lemma EqualsTestIsImplied(t: string)
    ensures '=' !in t ==> IndexOf(t, Separator).None?
  {
    var r := IndexOf(t, Separator);
    if r.Some? {
      assert t[r.value + 1] == t[r.value..r.value + 3][1];
    }
  }

  /** A name without `=`, not starting with `[` and with no whitespace at its ends, followed by ` = `
      and a text that does not end in whitespace, is classified as that name
      and the trimmed text: later ` = ` stay inside the configuration. */
  lemma ClassifyEntry(name: string, rest: string)
    requires name != [] && IsTrimmed(name) && name[0] != '[' && '=' !in name
    requires rest != [] && !IsWhitespace(rest[|rest| - 1])
    ensures Classify(name + Separator + rest) == ProxyEntry(name, Trim(rest))
  {
    var line := name + Separator + rest;
    assert line[0] == name[0] && line[|line| - 1] == rest[|rest| - 1];
    TrimTrimmed(line);
    SeparatorAfterName(name, rest);
    assert '=' in line by {
      assert line[|name| + 1] == '=';
    }
    assert line[..|name|] == name;
    assert line[|name| + 3..] == rest;
    TrimTrimmed(name);
  }

  /** The first separator in such a line is the one right after the name. */
  lemma SeparatorAfterName(name: string, rest: string)
    requires '=' !in name
    ensures IndexOf(name + Separator + rest, Separator) == Some(|name|)
  {
    var line := name + Separator + rest;
    forall k | 0 <= k < |name| ensures !OccursAt(line, Separator, k) {
      if k + 1 < |name| {
        assert line[k + 1] == name[k + 1];
      } else {
        assert line[k + 1] == ' ';
      }
      assert line[k..k + 3][1] == line[k + 1];
    }
    assert line[|name|..|name| + 3] == Separator;
    IndexOfFirst(line, Separator, |name|);
  }

  /** A configuration field that names the server, `server=...` or `server ...`. */
  predicate IsServerField(field: string) {
    StartsWith(field, "server=") || StartsWith(field, "server ")
  }

  /** `fields[k]` is the first server field. */
  predicate IsFirstServerField(fields: seq<string>, k: int) {
    && 0 <= k < |fields| && IsServerField(fields[k])
    && forall j :: 0 <= j < k ==> !IsServerField(fields[j])
  }

  /** The value of the first server field: the text after its seven-character key. */
  function FirstServer(fields: seq<string>): (server: Option<string>)
    ensures server.None? <==> forall k :: 0 <= k < |fields| ==> !IsServerField(fields[k])
    ensures server.Some? ==> exists k :: IsFirstServerField(fields, k) && server.value == fields[k][7..]
  {
    if |fields| == 0 then None
    else if IsServerField(fields[0]) then
      assert IsFirstServerField(fields, 0);
      Some(fields[0][7..])
    else
      var rest := FirstServer(fields[1..]);
      assert rest.Some? ==> exists k :: IsFirstServerField(fields, k) && rest.value == fields[k][7..] by {
        if rest.Some? {
          var k :| IsFirstServerField(fields[1..], k) && rest.value == fields[1..][k][7..];
          assert IsFirstServerField(fields, k + 1);
        }
      }
      rest
  }

  /** The first server field determines the server. */
  lemma {:induction false} FirstServerAt(fields: seq<string>, i: nat)
    requires IsFirstServerField(fields, i)
    ensures FirstServer(fields) == Some(fields[i][7..])
  {
    if i > 0 {
      assert !IsServerField(fields[0]);
      assert IsFirstServerField(fields[1..], i - 1);
      FirstServerAt(fields[1..], i - 1);
    }
  }

  /** A field written `server = <address>` matches the `server ` form, and
      cutting its seven-character key leaves the `=` and the space in the value. */
  lemma SpacedServerFieldKeepsEquals(address: string)
    ensures FirstServer(["server = " + address]) == Some("= " + address)
  {
    var field := "server = " + address;
    assert field[..7] == "server " && field[7..] == "= " + address;
    FirstServerAt([field], 0);
  }

  /** `fields.map(f => f.trim())`. */
  function TrimAll(fields: seq<string>): (trimmed: seq<string>)
    ensures |trimmed| == |fields|
    ensures forall k :: 0 <= k < |fields| ==> trimmed[k] == Trim(fields[k])
  {
    seq(|fields|, k requires 0 <= k < |fields| => Trim(fields[k]))
  }

  /** The server of a configuration: split on `,`, trim every field, take the first server field. */
  function ServerOf(configStr: string): Option<string> {
    FirstServer(TrimAll(Split(configStr, ',')))
  }

  /** The scan over the fields, stopping at the first server field. */
  method FindServer(fields: seq<string>) returns (server: Option<string>)
    ensures server == FirstServer(fields)
  {
    server := None;
    for i := 0 to |fields|
      invariant server.None?
      invariant forall j :: 0 <= j < i ==> !IsServerField(fields[j])
    {
      var field := fields[i];
      if StartsWith(field, "server=") {
        server := Some(field[7..]);
        FirstServerAt(fields, i);
        break;
      } else if StartsWith(field, "server ") {
        server := Some(field[7..]);
        FirstServerAt(fields, i);
        break;
      }
    }
  }

  /** The new name of a proxy entry: rewritten only when a non-empty server
      resolves to a country code. */
  function NewName(oldName: string, configStr: string, opts: Options,
                   dns: string -> Response<DnsJson>, geo: string -> Response<GeoJson>): string
  {
    var server := ServerOf(configStr);
    if server.Some? && server.value != ""
    then ComposeName(oldName, ResolveServer(server.value, dns, geo).code, opts)
    else oldName
  }

  /** The output line for one input line. */
  function RenameLine(line: string, opts: Options,
                      dns: string -> Response<DnsJson>, geo: string -> Response<GeoJson>): string
  {
    match Classify(line)
    case PassThrough => line
    case ProxyEntry(oldName, configStr) => NewName(oldName, configStr, opts, dns, geo) + Separator + configStr
  }

  /** One output line per input line, in the same order. */
  function RenameLines(lines: seq<string>, opts: Options,
                       dns: string -> Response<DnsJson>, geo: string -> Response<GeoJson>): (out: seq<string>)
    ensures |out| == |lines|
    ensures forall k :: 0 <= k < |lines| ==> out[k] == RenameLine(lines[k], opts, dns, geo)
  {
    seq(|lines|, k requires 0 <= k < |lines| => RenameLine(lines[k], opts, dns, geo))
  }

  /** The rewritten document. */
  function RenameText(body: string, opts: Options,
                      dns: string -> Response<DnsJson>, geo: string -> Response<GeoJson>): string
  {
    Join(RenameLines(Split(body, '\n'), opts, dns, geo), '\n')
  }

  /** The name rewrite of the main loop, step by step: the code, then the
      prefix, then the flag glyph. */
  method Compose(oldName: string, countryCode: Option<string>, opts: Options) returns (newName: string)
    ensures newName == ComposeName(oldName, countryCode, opts)
  {
    newName := oldName;
    if countryCode.Some? && countryCode.value != "" {
      newName := countryCode.value;
      if opts.prefix != "" {
        newName := opts.prefix + (if opts.addFlag then " " else "") + newName;
      }
      if opts.addFlag && countryCode.value in FG {
        newName := FG[countryCode.value] + " " + newName;
      }
    }
  }

  /** The body of the main loop: the output line for one input line. */
  method RewriteLine(line: string, opts: Options,
                     dns: string -> Response<DnsJson>, geo: string -> Response<GeoJson>)
    returns (newLine: string)
    ensures newLine == RenameLine(line, opts, dns, geo)
  {
    var trimmed := Trim(line);
    if trimmed == [] || trimmed[0] == '[' || '=' !in trimmed {
      return line;
    }
    var eqIndex := IndexOf(trimmed, Separator);
    if eqIndex.None? {
      return line;
    }
    var oldName := Trim(trimmed[..eqIndex.value]);
    var configStr := Trim(trimmed[eqIndex.value + 3..]);
    assert Classify(line) == ProxyEntry(oldName, configStr);
    var fields := TrimAll(Split(configStr, ','));
    var server := FindServer(fields);
    assert server == ServerOf(configStr);
    var newName := oldName;
    if server.Some? && server.value != "" {
      var countryCode := ResolveServer(server.value, dns, geo).code;
      newName := Compose(oldName, countryCode, opts);
    }
    assert newName == NewName(oldName, configStr, opts, dns, geo);
    newLine := newName + Separator + configStr;
  }

  /** The script's main loop: one output line per input line, joined with `\n`. */
  method RenameDocument(body: string, opts: Options,
                        dns: string -> Response<DnsJson>, geo: string -> Response<GeoJson>)
    returns (result: string)
    ensures result == RenameText(body, opts, dns, geo)
  {
    var lines := Split(body, '\n');
    var newLines: seq<string> := [];
    for i := 0 to |lines|
      invariant |newLines| == i
      invariant forall k :: 0 <= k < i ==> newLines[k] == RenameLine(lines[k], opts, dns, geo)
    {
      var newLine := RewriteLine(lines[i], opts, dns, geo);
      newLines := newLines + [newLine];
    }
    assert newLines == RenameLines(lines, opts, dns, geo);
    result := Join(newLines, '\n');
  }

  /** A passed-through line is emitted verbatim, surrounding whitespace included. */
  lemma PassThroughVerbatim(line: string, opts: Options,
                            dns: string -> Response<DnsJson>, geo: string -> Response<GeoJson>)
    requires Classify(line).PassThrough?
    ensures RenameLine(line, opts, dns, geo) == line
  {
  }

  /** A proxy entry keeps its name unless its server is present, non-empty
      and resolves to a country code; otherwise the name is composed from the code. */
  lemma NameKeptUnlessResolved(line: string, opts: Options,
                               dns: string -> Response<DnsJson>, geo: string -> Response<GeoJson>)
    requires Classify(line).ProxyEntry?
    ensures var e := Classify(line);
      var server := ServerOf(e.configStr);
      if server.Some? && server.value != "" && ResolveServer(server.value, dns, geo).code.Some? then
        var code := ResolveServer(server.value, dns, geo).code.value;
        RenameLine(line, opts, dns, geo) == ComposeName(e.oldName, Some(code), opts) + Separator + e.configStr
      else
        RenameLine(line, opts, dns, geo) == e.oldName + Separator + e.configStr
  {
  }

  /** The country codes the geolocation service can hand back are plain names. */
  ghost predicate PlainCodes(geo: string -> Response<GeoJson>) {
    forall ip :: GetCountryCode(geo(ip)).Some? ==> IsPlainName(GetCountryCode(geo(ip)).value)
  }

  /** Renaming keeps a proxy entry a proxy entry: the output line classifies
      as the new name with the same configuration text, so renaming twice
      sees the same configuration. */
  lemma RenamedLineReclassifies(line: string, opts: Options,
                                dns: string -> Response<DnsJson>, geo: string -> Response<GeoJson>)
    requires Classify(line).ProxyEntry? && '=' !in Classify(line).oldName
    requires IsPlainPrefix(opts.prefix) && PlainCodes(geo)
    ensures var e := Classify(line);
      Classify(RenameLine(line, opts, dns, geo))
        == ProxyEntry(NewName(e.oldName, e.configStr, opts, dns, geo), e.configStr)
  {
    var e := Classify(line);
    assert IsPlainName(e.oldName);
    NewNameIsPlain(e.oldName, e.configStr, opts, dns, geo);
    ReclassifyPlain(NewName(e.oldName, e.configStr, opts, dns, geo), e.configStr);
  }

  /** A plain name joined to a trimmed configuration classifies back into the two. */
  lemma ReclassifyPlain(name: string, configStr: string)
    requires IsPlainName(name) && configStr != [] && IsTrimmed(configStr)
    ensures Classify(name + Separator + configStr) == ProxyEntry(name, configStr)
  {
    ClassifyEntry(name, configStr);
    TrimTrimmed(configStr);
  }

  /** A plain name stays plain when renamed with a plain prefix and plain codes. */
  lemma NewNameIsPlain(oldName: string, configStr: string, opts: Options,
                       dns: string -> Response<DnsJson>, geo: string -> Response<GeoJson>)
    requires IsPlainName(oldName) && IsPlainPrefix(opts.prefix) && PlainCodes(geo)
    ensures IsPlainName(NewName(oldName, configStr, opts, dns, geo))
  {
    var server := ServerOf(configStr);
    if server.Some? && server.value != "" {
      var code := ResolveServer(server.value, dns, geo).code;
      ComposeNameIsPlain(oldName, code, opts);
    }
  }

  /** The name and the configuration of a proxy entry are made of the line's characters. */
  lemma EntryAvoids(x: char, line: string)
    requires Classify(line).ProxyEntry? && x !in line
    ensures x !in Classify(line).oldName && x !in Classify(line).configStr
  {
    var t := Trim(line);
    var i := IndexOf(t, Separator).value;
    SliceAvoids(x, t, i, i);
    SliceAvoids(x, t, i + 3, i + 3);
  }

  /** A character other than a space or a regional indicator that is absent
      from the old name, the prefix and the codes is absent from the new name. */
  lemma NewNameAvoids(x: char, oldName: string, configStr: string, opts: Options,
                      dns: string -> Response<DnsJson>, geo: string -> Response<GeoJson>)
    requires x != ' ' && !('\U{1F1E6}' <= x <= '\U{1F1FF}')
    requires x !in oldName && x !in opts.prefix
    requires forall ip :: GetCountryCode(geo(ip)).Some? ==> x !in GetCountryCode(geo(ip)).value
    ensures x !in NewName(oldName, configStr, opts, dns, geo)
  {
    var server := ServerOf(configStr);
    if server.Some? && server.value != "" {
      var r := ResolveServer(server.value, dns, geo);
      if r.code.Some? {
        assert r.code == GetCountryCode(geo(r.queries[|r.queries| - 1].ip));
      }
      ComposeNameAvoids(x, oldName, r.code, opts);
    }
  }

  /** A character other than a space, `=` or a regional indicator that is
      absent from the line, the prefix and the codes is absent from the output line. */
  lemma RenameLineAvoids(x: char, line: string, opts: Options,
                         dns: string -> Response<DnsJson>, geo: string -> Response<GeoJson>)
    requires x != ' ' && x != '=' && !('\U{1F1E6}' <= x <= '\U{1F1FF}')
    requires x !in line && x !in opts.prefix
    requires forall ip :: GetCountryCode(geo(ip)).Some? ==> x !in GetCountryCode(geo(ip)).value
    ensures x !in RenameLine(line, opts, dns, geo)
  {
    var k := Classify(line);
    if k.ProxyEntry? {
      EntryAvoids(x, line);
      NewNameAvoids(x, k.oldName, k.configStr, opts, dns, geo);
      JoinAvoids(x, NewName(k.oldName, k.configStr, opts, dns, geo), k.configStr);
    }
  }

  /** Joining with the separator adds only a space and `=`. */
  lemma JoinAvoids(x: char, name: string, configStr: string)
    requires x != ' ' && x != '=' && x !in name && x !in configStr
    ensures x !in name + Separator + configStr
  {
  }

  /** When neither the prefix nor any country code contains a line break,
      the output has exactly one line per input line, in order: splitting
      the result gives back the renamed lines. */
  lemma RenameKeepsLines(body: string, opts: Options,
                         dns: string -> Response<DnsJson>, geo: string -> Response<GeoJson>)
    requires '\n' !in opts.prefix
    requires forall ip :: GetCountryCode(geo(ip)).Some? ==> '\n' !in GetCountryCode(geo(ip)).value
    ensures Split(RenameText(body, opts, dns, geo), '\n') == RenameLines(Split(body, '\n'), opts, dns, geo)
    ensures |Split(RenameText(body, opts, dns, geo), '\n')| == |Split(body, '\n')|
  {
    var lines := Split(body, '\n');
    var out := RenameLines(lines, opts, dns, geo);
    SplitPiecesLackSeparator(body, '\n');
    forall k | 0 <= k < |out| ensures '\n' !in out[k] {
      RenameLineAvoids('\n', lines[k], opts, dns, geo);
    }
    SplitJoin(out, '\n');
  }

  /** Splitting `kind,field...` where neither part holds a comma gives
      `kind` and `field` as its first two pieces. */
  lemma SplitFirstTwo(kind: string, field: string, tail: string)
    requires ',' !in kind && ',' !in field
    requires tail == [] || tail[0] == ','
    ensures var pieces := Split(kind + "," + field + tail, ',');
      |pieces| >= 2 && pieces[0] == kind && pieces[1] == field
  {
    var config := kind + "," + field + tail;
    assert config[..|kind|] == kind;
    SplitAtFirst(config, ',', |kind|);
    var rest := config[|kind| + 1..];
    assert rest == field + tail;
    if tail == [] {
      SplitWithout(field, ',');
    } else {
      assert rest[..|field|] == field;
      SplitAtFirst(rest, ',', |field|);
    }
  }

  /** The field ` server=<address>` trims to `server=<address>`. */
  lemma TrimServerField(server: string)
    requires server != [] && !IsWhitespace(server[|server| - 1])
    ensures Trim(" server=" + server) == "server=" + server
  {
    var value := "server=" + server;
    assert (" server=" + server)[1..] == value;
    assert value[|value| - 1] == server[|server| - 1];
    TrimTrimmed(value);
  }

  /** The second field of `kind, server=<address>...` is ` server=<address>`,
      free of commas when the address is. */
  lemma ServerFieldShape(kind: string, server: string, tail: string)
    requires ',' !in server
    ensures kind + ", server=" + server + tail == kind + "," + (" server=" + server) + tail
    ensures ',' !in " server=" + server
  {
    var field := " server=" + server;
    SliceAvoids(',', field, 8, 8);
    assert field[8..] == server;
  }

  /** A configuration whose first field is not a server field and whose
      second field is `server=` and an address has that address as its server. */
  lemma SecondFieldServer(kind: string, server: string, tail: string)
    requires ',' !in kind && !IsServerField(Trim(kind))
    requires server != [] && ',' !in server && !IsWhitespace(server[|server| - 1])
    requires tail == [] || tail[0] == ','
    ensures ServerOf(kind + ", server=" + server + tail) == Some(server)
  {
    var field := " server=" + server;
    ServerFieldShape(kind, server, tail);
    SplitFirstTwo(kind, field, tail);
    TrimServerField(server);
    var value := "server=" + server;
    var fields := TrimAll(Split(kind + "," + field + tail, ','));
    assert value[..7] == "server=" && value[7..] == server;
    FirstServerAt(fields, 1);
  }

  /** A line made of a plain name, the separator and a trimmed configuration
      is renamed from that configuration's server and keeps the configuration. */
  lemma EntryLineRenamed(name: string, config: string, opts: Options,
                         dns: string -> Response<DnsJson>, geo: string -> Response<GeoJson>)
    requires IsPlainName(name) && config != [] && IsTrimmed(config)
    ensures RenameLine(name + Separator + config, opts, dns, geo)
         == NewName(name, config, opts, dns, geo) + Separator + config
  {
    ClassifyEntry(name, config);
    TrimTrimmed(config);
  }

  /** An entry whose second field names its server is renamed from what
      resolving that server gives, and keeps its configuration text. */
  lemma ServerEntryRenamed(name: string, kind: string, server: string, tail: string, opts: Options,
                           dns: string -> Response<DnsJson>, geo: string -> Response<GeoJson>)
    requires IsPlainName(name)
    requires ',' !in kind && !IsServerField(Trim(kind))
    requires server != [] && ',' !in server && !IsWhitespace(server[|server| - 1])
    requires tail == [] || tail[0] == ','
    requires IsTrimmed(kind + ", server=" + server + tail)
    ensures var config := kind + ", server=" + server + tail;
      RenameLine(name + Separator + config, opts, dns, geo)
        == ComposeName(name, ResolveServer(server, dns, geo).code, opts) + Separator + config
  {
    var config := kind + ", server=" + server + tail;
    SecondFieldServer(kind, server, tail);
    EntryLineRenamed(name, config, opts, dns, geo);
  }

  /** The parts of the worked line below meet the conditions of `ServerEntryRenamed`. */
  lemma WorkedLineParts()
    ensures IsPlainName("MyNode")
    ensures ',' !in "ss" && !IsServerField(Trim("ss"))
    ensures ',' !in "93.184.216.34" && !IsWhitespace('4')
    ensures IsTrimmed("ss" + ", server=" + "93.184.216.34" + ", port=443")
  {
    TrimTrimmed("ss");
    var config := "ss" + ", server=" + "93.184.216.34" + ", port=443";
    assert config[0] == 's' && config[|config| - 1] == '3';
  }

  /** A worked line: `MyNode = ss, server=93.184.216.34, port=443`, whose
      literal server geolocates to `US`, becomes `US = ss, server=93.184.216.34, port=443`
      when no options are set. */
  lemma LiteralServerRenamed(dns: string -> Response<DnsJson>, geo: string -> Response<GeoJson>)
    requires geo("93.184.216.34") == Received(200, Some(GeoJson(Some("US"))))
    ensures var config := "ss" + ", server=" + "93.184.216.34" + ", port=443";
      RenameLine("MyNode" + Separator + config, Options("", false), dns, geo) == "US" + Separator + config
  {
    WorkedLineParts();
    ExampleAddressGeolocated(dns, geo);
    ServerEntryRenamed("MyNode", "ss", "93.184.216.34", ", port=443", Options("", false), dns, geo);
    ComposeWithoutOptions("MyNode", "US");
  }
}
