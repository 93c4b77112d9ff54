/**
 Address resolution: the lexical IPv4 test, the acceptance rules of the
 DNS-over-HTTPS query and of the geolocation query, and the routing of a
 server address through them. The HTTP transport and `JSON.parse` are
 outside the model: a query is a function from its argument to the reply it
 produces, and a reply carries the already parsed body (`None` when the body
 is not a JSON object).
 */
module Lookup {
  import opened Wrappers
  import opened Text

  /** What `$httpClient.get` hands to its callback: an error, or a status and a body. */
  datatype Response<J> = TransportError | Received(status: int, body: Option<J>)

  /** One element of the `Answer` array; `data` is `None` when missing or null. */
  datatype DnsAnswer = DnsAnswer(data: Option<string>)

  /** A parsed DNS JSON reply; `status` is `None` unless `Status` is a number,
      `answer` is `None` when `Answer` is missing or falsy. */
  datatype DnsJson = DnsJson(status: Option<int>, answer: Option<seq<DnsAnswer>>)

  /** A parsed geolocation reply; `countryCode` is `None` when missing or null. */
  datatype GeoJson = GeoJson(countryCode: Option<string>)

  /** One HTTP query issued while resolving a server address. */
  datatype Query = DnsQuery(domain: string) | GeoQuery(ip: string)

  /** The outcome of resolving one address: the country code, if any, and
      the queries issued, in order. */
  datatype Resolution = Resolution(code: Option<string>, queries: seq<Query>)

  predicate IsDigit(c: char) {
    '0' <= c <= '9'
  }

  /** One to three ASCII digits. */
  predicate IsDigitGroup(g: string) {
    1 <= |g| <= 3 && forall k :: 0 <= k < |g| ==> IsDigit(g[k])
  }

  /** The anchored pattern `^(\d{1,3}\.){3}\d{1,3}$`: exactly four
      dot-separated groups of one to three digits. A lexical test only. */
  predicate IsIPv4Literal(s: string) {
    var groups := Split(s, '.');
    |groups| == 4 && forall k :: 0 <= k < 4 ==> IsDigitGroup(groups[k])
  }

  lemma DigitGroupHasNoDot(g: string)
    requires IsDigitGroup(g)
    ensures '.' !in g
  {
  }

  /** Any four groups of one to three digits joined by dots form a literal,
      and splitting it gives the groups back. */
  lemma FourGroupsAreIPv4(a: string, b: string, c: string, d: string)
    requires IsDigitGroup(a) && IsDigitGroup(b) && IsDigitGroup(c) && IsDigitGroup(d)
    ensures Split(a + "." + b + "." + c + "." + d, '.') == [a, b, c, d]
    ensures IsIPv4Literal(a + "." + b + "." + c + "." + d)
  {
    var groups := [a, b, c, d];
    DigitGroupHasNoDot(a);
    DigitGroupHasNoDot(b);
    DigitGroupHasNoDot(c);
    DigitGroupHasNoDot(d);
    JoinFour(groups, '.');
    assert Join(groups, '.') == a + "." + b + "." + c + "." + d;
    SplitJoin(groups, '.');
  }

  /** Conversely, every literal is four such groups joined by dots. */
  lemma IPv4IsFourGroups(s: string)
    requires IsIPv4Literal(s)
    ensures var g := Split(s, '.');
      && IsDigitGroup(g[0]) && IsDigitGroup(g[1]) && IsDigitGroup(g[2]) && IsDigitGroup(g[3])
      && s == g[0] + "." + g[1] + "." + g[2] + "." + g[3]
  {
    var g := Split(s, '.');
    JoinSplit(s, '.');
    JoinFour(g, '.');
  }

  /** The test does not check octet values: `999.999.999.999` is a literal. */
  lemma OutOfRangeOctetsAreIPv4()
    ensures IsIPv4Literal("999" + "." + "999" + "." + "999" + "." + "999")
  {
    FourGroupsAreIPv4("999", "999", "999", "999");
  }

  /** An ordinary dotted address is a literal. */
  lemma ExampleAddressIsIPv4()
    ensures IsIPv4Literal("93.184.216.34")
  {
    var a, b, c, d := "93", "184", "216", "34";
    assert IsDigitGroup(a) && IsDigitGroup(b) && IsDigitGroup(c) && IsDigitGroup(d);
    assert "93.184.216.34" == a + "." + b + "." + c + "." + d;
    FourGroupsAreIPv4(a, b, c, d);
  }

  /** That address is geolocated directly, without a DNS query. */
  lemma ExampleAddressGeolocated(dns: string -> Response<DnsJson>, geo: string -> Response<GeoJson>)
    requires geo("93.184.216.34") == Received(200, Some(GeoJson(Some("US"))))
    ensures ResolveServer("93.184.216.34", dns, geo) == Resolution(Some("US"), [GeoQuery("93.184.216.34")])
  {
    ExampleAddressIsIPv4();
  }

  /** A group of four digits is not accepted. */
  lemma LongGroupIsNotIPv4()
    ensures !IsIPv4Literal("1234.1.1.1")
  {
    var s := "1234.1.1.1";
    assert '.' !in s[..4] by {
      assert s[..4] == "1234";
    }
    SplitAtFirst(s, '.', 4);
    assert !IsDigitGroup(Split(s, '.')[0]);
  }

  /** A hostname is not accepted. */
  lemma HostnameIsNotIPv4()
    ensures !IsIPv4Literal("example.com")
  {
    var h := "example.com";
    assert '.' !in h[..7] by {
      assert h[..7] == "example";
    }
    SplitAtFirst(h, '.', 7);
    assert !IsDigitGroup(Split(h, '.')[0]) by {
      assert Split(h, '.')[0][0] == 'e';
    }
  }

  /** The callback of `resolveDomainToIP`: only an error-free status-200 reply
      whose JSON has `Status === 0` and a non-empty `Answer` yields something,
      namely the `data` of the first answer. */
  function ResolveDomainToIP(reply: Response<DnsJson>): (ip: Option<string>)
    ensures ip.Some? ==>
      && reply.Received? && reply.status == 200 && reply.body.Some?
      && reply.body.value.status == Some(0)
      && reply.body.value.answer.Some? && |reply.body.value.answer.value| > 0
      && ip == reply.body.value.answer.value[0].data
    ensures (reply.TransportError? || reply.status != 200 || reply.body.None?) ==> ip.None?
    ensures reply.Received? && reply.body.Some? && reply.body.value.status != Some(0) ==> ip.None?
    ensures (reply.Received? && reply.body.Some? && reply.body.value.answer.Some?
             && reply.body.value.answer.value == []) ==> ip.None?
    ensures (reply.Received? && reply.status == 200 && reply.body.Some?
             && reply.body.value.status == Some(0)
             && reply.body.value.answer.Some? && |reply.body.value.answer.value| > 0)
            ==> ip == reply.body.value.answer.value[0].data
  {
    match reply
    case TransportError => None
    case Received(status, body) =>
      if status != 200 then None
      else match body
        case None => None
        case Some(json) =>
          if json.status == Some(0) && json.answer.Some? && |json.answer.value| > 0
          then json.answer.value[0].data
          else None
  }

  /** The callback of `getCountryCode`: `json.countryCode || null` of an
      error-free status-200 reply; an empty code counts as absent. */
  function GetCountryCode(reply: Response<GeoJson>): (code: Option<string>)
    ensures code.Some? ==> code.value != ""
    ensures code.Some? ==>
      reply.Received? && reply.status == 200 && reply.body.Some? && reply.body.value.countryCode == code
    ensures (reply.Received? && reply.status == 200 && reply.body.Some?
             && reply.body.value.countryCode.Some? && reply.body.value.countryCode.value != "")
            ==> code == reply.body.value.countryCode
  {
    match reply
    case TransportError => None
    case Received(status, body) =>
      if status != 200 then None
      else match body
        case None => None
        case Some(json) =>
          if json.countryCode.Some? && json.countryCode.value != "" then json.countryCode else None
  }

  /** `getCountryCodeFromServer`: a literal goes straight to geolocation; a
      hostname goes to DNS first and on to geolocation only with a non-empty answer. */
  function ResolveServer(server: string, dns: string -> Response<DnsJson>, geo: string -> Response<GeoJson>): (r: Resolution)
    ensures r.code.Some? ==> r.code.value != ""
    ensures IsIPv4Literal(server) ==> r.queries == [GeoQuery(server)] && r.code == GetCountryCode(geo(server))
    ensures !IsIPv4Literal(server) ==> |r.queries| >= 1 && r.queries[0] == DnsQuery(server)
    ensures r.code.Some? ==>
      && |r.queries| >= 1 && r.queries[|r.queries| - 1].GeoQuery?
      && r.code == GetCountryCode(geo(r.queries[|r.queries| - 1].ip))
  {
    if IsIPv4Literal(server) then
      Resolution(GetCountryCode(geo(server)), [GeoQuery(server)])
    else
      match ResolveDomainToIP(dns(server))
      case Some(ip) =>
        if ip != "" then Resolution(GetCountryCode(geo(ip)), [DnsQuery(server), GeoQuery(ip)])
        else Resolution(None, [DnsQuery(server)])
      case None => Resolution(None, [DnsQuery(server)])
  }

  /** A hostname whose DNS query yields nothing is never sent to geolocation
      and stays unresolved. */
  lemma UnresolvedHostnameSkipsGeolocation(server: string, dns: string -> Response<DnsJson>, geo: string -> Response<GeoJson>)
    requires !IsIPv4Literal(server)
    requires ResolveDomainToIP(dns(server)) in {None, Some("")}
    ensures ResolveServer(server, dns, geo) == Resolution(None, [DnsQuery(server)])
  {
  }

  /** A hostname whose DNS query yields an address is resolved by geolocating that address. */
  lemma ResolvedHostnameIsGeolocated(server: string, dns: string -> Response<DnsJson>, geo: string -> Response<GeoJson>)
    requires !IsIPv4Literal(server)
    requires ResolveDomainToIP(dns(server)).Some? && ResolveDomainToIP(dns(server)).value != ""
    ensures var ip := ResolveDomainToIP(dns(server)).value;
      ResolveServer(server, dns, geo) == Resolution(GetCountryCode(geo(ip)), [DnsQuery(server), GeoQuery(ip)])
  {
  }

  /** Each kind of query is issued at most once per address. */
  lemma AtMostOneQueryOfEachKind(server: string, dns: string -> Response<DnsJson>, geo: string -> Response<GeoJson>)
    ensures var q := ResolveServer(server, dns, geo).queries;
      1 <= |q| <= 2 && (|q| == 2 ==> q[0].DnsQuery? && q[1].GeoQuery?)
  {
  }
}
