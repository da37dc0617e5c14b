/**
 * The IP-to-location service of the API (apps/api/src/services/location.service.ts):
 * which addresses count as local, and the Zurich fallback used for local
 * addresses and for every failure of the geolocation provider.
 */
module LocationService {
  import opened Wrappers

  /** LocationData and LocationProviderResponse: the same four fields. */
  datatype LocationData = LocationData(lat: real, lon: real, city: string, timezone: string)

  /** The default record returned for local addresses and failed lookups. */
  const Zurich := LocationData(47.3769, 8.5417, "Zurich", "Europe/Zurich")

  /** What the provider's JSON body holds once parsed. */
  datatype ReplyBody = ReplyBody(status: string, message: Option<string>,
                                 lat: real, lon: real, city: string, timezone: string)

  /** The outcome of `fetch` on the provider URL followed by `response.json()`. */
  datatype ProviderReply =
    | NetworkError                                     // fetch itself rejected
    | Response(ok: bool, statusText: string, body: Option<ReplyBody>)  // None: json() rejected

  /** The reasons fetchLocationFromProvider throws. */
  datatype FetchError =
    | Unreachable                    // fetch rejected
    | HttpError(statusText: string)  // "Failed to fetch location data: <statusText>"
    | UnreadableBody                 // response.json() rejected
    | LookupFailed(message: string)  // "IP geolocation failed: <message>"

  /** The URL the provider is asked for. */
  function ProviderUrl(ip: string): (url: string)
    ensures |url| == |ProviderUrlPrefix| + |ip|
    ensures url[..|ProviderUrlPrefix|] == ProviderUrlPrefix && url[|ProviderUrlPrefix|..] == ip
  {
    ProviderUrlPrefix + ip
  }

  const ProviderUrlPrefix: string := "http://ip-api.com/json/"

  /** `data.message || "Unknown error"`. */
  function FailureMessage(message: Option<string>): (m: string)
    ensures m != ""
    ensures message.Some? && message.value != "" ==> m == message.value
    ensures !(message.Some? && message.value != "") ==> m == "Unknown error"
  {
    if message.Some? && message.value != "" then message.value else "Unknown error"
  }

  /** fetchLocationFromProvider, given what the network answered. */
  function FetchLocationFromProvider(reply: ProviderReply): (r: Result<LocationData, FetchError>)
    ensures r.Success? <==>
      reply.Response? && reply.ok && reply.body.Some? && reply.body.value.status != "fail"
    ensures r.Success? ==>
      var b := reply.body.value;
      r.value == LocationData(b.lat, b.lon, b.city, b.timezone)
    ensures reply.Response? && !reply.ok ==> r == Failure(HttpError(reply.statusText))
  {
    match reply
    case NetworkError => Failure(Unreachable)
    case Response(ok, statusText, body) =>
      if !ok then Failure(HttpError(statusText))
      else if body.None? then Failure(UnreadableBody)
      else if body.value.status == "fail" then Failure(LookupFailed(FailureMessage(body.value.message)))
      else Success(LocationData(body.value.lat, body.value.lon, body.value.city, body.value.timezone))
  }

  /** The `isLocalhost` expression of getLocationFromIp: three exact loopback
      strings and a list of literal prefixes. */
  predicate IsLocalhost(ip: string) {
    || ip == "127.0.0.1"
    || ip == "::1"
    || ip == "::ffff:127.0.0.1"
    || "192.168." <= ip
    || "10." <= ip
    || "172.16." <= ip
    || "172.17." <= ip
    || "172.18." <= ip
    || "172.19." <= ip
    || "172.20." <= ip
    || "172.21." <= ip
    || "172.22." <= ip
    || "172.23." <= ip
    || "172.24." <= ip
    || "172.25." <= ip
    || "172.26." <= ip
    || "172.27." <= ip
    || "172.28." <= ip
    || "172.29." <= ip
    || "172.30." <= ip
    || "172.31." <= ip
  }

  /** getLocationFromIp(ip), where `fetch` stands for the provider: what it
      answers for each URL. */
  function GetLocationFromIp(ip: string, fetch: string -> ProviderReply): (loc: LocationData)
    ensures IsLocalhost(ip) ==> loc == Zurich
    ensures !IsLocalhost(ip) ==>
      match FetchLocationFromProvider(fetch(ProviderUrl(ip)))
      case Success(data) => loc == data
      case Failure(_) => loc == Zurich
  {
    if IsLocalhost(ip) then Zurich
    else
      match FetchLocationFromProvider(fetch(ProviderUrl(ip)))
      case Success(location) => LocationData(location.lat, location.lon, location.city, location.timezone)
      case Failure(_) => Zurich
  }

  // ---------------------------------------------------------------------------
  // Properties of the classifier

  /** Only the three exact loopback spellings are local; other loopback
      addresses are sent to the provider. */
  lemma LoopbackExamples()
    ensures IsLocalhost("127.0.0.1") && IsLocalhost("::1") && IsLocalhost("::ffff:127.0.0.1")
    ensures !IsLocalhost("127.0.0.2") && !IsLocalhost("::2") && !IsLocalhost("::ffff:127.0.0.2")
  {
    var a, b, c := "127.0.0.2", "::2", "::ffff:127.0.0.2";
    assert a[1] == '2' && b[0] == ':' && c[0] == ':';
    NotLocal(a);
    NotLocal(b);
    NotLocal(c);
  }

  /** An address that is none of the three loopback spellings and starts
      neither with "19", "10" nor "17" is not local. */
  lemma NotLocal(ip: string)
    requires ip != "127.0.0.1" && ip != "::1" && ip != "::ffff:127.0.0.1"
    requires !("19" <= ip) && !("10" <= ip) && !("17" <= ip)
    ensures !IsLocalhost(ip)
  {
  }

  /** The two-digit decimal spelling of k. */
  function Decimal2(k: nat): (s: string)
    requires 10 <= k <= 99
    ensures |s| == 2 && '0' <= s[0] <= '9' && '0' <= s[1] <= '9'
    ensures 10 * (s[0] as int - '0' as int) + (s[1] as int - '0' as int) == k
  {
    [('0' as int + k / 10) as char, ('0' as int + k % 10) as char]
  }

  /** "172.<k>." for the private block 172.16.0.0/12 and its neighbours. */
  function Prefix172(k: nat): (p: string)
    requires 10 <= k <= 99
    ensures |p| == 7 && p[..4] == "172." && p[4..6] == Decimal2(k) && p[6] == '.'
  {
    "172." + Decimal2(k) + "."
  }

  /** The local addresses described as ranges: the three loopback strings,
      192.168., 10., and the sixteen prefixes 172.16. through 172.31. */
  ghost predicate InLocalRanges(ip: string) {
    || ip in {"127.0.0.1", "::1", "::ffff:127.0.0.1"}
    || "192.168." <= ip
    || "10." <= ip
    || exists k :: 16 <= k <= 31 && Prefix172(k) <= ip
  }

  /** The classifier accepts exactly the addresses in those ranges. */
  lemma IsLocalhostRanges(ip: string)
    ensures IsLocalhost(ip) <==> InLocalRanges(ip)
  {
    if IsLocalhost(ip) {
      LocalInRanges(ip);
    }
    if InLocalRanges(ip) && !(ip in {"127.0.0.1", "::1", "::ffff:127.0.0.1"} || "192.168." <= ip || "10." <= ip) {
      var k :| 16 <= k <= 31 && Prefix172(k) <= ip;
      Prefix172Local(k, ip);
    }
  }

  /** A "172.<k>." prefix with k in 16..31 is in the ranges. */
  lemma InLocalRanges172(k: nat, ip: string)
    requires 16 <= k <= 31 && Prefix172(k) <= ip
    ensures InLocalRanges(ip)
  {
  }

  /** Every address the classifier accepts is in the ranges. */
  lemma LocalInRanges(ip: string)
    requires IsLocalhost(ip)
    ensures InLocalRanges(ip)
  {
    if ip in {"127.0.0.1", "::1", "::ffff:127.0.0.1"} || "192.168." <= ip || "10." <= ip {
    } else if || "172.16." <= ip || "172.17." <= ip || "172.18." <= ip || "172.19." <= ip
              || "172.20." <= ip || "172.21." <= ip || "172.22." <= ip || "172.23." <= ip {
      LowPrivate172InRanges(ip);
    } else {
      HighPrivate172InRanges(ip);
    }
  }

  /** The prefixes 172.16. to 172.23. are in the ranges. */
  lemma LowPrivate172InRanges(ip: string)
    requires "172.16." <= ip
      || "172.17." <= ip
      || "172.18." <= ip
      || "172.19." <= ip
      || "172.20." <= ip
      || "172.21." <= ip
      || "172.22." <= ip
      || "172.23." <= ip
    ensures InLocalRanges(ip)
  {
    if "172.16." <= ip {
      assert Prefix172(16) == "172.16.";
      InLocalRanges172(16, ip);
    } else if "172.17." <= ip {
      assert Prefix172(17) == "172.17.";
      InLocalRanges172(17, ip);
    } else if "172.18." <= ip {
      assert Prefix172(18) == "172.18.";
      InLocalRanges172(18, ip);
    } else if "172.19." <= ip {
      assert Prefix172(19) == "172.19.";
      InLocalRanges172(19, ip);
    } else if "172.20." <= ip {
      assert Prefix172(20) == "172.20.";
      InLocalRanges172(20, ip);
    } else if "172.21." <= ip {
      assert Prefix172(21) == "172.21.";
      InLocalRanges172(21, ip);
    } else if "172.22." <= ip {
      assert Prefix172(22) == "172.22.";
      InLocalRanges172(22, ip);
    } else {
      assert Prefix172(23) == "172.23.";
      InLocalRanges172(23, ip);
    }
  }

  /** The prefixes 172.24. to 172.31. are in the ranges. */
  lemma HighPrivate172InRanges(ip: string)
    requires "172.24." <= ip
      || "172.25." <= ip
      || "172.26." <= ip
      || "172.27." <= ip
      || "172.28." <= ip
      || "172.29." <= ip
      || "172.30." <= ip
      || "172.31." <= ip
    ensures InLocalRanges(ip)
  {
    if "172.24." <= ip {
      assert Prefix172(24) == "172.24.";
      InLocalRanges172(24, ip);
    } else if "172.25." <= ip {
      assert Prefix172(25) == "172.25.";
      InLocalRanges172(25, ip);
    } else if "172.26." <= ip {
      assert Prefix172(26) == "172.26.";
      InLocalRanges172(26, ip);
    } else if "172.27." <= ip {
      assert Prefix172(27) == "172.27.";
      InLocalRanges172(27, ip);
    } else if "172.28." <= ip {
      assert Prefix172(28) == "172.28.";
      InLocalRanges172(28, ip);
    } else if "172.29." <= ip {
      assert Prefix172(29) == "172.29.";
      InLocalRanges172(29, ip);
    } else if "172.30." <= ip {
      assert Prefix172(30) == "172.30.";
      InLocalRanges172(30, ip);
    } else {
      assert Prefix172(31) == "172.31.";
      InLocalRanges172(31, ip);
    }
  }

  /** Each of the sixteen "172.<k>." prefixes is one the classifier lists. */
  lemma Prefix172Local(k: nat, ip: string)
    requires 16 <= k <= 31 && Prefix172(k) <= ip
    ensures IsLocalhost(ip)
  {
    if k == 16 {
      assert Prefix172(k) == "172.16.";
    } else if k == 17 {
      assert Prefix172(k) == "172.17.";
    } else if k == 18 {
      assert Prefix172(k) == "172.18.";
    } else if k == 19 {
      assert Prefix172(k) == "172.19.";
    } else if k == 20 {
      assert Prefix172(k) == "172.20.";
    } else if k == 21 {
      assert Prefix172(k) == "172.21.";
    } else if k == 22 {
      assert Prefix172(k) == "172.22.";
    } else if k == 23 {
      assert Prefix172(k) == "172.23.";
    } else if k == 24 {
      assert Prefix172(k) == "172.24.";
    } else if k == 25 {
      assert Prefix172(k) == "172.25.";
    } else if k == 26 {
      assert Prefix172(k) == "172.26.";
    } else if k == 27 {
      assert Prefix172(k) == "172.27.";
    } else if k == 28 {
      assert Prefix172(k) == "172.28.";
    } else if k == 29 {
      assert Prefix172(k) == "172.29.";
    } else if k == 30 {
      assert Prefix172(k) == "172.30.";
    } else if k == 31 {
      assert Prefix172(k) == "172.31.";
    }
  }

  /** A prefix match is literal: "100." is not caught by "10.". */
  lemma Prefix100NotLocal(ip: string)
    requires "100." <= ip
    ensures !IsLocalhost(ip)
  {
    PrefixAt("100.", ip, 1);
    PrefixAt("100.", ip, 2);
  }

  /** What `ip.startsWith(p)` says about one character of `ip`. */
  lemma PrefixAt(p: string, ip: string, i: nat)
    requires p <= ip && i < |p|
    ensures i < |ip| && ip[i] == p[i]
  {
    assert ip[..|p|] == p;
  }

  /** Just outside the private 172 block on either side is not local. */
  lemma Prefix172Neighbours(ip: string)
    ensures Prefix172(15) <= ip ==> !IsLocalhost(ip)
    ensures Prefix172(32) <= ip ==> !IsLocalhost(ip)
  {
    assert Prefix172(15) == "172.15." && Prefix172(32) == "172.32.";
    if Prefix172(15) <= ip {
      PrefixAt("172.15.", ip, 0);
      PrefixAt("172.15.", ip, 1);
      PrefixAt("172.15.", ip, 4);
      PrefixAt("172.15.", ip, 5);
    }
    if Prefix172(32) <= ip {
      PrefixAt("172.32.", ip, 0);
      PrefixAt("172.32.", ip, 1);
      PrefixAt("172.32.", ip, 4);
      PrefixAt("172.32.", ip, 5);
    }
  }

  // ---------------------------------------------------------------------------
  // Properties of the fallback policy

  /** A local address never reaches the provider: whatever it would answer,
      the result is Zurich. */
  lemma LocalIgnoresProvider(ip: string, fetch1: string -> ProviderReply, fetch2: string -> ProviderReply)
    requires IsLocalhost(ip)
    ensures GetLocationFromIp(ip, fetch1) == GetLocationFromIp(ip, fetch2) == Zurich
  {
  }

  /** The lookup never fails: the result is Zurich or the provider's data. */
  lemma ProviderOrZurich(ip: string, fetch: string -> ProviderReply)
    ensures var loc := GetLocationFromIp(ip, fetch);
      loc == Zurich || (!IsLocalhost(ip) && FetchLocationFromProvider(fetch(ProviderUrl(ip))) == Success(loc))
  {
  }

  /** A successful reply is returned with its four fields unchanged. */
  lemma SuccessCopied(ip: string, fetch: string -> ProviderReply, body: ReplyBody)
    requires !IsLocalhost(ip)
    requires var reply := fetch(ProviderUrl(ip));
      reply.Response? && reply.ok && reply.body == Some(body) && body.status != "fail"
    ensures GetLocationFromIp(ip, fetch) == LocationData(body.lat, body.lon, body.city, body.timezone)
  {
  }

  /** A non-ok response, an unreadable body, a network error or a `"fail"`
      status all fall back to Zurich. */
  lemma FailureFallsBack(ip: string, fetch: string -> ProviderReply)
    requires var reply := fetch(ProviderUrl(ip));
      || reply.NetworkError?
      || !reply.ok
      || reply.body.None?
      || reply.body.value.status == "fail"
    ensures GetLocationFromIp(ip, fetch) == Zurich
  {
  }
}
