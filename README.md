# sungaze: colour ramp, IP location fallback and API URL resolution

A Dafny model of three small pieces of the sungaze apps that have exact,
checkable logic:

- **Colour utilities** of the mobile app (`apps/mobile/src/utils/color.ts`):
  the `#rrggbb` codec behind `hexToVec3` and `lerpColor` (`parseInt(_, 16)`,
  `toString(16)`, `padStart(2, "0")`), the per-channel linear interpolation
  rounded with `Math.round`, and `interpolateSunColor`, which clamps an
  altitude at an eight-stop table (-18, -6, 0, 12, 20, 30, 45, 60 degrees) and
  otherwise searches the table with a loop for the bracket that holds it.
  `interpolateSunColor` is a method with the source's `for` loop. The codec
  and the interpolation are functions.
- **IP location service** of the API (`apps/api/src/services/location.service.ts`):
  the `isLocalhost` classifier, the fixed Zurich record, and the policy that
  returns Zurich for local addresses and for every provider failure.
  The provider is a parameter `fetch: string -> ProviderReply`. It says what
  the network answers for a URL: a rejected fetch, a non-ok response, a body
  that does not parse, or a parsed body.
- **API endpoint configuration** of the mobile app (`apps/mobile/src/constants/config.ts`):
  the priority chain of `getApiBaseUrl` and the `/trpc` suffix of
  `API_TRPC_URL`. The environment variable, the app configuration value and
  `__DEV__` are parameters (`Option<string>`, `Option<string>`, `bool`).

Files: `wrappers.dfy` (Option, Result), `color.dfy` (module `Color`),
`location.dfy` (module `LocationService`), `config.dfy` (module `Config`).

Modelling choices:
- A channel is an integer in 0..255. `t` and the `hexToVec3` components are `real`.
- `Math.round(x)` is `Floor(x + 1/2)`, which matches it exactly on the reals.
- `parseInt(_, 16)` accepts digits of either case. The model reads only
  well-formed input: the six characters after the first must be hex digits.
  The first character is skipped, as `slice(1, 3)` skips it.
- `ip.startsWith(p)` is Dafny's sequence prefix test `p <= ip`.
- JavaScript truthiness of the URL settings is "present and not empty".

The doc comment of `getApiBaseUrl` says the result has no trailing slash.
The regular expression `/\/$/` removes only one slash, so a setting ending in
`//` still yields a URL ending in `/`. `Config.BaseUrlTrailingSlash` proves
that this is the only way the result can end in `/`.

## Model

| member | source | states |
|---|---|---|
| `Color.DigitChar` | apps/mobile/src/utils/color.ts:31 | the digit `toString(16)` writes is a lower-case hex digit whose value read back is the digit value |
| `Color.DigitValue` | apps/mobile/src/utils/color.ts:10-12 | `parseInt` reads a hex digit as a value below 16, below 10 exactly for the decimal digits |
| `Color.DigitCharOfValue` | apps/mobile/src/utils/color.ts:20-31 | reading a hex digit and writing its value back gives the same digit in lower case |
| `Color.ParseHex` | apps/mobile/src/utils/color.ts:10-12 | `parseInt(s, 16)` on n hex digits is below 16^n, so a two-digit slice is a channel 0..255 |
| `Color.ParsePair` | apps/mobile/src/utils/color.ts:20-25 | `parseInt` on two hex digits is 16 times the first digit plus the second |
| `Color.PadStart` | apps/mobile/src/utils/color.ts:31 | `padStart` yields max(width, length) characters: the input at the right end, the pad character before it |
| `Color.ParseToHexString` | apps/mobile/src/utils/color.ts:31 | `toString(16)` writes only hex digits, and `parseInt(_, 16)` reads the number back |
| `Color.ToHexString` | apps/mobile/src/utils/color.ts:31 | `toString(16)` writes at least one digit; `Color.ParseToHexString` proves the digits read back to the number |
| `Color.ChannelAt` | apps/mobile/src/utils/color.ts:20-25 | the slice at k, k+1 reads as 16 times the first digit plus the second |
| `Color.DecodeHex` | apps/mobile/src/utils/color.ts:20-25 | red, green and blue are read from characters 1-2, 3-4 and 5-6, each as 16 times the first digit plus the second |
| `Color.EncodeChannel` | apps/mobile/src/utils/color.ts:31 | `toString(16).padStart(2, "0")` of a channel is exactly its high and low hex digits |
| `Color.EncodeHex` | apps/mobile/src/utils/color.ts:31 | the encoded colour is `#` followed by exactly six lower-case hex digits |
| `Color.EncodeHexDigits` | apps/mobile/src/utils/color.ts:31 | the encoded colour is `#` and, per channel, the digit of its sixteens then the digit of its units |
| `Color.ChannelOfDigits` | apps/mobile/src/utils/color.ts:20-31 | reading back the two digits written for a channel gives the channel |
| `Color.Canonical` | apps/mobile/src/utils/color.ts:20-31 | the lower-case `#rrggbb` spelling of a hex colour is canonical |
| `Color.CanonicalOfCanonical` | apps/mobile/src/utils/color.ts:31 | a string already in canonical form is its own canonical spelling |
| `Color.DecodeEncode` | apps/mobile/src/utils/color.ts:20-31 | decoding the encoding of any channel triple gives back the same triple |
| `Color.EncodeChannelAt` | apps/mobile/src/utils/color.ts:20-31 | re-encoding a parsed channel gives its two digits in lower case |
| `Color.EncodeDecode` | apps/mobile/src/utils/color.ts:20-31 | encoding the triple decoded from a hex colour gives that colour in lower case |
| `Color.HexToVec3` | apps/mobile/src/utils/color.ts:9-14 | every component `hexToVec3` returns lies in [0, 1] |
| `Color.HexToVec3OfEncoded` | apps/mobile/src/utils/color.ts:9-14 | `hexToVec3` reads red, green and blue in that order, each as its channel divided by 255 |
| `Color.HexToVec3BlackWhite` | apps/mobile/src/utils/color.ts:10-12 | `#000000` gives [0, 0, 0] and `#ffffff` gives [1, 1, 1] |
| `Color.Round` | apps/mobile/src/utils/color.ts:27-29 | `Math.round(x)` is the integer within one half of x, halves going up |
| `Color.RoundBetween` | apps/mobile/src/utils/color.ts:27-29 | rounding a value between two integers stays between them |
| `Color.ScaleBetween` | apps/mobile/src/utils/color.ts:27-29 | scaling a difference by t in [0, 1] stays between 0 and that difference |
| `Color.LerpBetween` | apps/mobile/src/utils/color.ts:27-29 | `c1 + (c2 - c1) * t` for t in [0, 1] lies between the smaller and the larger channel |
| `Color.LerpChannel` | apps/mobile/src/utils/color.ts:27-29 | for t in [0, 1] the rounded channel lies between the two input channels; t = 0 gives the first and t = 1 the second |
| `Color.LerpColor` | apps/mobile/src/utils/color.ts:19-32 | `lerpColor` always returns `#` and six lower-case hex digits |
| `Color.LerpColorEndpoints` | apps/mobile/src/utils/color.ts:27-31 | `lerpColor(c1, c2, 0)` is c1 and `lerpColor(c1, c2, 1)` is c2, both in lower case |
| `Color.LerpCanonicalEndpoints` | apps/mobile/src/utils/color.ts:27-31 | between two lower-case colours, t = 0 gives the first unchanged and t = 1 the second |
| `Color.LerpColorBetween` | apps/mobile/src/utils/color.ts:27-31 | for t in [0, 1] each channel of the result lies between the corresponding channels of the inputs |
| `Color.RampTable` | apps/mobile/src/utils/color.ts:39-49 | eight breakpoints and eight colours; the breakpoints strictly increase; every colour is canonical |
| `Color.BreakpointsIncrease` | apps/mobile/src/utils/color.ts:39 | the eight breakpoints strictly increase |
| `Color.StopCanonical` | apps/mobile/src/utils/color.ts:40-49 | each of the eight stop colours is `#` and six lower-case hex digits |
| `Color.BracketFraction` | apps/mobile/src/utils/color.ts:57-58 | t lies in [0, 1], and is 0 at the bracket's lower breakpoint and 1 at its upper one |
| `Color.Brackets` | apps/mobile/src/utils/color.ts:56 | the loop test: the altitude lies between the breakpoints at i and i + 1, both included; its consequences are stated by `Color.BracketExists` and `Color.BracketsAgree` |
| `Color.BracketColor` | apps/mobile/src/utils/color.ts:55-60 | the colour interpolated in a bracket is `#` and six lower-case hex digits |
| `Color.BracketExists` | apps/mobile/src/utils/color.ts:55-63 | every altitude from one breakpoint up to below 60 lies in some later bracket, so the fallback return is unreachable |
| `Color.BreakpointColor` | apps/mobile/src/utils/color.ts:55-60 | two distinct brackets meet only at their shared breakpoint, where both give that stop's colour (t = 1 below, t = 0 above) |
| `Color.BracketsAgree` | apps/mobile/src/utils/color.ts:55-60 | any two brackets that hold an altitude give the same colour, so the ramp does not depend on which one the search picks |
| `Color.BracketColorUnique` | apps/mobile/src/utils/color.ts:55-60 | the colour of one bracket equals that of every bracket holding the altitude |
| `Color.BracketColorAtBreakpoint` | apps/mobile/src/utils/color.ts:55-60 | at a breakpoint the bracket colour is exactly the stop's stored colour |
| `Color.BracketColorAtLower` | apps/mobile/src/utils/color.ts:57-60 | at a bracket's lower breakpoint its colour is the lower stop's colour |
| `Color.BracketColorAtUpper` | apps/mobile/src/utils/color.ts:57-60 | at a bracket's upper breakpoint its colour is the upper stop's colour |
| `Color.BracketColorInside` | apps/mobile/src/utils/color.ts:55-60 | the colour of a bracket holding the altitude meets the whole ramp specification |
| `Color.RampBelow` | apps/mobile/src/utils/color.ts:51 | at or below -18 the ramp is `#1a1a2e` |
| `Color.RampAbove` | apps/mobile/src/utils/color.ts:52-53 | at or above 60 the ramp is `#fff8dc` |
| `Color.InterpolateSunColor` | apps/mobile/src/utils/color.ts:38-64 | the result is canonical; `#1a1a2e` at or below -18 and `#fff8dc` at or above 60; each stop's own colour at its breakpoint; otherwise the interpolation inside a bracket holding the altitude, equal to that of every such bracket |
| `LocationService.ProviderUrl` | apps/api/src/services/location.service.ts:27 | the provider URL is the prefix `http://ip-api.com/json/` followed by the IP unchanged |
| `LocationService.FailureMessage` | apps/api/src/services/location.service.ts:36-38 | the provider's message when it is present and non-empty, otherwise exactly "Unknown error" |
| `LocationService.FetchLocationFromProvider` | apps/api/src/services/location.service.ts:24-47 | succeeds exactly when the response is ok, the body parses and its status is not "fail", and then copies the four fields; a non-ok response fails with its status text |
| `LocationService.GetLocationFromIp` | apps/api/src/services/location.service.ts:54-107 | local address gives Zurich; otherwise the provider's data on success and Zurich on any failure |
| `LocationService.IsLocalhost` | apps/api/src/services/location.service.ts:56-77 | the classifier as written: three exact strings and eighteen literal prefixes; `LocationService.IsLocalhostRanges` proves it equal to the range description |
| `LocationService.LoopbackExamples` | apps/api/src/services/location.service.ts:57-59 | `127.0.0.1`, `::1`, `::ffff:127.0.0.1` are local; `127.0.0.2`, `::2`, `::ffff:127.0.0.2` are not |
| `LocationService.NotLocal` | apps/api/src/services/location.service.ts:56-77 | an address that is not a loopback spelling and starts neither with `19`, `10` nor `17` is not local |
| `LocationService.Decimal2` | apps/api/src/services/location.service.ts:62-77 | the spelling of a two-digit number is two decimal digits whose value is that number |
| `LocationService.Prefix172` | apps/api/src/services/location.service.ts:62-77 | "172.<k>." is "172.", the two decimal digits of k, and "." |
| `LocationService.IsLocalhostRanges` | apps/api/src/services/location.service.ts:56-77 | an address is local if and only if it is one of the three loopback strings or starts with `192.168.`, `10.` or `172.k.` for some k in 16..31 |
| `LocationService.InLocalRanges172` | apps/api/src/services/location.service.ts:62-77 | a `172.k.` prefix with k in 16..31 is in the local ranges |
| `LocationService.LocalInRanges` | apps/api/src/services/location.service.ts:56-77 | every address the classifier accepts is in the ranges |
| `LocationService.LowPrivate172InRanges` | apps/api/src/services/location.service.ts:62-69 | an address starting with `172.16.` to `172.23.` is in the ranges |
| `LocationService.HighPrivate172InRanges` | apps/api/src/services/location.service.ts:70-77 | an address starting with `172.24.` to `172.31.` is in the ranges |
| `LocationService.Prefix172Local` | apps/api/src/services/location.service.ts:62-77 | every address starting with `172.k.`, k in 16..31, is local |
| `LocationService.PrefixAt` | apps/api/src/services/location.service.ts:60-77 | `startsWith(p)` fixes each of the first |p| characters of the address |
| `LocationService.Prefix100NotLocal` | apps/api/src/services/location.service.ts:60-61 | an address starting with `100.` is not local: the `10.` test is a literal prefix match |
| `LocationService.Prefix172Neighbours` | apps/api/src/services/location.service.ts:62-77 | addresses starting with `172.15.` or `172.32.` are not local |
| `LocationService.LocalIgnoresProvider` | apps/api/src/services/location.service.ts:79-87 | for a local address the result is Zurich whatever the provider would answer |
| `LocationService.ProviderOrZurich` | apps/api/src/services/location.service.ts:89-106 | the lookup never fails: the result is Zurich, or the provider's successful data for a non-local address |
| `LocationService.SuccessCopied` | apps/api/src/services/location.service.ts:89-96 | a successful reply for a non-local address is returned with its four fields unchanged |
| `LocationService.FailureFallsBack` | apps/api/src/services/location.service.ts:97-106 | a rejected fetch, a non-ok response, an unreadable body or status "fail" yields Zurich |
| `Config.StripTrailingSlash` | apps/mobile/src/constants/config.ts:28 | the result is a prefix of the input; a final `/` alone is removed; any other input is unchanged |
| `Config.GetApiBaseUrl` | apps/mobile/src/constants/config.ts:24-43 | a truthy environment URL (stripped) wins; else a truthy config URL (stripped); else the development or production default |
| `Config.ApiTrpcUrl` | apps/mobile/src/constants/config.ts:54 | the tRPC URL is the base URL followed by `/trpc` |
| `Config.EnvUrlWins` | apps/mobile/src/constants/config.ts:26-29 | with a truthy environment URL the result ignores the config URL and the build flag and is a prefix of the environment URL |
| `Config.EmptyEnvUrlIgnored` | apps/mobile/src/constants/config.ts:26-35 | an empty environment URL behaves as an absent one |
| `Config.Defaults` | apps/mobile/src/constants/config.ts:38-42 | with neither URL set: `http://localhost:3001` in development, `https://api.sungaze.com` otherwise, and `https://api.sungaze.com/trpc` for tRPC |
| `Config.StripIdempotentUnlessDoubled` | apps/mobile/src/constants/config.ts:28 | stripping twice equals stripping once exactly when the input does not end in `//` |
| `Config.BaseUrlTrailingSlash` | apps/mobile/src/constants/config.ts:22-35 | the base URL ends in `/` only if the chosen setting ended in `//` |

## Left out

- Malformed hex input: `parseInt` returns NaN or stops at the first bad digit. The model requires well-formed digits instead.
- LerpColor: requires 0 <= t <= 1. Its only caller passes t in that range. Outside it a channel can fall below 0 or rise above 255, and `toString(16)` would then write a minus sign or three digits.
- NaN altitudes: `interpolateSunColor(NaN)` fails every comparison and reaches the fallback `return outputRange[0]`. Altitudes are reals here, so that path is unreachable.
- Floating point: `/ 255`, `t` and `Math.round` are exact real arithmetic here, so double rounding is not modelled.
- The network call, its logging and JSON decoding are abstract. `ProviderReply` says only which outcome occurred. A body whose fields are missing or mistyped (JavaScript `undefined`) is not modelled.
- The exact error strings are not modelled. `FetchError` names the reason and keeps the status text or message, but the `Error` strings are only logged.
- `API_BASE_URL` and `API_TRPC_URL` are evaluated once at module load. The model is a function of the environment values and does not capture that timing.
- A configuration value `extra.apiUrl` that is not a string is not modelled.
