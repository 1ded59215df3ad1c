# traefik-warp in Dafny

traefik-warp is a Traefik middleware plugin. It sits behind Cloudflare and/or
Amazon CloudFront and decides, from the socket peer address alone, whether a
request really came through one of those edge networks. Only then does it
believe the edge's client-address header (`CF-Connecting-IP` or
`Cloudfront-Viewer-Address`). It always removes the forwarding headers a
client could forge, and it writes `X-Forwarded-For`, `X-Real-IP`,
`X-Forwarded-Proto` and the `X-Warp-Trusted` / `X-Warp-Provider` markers
before handing the request on.

This project models that core and proves properties of the model:

- `Classifier` (disolver.dfy): the `Disolver` state (mode, per-provider CIDR
  registry, client-address header name, operator additions), bucket
  membership, bucket counts and the `trust` decision.
- `ServeHttp` (serve_http.dfy):
  - the per-request rewrite (`ServeHTTP` and its steps) as imperative code on
    a mutable `Header` object;
  - proved against `Rewritten`, a function giving the headers the next
    handler receives;
  - the helpers `cleanInboundForwardingHeaders`, `appendXFF`,
    `parseSocketIP`, `extractClientIP` and `ipInProvider`.
- `RewriteProperties` (rewrite_properties.dfy): what `Rewritten` guarantees:
  - anti-spoofing;
  - which header X-Real-IP may come from;
  - the scheme rule;
  - CF-Visitor handling;
  - how the matched network relates to the trust decision.
- `Construct` (new.dfy): `New` and `refreshOnce`. These build the registry
  from the published ranges plus the operator's additions.
- `PluginConfig` (config.dfy): `Config` and `CreateConfig`.
- `Providers` (providers.dfy): the provider identity and the
  provider-native header names.
- `GoText`, `GoNet` (gotext.dfy, gonet.dfy): the Go standard-library pieces
  the code relies on:
  - `strings.TrimSpace`, `LastIndexByte`, `strconv.Atoi` and
    `net.SplitHostPort` are written out;
  - `net.ParseIP`, `IP.String`, `net.ParseCIDR`, `IPNet.Contains`, the
    CF-Visitor JSON decoding and `time.ParseDuration` are fields of a
    `GoLib` value;
  - `GoLib.Valid()` states the few facts the proofs use: "" is not an
    address; an address literal uses only hex digits, `.` and `:`, and never
    exactly one colon; the canonical text of an address parses back to it;
    "12h" is twelve hours.

Behaviour worth noting (the model follows the code):

- In Auto mode, the untrusted path deletes only `CF-Visitor` and
  `CF-Connecting-IP`. An untrusted peer's `Cloudfront-Viewer-Address`
  reaches the next handler unchanged (`AutoUntrustedKeepsViewerAddress`).
- On the untrusted path, X-Real-IP and X-Forwarded-For carry the canonical
  text of the parsed peer address (`ip.String()`), not the raw socket host.
- In CloudFront mode, a trusted peer whose address is also in Cloudflare's
  bucket is marked `cloudflare`. Its client address is still read from
  `Cloudfront-Viewer-Address` (`CloudFrontModeMarksCloudflare`).

## Model

| member | source | states |
|---|---|---|
| PluginConfig.CreateConfig | config.go:15-23 | the defaults: Auto mode, no operator additions, auto-refresh on, every "12h", no debug logging |
| Providers.ParseProvider | new.go:24-27 | a provider string is accepted only as one of the three configurable names, and maps back to that name |
| Providers.ParseProviderName | new.go:24-27 | each configurable provider's own name is accepted and yields that provider |
| Providers.ClientIPHeaderFor | new.go:37-42 | a single-provider mode has a client-address header (CF-Connecting-IP or Cloudfront-Viewer-Address); Auto has none |
| Classifier.AnyContains | disolver.go:48-53 | the membership loop finds a network containing the address exactly when one exists |
| Classifier.Disolver.Contains | disolver.go:44-54 | membership in bucket `p` holds iff the bucket exists and one of its networks contains the address; an absent bucket contains nothing |
| Classifier.Disolver.Trust | disolver.go:58-83 | never fatal; an error exactly when the peer host is not an IP literal, and then untrusted with no address; otherwise the canonical, re-parsable, non-empty text of the address |
| Classifier.Disolver.Counts | disolver.go:10-16 | each count is zero exactly when that provider's bucket is absent or empty |
| Classifier.EmptyCountTrustsNobody | disolver.go:10-16 | in a single-provider mode, a zero count for the mode's own bucket means no peer is trusted |
| Classifier.CoversConcat | disolver.go:77-79 | membership in a concatenation of buckets is membership in either |
| Classifier.ContainsIsCovers | disolver.go:44-54 | the bucket test agrees with "some network in the bucket contains the address" |
| Classifier.AutoTrustIsUnion | disolver.go:77-80 | Auto mode trusts a peer iff the union of the Cloudflare and CloudFront buckets covers it |
| Classifier.SingleModeTrustsItsBucket | disolver.go:69-76 | a single-provider mode trusts a peer iff its own bucket covers it |
| Classifier.SingleModeIgnoresOtherBucket | disolver.go:69-76 | in a single-provider mode, the other bucket never influences the decision |
| Classifier.UnknownModeTrustsNobody | disolver.go:68-82 | a mode outside the switch trusts no peer |
| ServeHttp.CleanInboundForwardingHeaders | serve_http.go:18-23 | exactly X-Forwarded-For, X-Real-IP, X-Forwarded-Proto and Forwarded are removed; everything else is kept |
| ServeHttp.AppendXFF | serve_http.go:26-35 | an empty client changes nothing; otherwise the client is appended after any prior hop with ", ", or set alone |
| ServeHttp.ParseSocketIP | serve_http.go:38-45 | the result is a piece of the socket address, and empty only for an empty address |
| ServeHttp.ExtractIsSubstring | serve_http.go:48-82 | a non-empty result of extractClientIP is a piece of the trimmed header value, never invented text |
| ServeHttp.ExtractKeepsAddress | serve_http.go:49-67 | a value that is an address literal after trimming is returned whole; neither the host:port split nor the bracket rule fires on it |
| ServeHttp.ExtractStripsPort | serve_http.go:54-57 | `host:port` or `[host]:port` with a numeric port gives back the address |
| ServeHttp.ExtractUnwrapsBrackets | serve_http.go:60-62 | a bracketed address with no port is unwrapped |
| ServeHttp.ExtractTrailingColonRule | serve_http.go:69-81 | for a value the host:port split refuses (a colon before the last one) and that is not itself an address: the part before the last colon when `Atoi` accepts the rest and that part is an address, otherwise "" |
| ServeHttp.ExtractStripsTrailingPort | serve_http.go:69-79 | such an address followed by a port that `Atoi` accepts, signed or unsigned, gives back the address |
| ServeHttp.ExtractRejectsTrailingSuffix | serve_http.go:69-81 | such a value whose last part `Atoi` refuses, or whose part before the last colon is no address, gives "", so the peer's own address is used |
| ServeHttp.ExtractRejectsNonNumericPort | serve_http.go:69-81 | "2001:db8::1:zz" gives "" |
| ServeHttp.ExtractMalformed | serve_http.go:54-57 | a malformed value such as "not-an-ip:abc" splits into a host that is not an address |
| ServeHttp.IpInProvider | serve_http.go:85-96 | true iff the string parses as an address and bucket `p` contains it |
| ServeHttp.Matched | serve_http.go:117-124 | the matched network is Cloudflare, CloudFront or unknown; it is known iff the socket host parses and one of the two buckets contains it, and a known match's bucket contains it |
| ServeHttp.ProviderMarker | serve_http.go:129-136 | the X-Warp-Provider value is "cloudflare" exactly for a Cloudflare match, "cloudfront" exactly for a CloudFront match, and "unknown" otherwise |
| ServeHttp.ProtoFallback | serve_http.go:188-195 | the fallback scheme is "http" or "https", and "https" exactly when the connection uses TLS |
| ServeHttp.VisitorProto | serve_http.go:139-157 | CF-Visitor supplies a scheme iff it is consulted (Cloudflare-capable mode, socket in Cloudflare's range, non-empty header), decodes, and its scheme trimmed and lower-cased is "http" or "https"; the supplied scheme is that trimmed, lower-cased text |
| ServeHttp.AfterVisitorKeeps | serve_http.go:139-157 | CF-Visitor handling touches no header other than X-Forwarded-Proto and CF-Visitor |
| ServeHttp.AfterVisitorProto | serve_http.go:145-150 | after CF-Visitor handling, X-Forwarded-Proto is the supplied scheme, or unchanged |
| ServeHttp.ApplyVisitor | serve_http.go:139-157 | the CF-Visitor step leaves the headers `AfterVisitor` describes |
| ServeHttp.ClientIPHeader | serve_http.go:160-173 | the header chosen is CF-Connecting-IP, Cloudfront-Viewer-Address or none; Auto binds it to the matched network and requires a non-empty value |
| ServeHttp.ChooseClientIP | serve_http.go:175-186 | the client address is the address extracted from the chosen header when it parses, else the fallback `directIP` |
| ServeHttp.ClientIPReadsSources | serve_http.go:160-186 | the client-address choice reads no header except CF-Connecting-IP and Cloudfront-Viewer-Address |
| ServeHttp.SetForwarding | serve_http.go:188-199 | the scheme fallback only fills an empty X-Forwarded-Proto, then the client address goes into both X-Forwarded-For and X-Real-IP |
| ServeHttp.TrustedStepsCompose | serve_http.go:126-199 | the trusted steps, in the code's order, produce `TrustedHeaders` |
| ServeHttp.VisitorOnMarked | serve_http.go:128-157 | setting the trust markers first does not change what CF-Visitor handling does |
| ServeHttp.ServeTrusted | serve_http.go:126-199 | the trusted branch turns cleaned headers into `TrustedHeaders` |
| ServeHttp.ServeUntrusted | serve_http.go:201-231 | the untrusted branch turns cleaned headers into `UntrustedHeaders`: markers no/unknown, the mode's native headers gone, the peer address forwarded, the connection's scheme |
| ServeHttp.ServeHTTP | serve_http.go:98-235 | an unparsable peer gets 400 with headers untouched; every other request reaches the next handler with exactly the `Rewritten` headers |
| RewriteProperties.SocketHostIsPeerHost | serve_http.go:118 | the socket host matched against the buckets is the host `trust` classified |
| RewriteProperties.ForwardedForIsRealIP | serve_http.go:197-199 | X-Forwarded-For and X-Real-IP are both present, equal, and a valid address, so a forged inbound X-Forwarded-For never survives |
| RewriteProperties.OtherHeadersPass | serve_http.go:114-231 | a header the middleware does not own reaches the next handler unchanged, present or absent |
| RewriteProperties.UntrustedRewrite | serve_http.go:201-231 | untrusted: markers "no"/"unknown", X-Real-IP is the peer's canonical address, the connection's scheme, and the configured mode's native headers removed |
| RewriteProperties.TrustedMarkers | serve_http.go:128-136 | trusted: marker "yes" and the matched network's name |
| RewriteProperties.ClientIPIgnores | serve_http.go:160-186 | changing a header other than the one the mode, or in Auto the match, names cannot change the client address |
| RewriteProperties.RealIPReadsOneHeader | serve_http.go:159-186 | X-Real-IP depends on at most one inbound header; in Auto mode the other provider's header is ignored |
| RewriteProperties.RealIPOfRewritten | serve_http.go:175-221 | X-Real-IP is the chosen client address when trusted, and the peer address when not |
| RewriteProperties.TrustedRealIP | serve_http.go:175-186 | trusted: X-Real-IP is the address extracted from the chosen header when it parses, else the peer's canonical address |
| RewriteProperties.ProtoRule | serve_http.go:139-195 | X-Forwarded-Proto is always http or https; undecodable CF-Visitor keeps the connection's scheme; only a trusted Cloudflare-range peer in a Cloudflare-capable mode can change it |
| RewriteProperties.VisitorSchemeWins | serve_http.go:142-150 | a trusted Cloudflare peer whose CF-Visitor scheme normalises to http or https is forwarded with that normalised scheme, whatever the connection |
| RewriteProperties.VisitorSchemeNormalised | serve_http.go:146-149 | a CF-Visitor scheme " HTTPS " is trimmed and lower-cased, and the request is forwarded as https |
| RewriteProperties.VisitorHttpOverTls | serve_http.go:142-150 | a CF-Visitor scheme "http" wins over a TLS connection: the request is forwarded as http |
| RewriteProperties.ProtoOfRewritten | serve_http.go:188-195 | X-Forwarded-Proto is the CF-Visitor scheme when one is supplied, else the connection's |
| RewriteProperties.VisitorHeaderRule | serve_http.go:142-153 | CF-Visitor is removed exactly when it was consulted, or on the untrusted path of a Cloudflare-capable mode; otherwise it passes unchanged |
| RewriteProperties.MatchedAgreesWithTrust | serve_http.go:117-124 | Cloudflare and Auto modes trust a peer iff it matched (Cloudflare's range; either range); in CloudFront mode a trusted peer matched some range |
| RewriteProperties.CloudFrontModeMarksCloudflare | serve_http.go:120-136 | CloudFront mode, peer in both buckets: trusted, marked "cloudflare", client address still read from Cloudfront-Viewer-Address |
| RewriteProperties.AutoUntrustedKeepsViewerAddress | serve_http.go:207-213 | Auto mode, untrusted: CF-Connecting-IP removed, Cloudfront-Viewer-Address kept unchanged |
| RewriteProperties.MalformedViewerAddressFallsBack | serve_http_table_test.go:126-140 | CloudFront mode, trusted, viewer address "not-an-ip:abc": still trusted, the peer's own address is forwarded, and a peer outside Cloudflare's range is marked "cloudfront" |
| Construct.ParsedEntry | new.go:111-120 | one configured CIDR string contributes at most one network |
| Construct.ParsedNets | new.go:110-122 | the `add` closure appends at most one network per entry |
| Construct.ParsedNetsConcat | new.go:101-106 | parsing defaults followed by additions is parsing each part, in that order |
| Construct.ParsedNetsMembers | new.go:110-122 | a network is registered iff some entry is non-empty after trimming and parses to it; blank and unparsable entries are skipped |
| Construct.AppendedTwice | new.go:120 | appending to a bucket twice is appending the concatenation |
| Construct.RegistryBuckets | new.go:108-129 | a bucket is present iff it has an accepted entry, and then holds exactly those networks in order |
| Construct.Add | new.go:110-122 | the loop appends to bucket `p` exactly the accepted networks, and creates the bucket only when there is one |
| Construct.GatherSources | new.go:89-106 | each bucket's sources are the defaults its mode fetches, followed by the operator's additions under the provider's name |
| Construct.RefreshOnce | new.go:87-137 | never fails; the registry is replaced by the one built from the sources; mode, additions and header name are unchanged |
| Construct.ConfiguredProvider | new.go:17-27 | an empty provider is "no provider"; any other name outside the three is "invalid"; an accepted name maps back to itself |
| Construct.RefreshInterval | new.go:53-59 | a refresh period exists iff auto-refresh is on, is always positive, is the configured duration whenever that parses and is positive, and otherwise 12h |
| Construct.New | new.go:16-62 | rejects an empty or invalid provider; otherwise a fresh middleware with that mode, its header name (`Valid`), the operator's additions kept, the first registry, and the refresh period |
| Construct.RegistryBucket | new.go:100-129 | a network is in bucket `p` iff some accepted entry among that bucket's sources parses to it |
| Construct.UserAdditionRegistered | new.go:100-106 | an accepted operator addition is registered under its provider in every mode |
| Construct.SingleModeOtherBucketIsUserOnly | new.go:90-98 | in a single-provider mode the other bucket holds only the operator's additions, and is absent without them |
| Construct.DefaultsPrecedeAdditions | new.go:95-102 | in any mode that fetches a provider's published ranges, that provider's bucket is those ranges followed by the operator's additions for it |
| Construct.CountsAfterRefresh | disolver.go:10-16 | after a refresh the counts are the numbers of accepted entries, and at most the numbers of sources |
| Construct.DefaultConfiguration | config.go:15-23 | the default configuration is accepted as Auto mode and refreshes every 12 hours |
| Construct.NamedProviderAccepted | new.go:24-27 | every configurable provider name is accepted as that provider |
| GoText.TrimSpaceIsInfix | serve_http.go:49 | `TrimSpace` removes only leading and trailing white space |
| GoText.TrimSpaceIsSubstring | new.go:112 | the trimmed string is a piece of the input |
| GoText.ToLowerAt | serve_http.go:146 | `ToLower` keeps the length and lower-cases each ASCII capital in place, leaving every other character unchanged |
| GoText.LastIndexOf | serve_http.go:70 | the last position of the character, or -1 when there is none |
| GoText.Atoi | serve_http.go:73 | a successful conversion is a non-empty digit string, or a sign followed by a non-empty digit string, with a value in the int64 range |
| GoText.AtoiDigits | serve_http.go:73 | every digit string whose value fits in int64 converts to that value |
| GoText.AtoiSigned | serve_http.go:73 | a sign followed by digits converts to the signed value whenever it fits in int64 |
| GoNet.SplitHostPortParts | serve_http.go:39 | a successful `SplitHostPort` is `host:port` or `[host]:port`, with no colon in the port and no brackets in either part |
| GoNet.SplitJoinRoundTrip | serve_http.go:55 | splitting a joined host and port gives them back |
| GoNet.ColonsBeforeLast | serve_http.go:70-71 | a string with no colon has no last colon, and one with two or more has a colon before its last one |

## Left out

- Fetching the published Cloudflare and CloudFront ranges over the network
  (the provider packages). The fetched lists are the parameters
  `fetchedCf` / `fetchedCfn`. The providers' own fallback lists are not part
  of this model.
- `refreshLoop`: the timer, the jitter from the clock, context cancellation
  and the goroutine. `New` returns, as `refreshEvery`, the period it would
  start the loop with.
- The `sync.RWMutex` locking and concurrency. The model assumes that no
  refresh lands while a request is being served. The code does not guarantee
  this: one request reads the registry several times, once per `contains`
  call in `trust` (disolver.go:44-47, at most twice in Auto mode) and again, with no
  lock, in `ipInProvider` (serve_http.go:90, called at :120 and :122). A
  refresh swapped in between (new.go:132-134) can make the trust decision
  and the matched network disagree. RewriteProperties.MatchedAgreesWithTrust,
  and the lemmas that use the matched network together with the trust
  decision, hold only under this assumption.
- Logging and the debug switch (logger.go). Those calls have no effect on
  the headers or the registry.
- The `next` handler and the response writer. `ServeHTTP` returns a
  `Response`: `Error(status)`, or `Next` for the single hand-off.
- Go's `net.ParseIP`, `IP.String`, `net.ParseCIDR`, `IPNet.Contains`,
  `json.Unmarshal` and `time.ParseDuration` internals. They are the
  functions of a `GoLib` value; only the facts in `GoLib.Valid()` are
  assumed about them.
- Header canonicalisation and multi-valued headers. A header map holds one
  value per exact name.
- GoText.ToLower: restricted to ASCII letters, because only those can
  lower-case into "http" or "https".
- Go strings are byte sequences; the model's strings are sequences of
  Unicode scalar values. Header values that are not valid UTF-8 are outside
  the model.
- providers.go (the `Provider` type's `String` and `Validate`) is not part
  of this model. Validation is taken to accept exactly "cloudflare",
  "cloudfront" and "auto".
- The 500 branch (`isFatal`) and the 422 branch (empty `directIP`) of
  `ServeHTTP`. Both are modelled, and both are proved unreachable: `trust`
  never sets `isFatal`, and never returns an empty address without an error.
  For the same reason the `useIP = socketIP` fallback on the untrusted path
  never runs.
- ServeHttp.ExtractClientIP: its behaviour is stated by the lemmas about it
  (pieces of the input, kept addresses, stripped ports, unwrapped brackets,
  the trailing-colon rule in both directions), not by an `ensures` on the
  function or a complete characterisation of every input. A contract on the
  function itself makes the proof of `ExtractIsSubstring` too costly for the
  verifier.
- ServeHttp.ChooseClientIP: states the chosen address as `ClientIP`. That
  the chosen address always parses is proved for the rewritten headers
  (`ForwardedForIsRealIP`) rather than on the method.
