/**
 * The per-request header rewrite: clear the forwarding headers a client could
 * forge, mark the request trusted or not, work out which edge network the
 * socket matched, take the client address from that network's header when the
 * socket is trusted, and write X-Forwarded-For, X-Real-IP and X-Forwarded-Proto.
 */
module ServeHttp {

  import opened Wrappers
  import opened GoText
  import opened GoNet
  import opened Providers
  import opened Classifier

  const XForwardedFor: string := "X-Forwarded-For"
  const XRealIP: string := "X-Real-IP"
  const XForwardedProto: string := "X-Forwarded-Proto"
  const ForwardedHeader: string := "Forwarded"
  const XWarpTrusted: string := "X-Warp-Trusted"
  const XWarpProvider: string := "X-Warp-Provider"

  /** The inbound headers that are never trusted and always cleared first. */
  const ForwardingHeaders: set<string> := {XForwardedFor, XRealIP, XForwardedProto, ForwardedHeader}

  /** `Header.Get`: the value under `key`, or "" when there is none. */
  function Lookup(h: map<string, string>, key: string): string {
    if key in h then h[key] else ""
  }

  /** `http.Header`, one value per (canonical) name. */
  class Header {
    var entries: map<string, string>

    constructor (entries: map<string, string>)
      ensures this.entries == entries
    {
      this.entries := entries;
    }

    function Get(key: string): string
      reads this
    {
      Lookup(entries, key)
    }

    method Set(key: string, value: string)
      modifies this
      ensures entries == old(entries)[key := value]
    {
      entries := entries[key := value];
    }

    method Del(key: string)
      modifies this
      ensures entries == old(entries) - {key}
    {
      entries := entries - {key};
    }
  }

  /** The parts of `http.Request` the middleware uses: the socket peer, the TLS flag and the headers. */
  class Request {
    const remoteAddr: string
    const tls: bool
    const header: Header

    constructor (remoteAddr: string, tls: bool, header: Header)
      ensures this.remoteAddr == remoteAddr && this.tls == tls && this.header == header
    {
      this.remoteAddr := remoteAddr;
      this.tls := tls;
      this.header := header;
    }
  }

  /** How a request leaves the middleware: rejected with a status, or handed once to the next handler. */
  datatype Response = Error(status: int) | Next

  /** `cleanInboundForwardingHeaders`: remove exactly the four forwarding headers. */
  method CleanInboundForwardingHeaders(h: Header)
    modifies h
    ensures h.entries == old(h.entries) - ForwardingHeaders
  {
    h.Del(XForwardedFor);
    h.Del(XRealIP);
    h.Del(XForwardedProto);
    h.Del(ForwardedHeader);
  }

  /** `appendXFF`: nothing for an empty client; otherwise add it after any earlier hop. */
  method AppendXFF(h: Header, client: string)
    modifies h
    ensures client == "" ==> h.entries == old(h.entries)
    ensures client != "" ==> h.entries == old(h.entries)[XForwardedFor :=
      var prior := Lookup(old(h.entries), XForwardedFor);
      if prior != "" then prior + ", " + client else client]
  {
    if client == "" {
      return;
    }
    var prior := h.Get(XForwardedFor);
    if prior != "" {
      h.Set(XForwardedFor, prior + ", " + client);
    } else {
      h.Set(XForwardedFor, client);
    }
  }

  /** `parseSocketIP`: the `SplitHostPort` host when it is non-empty, else the whole address. */
  function ParseSocketIP(remoteAddr: string): (r: string)
    ensures IsSubstring(r, remoteAddr)
    ensures r == "" <==> remoteAddr == ""
  {
    match SplitHostPort(remoteAddr)
    case Some(hp) =>
      if hp.host != "" then
        HostIsSubstring(remoteAddr);
        hp.host
      else
        SliceIsSubstring(remoteAddr, 0, |remoteAddr|);
        remoteAddr
    case None =>
      SliceIsSubstring(remoteAddr, 0, |remoteAddr|);
      remoteAddr
  }

  lemma SliceIsSubstring(s: string, i: int, j: int)
    requires 0 <= i <= j <= |s|
    ensures IsSubstring(s[i..j], s)
  {
  }

  lemma HostIsSubstring(s: string)
    requires SplitHostPort(s).Some?
    ensures IsSubstring(SplitHostPort(s).value.host, s)
  {
    var hp := SplitHostPort(s).value;
    SplitHostPortParts(s);
    if s == hp.host + ":" + hp.port && ':' !in hp.host {
      assert s[0..|hp.host|] == hp.host;
      SliceIsSubstring(s, 0, |hp.host|);
    } else {
      assert s[1..1 + |hp.host|] == hp.host;
      SliceIsSubstring(s, 1, 1 + |hp.host|);
    }
  }

  /**
   * `extractClientIP`: normalise a client-address header value. In order: empty
   * after trimming gives ""; a host:port gives the host; a bracketed address
   * is unwrapped; a value that is itself an address is kept whole; a trailing
   * `:digits` is dropped when what precedes it is an address; anything else gives "".
   */
  function ExtractClientIP(lib: GoLib, raw: string): string {
    var s := TrimSpace(raw);
    if s == "" then ""
    else
      var split := SplitHostPort(s);
      if split.Some? && split.value.host != "" then split.value.host
      else if |s| >= 2 && s[0] == '[' && s[|s| - 1] == ']' then s[1..|s| - 1]
      else if lib.parseIP(s).Some? then s
      else
        var i := LastIndexOf(s, ':');
        if i > 0 && Atoi(s[i + 1..]).Some? && lib.parseIP(s[..i]).Some? then s[..i]
        else ""
  }

  /** A non-empty result of `extractClientIP` is a piece of the trimmed header value. */
  lemma ExtractIsSubstring(lib: GoLib, raw: string)
    ensures ExtractClientIP(lib, raw) == "" || IsSubstring(ExtractClientIP(lib, raw), TrimSpace(raw))
  {
    var s := TrimSpace(raw);
    var r := ExtractClientIP(lib, raw);
    if s == "" || r == "" {
    } else if SplitHostPort(s).Some? && SplitHostPort(s).value.host != "" {
      HostIsSubstring(s);
    } else if |s| >= 2 && s[0] == '[' && s[|s| - 1] == ']' {
      SliceIsSubstring(s, 1, |s| - 1);
    } else if lib.parseIP(s).Some? {
      SliceIsSubstring(s, 0, |s|);
      assert s[0..|s|] == s;
    } else {
      var i := LastIndexOf(s, ':');
      SliceIsSubstring(s, 0, i);
      assert s[0..i] == s[..i];
    }
  }

  /** A string with no white space at either end is its own trim. */
  lemma TrimmedAlready(s: string)
    requires s != [] && !IsSpace(s[0]) && !IsSpace(s[|s| - 1])
    ensures TrimSpace(s) == s
  {
  }

  /** A value that (after trimming) is an address literal is kept whole. */
  lemma ExtractKeepsAddress(lib: GoLib, raw: string)
    requires lib.Valid() && lib.parseIP(TrimSpace(raw)).Some?
    ensures ExtractClientIP(lib, raw) == TrimSpace(raw)
  {
    var s := TrimSpace(raw);
    AddressLiteralShape(lib, s);
    ColonsBeforeLast(s);
    assert SplitHostPort(s).None?;
  }

  /** `host:port`, as `net.JoinHostPort` writes it, gives back the address for a numeric port. */
  lemma ExtractStripsPort(lib: GoLib, host: string, port: string)
    requires lib.Valid() && lib.parseIP(host).Some? && AllDigits(port)
    ensures ExtractClientIP(lib, JoinHostPort(host, port)) == host
  {
    AddressLiteralShape(lib, host);
    assert ':' !in port && '[' !in port && ']' !in port;
    JoinedIsTrimmed(host, port);
    SplitJoinRoundTrip(host, port);
    ExtractOfSplit(lib, JoinHostPort(host, port));
  }

  lemma JoinedIsTrimmed(host: string, port: string)
    requires host != "" && !IsSpace(host[0]) && AllDigits(port)
    ensures TrimSpace(JoinHostPort(host, port)) == JoinHostPort(host, port)
  {
    var s := JoinHostPort(host, port);
    assert s[0] == '[' || s[0] == host[0];
    assert s[|s| - 1] == ':' || s[|s| - 1] == port[|port| - 1];
    TrimmedAlready(s);
  }

  /** A trimmed value that splits with a non-empty host gives that host. */
  lemma ExtractOfSplit(lib: GoLib, s: string)
    requires TrimSpace(s) == s && SplitHostPort(s).Some? && SplitHostPort(s).value.host != ""
    ensures ExtractClientIP(lib, s) == SplitHostPort(s).value.host
  {
  }

  /** A bracketed address without a port is unwrapped. */
  lemma ExtractUnwrapsBrackets(lib: GoLib, a: string)
    requires lib.Valid() && lib.parseIP(a).Some?
    ensures ExtractClientIP(lib, "[" + a + "]") == a
  {
    var s := "[" + a + "]";
    AddressLiteralShape(lib, a);
    TrimmedAlready(s);
    assert forall k | 0 <= k < |s| - 1 :: s[k] != ']';
    IndexIsUnique(s, ']', |s| - 1);
    assert SplitHostPort(s).None?;
    assert s[1..|s| - 1] == a;
  }

  /** A malformed viewer address such as "not-an-ip:abc" splits, but its host is not an address. */
  lemma ExtractMalformed(lib: GoLib)
    requires lib.Valid()
    ensures ExtractClientIP(lib, "not-an-ip:abc") == "not-an-ip"
    ensures lib.parseIP("not-an-ip").None?
  {
    assert !IPLiteralChar("not-an-ip"[0]);
    TrimmedAlready("not-an-ip:abc");
    SplitJoinPlain("not-an-ip", "abc");
    assert "not-an-ip" + ":" + "abc" == "not-an-ip:abc";
  }

  /**
   * The defensive last step, for a value that `net.SplitHostPort` refuses
   * because the part before the last colon holds another colon, and that is
   * not itself an address: the part after the last colon is dropped when
   * `strconv.Atoi` accepts it and the part before it is an address;
   * otherwise the value is rejected with "".
   */
  lemma ExtractTrailingColonRule(lib: GoLib, raw: string, host: string, suffix: string)
    requires lib.Valid() && host != "" && host[0] != '[' && ':' in host && ':' !in suffix
    requires TrimSpace(raw) == host + ":" + suffix && lib.parseIP(TrimSpace(raw)).None?
    ensures ExtractClientIP(lib, raw) ==
      if Atoi(suffix).Some? && lib.parseIP(host).Some? then host else ""
  {
    TrailingPortLayout(host, suffix);
  }

  /** An address followed by a port `strconv.Atoi` accepts (signed or not) gives back the address. */
  lemma ExtractStripsTrailingPort(lib: GoLib, raw: string, host: string, port: string)
    requires lib.Valid() && lib.parseIP(host).Some? && ':' in host
    requires ':' !in port && Atoi(port).Some?
    requires TrimSpace(raw) == host + ":" + port && lib.parseIP(TrimSpace(raw)).None?
    ensures ExtractClientIP(lib, raw) == host
  {
    AddressLiteralShape(lib, host);
    ExtractTrailingColonRule(lib, raw, host, port);
  }

  /** A suffix `strconv.Atoi` refuses, or a part before it that is no address, gives "". */
  lemma ExtractRejectsTrailingSuffix(lib: GoLib, raw: string, host: string, suffix: string)
    requires lib.Valid() && host != "" && host[0] != '[' && ':' in host && ':' !in suffix
    requires Atoi(suffix).None? || lib.parseIP(host).None?
    requires TrimSpace(raw) == host + ":" + suffix && lib.parseIP(TrimSpace(raw)).None?
    ensures ExtractClientIP(lib, raw) == ""
  {
    ExtractTrailingColonRule(lib, raw, host, suffix);
  }

  /** "2001:db8::1:zz" is rejected: its last part is not a number. */
  lemma ExtractRejectsNonNumericPort(lib: GoLib)
    requires lib.Valid()
    ensures ExtractClientIP(lib, "2001:db8::1:zz") == ""
  {
    var s := "2001:db8::1:zz";
    assert !IPLiteralChar(s[|s| - 1]);
    TrimmedAlready(s);
    assert !IsDigit("zz"[0]);
    assert "2001:db8::1"[4] == ':';
    assert "2001:db8::1" + ":" + "zz" == s;
    ExtractRejectsTrailingSuffix(lib, s, "2001:db8::1", "zz");
  }

  lemma TrailingPortLayout(host: string, suffix: string)
    requires host != "" && host[0] != '[' && ':' in host && ':' !in suffix
    ensures var s := host + ":" + suffix;
      && s[0] != '[' && SplitHostPort(s).None?
      && LastIndexOf(s, ':') == |host| && s[..|host|] == host && s[|host| + 1..] == suffix
  {
    var s := host + ":" + suffix;
    assert forall k | |host| < k < |s| :: s[k] == suffix[k - |host| - 1];
    LastIndexIsUnique(s, ':', |host|);
    assert s[..|host|] == host;
  }

  /** `ipInProvider`: the string is an address and lies in some network of bucket `p`. */
  method IpInProvider(d: Disolver, lib: GoLib, p: Provider, ipStr: string) returns (found: bool)
    ensures found <==> lib.parseIP(ipStr).Some? && d.Contains(lib, p, lib.parseIP(ipStr).value)
  {
    var ip := lib.parseIP(ipStr);
    if ip.None? {
      return false;
    }
    var nets := d.Bucket(p);
    for i := 0 to |nets|
      invariant forall j | 0 <= j < i :: !lib.netContains(nets[j], ip.value)
    {
      if lib.netContains(nets[i], ip.value) {
        return true;
      }
    }
    return false;
  }

  /** The edge network the socket address falls in, Cloudflare tested first. */
  function Matched(d: Disolver, lib: GoLib, remoteAddr: string): (m: Provider)
    reads d
    ensures m == Cloudflare || m == CloudFront || m == Unknown
    ensures m != Unknown <==>
            (lib.parseIP(ParseSocketIP(remoteAddr)).Some? &&
             (d.Contains(lib, Cloudflare, lib.parseIP(ParseSocketIP(remoteAddr)).value) ||
              d.Contains(lib, CloudFront, lib.parseIP(ParseSocketIP(remoteAddr)).value)))
    ensures m != Unknown ==> d.Contains(lib, m, lib.parseIP(ParseSocketIP(remoteAddr)).value)
  {
    var ip := lib.parseIP(ParseSocketIP(remoteAddr));
    if ip.Some? && d.Contains(lib, Cloudflare, ip.value) then Cloudflare
    else if ip.Some? && d.Contains(lib, CloudFront, ip.value) then CloudFront
    else Unknown
  }

  /** The value of the X-Warp-Provider marker for a matched network. */
  function ProviderMarker(m: Provider): (marker: string)
    ensures marker in {"cloudflare", "cloudfront", "unknown"}
    ensures marker == "cloudflare" <==> m == Cloudflare
    ensures marker == "cloudfront" <==> m == CloudFront
  {
    match m
    case Cloudflare => "cloudflare"
    case CloudFront => "cloudfront"
    case _ => "unknown"
  }

  /** X-Forwarded-Proto when neither CF-Visitor nor anything else sets it. */
  function ProtoFallback(tls: bool): (scheme: string)
    ensures scheme in {"http", "https"}
    ensures scheme == "https" <==> tls
  {
    if tls then "https" else "http"
  }

  /** CF-Visitor is consulted: a Cloudflare-capable mode, the socket in Cloudflare's range, a non-empty value. */
  predicate VisitorConsulted(d: Disolver, h: map<string, string>, m: Provider)
    reads d
  {
    (d.provider == Cloudflare || d.provider == Auto) && m == Cloudflare && Lookup(h, CfVisitor) != ""
  }

  /** The scheme CF-Visitor supplies, when it is consulted, decodes, and names http or https. */
  function VisitorProto(d: Disolver, lib: GoLib, h: map<string, string>, m: Provider): (r: Option<string>)
    reads d
    ensures r.Some? ==> VisitorConsulted(d, h, m) && r.value in {"http", "https"}
    ensures r.Some? ==> lib.visitorScheme(Lookup(h, CfVisitor)).Some?
    ensures r.Some? ==> r.value == ToLower(TrimSpace(lib.visitorScheme(Lookup(h, CfVisitor)).value))
    ensures (VisitorConsulted(d, h, m) && lib.visitorScheme(Lookup(h, CfVisitor)).Some? &&
             ToLower(TrimSpace(lib.visitorScheme(Lookup(h, CfVisitor)).value)) in {"http", "https"}) ==>
            r.Some?
  {
    if VisitorConsulted(d, h, m) then
      match lib.visitorScheme(Lookup(h, CfVisitor))
      case None => None
      case Some(scheme) =>
        var s := ToLower(TrimSpace(scheme));
        if s == "http" || s == "https" then Some(s) else None
    else None
  }

  /**
   * The header the trusted path may take the client address from ("" for none);
   * the specification of the method `ClientIPHeader`.
   */
  function ClientIPSource(d: Disolver, h: map<string, string>, m: Provider): string
    reads d
  {
    if d.provider == Auto then
      if m == Cloudflare && Lookup(h, CfConnectingIP) != "" then CfConnectingIP
      else if m == CloudFront && Lookup(h, CloudfrontViewerAddress) != "" then CloudfrontViewerAddress
      else ""
    else d.clientIPHeaderName
  }

  /**
   * The client address on the trusted path: the header's address when it is valid, else the peer's;
   * the specification of the method `ChooseClientIP`.
   */
  function ClientIP(d: Disolver, lib: GoLib, h: map<string, string>, m: Provider, directIP: string): string
    reads d
  {
    var src := ClientIPSource(d, h, m);
    var c := if src != "" then ExtractClientIP(lib, Lookup(h, src)) else "";
    if c != "" && lib.parseIP(c).Some? then c else directIP
  }

  /** Provider-native headers the untrusted path deletes unread, per configured mode. */
  function NativeHeaders(p: Provider): set<string> {
    if p == Cloudflare || p == Auto then {CfVisitor, CfConnectingIP}
    else if p == CloudFront then {CloudfrontViewerAddress}
    else {}
  }

  /** The header names the middleware handles are pairwise different. */
  lemma HeaderNamesDistinct()
    ensures XForwardedFor != XRealIP && XForwardedFor != XForwardedProto && XRealIP != XForwardedProto
    ensures XWarpTrusted != XWarpProvider
    ensures XWarpTrusted !in ForwardingHeaders && XWarpProvider !in ForwardingHeaders
    ensures CfVisitor !in ForwardingHeaders && CfConnectingIP !in ForwardingHeaders
    ensures CloudfrontViewerAddress !in ForwardingHeaders
    ensures CfVisitor != XWarpTrusted && CfVisitor != XWarpProvider
    ensures CfConnectingIP != XWarpTrusted && CfConnectingIP != XWarpProvider && CfConnectingIP != CfVisitor
    ensures CloudfrontViewerAddress != XWarpTrusted && CloudfrontViewerAddress != XWarpProvider
    ensures CloudfrontViewerAddress != CfVisitor && CloudfrontViewerAddress != CfConnectingIP
  {
    assert XForwardedFor[2] != XWarpProvider[2];
    assert XRealIP[0] != ForwardedHeader[0];
  }

  /** Every header the middleware may write, delete or read a client address from. */
  const OwnedHeaders: set<string> :=
    ForwardingHeaders + {XWarpTrusted, XWarpProvider, CfVisitor, CfConnectingIP, CloudfrontViewerAddress}

  /**
   * The trusted path on cleaned headers `c`: the "yes" marker and the matched
   * network's name, CF-Visitor consumed when it is consulted, the scheme, and
   * the client address in both X-Forwarded-For and X-Real-IP.
   */
  function TrustedHeaders(d: Disolver, lib: GoLib, c: map<string, string>, m: Provider, directIP: string, tls: bool)
    : map<string, string>
    reads d
  {
    var kept := if VisitorConsulted(d, c, m) then c - {CfVisitor} else c;
    var ip := ClientIP(d, lib, c, m, directIP);
    kept[XWarpTrusted := "yes"][XWarpProvider := ProviderMarker(m)]
      [XForwardedProto := VisitorProto(d, lib, c, m).GetOr(ProtoFallback(tls))]
      [XForwardedFor := ip][XRealIP := ip]
  }

  /**
   * The untrusted path on cleaned headers `c`: the "no"/"unknown" markers, the
   * configured mode's native headers dropped, the peer address in both
   * forwarding headers and the scheme from the connection.
   */
  function UntrustedHeaders(p: Provider, c: map<string, string>, directIP: string, tls: bool): map<string, string> {
    (c - NativeHeaders(p))[XWarpTrusted := "no"][XWarpProvider := "unknown"]
      [XForwardedFor := directIP][XRealIP := directIP][XForwardedProto := ProtoFallback(tls)]
  }

  /**
   * The headers handed to the next handler, given the inbound headers `h` of a
   * request whose peer address is well-formed.
   */
  function Rewritten(d: Disolver, lib: GoLib, remoteAddr: string, h: map<string, string>, tls: bool)
    : map<string, string>
    requires lib.Valid()
    requires !d.Trust(lib, remoteAddr).isError
    reads d
  {
    var t := d.Trust(lib, remoteAddr);
    var cleaned := h - ForwardingHeaders;
    if t.trusted then TrustedHeaders(d, lib, cleaned, Matched(d, lib, remoteAddr), t.directIP, tls)
    else UntrustedHeaders(d.provider, cleaned, t.directIP, tls)
  }

  /** The headers CF-Visitor handling leaves: the scheme it supplies, and CF-Visitor itself gone, when consulted. */
  function AfterVisitor(d: Disolver, lib: GoLib, e: map<string, string>, m: Provider): map<string, string>
    reads d
  {
    if VisitorConsulted(d, e, m) then
      var vp := VisitorProto(d, lib, e, m);
      (if vp.Some? then e[XForwardedProto := vp.value] else e) - {CfVisitor}
    else e
  }

  /** CF-Visitor handling touches only X-Forwarded-Proto and CF-Visitor. */
  lemma AfterVisitorKeeps(d: Disolver, lib: GoLib, e: map<string, string>, m: Provider, k: string)
    requires k != CfVisitor && k != XForwardedProto
    ensures Lookup(AfterVisitor(d, lib, e, m), k) == Lookup(e, k)
  {
  }

  /** After CF-Visitor handling, X-Forwarded-Proto holds the scheme it supplied, if any. */
  lemma AfterVisitorProto(d: Disolver, lib: GoLib, e: map<string, string>, m: Provider)
    ensures Lookup(AfterVisitor(d, lib, e, m), XForwardedProto) ==
      match VisitorProto(d, lib, e, m)
      case Some(s) => s
      case None => Lookup(e, XForwardedProto)
  {
    HeaderNamesDistinct();
  }

  /** CF-Visitor handling on the trusted path. */
  method ApplyVisitor(d: Disolver, lib: GoLib, hdr: Header, m: Provider)
    modifies hdr
    ensures hdr.entries == AfterVisitor(d, lib, old(hdr.entries), m)
  {
    if d.provider == Cloudflare || d.provider == Auto {
      if m == Cloudflare {
        var v := hdr.Get(CfVisitor);
        if v != "" {
          match lib.visitorScheme(v) {
            case Some(scheme) =>
              var s := ToLower(TrimSpace(scheme));
              if s == "http" || s == "https" {
                hdr.Set(XForwardedProto, s);
              }
            case None =>
          }
          hdr.Del(CfVisitor);
        }
      }
    }
  }

  /** The header to read the client address from, chosen as the trusted path does. */
  method ClientIPHeader(d: Disolver, hdr: Header, m: Provider) returns (name: string)
    requires d.Valid()
    ensures name == ClientIPSource(d, hdr.entries, m)
    ensures name in {"", CfConnectingIP, CloudfrontViewerAddress}
  {
    name := "";
    if d.provider == Auto {
      if m == Cloudflare && hdr.Get(CfConnectingIP) != "" {
        name := CfConnectingIP;
      } else if m == CloudFront && hdr.Get(CloudfrontViewerAddress) != "" {
        name := CloudfrontViewerAddress;
      }
    } else {
      name := d.clientIPHeaderName;
    }
  }

  /** The client-address choice on the trusted path, reading the current headers. */
  method ChooseClientIP(d: Disolver, lib: GoLib, hdr: Header, m: Provider, directIP: string) returns (clientIP: string)
    requires d.Valid()
    ensures clientIP == ClientIP(d, lib, hdr.entries, m, directIP)
  {
    var name := ClientIPHeader(d, hdr, m);
    clientIP := "";
    if name != "" {
      clientIP := ExtractClientIP(lib, hdr.Get(name));
      if lib.parseIP(clientIP).None? {
        clientIP := "";
      }
    }
    if clientIP == "" {
      clientIP := directIP;
    }
  }

  /** The trusted path's address choice reads only the two client-address headers. */
  lemma ClientIPReadsSources(d: Disolver, lib: GoLib, e: map<string, string>, e': map<string, string>, m: Provider, directIP: string)
    requires d.Valid()
    requires Lookup(e, CfConnectingIP) == Lookup(e', CfConnectingIP)
    requires Lookup(e, CloudfrontViewerAddress) == Lookup(e', CloudfrontViewerAddress)
    ensures ClientIP(d, lib, e, m, directIP) == ClientIP(d, lib, e', m, directIP)
  {
    var src := ClientIPSource(d, e, m);
    assert src == ClientIPSource(d, e', m);
    if src != "" {
      assert src == CfConnectingIP || src == CloudfrontViewerAddress;
      assert Lookup(e, src) == Lookup(e', src);
    }
  }

  /** Removing keys commutes with setting three other keys. */
  lemma RemoveAfterSet3(m: map<string, string>, a: string, x: string, b: string, y: string, c: string, z: string, k: string)
    requires a != k && b != k && c != k
    ensures m[a := x][b := y][c := z] - {k} == (m - {k})[a := x][b := y][c := z]
  {
  }

  /** The last step of the trusted path: the scheme fallback, then the client address in both forwarding headers. */
  method SetForwarding(hdr: Header, clientIP: string, tls: bool)
    requires clientIP != "" && Lookup(hdr.entries, XForwardedFor) == ""
    modifies hdr
    ensures hdr.entries ==
      (if Lookup(old(hdr.entries), XForwardedProto) == "" then old(hdr.entries)[XForwardedProto := ProtoFallback(tls)]
       else old(hdr.entries))[XForwardedFor := clientIP][XRealIP := clientIP]
  {
    HeaderNamesDistinct();
    if hdr.Get(XForwardedProto) == "" {
      hdr.Set(XForwardedProto, ProtoFallback(tls));
    }
    AppendXFF(hdr, clientIP);
    hdr.Set(XRealIP, clientIP);
  }

  /** The steps of the trusted path, applied in the order `ServeHTTP` takes them, give `TrustedHeaders`. */
  lemma TrustedStepsCompose(d: Disolver, lib: GoLib, c: map<string, string>, m: Provider, directIP: string, tls: bool)
    requires d.Valid() && directIP != ""
    requires c.Keys !! ForwardingHeaders
    ensures var e1 := AfterVisitor(d, lib, c[XWarpTrusted := "yes"][XWarpProvider := ProviderMarker(m)], m);
      var ip := ClientIP(d, lib, e1, m, directIP);
      && ip != "" && Lookup(e1, XForwardedFor) == ""
      && (if Lookup(e1, XForwardedProto) == "" then e1[XForwardedProto := ProtoFallback(tls)] else e1)
           [XForwardedFor := ip][XRealIP := ip]
         == TrustedHeaders(d, lib, c, m, directIP, tls)
  {
    var consulted := VisitorConsulted(d, c, m);
    var vp := VisitorProto(d, lib, c, m);
    var kept := if consulted then c - {CfVisitor} else c;
    var marked := c[XWarpTrusted := "yes"][XWarpProvider := ProviderMarker(m)];
    var e1 := AfterVisitor(d, lib, marked, m);
    VisitorOnMarked(d, lib, c, m);
    ClientIPReadsSources(d, lib, e1, c, m, directIP);
    HeaderNamesDistinct();
    var e2 := if Lookup(e1, XForwardedProto) == "" then e1[XForwardedProto := ProtoFallback(tls)] else e1;
    assert e2 == kept[XWarpTrusted := "yes"][XWarpProvider := ProviderMarker(m)]
      [XForwardedProto := vp.GetOr(ProtoFallback(tls))] by {
      if consulted {
        RemoveAfterSet3(c, XWarpTrusted, "yes", XWarpProvider, ProviderMarker(m),
          XForwardedProto, vp.GetOr(ProtoFallback(tls)), CfVisitor);
      }
    }
  }

  /** Whether and what CF-Visitor supplies depends on no other header. */
  lemma VisitorReadsOnlyCfVisitor(d: Disolver, lib: GoLib, e: map<string, string>, e': map<string, string>, m: Provider)
    requires Lookup(e, CfVisitor) == Lookup(e', CfVisitor)
    ensures VisitorConsulted(d, e, m) == VisitorConsulted(d, e', m)
    ensures VisitorProto(d, lib, e, m) == VisitorProto(d, lib, e', m)
  {
  }

  /** CF-Visitor handling after the trust markers are set sees what it would have seen before them. */
  lemma VisitorOnMarked(d: Disolver, lib: GoLib, c: map<string, string>, m: Provider)
    requires c.Keys !! ForwardingHeaders
    ensures var marked := c[XWarpTrusted := "yes"][XWarpProvider := ProviderMarker(m)];
      var e1 := AfterVisitor(d, lib, marked, m);
      var vp := VisitorProto(d, lib, c, m);
      && e1 == (if VisitorConsulted(d, c, m) then
                  (if vp.Some? then marked[XForwardedProto := vp.value] else marked) - {CfVisitor}
                else marked)
      && Lookup(e1, CfConnectingIP) == Lookup(c, CfConnectingIP)
      && Lookup(e1, CloudfrontViewerAddress) == Lookup(c, CloudfrontViewerAddress)
      && Lookup(e1, XForwardedFor) == ""
      && Lookup(e1, XForwardedProto) == (if vp.Some? then vp.value else "")
  {
    HeaderNamesDistinct();
    var marked := c[XWarpTrusted := "yes"][XWarpProvider := ProviderMarker(m)];
    VisitorReadsOnlyCfVisitor(d, lib, marked, c, m);
    AfterVisitorKeeps(d, lib, marked, m, CfConnectingIP);
    AfterVisitorKeeps(d, lib, marked, m, CloudfrontViewerAddress);
    AfterVisitorKeeps(d, lib, marked, m, XForwardedFor);
    AfterVisitorProto(d, lib, marked, m);
  }

  /** The trusted branch of `ServeHTTP`, on headers already cleaned. */
  method ServeTrusted(d: Disolver, lib: GoLib, hdr: Header, m: Provider, directIP: string, tls: bool)
    requires d.Valid() && directIP != ""
    requires hdr.entries.Keys !! ForwardingHeaders
    modifies hdr
    ensures hdr.entries == TrustedHeaders(d, lib, old(hdr.entries), m, directIP, tls)
  {
    TrustedStepsCompose(d, lib, hdr.entries, m, directIP, tls);
    hdr.Set(XWarpTrusted, "yes");
    hdr.Set(XWarpProvider, ProviderMarker(m));
    ApplyVisitor(d, lib, hdr, m);
    var clientIP := ChooseClientIP(d, lib, hdr, m, directIP);
    SetForwarding(hdr, clientIP, tls);
  }

  /** Removing keys commutes with setting two other keys. */
  lemma RemoveAfterSet(m: map<string, string>, a: string, x: string, b: string, y: string, ks: set<string>)
    requires a !in ks && b !in ks
    ensures m[a := x][b := y] - ks == (m - ks)[a := x][b := y]
  {
  }

  /** The untrusted branch of `ServeHTTP`, on headers already cleaned. */
  method ServeUntrusted(p: Provider, hdr: Header, directIP: string, socketIP: string, tls: bool)
    requires directIP != ""
    requires hdr.entries.Keys !! ForwardingHeaders
    modifies hdr
    ensures hdr.entries == UntrustedHeaders(p, old(hdr.entries), directIP, tls)
  {
    ghost var c := hdr.entries;
    HeaderNamesDistinct();
    hdr.Set(XWarpTrusted, "no");
    hdr.Set(XWarpProvider, "unknown");
    if p == Cloudflare || p == Auto {
      hdr.Del(CfVisitor);
      hdr.Del(CfConnectingIP);
      assert hdr.entries == c[XWarpTrusted := "no"][XWarpProvider := "unknown"] - {CfVisitor, CfConnectingIP};
    } else if p == CloudFront {
      hdr.Del(CloudfrontViewerAddress);
    }
    assert hdr.entries == c[XWarpTrusted := "no"][XWarpProvider := "unknown"] - NativeHeaders(p);
    RemoveAfterSet(c, XWarpTrusted, "no", XWarpProvider, "unknown", NativeHeaders(p));
    ghost var e := (c - NativeHeaders(p))[XWarpTrusted := "no"][XWarpProvider := "unknown"];
    assert hdr.entries == e;
    assert Lookup(e, XForwardedFor) == "";
    var useIP := directIP;
    if useIP == "" {
      useIP := socketIP;
    }
    AppendXFF(hdr, useIP);
    hdr.Set(XRealIP, useIP);
    assert hdr.entries == e[XForwardedFor := directIP][XRealIP := directIP];
    assert Lookup(hdr.entries, XForwardedProto) == "";
    if hdr.Get(XForwardedProto) == "" {
      hdr.Set(XForwardedProto, ProtoFallback(tls));
    }
  }

  /**
   * `ServeHTTP`: a peer address that is not an IP literal is rejected with 400
   * and the headers are left alone; every other request has its headers
   * rewritten and goes to the next handler exactly once.
   */
  method ServeHTTP(d: Disolver, lib: GoLib, req: Request) returns (resp: Response)
    requires lib.Valid() && d.Valid()
    modifies req.header
    ensures resp == (if d.Trust(lib, req.remoteAddr).isError then Error(400) else Next)
    ensures resp.Error? ==> req.header.entries == old(req.header.entries)
    ensures resp.Next? ==> req.header.entries == Rewritten(d, lib, req.remoteAddr, old(req.header.entries), req.tls)
  {
    var t := d.Trust(lib, req.remoteAddr);
    if t.isFatal {
      return Error(500);
    }
    if t.isError {
      return Error(400);
    }
    if t.directIP == "" {
      return Error(422);
    }
    CleanInboundForwardingHeaders(req.header);

    var socketIP := ParseSocketIP(req.remoteAddr);
    var matched := Unknown;
    var inCloudflare := IpInProvider(d, lib, Cloudflare, socketIP);
    if inCloudflare {
      matched := Cloudflare;
    } else {
      var inCloudFront := IpInProvider(d, lib, CloudFront, socketIP);
      if inCloudFront {
        matched := CloudFront;
      }
    }
    assert matched == Matched(d, lib, req.remoteAddr);

    if t.trusted {
      ServeTrusted(d, lib, req.header, matched, t.directIP, req.tls);
    } else {
      ServeUntrusted(d.provider, req.header, t.directIP, socketIP, req.tls);
    }
    resp := Next;
  }
}
