/**
 * What the header rewrite promises, stated over `Rewritten`, the headers a
 * request carries when it reaches the next handler.
 */
module RewriteProperties {

  import opened Wrappers
  import opened GoText
  import opened GoNet
  import opened Providers
  import opened Classifier
  import opened ServeHttp

  /** The socket address `ServeHTTP` matches against the buckets is the one `trust` classified. */
  lemma SocketHostIsPeerHost(lib: GoLib, remote: string)
    requires lib.Valid() && PeerIP(lib, remote).Some?
    ensures ParseSocketIP(remote) == PeerHost(remote)
  {
  }

  /**
   * On both paths X-Forwarded-For and X-Real-IP are present, equal, and hold
   * an IP address: a forged inbound X-Forwarded-For never survives.
   */
  lemma ForwardedForIsRealIP(d: Disolver, lib: GoLib, remote: string, h: map<string, string>, tls: bool)
    requires lib.Valid() && !d.Trust(lib, remote).isError
    ensures var r := Rewritten(d, lib, remote, h, tls);
      && XForwardedFor in r && XRealIP in r
      && r[XForwardedFor] == r[XRealIP]
      && lib.parseIP(r[XRealIP]).Some?
  {
    HeaderNamesDistinct();
    var t := d.Trust(lib, remote);
    if t.trusted {
      var ip := ClientIP(d, lib, h - ForwardingHeaders, Matched(d, lib, remote), t.directIP);
      assert lib.parseIP(ip).Some?;
    }
  }

  /** A header the middleware neither writes, deletes nor reads an address from reaches the next handler as it came in. */
  lemma OtherHeadersPass(d: Disolver, lib: GoLib, remote: string, h: map<string, string>, tls: bool, k: string)
    requires lib.Valid() && !d.Trust(lib, remote).isError
    requires k !in OwnedHeaders
    ensures var r := Rewritten(d, lib, remote, h, tls);
      (k in r <==> k in h) && (k in h ==> r[k] == h[k])
  {
  }

  /**
   * An untrusted peer: the "no"/"unknown" markers, the peer's own canonical
   * address in X-Real-IP, the scheme of the connection, and the configured
   * mode's native headers gone.
   */
  lemma UntrustedRewrite(d: Disolver, lib: GoLib, remote: string, h: map<string, string>, tls: bool)
    requires lib.Valid() && !d.Trust(lib, remote).isError && !d.Trust(lib, remote).trusted
    ensures var r := Rewritten(d, lib, remote, h, tls);
      && r[XWarpTrusted] == "no" && r[XWarpProvider] == "unknown"
      && r[XRealIP] == lib.ipString(PeerIP(lib, remote).value)
      && r[XForwardedProto] == ProtoFallback(tls)
      && r.Keys !! NativeHeaders(d.provider)
  {
    HeaderNamesDistinct();
  }

  /** A trusted peer: the "yes" marker and the name of the network its socket address fell in. */
  lemma TrustedMarkers(d: Disolver, lib: GoLib, remote: string, h: map<string, string>, tls: bool)
    requires lib.Valid() && !d.Trust(lib, remote).isError && d.Trust(lib, remote).trusted
    ensures var r := Rewritten(d, lib, remote, h, tls);
      && r[XWarpTrusted] == "yes"
      && r[XWarpProvider] == ProviderMarker(Matched(d, lib, remote))
  {
    HeaderNamesDistinct();
  }

  /** The trusted path's address choice ignores a header other than the one the mode (or, in Auto mode, the match) names. */
  lemma ClientIPIgnores(d: Disolver, lib: GoLib, c: map<string, string>, m: Provider, directIP: string, k: string, v: string)
    requires d.Valid()
    requires k != ClientIPHeaderFor(if d.provider == Auto then m else d.provider)
    ensures ClientIP(d, lib, c[k := v], m, directIP) == ClientIP(d, lib, c, m, directIP)
  {
    var src := ClientIPSource(d, c, m);
    assert ClientIPSource(d, c[k := v], m) == src by {
      if d.provider == Auto {
        if m == Cloudflare {
          assert Lookup(c[k := v], CfConnectingIP) == Lookup(c, CfConnectingIP);
        } else if m == CloudFront {
          assert Lookup(c[k := v], CloudfrontViewerAddress) == Lookup(c, CloudfrontViewerAddress);
        }
      }
    }
    if src != "" {
      assert Lookup(c[k := v], src) == Lookup(c, src);
    }
  }

  /**
   * X-Real-IP depends on one inbound header at most: the configured mode's
   * header, or in Auto mode the header of the network the socket matched.
   * Changing any other header, including the other provider's, cannot change it.
   */
  lemma RealIPReadsOneHeader(d: Disolver, lib: GoLib, remote: string, h: map<string, string>, tls: bool, k: string, v: string)
    requires lib.Valid() && d.Valid() && !d.Trust(lib, remote).isError
    requires k != ClientIPHeaderFor(if d.provider == Auto then Matched(d, lib, remote) else d.provider)
    ensures Rewritten(d, lib, remote, h[k := v], tls)[XRealIP] == Rewritten(d, lib, remote, h, tls)[XRealIP]
  {
    var t := d.Trust(lib, remote);
    var m := Matched(d, lib, remote);
    var c := h - ForwardingHeaders;
    RealIPOfRewritten(d, lib, remote, h, tls);
    RealIPOfRewritten(d, lib, remote, h[k := v], tls);
    if k in ForwardingHeaders {
      assert h[k := v] - ForwardingHeaders == c;
    } else {
      assert h[k := v] - ForwardingHeaders == c[k := v];
      ClientIPIgnores(d, lib, c, m, t.directIP, k, v);
    }
  }

  /** X-Real-IP as the two paths set it. */
  lemma RealIPOfRewritten(d: Disolver, lib: GoLib, remote: string, h: map<string, string>, tls: bool)
    requires lib.Valid() && !d.Trust(lib, remote).isError
    ensures var t := d.Trust(lib, remote);
      Rewritten(d, lib, remote, h, tls)[XRealIP] ==
        if t.trusted then ClientIP(d, lib, h - ForwardingHeaders, Matched(d, lib, remote), t.directIP)
        else t.directIP
  {
    HeaderNamesDistinct();
  }

  /**
   * On the trusted path X-Real-IP is the address extracted from the chosen
   * header when that is a valid address, and the peer's canonical address otherwise.
   */
  lemma TrustedRealIP(d: Disolver, lib: GoLib, remote: string, h: map<string, string>, tls: bool)
    requires lib.Valid() && d.Valid() && !d.Trust(lib, remote).isError && d.Trust(lib, remote).trusted
    ensures var r := Rewritten(d, lib, remote, h, tls);
      var src := ClientIPSource(d, h, Matched(d, lib, remote));
      var extracted := if src == "" then "" else ExtractClientIP(lib, Lookup(h, src));
      r[XRealIP] == (if extracted != "" && lib.parseIP(extracted).Some? then extracted
                     else lib.ipString(PeerIP(lib, remote).value))
  {
    HeaderNamesDistinct();
    var m := Matched(d, lib, remote);
    var c := h - ForwardingHeaders;
    assert Lookup(c, CfConnectingIP) == Lookup(h, CfConnectingIP);
    assert Lookup(c, CloudfrontViewerAddress) == Lookup(h, CloudfrontViewerAddress);
    ClientIPReadsSources(d, lib, c, h, m, d.Trust(lib, remote).directIP);
  }

  /**
   * X-Forwarded-Proto is always "http" or "https". It differs from the
   * connection's own scheme only for a trusted peer in Cloudflare's range, in a
   * Cloudflare-capable mode, whose CF-Visitor decodes; undecodable CF-Visitor
   * JSON leaves the connection's scheme.
   */
  lemma ProtoRule(d: Disolver, lib: GoLib, remote: string, h: map<string, string>, tls: bool)
    requires lib.Valid() && !d.Trust(lib, remote).isError
    ensures var r := Rewritten(d, lib, remote, h, tls);
      && XForwardedProto in r && r[XForwardedProto] in {"http", "https"}
      && (lib.visitorScheme(Lookup(h, CfVisitor)).None? ==> r[XForwardedProto] == ProtoFallback(tls))
      && (r[XForwardedProto] != ProtoFallback(tls) ==>
            && d.Trust(lib, remote).trusted
            && (d.provider == Cloudflare || d.provider == Auto)
            && Matched(d, lib, remote) == Cloudflare)
  {
    HeaderNamesDistinct();
    var c := h - ForwardingHeaders;
    assert Lookup(c, CfVisitor) == Lookup(h, CfVisitor);
  }

  /**
   * A trusted peer in Cloudflare's range, in a Cloudflare-capable mode, whose
   * CF-Visitor decodes to a scheme that trims and lower-cases to "http" or
   * "https", is forwarded with that scheme, whatever the connection used.
   */
  lemma VisitorSchemeWins(d: Disolver, lib: GoLib, remote: string, h: map<string, string>, tls: bool, scheme: string)
    requires lib.Valid() && !d.Trust(lib, remote).isError && d.Trust(lib, remote).trusted
    requires d.provider == Cloudflare || d.provider == Auto
    requires Matched(d, lib, remote) == Cloudflare
    requires Lookup(h, CfVisitor) != "" && lib.visitorScheme(Lookup(h, CfVisitor)) == Some(scheme)
    requires ToLower(TrimSpace(scheme)) in {"http", "https"}
    ensures Rewritten(d, lib, remote, h, tls)[XForwardedProto] == ToLower(TrimSpace(scheme))
  {
    var c := h - ForwardingHeaders;
    assert Lookup(c, CfVisitor) == Lookup(h, CfVisitor);
    assert VisitorConsulted(d, c, Matched(d, lib, remote));
    ProtoOfRewritten(d, lib, remote, h, tls);
  }

  /** A CF-Visitor scheme of " HTTPS " is trimmed and lower-cased to https. */
  lemma VisitorSchemeNormalised(d: Disolver, lib: GoLib, remote: string, h: map<string, string>, tls: bool)
    requires lib.Valid() && !d.Trust(lib, remote).isError && d.Trust(lib, remote).trusted
    requires d.provider == Cloudflare || d.provider == Auto
    requires Matched(d, lib, remote) == Cloudflare
    requires Lookup(h, CfVisitor) != "" && lib.visitorScheme(Lookup(h, CfVisitor)) == Some(" HTTPS ")
    ensures Rewritten(d, lib, remote, h, tls)[XForwardedProto] == "https"
  {
    PaddedUpperHttps();
    VisitorSchemeWins(d, lib, remote, h, tls, " HTTPS ");
  }

  lemma PaddedUpperHttps()
    ensures ToLower(TrimSpace(" HTTPS ")) == "https"
  {
    assert TrimSpace(" HTTPS ") == "HTTPS";
  }

  /** A CF-Visitor naming "http" wins over a TLS connection: the request is forwarded as http. */
  lemma VisitorHttpOverTls(d: Disolver, lib: GoLib, remote: string, h: map<string, string>)
    requires lib.Valid() && !d.Trust(lib, remote).isError && d.Trust(lib, remote).trusted
    requires d.provider == Cloudflare || d.provider == Auto
    requires Matched(d, lib, remote) == Cloudflare
    requires Lookup(h, CfVisitor) != "" && lib.visitorScheme(Lookup(h, CfVisitor)) == Some("http")
    ensures Rewritten(d, lib, remote, h, true)[XForwardedProto] == "http"
  {
    PlainHttp();
    VisitorSchemeWins(d, lib, remote, h, true, "http");
  }

  lemma PlainHttp()
    ensures ToLower(TrimSpace("http")) == "http"
  {
    assert TrimSpace("http") == "http";
  }

  /** X-Forwarded-Proto as the two paths set it. */
  lemma ProtoOfRewritten(d: Disolver, lib: GoLib, remote: string, h: map<string, string>, tls: bool)
    requires lib.Valid() && !d.Trust(lib, remote).isError
    ensures Rewritten(d, lib, remote, h, tls)[XForwardedProto] ==
      if d.Trust(lib, remote).trusted
      then VisitorProto(d, lib, h - ForwardingHeaders, Matched(d, lib, remote)).GetOr(ProtoFallback(tls))
      else ProtoFallback(tls)
  {
    HeaderNamesDistinct();
  }

  /**
   * CF-Visitor is removed exactly when the trusted path consulted it or the
   * untrusted path strips Cloudflare's headers; otherwise it passes unchanged.
   */
  lemma VisitorHeaderRule(d: Disolver, lib: GoLib, remote: string, h: map<string, string>, tls: bool)
    requires lib.Valid() && !d.Trust(lib, remote).isError
    ensures var r := Rewritten(d, lib, remote, h, tls);
      var removed := (d.provider == Cloudflare || d.provider == Auto) &&
        (!d.Trust(lib, remote).trusted || (Matched(d, lib, remote) == Cloudflare && Lookup(h, CfVisitor) != ""));
      && (removed ==> CfVisitor !in r)
      && (!removed ==> (CfVisitor in r <==> CfVisitor in h) && (CfVisitor in h ==> r[CfVisitor] == h[CfVisitor]))
  {
    HeaderNamesDistinct();
    var c := h - ForwardingHeaders;
    assert Lookup(c, CfVisitor) == Lookup(h, CfVisitor);
  }

  /**
   * The network `ServeHTTP` matches agrees with the trust decision: in
   * Cloudflare mode and in Auto mode a peer is trusted exactly when it matched
   * (Cloudflare's range, or either range); in CloudFront mode a trusted peer
   * matched some range, and a peer that matched CloudFront's range is trusted.
   */
  lemma MatchedAgreesWithTrust(d: Disolver, lib: GoLib, remote: string)
    requires lib.Valid() && !d.Trust(lib, remote).isError
    ensures var t := d.Trust(lib, remote); var m := Matched(d, lib, remote);
      && (d.provider == Cloudflare ==> (t.trusted <==> m == Cloudflare))
      && (d.provider == Auto ==> (t.trusted <==> m != Unknown))
      && (d.provider == CloudFront ==> (t.trusted ==> m != Unknown) && (m == CloudFront ==> t.trusted))
  {
    SocketHostIsPeerHost(lib, remote);
  }

  /**
   * In CloudFront mode a trusted peer whose address is also in Cloudflare's
   * range is marked "cloudflare", while its client address is still read from
   * Cloudfront-Viewer-Address.
   */
  lemma CloudFrontModeMarksCloudflare(d: Disolver, lib: GoLib, remote: string, h: map<string, string>, tls: bool)
    requires lib.Valid() && d.Valid() && d.provider == CloudFront
    requires PeerIP(lib, remote).Some?
    requires d.Contains(lib, Cloudflare, PeerIP(lib, remote).value) && d.Contains(lib, CloudFront, PeerIP(lib, remote).value)
    ensures !d.Trust(lib, remote).isError && d.Trust(lib, remote).trusted
    ensures Rewritten(d, lib, remote, h, tls)[XWarpProvider] == "cloudflare"
    ensures ClientIPSource(d, h, Matched(d, lib, remote)) == CloudfrontViewerAddress
  {
    SocketHostIsPeerHost(lib, remote);
    TrustedMarkers(d, lib, remote, h, tls);
  }

  /**
   * In Auto mode an untrusted peer loses CF-Connecting-IP but its
   * Cloudfront-Viewer-Address reaches the next handler unchanged.
   */
  lemma AutoUntrustedKeepsViewerAddress(d: Disolver, lib: GoLib, remote: string, h: map<string, string>, tls: bool)
    requires lib.Valid() && d.provider == Auto && !d.Trust(lib, remote).isError && !d.Trust(lib, remote).trusted
    ensures var r := Rewritten(d, lib, remote, h, tls);
      && CfConnectingIP !in r
      && (CloudfrontViewerAddress in r <==> CloudfrontViewerAddress in h)
      && (CloudfrontViewerAddress in h ==> r[CloudfrontViewerAddress] == h[CloudfrontViewerAddress])
  {
    HeaderNamesDistinct();
  }

  /**
   * A trusted CloudFront peer whose Cloudfront-Viewer-Address is malformed is
   * still trusted, and its own address is forwarded instead.
   */
  lemma MalformedViewerAddressFallsBack(d: Disolver, lib: GoLib, remote: string, h: map<string, string>, tls: bool)
    requires lib.Valid() && d.Valid() && d.provider == CloudFront
    requires !d.Trust(lib, remote).isError && d.Trust(lib, remote).trusted
    requires CloudfrontViewerAddress in h && h[CloudfrontViewerAddress] == "not-an-ip:abc"
    ensures var r := Rewritten(d, lib, remote, h, tls);
      && r[XWarpTrusted] == "yes"
      && r[XRealIP] == lib.ipString(PeerIP(lib, remote).value)
    ensures !d.Contains(lib, Cloudflare, PeerIP(lib, remote).value) ==>
            Rewritten(d, lib, remote, h, tls)[XWarpProvider] == "cloudfront"
  {
    SocketHostIsPeerHost(lib, remote);
    ExtractMalformed(lib);
    TrustedMarkers(d, lib, remote, h, tls);
    TrustedRealIP(d, lib, remote, h, tls);
  }
}
