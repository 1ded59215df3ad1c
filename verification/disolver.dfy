/**
 * The middleware's state and its trust decision: the per-provider CIDR
 * registry, the membership test over one bucket, the bucket sizes, and the
 * classification of a socket peer address.
 */
module Classifier {

  import opened Wrappers
  import opened GoNet
  import opened Providers

  /** `TrustResult`: `isFatal` is never set by the classifier; it is kept for the rejection it guards. */
  datatype TrustResult = TrustResult(isFatal: bool, isError: bool, trusted: bool, directIP: string)

  /**
   * The loop in `contains`: does some network of `nets` contain `ip`? Through
   * `Disolver.Contains`, also the specification of the loop in `ServeHttp.IpInProvider`.
   */
  function AnyContains(lib: GoLib, nets: seq<IPNet>, ip: IP): (found: bool)
    ensures found <==> exists i | 0 <= i < |nets| :: lib.netContains(nets[i], ip)
  {
    if nets == [] then false
    else if lib.netContains(nets[0], ip) then true
    else
      var rest := AnyContains(lib, nets[1..], ip);
      assert forall i | 1 <= i < |nets| :: nets[i] == nets[1..][i - 1];
      rest
  }

  /** The host the classifier tests: the `SplitHostPort` host, or the whole address if it does not split. */
  function PeerHost(remote: string): string {
    match SplitHostPort(remote)
    case Some(hp) => hp.host
    case None => remote
  }

  /** The parsed peer address, if the peer host is an IP literal. */
  function PeerIP(lib: GoLib, remote: string): Option<IP> {
    lib.parseIP(PeerHost(remote))
  }

  /** `Disolver`: the configured mode, the CIDR registry, the client-address header and the operator overrides. */
  class Disolver {
    const name: string
    var provider: Provider
    var trustIP: map<Provider, seq<IPNet>>
    var clientIPHeaderName: string
    var userTrust: map<string, seq<string>>

    /** The header name always belongs to the configured mode (as `New` sets it). */
    ghost predicate Valid()
      reads this
    {
      clientIPHeaderName == ClientIPHeaderFor(provider)
    }

    /** The struct literal in `New`: an empty registry and no header name yet. */
    constructor (name: string, provider: Provider, userTrust: map<string, seq<string>>)
      ensures this.name == name && this.provider == provider && this.userTrust == userTrust
      ensures trustIP == map[] && clientIPHeaderName == ""
    {
      this.name := name;
      this.provider := provider;
      this.trustIP := map[];
      this.clientIPHeaderName := "";
      this.userTrust := userTrust;
    }

    /** `TrustIP[p]`: an absent bucket reads as empty. */
    function Bucket(p: Provider): seq<IPNet>
      reads this
    {
      if p in trustIP then trustIP[p] else []
    }

    /** `contains`: some network registered for `p` contains `ip`; an absent bucket contains nothing. */
    function Contains(lib: GoLib, p: Provider, ip: IP): (found: bool)
      reads this
      ensures found <==> p in trustIP && exists i | 0 <= i < |trustIP[p]| :: lib.netContains(trustIP[p][i], ip)
    {
      p in trustIP && AnyContains(lib, trustIP[p], ip)
    }

    /** `counts`: the sizes of the Cloudflare and CloudFront buckets. */
    function Counts(): (c: (nat, nat))
      reads this
      ensures c.0 == 0 <==> Cloudflare !in trustIP || trustIP[Cloudflare] == []
      ensures c.1 == 0 <==> CloudFront !in trustIP || trustIP[CloudFront] == []
    {
      (|Bucket(Cloudflare)|, |Bucket(CloudFront)|)
    }

    /**
     * `trust`: classify the socket peer. A peer host that is not an IP literal
     * is an error with no address; otherwise the result carries the canonical
     * text of the address, and trust is decided by the configured mode alone.
     */
    function Trust(lib: GoLib, remote: string): (r: TrustResult)
      requires lib.Valid()
      reads this
      ensures !r.isFatal
      ensures r.isError <==> PeerIP(lib, remote).None?
      ensures r.isError ==> !r.trusted && r.directIP == ""
      ensures !r.isError ==> r.directIP == lib.ipString(PeerIP(lib, remote).value)
      ensures !r.isError ==> r.directIP != "" && lib.parseIP(r.directIP) == PeerIP(lib, remote)
    {
      match lib.parseIP(PeerHost(remote))
      case None => TrustResult(false, true, false, "")
      case Some(ip) =>
        CanonicalTextIsAddress(lib, PeerHost(remote));
        var direct := lib.ipString(ip);
        match provider
        case Cloudflare => TrustResult(false, false, Contains(lib, Cloudflare, ip), direct)
        case CloudFront => TrustResult(false, false, Contains(lib, CloudFront, ip), direct)
        case Auto =>
          TrustResult(false, false, Contains(lib, Cloudflare, ip) || Contains(lib, CloudFront, ip), direct)
        case Unknown => TrustResult(false, false, false, direct)
    }
  }

  /** Some network among `nets` contains `ip`. */
  ghost predicate Covers(lib: GoLib, nets: seq<IPNet>, ip: IP) {
    exists n | n in nets :: lib.netContains(n, ip)
  }

  lemma CoversConcat(lib: GoLib, a: seq<IPNet>, b: seq<IPNet>, ip: IP)
    ensures Covers(lib, a + b, ip) <==> Covers(lib, a, ip) || Covers(lib, b, ip)
  {
    if Covers(lib, a + b, ip) {
      var n :| n in a + b && lib.netContains(n, ip);
      assert n in a || n in b;
    }
    if Covers(lib, a, ip) {
      var n :| n in a && lib.netContains(n, ip);
      assert n in a + b;
    }
    if Covers(lib, b, ip) {
      var n :| n in b && lib.netContains(n, ip);
      assert n in a + b;
    }
  }

  lemma ContainsIsCovers(d: Disolver, lib: GoLib, p: Provider, ip: IP)
    ensures d.Contains(lib, p, ip) <==> Covers(lib, d.Bucket(p), ip)
  {
    if Covers(lib, d.Bucket(p), ip) {
      var n :| n in d.Bucket(p) && lib.netContains(n, ip);
      var i :| 0 <= i < |d.Bucket(p)| && d.Bucket(p)[i] == n;
    }
  }

  /** Auto mode trusts the union of the two buckets: a peer in either range is trusted, and only such a peer. */
  lemma AutoTrustIsUnion(d: Disolver, lib: GoLib, remote: string)
    requires lib.Valid() && d.provider == Auto && PeerIP(lib, remote).Some?
    ensures d.Trust(lib, remote).trusted <==>
      Covers(lib, d.Bucket(Cloudflare) + d.Bucket(CloudFront), PeerIP(lib, remote).value)
  {
    var ip := PeerIP(lib, remote).value;
    ContainsIsCovers(d, lib, Cloudflare, ip);
    ContainsIsCovers(d, lib, CloudFront, ip);
    CoversConcat(lib, d.Bucket(Cloudflare), d.Bucket(CloudFront), ip);
  }

  /** A single-provider mode trusts exactly the peers in its own bucket. */
  lemma SingleModeTrustsItsBucket(d: Disolver, lib: GoLib, remote: string)
    requires lib.Valid() && (d.provider == Cloudflare || d.provider == CloudFront)
    requires PeerIP(lib, remote).Some?
    ensures d.Trust(lib, remote).trusted <==> Covers(lib, d.Bucket(d.provider), PeerIP(lib, remote).value)
  {
    ContainsIsCovers(d, lib, d.provider, PeerIP(lib, remote).value);
  }

  /** A single-provider mode never consults the other bucket: two registries agreeing on its bucket decide alike. */
  lemma SingleModeIgnoresOtherBucket(d1: Disolver, d2: Disolver, lib: GoLib, remote: string)
    requires lib.Valid() && d1.provider == d2.provider
    requires d1.provider == Cloudflare || d1.provider == CloudFront
    requires d1.Bucket(d1.provider) == d2.Bucket(d2.provider)
    ensures d1.Trust(lib, remote) == d2.Trust(lib, remote)
  {
    if PeerIP(lib, remote).Some? {
      var ip := PeerIP(lib, remote).value;
      ContainsIsCovers(d1, lib, d1.provider, ip);
      ContainsIsCovers(d2, lib, d2.provider, ip);
    }
  }

  /** A single-provider mode whose bucket count is zero trusts no peer. */
  lemma EmptyCountTrustsNobody(d: Disolver, lib: GoLib, remote: string)
    requires lib.Valid() && (d.provider == Cloudflare || d.provider == CloudFront)
    requires (if d.provider == Cloudflare then d.Counts().0 else d.Counts().1) == 0
    ensures !d.Trust(lib, remote).trusted
  {
  }

  /** A mode other than the three configurable ones trusts nobody. */
  lemma UnknownModeTrustsNobody(d: Disolver, lib: GoLib, remote: string)
    requires lib.Valid() && d.provider == Unknown
    ensures !d.Trust(lib, remote).trusted
  {
  }
}
