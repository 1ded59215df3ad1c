/**
 * The provider identity the middleware is configured with, the provider names
 * used as configuration keys, and the provider-native header names.
 */
module Providers {

  import opened Wrappers

  /** `providers.Provider`: the two edge networks, the union mode, and "no match". */
  datatype Provider = Cloudflare | CloudFront | Auto | Unknown

  /** `Provider.String()` for the three configurable providers. */
  function Name(p: Provider): string
    requires p != Unknown
  {
    match p
    case Cloudflare => "cloudflare"
    case CloudFront => "cloudfront"
    case Auto => "auto"
  }

  /**
   * `providers.Provider(s)` followed by `Validate()`: only the three configurable
   * provider names are accepted.
   */
  function ParseProvider(s: string): (r: Option<Provider>)
    ensures r.Some? ==> r.value != Unknown && Name(r.value) == s
  {
    if s == "cloudflare" then Some(Cloudflare)
    else if s == "cloudfront" then Some(CloudFront)
    else if s == "auto" then Some(Auto)
    else None
  }

  /** Validation accepts exactly the names of the configurable providers. */
  lemma {:induction false} ParseProviderName(p: Provider)
    requires p != Unknown
    ensures ParseProvider(Name(p)) == Some(p)
  {
    match p
    case Cloudflare =>
    case CloudFront =>
      assert "cloudfront"[7] != "cloudflare"[7];
    case Auto =>
  }

  /** `cloudflare.ClientIPHeaderName` */
  const CfConnectingIP: string := "CF-Connecting-IP"
  /** `cloudflare.CfVisitor` */
  const CfVisitor: string := "CF-Visitor"
  /** `cloudfront.ClientIPHeaderName` */
  const CloudfrontViewerAddress: string := "Cloudfront-Viewer-Address"

  /**
   * The header that carries the client address in a single-provider mode; empty
   * for Auto, where the header is chosen per request from the matched network.
   */
  function ClientIPHeaderFor(p: Provider): (name: string)
    ensures name != "" <==> p == Cloudflare || p == CloudFront
  {
    match p
    case Cloudflare => CfConnectingIP
    case CloudFront => CloudfrontViewerAddress
    case _ => ""
  }
}
