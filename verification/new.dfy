/**
 * Building a middleware instance from its configuration, and rebuilding the
 * CIDR registry from the providers' published ranges plus the operator's
 * additions. The published ranges are fetched over the network by the
 * provider packages; here they are the parameters `fetchedCf` (Cloudflare)
 * and `fetchedCfn` (CloudFront).
 */
module Construct {

  import opened Wrappers
  import opened GoText
  import opened GoNet
  import opened Providers
  import opened PluginConfig
  import opened Classifier

  /** One configured CIDR string: trimmed, skipped when empty or unparsable, else its network. */
  function ParsedEntry(lib: GoLib, v: string): (nets: seq<IPNet>)
    ensures |nets| <= 1
  {
    var c := TrimSpace(v);
    if c == "" then []
    else match lib.parseCIDR(c)
      case None => []
      case Some(n) => [n]
  }

  /** The networks the `add` closure appends for `cidrs`, in order. */
  function ParsedNets(lib: GoLib, cidrs: seq<string>): (nets: seq<IPNet>)
    ensures |nets| <= |cidrs|
  {
    if cidrs == [] then []
    else ParsedNets(lib, cidrs[..|cidrs| - 1]) + ParsedEntry(lib, cidrs[|cidrs| - 1])
  }

  /** An entry is accepted: non-empty after trimming, and a CIDR the library parses to `n`. */
  predicate Accepted(lib: GoLib, v: string, n: IPNet) {
    TrimSpace(v) != "" && lib.parseCIDR(TrimSpace(v)) == Some(n)
  }

  /** Parsing a concatenation parses each part. */
  lemma {:induction false} ParsedNetsConcat(lib: GoLib, a: seq<string>, b: seq<string>)
    ensures ParsedNets(lib, a + b) == ParsedNets(lib, a) + ParsedNets(lib, b)
    decreases |b|
  {
    if b == [] {
      assert a + b == a;
    } else {
      var b' := b[..|b| - 1];
      assert (a + b)[..|a + b| - 1] == a + b';
      assert (a + b)[|a + b| - 1] == b[|b| - 1];
      ParsedNetsConcat(lib, a, b');
    }
  }

  /**
   * The registered networks are exactly those of the accepted entries: every
   * network comes from some accepted entry, and every accepted entry's network
   * is registered.
   */
  lemma {:induction false} ParsedNetsMembers(lib: GoLib, cidrs: seq<string>, n: IPNet)
    ensures n in ParsedNets(lib, cidrs) <==> exists v | v in cidrs :: Accepted(lib, v, n)
    decreases |cidrs|
  {
    if cidrs != [] {
      var init := cidrs[..|cidrs| - 1];
      var last := cidrs[|cidrs| - 1];
      ParsedNetsMembers(lib, init, n);
      assert cidrs == init + [last];
      if n in ParsedNets(lib, cidrs) && n !in ParsedNets(lib, init) {
        assert Accepted(lib, last, n);
      }
      if exists v | v in cidrs :: Accepted(lib, v, n) {
        var v :| v in cidrs && Accepted(lib, v, n);
        if v !in init {
          assert v == last;
          assert ParsedEntry(lib, last) == [n];
        }
      }
    }
  }

  /** The CIDR strings for one bucket: the fetched defaults, then the operator's additions under its name. */
  function Sources(fetched: seq<string>, userTrust: map<string, seq<string>>, p: Provider): seq<string>
    requires p != Unknown
  {
    fetched + (if Name(p) in userTrust then userTrust[Name(p)] else [])
  }

  /** The published Cloudflare ranges are fetched in Cloudflare and Auto mode only. */
  function FetchedCf(mode: Provider, fetchedCf: seq<string>): seq<string> {
    if mode == Cloudflare || mode == Auto then fetchedCf else []
  }

  /** The published CloudFront ranges are fetched in CloudFront and Auto mode only. */
  function FetchedCfn(mode: Provider, fetchedCfn: seq<string>): seq<string> {
    if mode == CloudFront || mode == Auto then fetchedCfn else []
  }

  /** Bucket `p` of `m` with `nets` appended; a bucket is only created for a non-empty append. */
  function Appended(m: map<Provider, seq<IPNet>>, p: Provider, nets: seq<IPNet>): map<Provider, seq<IPNet>> {
    if nets == [] then m else m[p := (if p in m then m[p] else []) + nets]
  }

  lemma AppendedTwice(m: map<Provider, seq<IPNet>>, p: Provider, a: seq<IPNet>, b: seq<IPNet>)
    ensures Appended(Appended(m, p, a), p, b) == Appended(m, p, a + b)
  {
    if a == [] {
      assert a + b == b;
    } else if b == [] {
      assert a + b == a;
    } else {
      var old_ := if p in m then m[p] else [];
      assert old_ + a + b == old_ + (a + b);
    }
  }

  lemma ParsedNetsStep(lib: GoLib, cidrs: seq<string>, i: int)
    requires 0 <= i < |cidrs|
    ensures ParsedNets(lib, cidrs[..i + 1]) == ParsedNets(lib, cidrs[..i]) + ParsedEntry(lib, cidrs[i])
  {
    assert cidrs[..i + 1][..i] == cidrs[..i];
  }

  /** The CIDR strings `refreshOnce` gathers for bucket `p` in mode `mode`. */
  function BucketSources(mode: Provider, userTrust: map<string, seq<string>>,
                         fetchedCf: seq<string>, fetchedCfn: seq<string>, p: Provider): seq<string>
    requires p == Cloudflare || p == CloudFront
  {
    if p == Cloudflare then Sources(FetchedCf(mode, fetchedCf), userTrust, Cloudflare)
    else Sources(FetchedCfn(mode, fetchedCfn), userTrust, CloudFront)
  }

  /** The registry `refreshOnce` builds: a bucket per provider with at least one accepted entry. */
  function Registry(lib: GoLib, mode: Provider, userTrust: map<string, seq<string>>,
                    fetchedCf: seq<string>, fetchedCfn: seq<string>): map<Provider, seq<IPNet>>
  {
    var cf := ParsedNets(lib, BucketSources(mode, userTrust, fetchedCf, fetchedCfn, Cloudflare));
    var cfn := ParsedNets(lib, BucketSources(mode, userTrust, fetchedCf, fetchedCfn, CloudFront));
    Appended(Appended(map[], Cloudflare, cf), CloudFront, cfn)
  }

  /** A bucket of the registry is the accepted networks of its sources, and is absent when there are none. */
  lemma RegistryBuckets(lib: GoLib, mode: Provider, userTrust: map<string, seq<string>>,
                        fetchedCf: seq<string>, fetchedCfn: seq<string>, p: Provider)
    requires p == Cloudflare || p == CloudFront
    ensures var reg := Registry(lib, mode, userTrust, fetchedCf, fetchedCfn);
      var nets := ParsedNets(lib, BucketSources(mode, userTrust, fetchedCf, fetchedCfn, p));
      (p in reg <==> nets != []) && (p in reg ==> reg[p] == nets)
  {
  }

  /** The `add` closure: append the accepted networks of `cidrs` to bucket `p` of `m`. */
  method Add(lib: GoLib, m: map<Provider, seq<IPNet>>, p: Provider, cidrs: seq<string>)
    returns (m': map<Provider, seq<IPNet>>)
    ensures m' == Appended(m, p, ParsedNets(lib, cidrs))
  {
    m' := m;
    for i := 0 to |cidrs|
      invariant m' == Appended(m, p, ParsedNets(lib, cidrs[..i]))
    {
      ghost var done := ParsedNets(lib, cidrs[..i]);
      ParsedNetsStep(lib, cidrs, i);
      AppendedTwice(m, p, done, ParsedEntry(lib, cidrs[i]));
      var c := TrimSpace(cidrs[i]);
      if c == "" {
        assert ParsedEntry(lib, cidrs[i]) == [];
        continue;
      }
      match lib.parseCIDR(c) {
        case None =>
          assert ParsedEntry(lib, cidrs[i]) == [];
          continue;
        case Some(n) =>
          assert ParsedEntry(lib, cidrs[i]) == [n];
          m' := m'[p := (if p in m' then m'[p] else []) + [n]];
      }
    }
    assert cidrs[..|cidrs|] == cidrs;
  }

  /**
   * `refreshOnce`: fetch the defaults the mode calls for, append the operator's
   * additions, build a fresh registry and swap it in. It never fails.
   */
  method RefreshOnce(d: Disolver, lib: GoLib, fetchedCf: seq<string>, fetchedCfn: seq<string>)
    returns (err: Option<string>)
    modifies d
    ensures err == None
    ensures d.trustIP == Registry(lib, d.provider, d.userTrust, fetchedCf, fetchedCfn)
    ensures d.provider == old(d.provider) && d.userTrust == old(d.userTrust)
    ensures d.clientIPHeaderName == old(d.clientIPHeaderName)
  {
    var cfCIDRs, cfnCIDRs := GatherSources(d.provider, d.userTrust, fetchedCf, fetchedCfn);
    var newMap: map<Provider, seq<IPNet>> := map[];
    if |cfCIDRs| > 0 {
      newMap := Add(lib, newMap, Cloudflare, cfCIDRs);
    }
    if |cfnCIDRs| > 0 {
      newMap := Add(lib, newMap, CloudFront, cfnCIDRs);
    }
    d.trustIP := newMap;
    return None;
  }

  /** The first half of `refreshOnce`: the defaults the mode fetches, then the operator's additions. */
  method GatherSources(mode: Provider, userTrust: map<string, seq<string>>, fetchedCf: seq<string>, fetchedCfn: seq<string>)
    returns (cfCIDRs: seq<string>, cfnCIDRs: seq<string>)
    ensures cfCIDRs == BucketSources(mode, userTrust, fetchedCf, fetchedCfn, Cloudflare)
    ensures cfnCIDRs == BucketSources(mode, userTrust, fetchedCf, fetchedCfn, CloudFront)
  {
    cfCIDRs, cfnCIDRs := [], [];
    match mode {
      case Cloudflare =>
        cfCIDRs := fetchedCf;
      case CloudFront =>
        cfnCIDRs := fetchedCfn;
      case Auto =>
        cfCIDRs := fetchedCf;
        cfnCIDRs := fetchedCfn;
      case Unknown =>
    }
    if Name(Cloudflare) in userTrust {
      cfCIDRs := cfCIDRs + userTrust[Name(Cloudflare)];
    } else {
      assert cfCIDRs + [] == cfCIDRs;
    }
    if Name(CloudFront) in userTrust {
      cfnCIDRs := cfnCIDRs + userTrust[Name(CloudFront)];
    } else {
      assert cfnCIDRs + [] == cfnCIDRs;
    }
  }

  /** Why `New` refuses a configuration. */
  datatype NewError = NoProvider | InvalidProvider(name: string)

  /** The provider `New` runs with, or why it refuses the configuration. */
  function ConfiguredProvider(config: Config): (r: Result<Provider, NewError>)
    ensures config.provider == "" ==> r == Failure(NoProvider)
    ensures r.Success? ==> r.value != Unknown && Name(r.value) == config.provider
    ensures r.Failure? && config.provider != "" ==> r == Failure(InvalidProvider(config.provider))
  {
    if config.provider == "" then Failure(NoProvider)
    else match ParseProvider(config.provider)
      case None => Failure(InvalidProvider(config.provider))
      case Some(p) => Success(p)
  }

  /**
   * The period the refresh loop is started with: none without auto-refresh;
   * otherwise the configured duration when it parses and is positive, else 12 hours.
   */
  function RefreshInterval(lib: GoLib, config: Config): (ival: Option<int>)
    ensures ival.Some? <==> config.autoRefresh
    ensures ival.Some? ==> ival.value > 0
    ensures ival.Some? && ival.value != 12 * Hour ==> lib.parseDuration(config.refreshInterval) == ival
    ensures (config.autoRefresh && lib.parseDuration(config.refreshInterval).Some? &&
             lib.parseDuration(config.refreshInterval).value > 0) ==>
            ival == lib.parseDuration(config.refreshInterval)
  {
    if !config.autoRefresh then None
    else match lib.parseDuration(config.refreshInterval)
      case Some(n) => if n <= 0 then Some(12 * Hour) else Some(n)
      case None => Some(12 * Hour)
  }

  /**
   * `New`: reject an empty or unknown provider; otherwise build the middleware
   * with the mode's client-address header, the operator's additions kept for
   * later refreshes, and a first registry. `refreshEvery` is the period of the
   * background refresh it starts, if any.
   */
  method New(lib: GoLib, config: Config, name: string, fetchedCf: seq<string>, fetchedCfn: seq<string>)
    returns (res: Result<Disolver, NewError>, refreshEvery: Option<int>)
    ensures ConfiguredProvider(config).Failure? ==>
      res == Failure(ConfiguredProvider(config).error) && refreshEvery == None
    ensures ConfiguredProvider(config).Success? ==>
      && res.Success? && fresh(res.value)
      && res.value.name == name
      && res.value.provider == ConfiguredProvider(config).value
      && res.value.userTrust == config.trustIP
      && res.value.Valid()
      && res.value.trustIP == Registry(lib, res.value.provider, config.trustIP, fetchedCf, fetchedCfn)
      && refreshEvery == RefreshInterval(lib, config)
  {
    if config.provider == "" {
      return Failure(NoProvider), None;
    }
    var parsed := ParseProvider(config.provider);
    if parsed.None? {
      return Failure(InvalidProvider(config.provider)), None;
    }
    var provider := parsed.value;
    var d := new Disolver(name, provider, config.trustIP);
    if provider == Cloudflare {
      d.clientIPHeaderName := CfConnectingIP;
    } else if provider == CloudFront {
      d.clientIPHeaderName := CloudfrontViewerAddress;
    }
    var _ := RefreshOnce(d, lib, fetchedCf, fetchedCfn);
    refreshEvery := None;
    if config.autoRefresh {
      var ival := 12 * Hour;
      match lib.parseDuration(config.refreshInterval) {
        case Some(n) =>
          if n > 0 {
            ival := n;
          }
        case None =>
      }
      refreshEvery := Some(ival);
    }
    res := Success(d);
  }

  /** A registered network comes from an accepted source entry of its bucket, and every accepted entry is registered. */
  lemma RegistryBucket(lib: GoLib, mode: Provider, userTrust: map<string, seq<string>>,
                       fetchedCf: seq<string>, fetchedCfn: seq<string>, p: Provider, n: IPNet)
    requires p == Cloudflare || p == CloudFront
    ensures var reg := Registry(lib, mode, userTrust, fetchedCf, fetchedCfn);
      (p in reg && n in reg[p]) <==>
        exists v | v in BucketSources(mode, userTrust, fetchedCf, fetchedCfn, p) :: Accepted(lib, v, n)
  {
    RegistryBuckets(lib, mode, userTrust, fetchedCf, fetchedCfn, p);
    ParsedNetsMembers(lib, BucketSources(mode, userTrust, fetchedCf, fetchedCfn, p), n);
  }

  /** An accepted operator addition is registered under its provider, whatever the mode fetched. */
  lemma UserAdditionRegistered(lib: GoLib, mode: Provider, userTrust: map<string, seq<string>>,
                               fetchedCf: seq<string>, fetchedCfn: seq<string>, p: Provider, v: string, n: IPNet)
    requires p == Cloudflare || p == CloudFront
    requires Name(p) in userTrust && v in userTrust[Name(p)] && Accepted(lib, v, n)
    ensures var reg := Registry(lib, mode, userTrust, fetchedCf, fetchedCfn);
      p in reg && n in reg[p]
  {
    assert v in BucketSources(mode, userTrust, fetchedCf, fetchedCfn, p);
    RegistryBucket(lib, mode, userTrust, fetchedCf, fetchedCfn, p, n);
  }

  /**
   * In a single-provider mode the other provider's published ranges are not
   * fetched: its bucket holds only the operator's additions.
   */
  lemma SingleModeOtherBucketIsUserOnly(lib: GoLib, mode: Provider, userTrust: map<string, seq<string>>,
                                        fetchedCf: seq<string>, fetchedCfn: seq<string>)
    requires mode == Cloudflare || mode == CloudFront
    ensures var other := if mode == Cloudflare then CloudFront else Cloudflare;
      var reg := Registry(lib, mode, userTrust, fetchedCf, fetchedCfn);
      var user := ParsedNets(lib, if Name(other) in userTrust then userTrust[Name(other)] else []);
      (other in reg <==> user != []) && (other in reg ==> reg[other] == user)
  {
    var other := if mode == Cloudflare then CloudFront else Cloudflare;
    var user := if Name(other) in userTrust then userTrust[Name(other)] else [];
    assert BucketSources(mode, userTrust, fetchedCf, fetchedCfn, other) == user by {
      assert [] + user == user;
    }
    RegistryBuckets(lib, mode, userTrust, fetchedCf, fetchedCfn, other);
  }

  /**
   * In a mode that fetches a provider's published ranges, its bucket is those
   * ranges followed by the operator's additions under its name, if any.
   */
  lemma DefaultsPrecedeAdditions(lib: GoLib, mode: Provider, userTrust: map<string, seq<string>>,
                                 fetchedCf: seq<string>, fetchedCfn: seq<string>, p: Provider)
    requires p == Cloudflare || p == CloudFront
    requires mode == p || mode == Auto
    ensures var reg := Registry(lib, mode, userTrust, fetchedCf, fetchedCfn);
      var bucket := if p in reg then reg[p] else [];
      var fetched := if p == Cloudflare then fetchedCf else fetchedCfn;
      var additions := if Name(p) in userTrust then userTrust[Name(p)] else [];
      bucket == ParsedNets(lib, fetched) + ParsedNets(lib, additions)
  {
    var fetched := if p == Cloudflare then fetchedCf else fetchedCfn;
    var additions := if Name(p) in userTrust then userTrust[Name(p)] else [];
    assert BucketSources(mode, userTrust, fetchedCf, fetchedCfn, p) == fetched + additions;
    RegistryBuckets(lib, mode, userTrust, fetchedCf, fetchedCfn, p);
    ParsedNetsConcat(lib, fetched, additions);
  }

  /** After a refresh the counts are the numbers of accepted entries, at most the numbers of sources. */
  lemma CountsAfterRefresh(d: Disolver, lib: GoLib, fetchedCf: seq<string>, fetchedCfn: seq<string>)
    requires d.trustIP == Registry(lib, d.provider, d.userTrust, fetchedCf, fetchedCfn)
    ensures var cf := BucketSources(d.provider, d.userTrust, fetchedCf, fetchedCfn, Cloudflare);
      var cfn := BucketSources(d.provider, d.userTrust, fetchedCf, fetchedCfn, CloudFront);
      && d.Counts() == (|ParsedNets(lib, cf)|, |ParsedNets(lib, cfn)|)
      && d.Counts().0 <= |cf| && d.Counts().1 <= |cfn|
  {
    RegistryBuckets(lib, d.provider, d.userTrust, fetchedCf, fetchedCfn, Cloudflare);
    RegistryBuckets(lib, d.provider, d.userTrust, fetchedCf, fetchedCfn, CloudFront);
  }

  /** The default configuration runs in Auto mode and refreshes every 12 hours. */
  lemma DefaultConfiguration(lib: GoLib)
    requires lib.Valid()
    ensures ConfiguredProvider(CreateConfig()) == Success(Auto)
    ensures RefreshInterval(lib, CreateConfig()) == Some(12 * Hour)
  {
  }

  /** Each configurable provider name is accepted and runs that provider's mode. */
  lemma NamedProviderAccepted(config: Config, p: Provider)
    requires p != Unknown && config.provider == Name(p)
    ensures ConfiguredProvider(config) == Success(p)
  {
    ParseProviderName(p);
  }
}
