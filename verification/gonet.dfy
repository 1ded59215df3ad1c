/**
 * The parts of Go's `net`, `encoding/json` and `time` packages that the
 * middleware calls. `net.SplitHostPort` is written out; the parsers and the
 * network-membership test are supplied as a `GoLib` value whose `Valid()`
 * states the few facts about them that the middleware relies on.
 */
module GoNet {

  import opened Wrappers
  import opened GoText

  /** `net.IP`: a byte slice (4 or 16 bytes for a parsed address). */
  type IP = seq<bv8>

  /** `net.IPNet`: a network number and its mask. */
  datatype IPNet = IPNet(ip: IP, mask: seq<bv8>)

  /** One nanosecond-based `time.Duration` hour. */
  const Hour: int := 3600 * 1_000_000_000

  /** Characters Go's `net.ParseIP` can accept: hex digits, dots and colons. */
  predicate IPLiteralChars(s: string) {
    forall i | 0 <= i < |s| :: IPLiteralChar(s[i])
  }

  predicate IPLiteralChar(c: char) {
    '0' <= c <= '9' || 'a' <= c <= 'f' || 'A' <= c <= 'F' || c == '.' || c == ':'
  }

  function ColonCount(s: string): nat {
    if s == [] then 0 else (if s[0] == ':' then 1 else 0) + ColonCount(s[1..])
  }

  lemma {:induction false} ColonCountConcat(a: string, b: string)
    ensures ColonCount(a + b) == ColonCount(a) + ColonCount(b)
    decreases |a|
  {
    if a != [] {
      assert (a + b)[0] == a[0] && (a + b)[1..] == a[1..] + b;
      ColonCountConcat(a[1..], b);
      assert ColonCount(a + b) == (if a[0] == ':' then 1 else 0) + ColonCount(a[1..] + b);
    } else {
      assert a + b == b;
    }
  }

  /** A string with no colon before its last colon has exactly one. */
  lemma ColonCountOne(s: string, i: int)
    requires 0 <= i < |s| && s[i] == ':' && ':' !in s[..i]
    requires forall k | i < k < |s| :: s[k] != ':'
    ensures ColonCount(s) == 1
  {
    NoColonNoCount(s[..i]);
    NoColonNoCount(s[i + 1..]);
    assert s == s[..i] + ([':'] + s[i + 1..]);
    ColonCountConcat(s[..i], [':'] + s[i + 1..]);
    assert ([':'] + s[i + 1..])[1..] == s[i + 1..];
  }

  lemma {:induction false} NoColonNoCount(s: string)
    requires ':' !in s
    ensures ColonCount(s) == 0
  {
    if s != [] {
      assert forall c | c in s[1..] :: c in s;
      NoColonNoCount(s[1..]);
    }
  }

  /**
   * In a string with two or more colons, a colon precedes the last one; in one
   * with none, there is no last colon.
   */
  lemma ColonsBeforeLast(s: string)
    requires ColonCount(s) != 1
    ensures var i := LastIndexOf(s, ':');
      ColonCount(s) == 0 ==> i == -1
    ensures var i := LastIndexOf(s, ':');
      ColonCount(s) >= 2 ==> 0 <= i && ':' in s[..i]
  {
    var i := LastIndexOf(s, ':');
    if 0 <= i {
      if ':' !in s[..i] {
        ColonCountOne(s, i);
      }
      assert ColonCount(s) != 0 by {
        assert s == s[..i] + s[i..];
        ColonCountConcat(s[..i], s[i..]);
      }
    } else {
      NoColonNoCount(s);
    }
  }

  /**
   * The library calls the middleware makes, as functions:
   *   parseIP        net.ParseIP (None is a nil result)
   *   ipString       net.IP.String
   *   parseCIDR      net.ParseCIDR (None is an error)
   *   netContains    (*net.IPNet).Contains
   *   visitorScheme  json.Unmarshal of a CF-Visitor value into {"scheme": ...} (None is an error)
   *   parseDuration  time.ParseDuration, in nanoseconds (None is an error)
   */
  datatype GoLib = GoLib(
    parseIP: string -> Option<IP>,
    ipString: IP -> string,
    parseCIDR: string -> Option<IPNet>,
    netContains: (IPNet, IP) -> bool,
    visitorScheme: string -> Option<string>,
    parseDuration: string -> Option<int>)
  {
    /**
     * Facts about the Go library the model relies on:
     * the empty string is not an address; an address literal is made of hex
     * digits, dots and colons, and never has exactly one colon (IPv4 has none,
     * IPv6 at least two); the canonical text of a parsed address parses back to
     * it; and "12h" is twelve hours.
     */
    ghost predicate Valid() {
      && parseIP("") == None
      && (forall s :: parseIP(s).Some? ==> IPLiteralChars(s) && ColonCount(s) != 1)
      && (forall s :: parseIP(s).Some? ==> parseIP(ipString(parseIP(s).value)) == parseIP(s))
      && parseDuration("12h") == Some(12 * Hour)
    }
  }

  /** The canonical text of a parsed address is never empty and is itself an address. */
  lemma CanonicalTextIsAddress(lib: GoLib, s: string)
    requires lib.Valid() && lib.parseIP(s).Some?
    ensures lib.ipString(lib.parseIP(s).value) != ""
    ensures lib.parseIP(lib.ipString(lib.parseIP(s).value)) == lib.parseIP(s)
  {
  }

  /** An address literal is non-empty, unbracketed and starts with no white space. */
  lemma AddressLiteralShape(lib: GoLib, s: string)
    requires lib.Valid() && lib.parseIP(s).Some?
    ensures s != "" && s[0] != '[' && !IsSpace(s[0])
    ensures '[' !in s && ']' !in s
  {
    assert IPLiteralChar(s[0]);
    assert forall i | 0 <= i < |s| :: s[i] != '[' && s[i] != ']';
  }

  datatype HostPort = HostPort(host: string, port: string)

  /**
   * `net.SplitHostPort`: the port follows the last colon; a host containing
   * colons must be bracketed; stray brackets and extra colons are errors.
   */
  function SplitHostPort(hp: string): Option<HostPort> {
    var i := LastIndexOf(hp, ':');
    if i < 0 then None
    else if hp[0] == '[' then
      var end := IndexOf(hp, ']');
      if end < 0 then None                  // missing ']' in address
      else if end + 1 == |hp| then None     // missing port in address
      else if end + 1 != i then None        // too many colons, or missing port
      else if '[' in hp[1..] then None      // unexpected '[' in address
      else if ']' in hp[end + 1..] then None  // unexpected ']' in address
      else Some(HostPort(hp[1..end], hp[i + 1..]))
    else
      var host := hp[..i];
      if ':' in host then None              // too many colons in address
      else if '[' in hp then None           // unexpected '[' in address
      else if ']' in hp then None           // unexpected ']' in address
      else Some(HostPort(host, hp[i + 1..]))
  }

  /**
   * What a successful split promises: the input is `host:port`, with the host
   * bracketed exactly when it came bracketed; no colon in the port and no
   * bracket in either part.
   */
  lemma SplitHostPortParts(hp: string)
    requires SplitHostPort(hp).Some?
    ensures var r := SplitHostPort(hp).value;
      || (hp == r.host + ":" + r.port && ':' !in r.host)
      || hp == "[" + r.host + "]:" + r.port
    ensures var r := SplitHostPort(hp).value;
      && ':' !in r.port
      && '[' !in r.host && ']' !in r.host
      && '[' !in r.port && ']' !in r.port
  {
    var i := LastIndexOf(hp, ':');
    NoneInSlice(hp, ':', i + 1, |hp|);
    if hp[0] == '[' {
      BracketedParts(hp, i, IndexOf(hp, ']'));
    } else {
      assert hp == hp[..i] + ":" + hp[i + 1..];
      assert forall c | c in hp[i + 1..] :: c in hp by {
        assert hp[i + 1..] == hp[i + 1..|hp|];
      }
    }
  }

  lemma BracketedParts(hp: string, i: int, end: int)
    requires 0 < end && end + 1 == i < |hp| && hp[0] == '[' && hp[end] == ']' && hp[i] == ':'
    requires forall k | 0 <= k < end :: hp[k] != ']'
    requires forall k | i < k < |hp| :: hp[k] != ':'
    requires '[' !in hp[1..] && ']' !in hp[end + 1..]
    ensures hp == "[" + hp[1..end] + "]:" + hp[i + 1..]
    ensures ':' !in hp[i + 1..]
    ensures '[' !in hp[1..end] && ']' !in hp[1..end]
    ensures '[' !in hp[i + 1..] && ']' !in hp[i + 1..]
  {
    assert hp == "[" + hp[1..end] + "]:" + hp[i + 1..];
    NoneInSlice(hp, ']', 1, end);
    SubSliceMembers(hp, 1, end);
    NoneInSlice(hp, ':', i + 1, |hp|);
    SubSliceMembers(hp, i + 1, |hp|);
    assert hp[end + 1..][1..] == hp[i + 1..];
  }

  /** A slice holds none of a character that no position in its range holds. */
  lemma NoneInSlice(s: string, c: char, lo: int, hi: int)
    requires 0 <= lo <= hi <= |s|
    requires forall k | lo <= k < hi :: s[k] != c
    ensures c !in s[lo..hi]
  {
    assert forall k | 0 <= k < hi - lo :: s[lo..hi][k] == s[lo + k];
  }

  /** Every character of a slice starting at 1 or later occurs in `s[1..]`. */
  lemma SubSliceMembers(s: string, lo: int, hi: int)
    requires 1 <= lo <= hi <= |s|
    ensures forall c | c in s[lo..hi] :: c in s[1..]
  {
    assert s[lo..hi] == s[1..][lo - 1..hi - 1];
  }

  /** `net.JoinHostPort`: bracket the host when it contains a colon. */
  function JoinHostPort(host: string, port: string): string {
    if ':' in host then "[" + host + "]:" + port else host + ":" + port
  }

  lemma LastIndexIsUnique(s: string, c: char, k: int)
    requires 0 <= k < |s| && s[k] == c && forall j | k < j < |s| :: s[j] != c
    ensures LastIndexOf(s, c) == k
  {
  }

  lemma IndexIsUnique(s: string, c: char, k: int)
    requires 0 <= k < |s| && s[k] == c && forall j | 0 <= j < k :: s[j] != c
    ensures IndexOf(s, c) == k
  {
  }

  /** The facts `SplitHostPort` tests, for a bracketed host and a port. */
  lemma BracketedLayout(host: string, port: string)
    requires '[' !in host && ']' !in host
    requires ':' !in port && '[' !in port && ']' !in port
    ensures var hp := "[" + host + "]:" + port;
      var k := |host| + 2;
      && LastIndexOf(hp, ':') == k && hp[0] == '[' && IndexOf(hp, ']') == k - 1
      && '[' !in hp[1..] && ']' !in hp[k..]
      && hp[1..k - 1] == host && hp[k + 1..] == port
  {
    var hp := "[" + host + "]:" + port;
    var k := |host| + 2;
    assert hp[0] == '[' && hp[k - 1] == ']' && hp[k] == ':';
    assert forall j | 1 <= j < k - 1 :: hp[j] == host[j - 1];
    assert forall j | k < j < |hp| :: hp[j] == port[j - k - 1];
    LastIndexIsUnique(hp, ':', k);
    IndexIsUnique(hp, ']', k - 1);
    NoneInSlice(hp, '[', 1, |hp|);
    NoneInSlice(hp, ']', k, |hp|);
    assert hp[1..|hp|] == hp[1..] && hp[k..|hp|] == hp[k..];
    assert hp[1..k - 1] == host && hp[k + 1..] == port;
  }

  lemma SplitJoinBracketed(host: string, port: string)
    requires '[' !in host && ']' !in host
    requires ':' !in port && '[' !in port && ']' !in port
    ensures SplitHostPort("[" + host + "]:" + port) == Some(HostPort(host, port))
  {
    BracketedLayout(host, port);
  }

  lemma SplitJoinPlain(host: string, port: string)
    requires ':' !in host && '[' !in host && ']' !in host
    requires ':' !in port && '[' !in port && ']' !in port
    ensures SplitHostPort(host + ":" + port) == Some(HostPort(host, port))
  {
    var hp := host + ":" + port;
    var k := |host|;
    assert hp[k + 1..] == port;
    LastIndexIsUnique(hp, ':', k);
    assert hp[..k] == host;
    assert hp[0] != '[' by {
      if |host| > 0 { assert hp[0] == host[0]; } else { assert hp[0] == ':'; }
    }
    assert '[' !in hp && ']' !in hp by {
      assert forall c | c in hp :: c in host || c == ':' || c in port;
    }
  }

  /** Splitting a joined host and port gives them back, for bracket-free parts and a colon-free port. */
  lemma {:induction false} SplitJoinRoundTrip(host: string, port: string)
    requires '[' !in host && ']' !in host
    requires ':' !in port && '[' !in port && ']' !in port
    ensures SplitHostPort(JoinHostPort(host, port)) == Some(HostPort(host, port))
  {
    if ':' in host {
      SplitJoinBracketed(host, port);
    } else {
      SplitJoinPlain(host, port);
    }
  }
}
