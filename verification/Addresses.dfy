/** Addresses: splitting host and port, connection keys, and the hops of X-Forwarded-For. */
module Addresses {
  import opened Strings

  // ---- host and port ----

  function TrimLeft(s: string, cut: string): string {
    if s != "" && s[0] in cut then TrimLeft(s[1..], cut) else s
  }

  function TrimRight(s: string, cut: string): string {
    if s != "" && s[|s| - 1] in cut then TrimRight(s[..|s| - 1], cut) else s
  }

  function Trim(s: string, cut: string): string {
    TrimRight(TrimLeft(s, cut), cut)
  }

  /** A bracketed address followed by something else, which must be its port. */
  predicate BracketedWithPort(ipport: string) {
    ipport != "" && ipport[0] == '[' && ipport[|ipport| - 1] != ']'
  }

  function ExtractIPAddress(ipport: string): string {
    var parts := Split(ipport, ":");
    if |parts| > 2 then
      var portExists := if BracketedWithPort(ipport) then 1 else 0;
      Trim(Join(parts[..|parts| - portExists], ":"), "[]")
    else if Contains(ipport, ":") then parts[0] else ipport
  }

  function ExtractPort(ipport: string): int {
    var parts := Split(ipport, ":");
    var port :=
      if |parts| > 2 then (if BracketedWithPort(ipport) then parts[|parts| - 1] else "")
      else if |parts| == 2 && Contains(ipport, ":") then parts[1] else "";
    match Atoi(port)
    case Number(n) => n
    case _ => 0
  }

  lemma {:induction false} FindPrefix(a: string, b: string, sep: string)
    requires |sep| == 1 && Find(a, sep) < |a|
    ensures Find(a + b, sep) == Find(a, sep)
  {
    assert (a + b)[0] == a[0];
    if !(sep <= a) {
      assert (a + b)[1..] == a[1..] + b;
      FindPrefix(a[1..], b, sep);
    }
  }

  lemma SplitOnce(a: string, b: string, sep: string)
    requires |sep| == 1 && sep[0] !in a && sep[0] !in b
    ensures Split(a + sep + b, sep) == [a, b]
  {
    var whole := a + sep + b;
    FindFirst(a, sep, b);
    FindNothing(b, sep);
    assert whole[..|a|] == a && whole[|a| + 1..] == b;
  }

  lemma SplitHead(a: string, b: string, sep: string, i: nat)
    requires |sep| == 1 && Find(a, sep) == i < |a|
    ensures Split(a, sep) == [a[..i]] + Split(a[i + 1..], sep)
    ensures Split(a + sep + b, sep) == [a[..i]] + Split(a[i + 1..] + sep + b, sep)
  {
    SplitAt(a, i, sep);
    SplitWhole(a, b, sep, i, a + sep + b);
  }

  lemma SplitWhole(a: string, b: string, sep: string, i: nat, whole: string)
    requires |sep| == 1 && Find(a, sep) == i < |a| && whole == a + sep + b
    ensures Split(whole, sep) == [a[..i]] + Split(a[i + 1..] + sep + b, sep)
  {
    FindBefore(a, b, sep);
    SplitAt(whole, i, sep);
    CutWhole(a, b, sep, i, whole);
  }

  lemma CutWhole(a: string, b: string, sep: string, i: nat, whole: string)
    requires i < |a| && whole == a + sep + b
    ensures whole[..i] == a[..i] && whole[i + 1..] == a[i + 1..] + sep + b
  {
    Cut(a, sep + b, i);
    assert a + sep + b == a + (sep + b) && a[i + 1..] + sep + b == a[i + 1..] + (sep + b);
  }

  lemma FindBefore(a: string, b: string, sep: string)
    requires |sep| == 1 && Find(a, sep) < |a|
    ensures Find(a + sep + b, sep) == Find(a, sep)
  {
    assert a + sep + b == a + (sep + b);
    FindPrefix(a, sep + b, sep);
  }

  lemma SplitAt(s: string, i: nat, sep: string)
    requires |sep| == 1 && Find(s, sep) == i < |s|
    ensures Split(s, sep) == [s[..i]] + Split(s[i + 1..], sep)
  {
  }

  lemma Cut(a: string, c: string, i: nat)
    requires i < |a|
    ensures (a + c)[..i] == a[..i] && (a + c)[i + 1..] == a[i + 1..] + c
  {
  }

  lemma {:induction false} SplitLast(a: string, b: string, sep: string)
    requires |sep| == 1 && sep[0] !in b
    ensures Split(a + sep + b, sep) == Split(a, sep) + [b]
    decreases |a|
  {
    if Find(a, sep) == |a| {
      FindAbsent(a, sep);
      SplitOnce(a, b, sep);
    } else {
      SplitHead(a, b, sep, Find(a, sep));
      SplitLast(a[Find(a, sep) + 1..], b, sep);
    }
  }

  lemma {:induction false} JoinSplit(s: string, sep: string)
    requires |sep| == 1
    ensures Join(Split(s, sep), sep) == s
    decreases |s|
  {
    var i := Find(s, sep);
    if i < |s| {
      FindIsThere(s, sep);
      JoinSplit(s[i + 1..], sep);
      assert s == s[..i] + sep + s[i + 1..];
    }
  }

  lemma {:induction false} FindIsThere(s: string, sep: string)
    requires |sep| == 1 && Find(s, sep) < |s|
    ensures s[Find(s, sep)] == sep[0]
  {
    if !(sep <= s) {
      FindIsThere(s[1..], sep);
    }
  }

  lemma TrimBrackets(h: string)
    requires h != "" && '[' !in h && ']' !in h
    ensures Trim("[" + h + "]", "[]") == h && Trim(h, "[]") == h
  {
    assert h[0] in h && h[|h| - 1] in h;
    assert TrimLeft(h, "[]") == h && TrimRight(h, "[]") == h;
    var s, t := "[" + h + "]", h + "]";
    assert s[1..] == t && t[0] == h[0] && t[0] !in "[]";
    assert TrimLeft(t, "[]") == t;
    assert s[0] in "[]" && TrimLeft(s, "[]") == TrimLeft(t, "[]");
    assert t[|t| - 1] in "[]" && t[..|h|] == h;
    assert TrimRight(t, "[]") == TrimRight(h, "[]");
  }

  lemma PortDigits(port: nat)
    ensures ':' !in Itoa(port) && ']' !in Itoa(port) && Itoa(port) != ""
    ensures Itoa(port)[|Itoa(port)| - 1] != ']'
  {
    var s := Itoa(port);
    assert forall c | c in s :: IsDigit(c);
    assert s[|s| - 1] in s;
  }

  /** host:port for a host without colons; a port that is no int is read as 0. */
  lemma HostPort(host: string, port: nat)
    requires ':' !in host
    ensures ExtractIPAddress(host + ":" + Itoa(port)) == host
    ensures ExtractPort(host + ":" + Itoa(port)) == if port <= MAX_INT then port else 0
  {
    PortDigits(port);
    FindNothing(host, ":");
    SplitLast(host, Itoa(port), ":");
    FindFirst(host, ":", Itoa(port));
    AtoiItoa(port);
  }

  lemma BoxedParts(host: string, port: nat)
    requires ':' in host
    ensures var boxed := "[" + host + "]"; var whole := boxed + ":" + Itoa(port);
      var parts := Split(whole, ":");
      && |parts| > 2 && parts[|parts| - 1] == Itoa(port)
      && Join(parts[..|parts| - 1], ":") == boxed && BracketedWithPort(whole)
  {
    var boxed, p := "[" + host + "]", Itoa(port);
    var whole := boxed + ":" + p;
    PortDigits(port);
    SplitLast(boxed, p, ":");
    assert ':' in boxed;
    ManyParts(boxed, ":");
    JoinSplit(boxed, ":");
    assert whole[0] == '[' && whole[|whole| - 1] == p[|p| - 1];
    assert (Split(boxed, ":") + [p])[..|Split(boxed, ":")|] == Split(boxed, ":");
  }

  lemma BoxedAddress(host: string, port: nat)
    requires ':' in host && '[' !in host && ']' !in host
    ensures ExtractIPAddress("[" + host + "]" + ":" + Itoa(port)) == host
  {
    BoxedParts(host, port);
    TrimBrackets(host);
  }

  lemma BoxedPort(host: string, port: nat)
    requires ':' in host
    ensures ExtractPort("[" + host + "]" + ":" + Itoa(port)) == if port <= MAX_INT then port else 0
  {
    BoxedParts(host, port);
    AtoiItoa(port);
  }

  /** [host]:port for an IPv6 host, which has at least one colon. */
  lemma BracketedHostPort(host: string, port: nat)
    requires ':' in host && '[' !in host && ']' !in host
    ensures ExtractIPAddress("[" + host + "]" + ":" + Itoa(port)) == host
    ensures ExtractPort("[" + host + "]" + ":" + Itoa(port)) == if port <= MAX_INT then port else 0
  {
    BoxedAddress(host, port);
    BoxedPort(host, port);
  }

  /** A host without a port: an IPv4 address or name, or an IPv6 address without brackets. */
  lemma BareHost(host: string)
    requires ':' in host ==> '[' !in host && ']' !in host && |Split(host, ":")| > 2
    ensures ExtractIPAddress(host) == host && ExtractPort(host) == 0
  {
    if ':' in host {
      JoinSplit(host, ":");
      TrimBrackets(host);
      var parts := Split(host, ":");
      assert parts[..|parts|] == parts;
      assert host[0] in host;
    } else {
      FindNothing(host, ":");
    }
  }

  /** [host] without a port, for an IPv6 host, which has more than one colon. */
  lemma BracketedHost(host: string)
    requires host != "" && '[' !in host && ']' !in host && |Split("[" + host + "]", ":")| > 2
    ensures ExtractIPAddress("[" + host + "]") == host && ExtractPort("[" + host + "]") == 0
  {
    var boxed := "[" + host + "]";
    var parts := Split(boxed, ":");
    JoinSplit(boxed, ":");
    TrimBrackets(host);
    assert parts[..|parts|] == parts && !BracketedWithPort(boxed);
  }

  lemma ManyParts(s: string, sep: string)
    requires |sep| == 1 && sep[0] in s
    ensures |Split(s, sep)| >= 2
  {
    if Find(s, sep) == |s| {
      FindAbsent(s, sep);
    }
  }

  // ---- connection keys ----

  function ConnKey(remote: string, local: string): string {
    remote + "->" + local
  }

  /** For addresses without '>', a key belongs to a remote address exactly when it has the prefix
      that getByRemoteAddr looks for; so a key determines both of its addresses. */
  lemma PrefixLookup(remote: string, local: string, wanted: string)
    requires '>' !in remote && '>' !in wanted
    ensures wanted + "->" <= ConnKey(remote, local) <==> wanted == remote
  {
    var key, prefix := ConnKey(remote, local), wanted + "->";
    assert key == (remote + "-") + ">" + local;
    FindFirst(remote + "-", ">", local);
    if prefix <= key {
      var tail := key[|prefix|..];
      assert key == (wanted + "-") + ">" + tail;
      FindFirst(wanted + "-", ">", tail);
      assert wanted == key[..|wanted|] && remote == key[..|remote|];
    }
    if wanted == remote {
      assert key == prefix + local;
    }
  }

  lemma ConnKeyInjective(remote: string, local: string, remote': string, local': string)
    requires '>' !in remote && '>' !in remote'
    requires ConnKey(remote, local) == ConnKey(remote', local')
    ensures remote == remote' && local == local'
  {
    PrefixLookup(remote, local, remote');
    PrefixLookup(remote', local', remote');
    var key := ConnKey(remote, local);
    assert local == key[|remote| + 2..] && local' == key[|remote'| + 2..];
  }

  // ---- X-Forwarded-For ----

  /** What strings.TrimSpace removes: the white space of Unicode. */
  const SPACES :=
    " \t\n\r\U{000B}\U{000C}\U{0085}\U{00A0}\U{1680}\U{2000}\U{2001}\U{2002}\U{2003}\U{2004}\U{2005}"
    + "\U{2006}\U{2007}\U{2008}\U{2009}\U{200A}\U{2028}\U{2029}\U{202F}\U{205F}\U{3000}"

  /** These are exactly the 25 characters with the White_Space property. */
  lemma WhiteSpace(c: char)
    ensures c in SPACES <==>
      || '\U{0009}' <= c <= '\U{000D}' || c == ' ' || c == '\U{0085}' || c == '\U{00A0}' || c == '\U{1680}'
      || '\U{2000}' <= c <= '\U{200A}' || c == '\U{2028}' || c == '\U{2029}' || c == '\U{202F}'
      || c == '\U{205F}' || c == '\U{3000}'
  {
    assert |SPACES| == 25;
  }

  function TrimAll(parts: seq<string>): (r: seq<string>)
    ensures |r| == |parts|
  {
    if parts == [] then [] else [Trim(parts[0], SPACES)] + TrimAll(parts[1..])
  }

  function Hops(xffStr: string): seq<string> {
    if xffStr == "" then [] else TrimAll(Split(xffStr, ","))
  }

  method SplitXFF(xffStr: string) returns (xff: seq<string>)
    ensures xff == Hops(xffStr)
  {
    if xffStr == "" {
      return [];
    }
    xff := Split(xffStr, ",");
    ghost var parts := xff;
    for i := 0 to |xff|
      invariant |xff| == |parts|
      invariant forall j | 0 <= j < i :: xff[j] == TrimAll(parts)[j]
      invariant forall j | i <= j < |xff| :: xff[j] == parts[j]
    {
      TrimAllAt(parts, i);
      xff := xff[i := Trim(xff[i], SPACES)];
    }
  }

  lemma {:induction false} TrimAllAt(parts: seq<string>, i: nat)
    requires i < |parts|
    ensures TrimAll(parts)[i] == Trim(parts[i], SPACES)
  {
    if i > 0 {
      TrimAllAt(parts[1..], i - 1);
    }
  }

  datatype Addrs = Addrs(clientIP: string, proxy1IP: string, proxy2IP: string, proxy3IP: string, lastHopIP: string)

  /** The HTTP front end: RequestInfo.setIPAddress. */
  method SetIPAddress(xffStr: string, remoteAddr: string, isLambda: bool) returns (a: Addrs)
    ensures a == Assigned(Hops(xffStr), remoteAddr, isLambda)
  {
    a := Addrs("", "", "", "", "");
    var xff := SplitXFF(xffStr);
    if |xff| >= 2 {
      a := a.(proxy1IP := ExtractIPAddress(xff[1]));
    }
    if |xff| >= 3 {
      a := a.(proxy2IP := ExtractIPAddress(xff[2]));
    }
    if |xff| >= 4 {
      a := a.(proxy3IP := ExtractIPAddress(xff[3]));
    }
    if |xff| == 0 {
      a := a.(clientIP := ExtractIPAddress(remoteAddr));
    } else {
      a := a.(clientIP := ExtractIPAddress(xff[0]));
      if !isLambda {
        a := a.(lastHopIP := ExtractIPAddress(remoteAddr));
      }
    }
  }

  /** The two ends of a connection as gRPC knows them, if it does. */
  datatype Peer = NoPeer | Peer(local: string, remote: string)

  datatype MDSet = MDSet(addrs: Addrs, targetIP: string, targetPort: int, srcIP: string, srcPort: int)

  /** The gRPC front end: getMDSetFromContext, whose addresses setIPAddress copies. */
  method GetMDSet(xffStr: string, peer: Peer) returns (mds: MDSet)
    ensures peer.Peer? ==>
              && mds.addrs == Assigned(Hops(xffStr), peer.remote, false)
              && mds.targetIP == ExtractIPAddress(peer.local) && mds.targetPort == ExtractPort(peer.local)
              && mds.srcIP == ExtractIPAddress(peer.remote) && mds.srcPort == ExtractPort(peer.remote)
    ensures peer.NoPeer? ==>
              mds == MDSet(Assigned(Hops(xffStr), "", false).(clientIP := "", lastHopIP := ""), "", 0, "", 0)
  {
    var a := Addrs("", "", "", "", "");
    mds := MDSet(a, "", 0, "", 0);
    var xff := SplitXFF(xffStr);
    if |xff| >= 2 {
      a := a.(proxy1IP := ExtractIPAddress(xff[1]));
    }
    if |xff| >= 3 {
      a := a.(proxy2IP := ExtractIPAddress(xff[2]));
    }
    if |xff| >= 4 {
      a := a.(proxy3IP := ExtractIPAddress(xff[3]));
    }
    if peer.Peer? {
      if |xff| == 0 {
        a := a.(clientIP := ExtractIPAddress(peer.remote));
      } else {
        a := a.(clientIP := ExtractIPAddress(xff[0]), lastHopIP := ExtractIPAddress(peer.remote));
      }
      mds := MDSet(a, ExtractIPAddress(peer.local), ExtractPort(peer.local),
                   ExtractIPAddress(peer.remote), ExtractPort(peer.remote));
    } else {
      mds := mds.(addrs := a);
    }
  }

  /** The address of hop i, empty when there is no such hop. */
  function Hop(hops: seq<string>, i: nat): string {
    if i < |hops| then ExtractIPAddress(hops[i]) else ""
  }

  function Assigned(hops: seq<string>, remoteAddr: string, isLambda: bool): Addrs {
    var peer := ExtractIPAddress(remoteAddr);
    if hops == [] then Addrs(peer, "", "", "", "")
    else Addrs(Hop(hops, 0), Hop(hops, 1), Hop(hops, 2), Hop(hops, 3), if isLambda then "" else peer)
  }

  predicate Trimmed(s: string) {
    s != "" && s[0] !in SPACES && s[|s| - 1] !in SPACES
  }

  /** A comma-joined list of trimmed hops is read back as that list. */
  lemma {:induction false} HopsOfJoin(hops: seq<string>)
    requires hops != [] && forall h | h in hops :: ',' !in h && Trimmed(h)
    ensures Hops(Join(hops, ",")) == hops
  {
    SplitJoin(hops, ",");
    TrimmedStay(hops);
    assert hops[0] in hops;
  }

  lemma {:induction false} TrimmedStay(parts: seq<string>)
    requires forall h | h in parts :: Trimmed(h)
    ensures TrimAll(parts) == parts
  {
    if parts != [] {
      assert parts[0] in parts;
      TrimmedStay(parts[1..]);
    }
  }

  lemma {:induction false} TrimLeftSkips(l: string, rest: string, cut: string)
    requires (forall c | c in l :: c in cut) && rest != "" && rest[0] !in cut
    ensures TrimLeft(l + rest, cut) == rest
  {
    if l == "" {
      assert l + rest == rest;
    } else {
      assert (l + rest)[1..] == l[1..] + rest;
      TrimLeftSkips(l[1..], rest, cut);
    }
  }

  lemma {:induction false} TrimRightSkips(h: string, r: string, cut: string)
    requires h != "" && h[|h| - 1] !in cut && forall c | c in r :: c in cut
    ensures TrimRight(h + r, cut) == h
  {
    if r == "" {
      assert h + r == h;
    } else {
      assert (h + r)[..|h + r| - 1] == h + r[..|r| - 1];
      TrimRightSkips(h, r[..|r| - 1], cut);
    }
  }

  /** White space around a hop is taken off. */
  lemma TrimPadded(l: string, h: string, r: string)
    requires Trimmed(h) && (forall c | c in l :: c in SPACES) && (forall c | c in r :: c in SPACES)
    ensures Trim(l + h + r, SPACES) == h
  {
    assert l + h + r == l + (h + r);
    TrimLeftSkips(l, h + r, SPACES);
    TrimRightSkips(h, r, SPACES);
  }

  /** The hops behind the first with a space before each. */
  function Spaced(hops: seq<string>): seq<string> {
    if hops == [] then [] else [" " + hops[0]] + Spaced(hops[1..])
  }

  lemma TrimSpaced(hop: string)
    requires Trimmed(hop)
    ensures Trim(" " + hop, SPACES) == hop
  {
    TrimPadded(" ", hop, "");
    assert " " + hop + "" == " " + hop;
  }

  lemma {:induction false} SpacedTrims(hops: seq<string>)
    requires forall h | h in hops :: Trimmed(h)
    ensures TrimAll(Spaced(hops)) == hops
  {
    if hops != [] {
      assert hops[0] in hops;
      TrimSpaced(hops[0]);
      SpacedTrims(hops[1..]);
      assert Spaced(hops)[1..] == Spaced(hops[1..]) && hops == [hops[0]] + hops[1..];
    }
  }

  lemma {:induction false} SpacedParts(hops: seq<string>)
    requires forall h | h in hops :: ',' !in h
    ensures forall p | p in Spaced(hops) :: ',' !in p
  {
    if hops != [] {
      assert hops[0] in hops;
      SpacedParts(hops[1..]);
    }
  }

  lemma {:induction false} SpacedJoins(first: string, hops: seq<string>)
    ensures Join([first] + hops, ", ") == Join([first] + Spaced(hops), ",")
    decreases |hops|
  {
    if hops != [] {
      var rest := hops[1..];
      assert ([first] + hops)[1..] == [hops[0]] + rest;
      assert ([first] + Spaced(hops))[1..] == [" " + hops[0]] + Spaced(rest);
      SpacedJoins(hops[0], rest);
      HeadJoins(" ", hops[0], Spaced(rest));
    }
  }

  lemma HeadJoins(l: string, first: string, rest: seq<string>)
    ensures Join([l + first] + rest, ",") == l + Join([first] + rest, ",")
  {
    if rest != [] {
      assert ([l + first] + rest)[1..] == rest == ([first] + rest)[1..];
    }
  }

  lemma FirstTrims(first: string, rest: seq<string>)
    requires ',' !in first && Trimmed(first) && forall h | h in rest :: ',' !in h && Trimmed(h)
    ensures var parts := [first] + Spaced(rest);
      TrimAll(parts) == [first] + rest && forall p | p in parts :: ',' !in p
  {
    SpacedTrims(rest);
    SpacedParts(rest);
    TrimPadded("", first, "");
    assert "" + first + "" == first;
    assert ([first] + Spaced(rest))[1..] == Spaced(rest);
  }

  lemma HopsOfParts(parts: seq<string>, hops: seq<string>)
    requires parts != [] && parts[0] != "" && TrimAll(parts) == hops && forall p | p in parts :: ',' !in p
    ensures Hops(Join(parts, ",")) == hops
  {
    SplitJoin(parts, ",");
  }

  /** The usual form of the header, with a space behind every comma, is read back as well. */
  lemma HopsOfSpacedJoin(hops: seq<string>)
    requires hops != [] && forall h | h in hops :: ',' !in h && Trimmed(h)
    ensures Hops(Join(hops, ", ")) == hops
  {
    var first, rest := hops[0], hops[1..];
    assert hops == [first] + rest && first in hops;
    SpacedJoins(first, rest);
    FirstTrims(first, rest);
    HopsOfParts([first] + Spaced(rest), hops);
  }

  /** An address without a port, which is read back unchanged. */
  predicate IsBare(host: string) {
    ':' in host ==> '[' !in host && ']' !in host && |Split(host, ":")| > 2
  }

  lemma HopIs(hops: seq<string>, i: nat)
    requires i < |hops| ==> IsBare(hops[i])
    ensures Hop(hops, i) == if i < |hops| then hops[i] else ""
  {
    if i < |hops| {
      BareHost(hops[i]);
    }
  }

  lemma AssignedHops(hops: seq<string>, remoteAddr: string, host: string, isLambda: bool)
    requires hops != [] && (forall h | h in hops :: IsBare(h)) && ExtractIPAddress(remoteAddr) == host
    ensures Assigned(hops, remoteAddr, isLambda)
            == Addrs(hops[0], if |hops| > 1 then hops[1] else "", if |hops| > 2 then hops[2] else "",
                     if |hops| > 3 then hops[3] else "", if isLambda then "" else host)
  {
    HopIs(hops, 0);
    HopIs(hops, 1);
    HopIs(hops, 2);
    HopIs(hops, 3);
  }

  /** With a header of bare addresses the first is the client, the next three are the proxies, and the peer
      is the last hop; without a header the peer is the client. */
  lemma HopsAreAssigned(hops: seq<string>, remoteAddr: string, host: string, isLambda: bool)
    requires hops != [] && forall h | h in hops :: ',' !in h && Trimmed(h) && IsBare(h)
    requires ExtractIPAddress(remoteAddr) == host
    ensures Assigned(Hops(Join(hops, ", ")), remoteAddr, isLambda)
            == Addrs(hops[0], if |hops| > 1 then hops[1] else "", if |hops| > 2 then hops[2] else "",
                     if |hops| > 3 then hops[3] else "", if isLambda then "" else host)
    ensures Assigned(Hops(""), remoteAddr, isLambda) == Addrs(host, "", "", "", "")
  {
    HopsOfSpacedJoin(hops);
    AssignedHops(hops, remoteAddr, host, isLambda);
  }
}
