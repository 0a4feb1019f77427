/** Who measures whom: the client sends every server the host list without that
    server, and the server makes a reader for every listed host but itself. */
module Mesh {
  import opened Folds

  function Without(hosts: seq<string>, self: string): seq<string> {
    if hosts == [] then []
    else if hosts[0] == self then hosts[1..]
    else [hosts[0]] + Without(hosts[1..], self)
  }

  /** Deletes the first occurrence of self in place: the tail moves down one
      and the freed last element is cleared. The result is the first count
      elements of the same array. */
  method FilterSelf(hosts: array<string>, self: string) returns (count: nat)
    modifies hosts
    ensures count <= hosts.Length && hosts[..count] == Without(old(hosts[..]), self)
    ensures count < hosts.Length ==> count == hosts.Length - 1 && hosts[count] == ""
  {
    for i := 0 to hosts.Length
      invariant hosts[..] == old(hosts[..]) && self !in hosts[..i]
    {
      if hosts[i] == self {
        WithoutFirst(hosts[..], self, i);
        Delete(hosts, i);
        return hosts.Length - 1;
      }
    }
    WithoutFirst(hosts[..], self, hosts.Length);
    count := hosts.Length;
  }

  lemma {:induction false} WithoutFirst(hosts: seq<string>, self: string, i: nat)
    requires i <= |hosts| && self !in hosts[..i] && (i < |hosts| ==> hosts[i] == self)
    ensures Without(hosts, self) == hosts[..i] + if i < |hosts| then hosts[i + 1..] else []
  {
    if i > 0 {
      assert hosts[..i] == [hosts[0]] + hosts[1..][..i - 1];
      WithoutFirst(hosts[1..], self, i - 1);
    }
  }

  method Delete(hosts: array<string>, i: nat)
    requires i < hosts.Length
    modifies hosts
    ensures hosts[..] == old(hosts[..i]) + old(hosts[i + 1..]) + [""]
  {
    ghost var was := hosts[..];
    assert was == was[..i] + was[i + 1..i + 1] + was[i..];
    for j := i + 1 to hosts.Length
      invariant hosts[..] == Moved(was, i, j)
    {
      MoveOne(was, i, j);
      hosts[j - 1] := hosts[j];
    }
    MovedAll(was, i);
    hosts[hosts.Length - 1] := "";
  }

  /** A list of which the entries between i and j have moved down one. */
  function Moved(was: seq<string>, i: nat, j: nat): (now: seq<string>)
    requires i < j <= |was|
    ensures |now| == |was|
  {
    was[..i] + was[i + 1..j] + was[j - 1..]
  }

  lemma MoveOne(was: seq<string>, i: nat, j: nat)
    requires i < j < |was|
    ensures Moved(was, i, j)[j] == was[j] && Moved(was, i, j)[j - 1 := was[j]] == Moved(was, i, j + 1)
  {
  }

  lemma MovedAll(was: seq<string>, i: nat)
    requires i < |was|
    ensures Moved(was, i, |was|)[|was| - 1 := ""] == was[..i] + was[i + 1..] + [""]
  {
  }

  /** RunTest sends a config to every connection there is. It clones the list
      before each delete, so every server gets its own copy and the original list
      is the one that is restored. */
  method RunTestConfigs(hosts: seq<string>, connected: seq<bool>)
    returns (configs: seq<Option<seq<string>>>, restored: seq<string>)
    requires |connected| == |hosts|
    ensures |configs| == |hosts|
    ensures forall i :: 0 <= i < |hosts| ==> configs[i] == if connected[i] then Some(Without(hosts, hosts[i])) else None
    ensures restored == hosts
  {
    var ogh := new string[|hosts|](i requires 0 <= i < |hosts| => hosts[i]);
    configs := [];
    for i := 0 to |hosts|
      invariant ogh[..] == hosts
      invariant |configs| == i
      invariant forall j :: 0 <= j < i ==> configs[j] == if connected[j] then Some(Without(hosts, hosts[j])) else None
    {
      if connected[i] {
        var oh := new string[ogh.Length](k requires 0 <= k < ogh.Length reads ogh => ogh[k]);
        assert oh[..] == hosts;
        var count := FilterSelf(oh, hosts[i]);
        configs := configs + [Some(oh[..count])];
      } else {
        configs := configs + [None];
      }
    }
    restored := ogh[..];
  }

  // Readers

  function JoinHostPort(host: string, port: string): string {
    if ':' in host then "[" + host + "]:" + port else host + ":" + port
  }

  /** The first place of c in s, or its length. */
  function IndexOf(s: string, c: char): (k: nat)
    ensures k <= |s| && c !in s[..k] && (k < |s| ==> s[k] == c)
  {
    if s == [] || s[0] == c then 0
    else
      assert s[..1 + IndexOf(s[1..], c)] == [s[0]] + s[1..][..IndexOf(s[1..], c)];
      1 + IndexOf(s[1..], c)
  }

  /** How a dialer takes an address apart: a bracketed host before a colon, or a
      host without colons. */
  function SplitHostPort(addr: string): Option<(string, string)> {
    if addr != [] && addr[0] == '[' then
      var k := IndexOf(addr, ']');
      if k + 1 < |addr| && addr[k + 1] == ':' && ':' !in addr[k + 2..] then Some((addr[1..k], addr[k + 2..])) else None
    else
      var k := IndexOf(addr, ':');
      if k < |addr| && ':' !in addr[k + 1..] then Some((addr[..k], addr[k + 1..])) else None
  }

  lemma {:induction false} IndexBehind(a: string, c: char, b: string)
    requires c !in a
    ensures IndexOf(a + [c] + b, c) == |a|
  {
    if a != [] {
      assert (a + [c] + b)[1..] == a[1..] + [c] + b;
      IndexBehind(a[1..], c, b);
    }
  }

  /** An address names its host and its port. */
  lemma AddressNamesBoth(host: string, port: string)
    requires ':' !in port && '[' !in host && ']' !in host
    ensures SplitHostPort(JoinHostPort(host, port)) == Some((host, port))
  {
    var addr := JoinHostPort(host, port);
    if ':' in host {
      assert addr == ("[" + host) + "]" + (":" + port);
      IndexBehind("[" + host, ']', ":" + port);
      assert addr[1..|host| + 1] == host && addr[|host| + 3..] == port;
    } else {
      assert addr == host + ":" + port;
      IndexBehind(host, ':', port);
      assert addr[..|host|] == host && addr[|host| + 1..] == port;
    }
  }

  predicate Contains(s: string, sub: string) {
    sub <= s || (s != [] && Contains(s[1..], sub))
  }

  /** Some slice of s is sub. */
  ghost predicate HasSlice(s: string, sub: string) {
    exists i, j :: 0 <= i <= j <= |s| && s[i..j] == sub
  }

  lemma SliceOfTail(s: string, sub: string)
    requires s != [] && HasSlice(s[1..], sub)
    ensures HasSlice(s, sub)
  {
    var i, j :| 0 <= i <= j <= |s[1..]| && s[1..][i..j] == sub;
    assert s[1..][i..j] == s[i + 1..j + 1];
  }

  lemma SliceBehindFront(s: string, sub: string)
    requires HasSlice(s, sub) && !(sub <= s)
    ensures s != [] && HasSlice(s[1..], sub)
  {
    var i, j :| 0 <= i <= j <= |s| && s[i..j] == sub;
    if i > 0 {
      assert s[1..][i - 1..j - 1] == s[i..j];
    }
  }

  lemma {:induction false} ContainsExactly(s: string, sub: string)
    ensures Contains(s, sub) <==> HasSlice(s, sub)
  {
    if sub <= s {
      assert s[0..|sub|] == sub;
    } else {
      if s != [] {
        ContainsExactly(s[1..], sub);
        if HasSlice(s[1..], sub) {
          SliceOfTail(s, sub);
        }
      }
      if HasSlice(s, sub) {
        SliceBehindFront(s, sub);
      }
    }
  }

  /** A server's address settings. */
  datatype Server = Server(realIP: string, bindAddress: string)

  /** The hosts a server takes for itself: by substring if it knows its real
      IP, and by its exact bind address. */
  predicate Skips(s: Server, host: string, port: string) {
    (s.realIP != "" && Contains(JoinHostPort(host, port), s.realIP)) || JoinHostPort(host, port) == s.bindAddress
  }

  function Kept(hosts: seq<string>, skip: string -> bool): seq<string> {
    if hosts == [] then []
    else
      var last := hosts[|hosts| - 1];
      Kept(hosts[..|hosts| - 1], skip) + if skip(last) then [] else [last]
  }

  function ReadersFor(s: Server, hosts: seq<string>, port: string): seq<string> {
    Kept(hosts, (h: string) => Skips(s, h, port))
  }

  /** newTest's loop: a reader per listed host that is not skipped, and an
      error when there is none. */
  method NewTest(s: Server, hosts: seq<string>, port: string) returns (readers: Option<seq<string>>)
    ensures readers == if ReadersFor(s, hosts, port) == [] then None else Some(ReadersFor(s, hosts, port))
  {
    var created: seq<string> := [];
    for i := 0 to |hosts|
      invariant created == ReadersFor(s, hosts[..i], port)
    {
      assert hosts[..i + 1][..i] == hosts[..i];
      if !Skips(s, hosts[i], port) {
        created := created + [hosts[i]];
      }
    }
    assert hosts[..|hosts|] == hosts;
    if |created| == 0 {
      return None;
    }
    readers := Some(created);
  }

  lemma {:induction false} DistinctCounts(hosts: seq<string>, g: string)
    requires Distinct(hosts)
    ensures multiset(hosts)[g] == if g in hosts then 1 else 0
  {
    if hosts != [] {
      DistinctCounts(hosts[1..], g);
      assert hosts == [hosts[0]] + hosts[1..];
      assert hosts[0] !in hosts[1..];
    }
  }

  lemma {:induction false} WithoutCounts(hosts: seq<string>, self: string, g: string)
    ensures multiset(Without(hosts, self))[g]
         == if g == self && self in hosts then multiset(hosts)[g] - 1 else multiset(hosts)[g]
  {
    if hosts != [] {
      assert hosts == [hosts[0]] + hosts[1..];
      if hosts[0] != self {
        WithoutCounts(hosts[1..], self, g);
      }
    }
  }

  lemma {:induction false} KeptCount(hosts: seq<string>, skip: string -> bool, g: string)
    ensures multiset(Kept(hosts, skip))[g] == if skip(g) then 0 else multiset(hosts)[g]
  {
    if hosts != [] {
      var init, x := hosts[..|hosts| - 1], hosts[|hosts| - 1];
      KeptCount(init, skip, g);
      KeptOne(Kept(init, skip), init, x, skip(x), g);
      assert hosts == init + [x];
    }
  }

  lemma KeptOne(kept: seq<string>, init: seq<string>, x: string, skipped: bool, g: string)
    ensures multiset(kept + if skipped then [] else [x])[g]
         == multiset(kept)[g] + if !skipped && x == g then 1 else 0
    ensures multiset(init + [x])[g] == multiset(init)[g] + if x == g then 1 else 0
  {
    CountAppend(init, x, g);
    CountAppend(kept, x, g);
    assert kept + [] == kept;
  }

  lemma ReadersCount(s: Server, hosts: seq<string>, port: string, g: string)
    ensures multiset(ReadersFor(s, hosts, port))[g] == if Skips(s, g, port) then 0 else multiset(hosts)[g]
  {
    KeptCount(hosts, (h: string) => Skips(s, h, port), g);
  }

  /** What is kept of two lists is kept of each, in their order. */
  lemma {:induction false} KeptInOrder(a: seq<string>, b: seq<string>, skip: string -> bool)
    ensures Kept(a + b, skip) == Kept(a, skip) + Kept(b, skip)
    decreases |b|
  {
    if b == [] {
      assert a + b == a;
    } else {
      var init, x := b[..|b| - 1], b[|b| - 1];
      assert (a + b)[..|a + b| - 1] == a + init && (a + b)[|a + b| - 1] == x;
      KeptInOrder(a, init, skip);
      var last := if skip(x) then [] else [x];
      assert Kept(a, skip) + (Kept(init, skip) + last) == (Kept(a, skip) + Kept(init, skip)) + last;
    }
  }

  /** A server skips a host if and only if it is at the server's bind address, or
      the server has a real IP that is some slice of the host's address. */
  lemma SkipsExactly(s: Server, host: string, port: string)
    ensures Skips(s, host, port)
       <==> JoinHostPort(host, port) == s.bindAddress
            || (s.realIP != "" && HasSlice(JoinHostPort(host, port), s.realIP))
  {
    ContainsExactly(JoinHostPort(host, port), s.realIP);
  }

  lemma CountAppend(hosts: seq<string>, x: string, g: string)
    ensures multiset(hosts + [x])[g] == multiset(hosts)[g] + if x == g then 1 else 0
  {
  }

  /** With distinct hosts, the server self gets exactly one reader for every
      other listed host that it does not take for itself, and none else. */
  lemma ReadersOfServer(s: Server, hosts: seq<string>, self: string, port: string, g: string)
    requires Distinct(hosts) && self in hosts
    ensures multiset(ReadersFor(s, Without(hosts, self), port))[g]
         == if g in hosts && g != self && !Skips(s, g, port) then 1 else 0
  {
    DistinctCounts(hosts, g);
    WithoutCounts(hosts, self, g);
    ReadersCount(s, Without(hosts, self), port, g);
  }

  /** Server self measures every other host exactly once, and only those,
      exactly when it takes none of the other hosts for itself. */
  ghost predicate Covers(s: Server, hosts: seq<string>, self: string, port: string) {
    forall g :: multiset(ReadersFor(s, Without(hosts, self), port))[g] == if g in hosts && g != self then 1 else 0
  }

  lemma MeshOfServer(s: Server, hosts: seq<string>, self: string, port: string)
    requires Distinct(hosts) && self in hosts
    ensures Covers(s, hosts, self, port) <==> forall g :: g in hosts && g != self ==> !Skips(s, g, port)
  {
    forall g ensures multiset(ReadersFor(s, Without(hosts, self), port))[g]
         == if g in hosts && g != self && !Skips(s, g, port) then 1 else 0
    {
      ReadersOfServer(s, hosts, self, port, g);
    }
  }

  /** The full mesh: with distinct hosts, no real IPs configured and no server
      bound to the listed address of another host, every ordered pair of
      different hosts is measured exactly once. */
  lemma FullMesh(servers: seq<Server>, hosts: seq<string>, port: string)
    requires Distinct(hosts) && |servers| == |hosts|
    requires forall i :: 0 <= i < |servers| ==> servers[i].realIP == ""
    requires forall i, j :: 0 <= i < |hosts| && 0 <= j < |hosts| && i != j ==>
      JoinHostPort(hosts[j], port) != servers[i].bindAddress
    ensures forall i :: 0 <= i < |hosts| ==> Covers(servers[i], hosts, hosts[i], port)
  {
    forall i | 0 <= i < |hosts| ensures Covers(servers[i], hosts, hosts[i], port) {
      MeshOfServer(servers[i], hosts, hosts[i], port);
    }
  }

  /** Distinct hosts have distinct addresses, so a reader's address names its host. */
  lemma AddressesAreDistinct(a: string, b: string, port: string)
    requires JoinHostPort(a, port) == JoinHostPort(b, port)
    ensures a == b
  {
    var x, y := JoinHostPort(a, port), JoinHostPort(b, port);
    if ':' in a && ':' in b {
      assert x[1..|a| + 1] == a && y[1..|b| + 1] == b;
    } else if ':' !in a && ':' !in b {
      assert x[..|a|] == a && y[..|b|] == b;
    } else if ':' in a {
      BracketsShow(a, b, port);
    } else {
      BracketsShow(b, a, port);
    }
  }

  /** A bracketed address never equals a plain one: it has a colon too early. */
  lemma BracketsShow(a: string, b: string, port: string)
    requires ':' in a && ':' !in b
    ensures JoinHostPort(a, port) != JoinHostPort(b, port)
  {
    var x, y := JoinHostPort(a, port), JoinHostPort(b, port);
    var k :| 0 <= k < |a| && a[k] == ':';
    assert x[k + 1] == ':';
    assert |x| == |y| ==> k + 1 < |b|;
    assert k + 1 < |b| ==> y[k + 1] == b[k + 1] != ':';
  }

  lemma PrefixIsContained(host: string, port: string, ip: string)
    requires ip <= host && ':' !in host
    ensures Contains(JoinHostPort(host, port), ip)
  {
  }

  /** With a real IP configured, a peer whose address starts with it is skipped
      as well, as 10.0.0.12 is by the server with the real IP 10.0.0.1. */
  lemma RealIPHidesPeer(s: Server, hosts: seq<string>, self: string, peer: string, port: string)
    requires Distinct(hosts) && self in hosts && peer in hosts && peer != self
    requires s.realIP != "" && s.realIP <= peer && ':' !in peer
    ensures !Covers(s, hosts, self, port)
  {
    PrefixIsContained(peer, port, s.realIP);
    MeshOfServer(s, hosts, self, port);
  }
}
