/** What peer sync and shutdown guarantee over whole runs, under any pattern of failures. */
module OverlayRuns {
  import opened Wrappers
  import opened Routes
  import opened Overlay

  // ---- the listing -------------------------------------------------------

  /** Some listed node is up, is not the agent's own, and has this subnet. */
  ghost predicate ListsUp(nodes: seq<Node>, self: string, d: Destination) {
    exists n :: n in nodes && n.nodeId != self && n.status == "up" && n.subnet == d
  }

  /** The `k`th node is the first such node in listing order. */
  predicate FirstUp(nodes: seq<Node>, self: string, d: Destination, k: nat) {
    && k < |nodes| && nodes[k].nodeId != self && nodes[k].status == "up" && nodes[k].subnet == d
    && forall j :: 0 <= j < k ==> nodes[j].nodeId == self || nodes[j].status != "up" || nodes[j].subnet != d
  }

  /** Whatever is listed has a first node that lists it. */
  lemma {:induction false} FirstUpExists(nodes: seq<Node>, self: string, i: nat, d: Destination) returns (k: nat)
    requires i < |nodes| && nodes[i].nodeId != self && nodes[i].status == "up" && nodes[i].subnet == d
    ensures FirstUp(nodes, self, d, k)
  {
    if j: nat :| j < i && nodes[j].nodeId != self && nodes[j].status == "up" && nodes[j].subnet == d {
      k := FirstUpExists(nodes, self, j, d);
    } else {
      k := i;
    }
  }

  lemma FirstUpLists(nodes: seq<Node>, self: string, d: Destination)
    ensures ListsUp(nodes, self, d) <==> exists k: nat :: FirstUp(nodes, self, d, k)
  {
    if ListsUp(nodes, self, d) {
      var n :| n in nodes && n.nodeId != self && n.status == "up" && n.subnet == d;
      var i: nat :| i < |nodes| && nodes[i] == n;
      var k := FirstUpExists(nodes, self, i, d);
    }
    if k: nat :| FirstUp(nodes, self, d, k) {
      assert nodes[k] in nodes;
    }
  }

  lemma FirstUpInRange(nodes: seq<Node>, self: string, d: Destination)
    ensures forall k: nat :: FirstUp(nodes, self, d, k) ==> k < |nodes|
  {}

  lemma FirstAtCons(p: Node, rest: seq<Node>, d: Destination)
    ensures FirstAt([p] + rest, d) == if p.subnet == d then 0 else 1 + FirstAt(rest, d)
  {
    assert ([p] + rest)[1..] == rest;
  }

  /** The first of the listing's peers with a subnet is the first such node. */
  lemma {:induction false} FirstPeerIs(nodes: seq<Node>, self: string, d: Destination, k: nat)
    requires FirstUp(nodes, self, d, k)
    ensures var ps := Current(nodes, self); FirstAt(ps, d) < |ps| && ps[FirstAt(ps, d)] == nodes[k]
  {
    hide FirstAt;
    FirstAtCons(nodes[0], Current(nodes[1..], self), d);
    if k > 0 {
      assert FirstUp(nodes[1..], self, d, k - 1);
      FirstPeerIs(nodes[1..], self, d, k - 1);
    }
  }

  lemma {:induction false} PeerIsUp(nodes: seq<Node>, self: string, i: nat)
    requires i < |Current(nodes, self)|
    ensures Current(nodes, self)[i] in nodes && Current(nodes, self)[i].nodeId != self && Current(nodes, self)[i].status == "up"
  {
    if nodes[0].nodeId != self && nodes[0].status == "up" {
      if i > 0 {
        PeerIsUp(nodes[1..], self, i - 1);
      }
    } else {
      PeerIsUp(nodes[1..], self, i);
    }
  }

  /** The peers of a listing are its up nodes but the agent's own: the same subnets, and for each the same first node. */
  lemma CurrentMeans(nodes: seq<Node>, self: string, d: Destination)
    ensures d in SubnetsOf(Current(nodes, self)) <==> ListsUp(nodes, self, d)
    ensures forall k: nat :: FirstUp(nodes, self, d, k) ==>
              var ps := Current(nodes, self); FirstAt(ps, d) < |ps| && ps[FirstAt(ps, d)] == nodes[k]
    ensures ListsUp(nodes, self, d) ==> exists k: nat :: FirstUp(nodes, self, d, k)
  {
    hide FirstUp, Current, FirstAt;
    var ps := Current(nodes, self);
    ListedIff(ps, d);
    FirstUpLists(nodes, self, d);
    assert forall k: nat :: FirstUp(nodes, self, d, k) ==> k < |nodes| by {
      FirstUpInRange(nodes, self, d);
    }
    forall k: nat | FirstUp(nodes, self, d, k)
      ensures FirstAt(ps, d) < |ps| && ps[FirstAt(ps, d)] == nodes[k]
    {
      FirstPeerIs(nodes, self, d, k);
    }
    if FirstAt(ps, d) < |ps| {
      PeerIsUp(nodes, self, FirstAt(ps, d));
    }
  }

  function PeerOf(s: AgentState, d: Destination): Option<nat> {
    if d in s.vxlan.peers then Some(s.vxlan.peers[d]) else None
  }

  /** The index of the first peer with subnet `d`, or |ps| when there is none. */
  function FirstAt(ps: seq<Node>, d: Destination): (i: nat)
    ensures i <= |ps| && (i < |ps| ==> ps[i].subnet == d)
    ensures forall j :: 0 <= j < i ==> ps[j].subnet != d
  {
    if ps == [] || ps[0].subnet == d then 0 else 1 + FirstAt(ps[1..], d)
  }

  lemma ListedIff(ps: seq<Node>, d: Destination)
    ensures d in SubnetsOf(ps) <==> FirstAt(ps, d) < |ps|
  {
    if FirstAt(ps, d) < |ps| {
      assert ps[FirstAt(ps, d)].subnet == d;
    }
  }

  /** The host IP that a cycle with these peers gives a subnet it newly discovers. */
  function Gained(ps: seq<Node>, f: Failures, d: Destination): Option<nat> {
    var i := FirstAt(ps, d);
    if i < |ps| && d !in f.addPeer then ps[i].hostIp else None
  }

  /** Whether such a cycle gives the subnet a route. */
  predicate GainsRoute(ps: seq<Node>, f: Failures, d: Destination) {
    var i := FirstAt(ps, d);
    i < |ps| && ps[i].hostIp.Some? && Parses(d) && d !in f.injectRoute
  }

  /** Only the first peer of a subnet counts, and only when the subnet was not known. */
  lemma {:induction false} DiscoveryOf(s: AgentState, ps: seq<Node>, n: nat, f: Failures, d: Destination)
    requires n <= |ps|
    ensures var s1 := AllDiscovered(s, ps, n, f); var i := FirstAt(ps, d);
            d in s1.known <==> (d in s.known || i < n)
    ensures var s1 := AllDiscovered(s, ps, n, f); var i := FirstAt(ps, d);
            PeerOf(s1, d) == if i < n && d !in s.known && Gained(ps, f, d).Some? then Gained(ps, f, d) else PeerOf(s, d)
  {
    if n > 0 {
      DiscoveryOf(s, ps, n - 1, f, d);
    }
  }

  lemma {:induction false} RouteDiscoveryOf(s: AgentState, ps: seq<Node>, n: nat, f: Failures, d: Destination)
    requires n <= |ps|
    ensures var s1 := AllDiscovered(s, ps, n, f); var i := FirstAt(ps, d);
            d in s1.quilt.tracked <==> (d in s.quilt.tracked || (i < n && d !in s.known && GainsRoute(ps, f, d)))
  {
    if n > 0 {
      DiscoveryOf(s, ps, n - 1, f, d);
      RouteDiscoveryOf(s, ps, n - 1, f, d);
    }
  }

  /** One cycle, subnet by subnet. */
  lemma CycleOf(s: AgentState, self: string, nodes: seq<Node>, f: Failures, d: Destination)
    ensures var s' := Cycled(s, self, Some(nodes), f); var ps := Current(nodes, self);
            d in s'.known <==> d in SubnetsOf(ps)
    ensures var s' := Cycled(s, self, Some(nodes), f); var ps := Current(nodes, self);
            PeerOf(s', d) == if d in s.known then (if d in SubnetsOf(ps) then PeerOf(s, d) else None)
                             else if Gained(ps, f, d).Some? then Gained(ps, f, d) else PeerOf(s, d)
    ensures var s' := Cycled(s, self, Some(nodes), f); var ps := Current(nodes, self);
            d in s'.quilt.tracked <==>
              (if d in s.known then d in s.quilt.tracked && (d in SubnetsOf(ps) || !Parses(d) || d in f.removeRoute)
               else d in s.quilt.tracked || GainsRoute(ps, f, d))
  {
    var ps := Current(nodes, self);
    hide AllDiscovered;
    DiscoveryOf(s, ps, |ps|, f, d);
    RouteDiscoveryOf(s, ps, |ps|, f, d);
    ListedIff(ps, d);
  }

  predicate PeersWithinKnown(s: AgentState) {
    s.vxlan.peers.Keys <= s.known
  }

  /** After a cycle whose listing succeeds, whatever failed, the known subnets are the listed ones and hold all peers. */
  lemma CycleFollowsListing(s: AgentState, self: string, nodes: seq<Node>, f: Failures)
    requires PeersWithinKnown(s)
    ensures var s' := Cycled(s, self, Some(nodes), f);
            PeersWithinKnown(s') && forall d :: d in s'.known <==> ListsUp(nodes, self, d)
  {
    hide Cycled, ListsUp;
    CycleFollowsCurrent(s, self, nodes, f);
    forall d
      ensures d in SubnetsOf(Current(nodes, self)) <==> ListsUp(nodes, self, d)
    {
      CurrentMeans(nodes, self, d);
    }
  }

  lemma CycleFollowsCurrent(s: AgentState, self: string, nodes: seq<Node>, f: Failures)
    requires PeersWithinKnown(s)
    ensures var s' := Cycled(s, self, Some(nodes), f);
            s'.known == SubnetsOf(Current(nodes, self)) && PeersWithinKnown(s')
  {
    hide Cycled;
    var s' := Cycled(s, self, Some(nodes), f);
    var ps := Current(nodes, self);
    forall d
      ensures d in s'.known <==> d in SubnetsOf(ps)
      ensures d in s'.vxlan.peers ==> d in s'.known
    {
      CycleOf(s, self, nodes, f, d);
      ListedIff(ps, d);
      assert d in s'.vxlan.peers <==> PeerOf(s', d).Some?;
    }
  }

  /** When the peers are exactly the known subnets after a cycle. */
  lemma PeersMatchIff(s: AgentState, self: string, nodes: seq<Node>, f: Failures)
    requires PeersWithinKnown(s)
    ensures var s' := Cycled(s, self, Some(nodes), f); var ps := Current(nodes, self);
            s'.vxlan.peers.Keys == s'.known <==>
              forall d :: d in SubnetsOf(ps) ==> if d in s.known then d in s.vxlan.peers else Gained(ps, f, d).Some?
  {
    hide Cycled, Gained;
    var s' := Cycled(s, self, Some(nodes), f);
    var ps := Current(nodes, self);
    CycleFollowsCurrent(s, self, nodes, f);
    forall d
      ensures d in s'.vxlan.peers <==> PeerOf(s', d).Some?
      ensures d in SubnetsOf(ps) ==> (PeerOf(s', d).Some? <==> if d in s.known then d in s.vxlan.peers else Gained(ps, f, d).Some?)
    {
      CycleOf(s, self, nodes, f, d);
    }
    assert s'.vxlan.peers.Keys == s'.known <==> forall d :: d in s'.known ==> d in s'.vxlan.peers;
  }

  /** When the tracked routes are exactly the known subnets after a cycle that started so. */
  lemma RoutesMatchIff(s: AgentState, self: string, nodes: seq<Node>, f: Failures)
    requires s.quilt.tracked.Keys == s.known
    ensures var s' := Cycled(s, self, Some(nodes), f); var ps := Current(nodes, self);
            s'.quilt.tracked.Keys == s'.known <==>
              (forall d :: d in SubnetsOf(ps) && d !in s.known ==> GainsRoute(ps, f, d)) &&
              (forall d :: d in s.known && d !in SubnetsOf(ps) ==> Parses(d) && d !in f.removeRoute)
  {
    hide Cycled, GainsRoute;
    var s' := Cycled(s, self, Some(nodes), f);
    var ps := Current(nodes, self);
    forall d
      ensures d in s'.known <==> d in SubnetsOf(ps)
      ensures d in s.known && d in SubnetsOf(ps) ==> d in s'.quilt.tracked
      ensures d in s.known && d !in SubnetsOf(ps) ==> (d in s'.quilt.tracked <==> !Parses(d) || d in f.removeRoute)
      ensures d !in s.known && d in SubnetsOf(ps) ==> (d in s'.quilt.tracked <==> GainsRoute(ps, f, d))
      ensures d !in s.known && d !in SubnetsOf(ps) ==> d !in s'.quilt.tracked
    {
      CycleOf(s, self, nodes, f, d);
      ListedIff(ps, d);
      NoRouteUnlisted(ps, f, d);
    }
    assert s'.quilt.tracked.Keys == s'.known <==> forall d :: d in s'.quilt.tracked <==> d in s'.known;
  }

  lemma NoRouteUnlisted(ps: seq<Node>, f: Failures, d: Destination)
    ensures GainsRoute(ps, f, d) ==> d in SubnetsOf(ps)
  {
    ListedIff(ps, d);
  }

  // ---- runs --------------------------------------------------------------

  datatype Tick = Tick(listing: Option<seq<Node>>, failures: Failures)

  function Run(self: string, ticks: seq<Tick>, n: nat): AgentState
    requires n <= |ticks|
  {
    if n == 0 then FRESH_AGENT
    else Cycled(Run(self, ticks, n - 1), self, ticks[n - 1].listing, ticks[n - 1].failures)
  }

  /** The subnets of the last of the first `n` listings that succeeded. */
  function Latest(self: string, ticks: seq<Tick>, n: nat): set<Destination>
    requires n <= |ticks|
  {
    if n == 0 then {}
    else if ticks[n - 1].listing.None? then Latest(self, ticks, n - 1)
    else SubnetsOf(Current(ticks[n - 1].listing.value, self))
  }

  /** The last of the first `n` listings that succeeded lists the subnet. */
  ghost predicate LastListed(self: string, ticks: seq<Tick>, n: nat, d: Destination)
    requires n <= |ticks|
  {
    exists j: nat :: j < n && ticks[j].listing.Some? && ListsUp(ticks[j].listing.value, self, d)
                     && forall k :: j < k < n ==> ticks[k].listing.None?
  }

  lemma {:induction false} LatestMeans(self: string, ticks: seq<Tick>, n: nat, d: Destination)
    requires n <= |ticks|
    ensures d in Latest(self, ticks, n) <==> LastListed(self, ticks, n, d)
  {
    hide ListsUp;
    if n > 0 {
      var m := n - 1;
      LatestMeans(self, ticks, m, d);
      if ticks[m].listing.None? {
        if LastListed(self, ticks, m, d) {
          var j: nat :| j < m && ticks[j].listing.Some? && ListsUp(ticks[j].listing.value, self, d) && forall k :: j < k < m ==> ticks[k].listing.None?;
          assert forall k :: j < k < n ==> ticks[k].listing.None?;
        }
        if LastListed(self, ticks, n, d) {
          var j: nat :| j < n && ticks[j].listing.Some? && ListsUp(ticks[j].listing.value, self, d) && forall k :: j < k < n ==> ticks[k].listing.None?;
          assert j < m;
        }
      } else {
        CurrentMeans(ticks[m].listing.value, self, d);
        if LastListed(self, ticks, n, d) {
          var j: nat :| j < n && ticks[j].listing.Some? && ListsUp(ticks[j].listing.value, self, d) && forall k :: j < k < n ==> ticks[k].listing.None?;
          assert j == m;
        }
      }
    }
  }

  /** In any run, the known subnets are those last listed and hold every VXLAN peer. */
  lemma KnownIsLastListed(self: string, ticks: seq<Tick>, n: nat)
    requires n <= |ticks|
    ensures forall d :: d in Run(self, ticks, n).known <==> LastListed(self, ticks, n, d)
    ensures PeersWithinKnown(Run(self, ticks, n))
  {
    hide Run, LastListed;
    KnownIsLatest(self, ticks, n);
    forall d
      ensures d in Latest(self, ticks, n) <==> LastListed(self, ticks, n, d)
    {
      LatestMeans(self, ticks, n, d);
    }
  }

  lemma {:induction false} KnownIsLatest(self: string, ticks: seq<Tick>, n: nat)
    requires n <= |ticks|
    ensures Run(self, ticks, n).known == Latest(self, ticks, n)
    ensures PeersWithinKnown(Run(self, ticks, n))
  {
    hide Cycled;
    if n > 0 {
      KnownIsLatest(self, ticks, n - 1);
      var t := ticks[n - 1];
      if t.listing.Some? {
        CycleFollowsCurrent(Run(self, ticks, n - 1), self, t.listing.value, t.failures);
      } else {
        FailedListing(Run(self, ticks, n - 1), self, t.failures);
      }
    }
  }

  lemma FailedListing(s: AgentState, self: string, f: Failures)
    ensures Cycled(s, self, None, f) == s
  {}

  /** The subnet came up in cycle `j` and has been in every successful listing since. */
  predicate AppearedAt(self: string, ticks: seq<Tick>, n: nat, d: Destination, j: nat) {
    j < n <= |ticks| && ticks[j].listing.Some? &&
    d !in Latest(self, ticks, j) && forall k :: j < k <= n ==> d in Latest(self, ticks, k)
  }

  /** What the cycle in which a subnet came up made of it. */
  function GainedAt(self: string, t: Tick, d: Destination): Option<nat>
    requires t.listing.Some?
  {
    Gained(Current(t.listing.value, self), t.failures, d)
  }

  /** The subnet came up in cycle `j`: the listing before, if any, did not have it up, and every later one did. */
  ghost predicate CameUpAt(self: string, ticks: seq<Tick>, n: nat, d: Destination, j: nat) {
    && j < n <= |ticks| && ticks[j].listing.Some? && ListsUp(ticks[j].listing.value, self, d)
    && !LastListed(self, ticks, j, d)
    && forall k :: j < k < n && ticks[k].listing.Some? ==> ListsUp(ticks[k].listing.value, self, d)
  }

  /**
    In any run, the peer of a subnet that is listed as up is what the cycle in which it last came up
    made of the first node listed for it: its host address, or no peer if that was no address or the
    addition failed. A later change or a failed addition is never revisited.
   */
  lemma PeerFromAppearance(self: string, ticks: seq<Tick>, n: nat, d: Destination) returns (j: nat, k: nat)
    requires n <= |ticks| && LastListed(self, ticks, n, d)
    ensures CameUpAt(self, ticks, n, d, j) && FirstUp(ticks[j].listing.value, self, d, k)
    ensures PeerOf(Run(self, ticks, n), d) == if d in ticks[j].failures.addPeer then None else ticks[j].listing.value[k].hostIp
  {
    hide Run, ListsUp, FirstUp, LastListed;
    LatestMeans(self, ticks, n, d);
    PeerFromAppearanceAt(self, ticks, n, d);
    j :| AppearedAt(self, ticks, n, d, j) && PeerOf(Run(self, ticks, n), d) == GainedAt(self, ticks[j], d);
    LatestMeans(self, ticks, j, d);
    assert d in Latest(self, ticks, j + 1);
    CurrentMeans(ticks[j].listing.value, self, d);
    k :| FirstUp(ticks[j].listing.value, self, d, k);
    forall m | j < m < n && ticks[m].listing.Some?
      ensures ListsUp(ticks[m].listing.value, self, d)
    {
      assert d in Latest(self, ticks, m + 1);
      CurrentMeans(ticks[m].listing.value, self, d);
    }
  }

  lemma {:induction false} PeerFromAppearanceAt(self: string, ticks: seq<Tick>, n: nat, d: Destination)
    requires n <= |ticks| && d in Latest(self, ticks, n)
    ensures exists j: nat :: AppearedAt(self, ticks, n, d, j) && PeerOf(Run(self, ticks, n), d) == GainedAt(self, ticks[j], d)
  {
    hide Cycled, Gained;
    var t := ticks[n - 1];
    var s := Run(self, ticks, n - 1);
    KnownIsLatest(self, ticks, n - 1);
    if t.listing.Some? {
      CycleOf(s, self, t.listing.value, t.failures, d);
    } else {
      FailedListing(s, self, t.failures);
    }
    if d in Latest(self, ticks, n - 1) {
      PeerFromAppearanceAt(self, ticks, n - 1, d);
      var j: nat :| AppearedAt(self, ticks, n - 1, d, j) && PeerOf(s, d) == GainedAt(self, ticks[j], d);
      assert AppearedAt(self, ticks, n, d, j);
    } else {
      assert AppearedAt(self, ticks, n, d, n - 1);
      assert d !in s.vxlan.peers;
    }
  }

  // ---- runs without failures ---------------------------------------------

  const NO_FAILURES := Failures({}, {}, {}, {})

  /** Nothing fails, and every listed peer has an IPv4 host address and a subnet in network form. */
  predicate Clean(self: string, t: Tick) {
    t.failures == NO_FAILURES &&
    (t.listing.Some? ==>
      var ps := Current(t.listing.value, self);
      forall i :: 0 <= i < |ps| ==> ps[i].hostIp.Some? && InNetworkForm(ps[i].subnet))
  }

  predicate TidySubnets(ds: set<Destination>) {
    forall d :: d in ds ==> InNetworkForm(d)
  }

  /** In a run without failures the peers and the routes are exactly the subnets last listed. */
  lemma CleanRunFollowsListing(self: string, ticks: seq<Tick>, n: nat)
    requires n <= |ticks| && forall i :: 0 <= i < n ==> Clean(self, ticks[i])
    ensures var s := Run(self, ticks, n);
            s.known == s.vxlan.peers.Keys == s.quilt.tracked.Keys && forall d :: d in s.known <==> LastListed(self, ticks, n, d)
  {
    hide Run, LastListed, Clean;
    CleanRunFollowsLatest(self, ticks, n);
    KnownIsLastListed(self, ticks, n);
  }

  lemma {:induction false} CleanRunFollowsLatest(self: string, ticks: seq<Tick>, n: nat)
    requires n <= |ticks| && forall i :: 0 <= i < n ==> Clean(self, ticks[i])
    ensures var s := Run(self, ticks, n);
            s.known == s.vxlan.peers.Keys == s.quilt.tracked.Keys == Latest(self, ticks, n) && TidySubnets(s.known)
  {
    hide Cycled, Gained, GainsRoute;
    KnownIsLatest(self, ticks, n);
    if n > 0 {
      CleanRunFollowsLatest(self, ticks, n - 1);
      var t := ticks[n - 1];
      var s := Run(self, ticks, n - 1);
      assert Clean(self, t);
      if t.listing.Some? {
        var ps := Current(t.listing.value, self);
        CleanListing(self, t);
        PeersMatchIff(s, self, t.listing.value, t.failures);
        RoutesMatchIff(s, self, t.listing.value, t.failures);
      } else {
        FailedListing(s, self, t.failures);
      }
    }
  }

  lemma CleanListing(self: string, t: Tick)
    requires Clean(self, t) && t.listing.Some?
    ensures var ps := Current(t.listing.value, self);
            TidySubnets(SubnetsOf(ps)) &&
            forall d :: d in SubnetsOf(ps) ==> Gained(ps, t.failures, d).Some? && GainsRoute(ps, t.failures, d)
  {
    var ps := Current(t.listing.value, self);
    forall d | d in SubnetsOf(ps)
      ensures InNetworkForm(d) && Gained(ps, t.failures, d).Some? && GainsRoute(ps, t.failures, d)
    {
      ListedIff(ps, d);
      assert ps[FirstAt(ps, d)].hostIp.Some?;
    }
  }

  // ---- shutdown ----------------------------------------------------------

  /** Whatever fails, a shutdown leaves no VXLAN peer; it leaves no route exactly when every tracked route has a peer and its removal goes through. */
  lemma ShutdownClears(s: AgentState, f: Failures)
    ensures ShutDown(s, f).vxlan.peers == map[]
    ensures ShutDown(s, f).quilt.tracked == map[] <==>
              (forall d :: d in s.quilt.tracked ==> d in s.vxlan.peers && Parses(d) && d !in f.removeRoute)
    ensures ShutDown(s, f).vxlan.fdb == {} <==>
              (forall ip :: ip in s.vxlan.fdb ==> ip in HostIps(s.vxlan, s.vxlan.peers.Keys - f.removePeer))
  {
    var s' := ShutDown(s, f);
    assert forall d :: d in s'.quilt.tracked <==> d in s.quilt.tracked && !(d in s.vxlan.peers && Parses(d) && d !in f.removeRoute);
    assert s'.quilt.tracked == map[] <==> s'.quilt.tracked.Keys == {};
    var cleared := HostIps(s.vxlan, s.vxlan.peers.Keys - f.removePeer);
    assert forall ip :: ip in s'.vxlan.fdb <==> ip in s.vxlan.fdb && ip !in cleared;
  }

  // ---- the kernel's tables -----------------------------------------------

  /** Every listed subnet that parses is in network form. */
  predicate TidyListing(self: string, t: Tick) {
    t.listing.Some? ==> forall d :: d in SubnetsOf(Current(t.listing.value, self)) && Parses(d) ==> InNetworkForm(d)
  }

  /** In any run over tidy listings, whatever fails, the tracked routes are the installed ones. */
  lemma {:induction false} RunKeepsRoutesInStep(self: string, ticks: seq<Tick>, n: nat)
    requires n <= |ticks| && forall i :: 0 <= i < n ==> TidyListing(self, ticks[i])
    ensures InStep(Run(self, ticks, n).quilt)
    ensures forall d :: d in Run(self, ticks, n).known && Parses(d) ==> InNetworkForm(d)
  {
    hide InStep, Cycled, InNetworkForm;
    if n == 0 {
      FreshInStep();
    } else {
      RunKeepsRoutesInStep(self, ticks, n - 1);
      var t := ticks[n - 1];
      var s := Run(self, ticks, n - 1);
      assert TidyListing(self, t);
      KnownIsLatest(self, ticks, n);
      if t.listing.Some? {
        CycleKeepsRoutesInStep(s, self, t.listing.value, t.failures);
      } else {
        FailedListing(s, self, t.failures);
      }
    }
  }

  lemma FreshInStep()
    ensures InStep(FRESH_AGENT.quilt)
  {}

  lemma CycleKeepsRoutesInStep(s: AgentState, self: string, nodes: seq<Node>, f: Failures)
    requires InStep(s.quilt)
    requires forall d :: (d in s.known || d in SubnetsOf(Current(nodes, self))) && Parses(d) ==> InNetworkForm(d)
    ensures InStep(Cycled(s, self, Some(nodes), f).quilt)
  {
    hide InNetworkForm, InStep, AllDiscovered, Dropped;
    var ps := Current(nodes, self);
    var s1 := AllDiscovered(s, ps, |ps|, f);
    forall d
      ensures d in s1.known ==> d in s.known || d in SubnetsOf(ps)
    {
      DiscoveryOf(s, ps, |ps|, f, d);
      ListedIff(ps, d);
    }
    forall i | 0 <= i < |ps|
      ensures Parses(ps[i].subnet) ==> InNetworkForm(ps[i].subnet)
    {
      assert ps[i].subnet in SubnetsOf(ps);
    }
    DiscoveryKeepsRoutesInStep(s, ps, |ps|, f);
    DroppedInStep(s1.quilt, Removable(s1.known - SubnetsOf(ps), f.removeRoute));
  }

  lemma {:induction false} DiscoveryKeepsRoutesInStep(s: AgentState, ps: seq<Node>, n: nat, f: Failures)
    requires InStep(s.quilt) && n <= |ps|
    requires forall i :: 0 <= i < |ps| && Parses(ps[i].subnet) ==> InNetworkForm(ps[i].subnet)
    ensures InStep(AllDiscovered(s, ps, n, f).quilt)
  {
    hide InNetworkForm, InStep, Added;
    if n > 0 {
      DiscoveryKeepsRoutesInStep(s, ps, n - 1, f);
      var d := ps[n - 1].subnet;
      StepInStepIff(AllDiscovered(s, ps, n - 1, f).quilt, Add(d, VXLAN_INTERFACE, d !in f.injectRoute));
    }
  }

  /** Every entry of the forwarding database is some peer's host IP. */
  ghost predicate NoStrayEntry(v: VxlanState) {
    forall ip :: ip in v.fdb ==> exists d :: d in v.peers && v.peers[d] == ip
  }

  /** Unless a removal fails, a cycle leaves no entry without its peer. */
  lemma CycleLeavesNoStray(s: AgentState, self: string, nodes: seq<Node>, f: Failures)
    requires PeersWithinKnown(s) && NoStrayEntry(s.vxlan) && f.removePeer == {}
    ensures NoStrayEntry(Cycled(s, self, Some(nodes), f).vxlan)
  {
    hide AllDiscovered;
    var ps := Current(nodes, self);
    var s1 := AllDiscovered(s, ps, |ps|, f);
    var gone := s1.known - SubnetsOf(ps);
    var s' := Cycled(s, self, Some(nodes), f);
    DiscoveryLeavesNoStray(s, ps, |ps|, f);
    forall ip | ip in s'.vxlan.fdb
      ensures exists d :: d in s'.vxlan.peers && s'.vxlan.peers[d] == ip
    {
      var d :| d in s1.vxlan.peers && s1.vxlan.peers[d] == ip;
      assert d in gone ==> ip in HostIps(s1.vxlan, gone - f.removePeer);
      assert d in s'.vxlan.peers;
    }
  }

  lemma {:induction false} DiscoveryLeavesNoStray(s: AgentState, ps: seq<Node>, n: nat, f: Failures)
    requires PeersWithinKnown(s) && NoStrayEntry(s.vxlan) && n <= |ps|
    ensures NoStrayEntry(AllDiscovered(s, ps, n, f).vxlan) && PeersWithinKnown(AllDiscovered(s, ps, n, f))
  {
    hide Added;
    if n > 0 {
      DiscoveryLeavesNoStray(s, ps, n - 1, f);
      var v := AllDiscovered(s, ps, n - 1, f).vxlan;
      var v' := AllDiscovered(s, ps, n, f).vxlan;
      var d := ps[n - 1].subnet;
      forall ip | ip in v'.fdb
        ensures exists x :: x in v'.peers && v'.peers[x] == ip
      {
        if ip in v.fdb {
          var x :| x in v.peers && v.peers[x] == ip;
          assert x in v'.peers && v'.peers[x] == ip;
        } else {
          assert d in v'.peers && v'.peers[d] == ip;
        }
      }
    }
  }

  lemma {:induction false} CleanRunLeavesNoStray(self: string, ticks: seq<Tick>, n: nat)
    requires n <= |ticks| && forall i :: 0 <= i < n ==> Clean(self, ticks[i])
    ensures NoStrayEntry(Run(self, ticks, n).vxlan)
  {
    hide Cycled, NoStrayEntry;
    if n == 0 {
      FreshHasNoStray();
    } else {
      CleanRunLeavesNoStray(self, ticks, n - 1);
      KnownIsLatest(self, ticks, n - 1);
      var t := ticks[n - 1];
      var s := Run(self, ticks, n - 1);
      assert Clean(self, t);
      if t.listing.Some? {
        CycleLeavesNoStray(s, self, t.listing.value, t.failures);
      } else {
        FailedListing(s, self, t.failures);
      }
    }
  }

  lemma FreshHasNoStray()
    ensures NoStrayEntry(FRESH_AGENT.vxlan)
  {}

  /** A run without failures followed by a shutdown without failures leaves every table empty, in the kernel too. */
  lemma CleanRunShutsDownClean(self: string, ticks: seq<Tick>, n: nat)
    requires n <= |ticks| && forall i :: 0 <= i < n ==> Clean(self, ticks[i])
    ensures var s' := ShutDown(Run(self, ticks, n), NO_FAILURES);
            s'.vxlan == VxlanState(map[], {}) && s'.quilt == RouteState(map[], map[])
  {
    hide Run, InNetworkForm, Clean, Dropped;
    var s := Run(self, ticks, n);
    var s' := ShutDown(s, NO_FAILURES);
    CleanRunFollowsLatest(self, ticks, n);
    CleanRunLeavesNoStray(self, ticks, n);
    forall i | 0 <= i < n
      ensures TidyListing(self, ticks[i])
    {
      CleanIsTidy(self, ticks[i]);
    }
    RunKeepsRoutesInStep(self, ticks, n);
    forall d | d in s.quilt.tracked
      ensures Parses(d)
    {
      KnownForm(d);
    }
    ShutdownClears(s, NO_FAILURES);
    assert Removable(s.vxlan.peers.Keys, {}) == s.vxlan.peers.Keys;
    DroppedInStep(s.quilt, s.vxlan.peers.Keys);
    assert s'.quilt.kernel.Keys == {};
  }

  lemma CleanIsTidy(self: string, t: Tick)
    requires Clean(self, t)
    ensures TidyListing(self, t)
  {}

  // ---- interfaces --------------------------------------------------------

  /** Every route, tracked or installed, goes over the VXLAN interface. */
  predicate OverVxlan(s: RouteState) {
    (forall d :: d in s.tracked ==> s.tracked[d] == "vxlan100") && forall n :: n in s.kernel ==> s.kernel[n] == "vxlan100"
  }

  lemma {:induction false} DiscoveryKeepsOverVxlan(s: AgentState, ps: seq<Node>, n: nat, f: Failures)
    requires OverVxlan(s.quilt) && n <= |ps|
    ensures OverVxlan(AllDiscovered(s, ps, n, f).quilt)
  {
    hide Network;
    if n > 0 {
      DiscoveryKeepsOverVxlan(s, ps, n - 1, f);
    }
  }

  lemma DroppingKeepsOverVxlan(s: RouteState, gone: set<Destination>)
    requires OverVxlan(s)
    ensures OverVxlan(Dropped(s, gone))
  {
    hide Networks;
  }

  /** In any run every route goes over the VXLAN interface. */
  lemma {:induction false} RunKeepsOverVxlan(self: string, ticks: seq<Tick>, n: nat)
    requires n <= |ticks|
    ensures OverVxlan(Run(self, ticks, n).quilt)
  {
    hide OverVxlan, Dropped, AllDiscovered;
    if n == 0 {
      FreshOverVxlan();
    } else {
      RunKeepsOverVxlan(self, ticks, n - 1);
      var t, s := ticks[n - 1], Run(self, ticks, n - 1);
      if t.listing.Some? {
        var ps := Current(t.listing.value, self);
        var s1 := AllDiscovered(s, ps, |ps|, t.failures);
        DiscoveryKeepsOverVxlan(s, ps, |ps|, t.failures);
        DroppingKeepsOverVxlan(s1.quilt, Removable(s1.known - SubnetsOf(ps), t.failures.removeRoute));
      }
    }
  }

  lemma FreshOverVxlan()
    ensures OverVxlan(FRESH_AGENT.quilt)
  {}
}
