/** The mesh agent: VXLAN peers, routes and known subnets that follow the polled node list. */
module Overlay {
  import opened Wrappers
  import opened Routes

  const VXLAN_INTERFACE := "vxlan100"

  /** A listed node; `hostIp` is None when its text is not an IPv4 address. */
  datatype Node = Node(nodeId: string, hostIp: Option<nat>, subnet: Destination, status: string)

  /** The subnets whose operation has no effect on the kernel or the runtime in one cycle. */
  datatype Failures = Failures(
    addPeer: set<Destination>, injectRoute: set<Destination>,
    removePeer: set<Destination>, removeRoute: set<Destination>)

  /** Peer host IPs by subnet, and the host IPs the forwarding database holds. */
  datatype VxlanState = VxlanState(peers: map<Destination, nat>, fdb: set<nat>)

  datatype AgentState = AgentState(known: set<Destination>, vxlan: VxlanState, quilt: RouteState)

  const FRESH_AGENT := AgentState({}, VxlanState(map[], {}), RouteState(map[], map[]))

  // ---- the VXLAN manager -------------------------------------------------

  function PeerAdded(v: VxlanState, subnet: Destination, ip: nat, accepted: bool): (VxlanState, bool) {
    if accepted then (VxlanState(v.peers[subnet := ip], v.fdb + {ip}), true) else (v, false)
  }

  function PeerRemoved(v: VxlanState, subnet: Destination, accepted: bool): (VxlanState, bool) {
    if subnet !in v.peers then (v, true)
    else (VxlanState(v.peers - {subnet}, if accepted then v.fdb - {v.peers[subnet]} else v.fdb), accepted)
  }

  function HostIps(v: VxlanState, subnets: set<Destination>): set<nat> {
    set d | d in subnets && d in v.peers :: v.peers[d]
  }

  /** The peers of `gone` dropped, with the entries of those whose removal did not fail. */
  function PeersDropped(v: VxlanState, gone: set<Destination>, failed: set<Destination>): VxlanState {
    VxlanState(v.peers - gone, v.fdb - HostIps(v, gone - failed))
  }

  class VxlanManager {
    var peers: map<Destination, nat>
    ghost var fdb: set<nat>

    ghost function State(): VxlanState
      reads this
    {
      VxlanState(peers, fdb)
    }

    constructor ()
      ensures State() == VxlanState(map[], {})
    {
      peers, fdb := map[], {};
    }

    method AddPeer(subnet: Destination, ip: nat, accepted: bool) returns (ok: bool)
      modifies this
      ensures (State(), ok) == PeerAdded(old(State()), subnet, ip, accepted)
    {
      if !accepted { return false; }
      fdb := fdb + {ip};
      peers := peers[subnet := ip];
      return true;
    }

    /** The peer is forgotten before its entry is deleted, so a failed deletion leaves the entry behind. */
    method RemovePeer(subnet: Destination, accepted: bool) returns (ok: bool)
      modifies this
      ensures (State(), ok) == PeerRemoved(old(State()), subnet, accepted)
    {
      if subnet in peers {
        ghost var ip := peers[subnet];
        peers := peers - {subnet};
        if !accepted { return false; }
        fdb := fdb - {ip};
      }
      return true;
    }
  }

  /** An addition succeeds exactly when the kernel accepts it, and then adds the peer and its entry; otherwise nothing changes. */
  lemma PeerAddedHolds(v: VxlanState, subnet: Destination, ip: nat, accepted: bool)
    ensures var (v', ok) := PeerAdded(v, subnet, ip, accepted);
            && ok == accepted && (!ok ==> v' == v)
            && (ok ==> subnet in v'.peers && v'.peers[subnet] == ip
                       && (forall x :: x in v'.fdb <==> x in v.fdb || x == ip)
                       && forall d :: d != subnet ==> (d in v'.peers <==> d in v.peers) && (d in v.peers ==> v'.peers[d] == v.peers[d]))
  {}

  /** A removal forgets the peer whether or not its entry can be deleted, and fails exactly when there was a peer whose entry could not. */
  lemma PeerRemovedHolds(v: VxlanState, subnet: Destination, accepted: bool)
    ensures var (v', ok) := PeerRemoved(v, subnet, accepted);
            && (ok <==> subnet !in v.peers || accepted)
            && subnet !in v'.peers
            && (forall d :: d != subnet ==> (d in v'.peers <==> d in v.peers) && (d in v.peers ==> v'.peers[d] == v.peers[d]))
            && forall x :: x in v'.fdb <==> x in v.fdb && !(subnet in v.peers && accepted && x == v.peers[subnet])
  {}

  /** Every peer's host IP is in the forwarding database. */
  predicate Covered(v: VxlanState) {
    forall d :: d in v.peers ==> v.peers[d] in v.fdb
  }

  /** Removing a peer keeps the others covered exactly when its deletion fails or none of them shares its host IP. */
  lemma RemovalKeepsCoverIff(v: VxlanState, subnet: Destination, accepted: bool)
    requires Covered(v) && subnet in v.peers
    ensures Covered(PeerRemoved(v, subnet, accepted).0) <==> (accepted ==> forall d :: d in v.peers && d != subnet ==> v.peers[d] != v.peers[subnet])
  {
    var v' := PeerRemoved(v, subnet, accepted).0;
    if d :| d in v.peers && d != subnet && v.peers[d] == v.peers[subnet] {
      assert d in v'.peers;
    }
  }

  // ---- one cycle ---------------------------------------------------------

  /** The listed nodes that are up, without the agent's own. */
  function Current(nodes: seq<Node>, self: string): seq<Node> {
    if nodes == [] then []
    else if nodes[0].nodeId != self && nodes[0].status == "up" then [nodes[0]] + Current(nodes[1..], self)
    else Current(nodes[1..], self)
  }

  function SubnetsOf(ps: seq<Node>): set<Destination> {
    set i | 0 <= i < |ps| :: ps[i].subnet
  }

  function Discovered(s: AgentState, peer: Node, f: Failures): AgentState {
    var d := peer.subnet;
    if d in s.known then s
    else if peer.hostIp.None? then s.(known := s.known + {d})
    else AgentState(s.known + {d},
                    PeerAdded(s.vxlan, d, peer.hostIp.value, d !in f.addPeer).0,
                    Added(s.quilt, d, VXLAN_INTERFACE, d !in f.injectRoute).0)
  }

  function AllDiscovered(s: AgentState, ps: seq<Node>, n: nat, f: Failures): AgentState
    requires n <= |ps|
  {
    if n == 0 then s else Discovered(AllDiscovered(s, ps, n - 1, f), ps[n - 1], f)
  }

  /** The subnets of `gone` forgotten, removed as peers and removed as routes. */
  function Forgotten(s: AgentState, gone: set<Destination>, f: Failures): AgentState {
    AgentState(s.known - gone, PeersDropped(s.vxlan, gone, f.removePeer),
               Dropped(s.quilt, Removable(gone, f.removeRoute)))
  }

  /** A cycle: nothing when the listing failed. */
  function Cycled(s: AgentState, self: string, listing: Option<seq<Node>>, f: Failures): AgentState {
    if listing.None? then s
    else
      var ps := Current(listing.value, self);
      var s1 := AllDiscovered(s, ps, |ps|, f);
      Forgotten(s1, s1.known - SubnetsOf(ps), f)
  }

  /** The shutdown removes the route and the entry of every VXLAN peer. */
  function ShutDown(s: AgentState, f: Failures): AgentState {
    var subnets := s.vxlan.peers.Keys;
    AgentState(s.known, PeersDropped(s.vxlan, subnets, f.removePeer), Dropped(s.quilt, Removable(subnets, f.removeRoute)))
  }

  lemma PeersDroppedStep(v: VxlanState, done: set<Destination>, failed: set<Destination>, d: Destination)
    requires d !in done
    ensures PeerRemoved(PeersDropped(v, done, failed), d, d !in failed).0 == PeersDropped(v, done + {d}, failed)
  {
    var left := PeersDropped(v, done, failed);
    var more := if d in v.peers && d !in failed then {v.peers[d]} else {};
    assert HostIps(v, done + {d} - failed) == HostIps(v, done - failed) + more;
    assert v.peers - done - {d} == v.peers - (done + {d});
    assert d in v.peers <==> d in left.peers;
    assert d !in v.peers ==> left.peers == v.peers - (done + {d});
  }

  lemma PeersDroppedNothing(v: VxlanState, failed: set<Destination>)
    ensures PeersDropped(v, {}, failed) == v
  {
    assert {} - failed == {} && HostIps(v, {}) == {};
    assert v.peers - {} == v.peers && v.fdb - {} == v.fdb;
  }

  class Agent {
    const nodeId: string
    const vxlan: VxlanManager
    const quilt: RouteManager
    var known: set<Destination>

    ghost function State(): AgentState
      reads this, vxlan, quilt
    {
      AgentState(known, vxlan.State(), quilt.State())
    }

    constructor (id: string)
      ensures nodeId == id && State() == FRESH_AGENT
      ensures fresh(vxlan) && fresh(quilt)
    {
      nodeId := id;
      known := {};
      vxlan := new VxlanManager();
      quilt := new RouteManager();
    }

    method PeerSyncCycle(listing: Option<seq<Node>>, f: Failures)
      modifies this, vxlan, quilt
      ensures State() == Cycled(old(State()), nodeId, listing, f)
    {
      if listing.None? { return; }
      var ps := Current(listing.value, nodeId);
      for i := 0 to |ps|
        invariant State() == AllDiscovered(old(State()), ps, i, f)
      {
        Discover(ps[i], f);
      }
      Forget(known - SubnetsOf(ps), f);
    }

    method Discover(peer: Node, f: Failures)
      modifies this, vxlan, quilt
      ensures State() == Discovered(old(State()), peer, f)
    {
      if peer.subnet !in known {
        if peer.hostIp.Some? {
          var _ := vxlan.AddPeer(peer.subnet, peer.hostIp.value, peer.subnet !in f.addPeer);
          var _ := quilt.AddRoute(peer.subnet, VXLAN_INTERFACE, peer.subnet !in f.injectRoute);
        }
        known := known + {peer.subnet};
      }
    }

    method Forget(gone: set<Destination>, f: Failures)
      modifies this, vxlan, quilt
      ensures State() == Forgotten(old(State()), gone, f)
    {
      ghost var v, q := vxlan.State(), quilt.State();
      var todo := gone;
      DroppedNothing(q, f.removeRoute);
      PeersDroppedNothing(v, f.removePeer);
      assert gone - todo == {};
      while todo != {}
        invariant todo <= gone
        invariant known == old(known) - (gone - todo)
        invariant vxlan.State() == PeersDropped(v, gone - todo, f.removePeer)
        invariant quilt.State() == Dropped(q, Removable(gone - todo, f.removeRoute))
        decreases |todo|
      {
        hide Dropped, Removable, Removed, PeersDropped, PeerRemoved;
        var subnet :| subnet in todo;
        DroppedStep(q, gone - todo, f.removeRoute, subnet);
        PeersDroppedStep(v, gone - todo, f.removePeer, subnet);
        assert gone - todo + {subnet} == gone - (todo - {subnet});
        var _ := vxlan.RemovePeer(subnet, subnet !in f.removePeer);
        var _ := quilt.RemoveRoute(subnet, subnet !in f.removeRoute);
        known := known - {subnet};
        todo := todo - {subnet};
      }
      assert gone - todo == gone;
    }

    method GracefulShutdown(f: Failures)
      modifies vxlan, quilt
      ensures State() == ShutDown(old(State()), f)
    {
      var subnets := vxlan.peers.Keys;
      RemoveRoutes(subnets, f.removeRoute);
      RemovePeers(subnets, f.removePeer);
    }

    method RemoveRoutes(subnets: set<Destination>, refused: set<Destination>)
      modifies quilt
      ensures quilt.State() == Dropped(old(quilt.State()), Removable(subnets, refused))
    {
      var todo := subnets;
      ghost var q := quilt.State();
      DroppedNothing(q, refused);
      assert subnets - todo == {};
      while todo != {}
        invariant todo <= subnets
        invariant quilt.State() == Dropped(q, Removable(subnets - todo, refused))
        decreases |todo|
      {
        hide Dropped, Removable, Removed;
        var subnet :| subnet in todo;
        DroppedStep(q, subnets - todo, refused, subnet);
        assert subnets - todo + {subnet} == subnets - (todo - {subnet});
        var _ := quilt.RemoveRoute(subnet, subnet !in refused);
        todo := todo - {subnet};
      }
      assert subnets - todo == subnets;
    }

    method RemovePeers(subnets: set<Destination>, failed: set<Destination>)
      modifies vxlan
      ensures vxlan.State() == PeersDropped(old(vxlan.State()), subnets, failed)
    {
      var todo := subnets;
      ghost var v := vxlan.State();
      PeersDroppedNothing(v, failed);
      assert subnets - todo == {};
      while todo != {}
        invariant todo <= subnets
        invariant vxlan.State() == PeersDropped(v, subnets - todo, failed)
        decreases |todo|
      {
        hide PeersDropped, PeerRemoved;
        var subnet :| subnet in todo;
        PeersDroppedStep(v, subnets - todo, failed, subnet);
        assert subnets - todo + {subnet} == subnets - (todo - {subnet});
        var _ := vxlan.RemovePeer(subnet, subnet !in failed);
        todo := todo - {subnet};
      }
      assert subnets - todo == subnets;
    }
  }
}
