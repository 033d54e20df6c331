/** The route manager: the routes it tracks against the routes the kernel has. */
module Routes {

  /** A destination text: an IPv4 network given by 32 address bits and a prefix length, or text that does not parse. */
  datatype Destination = Net(bits: seq<bool>, prefixLen: nat) | Unparsable(text: string)

  predicate Parses(d: Destination) {
    d.Net? && |d.bits| == 32 && d.prefixLen <= 32
  }

  /** The destination with its host bits cleared, as netlink gets it. */
  function Network(d: Destination): Destination
    requires Parses(d)
  {
    Net(d.bits[..d.prefixLen] + seq(32 - d.prefixLen, i => false), d.prefixLen)
  }

  /** No host bit is set. */
  predicate InNetworkForm(d: Destination) {
    Parses(d) && forall i :: d.prefixLen <= i < 32 ==> !d.bits[i]
  }

  lemma NetworkFormIsFixed(d: Destination)
    requires Parses(d)
    ensures InNetworkForm(Network(d))
    ensures InNetworkForm(d) <==> Network(d) == d
  {
    assert forall i :: d.prefixLen <= i < 32 ==> !Network(d).bits[i];
    if InNetworkForm(d) {
      assert Network(d).bits == d.bits;
    }
  }

  /** The network has the destination's prefix length and prefix bits, and no host bits. */
  lemma NetworkMeans(d: Destination)
    requires Parses(d)
    ensures var n := Network(d);
            Parses(n) && n.prefixLen == d.prefixLen && forall i :: 0 <= i < 32 ==> n.bits[i] == (i < d.prefixLen && d.bits[i])
  {}

  /** Tracked routes and kernel routes, each with its interface. */
  datatype RouteState = RouteState(tracked: map<Destination, string>, kernel: map<Destination, string>)

  function Added(s: RouteState, d: Destination, interface: string, accepted: bool): (RouteState, bool) {
    if !Parses(d) then (s, false)
    else if d in s.tracked && s.tracked[d] == interface then (s, true)
    else if !accepted then (s, false)
    else if Network(d) in s.kernel then (s.(tracked := s.tracked[d := interface]), true)
    else (RouteState(s.tracked[d := interface], s.kernel[Network(d) := interface]), true)
  }

  /** The destinations of `gone` whose removal reaches the kernel and does not fail there. */
  function Removable(gone: set<Destination>, refused: set<Destination>): set<Destination> {
    set d | d in gone && Parses(d) && d !in refused
  }

  function Networks(ds: set<Destination>): set<Destination> {
    set d | d in ds && Parses(d) :: Network(d)
  }

  /** What is left when exactly `gone` is taken from what is tracked, and its networks from the kernel. */
  function Dropped(s: RouteState, gone: set<Destination>): RouteState {
    RouteState(s.tracked - gone, s.kernel - Networks(gone))
  }

  function Removed(s: RouteState, d: Destination, accepted: bool): (RouteState, bool) {
    if !Parses(d) || !accepted then (s, false)
    else (RouteState(s.tracked - {d}, s.kernel - {Network(d)}), true)
  }

  /** A cleanup removes the tracked destinations, except those whose removal fails. */
  function CleanedUp(s: RouteState, refused: set<Destination>): RouteState {
    Dropped(s, Removable(s.tracked.Keys, refused))
  }

  /** Removing a set of destinations one at a time, in any order, drops those that could be removed. */
  lemma DroppedStep(s: RouteState, done: set<Destination>, refused: set<Destination>, d: Destination)
    ensures Removed(Dropped(s, Removable(done, refused)), d, d !in refused).0 == Dropped(s, Removable(done + {d}, refused))
  {
    var more := if Parses(d) && d !in refused then {d} else {};
    assert Removable(done + {d}, refused) == Removable(done, refused) + more;
    assert Networks(Removable(done, refused) + more) == Networks(Removable(done, refused)) + Networks(more);
    assert more == {d} ==> Networks(more) == {Network(d)};
    var r := Removed(Dropped(s, Removable(done, refused)), d, d !in refused).0;
    assert r.tracked == s.tracked - (Removable(done, refused) + more);
    assert r.kernel == s.kernel - (Networks(Removable(done, refused)) + Networks(more));
  }

  lemma DroppedNothing(s: RouteState, refused: set<Destination>)
    ensures Dropped(s, Removable({}, refused)) == s
  {
    assert Removable({}, refused) == {} && Networks({}) == {};
    assert s.tracked - {} == s.tracked && s.kernel - {} == s.kernel;
  }

  /**
    An addition succeeds exactly for a text that parses and is tracked over this interface already or
    accepted; it then tracks the text over the interface, and installs the network over it unless the
    kernel has a route there. A failure changes nothing.
   */
  lemma AddedHolds(s: RouteState, d: Destination, interface: string, accepted: bool)
    ensures var (s', ok) := Added(s, d, interface, accepted);
            && (ok <==> Parses(d) && (accepted || (d in s.tracked && s.tracked[d] == interface)))
            && (!ok ==> s' == s)
            && (ok ==> s'.tracked == s.tracked[d := interface])
            && (ok && d in s.tracked && s.tracked[d] == interface ==> s'.kernel == s.kernel)
            && (ok && !(d in s.tracked && s.tracked[d] == interface) ==>
                  s'.kernel == if Network(d) in s.kernel then s.kernel else s.kernel[Network(d) := interface])
  {
    assert d in s.tracked && s.tracked[d] == interface ==> s.tracked == s.tracked[d := interface];
  }

  /** A removal succeeds exactly for a text that parses and is accepted, tracked or not; it takes the text and its network, and nothing else. */
  lemma RemovedHolds(s: RouteState, d: Destination, accepted: bool)
    ensures var (s', ok) := Removed(s, d, accepted);
            && (ok <==> Parses(d) && accepted)
            && (!ok ==> s' == s)
            && (ok ==> && d !in s'.tracked && Network(d) !in s'.kernel
                       && (forall x :: x != d ==> (x in s'.tracked <==> x in s.tracked) && (x in s.tracked ==> s'.tracked[x] == s.tracked[x]))
                       && (forall n :: n != Network(d) ==> (n in s'.kernel <==> n in s.kernel) && (n in s.kernel ==> s'.kernel[n] == s.kernel[n])))
  {
    hide Network;
  }

  class RouteManager {
    var routes: map<Destination, string>
    ghost var kernel: map<Destination, string>

    ghost function State(): RouteState
      reads this
    {
      RouteState(routes, kernel)
    }

    constructor ()
      ensures routes == map[] && kernel == map[]
    {
      routes, kernel := map[], map[];
    }

    /** `accepted`: the interface was found and netlink did not fail for another reason than an existing route. */
    method AddRoute(d: Destination, interface: string, accepted: bool) returns (ok: bool)
      modifies this
      ensures (State(), ok) == Added(old(State()), d, interface, accepted)
    {
      if !Parses(d) { return false; }
      if d in routes && routes[d] == interface { return true; }
      if !accepted { return false; }
      if Network(d) !in kernel {
        kernel := kernel[Network(d) := interface];
      }
      routes := routes[d := interface];
      return true;
    }

    /** `accepted`: netlink did not fail for another reason than a missing route. */
    method RemoveRoute(d: Destination, accepted: bool) returns (ok: bool)
      modifies this
      ensures (State(), ok) == Removed(old(State()), d, accepted)
    {
      if !Parses(d) || !accepted { return false; }
      kernel := kernel - {Network(d)};
      routes := routes - {d};
      return true;
    }

    method CleanupAllRoutes(refused: set<Destination>)
      modifies this
      ensures State() == CleanedUp(old(State()), refused)
    {
      var todo := routes.Keys;
      ghost var before := State();
      DroppedNothing(before, refused);
      assert todo - todo == {};
      while todo != {}
        invariant todo <= before.tracked.Keys
        invariant State() == Dropped(before, Removable(before.tracked.Keys - todo, refused))
        decreases |todo|
      {
        hide Dropped, Removable, Removed;
        var d :| d in todo;
        DroppedStep(before, before.tracked.Keys - todo, refused, d);
        assert before.tracked.Keys - todo + {d} == before.tracked.Keys - (todo - {d});
        var _ := RemoveRoute(d, d !in refused);
        todo := todo - {d};
      }
    }
  }

  // ---- tracked and installed ---------------------------------------------

  predicate InStep(s: RouteState) {
    s.tracked.Keys == s.kernel.Keys && forall d :: d in s.tracked ==> InNetworkForm(d)
  }

  /** An addition that reaches the kernel keeps tracked and installed destinations equal exactly when its text is in network form. */
  lemma AddInStepIff(s: RouteState, d: Destination, interface: string)
    requires InStep(s) && Parses(d) && !(d in s.tracked && s.tracked[d] == interface)
    ensures InStep(Added(s, d, interface, true).0) <==> InNetworkForm(d)
    ensures Added(s, d, interface, true).0.tracked.Keys == Added(s, d, interface, true).0.kernel.Keys <==> InNetworkForm(d)
  {
    NetworkFormIsFixed(d);
    assert d in Added(s, d, interface, true).0.tracked;
    if !InNetworkForm(d) {
      assert d !in s.tracked && d !in s.kernel && d != Network(d);
    }
  }

  datatype RouteOp =
    | Add(d: Destination, interface: string, accepted: bool)
    | Remove(d: Destination, accepted: bool)
    | Cleanup(refused: set<Destination>)

  function Step(s: RouteState, op: RouteOp): RouteState {
    match op
    case Add(d, interface, accepted) => Added(s, d, interface, accepted).0
    case Remove(d, accepted) => Removed(s, d, accepted).0
    case Cleanup(refused) => CleanedUp(s, refused)
  }

  /** The text is in network form, or does not parse at all. */
  predicate Tidy(op: RouteOp) {
    !op.Cleanup? ==> Parses(op.d) ==> InNetworkForm(op.d)
  }

  /** The operation never reaches the kernel with host bits set in its text, or names a network that is not tracked. */
  predicate Harmless(s: RouteState, op: RouteOp) {
    match op
    case Add(d, interface, accepted) => Tidy(op) || !accepted
    case Remove(d, accepted) => Tidy(op) || !accepted || Network(d) !in s.tracked
    case Cleanup(_) => true
  }

  /** Tracked and installed destinations stay equal exactly when the operation is harmless. */
  lemma StepInStepIff(s: RouteState, op: RouteOp)
    requires InStep(s)
    ensures InStep(Step(s, op)) <==> Harmless(s, op)
    ensures Step(s, op).tracked.Keys == Step(s, op).kernel.Keys <==> Harmless(s, op)
  {
    match op
    case Add(d, interface, accepted) =>
      if Parses(d) && accepted && !(d in s.tracked && s.tracked[d] == interface) {
        AddInStepIff(s, d, interface);
      }
    case Remove(d, accepted) =>
      if Parses(d) {
        RemoveInStepIff(s, d, accepted);
      }
    case Cleanup(refused) => CleanupInStep(s, refused);
  }

  lemma RemoveInStepIff(s: RouteState, d: Destination, accepted: bool)
    requires InStep(s) && Parses(d)
    ensures var s' := Removed(s, d, accepted).0;
            InStep(s') <==> (InNetworkForm(d) || !accepted || Network(d) !in s.tracked)
    ensures var s' := Removed(s, d, accepted).0;
            s'.tracked.Keys == s'.kernel.Keys <==> (InNetworkForm(d) || !accepted || Network(d) !in s.tracked)
  {
    NetworkFormIsFixed(d);
    var s' := Removed(s, d, accepted).0;
    if accepted && !InNetworkForm(d) {
      assert d !in s.tracked;
      assert Network(d) !in s'.kernel;
      assert Network(d) in s.tracked <==> Network(d) in s'.tracked;
    }
  }

  /** Dropping destinations in network form takes them, and nothing else, from both tables. */
  lemma DroppedInStep(s: RouteState, gone: set<Destination>)
    requires InStep(s) && forall d :: d in gone ==> InNetworkForm(d)
    ensures InStep(Dropped(s, gone))
    ensures Dropped(s, gone).tracked.Keys == s.tracked.Keys - gone
  {
    forall d | d in gone
      ensures Parses(d) && Network(d) == d
    {
      KnownForm(d);
    }
    hide InNetworkForm, Network;
    assert Networks(gone) == gone by {
      assert forall d :: d in gone ==> d == Network(d);
    }
  }

  lemma CleanupInStep(s: RouteState, refused: set<Destination>)
    requires InStep(s)
    ensures InStep(CleanedUp(s, refused))
    ensures CleanedUp(s, refused).tracked.Keys == s.tracked.Keys * refused
  {
    assert Removable(s.tracked.Keys, refused) == s.tracked.Keys - refused;
    DroppedInStep(s, s.tracked.Keys - refused);
  }

  lemma KnownForm(d: Destination)
    requires InNetworkForm(d)
    ensures Parses(d) && Network(d) == d
  {
    NetworkFormIsFixed(d);
  }

  function Run(s: RouteState, ops: seq<RouteOp>, n: nat): RouteState
    requires n <= |ops|
  {
    if n == 0 then s else Step(Run(s, ops, n - 1), ops[n - 1])
  }

  /** After any operations with any netlink outcomes, the tracked destinations are the installed ones. */
  lemma {:induction false} TrackedIsInstalled(ops: seq<RouteOp>, n: nat)
    requires n <= |ops| && forall i :: 0 <= i < |ops| ==> Tidy(ops[i])
    ensures InStep(Run(RouteState(map[], map[]), ops, n))
  {
    hide Step;
    if n > 0 {
      TrackedIsInstalled(ops, n - 1);
      StepInStepIff(Run(RouteState(map[], map[]), ops, n - 1), ops[n - 1]);
    }
  }

  /** Re-adding a destination over another interface only changes what is tracked: the two then disagree on the interface. */
  lemma InterfaceAgreesIff(s: RouteState, d: Destination, interface: string)
    requires InStep(s) && s.tracked == s.kernel && InNetworkForm(d)
    ensures var s' := Added(s, d, interface, true).0;
            s'.tracked == s'.kernel <==> (d in s.tracked ==> s.tracked[d] == interface)
  {
    NetworkFormIsFixed(d);
    var s' := Added(s, d, interface, true).0;
    if d in s.tracked && s.tracked[d] != interface {
      assert s'.tracked[d] != s'.kernel[d];
    }
  }
}
