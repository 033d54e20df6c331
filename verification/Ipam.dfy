/** The per-node IP allocator: the lowest free host of a configured /24. */
module Ipam {
  import opened FiniteSets
  import opened Wrappers

  /** A parsed IPv4 CIDR text, host bits allowed, or text that does not parse. */
  datatype Cidr = Cidr(address: nat, prefixLen: nat) | Malformed

  datatype AllocationError = NotConfigured | Exhausted

  datatype IpamState = IpamState(subnet: Option<Cidr>, inUse: set<nat>)

  const UNCONFIGURED := IpamState(None, {})

  /** The network address of a /24. */
  function Base(c: Cidr): nat
    requires c.Cidr?
  {
    c.address / 256 * 256
  }

  predicate InCluster(address: nat) {
    address / 0x1_0000 == 10 * 256 + 42
  }

  predicate Accepts(c: Cidr) {
    c.Cidr? && c.address < 0x1_0000_0000 && c.prefixLen == 24 && InCluster(Base(c))
  }

  /** The 254 addresses of a /24 between its network and its broadcast address. */
  function Hosts(c: Cidr): set<nat>
    requires c.Cidr?
  {
    Range(Base(c), 254)
  }

  /** The `n` numbers after `lo`. */
  function Range(lo: nat, n: nat): (s: set<nat>)
    ensures forall ip :: ip in s <==> lo < ip <= lo + n
    ensures |s| == n
  {
    if n == 0 then {} else Range(lo, n - 1) + {lo + n}
  }

  function Configured(s: IpamState, c: Cidr): (IpamState, bool) {
    if Accepts(c) then (IpamState(Some(c), {}), true) else (s, false)
  }

  /** The lowest address from `from` up to, not including, `end` that is not in `taken`. */
  function LowestFree(from: nat, end: nat, taken: set<nat>): (r: Option<nat>)
    requires from <= end
    ensures r.Some? ==> from <= r.value < end && r.value !in taken
    ensures forall ip :: from <= ip < (if r.Some? then r.value else end) ==> ip in taken
    decreases end - from
  {
    if from == end then None
    else if from !in taken then Some(from)
    else LowestFree(from + 1, end, taken)
  }

  function Answer(s: IpamState): Result<nat, AllocationError>
    requires s.subnet.Some? ==> s.subnet.value.Cidr?
  {
    if s.subnet.None? then Err(NotConfigured)
    else
      var b := Base(s.subnet.value);
      match LowestFree(b + 1, b + 255, s.inUse)
      case Some(ip) => Ok(ip)
      case None => Err(Exhausted)
  }

  function Allocated(s: IpamState): IpamState
    requires s.subnet.Some? ==> s.subnet.value.Cidr?
  {
    if Answer(s).Ok? then s.(inUse := s.inUse + {Answer(s).value}) else s
  }

  function Released(s: IpamState, ip: nat): IpamState {
    s.(inUse := s.inUse - {ip})
  }

  /** A state that the manager can be in: an accepted subnet, and allocations among its hosts. */
  predicate Valid(s: IpamState) {
    match s.subnet
    case None => s.inUse == {}
    case Some(c) => Accepts(c) && s.inUse <= Hosts(c)
  }

  class IpamManager {
    var subnet: Option<Cidr>
    var inUse: set<nat>

    ghost function State(): IpamState
      reads this
    {
      IpamState(subnet, inUse)
    }

    constructor ()
      ensures State() == UNCONFIGURED
    {
      subnet, inUse := None, {};
    }

    method ConfigureSubnet(c: Cidr) returns (ok: bool)
      requires Valid(State())
      modifies this
      ensures (State(), ok) == Configured(old(State()), c) && Valid(State())
    {
      if !Accepts(c) { return false; }
      subnet := Some(c);
      inUse := {};
      return true;
    }

    method AllocateIp() returns (r: Result<nat, AllocationError>)
      requires Valid(State())
      modifies this
      ensures r == Answer(old(State())) && State() == Allocated(old(State())) && Valid(State())
    {
      if subnet.None? { return Err(NotConfigured); }
      var b := Base(subnet.value);
      for ip := b + 1 to b + 255
        invariant inUse == old(inUse) && subnet == old(subnet)
        invariant LowestFree(b + 1, b + 255, inUse) == LowestFree(ip, b + 255, inUse)
      {
        if ip !in inUse {
          inUse := inUse + {ip};
          return Ok(ip);
        }
      }
      return Err(Exhausted);
    }

    method ReleaseIp(ip: nat)
      requires Valid(State())
      modifies this
      ensures State() == Released(old(State()), ip) && Valid(State())
    {
      inUse := inUse - {ip};
    }
  }

  /** The address of four octets. */
  function Octets(a: nat, b: nat, c: nat, d: nat): nat {
    ((a * 256 + b) * 256 + c) * 256 + d
  }

  /** Accepted is exactly 10.42.c.d/24 for some c and d; the hosts are then 10.42.c.1 to 10.42.c.254. */
  lemma AcceptsIff(cidr: Cidr)
    ensures Accepts(cidr) <==>
              cidr.Cidr? && cidr.prefixLen == 24 && exists c: nat, d: nat :: c < 256 && d < 256 && cidr.address == Octets(10, 42, c, d)
    ensures forall c: nat, d: nat :: c < 256 && d < 256 && cidr == Cidr(Octets(10, 42, c, d), 24) ==>
              forall ip :: ip in Hosts(cidr) <==> Octets(10, 42, c, 1) <= ip <= Octets(10, 42, c, 254)
  {
    if Accepts(cidr) {
      var q := cidr.address / 256;
      assert q * 256 / 0x1_0000 == q / 256;
      var c, d := q % 256, cidr.address % 256;
      assert cidr.address == Octets(10, 42, c, d);
    }
    forall c: nat, d: nat | c < 256 && d < 256 && cidr.Cidr? && cidr.address == Octets(10, 42, c, d)
      ensures Base(cidr) == Octets(10, 42, c, 0) && InCluster(Base(cidr))
    {
      assert cidr.address / 256 == (10 * 256 + 42) * 256 + c;
      assert Base(cidr) / 0x1_0000 == 10 * 256 + 42;
    }
  }

  /** In the cluster are exactly the addresses 10.42.c.d. */
  lemma InClusterIff(ip: nat)
    ensures InCluster(ip) <==> Octets(10, 42, 0, 0) <= ip <= Octets(10, 42, 255, 255)
  {}

  // ---- one allocation ----------------------------------------------------

  /** An allocation hands out the least free host, and fails exactly when there is none. */
  lemma AllocatesLeast(s: IpamState)
    requires Valid(s)
    ensures Answer(s) == Err(NotConfigured) <==> s.subnet.None?
    ensures Answer(s) == Err(Exhausted) <==> s.subnet.Some? && Hosts(s.subnet.value) <= s.inUse
    ensures Answer(s).Ok? ==> Answer(s).value in Hosts(s.subnet.value) - s.inUse
    ensures Answer(s).Ok? ==> forall ip :: ip in Hosts(s.subnet.value) - s.inUse ==> Answer(s).value <= ip
    ensures Valid(Allocated(s))
  {
    if s.subnet.Some? && Answer(s) == Err(Exhausted) {
      var b := Base(s.subnet.value);
      assert forall ip :: b + 1 <= ip < b + 255 ==> ip in s.inUse;
    }
    if Answer(s).Ok? {
      assert Answer(s).value in Hosts(s.subnet.value);
    }
  }

  /** A configured manager is exhausted exactly when 254 addresses are out. */
  lemma ExhaustedAt254(s: IpamState)
    requires Valid(s) && s.subnet.Some?
    ensures |s.inUse| <= 254
    ensures Answer(s) == Err(Exhausted) <==> |s.inUse| == 254
  {
    var hosts := Hosts(s.subnet.value);
    AllocatesLeast(s);
    SubsetSize(s.inUse, hosts);
    assert Answer(s) == Err(Exhausted) ==> s.inUse == hosts;
  }

  /** Releasing an address just allocated restores the state, so the next allocation hands it out again. */
  lemma ReleaseUndoesAllocation(s: IpamState)
    requires Valid(s) && Answer(s).Ok?
    ensures Released(Allocated(s), Answer(s).value) == s
    ensures Answer(Released(Allocated(s), Answer(s).value)) == Answer(s)
  {
    assert s.inUse + {Answer(s).value} - {Answer(s).value} == s.inUse;
  }

  /** A host below every free one is the next address handed out once it is released. */
  lemma ReleasedIsNextIff(s: IpamState, ip: nat)
    requires Valid(s) && ip in s.inUse
    ensures Answer(Released(s, ip)) == Ok(ip) <==> (Answer(s).Ok? ==> ip < Answer(s).value)
  {
    var s' := Released(s, ip);
    AllocatesLeast(s);
    AllocatesLeast(s');
    assert ip in Hosts(s.subnet.value) - s'.inUse;
    if Answer(s).Ok? {
      assert Answer(s).value in Hosts(s.subnet.value) - s'.inUse;
    }
    assert Answer(s').value == ip || Answer(s').value in Hosts(s.subnet.value) - s.inUse;
  }

  // ---- histories ---------------------------------------------------------

  datatype Op = Configure(c: Cidr) | Allocate | Release(ip: nat)

  function Step(s: IpamState, op: Op): IpamState
    requires Valid(s)
  {
    match op
    case Configure(c) => Configured(s, c).0
    case Allocate => Allocated(s)
    case Release(ip) => Released(s, ip)
  }

  lemma StepKeepsValid(s: IpamState, op: Op)
    requires Valid(s)
    ensures Valid(Step(s, op))
  {
    AllocatesLeast(s);
  }

  function Run(ops: seq<Op>, n: nat): (s: IpamState)
    requires n <= |ops|
    ensures Valid(s)
  {
    if n == 0 then UNCONFIGURED
    else
      StepKeepsValid(Run(ops, n - 1), ops[n - 1]);
      Step(Run(ops, n - 1), ops[n - 1])
  }

  /** The `i`th operation handed out `ip`. */
  predicate HandedOut(ops: seq<Op>, i: nat, ip: nat) {
    i < |ops| && ops[i].Allocate? && Answer(Run(ops, i)) == Ok(ip)
  }

  /** The operation takes `ip` back: it releases it or configures a subnet successfully. */
  predicate TakesBack(op: Op, ip: nat) {
    op == Release(ip) || (op.Configure? && Accepts(op.c))
  }

  /** Handed out by the `i`th operation and not taken back before the `n`th. */
  predicate Outstanding(ops: seq<Op>, n: nat, i: nat, ip: nat) {
    i < n <= |ops| && HandedOut(ops, i, ip) && forall k :: i < k < n ==> !TakesBack(ops[k], ip)
  }

  ghost predicate IsOutstanding(ops: seq<Op>, n: nat, ip: nat) {
    exists i: nat :: Outstanding(ops, n, i, ip)
  }

  /** In any history the allocated set is exactly what was handed out and not taken back since. */
  lemma {:induction false} AllocatedIsOutstanding(ops: seq<Op>, n: nat, ip: nat)
    requires n <= |ops|
    ensures ip in Run(ops, n).inUse <==> IsOutstanding(ops, n, ip)
  {
    hide Run, Answer;
    if n > 0 {
      AllocatedIsOutstanding(ops, n - 1, ip);
      OutstandingStep(ops, n, ip);
      AllocatedStep(ops, n, ip);
    } else {
      RunOfNothing(ops);
    }
  }

  lemma RunOfNothing(ops: seq<Op>)
    ensures Run(ops, 0) == UNCONFIGURED
  {}

  lemma AllocatedStep(ops: seq<Op>, n: nat, ip: nat)
    requires 0 < n <= |ops|
    ensures ip in Run(ops, n).inUse <==>
              (HandedOut(ops, n - 1, ip) || (ip in Run(ops, n - 1).inUse && !TakesBack(ops[n - 1], ip)))
  {
    AllocatesLeast(Run(ops, n - 1));
  }

  lemma OutstandingStep(ops: seq<Op>, n: nat, ip: nat)
    requires 0 < n <= |ops|
    ensures IsOutstanding(ops, n, ip) <==>
              (HandedOut(ops, n - 1, ip) || (IsOutstanding(ops, n - 1, ip) && !TakesBack(ops[n - 1], ip)))
  {
    hide HandedOut, TakesBack;
    var last := n - 1;
    if HandedOut(ops, last, ip) {
      assert Outstanding(ops, n, last, ip);
    }
    if IsOutstanding(ops, last, ip) && !TakesBack(ops[last], ip) {
      var i: nat :| Outstanding(ops, last, i, ip);
      assert Outstanding(ops, n, i, ip);
    }
    if IsOutstanding(ops, n, ip) {
      var i: nat :| Outstanding(ops, n, i, ip);
      assert i < last ==> Outstanding(ops, last, i, ip) && !TakesBack(ops[last], ip);
    }
  }

  /** No address is handed out twice unless it was taken back in between. */
  lemma NoDoubleHandout(ops: seq<Op>, i: nat, j: nat, ip: nat)
    requires i < j && HandedOut(ops, i, ip) && HandedOut(ops, j, ip)
    ensures exists k :: i < k < j && TakesBack(ops[k], ip)
  {
    if forall k :: i < k < j ==> !TakesBack(ops[k], ip) {
      assert Outstanding(ops, j, i, ip);
      AllocatedIsOutstanding(ops, j, ip);
      AllocatesLeast(Run(ops, j));
    }
  }

  /** The subnet of the last configuration that was accepted. */
  function LastAccepted(ops: seq<Op>, n: nat): Option<Cidr>
    requires n <= |ops|
  {
    if n == 0 then None
    else if ops[n - 1].Configure? && Accepts(ops[n - 1].c) then Some(ops[n - 1].c)
    else LastAccepted(ops, n - 1)
  }

  /** In any history every outstanding address is a host of the /24 last accepted, inside 10.42.0.0/16. */
  lemma {:induction false} OutstandingIsHost(ops: seq<Op>, n: nat, ip: nat)
    requires n <= |ops|
    ensures Run(ops, n).subnet == LastAccepted(ops, n)
    ensures IsOutstanding(ops, n, ip) ==> LastAccepted(ops, n).Some? && ip in Hosts(LastAccepted(ops, n).value) && InCluster(ip)
  {
    hide Answer, Hosts, InCluster, Base, Accepts, IsOutstanding;
    if n > 0 {
      OutstandingIsHost(ops, n - 1, ip);
    }
    AllocatedIsOutstanding(ops, n, ip);
    if ip in Run(ops, n).inUse {
      HostInCluster(LastAccepted(ops, n).value, ip);
    }
  }

  lemma HostInCluster(c: Cidr, ip: nat)
    requires Accepts(c) && ip in Hosts(c)
    ensures InCluster(ip)
  {
    var q := c.address / 256;
    assert Base(c) == q * 256 && q * 256 < ip < q * 256 + 255;
    assert ip / 0x1_0000 == q * 256 / 0x1_0000;
  }
}
