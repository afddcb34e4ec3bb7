/** The per-server address allocators (crates/zerovpn-wg/src/ip_alloc.rs). Addresses are
    their integer values; an offset is relative to the network address. */
module IpAlloc {
  import opened Common
  import opened DesiredStates

  datatype AllocError = Exhausted | OutOfRange | AlreadyAllocated | Reserved

  datatype Op = Allocate | Mark(ip: nat) | Release(ip: nat) | TryReserve(ip: nat)

  /** A masked network: `total` addresses from `base`. */
  datatype Network = Network(base: nat, total: nat)

  const V4_SPACE := 0x1_0000_0000

  predicate V4Network(n: Network) {
    0 < n.total && n.base + n.total <= V4_SPACE
  }

  predicate Contains(n: Network, ip: nat) {
    n.base <= ip < n.base + n.total
  }

  function IndexOf(n: Network, ip: nat): Result<nat, AllocError> {
    if Contains(n, ip) then Ok(ip - n.base) else Err(OutOfRange)
  }

  function IpAt(n: Network, index: nat): nat {
    n.base + index
  }

  /** Index and address maps are inverse on the network. */
  lemma {:induction false} IndexInverse(n: Network, index: nat, ip: nat)
    ensures index < n.total ==> IndexOf(n, IpAt(n, index)) == Ok(index)
    ensures IndexOf(n, ip).Ok? ==> IndexOf(n, ip).value < n.total && IpAt(n, IndexOf(n, ip).value) == ip
  {
  }

  // --------------------------------------------------------------------- IPv4

  /** Network address, broadcast, and the gateway, as `new` marks them. */
  function ReservedV4(total: nat): set<nat> {
    {0} + (if total > 1 then {total - 1} else {}) + (if total > 2 then {1} else {})
  }

  predicate LowestFree(marked: set<nat>, total: nat, index: nat) {
    index < total && index !in marked && forall i :: 0 <= i < index ==> i in marked
  }

  class V4Allocator {
    const network: Network
    const bits: array<bool>

    ghost predicate Valid()
      reads bits
    {
      V4Network(network) && bits.Length == network.total
    }

    ghost function Marked(): set<nat>
      reads bits
    {
      set i | 0 <= i < bits.Length && bits[i]
    }

    constructor (network: Network)
      requires V4Network(network)
      ensures Valid() && fresh(bits) && this.network == network
      ensures Marked() == ReservedV4(network.total)
    {
      this.network := network;
      var b := new bool[network.total](_ => false);
      b[0] := true;
      if network.total > 1 { b[network.total - 1] := true; }
      if network.total > 2 { b[1] := true; }
      bits := b;
    }

    /** `allocate`: the lowest free host, or exhaustion exactly when there is none. */
    method AllocateAddress() returns (r: Result<nat, AllocError>)
      requires Valid()
      modifies bits
      ensures Valid()
      ensures r.Ok? ==> Contains(network, r.value) && LowestFree(old(Marked()), network.total, r.value - network.base)
      ensures r.Ok? ==> Marked() == old(Marked()) + {r.value - network.base}
      ensures r.Err? ==> r.error == Exhausted && Marked() == old(Marked())
      ensures r.Err? <==> forall i :: 0 <= i < network.total ==> i in old(Marked())
    {
      var index := 0;
      while index < bits.Length && bits[index]
        invariant index <= bits.Length
        invariant forall i :: 0 <= i < index ==> bits[i]
      {
        index := index + 1;
      }
      if index >= bits.Length { return Err(Exhausted); }
      bits[index] := true;
      return Ok(IpAt(network, index));
    }

    method MarkAllocated(ip: nat) returns (r: Result<(), AllocError>)
      requires Valid()
      modifies bits
      ensures Valid() && (r.Ok? <==> Contains(network, ip))
      ensures Marked() == old(Marked()) + if r.Ok? then {ip - network.base} else {}
    {
      var index := IndexOf(network, ip);
      if index.Err? { return Err(index.error); }
      bits[index.value] := true;
      return Ok(());
    }

    /** `release` frees any address of the network, reserved ones included. */
    method ReleaseAddress(ip: nat) returns (r: Result<(), AllocError>)
      requires Valid()
      modifies bits
      ensures Valid() && (r.Ok? <==> Contains(network, ip))
      ensures Marked() == old(Marked()) - if r.Ok? then {ip - network.base} else {}
    {
      var index := IndexOf(network, ip);
      if index.Err? { return Err(index.error); }
      bits[index.value] := false;
      return Ok(());
    }

    /** `try_reserve`: grants exactly the addresses that are neither reserved nor marked. */
    method Reserve(ip: nat) returns (r: Result<(), AllocError>)
      requires Valid()
      modifies bits
      ensures Valid()
      ensures r.Ok? <==> Contains(network, ip) && var i := ip - network.base;
                           i > 1 && i != network.total - 1 && i !in old(Marked())
      ensures Marked() == old(Marked()) + if r.Ok? then {ip - network.base} else {}
      ensures r == Err(OutOfRange) <==> !Contains(network, ip)
      ensures r == Err(AlreadyAllocated) ==> ip - network.base in old(Marked())
    {
      var index := IndexOf(network, ip);
      if index.Err? { return Err(index.error); }
      var i := index.value;
      if i == 0 || i == 1 || i == bits.Length - 1 { return Err(AllocError.Reserved); }
      if bits[i] { return Err(AlreadyAllocated); }
      bits[i] := true;
      return Ok(());
    }
  }

  /** The marked set after an operation, as the class contracts above state it. */
  function MarksAfter(n: Network, marked: set<nat>, op: Op, granted: Option<nat>): set<nat> {
    match op
    case Allocate => if granted.Some? then marked + {granted.value} else marked
    case Mark(ip) => if Contains(n, ip) then marked + {ip - n.base} else marked
    case Release(ip) => if Contains(n, ip) then marked - {ip - n.base} else marked
    case TryReserve(ip) => if granted.Some? then marked + {granted.value} else marked
  }

  /** `granted` is the offset the operation hands to its caller. */
  predicate Grants(n: Network, marked: set<nat>, op: Op, granted: Option<nat>) {
    match op
    case Allocate =>
      if granted.Some? then LowestFree(marked, n.total, granted.value)
      else forall i :: 0 <= i < n.total ==> i in marked
    case TryReserve(ip) =>
      if granted.Some? then
        && Contains(n, ip) && granted.value == ip - n.base
        && granted.value > 1 && granted.value != n.total - 1 && granted.value !in marked
      else
        !Contains(n, ip) || ip - n.base <= 1 || ip - n.base == n.total - 1 || ip - n.base in marked
    case _ => granted.None?
  }

  datatype Event = Event(op: Op, granted: Option<nat>)

  ghost predicate IsRun(n: Network, events: seq<Event>) {
    if events == [] then true
    else
      var e := events[|events| - 1];
      IsRun(n, events[..|events| - 1]) && Grants(n, MarkedAfter(n, events[..|events| - 1]), e.op, e.granted)
  }

  function MarkedAfter(n: Network, events: seq<Event>): set<nat> {
    if events == [] then ReservedV4(n.total)
    else
      var e := events[|events| - 1];
      MarksAfter(n, MarkedAfter(n, events[..|events| - 1]), e.op, e.granted)
  }

  /** No release names a reserved address. */
  predicate ReleasesLeasesOnly(n: Network, events: seq<Event>) {
    forall i :: 0 <= i < |events| && events[i].op.Release? && Contains(n, events[i].op.ip) ==>
      events[i].op.ip - n.base !in ReservedV4(n.total)
  }

  lemma {:induction false} ReservedStayMarked(n: Network, events: seq<Event>)
    requires ReleasesLeasesOnly(n, events)
    ensures ReservedV4(n.total) <= MarkedAfter(n, events)
  {
    if events != [] {
      var front := events[..|events| - 1];
      assert ReleasesLeasesOnly(n, front);
      ReservedStayMarked(n, front);
      assert events[|events| - 1] in events;
    }
  }

  /** Over every run that releases only leases, nothing that is marked or reserved at the
      time is ever granted, and every grant lies in the network. */
  lemma {:induction false} GrantsAreFresh(n: Network, events: seq<Event>)
    requires V4Network(n) && IsRun(n, events) && ReleasesLeasesOnly(n, events)
    requires events != [] && events[|events| - 1].granted.Some?
    ensures var g := events[|events| - 1].granted.value;
            && g < n.total && g !in ReservedV4(n.total)
            && g !in MarkedAfter(n, events[..|events| - 1])
            && g in MarkedAfter(n, events)
            && IndexOf(n, IpAt(n, g)) == Ok(g)
  {
    var front := events[..|events| - 1];
    assert ReleasesLeasesOnly(n, front);
    ReservedStayMarked(n, front);
  }

  /** The proviso is needed, exactly: the reserved addresses stay marked throughout a run
      if and only if no release names one of them. */
  lemma {:induction false} ReservedProtectedIff(n: Network, events: seq<Event>)
    ensures (forall k :: 0 <= k <= |events| ==> ReservedV4(n.total) <= MarkedAfter(n, events[..k]))
       <==> ReleasesLeasesOnly(n, events)
  {
    if ReleasesLeasesOnly(n, events) {
      forall k | 0 <= k <= |events| ensures ReservedV4(n.total) <= MarkedAfter(n, events[..k]) {
        ReservedStayMarked(n, events[..k]);
      }
    } else {
      var i :| 0 <= i < |events| && events[i].op.Release? && Contains(n, events[i].op.ip)
               && events[i].op.ip - n.base in ReservedV4(n.total);
      var upto := events[..i + 1];
      assert upto[|upto| - 1] == events[i];
      assert events[i].op.ip - n.base !in MarkedAfter(n, upto);
    }
  }

  /** One release of the gateway address, and the next `allocate` hands it out. */
  lemma {:induction false} ReleasedGatewayIsHandedOut(n: Network)
    requires V4Network(n) && n.total > 2
    ensures var run := [Event(Release(n.base + 1), None), Event(Allocate, Some(1))];
            IsRun(n, run) && 1 in ReservedV4(n.total)
  {
    var first := [Event(Release(n.base + 1), None)];
    var run := first + [Event(Allocate, Some(1))];
    assert run == [Event(Release(n.base + 1), None), Event(Allocate, Some(1))];
    assert run[..1] == first && first[..0] == [];
    assert MarkedAfter(n, first) == ReservedV4(n.total) - {1};
    assert IsRun(n, first);
  }

  /** The deployed subnet: leasable addresses are exactly those `validate` accepts. */
  lemma {:induction false} LeasableIsUsable(ip: Ipv4)
    ensures var n := Network(Value(Ipv4(10, 0, 0, 0)), 1024);
            UsableIp(ip) <==> Contains(n, Value(ip)) && Value(ip) - n.base !in ReservedV4(n.total)
  {
    var n := Network(Value(Ipv4(10, 0, 0, 0)), 1024);
    assert n.base == 10 * 16777216;
    var v := Value(ip);
    assert v == ip.a * 16777216 + ip.b * 65536 + ip.c * 256 + ip.d;
    assert ReservedV4(1024) == {0, 1, 1023};
  }

  // --------------------------------------------------------------------- IPv6

  const U128_MAX := 0xFFFF_FFFF_FFFF_FFFF_FFFF_FFFF_FFFF_FFFF

  function SaturatingSucc(n: nat): nat {
    if n >= U128_MAX then U128_MAX else n + 1
  }

  /** `total` is None only for the /0 prefix, whose size does not fit. */
  datatype V6Network = V6Network(base: nat, total: Option<nat>)

  predicate V6NetworkOk(n: V6Network) {
    match n.total
    case Some(t) => 0 < t <= U128_MAX && n.base + t <= U128_MAX + 1
    case None => n.base == 0
  }

  predicate V6Contains(n: V6Network, ip: nat) {
    ip <= U128_MAX && n.base <= ip && (n.total.Some? ==> ip < n.base + n.total.value)
  }

  datatype V6State = V6State(taken: set<nat>, cursor: nat)

  function V6Start(n: V6Network): V6State {
    V6State({0} + (if n.total.Some? && n.total.value <= 1 then {} else {1}), 2)
  }

  /** Everything ever marked lies below the cursor (or the cursor has run into the end of
      the address space). */
  predicate V6Ok(n: V6Network, s: V6State) {
    && s.cursor >= 2 && s.cursor <= U128_MAX
    && (forall o :: o in s.taken ==> o < s.cursor || (o == s.cursor == U128_MAX))
    && (n.total.Some? ==> s.cursor <= Max(2, n.total.value))
  }

  class V6Allocator {
    const network: V6Network
    var taken: set<nat>
    var cursor: nat

    ghost predicate Valid()
      reads this
    {
      V6NetworkOk(network) && V6Ok(network, V6State(taken, cursor))
    }

    constructor (network: V6Network)
      requires V6NetworkOk(network)
      ensures Valid() && this.network == network && V6State(taken, cursor) == V6Start(network)
    {
      this.network := network;
      taken := {0} + (if network.total.Some? && network.total.value <= 1 then {} else {1});
      cursor := 2;
    }

    /** `allocate`: the scan, which takes the cursor's own offset at once or finds the
        network exhausted. None stands for a call that never returns: that happens only on
        /0, and exactly when the cursor is stuck on a marked last address. */
    method AllocateAddress() returns (r: Option<Result<nat, AllocError>>)
      requires Valid()
      modifies this
      ensures Valid()
      ensures r.None? <==> network.total.None? && old(cursor) == U128_MAX && U128_MAX in old(taken)
      ensures r.Some? && r.value.Ok? ==>
                && V6Contains(network, r.value.value) && r.value.value - network.base !in old(taken)
                && taken == old(taken) + {r.value.value - network.base}
      ensures !(r.Some? && r.value.Ok?) ==> taken == old(taken) && cursor == old(cursor)
      ensures (r, V6State(taken, cursor)) == V6Allocate(network, V6State(old(taken), old(cursor)))
    {
      var found := Scan(network.total, taken, cursor);
      if found.Spins? { return None; }
      if found.NoneFree? { return Some(Err(Exhausted)); }
      taken := taken + {found.offset};
      cursor := SaturatingSucc(found.offset);
      return Some(Ok(network.base + found.offset));
    }

    method MarkAllocated(ip: nat) returns (r: Result<(), AllocError>)
      requires Valid()
      modifies this
      ensures Valid() && (r.Ok? <==> V6Contains(network, ip))
      ensures taken == old(taken) + if r.Ok? then {ip - network.base} else {}
      ensures r.Ok? ==> cursor == Max(old(cursor), SaturatingSucc(ip - network.base))
      ensures V6State(taken, cursor) ==
              if r.Ok? then V6Mark(V6State(old(taken), old(cursor)), ip - network.base) else V6State(old(taken), old(cursor))
    {
      if !V6Contains(network, ip) { return Err(OutOfRange); }
      var offset := ip - network.base;
      taken := taken + {offset};
      if offset >= cursor { cursor := SaturatingSucc(offset); }
      return Ok(());
    }

    method ReleaseAddress(ip: nat) returns (r: Result<(), AllocError>)
      requires Valid()
      modifies this
      ensures Valid() && cursor == old(cursor)
      ensures r.Ok? <==> V6Contains(network, ip) && ip - network.base >= 2
      ensures taken == old(taken) - if r.Ok? then {ip - network.base} else {}
    {
      if !V6Contains(network, ip) { return Err(OutOfRange); }
      var offset := ip - network.base;
      if offset < 2 { return Err(AllocError.Reserved); }
      taken := taken - {offset};
      return Ok(());
    }

    method Reserve(ip: nat) returns (r: Result<(), AllocError>)
      requires Valid()
      modifies this
      ensures Valid()
      ensures r.Ok? <==> V6Contains(network, ip) && ip - network.base >= 2 && ip - network.base !in old(taken)
      ensures taken == old(taken) + if r.Ok? then {ip - network.base} else {}
      ensures r.Ok? ==> cursor == Max(old(cursor), SaturatingSucc(ip - network.base))
      ensures r == Err(OutOfRange) <==> !V6Contains(network, ip)
      ensures r == Err(AlreadyAllocated) <==> V6Contains(network, ip) && ip - network.base >= 2 && ip - network.base in old(taken)
      ensures V6State(taken, cursor) ==
              if r.Ok? then V6Mark(V6State(old(taken), old(cursor)), ip - network.base) else V6State(old(taken), old(cursor))
    {
      if !V6Contains(network, ip) { return Err(OutOfRange); }
      var offset := ip - network.base;
      if offset == 0 || offset == 1 { return Err(AllocError.Reserved); }
      if offset in taken { return Err(AlreadyAllocated); }
      taken := taken + {offset};
      if offset >= cursor { cursor := SaturatingSucc(offset); }
      return Ok(());
    }
  }

  /** How the scan ends: with an offset, with none left, or not at all. */
  datatype Found = Free(offset: nat) | NoneFree | Spins

  /** The scan loop of `allocate`, from any cursor over any marked set: the lowest free
      offset from there on, or none if the network has none. Without an upper bound it
      spins for ever once every offset up to the last is marked, because the saturating
      cursor stays where it is. */
  method Scan(total: Option<nat>, taken: set<nat>, start: nat) returns (r: Found)
    requires start <= U128_MAX && (total.Some? ==> total.value <= U128_MAX)
    ensures r.Free? ==> start <= r.offset <= U128_MAX && r.offset !in taken && (total.Some? ==> r.offset < total.value)
    ensures r.Free? ==> forall o :: start <= o < r.offset ==> o in taken
    ensures r.NoneFree? ==> total.Some? && forall o :: start <= o < total.value ==> o in taken
    ensures r.Spins? <==> total.None? && forall o :: start <= o <= U128_MAX ==> o in taken
  {
    var cursor := start;
    while true
      invariant start <= cursor <= U128_MAX
      invariant forall o :: start <= o < cursor ==> o in taken
      decreases U128_MAX - cursor
    {
      if total.Some? && cursor >= total.value { return NoneFree; }
      if cursor !in taken { return Free(cursor); }
      if SaturatingSucc(cursor) == cursor { return Spins; }
      cursor := SaturatingSucc(cursor);
    }
  }

  /** The one state from which the scan never returns: no upper bound, and the cursor
      stuck on a marked last address. */
  predicate V6Hangs(n: V6Network, s: V6State) {
    n.total.None? && s.cursor in s.taken
  }

  /** One turn of the scan loop, for a state where it does not return. */
  function V6Skip(s: V6State): V6State {
    s.(cursor := SaturatingSucc(s.cursor))
  }

  /** Hanging is permanent: the turn leads back to the same state. Reachable only on /0,
      by marking the very last address. */
  lemma {:induction false} HangIsPermanent(n: V6Network, s: V6State)
    requires V6NetworkOk(n) && V6Ok(n, s) && V6Hangs(n, s)
    ensures V6Skip(s) == s && U128_MAX in s.taken
  {
  }

  lemma {:induction false} MarkingLastHangs()
    ensures var n := V6Network(0, None); V6Hangs(n, V6Mark(V6Start(n), U128_MAX))
  {
  }

  function V6Mark(s: V6State, offset: nat): V6State {
    V6State(s.taken + {offset}, if offset >= s.cursor then SaturatingSucc(offset) else s.cursor)
  }

  /** One call of `allocate`; None if it never returns. */
  function V6Allocate(n: V6Network, s: V6State): (Option<Result<nat, AllocError>>, V6State) {
    if V6Hangs(n, s) then (None, s)
    else if n.total.Some? && s.cursor >= n.total.value then (Some(Err(Exhausted)), s)
    else (Some(Ok(n.base + s.cursor)), V6State(s.taken + {s.cursor}, SaturatingSucc(s.cursor)))
  }

  function V6Do(n: V6Network, s: V6State, op: Op): V6State {
    match op
    case Allocate => V6Allocate(n, s).1
    case Mark(ip) => if V6Contains(n, ip) then V6Mark(s, ip - n.base) else s
    case Release(ip) =>
      if V6Contains(n, ip) && ip - n.base >= 2 then s.(taken := s.taken - {ip - n.base}) else s
    case TryReserve(ip) =>
      if V6Contains(n, ip) && ip - n.base >= 2 && ip - n.base !in s.taken then V6Mark(s, ip - n.base) else s
  }

  function V6Run(n: V6Network, ops: seq<Op>): V6State {
    if ops == [] then V6Start(n) else V6Do(n, V6Run(n, ops[..|ops| - 1]), ops[|ops| - 1])
  }

  /** Every offset any call of the run ever marked, released or not. */
  function EverMarked(n: V6Network, ops: seq<Op>): set<nat> {
    if ops == [] then V6Start(n).taken
    else EverMarked(n, ops[..|ops| - 1]) + V6Run(n, ops).taken
  }

  lemma {:induction false} MarkedStayBelowCursor(n: V6Network, ops: seq<Op>)
    requires V6NetworkOk(n) && n.total.Some?
    ensures V6Ok(n, V6Run(n, ops))
    ensures forall o :: o in EverMarked(n, ops) ==> o < V6Run(n, ops).cursor
    ensures V6Run(n, ops).cursor <= Max(2, n.total.value)
  {
    if ops != [] {
      MarkedStayBelowCursor(n, ops[..|ops| - 1]);
    }
  }

  /** On every prefix from /1 on, over every run: `allocate` never returns an address any
      earlier call ever marked, even one since released; it returns, stays inside the
      network and never hands out the network address or the gateway. */
  lemma {:induction false} V6NeverReuses(n: V6Network, ops: seq<Op>)
    requires V6NetworkOk(n) && n.total.Some?
    ensures var r := V6Allocate(n, V6Run(n, ops)).0;
            && r.Some?
            && (r.value.Ok? ==> && V6Contains(n, r.value.value)
                                && r.value.value - n.base >= 2
                                && r.value.value - n.base !in EverMarked(n, ops))
  {
    MarkedStayBelowCursor(n, ops);
  }

  /** Released slots are not "picked up by future scans": on a /126, after leasing both
      addresses and giving both back, `allocate` reports exhaustion with both free. */
  lemma {:induction false} ReleasedSlotsAreLost(base: nat)
    requires base + 4 <= U128_MAX
    ensures var n := V6Network(base, Some(4));
            var s := V6Run(n, [Allocate, Allocate, Release(base + 2), Release(base + 3)]);
            V6Allocate(n, s).0 == Some(Err(Exhausted)) && 2 !in s.taken && 3 !in s.taken
  {
    var n := V6Network(base, Some(4));
    var ops := [Allocate, Allocate, Release(base + 2), Release(base + 3)];
    assert ops[..3][..2][..1][..0] == [] && ops[..3][..2][..1] == [Allocate];
    assert V6Run(n, ops[..3][..2][..1]) == V6State({0, 1, 2}, 3);
    assert V6Run(n, ops[..3][..2]) == V6State({0, 1, 2, 3}, 4);
    assert V6Run(n, ops[..3]) == V6State({0, 1, 3}, 4);
    assert V6Run(n, ops) == V6State({0, 1}, 4);
  }

  /** Exhaustion is about the highest offset ever marked, not about free addresses: the
      next `allocate` succeeds if and only if nothing at or above the last one was marked. */
  lemma {:induction false} V6ExhaustedIff(n: V6Network, ops: seq<Op>)
    requires V6NetworkOk(n) && n.total.Some? && n.total.value > 2
    ensures V6Allocate(n, V6Run(n, ops)).0 == Some(Err(Exhausted)) <==> n.total.value - 1 in EverMarked(n, ops)
  {
    CursorIsNextToMarked(n, ops);
    MarkedStayBelowCursor(n, ops);
  }

  lemma {:induction false} CursorIsNextToMarked(n: V6Network, ops: seq<Op>)
    requires V6NetworkOk(n) && n.total.Some? && n.total.value > 2
    ensures V6Run(n, ops).cursor - 1 in EverMarked(n, ops)
  {
    if ops != [] {
      CursorIsNextToMarked(n, ops[..|ops| - 1]);
      MarkedStayBelowCursor(n, ops[..|ops| - 1]);
    }
  }

  // ------------------------------------------------ IPv6 leases, from the answers alone

  /** What a call answers: the address it grants or acts on, or why not; None if it never
      returns. */
  function V6Answer(n: V6Network, s: V6State, op: Op): Option<Result<nat, AllocError>> {
    match op
    case Allocate => V6Allocate(n, s).0
    case Mark(ip) => Some(if V6Contains(n, ip) then Ok(ip) else Err(OutOfRange))
    case Release(ip) =>
      Some(if !V6Contains(n, ip) then Err(OutOfRange) else if ip - n.base < 2 then Err(AllocError.Reserved) else Ok(ip))
    case TryReserve(ip) =>
      Some(if !V6Contains(n, ip) then Err(OutOfRange) else if ip - n.base < 2 then Err(AllocError.Reserved)
           else if ip - n.base in s.taken then Err(AlreadyAllocated) else Ok(ip))
  }

  /** The leases of a caller who only sees calls and answers: an address is held from the
      call that granted or marked it until one that released it. */
  function Held(held: set<nat>, op: Op, answer: Option<Result<nat, AllocError>>): set<nat> {
    if answer.None? || answer.value.Err? then held
    else if op.Release? then held - {answer.value.value}
    else held + {answer.value.value}
  }

  function HeldAfter(n: V6Network, ops: seq<Op>): set<nat> {
    if ops == [] then {}
    else
      var front, op := ops[..|ops| - 1], ops[|ops| - 1];
      Held(HeldAfter(n, front), op, V6Answer(n, V6Run(n, front), op))
  }

  /** The allocator's marks are its two reserved offsets and exactly the leases. */
  lemma {:induction false} MarksAreLeases(n: V6Network, ops: seq<Op>, offset: nat)
    requires V6NetworkOk(n)
    ensures offset >= 2 ==> (offset in V6Run(n, ops).taken <==> n.base + offset in HeldAfter(n, ops))
  {
    if ops != [] {
      MarksAreLeases(n, ops[..|ops| - 1], offset);
    }
  }

  /** Over every run, no address that is held is granted, neither by `allocate` nor by
      `try_reserve`; every grant is a host of the network other than its first two
      addresses; and `try_reserve` grants every such address that is not held. */
  lemma {:induction false} V6GrantsAreFresh(n: V6Network, ops: seq<Op>, op: Op)
    requires V6NetworkOk(n) && (op.Allocate? || op.TryReserve?)
    ensures var a := V6Answer(n, V6Run(n, ops), op);
            && (a.Some? && a.value.Ok? ==>
                  && a.value.value !in HeldAfter(n, ops)
                  && V6Contains(n, a.value.value) && a.value.value - n.base >= 2
                  && a.value.value in HeldAfter(n, ops + [op]))
            && (op.TryReserve? && V6Contains(n, op.ip) && op.ip - n.base >= 2 ==>
                  a == Some(if op.ip in HeldAfter(n, ops) then Err(AlreadyAllocated) else Ok(op.ip)))
  {
    var s := V6Run(n, ops);
    assert (ops + [op])[..|ops|] == ops;
    V6RunOk(n, ops);
    MarksAreLeases(n, ops, s.cursor);
    if op.TryReserve? && V6Contains(n, op.ip) && op.ip - n.base >= 2 {
      MarksAreLeases(n, ops, op.ip - n.base);
    }
  }

  lemma {:induction false} V6RunOk(n: V6Network, ops: seq<Op>)
    requires V6NetworkOk(n)
    ensures V6Ok(n, V6Run(n, ops))
  {
    if ops != [] { V6RunOk(n, ops[..|ops| - 1]); }
  }
}
