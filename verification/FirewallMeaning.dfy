/** What the firewall commands mean to everybody else's rules, to packets, and to the
    read-only check a restarted agent makes. */
module FirewallMeaning {
  import opened Common
  import opened DesiredStates
  import opened Text
  import opened Firewall
  import opened Alphabets

  // ------------------------------------------------- other people's rules

  function Unowned(rules: seq<Rule>): seq<Rule> {
    if rules == [] then []
    else (if OwnedJump(rules[0]) then [] else [rules[0]]) + Unowned(rules[1..])
  }

  /** Every chain the agent does not own, without the agent's jumps: content and order. */
  function ForeignView(t: Tables): map<ChainRef, seq<Rule>> {
    map k | k in t && !OwnedChain(k.chain) :: Unowned(t[k])
  }

  /** A command of the agent's: it works inside an owned chain, or moves an owned jump. */
  predicate AgentCommand(c: Command) {
    || OwnedChain(c.at.chain)
    || ((c.InsertRule? || c.DeleteRule? || c.CheckRule?) && OwnedJump(c.rule))
  }

  lemma {:induction false} RemoveOwnedKeepsUnowned(rules: seq<Rule>, r: Rule)
    requires OwnedJump(r)
    ensures Unowned(RemoveFirst(rules, r)) == Unowned(rules)
  {
    if rules != [] && rules[0] != r {
      RemoveOwnedKeepsUnowned(rules[1..], r);
    }
  }

  /** Whether it succeeds, fails cleanly or fails after taking effect, no agent command
      touches the content or order of anybody else's rules. */
  lemma {:induction false} AgentCommandKeepsForeignView(t: Tables, c: Command, ok: bool, t': Tables)
    requires AgentCommand(c) && Outcome(t, c, ok, t')
    ensures ForeignView(t') == ForeignView(t)
  {
    if t' != t && !OwnedChain(c.at.chain) {
      if c.DeleteRule? {
        RemoveOwnedKeepsUnowned(t[c.at], c.rule);
      } else {
        assert ([c.rule] + t[c.at])[1..] == t[c.at];
      }
      assert Unowned(t'[c.at]) == Unowned(t[c.at]);
    }
  }

  lemma {:induction false} UnownedIsAll(rules: seq<Rule>)
    requires forall i :: 0 <= i < |rules| ==> !OwnedJump(rules[i])
    ensures Unowned(rules) == rules
  {
    if rules != [] {
      UnownedIsAll(rules[1..]);
      assert rules == [rules[0]] + rules[1..];
    }
  }

  lemma {:induction false} AbsentIsForeign(t: Tables)
    requires OwnedAbsent(t)
    ensures ForeignView(t) == t
  {
    forall k | k in t ensures !OwnedChain(k.chain) && Unowned(t[k]) == t[k] {
      UnownedIsAll(t[k]);
    }
  }

  /** Where nothing of the agent's is left, nothing has changed at all. */
  lemma {:induction false} AbsentIsUntouched(t: Tables, u: Tables)
    requires OwnedAbsent(t) && ForeignView(u) == ForeignView(t)
    ensures OwnedAbsent(u) <==> u == t
  {
    AbsentIsForeign(t);
    if OwnedAbsent(u) { AbsentIsForeign(u); }
  }

  // --------------------------------------------------------------- packets

  /** `marks` names the further match expressions the packet satisfies. */
  datatype Packet = Packet(
    inIf: string, outIf: string, src: Ipv4, dst: Ipv4, tcpPort: Option<nat>, marks: set<string>)

  function Pow2(n: nat): (r: nat)
    ensures r > 0
  {
    if n == 0 then 1 else 2 * Pow2(n - 1)
  }

  predicate InCidr(ip: Ipv4, c: Cidr) {
    c.prefix <= 32 && Value(ip) / Pow2(32 - c.prefix) == Value(c.ip) / Pow2(32 - c.prefix)
  }

  predicate Hits(r: Rule, p: Packet) {
    && (r.inIf.Some? ==> r.inIf.value == p.inIf)
    && (r.outIf.Some? ==> r.outIf.value == p.outIf)
    && (r.src.Some? ==> InCidr(p.src, r.src.value))
    && (r.dst.Some? ==> InCidr(p.dst, r.dst.value))
    && (r.tcpPort.Some? ==> p.tcpPort == r.tcpPort)
    && (r.extra.Some? ==> r.extra.value in p.marks)
  }

  datatype Verdict = Accepted | Dropped | Continues | Returned | TooDeep

  /** A packet walking a list of filter rules, with at most `depth` nested chains. */
  function Walk(t: Tables, rules: seq<Rule>, p: Packet, depth: nat): Verdict
    decreases depth, |rules|
  {
    if rules == [] then Continues
    else if !Hits(rules[0], p) then Walk(t, rules[1..], p, depth)
    else match rules[0].target
      case Accept => Accepted
      case Drop => Dropped
      case Return => Returned
      case Jump(c) =>
        if depth == 0 then TooDeep
        else if ChainRef(Filter, c) !in t then Walk(t, rules[1..], p, depth)
        else
          var v := Walk(t, t[ChainRef(Filter, c)], p, depth - 1);
          if v == Continues || v == Returned then Walk(t, rules[1..], p, depth) else v
      case _ => Walk(t, rules[1..], p, depth)
  }

  /** Inside 10.0.0.0/22, by octets. */
  predicate InVpn(ip: Ipv4) {
    ip.a == 10 && ip.b == 0 && ip.c <= 3
  }

  lemma {:induction false} VpnCidrIsVpn(ip: Ipv4)
    ensures InCidr(ip, VPN_CIDR) <==> InVpn(ip)
  {
    Pow2Ten();
    assert VPN_CIDR.prefix == 22 && Value(VPN_CIDR.ip) == 10 * 16777216;
    var v := Value(ip);
    assert v == ip.a * 16777216 + ip.b * 65536 + ip.c * 256 + ip.d;
    assert v / 1024 == 10 * 16384 <==> 10 * 16777216 <= v < 10 * 16777216 + 1024;
  }

  lemma {:induction false} Pow2Ten()
    ensures Pow2(10) == 1024
  {
    assert Pow2(5) == 32;
    assert Pow2(6) == 64 && Pow2(7) == 128 && Pow2(8) == 256 && Pow2(9) == 512;
  }

  lemma {:induction false} SingleHost(ip: Ipv4, target: Ipv4)
    ensures InCidr(ip, Cidr(target, 32)) <==> ip == target
  {
    assert Pow2(0) == 1;
    ValueInjective(ip, target);
  }

  lemma {:induction false} ValueInjective(x: Ipv4, y: Ipv4)
    ensures Value(x) == Value(y) ==> x == y
  {
    var x3, y3 := (x.a * 256 + x.b) * 256 + x.c, (y.a * 256 + y.b) * 256 + y.c;
    LastOctet(x3, x.d, y3, y.d);
    LastOctet(x.a * 256 + x.b, x.c, y.a * 256 + y.b, y.c);
    LastOctet(x.a, x.b, y.a, y.b);
  }

  lemma {:induction false} LastOctet(h: nat, l: Octet, h': nat, l': Octet)
    ensures h * 256 + l == h' * 256 + l' ==> h == h' && l == l'
  {
  }

  /** What the plan permits a packet that came in through the tunnel. */
  predicate Permitted(plan: HostForwardPlan, p: Packet) {
    || (p.outIf == VPN_INTERFACE && InVpn(p.src) && InVpn(p.dst))
    || ForHttps(plan, p)
  }

  lemma {:induction false} FwdChainDecides(t: Tables, plan: HostForwardPlan, p: Packet, depth: nat)
    requires plan.peerCidr == VPN_CIDR && p.inIf == VPN_INTERFACE
    ensures Walk(t, FwdRules(plan), p, depth) == if Permitted(plan, p) then Accepted else Dropped
  {
    VpnCidrIsVpn(p.src);
    VpnCidrIsVpn(p.dst);
    SingleHost(p.dst, plan.httpsTarget);
    var r := FwdRules(plan);
    assert r[1..] == [HttpsRule(plan), DropRule()] && r[1..][1..] == [DropRule()];
    assert Walk(t, [DropRule()], p, depth) == Dropped;
    assert Hits(HttpsRule(plan), p) <==> p.outIf == plan.httpsBridge && InVpn(p.src) && p.dst == plan.httpsTarget && p.tcpPort == Some(443);
    assert Hits(PeerRule(plan), p) <==> p.outIf == VPN_INTERFACE && InVpn(p.src) && InVpn(p.dst);
    assert Walk(t, r[1..], p, depth) == if Hits(HttpsRule(plan), p) then Accepted else Dropped;
  }

  /** A packet from the tunnel that reaches DOCKER-USER is accepted exactly when the plan
      permits it and dropped otherwise, whatever rules stand behind the jump. */
  lemma {:induction false} TunnelPacketsAreDecided(t: Tables, plan: HostForwardPlan, p: Packet, depth: nat)
    requires Guarding(plan, t) && plan.peerCidr == VPN_CIDR && p.inIf == VPN_INTERFACE
    ensures Walk(t, t[DOCKER_USER], p, depth + 1) == if Permitted(plan, p) then Accepted else Dropped
  {
    FwdChainDecides(t, plan, p, depth);
  }

  /** The same at the top of FORWARD: rules before Docker's hook that let the packet
      through do not matter, and rules after the hook are never reached. */
  lemma {:induction false} TunnelPacketsAtForward(t: Tables, plan: HostForwardPlan, p: Packet,
                                                  before: seq<Rule>, hook: Rule, rest: seq<Rule>, depth: nat)
    requires Guarding(plan, t) && plan.peerCidr == VPN_CIDR && p.inIf == VPN_INTERFACE
    requires hook.target == Jump(DockerUser) && Hits(hook, p)
    requires Walk(t, before, p, depth + 2) == Continues
    ensures Walk(t, before + [hook] + rest, p, depth + 2) == if Permitted(plan, p) then Accepted else Dropped
  {
    var all := before + [hook] + rest;
    if before == [] {
      assert all == [hook] + rest;
      TunnelPacketsAreDecided(t, plan, p, depth);
    } else {
      TunnelPacketsAtForward(t, plan, p, before[1..], hook, rest, depth);
      assert all[1..] == before[1..] + [hook] + rest;
    }
  }

  /** Installing the firewall does not change the verdict on any packet that did not come
      in through the tunnel, on any chain, at any depth. */
  lemma {:induction false} OtherPacketsKeepVerdict(t: Tables, plan: HostForwardPlan, rules: seq<Rule>, p: Packet, depth: nat)
    requires OwnedAbsent(t) && Hookable(t) && p.inIf != VPN_INTERFACE
    requires forall i :: 0 <= i < |rules| ==> !OwnedJump(rules[i])
    ensures Walk(Installed(plan, t), rules, p, depth) == Walk(t, rules, p, depth)
    decreases depth, |rules|
  {
    var u := Installed(plan, t);
    if rules != [] {
      OtherPacketsKeepVerdict(t, plan, rules[1..], p, depth);
      if Hits(rules[0], p) && rules[0].target.Jump? && depth > 0 {
        var c := ChainRef(Filter, rules[0].target.chain);
        assert !OwnedChain(c.chain);
        if c in t {
          OtherPacketsKeepVerdict(t, plan, t[c], p, depth - 1);
          if c == DOCKER_USER {
            assert u[c][1..] == t[c];
          } else {
            assert u[c] == t[c];
          }
        }
      }
    }
  }

  // ------------------------------------------------------- source translation

  datatype Translation = Rewritten(source: Ipv4) | Settled(target: Target) | Passes | Leaves | Nested

  /** A packet walking a list of nat rules: the first SNAT it hits names its new source,
      any other final target settles it. */
  function Translate(t: Tables, rules: seq<Rule>, p: Packet, depth: nat): Translation
    decreases depth, |rules|
  {
    if rules == [] then Passes
    else if !Hits(rules[0], p) then Translate(t, rules[1..], p, depth)
    else match rules[0].target
      case Snat(source) => Rewritten(source)
      case Return => Leaves
      case Jump(c) =>
        if depth == 0 then Nested
        else if ChainRef(Nat, c) !in t then Translate(t, rules[1..], p, depth)
        else
          var v := Translate(t, t[ChainRef(Nat, c)], p, depth - 1);
          if v.Passes? || v.Leaves? then Translate(t, rules[1..], p, depth) else v
      case _ => Settled(rules[0].target)
  }

  /** The plan's HTTPS traffic: from the VPN to the target, over the bridge. */
  predicate ForHttps(plan: HostForwardPlan, p: Packet) {
    p.outIf == plan.httpsBridge && InVpn(p.src) && p.dst == plan.httpsTarget && p.tcpPort == Some(443)
  }

  lemma {:induction false} SnatHits(plan: HostForwardPlan, p: Packet)
    requires plan.peerCidr == VPN_CIDR
    ensures Hits(SnatRule(plan), p) <==> ForHttps(plan, p)
    ensures Hits(NatJump(plan), p) <==> ForHttps(plan, p)
  {
    VpnCidrIsVpn(p.src);
    SingleHost(p.dst, plan.httpsTarget);
  }

  /** After install exactly the plan's HTTPS traffic leaves with the plan's source
      address, ahead of every other nat rule; what becomes of any other packet at
      POSTROUTING is what became of it before. */
  lemma {:induction false} OnlyHttpsIsTranslated(t: Tables, plan: HostForwardPlan, p: Packet, depth: nat)
    requires OwnedAbsent(t) && Hookable(t) && plan.peerCidr == VPN_CIDR
    ensures Translate(Installed(plan, t), Installed(plan, t)[POSTROUTING], p, depth + 1)
         == if ForHttps(plan, p) then Rewritten(plan.snatSource) else Translate(t, t[POSTROUTING], p, depth + 1)
  {
    var u := Installed(plan, t);
    SnatHits(plan, p);
    assert u[POSTROUTING][1..] == t[POSTROUTING];
    if ForHttps(plan, p) {
      assert u[NAT] == [SnatRule(plan)];
      assert Translate(u, u[NAT], p, depth) == Rewritten(plan.snatSource);
    } else {
      OthersKeepTranslation(t, plan, t[POSTROUTING], p, depth + 1);
    }
  }

  lemma {:induction false} OthersKeepTranslation(t: Tables, plan: HostForwardPlan, rules: seq<Rule>, p: Packet, depth: nat)
    requires OwnedAbsent(t) && Hookable(t) && plan.peerCidr == VPN_CIDR && !ForHttps(plan, p)
    requires forall i :: 0 <= i < |rules| ==> !OwnedJump(rules[i])
    ensures Translate(Installed(plan, t), rules, p, depth) == Translate(t, rules, p, depth)
    decreases depth, |rules|
  {
    var u := Installed(plan, t);
    SnatHits(plan, p);
    if rules != [] {
      OthersKeepTranslation(t, plan, rules[1..], p, depth);
      if Hits(rules[0], p) && rules[0].target.Jump? && depth > 0 {
        var c := ChainRef(Nat, rules[0].target.chain);
        assert !OwnedChain(c.chain);
        if c in t {
          OthersKeepTranslation(t, plan, t[c], p, depth - 1);
          if c == POSTROUTING {
            assert u[c][1..] == t[c];
          } else {
            assert u[c] == t[c];
          }
        }
      }
    }
  }

  // ------------------------------------------------------- from facts to packets

  const NAME_CHARACTERS := LOWER + UPPER + DIGITS + "-_."

  lemma {:induction false} NameCharacters(c: char)
    ensures InterfaceChar(c) <==> c in NAME_CHARACTERS
  {
    if InterfaceChar(c) {
      NameCharacterIs(PlaceOf(c));
      PlaceIsUnique(c, NAME_CHARACTERS[PlaceOf(c)]);
    }
    if c in NAME_CHARACTERS {
      var i :| 0 <= i < |NAME_CHARACTERS| && NAME_CHARACTERS[i] == c;
      NameCharacterIs(i);
    }
  }

  lemma {:induction false} PlaceIsUnique(c: char, d: char)
    requires InterfaceChar(c) && InterfaceChar(d) && PlaceOf(c) == PlaceOf(d)
    ensures c == d
  {
  }

  function PlaceOf(c: char): (i: nat)
    requires InterfaceChar(c)
    ensures i < 65
  {
    if 'a' <= c <= 'z' then (c - 'a') as nat
    else if 'A' <= c <= 'Z' then 26 + (c - 'A') as nat
    else if '0' <= c <= '9' then 52 + (c - '0') as nat
    else if c == '-' then 62 else if c == '_' then 63 else 64
  }

  lemma {:induction false} NameCharacterIs(i: nat)
    ensures |NAME_CHARACTERS| == 65
    ensures i < 65 ==> InterfaceChar(NAME_CHARACTERS[i]) && PlaceOf(NAME_CHARACTERS[i]) == i
  {
    if i < 26 { LowerAt(i); }
    else if i < 52 { UpperAt(i - 26); }
    else if i < 62 { DigitAt(i - 52); }
  }

  /** A source that packets can carry: not the unspecified address, not one of
      127.0.0.0/8, not one of 224.0.0.0/4. */
  lemma {:induction false} UsableSourceIs(ip: Ipv4)
    ensures UsableSource(ip) <==>
            ip != Ipv4(0, 0, 0, 0) && !InCidr(ip, Cidr(Ipv4(127, 0, 0, 0), 8)) && !InCidr(ip, Cidr(Ipv4(224, 0, 0, 0), 4))
  {
    Pow2At24And28();
    var v := Value(ip);
    assert v == ip.a * 16777216 + ip.b * 65536 + ip.c * 256 + ip.d;
    assert Value(Ipv4(127, 0, 0, 0)) == 127 * 16777216 && Value(Ipv4(224, 0, 0, 0)) == 14 * 268435456;
    assert v / 16777216 == ip.a;
    assert v / 268435456 == ip.a / 16;
  }

  lemma {:induction false} Pow2At24And28()
    ensures Pow2(24) == 16777216 && Pow2(28) == 268435456
  {
    Pow2Ten();
    assert Pow2(14) == 16384 && Pow2(18) == 262144 && Pow2(22) == 4194304;
    assert Pow2(26) == 67108864;
  }

  /** Exactly when the network compiles to a plan: Docker forwards and publishes HTTPS as
      expected, nobody publishes the tunnel's port, and the route to the HTTPS target
      leaves through Docker's own bridge, whose name is fit for a command, from an address
      that can be put on a packet. */
  lemma {:induction false} CompilesIff(f: FirewallFacts, route: BridgeRoute)
    ensures CompileHostForwarding(f, route).Some? <==>
            && f.inputAccept && f.forwardDrop && f.dockerUserHook && !f.oldUdpPublish && f.httpsPublish
            && f.httpsTarget.Some? && f.httpsBridge == Some(route.interface)
            && 1 <= |route.interface| <= 15
            && (forall i :: 0 <= i < |route.interface| ==> route.interface[i] in NAME_CHARACTERS)
            && route.sourceIp != f.httpsTarget.value && route.sourceIp != Ipv4(0, 0, 0, 0)
            && !InCidr(route.sourceIp, Cidr(Ipv4(127, 0, 0, 0), 8)) && !InCidr(route.sourceIp, Cidr(Ipv4(224, 0, 0, 0), 4))
  {
    UsableSourceIs(route.sourceIp);
    forall i | 0 <= i < |route.interface|
      ensures InterfaceChar(route.interface[i]) <==> route.interface[i] in NAME_CHARACTERS
    {
      NameCharacters(route.interface[i]);
    }
  }

  /** Exactly the plans that `from_plan` turns into commands. */
  lemma {:induction false} FromPlanIff(p: HostForwardPlan)
    ensures FromPlan(p).Some? <==>
            && p.peerCidr == Cidr(Ipv4(10, 0, 0, 0), 22) && p.dropOther
            && 1 <= |p.httpsBridge| <= 15
            && forall i :: 0 <= i < |p.httpsBridge| ==> p.httpsBridge[i] in NAME_CHARACTERS
  {
    forall i | 0 <= i < |p.httpsBridge| ensures InterfaceChar(p.httpsBridge[i]) <==> p.httpsBridge[i] in NAME_CHARACTERS {
      NameCharacters(p.httpsBridge[i]);
    }
  }

  /** What the whole compilation means, from the facts and the route: once installed, a
      packet from the tunnel passes DOCKER-USER if and only if it is peer-to-peer or HTTPS
      to Docker's published target over Docker's bridge; and exactly that HTTPS traffic
      leaves with the route's own source address. */
  lemma {:induction false} CompiledPlanMeans(f: FirewallFacts, route: BridgeRoute, t: Tables, p: Packet, depth: nat)
    requires CompileHostForwarding(f, route).Some? && OwnedAbsent(t) && Hookable(t)
    ensures f.httpsTarget.Some? && f.httpsBridge.Some?
    ensures var u := Installed(CompileHostForwarding(f, route).value, t);
            var https := p.outIf == f.httpsBridge.value && InVpn(p.src) && p.dst == f.httpsTarget.value && p.tcpPort == Some(443);
            var peers := p.outIf == "wg0" && InVpn(p.src) && InVpn(p.dst);
            && (p.inIf == "wg0" ==>
                  Walk(u, u[DOCKER_USER], p, depth + 1) == if peers || https then Accepted else Dropped)
            && Translate(u, u[POSTROUTING], p, depth + 1)
               == if https then Rewritten(route.sourceIp) else Translate(t, t[POSTROUTING], p, depth + 1)
  {
    var plan := CompileHostForwarding(f, route).value;
    if p.inIf == VPN_INTERFACE { TunnelPacketsAreDecided(Installed(plan, t), plan, p, depth); }
    OnlyHttpsIsTranslated(t, plan, p, depth);
  }

  // ------------------------------------------------- read-only reconciliation

  function CountJumps(rules: seq<Rule>, c: Chain): nat {
    if rules == [] then 0
    else (if rules[0].target == Jump(c) then 1 else 0) + CountJumps(rules[1..], c)
  }

  function RulesOf(t: Tables, k: ChainRef): seq<Rule> {
    if k in t then t[k] else []
  }

  /** How many tables declare the chain, and how many rules those chains hold. */
  function Declared(t: Tables, c: Chain): nat {
    (if ChainRef(Filter, c) in t then 1 else 0) + (if ChainRef(Nat, c) in t then 1 else 0)
  }

  function RuleCount(t: Tables, c: Chain): nat {
    |RulesOf(t, ChainRef(Filter, c))| + |RulesOf(t, ChainRef(Nat, c))|
  }

  /** The structural gate of `verify_installed` on the iptables-save snapshot. */
  predicate SnapshotGate(t: Tables) {
    && Declared(t, HostFwd) == 1 && Declared(t, HostNat) == 1
    && RuleCount(t, HostFwd) == 3 && RuleCount(t, HostNat) == 1
    && CountJumps(RulesOf(t, DOCKER_USER), HostFwd) + CountJumps(RulesOf(t, ChainRef(Nat, DockerUser)), HostFwd) == 1
    && CountJumps(RulesOf(t, POSTROUTING), HostNat) + CountJumps(RulesOf(t, ChainRef(Filter, Postrouting)), HostNat) == 1
  }

  /** The `-C` commands it then runs: every staged rule and both jumps. */
  function CheckCommands(p: HostForwardPlan): seq<Command> {
    [CheckRule(FWD, PeerRule(p)), CheckRule(FWD, HttpsRule(p)), CheckRule(FWD, DropRule()),
     CheckRule(NAT, SnatRule(p)), CheckRule(POSTROUTING, NatJump(p)), CheckRule(DOCKER_USER, FilterJump())]
  }

  predicate InstalledCheckAccepts(p: HostForwardPlan, t: Tables) {
    SnapshotGate(t) && forall i :: 0 <= i < 6 ==> Possible(t, CheckCommands(p)[i])
  }

  /** The agent's rules are the planned ones as multisets, with each jump present once. */
  ghost predicate OwnedRulesArePlanned(p: HostForwardPlan, t: Tables) {
    forall c {:trigger ChainIsPlanned(p, t, c)} :: OwnedChain(c) ==> ChainIsPlanned(p, t, c)
  }

  predicate ChainIsPlanned(p: HostForwardPlan, t: Tables, c: Chain) {
    match c
    case HostFwd =>
      && FWD in t && ChainRef(Nat, HostFwd) !in t && multiset(t[FWD]) == multiset(FwdRules(p))
      && FilterJump() in RulesOf(t, DOCKER_USER)
      && CountJumps(RulesOf(t, DOCKER_USER), HostFwd) == 1
      && CountJumps(RulesOf(t, ChainRef(Nat, DockerUser)), HostFwd) == 0
    case HostNat =>
      && NAT in t && ChainRef(Filter, HostNat) !in t && t[NAT] == [SnatRule(p)]
      && NatJump(p) in RulesOf(t, POSTROUTING)
      && CountJumps(RulesOf(t, POSTROUTING), HostNat) == 1
      && CountJumps(RulesOf(t, ChainRef(Filter, Postrouting)), HostNat) == 0
    case _ => true
  }

  lemma {:induction false} PresentIsCounted(rules: seq<Rule>, r: Rule, c: Chain)
    requires r in rules && r.target == Jump(c)
    ensures CountJumps(rules, c) >= 1
  {
    if rules[0] != r {
      assert r in rules[1..];
      PresentIsCounted(rules[1..], r, c);
    }
  }

  lemma {:induction false} ThreeOfThree(rules: seq<Rule>, a: Rule, b: Rule, c: Rule)
    requires |rules| == 3 && a != b && b != c && a != c
    requires a in rules && b in rules && c in rules
    ensures multiset(rules) == multiset{a, b, c}
  {
    assert rules == [rules[0], rules[1], rules[2]];
    assert {rules[0], rules[1], rules[2]} == {a, b, c};
    assert rules[0] != rules[1] && rules[1] != rules[2] && rules[0] != rules[2];
    assert multiset(rules) == multiset{rules[0], rules[1], rules[2]};
  }

  lemma {:induction false} PassingRulesArePlanned(p: HostForwardPlan, t: Tables)
    requires InstalledCheckAccepts(p, t)
    ensures ChainIsPlanned(p, t, HostFwd) && ChainIsPlanned(p, t, HostNat)
  {
    var checks := CheckCommands(p);
    assert Possible(t, checks[0]) && Possible(t, checks[1]) && Possible(t, checks[2]);
    assert Possible(t, checks[3]) && Possible(t, checks[4]) && Possible(t, checks[5]);
    ThreeOfThree(t[FWD], PeerRule(p), HttpsRule(p), DropRule());
    PresentIsCounted(t[DOCKER_USER], FilterJump(), HostFwd);
    PresentIsCounted(t[POSTROUTING], NatJump(p), HostNat);
  }

  /** `verify_installed` accepts exactly the tables whose agent-owned rules are the
      planned ones as multisets. */
  lemma {:induction false} InstalledCheckAcceptsIff(p: HostForwardPlan, t: Tables)
    ensures InstalledCheckAccepts(p, t) <==> OwnedRulesArePlanned(p, t)
  {
    if InstalledCheckAccepts(p, t) { PassingRulesArePlanned(p, t); }
    if OwnedRulesArePlanned(p, t) { PlannedRulesPass(p, t); }
  }

  lemma {:induction false} PlannedRulesPass(p: HostForwardPlan, t: Tables)
    requires OwnedRulesArePlanned(p, t)
    ensures InstalledCheckAccepts(p, t)
  {
    assert ChainIsPlanned(p, t, HostFwd) && ChainIsPlanned(p, t, HostNat);
    assert |t[FWD]| == |multiset(t[FWD])| == |multiset(FwdRules(p))| == 3;
    forall r | r in FwdRules(p) ensures r in t[FWD] {
      assert r in multiset(FwdRules(p));
      assert r in multiset(t[FWD]);
    }
  }

  lemma {:induction false} NoOwnedJumpsCountZero(rules: seq<Rule>, c: Chain)
    requires OwnedChain(c) && forall i :: 0 <= i < |rules| ==> !OwnedJump(rules[i])
    ensures CountJumps(rules, c) == 0
  {
    if rules != [] {
      NoOwnedJumpsCountZero(rules[1..], c);
    }
  }

  /** `verify_installed` accepts right after a clean install. */
  lemma {:induction false} InstalledIsAccepted(p: HostForwardPlan, t: Tables)
    requires OwnedAbsent(t) && Hookable(t)
    ensures InstalledCheckAccepts(p, Installed(p, t))
  {
    var u := Installed(p, t);
    NoOwnedJumpsCountZero(t[DOCKER_USER], HostFwd);
    NoOwnedJumpsCountZero(t[POSTROUTING], HostNat);
    NoOwnedJumpsCountZero(RulesOf(t, ChainRef(Nat, DockerUser)), HostFwd);
    NoOwnedJumpsCountZero(RulesOf(t, ChainRef(Filter, Postrouting)), HostNat);
    assert u[DOCKER_USER][1..] == t[DOCKER_USER] && u[POSTROUTING][1..] == t[POSTROUTING];
    assert ChainRef(Nat, HostFwd) !in t && ChainRef(Filter, HostNat) !in t;
    InstalledCheckAcceptsIff(p, u);
  }

  /** But it does not look at order: with the DROP rule moved to the front it
      still accepts, and the peer traffic the plan permits is dropped. */
  lemma {:induction false} OrderIsNotChecked(p: HostForwardPlan, t: Tables, pkt: Packet, depth: nat)
    requires OwnedAbsent(t) && Hookable(t)
    requires pkt.inIf == VPN_INTERFACE && Permitted(p, pkt)
    ensures var bad := Installed(p, t)[FWD := [DropRule(), PeerRule(p), HttpsRule(p)]];
            InstalledCheckAccepts(p, bad) && Walk(bad, bad[DOCKER_USER], pkt, depth + 1) == Dropped
  {
    var up := Installed(p, t);
    var bad := up[FWD := [DropRule(), PeerRule(p), HttpsRule(p)]];
    InstalledIsAccepted(p, t);
    InstalledCheckAcceptsIff(p, up);
    assert multiset(bad[FWD]) == multiset(FwdRules(p));
    assert ChainIsPlanned(p, up, HostFwd) && ChainIsPlanned(p, up, HostNat);
    assert ChainIsPlanned(p, bad, HostFwd) && ChainIsPlanned(p, bad, HostNat);
    InstalledCheckAcceptsIff(p, bad);
    assert Walk(bad, bad[FWD], pkt, depth) == Dropped;
  }

  // ---------------------------------------- what acceptance gives, and when

  function PlannedVerdict(plan: HostForwardPlan, p: Packet): Verdict {
    if Permitted(plan, p) then Accepted else Dropped
  }

  /** Every packet from the tunnel that reaches DOCKER-USER is decided as planned. */
  ghost predicate Decides(plan: HostForwardPlan, t: Tables, depth: nat) {
    forall p: Packet {:trigger PlannedVerdict(plan, p)} :: p.inIf == VPN_INTERFACE ==>
      Walk(t, RulesOf(t, DOCKER_USER), p, depth + 1) == PlannedVerdict(plan, p)
  }

  /** The rules in front of the agent's jump. */
  function Ahead(rules: seq<Rule>): seq<Rule> {
    if rules == [] || rules[0] == FilterJump() then [] else [rules[0]] + Ahead(rules[1..])
  }

  /** Some rule in front of the DROP takes the packet. */
  predicate TakenBeforeDrop(chain: seq<Rule>, p: Packet) {
    chain != [] && chain[0] != DropRule() && (Hits(chain[0], p) || TakenBeforeDrop(chain[1..], p))
  }

  /** The packet is permitted, but only by rules behind the DROP. */
  predicate Starved(plan: HostForwardPlan, chain: seq<Rule>, p: Packet) {
    Permitted(plan, p) && !TakenBeforeDrop(chain, p)
  }

  /** Nothing gets between a tunnel packet and the plan: what stands in front of the jump
      agrees with the plan or lets the packet through to a chain that does not starve it. */
  ghost predicate Undiverted(plan: HostForwardPlan, t: Tables, depth: nat) {
    forall p: Packet {:trigger PlannedVerdict(plan, p)} :: p.inIf == VPN_INTERFACE ==>
      var v := Walk(t, Ahead(RulesOf(t, DOCKER_USER)), p, depth + 1);
      v == PlannedVerdict(plan, p) || (v == Continues && !Starved(plan, RulesOf(t, FWD), p))
  }

  lemma {:induction false} WalkConcat(t: Tables, a: seq<Rule>, b: seq<Rule>, p: Packet, depth: nat)
    ensures Walk(t, a + b, p, depth)
         == if Walk(t, a, p, depth) == Continues then Walk(t, b, p, depth) else Walk(t, a, p, depth)
  {
    if a == [] {
      assert a + b == b;
    } else {
      WalkConcat(t, a[1..], b, p, depth);
      assert (a + b)[1..] == a[1..] + b;
    }
  }

  lemma {:induction false} AheadSplits(rules: seq<Rule>)
    requires FilterJump() in rules
    ensures |Ahead(rules)| < |rules| && rules[|Ahead(rules)|] == FilterJump()
    ensures rules[..|Ahead(rules)|] == Ahead(rules)
  {
    if rules[0] != FilterJump() {
      assert FilterJump() in rules[1..];
      AheadSplits(rules[1..]);
      assert rules == [rules[0]] + rules[1..];
    }
  }

  predicate PlannedRule(plan: HostForwardPlan, r: Rule) {
    r == PeerRule(plan) || r == HttpsRule(plan) || r == DropRule()
  }

  /** Any arrangement of the planned rules that has the DROP decides every tunnel packet. */
  lemma {:induction false} ArrangedChainDecides(t: Tables, plan: HostForwardPlan, chain: seq<Rule>, p: Packet, depth: nat)
    requires plan.peerCidr == VPN_CIDR && p.inIf == VPN_INTERFACE
    requires forall i :: 0 <= i < |chain| ==> PlannedRule(plan, chain[i])
    requires DropRule() in chain
    ensures Walk(t, chain, p, depth) == if TakenBeforeDrop(chain, p) then Accepted else Dropped
    ensures TakenBeforeDrop(chain, p) ==> Permitted(plan, p)
  {
    if chain[0] != DropRule() {
      assert PlannedRule(plan, chain[0]);
      HitsMeanPermitted(plan, p);
      assert DropRule() in chain[1..];
      ArrangedChainDecides(t, plan, chain[1..], p, depth);
    }
  }

  lemma {:induction false} HitsMeanPermitted(plan: HostForwardPlan, p: Packet)
    requires plan.peerCidr == VPN_CIDR && p.inIf == VPN_INTERFACE
    ensures Hits(PeerRule(plan), p) || Hits(HttpsRule(plan), p) <==> Permitted(plan, p)
    ensures Hits(PeerRule(plan), p) <==> p.outIf == VPN_INTERFACE && InVpn(p.src) && InVpn(p.dst)
    ensures Hits(HttpsRule(plan), p) <==> ForHttps(plan, p)
  {
    VpnCidrIsVpn(p.src);
    VpnCidrIsVpn(p.dst);
    SingleHost(p.dst, plan.httpsTarget);
  }

  lemma {:induction false} AcceptedChainIsPlanned(plan: HostForwardPlan, t: Tables)
    requires OwnedRulesArePlanned(plan, t)
    ensures FWD in t && |t[FWD]| == 3 && FilterJump() in RulesOf(t, DOCKER_USER)
    ensures forall r :: r in t[FWD] <==> PlannedRule(plan, r)
    ensures DropRule() in t[FWD]
  {
    assert ChainIsPlanned(plan, t, HostFwd);
    assert |t[FWD]| == |multiset(t[FWD])| == |multiset(FwdRules(plan))| == 3;
    forall r ensures r in t[FWD] <==> PlannedRule(plan, r) {
      assert r in t[FWD] <==> r in multiset(t[FWD]);
      assert r in FwdRules(plan) <==> r in multiset(FwdRules(plan));
    }
  }

  /** One packet, on tables that `verify_installed` accepts. */
  lemma {:induction false} AcceptedWalk(plan: HostForwardPlan, t: Tables, p: Packet, depth: nat)
    requires OwnedRulesArePlanned(plan, t) && plan.peerCidr == VPN_CIDR && p.inIf == VPN_INTERFACE
    ensures var v := Walk(t, Ahead(RulesOf(t, DOCKER_USER)), p, depth + 1);
            Walk(t, RulesOf(t, DOCKER_USER), p, depth + 1) ==
              (if v != Continues then v else if Starved(plan, RulesOf(t, FWD), p) then Dropped else PlannedVerdict(plan, p))
  {
    AcceptedChainIsPlanned(plan, t);
    ArrangedChainDecides(t, plan, t[FWD], p, depth);
    var rules := RulesOf(t, DOCKER_USER);
    AheadSplits(rules);
    var k := |Ahead(rules)|;
    assert rules == rules[..k] + rules[k..];
    WalkConcat(t, rules[..k], rules[k..], p, depth + 1);
    assert Hits(FilterJump(), p);
  }

  /** On tables that `verify_installed` accepts, the plan is enforced if and only if nothing
      in front of the jump diverts a tunnel packet and no permitted one starves behind the
      DROP. */
  lemma {:induction false} AcceptedDecidesIff(plan: HostForwardPlan, t: Tables, depth: nat)
    requires OwnedRulesArePlanned(plan, t) && plan.peerCidr == VPN_CIDR
    ensures Decides(plan, t, depth) <==> Undiverted(plan, t, depth)
  {
    forall p: Packet | p.inIf == VPN_INTERFACE
      ensures Walk(t, RulesOf(t, DOCKER_USER), p, depth + 1) == PlannedVerdict(plan, p) <==>
              var v := Walk(t, Ahead(RulesOf(t, DOCKER_USER)), p, depth + 1);
              v == PlannedVerdict(plan, p) || (v == Continues && !Starved(plan, RulesOf(t, FWD), p))
    {
      AcceptedWalk(plan, t, p, depth);
    }
  }

  lemma {:induction false} DropLastStarvesNone(plan: HostForwardPlan, a: Rule, b: Rule, p: Packet)
    requires plan.peerCidr == VPN_CIDR && p.inIf == VPN_INTERFACE
    requires (a == PeerRule(plan) && b == HttpsRule(plan)) || (a == HttpsRule(plan) && b == PeerRule(plan))
    ensures !Starved(plan, [a, b, DropRule()], p)
  {
    HitsMeanPermitted(plan, p);
    var chain := [a, b, DropRule()];
    assert chain[1..] == [b, DropRule()];
    assert TakenBeforeDrop(chain[1..], p) <== Hits(b, p);
  }

  /** A peer packet and an HTTPS packet, each of which only one rule takes. */
  function Probe(plan: HostForwardPlan, last: Rule): Packet {
    if last == PeerRule(plan)
    then Packet(VPN_INTERFACE, VPN_INTERFACE, Ipv4(10, 0, 0, 2), Ipv4(10, 0, 0, 3), None, {})
    else Packet(VPN_INTERFACE, plan.httpsBridge, Ipv4(10, 0, 0, 2), plan.httpsTarget, Some(443), {})
  }

  lemma {:induction false} EarlyDropStarves(plan: HostForwardPlan, a: Rule, b: Rule, c: Rule)
    requires plan.peerCidr == VPN_CIDR && plan.httpsBridge != VPN_INTERFACE
    requires c == PeerRule(plan) || c == HttpsRule(plan)
    requires a != c && b != c && PlannedRule(plan, a) && PlannedRule(plan, b) && (a == DropRule() || b == DropRule())
    ensures Starved(plan, [a, b, c], Probe(plan, c))
  {
    var p, chain := Probe(plan, c), [a, b, c];
    HitsMeanPermitted(plan, p);
    assert chain[1..] == [b, c] && chain[1..][1..] == [c];
    assert a != DropRule() ==> !Hits(a, p);
    assert b != DropRule() ==> !Hits(b, p);
  }

  /** No permitted packet starves if and only if the DROP is the last of the three. */
  lemma {:induction false} NoneStarvesIff(plan: HostForwardPlan, t: Tables)
    requires OwnedRulesArePlanned(plan, t) && plan.peerCidr == VPN_CIDR && plan.httpsBridge != VPN_INTERFACE
    ensures FWD in t && |t[FWD]| == 3
    ensures (forall p: Packet :: p.inIf == VPN_INTERFACE ==> !Starved(plan, t[FWD], p)) <==> t[FWD][2] == DropRule()
  {
    AcceptedChainIsPlanned(plan, t);
    var chain := t[FWD];
    var a, b, c := chain[0], chain[1], chain[2];
    assert chain == [a, b, c];
    assert a in chain && b in chain && c in chain;
    assert PeerRule(plan) in chain && HttpsRule(plan) in chain;
    if c == DropRule() {
      forall p: Packet | p.inIf == VPN_INTERFACE ensures !Starved(plan, chain, p) {
        DropLastStarvesNone(plan, a, b, p);
      }
    } else {
      EarlyDropStarves(plan, a, b, c);
    }
  }

  /** The rules in front of the jump all name another interface. */
  predicate QuietAhead(t: Tables) {
    forall i :: 0 <= i < |Ahead(RulesOf(t, DOCKER_USER))| ==>
      var r := Ahead(RulesOf(t, DOCKER_USER))[i]; r.inIf.Some? && r.inIf.value != VPN_INTERFACE
  }

  lemma {:induction false} QuietRulesPass(t: Tables, rules: seq<Rule>, p: Packet, depth: nat)
    requires p.inIf == VPN_INTERFACE
    requires forall i :: 0 <= i < |rules| ==> rules[i].inIf.Some? && rules[i].inIf.value != VPN_INTERFACE
    ensures Walk(t, rules, p, depth) == Continues
  {
    if rules != [] { QuietRulesPass(t, rules[1..], p, depth); }
  }

  /** So where no rule in front of the jump is about the tunnel, as right after `install`,
      an accepted firewall enforces the plan if and only if its DROP comes last. */
  lemma {:induction false} AcceptedDecidesIffDropLast(plan: HostForwardPlan, t: Tables, depth: nat)
    requires OwnedRulesArePlanned(plan, t) && plan.peerCidr == VPN_CIDR && plan.httpsBridge != VPN_INTERFACE
    requires QuietAhead(t)
    ensures FWD in t && |t[FWD]| == 3
    ensures Decides(plan, t, depth) <==> t[FWD][2] == DropRule()
  {
    NoneStarvesIff(plan, t);
    AcceptedDecidesIff(plan, t, depth);
    forall p: Packet | p.inIf == VPN_INTERFACE
      ensures Walk(t, Ahead(RulesOf(t, DOCKER_USER)), p, depth + 1) == Continues
    {
      QuietRulesPass(t, Ahead(RulesOf(t, DOCKER_USER)), p, depth + 1);
    }
    assert Undiverted(plan, t, depth) <==> forall p: Packet :: p.inIf == VPN_INTERFACE ==> !Starved(plan, t[FWD], p) by {
      forall p: Packet | p.inIf == VPN_INTERFACE && Undiverted(plan, t, depth) ensures !Starved(plan, t[FWD], p) {
        assert PlannedVerdict(plan, p) != Continues;
      }
    }
  }

  /** The other way to be accepted without being enforced: an ACCEPT for everything in
      front of the jump. Every tunnel packet is let through. */
  lemma {:induction false} PositionIsNotChecked(p: HostForwardPlan, t: Tables, pkt: Packet, depth: nat)
    requires OwnedAbsent(t) && Hookable(t) && pkt.inIf == VPN_INTERFACE
    ensures var open := Rule(None, None, None, None, None, None, Accept);
            var bad := Installed(p, t)[DOCKER_USER := [open] + Installed(p, t)[DOCKER_USER]];
            InstalledCheckAccepts(p, bad) && Walk(bad, bad[DOCKER_USER], pkt, depth) == Accepted
  {
    var open := Rule(None, None, None, None, None, None, Accept);
    var up := Installed(p, t);
    var bad := up[DOCKER_USER := [open] + up[DOCKER_USER]];
    InstalledIsAccepted(p, t);
    InstalledCheckAcceptsIff(p, up);
    assert ChainIsPlanned(p, up, HostFwd) && ChainIsPlanned(p, up, HostNat);
    assert bad[DOCKER_USER][1..] == up[DOCKER_USER];
    assert FilterJump() in bad[DOCKER_USER][1..];
    assert ChainIsPlanned(p, bad, HostFwd) && ChainIsPlanned(p, bad, HostNat);
    InstalledCheckAcceptsIff(p, bad);
  }
}
