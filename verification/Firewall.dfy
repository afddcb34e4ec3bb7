/** Forwarding policy, the iptables commands it compiles to, and what those commands
    and rules mean (crates/zerovpn-host-agent/src/policy.rs and firewall_executor.rs). */
module Firewall {
  import opened Common
  import opened DesiredStates
  import opened Text

  datatype Table = Filter | Nat

  /** The two chains the agent owns, the ones it hooks into, and everybody else's. */
  datatype Chain = HostFwd | HostNat | DockerUser | Postrouting | Forward | Named(name: string)

  datatype ChainRef = ChainRef(table: Table, chain: Chain)

  datatype Target = Accept | Drop | Return | Jump(chain: Chain) | Snat(source: Ipv4) | Other(name: string)

  /** One rule; `extra` names any further match expression a rule of Docker's may carry. */
  datatype Rule = Rule(
    inIf: Option<string>, outIf: Option<string>, src: Option<Cidr>, dst: Option<Cidr>,
    tcpPort: Option<nat>, extra: Option<string>, target: Target)

  type Tables = map<ChainRef, seq<Rule>>

  const FWD := ChainRef(Filter, HostFwd)
  const NAT := ChainRef(Nat, HostNat)
  const DOCKER_USER := ChainRef(Filter, DockerUser)
  const POSTROUTING := ChainRef(Nat, Postrouting)
  const FORWARD := ChainRef(Filter, Forward)

  predicate OwnedChain(c: Chain) { c == HostFwd || c == HostNat }

  predicate OwnedJump(r: Rule) { r.target.Jump? && OwnedChain(r.target.chain) }

  // -------------------------------------------------------------------- policy

  datatype FirewallFacts = FirewallFacts(
    inputAccept: bool, forwardDrop: bool, dockerUserHook: bool, oldUdpPublish: bool,
    httpsPublish: bool, httpsTarget: Option<Ipv4>, httpsBridge: Option<string>)

  datatype BridgeRoute = BridgeRoute(interface: string, sourceIp: Ipv4)

  datatype HostForwardPlan = HostForwardPlan(
    peerCidr: Cidr, httpsTarget: Ipv4, httpsBridge: string, snatSource: Ipv4, dropOther: bool)

  const VPN_CIDR := Cidr(Ipv4(10, 0, 0, 0), 22)
  const VPN_INTERFACE := "wg0"

  predicate InterfaceChar(c: char) {
    'a' <= c <= 'z' || 'A' <= c <= 'Z' || '0' <= c <= '9' || c == '-' || c == '_' || c == '.'
  }

  predicate BridgeName(s: string) {
    0 < |s| <= 15 && forall i :: 0 <= i < |s| ==> InterfaceChar(s[i])
  }

  predicate ActivationReady(f: FirewallFacts) {
    && f.inputAccept && f.forwardDrop && f.dockerUserHook && !f.oldUdpPublish
    && f.httpsPublish && f.httpsTarget.Some? && f.httpsBridge.Some?
  }

  /** Neither unspecified, loopback nor multicast. */
  predicate UsableSource(ip: Ipv4) {
    ip != Ipv4(0, 0, 0, 0) && ip.a != 127 && !(224 <= ip.a <= 239)
  }

  /** `compile_host_forwarding`. */
  function CompileHostForwarding(f: FirewallFacts, route: BridgeRoute): Option<HostForwardPlan> {
    if !ActivationReady(f) then None
    else if route.interface != f.httpsBridge.value || !BridgeName(route.interface) then None
    else if route.sourceIp == f.httpsTarget.value || !UsableSource(route.sourceIp) then None
    else Some(HostForwardPlan(VPN_CIDR, f.httpsTarget.value, f.httpsBridge.value, route.sourceIp, true))
  }

  // ------------------------------------------------------------------ commands

  datatype Command =
    | NewChain(at: ChainRef)
    | AppendRule(at: ChainRef, rule: Rule)
    | InsertRule(at: ChainRef, rule: Rule)
    | DeleteRule(at: ChainRef, rule: Rule)
    | CheckRule(at: ChainRef, rule: Rule)
    | FlushChain(at: ChainRef)
    | DeleteChain(at: ChainRef)

  datatype FirewallCommands = FirewallCommands(
    stage: seq<Command>, activate: seq<Command>, detach: seq<Command>, cleanup: seq<Command>)

  function PeerRule(p: HostForwardPlan): Rule {
    Rule(Some(VPN_INTERFACE), Some(VPN_INTERFACE), Some(p.peerCidr), Some(p.peerCidr), None, None, Accept)
  }

  function HttpsRule(p: HostForwardPlan): Rule {
    Rule(Some(VPN_INTERFACE), Some(p.httpsBridge), Some(p.peerCidr), Some(Cidr(p.httpsTarget, 32)), Some(443), None, Accept)
  }

  function DropRule(): Rule {
    Rule(Some(VPN_INTERFACE), None, None, None, None, None, Drop)
  }

  function SnatRule(p: HostForwardPlan): Rule {
    Rule(None, Some(p.httpsBridge), Some(p.peerCidr), Some(Cidr(p.httpsTarget, 32)), Some(443), None, Snat(p.snatSource))
  }

  function NatJump(p: HostForwardPlan): Rule {
    SnatRule(p).(target := Jump(HostNat))
  }

  function FilterJump(): Rule {
    Rule(Some(VPN_INTERFACE), None, None, None, None, None, Jump(HostFwd))
  }

  function FwdRules(p: HostForwardPlan): seq<Rule> {
    [PeerRule(p), HttpsRule(p), DropRule()]
  }

  predicate Supported(p: HostForwardPlan) {
    p.peerCidr == VPN_CIDR && p.dropOther && BridgeName(p.httpsBridge)
  }

  function Commands(p: HostForwardPlan): FirewallCommands {
    FirewallCommands(
      [NewChain(FWD), NewChain(NAT), AppendRule(FWD, PeerRule(p)), AppendRule(FWD, HttpsRule(p)),
       AppendRule(FWD, DropRule()), AppendRule(NAT, SnatRule(p))],
      [InsertRule(POSTROUTING, NatJump(p)), InsertRule(DOCKER_USER, FilterJump())],
      [DeleteRule(DOCKER_USER, FilterJump()), DeleteRule(POSTROUTING, NatJump(p))],
      [FlushChain(FWD), DeleteChain(FWD), FlushChain(NAT), DeleteChain(NAT)])
  }

  /** `FirewallCommands::from_plan`. */
  function FromPlan(p: HostForwardPlan): Option<FirewallCommands> {
    if Supported(p) then Some(Commands(p)) else None
  }

  lemma {:induction false} CompiledPlanIsSupported(f: FirewallFacts, route: BridgeRoute)
    ensures CompileHostForwarding(f, route).Some? ==> FromPlan(CompileHostForwarding(f, route).value).Some?
  {
  }

  // --------------------------------------------------------- iptables semantics

  predicate TargetExists(t: Tables, at: ChainRef, r: Rule) {
    r.target.Jump? ==> ChainRef(at.table, r.target.chain) in t
  }

  predicate JumpsTo(rules: seq<Rule>, c: Chain) {
    exists i :: 0 <= i < |rules| && rules[i].target == Jump(c)
  }

  predicate Referenced(t: Tables, at: ChainRef) {
    exists k :: k in t && k.table == at.table && JumpsTo(t[k], at.chain)
  }

  function RemoveFirst(rules: seq<Rule>, r: Rule): seq<Rule> {
    if rules == [] then []
    else if rules[0] == r then rules[1..]
    else [rules[0]] + RemoveFirst(rules[1..], r)
  }

  /** When iptables can carry the command out. */
  predicate Possible(t: Tables, c: Command) {
    match c
    case NewChain(at) => at !in t
    case AppendRule(at, r) => at in t && TargetExists(t, at, r)
    case InsertRule(at, r) => at in t && TargetExists(t, at, r)
    case DeleteRule(at, r) => at in t && r in t[at]
    case CheckRule(at, r) => at in t && r in t[at]
    case FlushChain(at) => at in t
    case DeleteChain(at) => at in t && t[at] == [] && !Referenced(t, at)
  }

  function Effect(t: Tables, c: Command): Tables
    requires Possible(t, c)
  {
    match c
    case NewChain(at) => t[at := []]
    case AppendRule(at, r) => t[at := t[at] + [r]]
    case InsertRule(at, r) => t[at := [r] + t[at]]
    case DeleteRule(at, r) => t[at := RemoveFirst(t[at], r)]
    case CheckRule(_, _) => t
    case FlushChain(at) => t[at := []]
    case DeleteChain(at) => t - {at}
  }

  /** What running a command may leave behind. Any command may fail; a failed append,
      flush or chain deletion may have had its effect, the others have had none. */
  predicate Outcome(t: Tables, c: Command, ok: bool, t': Tables) {
    if ok then Possible(t, c) && t' == Effect(t, c)
    else t' == t || ((c.AppendRule? || c.FlushChain? || c.DeleteChain?) && Possible(t, c) && t' == Effect(t, c))
  }

  // ------------------------------------------------------------ installed state

  predicate OwnedAbsent(t: Tables) {
    forall k :: k in t ==> !OwnedChain(k.chain) && forall i :: 0 <= i < |t[k]| ==> !OwnedJump(t[k][i])
  }

  predicate Hookable(t: Tables) {
    DOCKER_USER in t && POSTROUTING in t
  }

  /** The tables with the plan's chains complete and both jumps attached in front. */
  function Installed(p: HostForwardPlan, t: Tables): Tables
    requires Hookable(t)
  {
    t[FWD := FwdRules(p)][NAT := [SnatRule(p)]]
     [POSTROUTING := [NatJump(p)] + t[POSTROUTING]]
     [DOCKER_USER := [FilterJump()] + t[DOCKER_USER]]
  }

  /** The forwarding restrictions are in force: the chain is complete and packets from
      wg0 reach it before any other rule of DOCKER-USER. */
  predicate Guarding(p: HostForwardPlan, t: Tables) {
    && FWD in t && t[FWD] == FwdRules(p)
    && DOCKER_USER in t && t[DOCKER_USER] != [] && t[DOCKER_USER][0] == FilterJump()
  }

  function RunAll(cmds: seq<Command>, t: Tables): Option<Tables> {
    if cmds == [] then Some(t)
    else if Possible(t, cmds[0]) then RunAll(cmds[1..], Effect(t, cmds[0]))
    else None
  }

  /** The tables after the first `n` staging commands. */
  function Staged(p: HostForwardPlan, t: Tables, n: nat): Tables
    requires n <= 6
  {
    if n == 0 then t
    else if n == 1 then t[FWD := []]
    else t[FWD := FwdRules(p)[..if n < 5 then n - 2 else 3]][NAT := if n < 6 then [] else [SnatRule(p)]]
  }

  lemma {:induction false} StageStep(p: HostForwardPlan, t: Tables, n: nat)
    requires OwnedAbsent(t) && n < 6
    ensures Possible(Staged(p, t, n), Commands(p).stage[n])
    ensures Effect(Staged(p, t, n), Commands(p).stage[n]) == Staged(p, t, n + 1)
  {
    assert FWD.chain == HostFwd && NAT.chain == HostNat;
    assert FWD !in t && NAT !in t;
    var r := FwdRules(p);
    assert r[..0] == [] && r[..1] == r[..0] + [PeerRule(p)];
    assert r[..2] == r[..1] + [HttpsRule(p)] && r[..3] == r[..2] + [DropRule()];
    var a, b := Effect(Staged(p, t, n), Commands(p).stage[n]), Staged(p, t, n + 1);
    assert a.Keys == b.Keys;
    assert forall k :: k in b ==> a[k] == b[k];
  }

  /** Tables in which the agent's chains hold anything at all, over `t`. */
  predicate PartlyStaged(t: Tables, u: Tables, fwd: bool, snat: bool) {
    && u.Keys == t.Keys + (if fwd then {FWD} else {}) + (if snat then {NAT} else {})
    && (forall k :: k in t ==> u[k] == t[k])
  }

  lemma {:induction false} StagedIsPartly(p: HostForwardPlan, t: Tables, n: nat)
    requires OwnedAbsent(t) && n <= 6
    ensures PartlyStaged(t, Staged(p, t, n), n > 0, n > 1)
  {
    assert FWD.chain == HostFwd && NAT.chain == HostNat;
  }

  /** A failed staging command leaves the earlier chains and at most their own content changed. */
  lemma {:induction false} FailedStageIsPartly(p: HostForwardPlan, t: Tables, n: nat, u: Tables)
    requires OwnedAbsent(t) && n < 6
    requires Outcome(Staged(p, t, n), Commands(p).stage[n], false, u)
    ensures PartlyStaged(t, u, n > 0, n > 1)
  {
    StagedIsPartly(p, t, n);
    StageStep(p, t, n);
    StagedIsPartly(p, t, n + 1);
  }

  /** Flush then delete removes an owned chain and nothing else, when both succeed. */
  lemma {:induction false} CleanupChain(t: Tables, u: Tables, at: ChainRef)
    requires OwnedAbsent(t)
    requires at == FWD || at == NAT
    requires at in u && forall k :: k in t ==> k in u && u[k] == t[k]
    requires forall k :: k in u && k !in t && k.table == at.table ==> k == at
    ensures Possible(u, FlushChain(at)) && Possible(Effect(u, FlushChain(at)), DeleteChain(at))
    ensures Effect(Effect(u, FlushChain(at)), DeleteChain(at)) == u - {at}
  {
    var v := Effect(u, FlushChain(at));
    forall k | k in v && k.table == at.table ensures !JumpsTo(v[k], at.chain) {
      if k in t && k != at {
        assert forall i :: 0 <= i < |t[k]| ==> !OwnedJump(t[k][i]);
      }
    }
  }

  lemma {:induction false} AttachStep(p: HostForwardPlan, t: Tables)
    requires OwnedAbsent(t) && Hookable(t)
    ensures var staged := Staged(p, t, 6);
            && Possible(staged, Commands(p).activate[0])
            && var natted := Effect(staged, Commands(p).activate[0]);
               && Possible(natted, Commands(p).activate[1])
               && Effect(natted, Commands(p).activate[1]) == Installed(p, t)
               && Possible(natted, Commands(p).detach[1])
               && Effect(natted, Commands(p).detach[1]) == staged
  {
    assert FWD.chain == HostFwd && NAT.chain == HostNat;
    var staged := Staged(p, t, 6);
    assert FwdRules(p)[..3] == FwdRules(p);
    var natted := Effect(staged, Commands(p).activate[0]);
    assert natted[POSTROUTING] == [NatJump(p)] + t[POSTROUTING];
    assert RemoveFirst(natted[POSTROUTING], NatJump(p)) == t[POSTROUTING];
    assert Effect(natted, Commands(p).detach[1]) == staged;
  }

  lemma {:induction false} DetachStep(p: HostForwardPlan, t: Tables)
    requires OwnedAbsent(t) && Hookable(t)
    ensures var up := Installed(p, t);
            && Possible(up, Commands(p).detach[0])
            && var half := Effect(up, Commands(p).detach[0]);
               && Possible(half, Commands(p).detach[1])
               && Effect(half, Commands(p).detach[1]) == Staged(p, t, 6)
  {
    assert FWD.chain == HostFwd && NAT.chain == HostNat;
    assert FwdRules(p)[..3] == FwdRules(p);
    var up := Installed(p, t);
    assert RemoveFirst(up[DOCKER_USER], FilterJump()) == t[DOCKER_USER];
    var half := Effect(up, Commands(p).detach[0]);
    assert RemoveFirst(half[POSTROUTING], NatJump(p)) == t[POSTROUTING];
    assert Effect(half, Commands(p).detach[1]) == Staged(p, t, 6);
  }

  lemma {:induction false} CleanupAll(p: HostForwardPlan, t: Tables)
    requires OwnedAbsent(t)
    ensures RunAll(Commands(p).cleanup, Staged(p, t, 6)) == Some(t)
  {
    var u := Staged(p, t, 6);
    StagedIsPartly(p, t, 6);
    CleanupChain(t, u, FWD);
    var v := u - {FWD};
    CleanupChain(t, v, NAT);
    var c := Commands(p).cleanup;
    var c1, c2, c3 := c[1..], c[2..], c[3..];
    var e1 := Effect(u, c[0]);
    var e3 := Effect(v, c[2]);
    assert c1[1..] == c2 && c2[1..] == c3 && c3[1..] == [];
    assert RunAll(c, u) == RunAll(c1, e1) == RunAll(c2, v) == RunAll(c3, e3) == RunAll([], v - {NAT});
    assert v - {NAT} == t;
  }

  lemma {:induction false} RunStage(p: HostForwardPlan, t: Tables, n: nat)
    requires OwnedAbsent(t) && n <= 6
    ensures RunAll(Commands(p).stage[n..], Staged(p, t, n)) == Some(Staged(p, t, 6))
    decreases 6 - n
  {
    if n < 6 {
      StageStep(p, t, n);
      RunStage(p, t, n + 1);
      assert Commands(p).stage[n..][1..] == Commands(p).stage[n + 1..];
    }
  }

  lemma {:induction false} RunAllConcat(a: seq<Command>, b: seq<Command>, t: Tables, u: Tables)
    requires RunAll(a, t) == Some(u)
    ensures RunAll(a + b, t) == RunAll(b, u)
  {
    if a == [] {
      assert a + b == b;
    } else {
      RunAllConcat(a[1..], b, Effect(t, a[0]), u);
      assert (a + b)[1..] == a[1..] + b;
    }
  }

  lemma {:induction false} RunTwo(cmds: seq<Command>, t: Tables)
    requires |cmds| == 2 && Possible(t, cmds[0]) && Possible(Effect(t, cmds[0]), cmds[1])
    ensures RunAll(cmds, t) == Some(Effect(Effect(t, cmds[0]), cmds[1]))
  {
    assert cmds[1..][1..] == [];
    assert RunAll(cmds[1..], Effect(t, cmds[0])) == RunAll([], Effect(Effect(t, cmds[0]), cmds[1]));
  }

  /** Running every install command yields the installed tables, and running every
      uninstall command after that yields the original tables: the identity on every
      chain, including Docker's. */
  lemma {:induction false} InstallThenUninstallIsIdentity(p: HostForwardPlan, t: Tables)
    requires OwnedAbsent(t) && Hookable(t)
    ensures RunAll(Commands(p).stage + Commands(p).activate, t) == Some(Installed(p, t))
    ensures RunAll(Commands(p).detach + Commands(p).cleanup, Installed(p, t)) == Some(t)
  {
    var c := Commands(p);
    RunStage(p, t, 0);
    assert c.stage[0..] == c.stage;
    RunAllConcat(c.stage, c.activate, t, Staged(p, t, 6));
    AttachStep(p, t);
    RunTwo(c.activate, Staged(p, t, 6));
    DetachStep(p, t);
    RunTwo(c.detach, Installed(p, t));
    RunAllConcat(c.detach, c.cleanup, Installed(p, t), Staged(p, t, 6));
    CleanupAll(p, t);
  }
}
