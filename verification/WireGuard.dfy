/** The live WireGuard interface and the read-back check `verify_wireguard_state`
    (crates/zerovpn-host-agent/src/host_commands.rs). */
module WireGuard {
  import opened Common
  import opened DesiredStates
  import opened Text

  const LISTEN_PORT := 51820
  const SERVER_ADDRESS := "10.0.0.1/22"

  /** A private key stands for the public key it derives to. */
  datatype PrivateKey = PrivateKey(wellFormed: bool, publicKey: Key)

  datatype PeerSection = PeerSection(publicKey: Key, psk: Option<Key>, allowed: seq<Cidr>, keepalive: U16)

  datatype Config = Config(key: PrivateKey, port: nat, peers: seq<PeerSection>)

  datatype KernelPeer = KernelPeer(publicKey: Key, psk: Option<Key>, allowed: seq<Cidr>, keepalive: U16)

  datatype Kernel = Kernel(publicKey: Key, port: nat, addresses: seq<string>, peers: seq<KernelPeer>)

  const EMPTY_KERNEL := Kernel("", 0, [], [])

  /** The kernel indexes peers by public key. */
  predicate DistinctKeys(peers: seq<KernelPeer>) {
    forall i, j :: 0 <= i < j < |peers| ==> peers[i].publicKey != peers[j].publicKey
  }

  /** The base64 text of 32 zero bytes, which WireGuard treats as "no preshared key". */
  predicate ZeroKey(k: Key) {
    |k| == 44 && k[43] == '=' && forall i :: 0 <= i < 43 ==> k[i] == 'A'
  }

  /** What the kernel guarantees of its own table. */
  predicate KernelOk(k: Kernel) {
    && DistinctKeys(k.peers)
    && (forall j :: 0 <= j < |k.peers| ==> PskOk(k.peers[j].psk))
  }

  predicate PskOk(psk: Option<Key>) {
    psk.Some? ==> |psk.value| == 44 && !ZeroKey(psk.value)
  }

  /** A kernel peer carries exactly what the desired peer asks for. */
  predicate Carries(kp: KernelPeer, p: DesiredPeer) {
    && kp.publicKey == p.publicKey
    && kp.allowed == [Cidr(p.vpnIp, 32)]
    && kp.keepalive == p.keepalive
    && kp.psk == p.psk
  }

  ghost predicate Served(k: Kernel, p: DesiredPeer) {
    exists j :: 0 <= j < |k.peers| && Carries(k.peers[j], p)
  }

  ghost predicate Wanted(st: DesiredState, kp: KernelPeer) {
    exists i :: 0 <= i < |st.peers| && st.peers[i].enabled && Carries(kp, st.peers[i])
  }

  /** The live interface is exactly what the state describes: identity, port, address,
      every enabled peer as specified, and nobody else. */
  ghost predicate Matches(k: Kernel, st: DesiredState) {
    && k.publicKey == st.serverKey
    && k.port == LISTEN_PORT
    && SERVER_ADDRESS in k.addresses
    && (forall i {:trigger Served(k, st.peers[i])} ::
          0 <= i < |st.peers| && st.peers[i].enabled ==> Served(k, st.peers[i]))
    && (forall j {:trigger Wanted(st, k.peers[j])} :: 0 <= j < |k.peers| ==> Wanted(st, k.peers[j]))
  }

  // --------------------------------------------------- `wg show` and its reader

  type Line = seq<string>

  function AllowedLine(p: KernelPeer): Line {
    [p.publicKey] + if p.allowed == [] then ["(none)"]
                    else seq(|p.allowed|, i requires 0 <= i < |p.allowed| => FormatCidr(p.allowed[i]))
  }

  function KeepaliveText(p: KernelPeer): string {
    if p.keepalive == 0 then "off" else Decimal(p.keepalive)
  }

  function PskText(p: KernelPeer): string {
    if p.psk.None? then "(none)" else p.psk.value
  }

  ghost predicate WellShaped(lines: seq<Line>) {
    && (forall i :: 0 <= i < |lines| ==> |lines[i]| == 2)
    && (forall i, j :: 0 <= i < j < |lines| ==> lines[i][0] != lines[j][0])
  }

  /** `m` holds the second field of every line under its first field, and no more. */
  ghost predicate Tabulates(m: map<string, string>, lines: seq<Line>)
    requires forall i :: 0 <= i < |lines| ==> |lines[i]| == 2
  {
    && (forall i :: 0 <= i < |lines| ==> lines[i][0] in m && m[lines[i][0]] == lines[i][1])
    && (forall key :: key in m ==> exists i :: 0 <= i < |lines| && lines[i][0] == key)
  }

  /** `parse_peer_values`, and the same loop over `allowed-ips`. */
  method ParsePeerValues(lines: seq<Line>) returns (r: Option<map<string, string>>)
    ensures r.Some? <==> WellShaped(lines)
    ensures r.Some? ==> Tabulates(r.value, lines)
  {
    var values: map<string, string> := map[];
    for n := 0 to |lines|
      invariant WellShaped(lines[..n]) && Tabulates(values, lines[..n])
    {
      var line := lines[n];
      if |line| != 2 { return None; }
      if line[0] in values {
        var i :| 0 <= i < n && lines[..n][i][0] == line[0];
        assert lines[i][0] == lines[n][0];
        return None;
      }
      values := values[line[0] := line[1]];
      assert lines[..n + 1] == lines[..n] + [line];
    }
    assert lines[..|lines|] == lines;
    return Some(values);
  }

  ghost predicate UniquePeerKeys(st: DesiredState) {
    forall i, j :: 0 <= i < j < |st.peers| ==> st.peers[i].publicKey != st.peers[j].publicKey
  }

  lemma {:induction false} WellFormedHasUniqueKeys(st: DesiredState)
    requires WellFormed(st)
    ensures UniquePeerKeys(st)
  {
    forall i, j | 0 <= i < j < |st.peers| ensures st.peers[i].publicKey != st.peers[j].publicKey {
      assert PeerAdmissible(st, j) && !Clash(st.peers[i], st.peers[j]);
    }
  }

  function IpText(p: DesiredPeer): string {
    FormatCidr(Cidr(p.vpnIp, 32))
  }

  ghost predicate ExpectsKey(st: DesiredState, n: nat, key: string)
    requires n <= |st.peers|
  {
    exists i :: 0 <= i < n && st.peers[i].enabled && st.peers[i].publicKey == key
  }

  /** `m` maps the key of each enabled peer among the first `n` to its /32, and no more. */
  ghost predicate ExpectedIps(m: map<string, string>, st: DesiredState, n: nat)
    requires n <= |st.peers|
  {
    && (forall i :: 0 <= i < n && st.peers[i].enabled ==>
          st.peers[i].publicKey in m && m[st.peers[i].publicKey] == IpText(st.peers[i]))
    && (forall key {:trigger ExpectsKey(st, n, key)} :: key in m ==> ExpectsKey(st, n, key))
  }

  method CollectExpected(st: DesiredState) returns (m: map<string, string>)
    requires UniquePeerKeys(st)
    ensures ExpectedIps(m, st, |st.peers|)
  {
    m := map[];
    for n := 0 to |st.peers|
      invariant ExpectedIps(m, st, n)
    {
      ghost var before := m;
      if st.peers[n].enabled {
        m := m[st.peers[n].publicKey := IpText(st.peers[n])];
      }
      forall key | key in m ensures ExpectsKey(st, n + 1, key) {
        assert key in before ==> ExpectsKey(st, n, key);
      }
    }
  }

  /** The attribute check `verify_wireguard_state` makes for one enabled peer. */
  predicate AttributesAgree(p: DesiredPeer, keepalive: map<string, string>, psks: map<string, string>) {
    && p.publicKey in keepalive && p.publicKey in psks
    && (if keepalive[p.publicKey] == "off" then Some(0) else ParseU16(keepalive[p.publicKey])) == Some(p.keepalive)
    && psks[p.publicKey] == (if p.psk.Some? then p.psk.value else "(none)")
  }

  /** The three columns of the kernel table that `wg show` can print. */
  datatype Column = AllowedColumn | KeepaliveColumn | PskColumn

  function Print(kp: KernelPeer, c: Column): Line {
    match c
    case AllowedColumn => AllowedLine(kp)
    case KeepaliveColumn => [kp.publicKey, KeepaliveText(kp)]
    case PskColumn => [kp.publicKey, PskText(kp)]
  }

  function Show(k: Kernel, c: Column): (lines: seq<Line>)
    ensures |lines| == |k.peers|
    ensures forall j :: 0 <= j < |lines| ==> lines[j] == Print(k.peers[j], c)
  {
    seq(|k.peers|, i requires 0 <= i < |k.peers| => Print(k.peers[i], c))
  }

  ghost predicate HasPeer(k: Kernel, key: string) {
    exists j :: 0 <= j < |k.peers| && k.peers[j].publicKey == key
  }

  /** `m` is column `c` of the kernel table. */
  ghost predicate IsColumn(m: map<string, string>, k: Kernel, c: Column) {
    && (forall j :: 0 <= j < |k.peers| ==>
          && |Print(k.peers[j], c)| == 2
          && k.peers[j].publicKey in m
          && m[k.peers[j].publicKey] == Print(k.peers[j], c)[1])
    && (forall key {:trigger HasPeer(k, key)} :: key in m <==> HasPeer(k, key))
  }

  method ReadColumn(k: Kernel, c: Column) returns (r: Option<map<string, string>>)
    requires DistinctKeys(k.peers)
    ensures r.Some? ==> IsColumn(r.value, k, c)
    ensures r.None? ==> exists j :: 0 <= j < |k.peers| && |Print(k.peers[j], c)| != 2
  {
    var lines := Show(k, c);
    assert forall j :: 0 <= j < |lines| && |lines[j]| == 2 ==> lines[j][0] == k.peers[j].publicKey;
    r := ParsePeerValues(lines);
  }

  /** `verify_wireguard_state` on an interface whose `wg show` output is that of `k`:
      accepts if and only if the interface is exactly what the state describes. */
  method VerifyWireguardState(k: Kernel, st: DesiredState) returns (ok: bool)
    requires KernelOk(k) && WellFormed(st)
    ensures ok <==> Matches(k, st)
  {
    WellFormedHasUniqueKeys(st);
    if k.publicKey != st.serverKey { return false; }
    if Decimal(k.port) != Decimal(LISTEN_PORT) { return false; }
    DecimalInjective(k.port, LISTEN_PORT);
    if SERVER_ADDRESS !in k.addresses { return false; }
    var observed := ReadColumn(k, AllowedColumn);
    if observed.None? {
      UnreadableDiffers(k, st);
      return false;
    }
    var expected := CollectExpected(st);
    if observed.value != expected {
      if Matches(k, st) { MatchingTablesAgree(k, st, observed.value, expected); }
      return false;
    }
    var keepalive := ReadColumn(k, KeepaliveColumn);
    var psks := ReadColumn(k, PskColumn);
    if keepalive.None? || psks.None? {
      return false;
    }
    SameKeys(k, observed.value, keepalive.value, KeepaliveColumn);
    SameKeys(k, observed.value, psks.value, PskColumn);
    if |keepalive.value| != |expected| || |psks.value| != |expected| {
      return false;
    }
    var n := FirstDisagreement(st, keepalive.value, psks.value);
    if n < |st.peers| {
      if Matches(k, st) { MatchingAttributesAgree(k, st, n, keepalive.value, psks.value); }
      return false;
    }
    AgreeingTablesMatch(k, st, observed.value, keepalive.value, psks.value);
    return true;
  }

  method FirstDisagreement(st: DesiredState, keepalive: map<string, string>, psks: map<string, string>) returns (n: nat)
    ensures n <= |st.peers|
    ensures forall i :: 0 <= i < n && st.peers[i].enabled ==> AttributesAgree(st.peers[i], keepalive, psks)
    ensures n < |st.peers| ==> st.peers[n].enabled && !AttributesAgree(st.peers[n], keepalive, psks)
  {
    n := 0;
    while n < |st.peers|
      invariant n <= |st.peers|
      invariant forall i :: 0 <= i < n && st.peers[i].enabled ==> AttributesAgree(st.peers[i], keepalive, psks)
    {
      if st.peers[n].enabled && !AttributesAgree(st.peers[n], keepalive, psks) { return; }
      n := n + 1;
    }
  }

  lemma {:induction false} UnreadableDiffers(k: Kernel, st: DesiredState)
    requires exists j :: 0 <= j < |k.peers| && |AllowedLine(k.peers[j])| != 2
    ensures !Matches(k, st)
  {
    var j :| 0 <= j < |k.peers| && |AllowedLine(k.peers[j])| != 2;
    assert |k.peers[j].allowed| != 1;
    assert !Wanted(st, k.peers[j]);
  }

  lemma {:induction false} AllowedText(kp: KernelPeer, p: DesiredPeer)
    requires |AllowedLine(kp)| == 2
    ensures AllowedLine(kp)[1] == IpText(p) <==> kp.allowed == [Cidr(p.vpnIp, 32)]
  {
    if kp.allowed == [] {
      FormatCidrIsNotNone(Cidr(p.vpnIp, 32));
    } else {
      assert |kp.allowed| == 1 && AllowedLine(kp)[1] == FormatCidr(kp.allowed[0]);
      if AllowedLine(kp)[1] == IpText(p) {
        FormatCidrInjective(kp.allowed[0], Cidr(p.vpnIp, 32));
      }
    }
  }

  lemma {:induction false} MatchingTablesAgree(k: Kernel, st: DesiredState, observed: map<string, string>, expected: map<string, string>)
    requires UniquePeerKeys(st) && Matches(k, st)
    requires IsColumn(observed, k, AllowedColumn)
    requires ExpectedIps(expected, st, |st.peers|)
    ensures observed == expected
  {
    forall key | key in observed ensures key in expected && observed[key] == expected[key] {
      assert HasPeer(k, key);
      var j :| 0 <= j < |k.peers| && k.peers[j].publicKey == key;
      assert Wanted(st, k.peers[j]);
      var i :| 0 <= i < |st.peers| && st.peers[i].enabled && Carries(k.peers[j], st.peers[i]);
      AllowedText(k.peers[j], st.peers[i]);
    }
    forall key | key in expected ensures key in observed {
      assert ExpectsKey(st, |st.peers|, key);
      var i :| 0 <= i < |st.peers| && st.peers[i].enabled && st.peers[i].publicKey == key;
      assert Served(k, st.peers[i]);
      var j :| 0 <= j < |k.peers| && Carries(k.peers[j], st.peers[i]);
      assert HasPeer(k, key);
    }
    assert observed.Keys == expected.Keys;
  }

  lemma {:induction false} SameKeys(k: Kernel, observed: map<string, string>, m: map<string, string>, c: Column)
    requires IsColumn(observed, k, AllowedColumn) && IsColumn(m, k, c)
    ensures |observed| == |m|
  {
    assert forall key :: (key in observed <==> HasPeer(k, key)) && (key in m <==> HasPeer(k, key));
    assert observed.Keys == m.Keys;
  }

  /** Reading one kernel peer's attribute texts back is exact. */
  lemma {:induction false} AttributeTexts(kp: KernelPeer, p: DesiredPeer)
    requires p.psk.Some? ==> ValidKey(p.psk.value)
    requires PskOk(kp.psk)
    ensures (if KeepaliveText(kp) == "off" then Some(0) else ParseU16(KeepaliveText(kp))) == Some(p.keepalive)
       <==> kp.keepalive == p.keepalive
    ensures PskText(kp) == (if p.psk.Some? then p.psk.value else "(none)") <==> kp.psk == p.psk
  {
    if kp.keepalive != 0 { ParseU16Decimal(kp.keepalive); }
    assert |"(none)"| == 6;
  }

  lemma {:induction false} MatchingAttributesAgree(k: Kernel, st: DesiredState, n: nat, keepalive: map<string, string>, psks: map<string, string>)
    requires KernelOk(k) && WellFormed(st) && Matches(k, st)
    requires n < |st.peers| && st.peers[n].enabled
    requires IsColumn(keepalive, k, KeepaliveColumn) && IsColumn(psks, k, PskColumn)
    ensures AttributesAgree(st.peers[n], keepalive, psks)
  {
    var p := st.peers[n];
    assert PeerAdmissible(st, n);
    assert Served(k, p);
    var j :| 0 <= j < |k.peers| && Carries(k.peers[j], p);
    AttributeTexts(k.peers[j], p);
  }

  /** If the printed addresses and attributes agree with the state, so does the kernel peer. */
  lemma {:induction false} AgreeingPeerIsServed(k: Kernel, st: DesiredState, i: nat,
                             observed: map<string, string>, keepalive: map<string, string>, psks: map<string, string>)
    returns (j: nat)
    requires KernelOk(k) && WellFormed(st) && i < |st.peers| && st.peers[i].enabled
    requires IsColumn(observed, k, AllowedColumn)
    requires IsColumn(keepalive, k, KeepaliveColumn) && IsColumn(psks, k, PskColumn)
    requires st.peers[i].publicKey in observed && observed[st.peers[i].publicKey] == IpText(st.peers[i])
    requires AttributesAgree(st.peers[i], keepalive, psks)
    ensures j < |k.peers| && Carries(k.peers[j], st.peers[i])
  {
    var p := st.peers[i];
    assert HasPeer(k, p.publicKey);
    j :| 0 <= j < |k.peers| && k.peers[j].publicKey == p.publicKey;
    AllowedText(k.peers[j], p);
    assert PeerAdmissible(st, i);
    AttributeTexts(k.peers[j], p);
  }

  lemma {:induction false} AgreeingTablesMatch(k: Kernel, st: DesiredState,
                            observed: map<string, string>, keepalive: map<string, string>, psks: map<string, string>)
    requires KernelOk(k) && WellFormed(st)
    requires k.publicKey == st.serverKey && k.port == LISTEN_PORT && SERVER_ADDRESS in k.addresses
    requires IsColumn(observed, k, AllowedColumn)
    requires IsColumn(keepalive, k, KeepaliveColumn) && IsColumn(psks, k, PskColumn)
    requires ExpectedIps(observed, st, |st.peers|)
    requires forall i :: 0 <= i < |st.peers| && st.peers[i].enabled ==> AttributesAgree(st.peers[i], keepalive, psks)
    ensures Matches(k, st)
  {
    forall i | 0 <= i < |st.peers| && st.peers[i].enabled ensures Served(k, st.peers[i]) {
      var j := AgreeingPeerIsServed(k, st, i, observed, keepalive, psks);
    }
    forall j | 0 <= j < |k.peers| ensures Wanted(st, k.peers[j]) {
      var key := k.peers[j].publicKey;
      assert HasPeer(k, key);
      assert ExpectsKey(st, |st.peers|, key);
      var i :| 0 <= i < |st.peers| && st.peers[i].enabled && st.peers[i].publicKey == key;
      var j' := AgreeingPeerIsServed(k, st, i, observed, keepalive, psks);
      assert j' == j;
    }
  }
}
