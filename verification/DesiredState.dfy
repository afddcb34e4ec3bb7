/** The whole-state document that travels from the database to the host
    (crates/zerovpn-host-agent/src/state.rs), and what it means for one to be valid. */
module DesiredStates {
  import opened Common

  type Octet = n: nat | n < 256
  type U16 = n: nat | n < 65536
  type U64 = n: nat | n < 0x1_0000_0000_0000_0000

  type Key = string

  datatype Ipv4 = Ipv4(a: Octet, b: Octet, c: Octet, d: Octet)

  datatype DesiredPeer = DesiredPeer(
    publicKey: Key, vpnIp: Ipv4, enabled: bool, psk: Option<Key>, keepalive: U16)

  datatype DesiredState = DesiredState(revision: U64, serverKey: Key, peers: seq<DesiredPeer>)

  /** SHA-256 of the serialized document, taken to be injective: a digest is the
      document it was computed from. `NoDigest` is the empty text the database and
      the status reply use when there is none. */
  datatype Digest = NoDigest | DigestOf(state: DesiredState)

  datatype AppliedState = AppliedState(state: DesiredState, digest: Digest)

  const MAX_PEERS := 4096

  /** Value of a base64 digit, or 64 for any other character. */
  function Sextet(c: char): nat {
    if 'A' <= c <= 'Z' then (c - 'A') as nat
    else if 'a' <= c <= 'z' then 26 + (c - 'a') as nat
    else if '0' <= c <= '9' then 52 + (c - '0') as nat
    else if c == '+' then 62 else if c == '/' then 63 else 64
  }

  /** Canonical standard base64 of exactly 32 bytes: 43 digits, the last of which
      carries four bits and so has its two low bits clear, then one pad. */
  predicate ValidKey(k: Key) {
    |k| == 44 && CanonicalDigits(k)
  }

  predicate CanonicalDigits(s: string) {
    && |s| >= 2 && Sextet(s[0]) < 64
    && if |s| == 2 then Sextet(s[0]) % 4 == 0 && s[1] == '=' else CanonicalDigits(s[1..])
  }

  /** The 10.0.0.0/22 hosts other than network, gateway and broadcast. */
  predicate UsableIp(ip: Ipv4) {
    && ip.a == 10 && ip.b == 0 && ip.c <= 3
    && !(ip.c == 0 && ip.d <= 1)
    && !(ip.c == 3 && ip.d == 255)
  }

  predicate PeerOk(serverKey: Key, p: DesiredPeer) {
    && ValidKey(p.publicKey)
    && (p.psk.Some? ==> ValidKey(p.psk.value))
    && p.publicKey != serverKey
    && UsableIp(p.vpnIp)
  }

  /** Peer `n` is in order and clashes with no earlier peer. */
  predicate PeerAdmissible(st: DesiredState, n: nat)
    requires n < |st.peers|
  {
    PeerOk(st.serverKey, st.peers[n]) && forall i :: 0 <= i < n ==> !Clash(st.peers[i], st.peers[n])
  }

  predicate FaultFree(st: DesiredState, n: nat)
    requires n <= |st.peers|
  {
    forall i :: 0 <= i < n ==> PeerAdmissible(st, i)
  }

  predicate Clash(p: DesiredPeer, q: DesiredPeer) {
    p.publicKey == q.publicKey || p.vpnIp == q.vpnIp
  }

  /** Everything `validate` demands apart from the revision. */
  predicate WellFormed(st: DesiredState) {
    && ValidKey(st.serverKey)
    && |st.peers| <= MAX_PEERS
    && FaultFree(st, |st.peers|)
  }

  predicate Valid(st: DesiredState, appliedRevision: nat) {
    st.revision > appliedRevision && WellFormed(st)
  }

  /** `saturating_sub(1)`. */
  function Predecessor(revision: nat): nat {
    if revision == 0 then 0 else revision - 1
  }

  datatype ValidationError =
    | StaleRevision | InvalidServerKey | TooManyPeers
    | InvalidPeerKey | InvalidPresharedKey | ServerKeyUsedAsPeer
    | DuplicatePeerKey | PeerIpOutsideSubnet | DuplicatePeerIp

  /** The fault a per-peer error stands for, in peer `n` of `peers`. */
  predicate HasFault(st: DesiredState, n: nat, e: ValidationError)
    requires n < |st.peers|
  {
    var p := st.peers[n];
    match e
    case InvalidPeerKey => !ValidKey(p.publicKey)
    case InvalidPresharedKey => p.psk.Some? && !ValidKey(p.psk.value)
    case ServerKeyUsedAsPeer => p.publicKey == st.serverKey
    case DuplicatePeerKey => exists i :: 0 <= i < n && st.peers[i].publicKey == p.publicKey
    case PeerIpOutsideSubnet => !UsableIp(p.vpnIp)
    case DuplicatePeerIp => exists i :: 0 <= i < n && st.peers[i].vpnIp == p.vpnIp
    case _ => false
  }

  /** `DesiredState::validate`: one pass over the peers filling a key set and an
      address set. Accepts exactly the declaratively valid states; an error about a
      peer is a fault some peer really has. */
  method Validate(st: DesiredState, appliedRevision: nat)
    returns (r: Result<Digest, ValidationError>)
    ensures r.Ok? <==> Valid(st, appliedRevision)
    ensures r.Ok? ==> r.value == DigestOf(st)
    ensures r == Err(StaleRevision) <==> st.revision <= appliedRevision
    ensures r.Err? && r.error !in {StaleRevision, InvalidServerKey, TooManyPeers} ==>
              exists n :: 0 <= n < |st.peers| && HasFault(st, n, r.error)
  {
    if st.revision <= appliedRevision { return Err(StaleRevision); }
    if !ValidKey(st.serverKey) { return Err(InvalidServerKey); }
    if |st.peers| > MAX_PEERS { return Err(TooManyPeers); }
    var keys: set<Key> := {};
    var ips: set<Ipv4> := {};
    for n := 0 to |st.peers|
      invariant (keys, ips) == Seen(st.peers, n)
      invariant FaultFree(st, n)
    {
      var fault := CheckPeer(st, n, keys, ips);
      if fault.Some? { return Err(fault.value); }
      keys := keys + {st.peers[n].publicKey};
      ips := ips + {st.peers[n].vpnIp};
    }
    return Ok(DigestOf(st));
  }

  /** The keys and addresses of the first `n` peers. */
  ghost function Seen(peers: seq<DesiredPeer>, n: nat): (set<Key>, set<Ipv4>)
    requires n <= |peers|
  {
    if n == 0 then ({}, {})
    else var s := Seen(peers, n - 1); (s.0 + {peers[n - 1].publicKey}, s.1 + {peers[n - 1].vpnIp})
  }

  lemma {:induction false} SeenMeans(peers: seq<DesiredPeer>, n: nat)
    requires n <= |peers|
    ensures forall k :: k in Seen(peers, n).0 <==> exists i :: 0 <= i < n && peers[i].publicKey == k
    ensures forall a :: a in Seen(peers, n).1 <==> exists i :: 0 <= i < n && peers[i].vpnIp == a
  {
    if n > 0 { SeenMeans(peers, n - 1); }
  }

  /** One turn of the loop in `validate`, with the keys and addresses seen so far. */
  method CheckPeer(st: DesiredState, n: nat, keys: set<Key>, ips: set<Ipv4>)
    returns (fault: Option<ValidationError>)
    requires n < |st.peers|
    requires (keys, ips) == Seen(st.peers, n)
    ensures fault.Some? ==> HasFault(st, n, fault.value)
    ensures fault.None? <==> PeerAdmissible(st, n)
    ensures fault.Some? ==> fault.value !in {StaleRevision, InvalidServerKey, TooManyPeers}
  {
    var peer := st.peers[n];
    SeenMeans(st.peers, n);
    if !ValidKey(peer.publicKey) { return Some(InvalidPeerKey); }
    if peer.psk.Some? && !ValidKey(peer.psk.value) { return Some(InvalidPresharedKey); }
    if peer.publicKey == st.serverKey { return Some(ServerKeyUsedAsPeer); }
    if peer.publicKey in keys { return Some(DuplicatePeerKey); }
    if !UsableIp(peer.vpnIp) { return Some(PeerIpOutsideSubnet); }
    if peer.vpnIp in ips { return Some(DuplicatePeerIp); }
    return None;
  }

  function Value(ip: Ipv4): nat {
    ((ip.a * 256 + ip.b) * 256 + ip.c) * 256 + ip.d
  }

  function HostOffset(ip: Ipv4): (n: nat) {
    ip.c * 256 + ip.d
  }

  /** The subnet leaves 1021 addresses, so the 4096-peer limit is never the one that bites. */
  lemma {:induction false} UsableAddressesBoundPeers(st: DesiredState)
    requires WellFormed(st)
    ensures |st.peers| <= 1021
  {
    var offsets := seq(|st.peers|, i requires 0 <= i < |st.peers| => HostOffset(st.peers[i].vpnIp));
    forall i | 0 <= i < |offsets| ensures 2 <= offsets[i] <= 1022 {
      assert PeerAdmissible(st, i);
    }
    forall i, j | 0 <= i < j < |offsets| ensures offsets[i] != offsets[j] {
      assert PeerAdmissible(st, i) && PeerAdmissible(st, j) && !Clash(st.peers[i], st.peers[j]);
    }
    DistinctFits(offsets, Range(2, 1023));
  }

  ghost function Range(lo: nat, hi: nat): (s: set<nat>)
    requires lo <= hi
    ensures |s| == hi - lo
    ensures forall n :: n in s <==> lo <= n < hi
    decreases hi - lo
  {
    if lo == hi then {} else {lo} + Range(lo + 1, hi)
  }
}
