/** `render` (crates/zerovpn-host-agent/src/wireguard_config.rs) and the kernel's side
    of `wg setconf`, `wg syncconf` and `wg showconf`. */
module WgConfig {
  import opened Common
  import opened DesiredStates
  import opened Text
  import opened WireGuard

  // ------------------------------------------------------------------ ordering

  /** Byte order of key texts, as `str::cmp`. */
  predicate KeyLess(a: Key, b: Key) {
    if b == [] then false
    else if a == [] then true
    else a[0] < b[0] || (a[0] == b[0] && KeyLess(a[1..], b[1..]))
  }

  lemma {:induction false} KeyLessTotal(a: Key, b: Key)
    ensures KeyLess(a, b) || KeyLess(b, a) || a == b
    ensures !(KeyLess(a, b) && KeyLess(b, a))
    ensures !KeyLess(a, a)
  {
    if a != [] && b != [] && a[0] == b[0] {
      KeyLessTotal(a[1..], b[1..]);
      assert a == [a[0]] + a[1..] && b == [b[0]] + b[1..];
    }
    if a != [] {
      KeyLessTotal(a[1..], a[1..]);
    }
  }

  lemma {:induction false} KeyLessTransitive(a: Key, b: Key, c: Key)
    requires KeyLess(a, b) && KeyLess(b, c)
    ensures KeyLess(a, c)
  {
    if a != [] && a[0] == b[0] == c[0] {
      KeyLessTransitive(a[1..], b[1..], c[1..]);
    }
  }

  /** The texts agree up to `k`, where `a` has the smaller character or has ended. */
  predicate SmallerAt(a: Key, b: Key, k: nat) {
    k <= |a| && k < |b| && a[..k] == b[..k] && (k == |a| || a[k] < b[k])
  }

  lemma {:induction false} FirstDifference(a: Key, b: Key) returns (k: nat)
    requires KeyLess(a, b)
    ensures SmallerAt(a, b, k)
  {
    if a != [] && a[0] == b[0] {
      var j := FirstDifference(a[1..], b[1..]);
      k := j + 1;
      assert a[..k] == [a[0]] + a[1..][..j] && b[..k] == [b[0]] + b[1..][..j];
    } else {
      k := 0;
    }
  }

  lemma {:induction false} SmallerIsLess(a: Key, b: Key, k: nat)
    requires SmallerAt(a, b, k)
    ensures KeyLess(a, b)
  {
    if k > 0 {
      assert a[..k][0] == a[0] && b[..k][0] == b[0];
      assert a[1..][..k - 1] == a[..k][1..] && b[1..][..k - 1] == b[..k][1..];
      SmallerIsLess(a[1..], b[1..], k - 1);
    }
  }

  /** The order is the alphabetical one. */
  lemma {:induction false} KeyLessIff(a: Key, b: Key)
    ensures KeyLess(a, b) <==> exists k :: SmallerAt(a, b, k)
  {
    if KeyLess(a, b) { var k := FirstDifference(a, b); }
    if exists k :: SmallerAt(a, b, k) {
      var k: nat :| SmallerAt(a, b, k);
      SmallerIsLess(a, b, k);
    }
  }

  predicate Sorted(s: seq<DesiredPeer>) {
    forall i, j :: 0 <= i < j < |s| ==> KeyLess(s[i].publicKey, s[j].publicKey)
  }

  function Insert(p: DesiredPeer, s: seq<DesiredPeer>): (r: seq<DesiredPeer>)
    ensures multiset(r) == multiset{p} + multiset(s)
  {
    if s == [] then [p]
    else
      assert s == [s[0]] + s[1..];
      if !KeyLess(s[0].publicKey, p.publicKey) then [p] + s
      else [s[0]] + Insert(p, s[1..])
  }

  /** `sort_by(public_key)`; stable. */
  function SortPeers(s: seq<DesiredPeer>): (r: seq<DesiredPeer>)
    ensures multiset(r) == multiset(s)
  {
    if s == [] then []
    else
      assert s == [s[0]] + s[1..];
      Insert(s[0], SortPeers(s[1..]))
  }

  lemma {:induction false} InMultiset(a: seq<DesiredPeer>, b: seq<DesiredPeer>)
    requires multiset(a) == multiset(b)
    ensures forall p :: p in a <==> p in b
  {
    assert forall p :: p in a <==> p in multiset(a);
    assert forall p :: p in b <==> p in multiset(b);
  }

  lemma {:induction false} InsertSorted(p: DesiredPeer, s: seq<DesiredPeer>)
    requires Sorted(s)
    requires forall q :: q in s ==> q.publicKey != p.publicKey
    ensures Sorted(Insert(p, s))
  {
    if s != [] {
      KeyLessTotal(s[0].publicKey, p.publicKey);
      if KeyLess(s[0].publicKey, p.publicKey) {
        InsertSorted(p, s[1..]);
        var tail := Insert(p, s[1..]);
        forall j | 0 <= j < |tail| ensures KeyLess(s[0].publicKey, tail[j].publicKey) {
          assert tail[j] in multiset(tail);
          assert tail[j] == p || tail[j] in s[1..];
        }
      } else {
        forall j | 0 <= j < |s| ensures KeyLess(p.publicKey, s[j].publicKey) {
          if j > 0 { KeyLessTransitive(p.publicKey, s[0].publicKey, s[j].publicKey); }
        }
      }
    }
  }

  predicate UniqueKeys(s: seq<DesiredPeer>) {
    forall i, j :: 0 <= i < j < |s| ==> s[i].publicKey != s[j].publicKey
  }

  lemma {:induction false} SortSorts(s: seq<DesiredPeer>)
    requires UniqueKeys(s)
    ensures Sorted(SortPeers(s))
  {
    if s != [] {
      SortSorts(s[1..]);
      InMultiset(SortPeers(s[1..]), s[1..]);
      InsertSorted(s[0], SortPeers(s[1..]));
    }
  }

  /** A strictly sorted list is determined by its elements. */
  lemma {:induction false} SortedUnique(a: seq<DesiredPeer>, b: seq<DesiredPeer>)
    requires Sorted(a) && Sorted(b)
    requires forall p :: p in a <==> p in b
    ensures a == b
  {
    if a == [] {
      if b != [] { HasFirst(b); }
    } else {
      assert a[0] in b;
      assert b[0] in a;
      var i :| 0 <= i < |b| && b[i] == a[0];
      var j :| 0 <= j < |a| && a[j] == b[0];
      KeyLessTotal(a[0].publicKey, b[0].publicKey);
      assert i == 0 && j == 0;
      forall p ensures p in a[1..] <==> p in b[1..] {
        TailElements(a, p);
        TailElements(b, p);
      }
      SortedUnique(a[1..], b[1..]);
      assert a == [a[0]] + a[1..] && b == [b[0]] + b[1..];
    }
  }

  lemma {:induction false} HasFirst(s: seq<DesiredPeer>)
    requires s != []
    ensures s[0] in s
  {
  }

  lemma {:induction false} TailElements(s: seq<DesiredPeer>, p: DesiredPeer)
    requires s != [] && Sorted(s)
    ensures p in s[1..] <==> p in s && p != s[0]
  {
    if p in s[1..] {
      var i :| 0 <= i < |s[1..]| && s[1..][i] == p;
      KeyLessTotal(s[0].publicKey, s[i + 1].publicKey);
    }
    if p in s && p != s[0] {
      var i :| 0 <= i < |s| && s[i] == p;
      assert s[1..][i - 1] == p;
    }
  }

  // ----------------------------------------------------------------- rendering

  function EnabledPeers(s: seq<DesiredPeer>): (r: seq<DesiredPeer>)
    ensures forall p :: p in r <==> p in s && p.enabled
  {
    if s == [] then []
    else
      assert s == [s[0]] + s[1..];
      (if s[0].enabled then [s[0]] else []) + EnabledPeers(s[1..])
  }

  lemma {:induction false} EnabledKeepsUniqueKeys(s: seq<DesiredPeer>)
    requires UniqueKeys(s)
    ensures UniqueKeys(EnabledPeers(s))
  {
    if s != [] {
      EnabledKeepsUniqueKeys(s[1..]);
      if s[0].enabled {
        var tail := EnabledPeers(s[1..]);
        forall j | 0 <= j < |tail| ensures tail[j].publicKey != s[0].publicKey {
          assert tail[j] in s[1..];
        }
      }
    }
  }

  function Section(p: DesiredPeer): PeerSection {
    PeerSection(p.publicKey, p.psk, [Cidr(p.vpnIp, 32)], p.keepalive)
  }

  function Sections(s: seq<DesiredPeer>): seq<PeerSection> {
    seq(|s|, i requires 0 <= i < |s| => Section(s[i]))
  }

  function Rendered(st: DesiredState, key: PrivateKey): Config {
    Config(key, LISTEN_PORT, Sections(SortPeers(EnabledPeers(st.peers))))
  }

  /** `render`: filter, sort, then append one section per peer. */
  method Render(st: DesiredState, key: PrivateKey) returns (r: Option<Config>)
    ensures r.Some? <==> st.revision > 0 && WellFormed(st) && key.wellFormed
    ensures r.Some? ==> r.value == Rendered(st, key)
  {
    var valid := Validate(st, Predecessor(st.revision));
    if valid.Err? || !key.wellFormed { return None; }
    var peers := SortPeers(EnabledPeers(st.peers));
    var sections: seq<PeerSection> := [];
    for n := 0 to |peers|
      invariant sections == Sections(peers[..n])
    {
      sections := sections + [Section(peers[n])];
      assert peers[..n + 1] == peers[..n] + [peers[n]];
    }
    assert peers[..|peers|] == peers;
    return Some(Config(key, LISTEN_PORT, sections));
  }

  lemma {:induction false} RenderOrder(st: DesiredState)
    requires WellFormed(st)
    ensures Sorted(SortPeers(EnabledPeers(st.peers)))
    ensures forall p :: p in SortPeers(EnabledPeers(st.peers)) <==> p in st.peers && p.enabled
  {
    WellFormedHasUniqueKeys(st);
    EnabledKeepsUniqueKeys(st.peers);
    SortSorts(EnabledPeers(st.peers));
    InMultiset(SortPeers(EnabledPeers(st.peers)), EnabledPeers(st.peers));
  }

  /** The rendered configuration depends only on which enabled peers there are, not on
      their order, on disabled peers, or on the revision. */
  lemma {:induction false} RenderIsCanonical(a: DesiredState, b: DesiredState, key: PrivateKey)
    requires WellFormed(a) && WellFormed(b)
    requires forall p: DesiredPeer :: p.enabled ==> (p in a.peers <==> p in b.peers)
    ensures Rendered(a, key) == Rendered(b, key)
  {
    RenderOrder(a);
    RenderOrder(b);
    SortedUnique(SortPeers(EnabledPeers(a.peers)), SortPeers(EnabledPeers(b.peers)));
  }

  // ------------------------------------------------------------ kernel loading

  function ToKernel(s: PeerSection): KernelPeer {
    KernelPeer(s.publicKey, if PskOk(s.psk) then s.psk else None, s.allowed, s.keepalive)
  }

  function Without(allowed: seq<Cidr>, gone: seq<Cidr>): (r: seq<Cidr>)
    ensures (forall c :: c in gone ==> c !in allowed) ==> r == allowed
  {
    if allowed == [] then []
    else if allowed[0] in gone then Without(allowed[1..], gone)
    else [allowed[0]] + Without(allowed[1..], gone)
  }

  /** Configure one peer: an address range belongs to the peer that claimed it last. */
  function Put(ps: seq<KernelPeer>, kp: KernelPeer): seq<KernelPeer> {
    if ps == [] then [kp]
    else if ps[0].publicKey == kp.publicKey then [kp] + StripAll(ps[1..], kp.allowed)
    else [ps[0].(allowed := Without(ps[0].allowed, kp.allowed))] + Put(ps[1..], kp)
  }

  function StripAll(ps: seq<KernelPeer>, gone: seq<Cidr>): (r: seq<KernelPeer>)
    ensures |r| == |ps|
    ensures forall i :: 0 <= i < |ps| ==> SameIdentity(r[i], ps[i])
  {
    if ps == [] then []
    else [ps[0].(allowed := Without(ps[0].allowed, gone))] + StripAll(ps[1..], gone)
  }

  predicate SameIdentity(a: KernelPeer, b: KernelPeer) {
    a.publicKey == b.publicKey && a.psk == b.psk
  }

  function LoadPeers(sections: seq<PeerSection>): seq<KernelPeer> {
    if sections == [] then []
    else Put(LoadPeers(sections[..|sections| - 1]), ToKernel(sections[|sections| - 1]))
  }

  /** The interface after `wg setconf` or `wg syncconf`; addresses are not WireGuard's. */
  function Load(k: Kernel, c: Config): Kernel {
    Kernel(c.key.publicKey, c.port, k.addresses, LoadPeers(c.peers))
  }

  /** Each peer in the table afterwards is the new one or keeps an old one's identity. */
  lemma {:induction false} PutKeepsIdentities(ps: seq<KernelPeer>, kp: KernelPeer, i: nat)
    requires i < |Put(ps, kp)|
    ensures Put(ps, kp)[i] == kp || exists j :: 0 <= j < |ps| && SameIdentity(Put(ps, kp)[i], ps[j])
  {
    if ps != [] && i > 0 {
      if ps[0].publicKey == kp.publicKey {
        assert SameIdentity(StripAll(ps[1..], kp.allowed)[i - 1], ps[1..][i - 1]);
        assert SameIdentity(Put(ps, kp)[i], ps[i]);
      } else {
        PutKeepsIdentities(ps[1..], kp, i - 1);
        if Put(ps, kp)[i] != kp {
          var j :| 0 <= j < |ps[1..]| && SameIdentity(Put(ps[1..], kp)[i - 1], ps[1..][j]);
          assert SameIdentity(Put(ps, kp)[i], ps[j + 1]);
        }
      }
    } else if ps != [] && ps[0].publicKey != kp.publicKey {
      assert SameIdentity(Put(ps, kp)[0], ps[0]);
    }
  }

  lemma {:induction false} PutKeepsDistinct(ps: seq<KernelPeer>, kp: KernelPeer)
    requires DistinctKeys(ps)
    ensures DistinctKeys(Put(ps, kp))
  {
    if ps != [] && ps[0].publicKey != kp.publicKey {
      PutKeepsDistinct(ps[1..], kp);
      var tail := Put(ps[1..], kp);
      forall j | 0 <= j < |tail| ensures tail[j].publicKey != ps[0].publicKey {
        PutKeepsIdentities(ps[1..], kp, j);
      }
    } else if ps != [] {
      assert forall i :: 0 <= i < |ps[1..]| ==> SameIdentity(StripAll(ps[1..], kp.allowed)[i], ps[1..][i]);
    }
  }

  lemma {:induction false} LoadPeersOk(sections: seq<PeerSection>)
    ensures DistinctKeys(LoadPeers(sections))
    ensures forall i :: 0 <= i < |LoadPeers(sections)| ==> PskOk(LoadPeers(sections)[i].psk)
  {
    if sections != [] {
      var front, last := sections[..|sections| - 1], sections[|sections| - 1];
      LoadPeersOk(front);
      PutKeepsDistinct(LoadPeers(front), ToKernel(last));
      forall i | 0 <= i < |LoadPeers(sections)| ensures PskOk(LoadPeers(sections)[i].psk) {
        PutKeepsIdentities(LoadPeers(front), ToKernel(last), i);
      }
    }
  }

  lemma {:induction false} LoadedIsOk(k: Kernel, c: Config)
    ensures KernelOk(Load(k, c))
  {
    LoadPeersOk(c.peers);
  }

  /** Sections that claim distinct keys and non-overlapping ranges. */
  predicate Disjoint(sections: seq<PeerSection>) {
    forall i, j :: 0 <= i < j < |sections| ==> Apart(sections[i], sections[j])
  }

  predicate Apart(a: PeerSection, b: PeerSection) {
    a.publicKey != b.publicKey && forall c :: c in b.allowed ==> c !in a.allowed
  }

  function ToKernels(sections: seq<PeerSection>): seq<KernelPeer> {
    seq(|sections|, i requires 0 <= i < |sections| => ToKernel(sections[i]))
  }

  lemma {:induction false} PutFresh(ps: seq<KernelPeer>, kp: KernelPeer)
    requires forall i :: 0 <= i < |ps| ==> Apart(ToSection(ps[i]), ToSection(kp))
    ensures Put(ps, kp) == ps + [kp]
  {
    if ps != [] {
      assert Apart(ToSection(ps[0]), ToSection(kp));
      assert Without(ps[0].allowed, kp.allowed) == ps[0].allowed;
      PutFresh(ps[1..], kp);
      assert ps == [ps[0]] + ps[1..];
    }
  }

  /** Loading disjoint sections yields exactly those peers, in order. */
  lemma {:induction false} LoadDisjoint(sections: seq<PeerSection>)
    requires Disjoint(sections)
    ensures LoadPeers(sections) == ToKernels(sections)
  {
    if sections != [] {
      var front, last := sections[..|sections| - 1], sections[|sections| - 1];
      LoadDisjoint(front);
      forall i | 0 <= i < |front| ensures Apart(ToSection(ToKernels(front)[i]), ToSection(ToKernel(last))) {
        assert Apart(sections[i], sections[|sections| - 1]);
      }
      assert ToKernels(sections) == ToKernels(front) + [ToKernel(last)];
      PutFresh(ToKernels(front), ToKernel(last));
    }
  }

  function ToSection(p: KernelPeer): PeerSection {
    PeerSection(p.publicKey, p.psk, p.allowed, p.keepalive)
  }

  function ShowConf(k: Kernel): Config {
    Config(PrivateKey(true, k.publicKey), k.port,
           seq(|k.peers|, i requires 0 <= i < |k.peers| => ToSection(k.peers[i])))
  }

  /** Round trip: re-loading `wg showconf` restores the interface, whatever was loaded
      in between. This is what the update backend's rollback relies on. */
  lemma {:induction false} ShowConfRestores(k: Kernel, between: Kernel)
    requires KernelOk(k) && Disjoint(ShowConf(k).peers)
    requires between.addresses == k.addresses
    ensures Load(between, ShowConf(k)) == k
  {
    LoadDisjoint(ShowConf(k).peers);
    assert ToKernels(ShowConf(k).peers) == k.peers;
  }

  lemma {:induction false} OtherPeersDoNotClash(st: DesiredState, a: nat, b: nat)
    requires WellFormed(st) && a < |st.peers| && b < |st.peers| && a != b
    ensures !Clash(st.peers[a], st.peers[b])
  {
    assert PeerAdmissible(st, if a < b then b else a);
  }

  /** The peers of an interface that matches a valid state claim disjoint ranges, so the
      round trip applies to it. */
  lemma {:induction false} MatchingIsDisjoint(k: Kernel, st: DesiredState)
    requires KernelOk(k) && Matches(k, st) && WellFormed(st)
    ensures Disjoint(ShowConf(k).peers)
  {
    forall i, j | 0 <= i < j < |k.peers| ensures Apart(ToSection(k.peers[i]), ToSection(k.peers[j])) {
      assert Wanted(st, k.peers[i]) && Wanted(st, k.peers[j]);
      var a :| 0 <= a < |st.peers| && st.peers[a].enabled && Carries(k.peers[i], st.peers[a]);
      var b :| 0 <= b < |st.peers| && st.peers[b].enabled && Carries(k.peers[j], st.peers[b]);
      OtherPeersDoNotClash(st, a, b);
    }
  }

  ghost predicate UsesZeroPsk(st: DesiredState) {
    exists i :: 0 <= i < |st.peers| && st.peers[i].enabled && st.peers[i].psk.Some? && ZeroKey(st.peers[i].psk.value)
  }

  lemma {:induction false} RenderedSectionsDisjoint(st: DesiredState)
    requires WellFormed(st)
    ensures Disjoint(Sections(SortPeers(EnabledPeers(st.peers))))
  {
    RenderOrder(st);
    var s := SortPeers(EnabledPeers(st.peers));
    forall i, j | 0 <= i < j < |s| ensures Apart(Section(s[i]), Section(s[j])) {
      KeyLessTotal(s[i].publicKey, s[j].publicKey);
      assert s[i] in s && s[j] in s;
      var a :| 0 <= a < |st.peers| && st.peers[a] == s[i];
      var b :| 0 <= b < |st.peers| && st.peers[b] == s[j];
      OtherPeersDoNotClash(st, a, b);
    }
  }

  /** What `activate` loads is what `verify` accepts, except that an all-zero preshared
      key is accepted by `validate` and then read back as none: `verify` accepts the
      loaded configuration if and only if no enabled peer uses that key. */
  lemma {:induction false} LoadedRenderMatchesIff(k: Kernel, st: DesiredState, key: PrivateKey)
    requires WellFormed(st) && key.publicKey == st.serverKey && SERVER_ADDRESS in k.addresses
    ensures Matches(Load(k, Rendered(st, key)), st) <==> !UsesZeroPsk(st)
  {
    var s := SortPeers(EnabledPeers(st.peers));
    var loaded := Load(k, Rendered(st, key));
    if UsesZeroPsk(st) {
      LoadedIsOk(k, Rendered(st, key));
      ZeroPskNeverMatches(loaded, st);
    } else {
      RenderOrder(st);
      RenderedSectionsDisjoint(st);
      LoadDisjoint(Sections(s));
      LoadedRenderMatches(st, loaded, s);
    }
  }

  /** No interface whatsoever satisfies a state with an all-zero preshared key. */
  lemma {:induction false} ZeroPskNeverMatches(k: Kernel, st: DesiredState)
    requires KernelOk(k) && UsesZeroPsk(st)
    ensures !Matches(k, st)
  {
    var i :| 0 <= i < |st.peers| && st.peers[i].enabled && st.peers[i].psk.Some? && ZeroKey(st.peers[i].psk.value);
    assert forall j :: 0 <= j < |k.peers| ==> PskOk(k.peers[j].psk) && !Carries(k.peers[j], st.peers[i]);
    assert !Served(k, st.peers[i]);
  }

  lemma {:induction false} LoadedRenderMatches(st: DesiredState, loaded: Kernel, s: seq<DesiredPeer>)
    requires WellFormed(st) && !UsesZeroPsk(st)
    requires loaded.publicKey == st.serverKey && loaded.port == LISTEN_PORT && SERVER_ADDRESS in loaded.addresses
    requires loaded.peers == ToKernels(Sections(s))
    requires forall p :: p in s <==> p in st.peers && p.enabled
    ensures Matches(loaded, st)
  {
    forall i | 0 <= i < |st.peers| && st.peers[i].enabled ensures Served(loaded, st.peers[i]) {
      assert st.peers[i] in s;
      var j :| 0 <= j < |s| && s[j] == st.peers[i];
      LoadedCarries(st, i);
      assert Carries(loaded.peers[j], st.peers[i]);
    }
    forall j | 0 <= j < |loaded.peers| ensures Wanted(st, loaded.peers[j]) {
      assert s[j] in s;
      var i :| 0 <= i < |st.peers| && st.peers[i] == s[j];
      LoadedCarries(st, i);
    }
  }

  lemma {:induction false} LoadedCarries(st: DesiredState, i: nat)
    requires WellFormed(st) && !UsesZeroPsk(st) && i < |st.peers| && st.peers[i].enabled
    ensures Carries(ToKernel(Section(st.peers[i])), st.peers[i])
  {
    assert PeerAdmissible(st, i);
  }
}
