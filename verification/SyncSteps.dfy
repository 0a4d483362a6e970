/** Each controller operation, seen as a change of state: kernel and state stay in agreement. */
module SyncSteps {
  import opened Fwmarks
  import opened IpRules
  import opened UidRangeLists
  import opened Sums
  import opened RuleSet
  import opened RouteControllers
  import opened NetworkStates
  import opened RuleMembers

  /** A kernel that moves by the same amount as the expectation still agrees with it. */
  lemma Shift(r0: multiset<Entry>, e0: multiset<Entry>, r1: multiset<Entry>, e1: multiset<Entry>,
              gained: multiset<Entry>, lost: multiset<Entry>)
    requires SameOutsideTethering(r0, e0)
    requires lost <= r0 + gained && SameOutsideTethering(r0 + gained - lost, r1)
    requires e0 + gained == e1 + lost
    ensures SameOutsideTethering(r1, e1)
  {
    forall e: Entry | !IsTethering(e)
      ensures r1[e] == e1[e]
    {
      assert (r0 + gained - lost)[e] == r1[e];
      assert (e0 + gained)[e] == (e1 + lost)[e];
    }
  }

  // ---- the default network ------------------------------------------------------------------------

  function WithFlag(net: Network, isDefault: bool): Network {
    if net.kind.Physical? then net.(kind := net.kind.(isDefault := isDefault)) else net
  }

  function WithDefaultFlag(nets: Networks, n: NetId, isDefault: bool): Networks {
    if n in nets then nets[n := WithFlag(nets[n], isDefault)] else nets
  }

  /** A network whose own entries and VPN-ness stay the same can be replaced freely. */
  lemma ReplaceSame(nets: Networks, n: NetId, net': Network, tabs: Tables)
    requires n in nets && NetworkEntries(n, net', tabs) == NetworkEntries(n, nets[n], tabs)
    requires net'.kind.Virtual? <==> nets[n].kind.Virtual?
    ensures Vpns(nets[n := net']) == Vpns(nets)
    ensures Sum(nets[n := net'].Keys, NetworkFn(nets[n := net'], tabs)) == Sum(nets.Keys, NetworkFn(nets, tabs))
  {
    hide NetworkEntries, NetworkFn;
    ReplaceNetwork(nets, n, net', tabs);
    Cancel(Sum(nets.Keys, NetworkFn(nets, tabs)), Sum(nets[n := net'].Keys, NetworkFn(nets[n := net'], tabs)),
           NetworkEntries(n, nets[n], tabs));
  }

  lemma FlagEntries(n: NetId, net: Network, tabs: Tables, isDefault: bool)
    ensures NetworkEntries(n, WithFlag(net, isDefault), tabs) == NetworkEntries(n, net, tabs)
  {
    hide UidSum, PhysicalRequests, VirtualRequests, LocalRequests;
    SumCongruence(net.ifaces, IfaceFn(n, net, tabs), IfaceFn(n, WithFlag(net, isDefault), tabs));
  }

  /** Being the default changes no rule of the network itself. */
  lemma FlagChangesNothing(nets: Networks, d: NetId, tabs: Tables, fixed: multiset<Entry>, n: NetId, isDefault: bool)
    ensures Vpns(WithDefaultFlag(nets, n, isDefault)) == Vpns(nets)
    ensures Expected(WithDefaultFlag(nets, n, isDefault), d, tabs, fixed) == Expected(nets, d, tabs, fixed)
  {
    hide NetworkEntries, NetworkFn, DefaultEntries;
    if n in nets {
      FlagEntries(n, nets[n], tabs, isDefault);
      ReplaceSame(nets, n, WithFlag(nets[n], isDefault), tabs);
    }
  }

  lemma SyncDefault(nets: Networks, d: NetId, n: NetId, tabs: Tables, fixed: multiset<Entry>, r0: multiset<Entry>,
                    r1: multiset<Entry>)
    requires LOCAL_NET_ID in nets && Synced(nets, d, tabs, fixed, r0)
    requires DefaultOk(nets, d) && DefaultOk(nets, n) && n != d && NETID_UNSET !in nets
    requires DefaultAt(nets, d, tabs) <= r0 + DefaultAt(nets, n, tabs)
    requires r1 == r0 + DefaultAt(nets, n, tabs) - DefaultAt(nets, d, tabs)
    ensures var nets' := WithDefaultFlag(WithDefaultFlag(nets, n, true), d, false);
      LOCAL_NET_ID in nets' && Synced(nets', n, tabs, fixed, r1)
  {
    hide Expected, DefaultAt;
    var nets1 := WithDefaultFlag(nets, n, true);
    var nets2 := WithDefaultFlag(nets1, d, false);
    FlagChangesNothing(nets, n, tabs, fixed, n, true);
    FlagChangesNothing(nets1, n, tabs, fixed, d, false);
    SwitchDefault(nets, d, n, tabs, fixed);
    Shift(r0, Expected(nets, d, tabs, fixed), r1, Expected(nets2, n, tabs, fixed),
          DefaultAt(nets, n, tabs), DefaultAt(nets, d, tabs));
    assert FixedOk(nets2, tabs, fixed);
  }

  lemma FlagShape(nets: Networks, n: NetId, isDefault: bool)
    requires NetworksOk(nets) && n in nets && nets[n].kind.Physical?
    ensures NetworksOk(WithDefaultFlag(nets, n, isDefault)) && WithDefaultFlag(nets, n, isDefault).Keys == nets.Keys
    ensures forall m :: m in nets ==>
      (WithDefaultFlag(nets, n, isDefault)[m].kind.Physical? <==> nets[m].kind.Physical?)
  {
    assert NetworkOk(n, WithFlag(nets[n], isDefault));
    hide NetworkOk;
  }

  lemma SwitchDefault(nets: Networks, d: NetId, n: NetId, tabs: Tables, fixed: multiset<Entry>)
    ensures Expected(nets, d, tabs, fixed) + DefaultAt(nets, n, tabs)
         == Expected(nets, n, tabs, fixed) + DefaultAt(nets, d, tabs)
  {}

  // ---- networks come and go -----------------------------------------------------------------------

  lemma NoEntries(n: NetId, net: Network, tabs: Tables)
    requires net.ifaces == {} && (net.kind.UnreachableKind? ==> net.uids == map[])
    ensures NetworkEntries(n, net, tabs) == multiset{}
  {}

  /** What the fixed entries need to know of the state. */
  lemma FixedStays(nets: Networks, nets': Networks, tabs: Tables, tabs': Tables, fixed: multiset<Entry>)
    requires FixedOk(nets, tabs, fixed)
    requires DUMMY_NET_ID in nets' ==>
      DUMMY_NET_ID in nets
        && (DUMMY_INTERFACE in tabs ==> DUMMY_INTERFACE in tabs' && tabs'[DUMMY_INTERFACE] == tabs[DUMMY_INTERFACE])
    ensures FixedOk(nets', tabs', fixed)
  {
    hide INITIAL_REQUESTS, DummyRequests;
  }

  lemma InsertShape(nets: Networks, d: NetId, n: NetId, net: Network, tabs: Tables)
    requires NetworksOk(nets) && CacheOk(nets, tabs) && FlagsOk(nets, d) && n !in nets && NetworkOk(n, net)
    requires net.ifaces == {}
    requires n != d && (net.kind.Physical? ==> !net.kind.isDefault) && !net.kind.Dummy? && n != DUMMY_NET_ID
    ensures NetworksOk(nets[n := net]) && CacheOk(nets[n := net], tabs) && FlagsOk(nets[n := net], d)
  {
    hide NetworkOk;
  }

  lemma SyncCreatePhysical(nets: Networks, d: NetId, n: NetId, net: Network, tabs: Tables, fixed: multiset<Entry>,
                           rules: multiset<Entry>)
    requires LOCAL_NET_ID in nets && NetworksOk(nets) && Synced(nets, d, tabs, fixed, rules) && DefaultOk(nets, d)
    requires n !in nets && net.kind.Physical? && !net.kind.isDefault && net.ifaces == {} && NetworkOk(n, net) && n != d
    ensures NetworksOk(nets[n := net]) && Synced(nets[n := net], d, tabs, fixed, rules)
  {
    hide NetworksOk, CacheOk, FlagsOk, FixedOk, SameOutsideTethering, NetworkEntries, NetworkFn, DefaultEntries;
    InsertShape(nets, d, n, net, tabs);
    FixedStays(nets, nets[n := net], tabs, tabs, fixed);
    InsertNetwork(nets, n, net, tabs);
    NoEntries(n, net, tabs);
    assert Vpns(nets[n := net]) == Vpns(nets);
    assert Expected(nets[n := net], d, tabs, fixed) == Expected(nets, d, tabs, fixed);
  }

  /** The rules that tie one VPN to the default network. */
  ghost function LinkAt(nets: Networks, d: NetId, vpn: NetId, tabs: Tables): multiset<Entry> {
    if d in nets && nets[d].kind.Physical? then Sum(nets[d].ifaces, LinkFn(vpn, tabs, nets[d].kind.permission))
      else multiset{}
  }

  /** A further VPN adds its ties to the default network. */
  lemma VpnDefault(nets: Networks, d: NetId, n: NetId, net: Network, tabs: Tables)
    requires n !in nets && net.kind.Virtual? && n != d
    ensures DefaultAt(nets[n := net], d, tabs) == DefaultAt(nets, d, tabs) + LinkAt(nets, d, n, tabs)
  {
    hide DefaultEntries;
    assert Vpns(nets[n := net]) == Vpns(nets) + {n};
    if d in nets && nets[d].kind.Physical? {
      AddVpn(nets[d].ifaces, Vpns(nets), n, tabs, nets[d].kind.permission);
    }
  }

  lemma VpnExpected(nets: Networks, d: NetId, n: NetId, net: Network, tabs: Tables, fixed: multiset<Entry>)
    requires n !in nets && net.kind.Virtual? && net.ifaces == {} && n != d
    ensures Expected(nets[n := net], d, tabs, fixed) == Expected(nets, d, tabs, fixed) + LinkAt(nets, d, n, tabs)
  {
    hide NetworkEntries, NetworkFn, DefaultAt, LinkAt;
    InsertNetwork(nets, n, net, tabs);
    NoEntries(n, net, tabs);
    VpnDefault(nets, d, n, net, tabs);
  }

  lemma SyncCreateVirtual(nets: Networks, d: NetId, n: NetId, net: Network, tabs: Tables, fixed: multiset<Entry>,
                          r0: multiset<Entry>, r1: multiset<Entry>)
    requires LOCAL_NET_ID in nets && NetworksOk(nets) && Synced(nets, d, tabs, fixed, r0) && n != d
    requires n !in nets && net.kind.Virtual? && net.ifaces == {} && NetworkOk(n, net)
    requires r1 == r0 + LinkAt(nets, d, n, tabs)
    ensures NetworksOk(nets[n := net]) && Synced(nets[n := net], d, tabs, fixed, r1)
  {
    hide NetworksOk, CacheOk, FlagsOk, FixedOk, SameOutsideTethering, Expected, LinkAt;
    InsertShape(nets, d, n, net, tabs);
    FixedStays(nets, nets[n := net], tabs, tabs, fixed);
    VpnExpected(nets, d, n, net, tabs, fixed);
    assert r0 + LinkAt(nets, d, n, tabs) - multiset{} == r1;
    SameItself(r1);
    Shift(r0, Expected(nets, d, tabs, fixed), r1, Expected(nets[n := net], d, tabs, fixed), LinkAt(nets, d, n, tabs),
          multiset{});
  }

  lemma SameItself(r: multiset<Entry>)
    ensures SameOutsideTethering(r, r)
  {}

  lemma EraseShape(nets: Networks, d: NetId, n: NetId, d': NetId, tabs: Tables)
    requires NetworksOk(nets) && CacheOk(nets, tabs) && FlagsOk(nets, d) && DefaultOk(nets, d)
    requires n in nets && n != LOCAL_NET_ID && n != UNREACHABLE_NET_ID
    requires d' == if n == d then NETID_UNSET else d
    ensures NetworksOk(nets - {n}) && CacheOk(nets - {n}, tabs) && FlagsOk(nets - {n}, d') && DefaultOk(nets - {n}, d')
  {}

  lemma EraseVpn(nets: Networks, d: NetId, n: NetId, tabs: Tables, fixed: multiset<Entry>)
    requires n in nets && nets[n].ifaces == {} && nets[n].kind.Virtual?
    requires NETID_UNSET !in nets && (d in nets ==> nets[d].kind.Physical?)
    ensures Expected(nets - {n}, d, tabs, fixed) + LinkAt(nets, d, n, tabs) == Expected(nets, d, tabs, fixed)
  {
    hide Expected;
    var rest := nets - {n};
    assert rest[n := nets[n]] == nets;
    assert LinkAt(rest, d, n, tabs) == LinkAt(nets, d, n, tabs);
    hide LinkAt;
    VpnExpected(rest, d, n, nets[n], tabs, fixed);
  }

  lemma EraseOther(nets: Networks, d: NetId, n: NetId, tabs: Tables, fixed: multiset<Entry>)
    requires n in nets && (nets[n].ifaces == {} || nets[n].kind.Dummy?)
    requires !nets[n].kind.UnreachableKind? && !nets[n].kind.Virtual?
    requires NETID_UNSET !in nets && (d in nets ==> nets[d].kind.Physical?)
    ensures Expected(nets - {n}, if n == d then NETID_UNSET else d, tabs, fixed) == Expected(nets, d, tabs, fixed)
  {
    hide NetworkEntries, NetworkFn, DefaultEntries;
    EraseNetwork(nets, n, tabs);
    if nets[n].kind.Dummy? {
      DummyEntries(n, nets[n], tabs);
    } else {
      NoEntries(n, nets[n], tabs);
    }
    assert Vpns(nets - {n}) == Vpns(nets);
    if n == d {
      NoDefaultEntries(Vpns(nets), tabs, nets[d].kind.permission);
    }
  }

  lemma SyncErase(nets: Networks, d: NetId, n: NetId, d': NetId, tabs: Tables, fixed: multiset<Entry>,
                  r0: multiset<Entry>, r1: multiset<Entry>, lost: multiset<Entry>)
    requires LOCAL_NET_ID in nets && NetworksOk(nets) && Synced(nets, d, tabs, fixed, r0) && DefaultOk(nets, d)
    requires n in nets && n != LOCAL_NET_ID && n != UNREACHABLE_NET_ID && (nets[n].ifaces == {} || nets[n].kind.Dummy?)
    requires d' == if n == d then NETID_UNSET else d
    requires lost == if nets[n].kind.Virtual? then LinkAt(nets, d, n, tabs) else multiset{}
    requires lost <= r0 && r1 == r0 - lost
    ensures LOCAL_NET_ID in nets - {n} && NetworksOk(nets - {n}) && DefaultOk(nets - {n}, d')
    ensures Synced(nets - {n}, d', tabs, fixed, r1)
  {
    hide NetworksOk, CacheOk, FlagsOk, FixedOk, SameOutsideTethering, Expected, LinkAt;
    EraseShape(nets, d, n, d', tabs);
    FixedStays(nets, nets - {n}, tabs, tabs, fixed);
    NotUnreachable(nets, n);
    if nets[n].kind.Virtual? {
      EraseVpn(nets, d, n, tabs, fixed);
    } else {
      EraseOther(nets, d, n, tabs, fixed);
    }
    SameItself(r1);
    assert r0 + multiset{} - lost == r1;
    Shift(r0, Expected(nets, d, tabs, fixed), r1, Expected(nets - {n}, d', tabs, fixed), multiset{}, lost);
  }

  lemma NotUnreachable(nets: Networks, n: NetId)
    requires NetworksOk(nets) && n in nets && n != UNREACHABLE_NET_ID
    ensures !nets[n].kind.UnreachableKind? && NETID_UNSET !in nets
  {}

  lemma NoDefaultEntries(vpns: set<NetId>, tabs: Tables, permission: Permission)
    ensures DefaultEntries({}, vpns, tabs, permission) == multiset{}
  {}

  lemma {:induction false} DummyEntries(n: NetId, net: Network, tabs: Tables)
    requires net.kind.Dummy?
    ensures NetworkEntries(n, net, tabs) == multiset{}
    decreases net.ifaces
  {
    if i :| i in net.ifaces {
      SumPick(net.ifaces, IfaceFn(n, net, tabs), i);
      var rest := net.(ifaces := net.ifaces - {i});
      SumCongruence(rest.ifaces, IfaceFn(n, net, tabs), IfaceFn(n, rest, tabs));
      DummyEntries(n, rest, tabs);
    }
  }

  // ---- interfaces ---------------------------------------------------------------------------------

  function WithIface(net: Network, i: string): Network {
    net.(ifaces := net.ifaces + {i})
  }

  function WithoutIface(net: Network, i: string): Network {
    net.(ifaces := net.ifaces - {i})
  }

  ghost function DefaultGain(nets: Networks, d: NetId, n: NetId, t: nat): multiset<Entry>
    requires n in nets
  {
    if n == d && nets[n].kind.Physical? then DefaultIfaceEntries(Vpns(nets), t, nets[n].kind.permission) else multiset{}
  }

  /** What an interface adds to the expected entries. */
  ghost function IfaceGain(nets: Networks, d: NetId, n: NetId, i: string, t: nat): multiset<Entry>
    requires n in nets
  {
    IfaceEntries(n, nets[n], i, t) + DefaultGain(nets, d, n, t)
  }

  lemma GrowNetwork(n: NetId, net: Network, i: string, tabs: Tables)
    requires i !in net.ifaces && !net.kind.UnreachableKind?
    ensures NetworkEntries(n, WithIface(net, i), tabs) == NetworkEntries(n, net, tabs)
      + IfaceEntries(n, net, i, TableOf(tabs, i))
  {
    hide UidSum, PhysicalRequests, VirtualRequests, LocalRequests;
    var net' := WithIface(net, i);
    SumCongruence(net.ifaces, IfaceFn(n, net, tabs), IfaceFn(n, net', tabs));
    SumInsert(net.ifaces, IfaceFn(n, net', tabs), i);
  }

  lemma GrowSum(nets: Networks, n: NetId, i: string, tabs: Tables, nets': Networks)
    requires n in nets && i !in nets[n].ifaces && !nets[n].kind.UnreachableKind?
    requires nets' == nets[n := WithIface(nets[n], i)]
    ensures Sum(nets'.Keys, NetworkFn(nets', tabs))
         == Sum(nets.Keys, NetworkFn(nets, tabs)) + IfaceEntries(n, nets[n], i, TableOf(tabs, i))
  {
    hide NetworkEntries, NetworkFn, IfaceEntries;
    GrowNetwork(n, nets[n], i, tabs);
    ReplaceNetwork(nets, n, WithIface(nets[n], i), tabs);
    var s, s', own := Sum(nets.Keys, NetworkFn(nets, tabs)), Sum(nets'.Keys, NetworkFn(nets', tabs)),
      NetworkEntries(n, nets[n], tabs);
    var gain := IfaceEntries(n, nets[n], i, TableOf(tabs, i));
    assert s + (own + gain) == s' + own;
    Cancel(s', s + gain, own);
  }

  lemma GrowDefault(nets: Networks, d: NetId, n: NetId, i: string, tabs: Tables, nets': Networks)
    requires n in nets && i !in nets[n].ifaces
    requires nets' == nets[n := WithIface(nets[n], i)]
    ensures Vpns(nets') == Vpns(nets)
    ensures DefaultAt(nets', d, tabs) == DefaultAt(nets, d, tabs) + DefaultGain(nets, d, n, TableOf(tabs, i))
  {
    hide DefaultIfaceEntries;
    assert Vpns(nets') == Vpns(nets);
    if n == d && nets[n].kind.Physical? {
      SumInsert(nets[n].ifaces, DefaultFn(Vpns(nets), tabs, nets[n].kind.permission), i);
    }
  }

  lemma GrowExpected(nets: Networks, d: NetId, n: NetId, i: string, tabs: Tables, fixed: multiset<Entry>)
    requires n in nets && i !in nets[n].ifaces && !nets[n].kind.UnreachableKind?
    ensures Expected(nets[n := WithIface(nets[n], i)], d, tabs, fixed)
         == Expected(nets, d, tabs, fixed) + IfaceGain(nets, d, n, i, TableOf(tabs, i))
  {
    hide DefaultAt, DefaultGain, IfaceEntries, NetworkFn;
    var nets' := nets[n := WithIface(nets[n], i)];
    GrowSum(nets, n, i, tabs, nets');
    GrowDefault(nets, d, n, i, tabs, nets');
  }

  /** Interfaces keep to themselves: a new one belongs to no network and changes no known table. */
  ghost predicate JoinOk(nets: Networks, n: NetId, i: string, tabs: Tables, tabs': Tables) {
    && n in nets && (HasInterfaceTables(nets[n].kind) || nets[n].kind.Local?)
    && (forall m :: m in nets ==> i !in nets[m].ifaces)
    && i in tabs' && (tabs'[i] == TABLE_LOCAL_NETWORK <==> nets[n].kind.Local?)
    && tabs' - {i} == tabs - {i}
  }

  lemma JoinNetworksOk(nets: Networks, n: NetId, i: string)
    requires NetworksOk(nets) && n in nets && !nets[n].kind.UnreachableKind?
    requires forall m :: m in nets && m != n ==> i !in nets[m].ifaces
    ensures NetworksOk(nets[n := WithIface(nets[n], i)])
  {
    assert NetworkOk(n, WithIface(nets[n], i));
    hide NetworkOk;
  }

  lemma JoinShape(nets: Networks, d: NetId, n: NetId, i: string, tabs: Tables, tabs': Tables)
    requires NetworksOk(nets) && CacheOk(nets, tabs) && FlagsOk(nets, d) && JoinOk(nets, n, i, tabs, tabs')
    ensures var nets' := nets[n := WithIface(nets[n], i)];
      NetworksOk(nets') && CacheOk(nets', tabs') && FlagsOk(nets', d)
  {
    JoinNetworksOk(nets, n, i);
    hide NetworksOk;
    forall j | j in tabs' && j != i
      ensures j in tabs && tabs[j] == tabs'[j]
    {
      assert j in tabs' - {i};
      assert (tabs' - {i})[j] == tabs'[j] && (tabs - {i})[j] == tabs[j];
    }
    forall j | j in tabs && j != i
      ensures j in tabs' && tabs[j] == tabs'[j]
    {
      assert j in tabs - {i};
      assert (tabs' - {i})[j] == tabs'[j] && (tabs - {i})[j] == tabs[j];
    }
  }

  lemma TablesAgree(nets: Networks, i: string, tabs: Tables, tabs': Tables)
    requires tabs' - {i} == tabs - {i} && forall m :: m in nets ==> i !in nets[m].ifaces
    ensures forall m, j :: m in nets && j in nets[m].ifaces && HasInterfaceTables(nets[m].kind) ==>
      TableOf(tabs, j) == TableOf(tabs', j)
    ensures forall j :: j != i ==> (j in tabs <==> j in tabs') && (j in tabs ==> tabs[j] == tabs'[j])
  {
    forall j | j != i
      ensures (j in tabs <==> j in tabs') && (j in tabs ==> tabs[j] == tabs'[j])
    {
      assert j in tabs <==> j in tabs - {i};
      assert j in tabs' <==> j in tabs' - {i};
      if j in tabs {
        assert (tabs' - {i})[j] == tabs'[j] && (tabs - {i})[j] == tabs[j];
      }
    }
  }

  lemma DummyKeepsTable(nets: Networks, n: NetId, i: string, tabs: Tables)
    requires LOCAL_NET_ID in nets && CacheOk(nets, tabs) && DUMMY_NET_ID in nets && forall m :: m in nets ==>
      i !in nets[m].ifaces
    ensures i != DUMMY_INTERFACE
  {}

  lemma SyncJoin(nets: Networks, d: NetId, n: NetId, i: string, tabs: Tables, tabs': Tables, fixed: multiset<Entry>,
                 r0: multiset<Entry>, r1: multiset<Entry>)
    requires LOCAL_NET_ID in nets && NetworksOk(nets) && Synced(nets, d, tabs, fixed, r0)
    requires JoinOk(nets, n, i, tabs, tabs')
    requires r1 == r0 + IfaceGain(nets, d, n, i, TableOf(tabs', i))
    ensures var nets' := nets[n := WithIface(nets[n], i)];
      LOCAL_NET_ID in nets' && NetworksOk(nets') && Synced(nets', d, tabs', fixed, r1)
  {
    hide NetworksOk, CacheOk, FlagsOk, FixedOk, SameOutsideTethering, Expected, IfaceGain;
    var nets', gain := nets[n := WithIface(nets[n], i)], IfaceGain(nets, d, n, i, TableOf(tabs', i));
    JoinShape(nets, d, n, i, tabs, tabs');
    TablesAgree(nets, i, tabs, tabs');
    if DUMMY_NET_ID in nets {
      DummyKeepsTable(nets, n, i, tabs);
    }
    FixedStays(nets, nets', tabs, tabs', fixed);
    SameTables(nets, d, tabs, tabs', fixed);
    GrowExpected(nets, d, n, i, tabs', fixed);
    assert r0 + gain - multiset{} == r1;
    SameItself(r1);
    Shift(r0, Expected(nets, d, tabs, fixed), r1, Expected(nets', d, tabs', fixed), gain, multiset{});
  }

  lemma LeaveNetworks(nets: Networks, n: NetId, i: string, nets': Networks)
    requires NetworksOk(nets) && n in nets && i in nets[n].ifaces
    requires nets' == nets[n := WithoutIface(nets[n], i)]
    ensures NetworksOk(nets')
    ensures forall m :: m in nets' ==> i !in nets'[m].ifaces
  {
    assert NetworkOk(n, WithoutIface(nets[n], i));
    hide NetworkOk;
    forall m, k | m in nets' && k in nets' && m != k
      ensures nets'[m].ifaces !! nets'[k].ifaces
    {}
  }

  lemma LeaveCache(nets: Networks, d: NetId, n: NetId, i: string, tabs: Tables, nets': Networks)
    requires LOCAL_NET_ID in nets && CacheOk(nets, tabs) && FlagsOk(nets, d)
    requires n in nets && i in nets[n].ifaces && !nets[n].kind.Dummy?
    requires forall m :: m in nets && m != n ==> i !in nets[m].ifaces
    requires nets' == nets[n := WithoutIface(nets[n], i)]
    ensures CacheOk(nets', tabs - {i}) && FlagsOk(nets', d)
  {}

  lemma LeaveShape(nets: Networks, d: NetId, n: NetId, i: string, tabs: Tables, nets': Networks)
    requires NetworksOk(nets) && CacheOk(nets, tabs) && FlagsOk(nets, d)
    requires n in nets && i in nets[n].ifaces && !nets[n].kind.Dummy?
    requires nets' == nets[n := WithoutIface(nets[n], i)]
    ensures LOCAL_NET_ID in nets' && NetworksOk(nets') && CacheOk(nets', tabs - {i}) && FlagsOk(nets', d)
    ensures forall m :: m in nets' ==> i !in nets'[m].ifaces
  {
    hide CacheOk, FlagsOk, NetworkOk;
    LeaveNetworks(nets, n, i, nets');
    LeaveCache(nets, d, n, i, tabs, nets');
  }

  lemma SyncLeave(nets: Networks, d: NetId, n: NetId, i: string, tabs: Tables, fixed: multiset<Entry>,
                  r0: multiset<Entry>, r1: multiset<Entry>)
    requires LOCAL_NET_ID in nets && NetworksOk(nets) && Synced(nets, d, tabs, fixed, r0)
    requires n in nets && i in nets[n].ifaces && (HasInterfaceTables(nets[n].kind) || nets[n].kind.Local?)
    requires IfaceGain(nets, d, n, i, TableOf(tabs, i)) <= r0
    requires SameOutsideTethering(r0 - IfaceGain(nets, d, n, i, TableOf(tabs, i)), r1)
    ensures var nets' := nets[n := WithoutIface(nets[n], i)];
      LOCAL_NET_ID in nets' && NetworksOk(nets') && Synced(nets', d, tabs - {i}, fixed, r1)
  {
    hide NetworksOk, CacheOk, FlagsOk, FixedOk, SameOutsideTethering, Expected, IfaceGain;
    var nets', lost := nets[n := WithoutIface(nets[n], i)], IfaceGain(nets, d, n, i, TableOf(tabs, i));
    LeaveShape(nets, d, n, i, tabs, nets');
    assert nets'[n := WithIface(nets'[n], i)] == nets by {
      assert nets[n].ifaces - {i} + {i} == nets[n].ifaces;
    }
    GrowExpected(nets', d, n, i, tabs, fixed);
    SameGain(nets, nets', d, n, i, TableOf(tabs, i));
    assert (tabs - {i}) - {i} == tabs - {i};
    TablesAgree(nets', i, tabs, tabs - {i});
    if DUMMY_NET_ID in nets' {
      DummyKeepsTable(nets', n, i, tabs - {i});
    }
    FixedStays(nets, nets', tabs, tabs - {i}, fixed);
    SameTables(nets', d, tabs, tabs - {i}, fixed);
    assert r0 + multiset{} - lost == r0 - lost;
    Shift(r0, Expected(nets, d, tabs, fixed), r1, Expected(nets', d, tabs - {i}, fixed), multiset{}, lost);
  }

  lemma SameGain(nets: Networks, nets': Networks, d: NetId, n: NetId, i: string, t: nat)
    requires n in nets && nets' == nets[n := WithoutIface(nets[n], i)]
    ensures IfaceGain(nets', d, n, i, t) == IfaceGain(nets, d, n, i, t)
  {
    hide UidSum, PhysicalRequests, VirtualRequests, LocalRequests, DefaultIfaceEntries;
    assert Vpns(nets') == Vpns(nets);
  }

  // ---- users --------------------------------------------------------------------------------------

  predicate TakesUsers(kind: Kind) {
    HasInterfaceTables(kind) || kind.UnreachableKind?
  }

  ghost function GrantFn(n: NetId, kind: Kind, sub: nat, ranges: seq<UidRange>,
                         tabs: Tables): string -> multiset<Entry> {
    i => RangeSum(ranges, sub, Builder(n, kind, i, TableOf(tabs, i)))
  }

  /** What a list of uid ranges at a subpriority adds to the expected entries. */
  ghost function UserGain(n: NetId, net: Network, sub: nat, ranges: seq<UidRange>, tabs: Tables): multiset<Entry> {
    if net.kind.UnreachableKind? then RangeSum(ranges, sub, UnreachableUids(n))
    else Sum(net.ifaces, GrantFn(n, net.kind, sub, ranges, tabs))
  }

  lemma IfaceSplit(n: NetId, big: Network, small: Network, i: string, t: nat, sub: nat, ranges: seq<UidRange>)
    requires HasInterfaceTables(small.kind) && big.kind == small.kind
    requires var f := Builder(n, small.kind, i, t);
      UidSum(big.uids, f) == UidSum(small.uids, f) + RangeSum(ranges, sub, f)
    ensures IfaceEntries(n, big, i, t) == IfaceEntries(n, small, i, t)
      + RangeSum(ranges, sub, Builder(n, small.kind, i, t))
  {
    hide UidSum, RangeSum, PhysicalRequests, VirtualRequests;
    BuilderOf(n, small.kind, i, t);
  }

  /** A network with more users calls for that much more. */
  lemma UsersEntries(n: NetId, big: Network, small: Network, sub: nat, ranges: seq<UidRange>, tabs: Tables)
    requires TakesUsers(small.kind) && big.kind == small.kind && big.ifaces == small.ifaces
    requires forall f :: UidSum(big.uids, f) == UidSum(small.uids, f) + RangeSum(ranges, sub, f)
    ensures NetworkEntries(n, big, tabs) == NetworkEntries(n, small, tabs) + UserGain(n, small, sub, ranges, tabs)
  {
    hide UidSum, RangeSum, IfaceEntries, Builder;
    if !small.kind.UnreachableKind? {
      forall i | i in small.ifaces
        ensures IfaceFn(n, big, tabs)(i) == IfaceFn(n, small, tabs)(i) + GrantFn(n, small.kind, sub, ranges, tabs)(i)
      {
        IfaceSplit(n, big, small, i, TableOf(tabs, i), sub, ranges);
      }
      SumSplit(small.ifaces, IfaceFn(n, big, tabs), IfaceFn(n, small, tabs), GrantFn(n, small.kind, sub, ranges, tabs));
    }
  }

  /** Replacing a network by one on the same interfaces moves the expectation by the difference. */
  lemma ReplaceExpected(nets: Networks, d: NetId, n: NetId, net': Network, tabs: Tables, fixed: multiset<Entry>,
                        gained: multiset<Entry>, lost: multiset<Entry>)
    requires n in nets && (net'.kind.Virtual? <==> nets[n].kind.Virtual?)
    requires NetworkEntries(n, net', tabs) + DefaultAt(nets[n := net'], d, tabs) + lost
          == NetworkEntries(n, nets[n], tabs) + DefaultAt(nets, d, tabs) + gained
    ensures Expected(nets[n := net'], d, tabs, fixed) + lost == Expected(nets, d, tabs, fixed) + gained
  {
    hide NetworkEntries, NetworkFn, DefaultAt;
    ReplaceNetwork(nets, n, net', tabs);
    var nets' := nets[n := net'];
    var s, s' := Sum(nets.Keys, NetworkFn(nets, tabs)), Sum(nets'.Keys, NetworkFn(nets', tabs));
    var own, own' := NetworkEntries(n, nets[n], tabs), NetworkEntries(n, net', tabs);
    var def, def' := DefaultAt(nets, d, tabs), DefaultAt(nets', d, tabs);
    Balance(s, s', own, own', def, def', gained, lost);
    assert Expected(nets', d, tabs, fixed) + lost == fixed + (s' + def' + lost);
    assert Expected(nets, d, tabs, fixed) + gained == fixed + (s + def + gained);
  }

  lemma Balance(s: multiset<Entry>, s': multiset<Entry>, own: multiset<Entry>, own': multiset<Entry>,
                def: multiset<Entry>, def': multiset<Entry>, gained: multiset<Entry>, lost: multiset<Entry>)
    requires s + own' == s' + own && own' + def' + lost == own + def + gained
    ensures s' + def' + lost == s + def + gained
  {
    forall e
      ensures (s' + def' + lost)[e] == (s + def + gained)[e]
    {
      assert (s + own')[e] == (s' + own)[e];
      assert (own' + def' + lost)[e] == (own + def + gained)[e];
    }
  }

  lemma UsersShape(nets: Networks, d: NetId, n: NetId, net': Network, tabs: Tables)
    requires NetworksOk(nets) && CacheOk(nets, tabs) && FlagsOk(nets, d) && n in nets
    requires NetworkOk(n, net') && net'.ifaces == nets[n].ifaces && (net'.kind.Local? <==> nets[n].kind.Local?)
    requires HasInterfaceTables(net'.kind) <==> HasInterfaceTables(nets[n].kind)
    requires net'.kind.Dummy? <==> nets[n].kind.Dummy?
    requires net'.kind.Physical? ==> nets[n].kind.Physical? && net'.kind.isDefault == nets[n].kind.isDefault
    ensures NetworksOk(nets[n := net']) && CacheOk(nets[n := net'], tabs) && FlagsOk(nets[n := net'], d)
  {
    hide NetworkOk;
  }

  lemma SameDefault(nets: Networks, d: NetId, n: NetId, net': Network, tabs: Tables)
    requires n in nets && net'.kind == nets[n].kind && net'.ifaces == nets[n].ifaces
    ensures DefaultAt(nets[n := net'], d, tabs) == DefaultAt(nets, d, tabs)
  {
    hide DefaultEntries;
    assert Vpns(nets[n := net']) == Vpns(nets);
  }

  /** Any change to one network's users that the kernel followed. */
  lemma SyncUsers(nets: Networks, d: NetId, n: NetId, net': Network, tabs: Tables, fixed: multiset<Entry>,
                  r0: multiset<Entry>, r1: multiset<Entry>, gained: multiset<Entry>, lost: multiset<Entry>)
    requires LOCAL_NET_ID in nets && NetworksOk(nets) && Synced(nets, d, tabs, fixed, r0) && n in nets
    requires NetworkOk(n, net') && net'.kind == nets[n].kind && net'.ifaces == nets[n].ifaces
    requires NetworkEntries(n, net', tabs) + lost == NetworkEntries(n, nets[n], tabs) + gained
    requires lost <= r0 + gained && r1 == r0 + gained - lost
    ensures NetworksOk(nets[n := net']) && Synced(nets[n := net'], d, tabs, fixed, r1)
  {
    hide NetworkOk, NetworksOk, CacheOk, FlagsOk, FixedOk, SameOutsideTethering, Expected, NetworkEntries, DefaultAt;
    var nets' := nets[n := net'];
    UsersShape(nets, d, n, net', tabs);
    FixedStays(nets, nets', tabs, tabs, fixed);
    SameDefault(nets, d, n, net', tabs);
    var own, own', def := NetworkEntries(n, nets[n], tabs), NetworkEntries(n, net', tabs), DefaultAt(nets, d, tabs);
    assert own' + def + lost == (own' + lost) + def;
    assert own + def + gained == (own + gained) + def;
    ReplaceExpected(nets, d, n, net', tabs, fixed, gained, lost);
    SameItself(r1);
    Shift(r0, Expected(nets, d, tabs, fixed), r1, Expected(nets', d, tabs, fixed), gained, lost);
  }

  function WithUsers(net: Network, ranges: seq<UidRange>, sub: nat): Network {
    net.(uids := AddTo(net.uids, ranges, sub))
  }

  function WithoutUsers(net: Network, ranges: seq<UidRange>, sub: nat): Network {
    net.(uids := RemoveFrom(net.uids, ranges, sub))
  }

  lemma WithUsersOk(n: NetId, net: Network, ranges: seq<UidRange>, sub: nat)
    requires NetworkOk(n, net) && ValidSubPriority(net.kind, sub) && Sorted(ranges)
    ensures NetworkOk(n, WithUsers(net, ranges, sub)) && NetworkOk(n, WithoutUsers(net, ranges, sub))
  {
    hide Sorted, Merge, Difference, ValidSubPriority;
    SortedNone();
    MergeCorrect(RangesAt(net.uids, sub), ranges);
    DifferenceCorrect(RangesAt(net.uids, sub), ranges);
  }

  lemma SortedNone()
    ensures Sorted([])
  {}

  lemma SyncAddUsers(nets: Networks, d: NetId, n: NetId, sub: nat, ranges: seq<UidRange>, tabs: Tables,
                     fixed: multiset<Entry>,
                     r0: multiset<Entry>, r1: multiset<Entry>)
    requires LOCAL_NET_ID in nets && NetworksOk(nets) && Synced(nets, d, tabs, fixed, r0) && n in nets
    requires TakesUsers(nets[n].kind) && NetworkOk(n, WithUsers(nets[n], ranges, sub))
    requires r1 == r0 + UserGain(n, nets[n], sub, ranges, tabs)
    ensures var nets' := nets[n := WithUsers(nets[n], ranges, sub)];
      NetworksOk(nets') && Synced(nets', d, tabs, fixed, r1)
  {
    hide NetworkOk, NetworksOk, Synced, NetworkEntries, UserGain, UidSum, RangeSum;
    var net, net' := nets[n], WithUsers(nets[n], ranges, sub);
    forall f
      ensures UidSum(net'.uids, f) == UidSum(net.uids, f) + RangeSum(ranges, sub, f)
    {
      AddToSum(net.uids, ranges, sub, f);
    }
    UsersEntries(n, net', net, sub, ranges, tabs);
    assert r1 == r0 + UserGain(n, net, sub, ranges, tabs) - multiset{};
    SyncUsers(nets, d, n, net', tabs, fixed, r0, r1, UserGain(n, net, sub, ranges, tabs), multiset{});
  }

  /** A network without interfaces calls for nothing, whoever its users are. */
  lemma NoInterfaces(n: NetId, net: Network, sub: nat, ranges: seq<UidRange>, tabs: Tables)
    requires net.ifaces == {} && !net.kind.UnreachableKind?
    ensures UserGain(n, net, sub, ranges, tabs) == multiset{}
    ensures NetworkEntries(n, net, tabs) == multiset{}
  {}

  /**
   * If the kernel gave up the rules of some ranges, the network had those ranges, as often as they
   * were asked to be removed.
   */
  lemma RemovedWerePresent(nets: Networks, d: NetId, n: NetId, i: string, sub: nat, ranges: seq<UidRange>, tabs: Tables,
                           ifindex: map<string, nat>, fixed: multiset<Entry>, rules: multiset<Entry>)
    requires LOCAL_NET_ID in nets && NetworksOk(nets) && Synced(nets, d, tabs, fixed, rules)
    requires TablesOk(tabs, ifindex) && AllSendable(rules) && Owns(nets, n, i, sub)
    requires UserGain(n, nets[n], sub, ranges, tabs) <= rules
    ensures multiset(ranges) <= multiset(RangesAt(nets[n].uids, sub))
  {
    hide NetworksOk, CacheOk, FlagsOk, FixedOk, TablesOk, Expected, Marker, Builder, RangeSum, Sendable;
    var net, t := nets[n], TableOf(tabs, i);
    var f := Builder(n, net.kind, i, t);
    assert RangeSum(ranges, sub, f) <= UserGain(n, net, sub, ranges, tabs) by {
      BuilderOf(n, net.kind, i, t);
      if !net.kind.UnreachableKind? {
        SumIncludes(net.ifaces, GrantFn(n, net.kind, sub, ranges, tabs), i);
      }
    }
    forall r | r in multiset(ranges)
      ensures multiset(ranges)[r] <= multiset(RangesAt(net.uids, sub))[r]
    {
      var e := Marker(n, net.kind, t, sub, r);
      MarkerOnce(n, net.kind, i, t, sub, r);
      SumSeqIncludesMarker(ranges, sub, f, r, e);
      assert e in rules;
      MarkerRangeCount(n, net.kind, i, t, ranges, sub, r);
      MarkerExpectedCount(nets, d, tabs, ifindex, fixed, n, i, sub, r);
      MarkerNotTethering(n, net.kind, t, sub, r);
    }
  }

  lemma SumSeqIncludesMarker(ranges: seq<UidRange>, sub: nat, f: UidBuilder, r: UidRange, e: Entry)
    requires r in ranges && multiset(f(sub, r))[e] == 1
    ensures e in RangeSum(ranges, sub, f)
  {
    SumSeqIncludes(ranges, RangeFn(sub, f), r);
    assert e in RangeFn(sub, f)(r);
  }

  lemma MarkerNotTethering(n: NetId, kind: Kind, t: nat, sub: nat, r: UidRange)
    requires sub < 1000
    ensures !IsTethering(Marker(n, kind, t, sub, r))
  {}

  lemma SyncRemoveUsers(nets: Networks, d: NetId, n: NetId, sub: nat, ranges: seq<UidRange>, tabs: Tables,
                        ifindex: map<string, nat>, fixed: multiset<Entry>, r0: multiset<Entry>, r1: multiset<Entry>)
    requires LOCAL_NET_ID in nets && NetworksOk(nets) && Synced(nets, d, tabs, fixed, r0) && n in nets
    requires TablesOk(tabs, ifindex) && AllSendable(r0)
    requires TakesUsers(nets[n].kind) && ValidSubPriority(nets[n].kind, sub) && Sorted(ranges)
    requires Sorted(RangesAt(nets[n].uids, sub))
    requires NetworkOk(n, WithoutUsers(nets[n], ranges, sub))
    requires UserGain(n, nets[n], sub, ranges, tabs) <= r0 && r1 == r0 - UserGain(n, nets[n], sub, ranges, tabs)
    ensures var nets' := nets[n := WithoutUsers(nets[n], ranges, sub)];
      NetworksOk(nets') && Synced(nets', d, tabs, fixed, r1)
  {
    hide NetworkOk, NetworksOk, Synced, NetworkEntries, UserGain, UidSum, RangeSum, TablesOk, AllSendable, Sorted;
    hide ValidSubPriority, RemoveFrom;
    var net, net', lost := nets[n], WithoutUsers(nets[n], ranges, sub), UserGain(n, nets[n], sub, ranges, tabs);
    if !net.kind.UnreachableKind? && net.ifaces == {} {
      NoInterfaces(n, net, sub, ranges, tabs);
      NoInterfaces(n, net', sub, ranges, tabs);
    } else {
      var i :| net.kind.UnreachableKind? || i in net.ifaces;
      RemovedWerePresent(nets, d, n, i, sub, ranges, tabs, ifindex, fixed, r0);
      forall f
        ensures UidSum(net.uids, f) == UidSum(net'.uids, f) + RangeSum(ranges, sub, f)
      {
        RemoveFromSum(net.uids, ranges, sub, f);
      }
      UsersEntries(n, net, net', sub, ranges, tabs);
      SameUserGain(n, net, net', sub, ranges, tabs);
    }
    assert r1 == r0 + multiset{} - lost;
    SyncUsers(nets, d, n, net', tabs, fixed, r0, r1, multiset{}, lost);
  }

  lemma SameUserGain(n: NetId, a: Network, b: Network, sub: nat, ranges: seq<UidRange>, tabs: Tables)
    requires a.kind == b.kind && a.ifaces == b.ifaces
    ensures UserGain(n, a, sub, ranges, tabs) == UserGain(n, b, sub, ranges, tabs)
  {}

  // ---- permissions --------------------------------------------------------------------------------

  function WithPermission(net: Network, permission: Permission): Network
    requires net.kind.Physical?
  {
    net.(kind := net.kind.(permission := permission))
  }

  ghost function PermissionFn(n: NetId, permission: Permission, local: bool, tabs: Tables): string -> multiset<Entry> {
    i => multiset(PhysicalRequests(n, i, TableOf(tabs, i), permission, local))
  }

  ghost function UidFn(n: NetId, uids: UidRangeMap, tabs: Tables): string -> multiset<Entry> {
    i => UidSum(uids, PhysicalUids(n, TableOf(tabs, i)))
  }

  /** The permission-based part of a physical network's entries, and of its being the default. */
  ghost function PermissionPart(nets: Networks, d: NetId, n: NetId, permission: Permission,
                                tabs: Tables): multiset<Entry>
    requires n in nets && nets[n].kind.Physical?
  {
    Sum(nets[n].ifaces, PermissionFn(n, permission, nets[n].kind.local, tabs))
    + if n == d then DefaultEntries(nets[n].ifaces, Vpns(nets), tabs, permission) else multiset{}
  }

  lemma PermissionSplit(n: NetId, net: Network, tabs: Tables)
    requires net.kind.Physical?
    ensures NetworkEntries(n, net, tabs)
         == Sum(net.ifaces, PermissionFn(n, net.kind.permission, net.kind.local, tabs))
           + Sum(net.ifaces, UidFn(n, net.uids, tabs))
  {
    hide UidSum, PhysicalRequests;
    SumSplit(net.ifaces, IfaceFn(n, net, tabs), PermissionFn(n, net.kind.permission, net.kind.local, tabs),
             UidFn(n, net.uids, tabs));
  }

  lemma PermissionDefault(nets: Networks, d: NetId, n: NetId, permission: Permission, tabs: Tables, nets': Networks)
    requires n in nets && nets[n].kind.Physical? && nets' == nets[n := WithPermission(nets[n], permission)]
    ensures Vpns(nets') == Vpns(nets)
    ensures n == d ==> DefaultAt(nets', d, tabs) == DefaultEntries(nets[n].ifaces, Vpns(nets), tabs, permission)
    ensures n == d ==>
      DefaultAt(nets, d, tabs) == DefaultEntries(nets[n].ifaces, Vpns(nets), tabs, nets[n].kind.permission)
    ensures n != d ==> DefaultAt(nets', d, tabs) == DefaultAt(nets, d, tabs)
  {
    hide DefaultEntries;
    assert Vpns(nets') == Vpns(nets);
  }

  lemma PermissionExpected(nets: Networks, d: NetId, n: NetId, permission: Permission, tabs: Tables,
                           fixed: multiset<Entry>)
    requires n in nets && nets[n].kind.Physical?
    ensures Expected(nets[n := WithPermission(nets[n], permission)], d, tabs, fixed)
            + PermissionPart(nets, d, n, nets[n].kind.permission, tabs)
         == Expected(nets, d, tabs, fixed) + PermissionPart(nets, d, n, permission, tabs)
  {
    hide NetworkEntries, DefaultAt, DefaultEntries, PermissionFn, UidFn, Expected;
    var net, net' := nets[n], WithPermission(nets[n], permission);
    PermissionSplit(n, net, tabs);
    PermissionSplit(n, net', tabs);
    PermissionDefault(nets, d, n, permission, tabs, nets[n := net']);
    ReplaceExpected(nets, d, n, net', tabs, fixed,
                    PermissionPart(nets, d, n, permission, tabs),
                      PermissionPart(nets, d, n, net.kind.permission, tabs));
  }

  lemma SyncPermission(nets: Networks, d: NetId, n: NetId, permission: Permission, tabs: Tables, fixed: multiset<Entry>,
                       r0: multiset<Entry>, r1: multiset<Entry>)
    requires LOCAL_NET_ID in nets && NetworksOk(nets) && Synced(nets, d, tabs, fixed, r0) && n in nets
    requires nets[n].kind.Physical?
    requires r1 + PermissionPart(nets, d, n, nets[n].kind.permission, tabs)
      == r0 + PermissionPart(nets, d, n, permission, tabs)
    ensures var nets' := nets[n := WithPermission(nets[n], permission)];
      NetworksOk(nets') && Synced(nets', d, tabs, fixed, r1)
  {
    hide NetworkOk, NetworksOk, CacheOk, FlagsOk, FixedOk, SameOutsideTethering, Expected, PermissionPart;
    PermissionOk(nets, n, permission);
    var nets' := nets[n := WithPermission(nets[n], permission)];
    var gained, lost := PermissionPart(nets, d, n, permission, tabs),
      PermissionPart(nets, d, n, nets[n].kind.permission, tabs);
    UsersShape(nets, d, n, WithPermission(nets[n], permission), tabs);
    FixedStays(nets, nets', tabs, tabs, fixed);
    PermissionExpected(nets, d, n, permission, tabs, fixed);
    assert lost <= r1 + lost;
    assert r1 + lost - lost == r1;
    SameItself(r1);
    Shift(r0, Expected(nets, d, tabs, fixed), r1, Expected(nets', d, tabs, fixed), gained, lost);
  }

  lemma PermissionOk(nets: Networks, n: NetId, permission: Permission)
    requires NetworksOk(nets) && n in nets && nets[n].kind.Physical?
    ensures NetworkOk(n, WithPermission(nets[n], permission))
  {}

  // ---- reject ranges ------------------------------------------------------------------------------

  lemma RejectOnlyFixed(nets: Networks, d: NetId, tabs: Tables, fixed: multiset<Entry>, uids: UidSelector)
    requires NetworksOk(nets)
    ensures Expected(nets, d, tabs, fixed)[RejectNonSecure(uids)] == fixed[RejectNonSecure(uids)]
  {
    var e := RejectNonSecure(uids);
    ExpectedMember(nets, d, tabs, multiset{}, e);
    hide Expected;
    forall n | n in nets
      ensures !FromNetwork(e, n, nets[n], tabs)
    {
      RejectForeign(n, nets[n], tabs, uids);
    }
    assert e !in Expected(nets, d, tabs, multiset{});
    SplitFixed(nets, d, tabs, fixed);
  }

  lemma SplitFixed(nets: Networks, d: NetId, tabs: Tables, fixed: multiset<Entry>)
    ensures Expected(nets, d, tabs, fixed) == fixed + Expected(nets, d, tabs, multiset{})
  {}

  lemma RejectForeign(n: NetId, net: Network, tabs: Tables, uids: UidSelector)
    requires NetworkOk(n, net)
    ensures !FromNetwork(RejectNonSecure(uids), n, net, tabs)
  {
    var e := RejectNonSecure(uids);
    if FromNetwork(e, n, net, tabs) {
      var i, sub, r := NetworkOrigin(e, n, net, tabs);
      hide FromNetwork;
      var t := TableOf(tabs, i);
      match net.kind
      case Physical(p, _, local) =>
        if e in PhysicalRequests(n, i, t, p, local) {
          PhysicalCases(n, i, t, p, local, e);
        } else {
          PhysicalUidCases(n, t, sub, r, e);
        }
      case Virtual(secure, excludeLocal) =>
        if e in VirtualRequests(n, i, t, secure, excludeLocal) {
          VirtualCases(n, i, t, secure, excludeLocal, e);
        } else {
          VirtualUidCases(n, i, t, secure, excludeLocal, sub, r, e);
        }
      case Local => LocalCases(i, e);
      case _ =>
    }
  }

  lemma RejectMember(ranges: seq<UidRange>, e: Entry)
    requires e in RangeSum(ranges, 0, RejectRequests)
    ensures e.IpRule? && e == RejectNonSecure(e.uids)
  {
    var r := SumSeqMember(ranges, RangeFn(0, RejectRequests), e);
  }

  lemma SyncReject(nets: Networks, d: NetId, ranges: seq<UidRange>, add: bool, tabs: Tables, fixed: multiset<Entry>,
                   r0: multiset<Entry>, r1: multiset<Entry>)
    requires LOCAL_NET_ID in nets && NetworksOk(nets) && Synced(nets, d, tabs, fixed, r0)
    requires var m := RangeSum(ranges, 0, RejectRequests); (!add ==> m <= r0) && r1 == Applied(r0, m, add)
    ensures var m := RangeSum(ranges, 0, RejectRequests);
      (!add ==> m <= fixed) && Synced(nets, d, tabs, Applied(fixed, m, add), r1)
  {
    hide NetworksOk, CacheOk, FlagsOk, FixedOk, SameOutsideTethering, Expected, RangeSum;
    var m := RangeSum(ranges, 0, RejectRequests);
    RejectHad(nets, d, ranges, tabs, fixed, r0);
    if !add {
      AtMost(m, r0, fixed);
    }
    RejectFixed(nets, tabs, fixed, ranges, add);
    SplitFixed(nets, d, tabs, fixed);
    SplitFixed(nets, d, tabs, Applied(fixed, m, add));
    SameItself(r1);
    var rest := Expected(nets, d, tabs, multiset{});
    if add {
      assert r0 + m - multiset{} == r1;
      Shift(r0, Expected(nets, d, tabs, fixed), r1, Expected(nets, d, tabs, Applied(fixed, m, add)), m, multiset{});
    } else {
      assert r0 + multiset{} - m == r1;
      assert fixed - m + m == fixed;
      Shift(r0, Expected(nets, d, tabs, fixed), r1, Expected(nets, d, tabs, Applied(fixed, m, add)), multiset{}, m);
    }
  }

  lemma AtMost(m: multiset<Entry>, r: multiset<Entry>, fixed: multiset<Entry>)
    requires m <= r && forall e :: e in m ==> r[e] == fixed[e]
    ensures m <= fixed
  {
    forall e
      ensures m[e] <= fixed[e]
    {
      assert m[e] <= r[e];
    }
  }

  lemma RejectHad(nets: Networks, d: NetId, ranges: seq<UidRange>, tabs: Tables, fixed: multiset<Entry>,
                  r0: multiset<Entry>)
    requires LOCAL_NET_ID in nets && NetworksOk(nets) && Synced(nets, d, tabs, fixed, r0)
    ensures forall e :: e in RangeSum(ranges, 0, RejectRequests) ==> r0[e] == fixed[e]
  {
    hide NetworksOk, CacheOk, FlagsOk, FixedOk, Expected, RangeSum, RejectNonSecure;
    forall e | e in RangeSum(ranges, 0, RejectRequests)
      ensures r0[e] == fixed[e]
    {
      RejectMember(ranges, e);
      RejectShape(e);
      RejectOnlyFixed(nets, d, tabs, fixed, e.uids);
    }
  }

  lemma RejectFixed(nets: Networks, tabs: Tables, fixed: multiset<Entry>, ranges: seq<UidRange>, add: bool)
    requires FixedOk(nets, tabs, fixed)
    ensures FixedOk(nets, tabs, Applied(fixed, RangeSum(ranges, 0, RejectRequests), add))
  {
    hide INITIAL_REQUESTS, DummyRequests, RangeSum;
    var m := RangeSum(ranges, 0, RejectRequests);
    forall e | e in Applied(fixed, m, add) && e !in fixed
      ensures e.IpRule? && e.priority == PROHIBIT_NON_VPN && e == RejectNonSecure(e.uids)
    {
      RejectMember(ranges, e);
    }
  }

  lemma RejectShape(e: Entry)
    requires e.IpRule? && e == RejectNonSecure(e.uids)
    ensures e.priority == PROHIBIT_NON_VPN && !IsTethering(e)
  {}
}
