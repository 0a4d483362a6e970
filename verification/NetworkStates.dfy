/** What a well-formed controller state is, and how the entries it calls for change with it. */
module NetworkStates {
  import opened Fwmarks
  import opened IpRules
  import opened UidRangeLists
  import opened Sums
  import opened RuleSet
  import opened RouteControllers

  // ---- bookkeeping, which survives every kernel failure -------------------------------------------

  predicate ValidSubPriority(kind: Kind, sub: int) {
    match kind
    case Physical(_, _, _) => SUB_PRIORITY_HIGHEST <= sub <= SUB_PRIORITY_LOWEST || sub == SUB_PRIORITY_NO_DEFAULT
    case Virtual(_, _) => sub == SUB_PRIORITY_HIGHEST
    case UnreachableKind => SUB_PRIORITY_HIGHEST <= sub <= SUB_PRIORITY_LOWEST
    case _ => false
  }

  predicate NetworkOk(n: NetId, net: Network) {
    && (net.kind.Physical? ==> MIN_OEM_ID <= n <= MAX_OEM_ID || MIN_NET_ID <= n <= MAX_NET_ID)
    && (net.kind.Virtual? ==> MIN_NET_ID <= n <= MAX_NET_ID)
    && (net.kind.Local? <==> n == LOCAL_NET_ID)
    && (net.kind.Dummy? ==> n == DUMMY_NET_ID)
    && (net.kind.UnreachableKind? <==> n == UNREACHABLE_NET_ID)
    && (net.kind.UnreachableKind? ==> net.ifaces == {})
    && (forall sub :: sub in net.uids ==> ValidSubPriority(net.kind, sub) && Sorted(net.uids[sub]))
    && (net.allowed.Some? ==> Sorted(net.allowed.value))
  }

  ghost predicate NetworksOk(nets: Networks) {
    && LOCAL_NET_ID in nets && UNREACHABLE_NET_ID in nets
    && (forall n :: n in nets ==> NetworkOk(n, nets[n]))
    && (forall m, n :: m in nets && n in nets && m != n ==> nets[m].ifaces !! nets[n].ifaces)
  }

  predicate DefaultOk(nets: Networks, d: NetId) {
    d == NETID_UNSET || (d in nets && nets[d].kind.Physical?)
  }

  // ---- agreement with the kernel ------------------------------------------------------------------

  predicate HasInterfaceTables(kind: Kind) {
    kind.Physical? || kind.Virtual?
  }

  /** Entries not derived from networks: the initial rules, the dummy interface's rules, reject rules. */
  ghost predicate FixedOk(nets: Networks, tabs: Tables, fixed: multiset<Entry>) {
    forall e :: e in fixed ==>
      || e in INITIAL_REQUESTS
      || (e.IpRule? && e.priority == PROHIBIT_NON_VPN && e == RejectNonSecure(e.uids))
      || (exists t: nat :: e in DummyRequests(t) && 0 < t < TABLE_OFFSET_FOR_LOCAL
            && (DUMMY_NET_ID in nets ==> DUMMY_INTERFACE in tabs && tabs[DUMMY_INTERFACE] == t))
  }

  ghost predicate CacheOk(nets: Networks, tabs: Tables)
    requires LOCAL_NET_ID in nets
  {
    && (forall n, i :: n in nets && i in nets[n].ifaces && HasInterfaceTables(nets[n].kind) ==>
          i in tabs && tabs[i] != TABLE_LOCAL_NETWORK)
    && (forall i :: i in nets[LOCAL_NET_ID].ifaces ==> i in tabs)
    && (forall i :: i in tabs ==> (tabs[i] == TABLE_LOCAL_NETWORK <==> i in nets[LOCAL_NET_ID].ifaces))
    && (DUMMY_NET_ID in nets ==> nets[DUMMY_NET_ID].kind.Dummy? && DUMMY_INTERFACE in nets[DUMMY_NET_ID].ifaces)
  }

  ghost predicate FlagsOk(nets: Networks, d: NetId) {
    forall n :: n in nets && nets[n].kind.Physical? ==> (nets[n].kind.isDefault <==> n == d)
  }

  /** The kernel holds exactly what the in-memory state calls for, tethering rules aside. */
  ghost predicate Synced(nets: Networks, d: NetId, tabs: Tables, fixed: multiset<Entry>, rules: multiset<Entry>)
    requires LOCAL_NET_ID in nets
  {
    && FlagsOk(nets, d)
    && CacheOk(nets, tabs)
    && FixedOk(nets, tabs, fixed)
    && SameOutsideTethering(rules, Expected(nets, d, tabs, fixed))
  }

  // ---- how the expected entries change ------------------------------------------------------------

  function AddTo(uids: UidRangeMap, ranges: seq<UidRange>, sub: nat): UidRangeMap {
    uids[sub := Merge(RangesAt(uids, sub), ranges)]
  }

  function RemoveFrom(uids: UidRangeMap, ranges: seq<UidRange>, sub: nat): UidRangeMap {
    if sub !in uids then uids
    else
      var left := Difference(uids[sub], ranges);
      if left == [] then uids - {sub} else uids[sub := left]
  }

  /** The sum over a uid map, with one subpriority taken out. */
  lemma UidSumAt(uids: UidRangeMap, sub: nat, f: UidBuilder)
    ensures UidSum(uids, f) == RangeSum(RangesAt(uids, sub), sub, f) + UidSum(uids - {sub}, f)
  {
    var g, h := SubFn(uids, f), SubFn(uids - {sub}, f);
    SumCongruence((uids - {sub}).Keys, g, h);
    if sub in uids {
      SumPick(uids.Keys, g, sub);
      assert (uids - {sub}).Keys == uids.Keys - {sub};
    } else {
      assert uids - {sub} == uids;
    }
  }

  lemma AddToSum(uids: UidRangeMap, ranges: seq<UidRange>, sub: nat, f: UidBuilder)
    ensures UidSum(AddTo(uids, ranges, sub), f) == UidSum(uids, f) + RangeSum(ranges, sub, f)
  {
    var uids', had := AddTo(uids, ranges, sub), RangesAt(uids, sub);
    UidSumAt(uids, sub, f);
    UidSumAt(uids', sub, f);
    assert uids' - {sub} == uids - {sub};
    MergeMultiset(had, ranges);
    SumSeqMerge(Merge(had, ranges), RangeFn(sub, f), had, ranges);
  }

  lemma RemoveFromSum(uids: UidRangeMap, ranges: seq<UidRange>, sub: nat, f: UidBuilder)
    requires Sorted(RangesAt(uids, sub)) && Sorted(ranges)
    requires multiset(ranges) <= multiset(RangesAt(uids, sub))
    ensures UidSum(uids, f) == UidSum(RemoveFrom(uids, ranges, sub), f) + RangeSum(ranges, sub, f)
  {
    hide Sorted, Difference, UidSum;
    var uids', had := RemoveFrom(uids, ranges, sub), RangesAt(uids, sub);
    var left := Difference(had, ranges);
    DifferenceMultiset(had, ranges);
    if sub !in uids {
      DifferenceEmpty(ranges);
    }
    UidSumAt(uids, sub, f);
    UidSumAt(uids', sub, f);
    assert uids' - {sub} == uids - {sub};
    assert RangesAt(uids', sub) == left;
    SumSeqMerge(had, RangeFn(sub, f), left, ranges);
  }

  lemma OneSubSum(ranges: seq<UidRange>, sub: nat, f: UidBuilder)
    ensures UidSum(map[sub := ranges], f) == RangeSum(ranges, sub, f)
  {
    UidSumAt(map[sub := ranges], sub, f);
    assert map[sub := ranges] - {sub} == map[];
  }

  /** Replacing one network changes the expected entries by the difference of its own. */
  lemma ReplaceNetwork(nets: Networks, n: NetId, net': Network, tabs: Tables)
    requires n in nets
    ensures Sum(nets.Keys, NetworkFn(nets, tabs)) + NetworkEntries(n, net', tabs)
         == Sum(nets[n := net'].Keys, NetworkFn(nets[n := net'], tabs)) + NetworkEntries(n, nets[n], tabs)
  {
    assert nets[n := net'].Keys == nets.Keys;
    SumUpdate(nets.Keys, NetworkFn(nets, tabs), NetworkFn(nets[n := net'], tabs), n);
  }

  lemma InsertNetwork(nets: Networks, n: NetId, net: Network, tabs: Tables)
    requires n !in nets
    ensures Sum(nets[n := net].Keys, NetworkFn(nets[n := net], tabs))
         == Sum(nets.Keys, NetworkFn(nets, tabs)) + NetworkEntries(n, net, tabs)
  {
    var nets' := nets[n := net];
    assert nets'.Keys == nets.Keys + {n};
    SumInsert(nets.Keys, NetworkFn(nets', tabs), n);
    SumCongruence(nets.Keys, NetworkFn(nets, tabs), NetworkFn(nets', tabs));
  }

  lemma EraseNetwork(nets: Networks, n: NetId, tabs: Tables)
    requires n in nets
    ensures Sum(nets.Keys, NetworkFn(nets, tabs))
         == Sum((nets - {n}).Keys, NetworkFn(nets - {n}, tabs)) + NetworkEntries(n, nets[n], tabs)
  {
    var rest := nets - {n};
    assert rest[n := nets[n]] == nets;
    InsertNetwork(rest, n, nets[n], tabs);
  }

  /** Only the tables of interfaces that belong to networks matter. */
  lemma SameTables(nets: Networks, d: NetId, tabs: Tables, tabs': Tables, fixed: multiset<Entry>)
    requires forall n, i :: n in nets && i in nets[n].ifaces && HasInterfaceTables(nets[n].kind) ==>
               TableOf(tabs, i) == TableOf(tabs', i)
    ensures Expected(nets, d, tabs, fixed) == Expected(nets, d, tabs', fixed)
  {
    forall n | n in nets
      ensures NetworkFn(nets, tabs)(n) == NetworkFn(nets, tabs')(n)
    {
      var net := nets[n];
      SumCongruence(net.ifaces, IfaceFn(n, net, tabs), IfaceFn(n, net, tabs'));
    }
    SumCongruence(nets.Keys, NetworkFn(nets, tabs), NetworkFn(nets, tabs'));
    if d in nets && nets[d].kind.Physical? {
      var vpns, permission := Vpns(nets), nets[d].kind.permission;
      SumCongruence(nets[d].ifaces, DefaultFn(vpns, tabs, permission), DefaultFn(vpns, tabs', permission));
    }
  }

  ghost function LinkFn(vpn: NetId, tabs: Tables, permission: Permission): string -> multiset<Entry> {
    i => multiset(FallthroughRequests(vpn, TableOf(tabs, i), permission))
  }

  /** A further VPN adds one fallthrough and one exclusion rule per interface of the default network. */
  lemma AddVpn(ifaces: set<string>, vpns: set<NetId>, vpn: NetId, tabs: Tables, permission: Permission)
    requires vpn !in vpns
    ensures DefaultEntries(ifaces, vpns + {vpn}, tabs, permission)
         == DefaultEntries(ifaces, vpns, tabs, permission) + Sum(ifaces, LinkFn(vpn, tabs, permission))
  {
    forall i | i in ifaces
      ensures DefaultFn(vpns + {vpn}, tabs, permission)(i)
           == DefaultFn(vpns, tabs, permission)(i) + LinkFn(vpn, tabs, permission)(i)
    {
      SumInsert(vpns, FallthroughFn(TableOf(tabs, i), permission), vpn);
    }
    SumSplit(ifaces, DefaultFn(vpns + {vpn}, tabs, permission), DefaultFn(vpns, tabs, permission),
             LinkFn(vpn, tabs, permission));
  }
}
