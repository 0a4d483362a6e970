/** Where an expected entry comes from, and how often it is expected. */
module RuleMembers {
  import opened Fwmarks
  import opened IpRules
  import opened UidRangeLists
  import opened Sums
  import opened RuleSet
  import opened RouteControllers
  import opened NetworkStates

  // ---- membership -------------------------------------------------------------------------------

  ghost predicate FromUid(e: Entry, uids: UidRangeMap, f: UidBuilder) {
    exists sub, r :: sub in uids && r in uids[sub] && e in f(sub, r)
  }

  ghost predicate FromIface(e: Entry, n: NetId, net: Network, i: string, t: nat) {
    match net.kind
    case Physical(permission, _, local) =>
      e in PhysicalRequests(n, i, t, permission, local) || FromUid(e, net.uids, PhysicalUids(n, t))
    case Virtual(secure, excludeLocal) =>
      || e in VirtualRequests(n, i, t, secure, excludeLocal)
      || FromUid(e, net.uids, VirtualUids(n, i, t, secure, excludeLocal))
    case Local => e in LocalRequests(i)
    case Dummy => false
    case UnreachableKind => false
  }

  ghost predicate FromNetwork(e: Entry, n: NetId, net: Network, tabs: Tables) {
    if net.kind.UnreachableKind? then FromUid(e, net.uids, UnreachableUids(n))
    else exists i :: i in net.ifaces && FromIface(e, n, net, i, TableOf(tabs, i))
  }

  ghost predicate FromDefaultIface(e: Entry, vpns: set<NetId>, t: nat, permission: Permission) {
    || e == DefaultNetwork(t, permission)
    || exists v :: v in vpns && e in FallthroughRequests(v, t, permission)
  }

  ghost predicate FromDefault(e: Entry, nets: Networks, d: NetId, tabs: Tables) {
    && d in nets && nets[d].kind.Physical?
    && exists i :: i in nets[d].ifaces && FromDefaultIface(e, Vpns(nets), TableOf(tabs, i), nets[d].kind.permission)
  }

  lemma UidSumMember(uids: UidRangeMap, f: UidBuilder, e: Entry)
    ensures e in UidSum(uids, f) <==> FromUid(e, uids, f)
  {
    if e in UidSum(uids, f) {
      var sub := SumMember(uids.Keys, SubFn(uids, f), e);
      var r := SumSeqMember(uids[sub], RangeFn(sub, f), e);
    }
    if FromUid(e, uids, f) {
      var sub, r :| sub in uids && r in uids[sub] && e in f(sub, r);
      SumIncludes(uids.Keys, SubFn(uids, f), sub);
      SumSeqIncludes(uids[sub], RangeFn(sub, f), r);
      assert e in RangeFn(sub, f)(r);
    }
  }

  lemma IfaceMember(n: NetId, net: Network, i: string, t: nat, e: Entry)
    ensures e in IfaceEntries(n, net, i, t) <==> FromIface(e, n, net, i, t)
  {
    hide UidSum, FromUid, PhysicalRequests, VirtualRequests, LocalRequests;
    match net.kind
    case Physical(permission, _, local) => UidSumMember(net.uids, PhysicalUids(n, t), e);
    case Virtual(secure, excludeLocal) => UidSumMember(net.uids, VirtualUids(n, i, t, secure, excludeLocal), e);
    case _ =>
  }

  lemma NetworkMember(n: NetId, net: Network, tabs: Tables, e: Entry)
    ensures e in NetworkEntries(n, net, tabs) <==> FromNetwork(e, n, net, tabs)
  {
    hide UidSum, FromUid, IfaceEntries, FromIface;
    if net.kind.UnreachableKind? {
      UidSumMember(net.uids, UnreachableUids(n), e);
    } else {
      if e in NetworkEntries(n, net, tabs) {
        var i := SumMember(net.ifaces, IfaceFn(n, net, tabs), e);
        IfaceMember(n, net, i, TableOf(tabs, i), e);
      }
      if FromNetwork(e, n, net, tabs) {
        var i :| i in net.ifaces && FromIface(e, n, net, i, TableOf(tabs, i));
        IfaceMember(n, net, i, TableOf(tabs, i), e);
        SumIncludes(net.ifaces, IfaceFn(n, net, tabs), i);
        assert e in IfaceFn(n, net, tabs)(i);
      }
    }
  }

  lemma DefaultIfaceMember(vpns: set<NetId>, t: nat, permission: Permission, e: Entry)
    ensures e in DefaultIfaceEntries(vpns, t, permission) <==> FromDefaultIface(e, vpns, t, permission)
  {
    hide FallthroughRequests, DefaultNetwork;
    if e in Sum(vpns, FallthroughFn(t, permission)) {
      var v := SumMember(vpns, FallthroughFn(t, permission), e);
    }
    if v :| v in vpns && e in FallthroughRequests(v, t, permission) {
      SumIncludes(vpns, FallthroughFn(t, permission), v);
      assert e in FallthroughFn(t, permission)(v);
    }
  }

  lemma DefaultMember(nets: Networks, d: NetId, tabs: Tables, e: Entry)
    ensures e in DefaultAt(nets, d, tabs) <==> FromDefault(e, nets, d, tabs)
  {
    hide DefaultIfaceEntries, FromDefaultIface;
    if d in nets && nets[d].kind.Physical? {
      var ifaces, fn := nets[d].ifaces, DefaultFn(Vpns(nets), tabs, nets[d].kind.permission);
      if e in DefaultAt(nets, d, tabs) {
        var i := SumMember(ifaces, fn, e);
        DefaultIfaceMember(Vpns(nets), TableOf(tabs, i), nets[d].kind.permission, e);
      }
      if i :| i in ifaces && FromDefaultIface(e, Vpns(nets), TableOf(tabs, i), nets[d].kind.permission) {
        DefaultIfaceMember(Vpns(nets), TableOf(tabs, i), nets[d].kind.permission, e);
        SumIncludes(ifaces, fn, i);
        assert e in fn(i);
      }
    }
  }

  /** The three origins of an expected entry. */
  lemma ExpectedMember(nets: Networks, d: NetId, tabs: Tables, fixed: multiset<Entry>, e: Entry)
    ensures e in Expected(nets, d, tabs, fixed) <==>
            e in fixed || (exists n :: n in nets && FromNetwork(e, n, nets[n], tabs)) || FromDefault(e, nets, d, tabs)
  {
    hide NetworkEntries, FromNetwork, DefaultAt, FromDefault;
    DefaultMember(nets, d, tabs, e);
    if e in Sum(nets.Keys, NetworkFn(nets, tabs)) {
      var n := SumMember(nets.Keys, NetworkFn(nets, tabs), e);
      NetworkMember(n, nets[n], tabs, e);
    }
    if n :| n in nets && FromNetwork(e, n, nets[n], tabs) {
      NetworkMember(n, nets[n], tabs, e);
      SumIncludes(nets.Keys, NetworkFn(nets, tabs), n);
      assert e in NetworkFn(nets, tabs)(n);
    }
  }

  // ---- the shapes of requests -----------------------------------------------------------------------

  lemma PhysicalCases(n: NetId, i: string, t: nat, p: Permission, local: bool, e: Entry)
    requires e in PhysicalRequests(n, i, t, p, local)
    ensures e == Incoming(n, i, p) || e == ExplicitNetwork(n, t, p, AllUids, 0)
         || (local && (e == LocalNetworkRule(t) || e == ExplicitNetwork(LOCAL_NET_ID, t, PERMISSION_NONE, AllUids, 0)))
         || e == OifOverride(i, t) || e == OutputInterface(i, t, p, AllUids, 0)
         || (p == PERMISSION_NONE && e == ImplicitNetwork(n, t))
  {}

  lemma PhysicalUidCases(n: NetId, t: nat, sub: nat, r: UidRange, e: Entry)
    requires e in PhysicalUidRequests(n, t, sub, r)
    ensures var uids := StrictUids(r);
      || e == UidNetwork(n, t, uids, sub, true) || e == UidNetwork(n, t, uids, sub, false)
      || (sub != SUB_PRIORITY_NO_DEFAULT
          && (e == UidDefaultNetwork(t, uids, sub) || e == UidLocalNetwork(LocalTable(t), uids)))
  {}

  lemma VirtualCases(n: NetId, i: string, t: nat, secure: bool, excludeLocal: bool, e: Entry)
    requires e in VirtualRequests(n, i, t, secure, excludeLocal)
    ensures e == Incoming(n, i, PERMISSION_NONE) || e == VpnOutputToLocal(i)
      || e == VpnSystem(n, t, secure, excludeLocal)
         || e == ExplicitNetwork(n, t, PERMISSION_NONE, Span(0, 0), 0)
  {}

  lemma VirtualUidCases(n: NetId, i: string, t: nat, secure: bool, excludeLocal: bool, sub: nat, r: UidRange, e: Entry)
    requires e in VirtualUidRequests(n, i, t, secure, excludeLocal, sub, r)
    ensures var uids := LooseUids(r);
      || e == VpnUidRange(t, uids, sub, secure, excludeLocal) || e == ExplicitNetwork(n, t, PERMISSION_NONE, uids, sub)
      || (uids.AllUids? && e == OifOverride(i, t)) || e == OutputInterface(i, t, PERMISSION_NONE, uids, sub)
  {}

  lemma LocalCases(i: string, e: Entry)
    requires e in LocalRequests(i)
    ensures e == Incoming(LOCAL_NET_ID, i, PERMISSION_NONE) || e == OifOverride(i, TABLE_LOCAL_NETWORK)
         || e == OutputInterface(i, TABLE_LOCAL_NETWORK, PERMISSION_NONE, AllUids, 0)
  {}

  /** The origins of an entry, spelled out for one network. */
  ghost predicate NetworkCase(e: Entry, n: NetId, net: Network, tabs: Tables, i: string, sub: nat, r: UidRange) {
    var t := TableOf(tabs, i);
    match net.kind
    case Physical(p, _, local) =>
      i in net.ifaces && (e in PhysicalRequests(n, i, t, p, local)
                          || (sub in net.uids && r in net.uids[sub] && e in PhysicalUidRequests(n, t, sub, r)))
    case Virtual(secure, excludeLocal) =>
      i in net.ifaces && (e in VirtualRequests(n, i, t, secure, excludeLocal)
                          || (sub in net.uids && r in net.uids[sub]
                              && e in VirtualUidRequests(n, i, t, secure, excludeLocal, sub, r)))
    case Local => i in net.ifaces && e in LocalRequests(i)
    case Dummy => false
    case UnreachableKind => sub in net.uids && r in net.uids[sub] && e in UnreachableUidRequests(n, sub, r)
  }

  lemma NetworkOrigin(e: Entry, n: NetId, net: Network, tabs: Tables) returns (i: string, sub: nat, r: UidRange)
    requires FromNetwork(e, n, net, tabs)
    ensures NetworkCase(e, n, net, tabs, i, sub, r)
  {
    hide PhysicalRequests, VirtualRequests, LocalRequests, PhysicalUidRequests, VirtualUidRequests;
    hide UnreachableUidRequests;
    i, sub, r := "", 0, UidRange(0, 0);
    if !net.kind.UnreachableKind? {
      i :| i in net.ifaces && FromIface(e, n, net, i, TableOf(tabs, i));
    }
    var f := Builder(n, net.kind, i, TableOf(tabs, i));
    if FromUid(e, net.uids, f) {
      sub, r :| sub in net.uids && r in net.uids[sub] && e in f(sub, r);
    }
  }

  // ---- counting -----------------------------------------------------------------------------------

  lemma StrictInjective(a: UidRange, b: UidRange)
    requires a != b && !StrictUids(a).Refused?
    ensures StrictUids(a) != StrictUids(b)
  {}

  lemma LooseInjective(a: UidRange, b: UidRange)
    requires a != b && !LooseUids(a).Refused?
    ensures LooseUids(a) != LooseUids(b)
  {}

  /** One rule per range that no other rule of the same interface equals. */
  function Marker(n: NetId, kind: Kind, t: nat, sub: nat, r: UidRange): Entry {
    match kind
    case Physical(_, _, _) => UidNetwork(n, t, StrictUids(r), sub, true)
    case Virtual(secure, excludeLocal) => VpnUidRange(t, LooseUids(r), sub, secure, excludeLocal)
    case _ => UidUnreachable(n, StrictUids(r), sub, true)
  }

  function Builder(n: NetId, kind: Kind, i: string, t: nat): UidBuilder {
    match kind
    case Physical(_, _, _) => PhysicalUids(n, t)
    case Virtual(secure, excludeLocal) => VirtualUids(n, i, t, secure, excludeLocal)
    case _ => UnreachableUids(n)
  }

  lemma MarkerOnce(n: NetId, kind: Kind, i: string, t: nat, sub: nat, r: UidRange)
    ensures multiset(Builder(n, kind, i, t)(sub, r))[Marker(n, kind, t, sub, r)] == 1
  {
    var list, e := Builder(n, kind, i, t)(sub, r), Marker(n, kind, t, sub, r);
    assert list[0] == e;
    forall k | 0 < k < |list|
      ensures list[k] != e
    {}
    FirstOnce(list);
  }

  lemma FirstOnce(list: seq<Entry>)
    requires list != [] && list[0] !in list[1..]
    ensures multiset(list)[list[0]] == 1
  {
    assert list == [list[0]] + list[1..];
  }

  lemma MarkerElsewhere(n: NetId, kind: Kind, i: string, t: nat, sub: nat, r: UidRange, sub': nat, r': UidRange)
    requires Sendable(Marker(n, kind, t, sub, r)) && sub < 1000 && sub' < 1000 && (sub' != sub || r' != r)
    ensures Marker(n, kind, t, sub, r) !in Builder(n, kind, i, t)(sub', r')
  {
    if r' != r && !kind.Virtual? {
      StrictInjective(r, r');
    }
    if r' != r && kind.Virtual? {
      LooseInjective(r, r');
    }
  }

  lemma MarkerRangeCount(n: NetId, kind: Kind, i: string, t: nat, ranges: seq<UidRange>, sub: nat, r: UidRange)
    requires Sendable(Marker(n, kind, t, sub, r)) && sub < 1000
    ensures RangeSum(ranges, sub, Builder(n, kind, i, t))[Marker(n, kind, t, sub, r)] == multiset(ranges)[r]
  {
    hide Marker, Builder;
    var e, f := Marker(n, kind, t, sub, r), Builder(n, kind, i, t);
    MarkerOnce(n, kind, i, t, sub, r);
    forall r' | r' in ranges && r' != r
      ensures e !in RangeFn(sub, f)(r')
    {
      MarkerElsewhere(n, kind, i, t, sub, r, sub, r');
    }
    SumSeqCount(ranges, RangeFn(sub, f), r, e);
  }

  /** A uid map's rules hold a range's marker as often as the range is listed at that subpriority. */
  lemma MarkerUidCount(n: NetId, kind: Kind, i: string, t: nat, uids: UidRangeMap, sub: nat, r: UidRange)
    requires Sendable(Marker(n, kind, t, sub, r)) && sub < 1000 && forall s :: s in uids ==> s < 1000
    ensures UidSum(uids, Builder(n, kind, i, t))[Marker(n, kind, t, sub, r)] == multiset(RangesAt(uids, sub))[r]
  {
    hide Marker, Builder;
    var e, f := Marker(n, kind, t, sub, r), Builder(n, kind, i, t);
    forall s | s in uids && s != sub
      ensures e !in SubFn(uids, f)(s)
    {
      if e in SubFn(uids, f)(s) {
        var r' := SumSeqMember(uids[s], RangeFn(s, f), e);
        MarkerElsewhere(n, kind, i, t, sub, r, s, r');
      }
    }
    MarkerRangeCount(n, kind, i, t, RangesAt(uids, sub), sub, r);
    if sub in uids {
      SumCount(uids.Keys, SubFn(uids, f), sub, e);
    } else if e in UidSum(uids, f) {
      var s := SumMember(uids.Keys, SubFn(uids, f), e);
    }
  }

  lemma MarkerNotFixed(nets: Networks, tabs: Tables, fixed: multiset<Entry>, n: NetId, kind: Kind, t: nat, sub: nat,
                       r: UidRange)
    requires FixedOk(nets, tabs, fixed) && sub < 1000
    ensures Marker(n, kind, t, sub, r) !in fixed
  {
    var e := Marker(n, kind, t, sub, r);
    assert e.priority == 13000 + sub || e.priority == 24000 + sub || e.priority == 27000 + sub
      || e.priority == 15000 + sub;
  }

  lemma MarkerNotDefault(nets: Networks, d: NetId, tabs: Tables, n: NetId, kind: Kind, t: nat, sub: nat, r: UidRange)
    requires sub < 1000
    ensures Marker(n, kind, t, sub, r) !in DefaultAt(nets, d, tabs)
  {
    hide DefaultAt;
    var e := Marker(n, kind, t, sub, r);
    assert e.priority < 16000 || 24000 <= e.priority < 25000 || 27000 <= e.priority < 28000;
    DefaultMember(nets, d, tabs, e);
  }

  /** No other interface, and no other network, asks for a rule equal to a marker. */
  lemma MarkerForeign(n: NetId, kind: Kind, t: nat, sub: nat, r: UidRange, m: NetId, net: Network, j: string, t': nat)
    requires NetworkOk(m, net) && ValidSubPriority(kind, sub)
    requires kind.Physical? ==> m != n || t' != t
    requires kind.Virtual? ==> t' != t
    ensures !FromIface(Marker(n, kind, t, sub, r), m, net, j, t')
  {
    var e := Marker(n, kind, t, sub, r);
    match net.kind
    case Physical(permission, _, local) =>
      assert e !in PhysicalRequests(m, j, t', permission, local);
      forall s, r' | s in net.uids && r' in net.uids[s]
        ensures e !in PhysicalUids(m, t')(s, r')
      {}
    case Virtual(secure, excludeLocal) =>
      assert e !in VirtualRequests(m, j, t', secure, excludeLocal);
      forall s, r' | s in net.uids && r' in net.uids[s]
        ensures e !in VirtualUids(m, j, t', secure, excludeLocal)(s, r')
      {}
    case _ =>
  }

  lemma MarkerNotInRequests(n: NetId, kind: Kind, t: nat, sub: nat, r: UidRange, i: string, permission: Permission,
                            local: bool,
                            secure: bool, excludeLocal: bool)
    requires sub < 1000
    ensures Marker(n, kind, t, sub, r) !in PhysicalRequests(n, i, t, permission, local)
    ensures Marker(n, kind, t, sub, r) !in VirtualRequests(n, i, t, secure, excludeLocal)
  {}

  /** The owner of a marker: the interface `i` of network `n`, or the unreachable network itself. */
  ghost predicate Owns(nets: Networks, n: NetId, i: string, sub: nat) {
    && n in nets && ValidSubPriority(nets[n].kind, sub)
    && (nets[n].kind.UnreachableKind? || i in nets[n].ifaces)
  }

  lemma MarkerNetworkCount(nets: Networks, tabs: Tables, ifindex: map<string, nat>, n: NetId, i: string, sub: nat,
                           r: UidRange)
    requires NetworksOk(nets) && CacheOk(nets, tabs) && TablesOk(tabs, ifindex) && Owns(nets, n, i, sub)
    requires Sendable(Marker(n, nets[n].kind, TableOf(tabs, i), sub, r))
    ensures NetworkEntries(n, nets[n], tabs)[Marker(n, nets[n].kind, TableOf(tabs, i), sub, r)]
         == multiset(RangesAt(nets[n].uids, sub))[r]
  {
    hide Marker, Builder, UidSum, PhysicalRequests, VirtualRequests, FromIface, Sendable;
    var net, t := nets[n], TableOf(tabs, i);
    var e := Marker(n, net.kind, t, sub, r);
    MarkerUidCount(n, net.kind, i, t, net.uids, sub, r);
    BuilderOf(n, net.kind, i, t);
    if !net.kind.UnreachableKind? {
      forall j | j in net.ifaces && j != i
        ensures e !in IfaceFn(n, net, tabs)(j)
      {
        MarkerForeign(n, net.kind, t, sub, r, n, net, j, TableOf(tabs, j));
        IfaceMember(n, net, j, TableOf(tabs, j), e);
      }
      SumCount(net.ifaces, IfaceFn(n, net, tabs), i, e);
      MarkerNotInRequests(n, net.kind, t, sub, r, i,
                          if net.kind.Physical? then net.kind.permission else PERMISSION_NONE,
                          net.kind.Physical? && net.kind.local,
                          net.kind.Virtual? && net.kind.secure, net.kind.Virtual? && net.kind.excludeLocal);
    }
  }

  lemma BuilderOf(n: NetId, kind: Kind, i: string, t: nat)
    ensures kind.Physical? ==> Builder(n, kind, i, t) == PhysicalUids(n, t)
    ensures kind.Virtual? ==> Builder(n, kind, i, t) == VirtualUids(n, i, t, kind.secure, kind.excludeLocal)
    ensures kind.UnreachableKind? ==> Builder(n, kind, i, t) == UnreachableUids(n)
  {}

  /**
   * The state calls for a range's marker exactly as often as the range is listed, so a kernel that
   * agrees with the state can give up a range only if the state has it.
   */
  lemma MarkerExpectedCount(nets: Networks, d: NetId, tabs: Tables, ifindex: map<string, nat>, fixed: multiset<Entry>,
                            n: NetId, i: string, sub: nat, r: UidRange)
    requires NetworksOk(nets) && CacheOk(nets, tabs) && TablesOk(tabs, ifindex) && FixedOk(nets, tabs, fixed)
    requires Owns(nets, n, i, sub)
    requires Sendable(Marker(n, nets[n].kind, TableOf(tabs, i), sub, r))
    ensures Expected(nets, d, tabs, fixed)[Marker(n, nets[n].kind, TableOf(tabs, i), sub, r)]
         == multiset(RangesAt(nets[n].uids, sub))[r]
  {
    hide Marker, NetworkEntries, DefaultAt, FromIface, FixedOk, Sendable;
    var net, t := nets[n], TableOf(tabs, i);
    var e := Marker(n, net.kind, t, sub, r);
    MarkerNetworkCount(nets, tabs, ifindex, n, i, sub, r);
    MarkerNotFixed(nets, tabs, fixed, n, net.kind, t, sub, r);
    MarkerNotDefault(nets, d, tabs, n, net.kind, t, sub, r);
    forall m | m in nets && m != n
      ensures e !in NetworkFn(nets, tabs)(m)
    {
      NetworkMember(m, nets[m], tabs, e);
      MarkerNotUnreachable(n, net.kind, t, sub, r, m, nets[m].uids);
      forall j | j in nets[m].ifaces
        ensures !FromIface(e, m, nets[m], j, TableOf(tabs, j))
      {
        ForeignTables(nets, tabs, ifindex, n, i, m, j);
        if !HasInterfaceTables(nets[m].kind) {
          MarkerNotLocal(n, net.kind, t, sub, r, m, nets[m], j, TableOf(tabs, j));
        } else {
          MarkerForeign(n, net.kind, t, sub, r, m, nets[m], j, TableOf(tabs, j));
        }
      }
    }
    SumCount(nets.Keys, NetworkFn(nets, tabs), n, e);
  }

  lemma ForeignTables(nets: Networks, tabs: Tables, ifindex: map<string, nat>, n: NetId, i: string, m: NetId, j: string)
    requires NetworksOk(nets) && CacheOk(nets, tabs) && TablesOk(tabs, ifindex)
    requires n in nets && m in nets && n != m && j in nets[m].ifaces
    requires nets[n].kind.UnreachableKind? || i in nets[n].ifaces
    ensures HasInterfaceTables(nets[n].kind) && HasInterfaceTables(nets[m].kind) ==>
      TableOf(tabs, i) != TableOf(tabs, j)
  {}

  lemma MarkerNotUnreachable(n: NetId, kind: Kind, t: nat, sub: nat, r: UidRange, m: NetId, uids: UidRangeMap)
    requires sub < 1000 && n != m && ValidSubPriority(kind, sub)
    ensures !FromUid(Marker(n, kind, t, sub, r), uids, UnreachableUids(m))
  {}

  lemma MarkerNotLocal(n: NetId, kind: Kind, t: nat, sub: nat, r: UidRange, m: NetId, net: Network, j: string, t': nat)
    requires !HasInterfaceTables(net.kind) && sub < 1000
    ensures !FromIface(Marker(n, kind, t, sub, r), m, net, j, t')
  {}
}
