/** In agreement with the kernel, everything an operation has to delete is there to be deleted. */
module Progress {
  import opened Fwmarks
  import opened IpRules
  import opened UidRangeLists
  import opened Sums
  import opened RuleSet
  import opened RouteControllers
  import opened NetworkStates
  import opened RuleMembers
  import opened SyncSteps
  import opened RoutingTheorems

  lemma CanDrop(rules: multiset<Entry>, m: multiset<Entry>)
    requires AllSendable(rules) && m <= rules
    ensures CanApply(rules, m, false)
  {
    forall e | e in m
      ensures Sendable(e)
    {
      assert e in rules;
    }
  }

  lemma DefaultRuleSendable(e: Entry, vpns: set<NetId>, t: nat, permission: Permission)
    requires FromDefaultIface(e, vpns, t, permission)
    ensures Sendable(e)
  {}

  /** Entries of being the default network never fail a check. */
  lemma DefaultSendable(nets: Networks, n: NetId, tabs: Tables, r0: multiset<Entry>)
    ensures CanApply(r0, DefaultAt(nets, n, tabs), true)
  {
    hide DefaultAt, FromDefaultIface, Sendable, Vpns;
    forall e | e in DefaultAt(nets, n, tabs)
      ensures Sendable(e)
    {
      DefaultMember(nets, n, tabs, e);
      var i :| i in nets[n].ifaces && FromDefaultIface(e, Vpns(nets), TableOf(tabs, i), nets[n].kind.permission);
      DefaultRuleSendable(e, Vpns(nets), TableOf(tabs, i), nets[n].kind.permission);
    }
  }

  lemma DefaultIfaceSendable(vpns: set<NetId>, t: nat, permission: Permission, r0: multiset<Entry>)
    ensures CanApply(r0, DefaultIfaceEntries(vpns, t, permission), true)
  {
    hide DefaultIfaceEntries, FromDefaultIface, Sendable;
    forall e | e in DefaultIfaceEntries(vpns, t, permission)
      ensures Sendable(e)
    {
      DefaultIfaceMember(vpns, t, permission, e);
      DefaultRuleSendable(e, vpns, t, permission);
    }
  }

  lemma OwnNotTethering(e: Entry, n: NetId, net: Network, t: nat, i: string, sub: nat, r: UidRange)
    requires NetworkOk(n, net) && OwnShape(e, n, net, t, i, sub, r)
    ensures !IsTethering(e)
  {}

  lemma FixedNotTethering(e: Entry, t: nat)
    requires FixedShape(e, t)
    ensures !IsTethering(e)
  {}

  /** Nothing that is expected lies in the tethering band. */
  lemma ExpectedNotTethering(nets: Networks, d: NetId, tabs: Tables, fixed: multiset<Entry>, e: Entry)
    requires NetworksOk(nets) && FixedOk(nets, tabs, fixed) && e in Expected(nets, d, tabs, fixed)
    ensures !IsTethering(e)
  {
    ExpectedMember(nets, d, tabs, fixed, e);
    hide Expected, FixedOk, FixedShape, OwnShape, FromNetwork, IsTethering, NetworkOk;
    if e in fixed {
      var t := FixedOrigin(nets, tabs, fixed, e);
      FixedNotTethering(e, t);
    } else if n :| n in nets && FromNetwork(e, n, nets[n], tabs) {
      var i, sub, r := OwnOrigin(e, n, nets[n], tabs);
      OwnNotTethering(e, n, nets[n], TableOf(tabs, i), i, sub, r);
    } else {
      DefaultNotTethering(nets, d, tabs, e);
    }
  }

  lemma DefaultNotTethering(nets: Networks, d: NetId, tabs: Tables, e: Entry)
    requires FromDefault(e, nets, d, tabs)
    ensures !IsTethering(e)
  {}

  /** Every part of what is expected is in the kernel. */
  lemma PartInstalled(nets: Networks, d: NetId, tabs: Tables, fixed: multiset<Entry>, rules: multiset<Entry>,
                      m: multiset<Entry>)
    requires LOCAL_NET_ID in nets && NetworksOk(nets) && Synced(nets, d, tabs, fixed, rules)
    requires m <= Expected(nets, d, tabs, fixed)
    ensures m <= rules
  {
    hide NetworksOk, FixedOk, FlagsOk, CacheOk, Expected;
    forall e
      ensures m[e] <= rules[e]
    {
      if e in m {
        ExpectedNotTethering(nets, d, tabs, fixed, e);
      }
    }
  }

  lemma IfaceExpected(nets: Networks, d: NetId, n: NetId, i: string, tabs: Tables, fixed: multiset<Entry>)
    requires n in nets && i in nets[n].ifaces && !nets[n].kind.UnreachableKind?
    ensures IfaceGain(nets, d, n, i, TableOf(tabs, i)) <= Expected(nets, d, tabs, fixed)
  {
    hide IfaceEntries, DefaultIfaceEntries;
    SumIncludes(nets.Keys, NetworkFn(nets, tabs), n);
    SumIncludes(nets[n].ifaces, IfaceFn(n, nets[n], tabs), i);
    if n == d && nets[n].kind.Physical? {
      SumIncludes(nets[n].ifaces, DefaultFn(Vpns(nets), tabs, nets[n].kind.permission), i);
    }
  }

  /** All entries of an interface, its part in the default network included, can be deleted. */
  lemma IfaceInstalled(nets: Networks, d: NetId, n: NetId, i: string, tabs: Tables, fixed: multiset<Entry>,
                       rules: multiset<Entry>)
    requires LOCAL_NET_ID in nets && NetworksOk(nets) && Synced(nets, d, tabs, fixed, rules)
    requires n in nets && i in nets[n].ifaces && !nets[n].kind.UnreachableKind?
    ensures IfaceGain(nets, d, n, i, TableOf(tabs, i)) <= rules
  {
    hide NetworksOk, Synced, IfaceGain, Expected;
    IfaceExpected(nets, d, n, i, tabs, fixed);
    PartInstalled(nets, d, tabs, fixed, rules, IfaceGain(nets, d, n, i, TableOf(tabs, i)));
  }

  /** All rules that tie a VPN to the default network can be deleted. */
  lemma LinkInstalled(nets: Networks, d: NetId, vpn: NetId, tabs: Tables, fixed: multiset<Entry>,
                      rules: multiset<Entry>)
    requires LOCAL_NET_ID in nets && NetworksOk(nets) && Synced(nets, d, tabs, fixed, rules)
    requires vpn in nets && nets[vpn].kind.Virtual?
    ensures LinkAt(nets, d, vpn, tabs) <= rules
  {
    hide NetworksOk, Synced;
    LinkExpected(nets, d, vpn, tabs, fixed);
    PartInstalled(nets, d, tabs, fixed, rules, LinkAt(nets, d, vpn, tabs));
  }

  lemma LinkExpected(nets: Networks, d: NetId, vpn: NetId, tabs: Tables, fixed: multiset<Entry>)
    requires vpn in nets && nets[vpn].kind.Virtual?
    ensures LinkAt(nets, d, vpn, tabs) <= Expected(nets, d, tabs, fixed)
  {
    if d in nets && nets[d].kind.Physical? {
      var rest := Vpns(nets) - {vpn};
      assert rest + {vpn} == Vpns(nets);
      AddVpn(nets[d].ifaces, rest, vpn, tabs, nets[d].kind.permission);
    }
  }

  lemma LinkSendable(nets: Networks, d: NetId, vpn: NetId, tabs: Tables, r0: multiset<Entry>)
    ensures CanApply(r0, LinkAt(nets, d, vpn, tabs), true)
  {
    forall e | e in LinkAt(nets, d, vpn, tabs)
      ensures Sendable(e)
    {
      var i := SumMember(nets[d].ifaces, LinkFn(vpn, tabs, nets[d].kind.permission), e);
    }
  }

  // ---- requests that pass their checks ------------------------------------------------------------------

  /** A range whose rules pass their checks in a network of this kind. */
  predicate GoodRange(kind: Kind, r: UidRange) {
    !(if kind.Virtual? then LooseUids(r) else StrictUids(r)).Refused?
  }

  predicate GoodUids(net: Network) {
    forall sub, r :: sub in net.uids && r in net.uids[sub] ==> GoodRange(net.kind, r)
  }

  lemma OwnSendable(e: Entry, n: NetId, net: Network, t: nat, i: string, sub: nat, r: UidRange)
    requires OwnShape(e, n, net, t, i, sub, r) && GoodUids(net)
    requires net.kind.UnreachableKind? || |i| < IFNAMSIZ
    ensures Sendable(e)
  {
    if sub in net.uids && r in net.uids[sub] {
      assert GoodRange(net.kind, r);
    }
  }

  lemma NetworkSendable(n: NetId, net: Network, tabs: Tables, e: Entry)
    requires GoodUids(net) && (forall i :: i in net.ifaces ==> |i| < IFNAMSIZ) && e in NetworkEntries(n, net, tabs)
    ensures Sendable(e)
  {
    hide NetworkEntries, FromNetwork, GoodUids, Sendable;
    NetworkMember(n, net, tabs, e);
    var i, sub, r := OwnOrigin(e, n, net, tabs);
    OwnSendable(e, n, net, TableOf(tabs, i), i, sub, r);
  }

  lemma OneIface(n: NetId, net: Network, i: string, t: nat)
    requires !net.kind.UnreachableKind?
    ensures NetworkEntries(n, net.(ifaces := {i}), map[i := t]) == IfaceEntries(n, net, i, t)
  {
    hide UidSum, PhysicalRequests, VirtualRequests, LocalRequests;
    var fn := IfaceFn(n, net.(ifaces := {i}), map[i := t]);
    SumPick({i}, fn, i);
    assert {i} - {i} == {};
  }

  /** The rules of an interface with a proper name pass their checks. */
  lemma IfaceSendable(n: NetId, net: Network, i: string, t: nat, r0: multiset<Entry>)
    requires GoodUids(net) && |i| < IFNAMSIZ && !net.kind.UnreachableKind?
    ensures CanApply(r0, IfaceEntries(n, net, i, t), true)
  {
    hide NetworkEntries, IfaceEntries, Sendable;
    OneIface(n, net, i, t);
    forall e | e in IfaceEntries(n, net, i, t)
      ensures Sendable(e)
    {
      NetworkSendable(n, net.(ifaces := {i}), map[i := t], e);
    }
  }

  lemma NamedOutput(n: NetId, i: string, t: nat, permission: Permission, local: bool)
    ensures OutputInterface(i, t, permission, AllUids, 0) in PhysicalRequests(n, i, t, permission, local)
  {
    hide OutputInterface;
    assert OutputInterfaces(i, t, permission, AllUids, 0)[1] == OutputInterface(i, t, permission, AllUids, 0);
  }

  lemma NamedInput(n: NetId, i: string, t: nat, secure: bool, excludeLocal: bool)
    ensures VpnOutputToLocal(i) in VirtualRequests(n, i, t, secure, excludeLocal)
  {
    assert VirtualRequests(n, i, t, secure, excludeLocal)[1] == VpnOutputToLocal(i);
  }

  /** Some rule of an interface carries its name. */
  lemma NameRule(n: NetId, net: Network, i: string, t: nat) returns (e: Entry)
    requires HasInterfaceTables(net.kind)
    ensures e in IfaceEntries(n, net, i, t) && (Sendable(e) ==> |i| < IFNAMSIZ)
  {
    hide IfaceEntries, PhysicalRequests, VirtualRequests, FromUid;
    if net.kind.Physical? {
      e := OutputInterface(i, t, net.kind.permission, AllUids, 0);
      NamedOutput(n, i, t, net.kind.permission, net.kind.local);
    } else {
      e := VpnOutputToLocal(i);
      NamedInput(n, i, t, net.kind.secure, net.kind.excludeLocal);
    }
    IfaceMember(n, net, i, t, e);
  }

  /** The name of an interface that has rules fits into them. */
  lemma ShortName(nets: Networks, d: NetId, n: NetId, i: string, tabs: Tables, fixed: multiset<Entry>,
                  rules: multiset<Entry>)
    requires LOCAL_NET_ID in nets && NetworksOk(nets) && Synced(nets, d, tabs, fixed, rules) && AllSendable(rules)
    requires n in nets && i in nets[n].ifaces && HasInterfaceTables(nets[n].kind)
    ensures |i| < IFNAMSIZ
  {
    hide NetworksOk, Synced, IfaceEntries, DefaultGain, Sendable;
    IfaceInstalled(nets, d, n, i, tabs, fixed, rules);
    var e := NameRule(n, nets[n], i, TableOf(tabs, i));
    assert e in rules;
  }

  /** The rules of good ranges pass their checks. */
  lemma UsersSendable(nets: Networks, d: NetId, n: NetId, sub: nat, ranges: seq<UidRange>, tabs: Tables,
                      fixed: multiset<Entry>, rules: multiset<Entry>)
    requires LOCAL_NET_ID in nets && NetworksOk(nets) && Synced(nets, d, tabs, fixed, rules) && AllSendable(rules)
    requires n in nets && TakesUsers(nets[n].kind) && forall r :: r in ranges ==> GoodRange(nets[n].kind, r)
    ensures CanApply(rules, UserGain(n, nets[n], sub, ranges, tabs), true)
  {
    hide NetworkEntries, UidSum, RangeSum, UserGain, GoodRange, Sendable, Synced, AllSendable;
    var net := nets[n];
    var none, only := net.(uids := map[]), net.(uids := map[sub := ranges]);
    forall i | i in net.ifaces && !net.kind.UnreachableKind?
      ensures |i| < IFNAMSIZ
    {
      ShortName(nets, d, n, i, tabs, fixed, rules);
    }
    if net.kind.UnreachableKind? {
      NoIfaces(nets, n);
    }
    hide NetworksOk;
    forall f
      ensures UidSum(only.uids, f) == UidSum(none.uids, f) + RangeSum(ranges, sub, f)
    {
      AddToSum(none.uids, ranges, sub, f);
      assert Merge([], ranges) == ranges;
    }
    UsersEntries(n, only, none, sub, ranges, tabs);
    SameUserGain(n, net, none, sub, ranges, tabs);
    forall e | e in UserGain(n, net, sub, ranges, tabs)
      ensures Sendable(e)
    {
      NetworkSendable(n, only, tabs, e);
    }
  }

  lemma NoIfaces(nets: Networks, n: NetId)
    requires NetworksOk(nets) && n in nets && nets[n].kind.UnreachableKind?
    ensures nets[n].ifaces == {}
  {}

  /** The rules of ranges that the network has are there to be deleted. */
  lemma UsersInstalled(nets: Networks, d: NetId, n: NetId, sub: nat, ranges: seq<UidRange>, tabs: Tables,
                       fixed: multiset<Entry>, rules: multiset<Entry>)
    requires LOCAL_NET_ID in nets && NetworksOk(nets) && Synced(nets, d, tabs, fixed, rules)
    requires n in nets && TakesUsers(nets[n].kind) && Sorted(ranges)
    requires multiset(ranges) <= multiset(RangesAt(nets[n].uids, sub))
    ensures UserGain(n, nets[n], sub, ranges, tabs) <= rules
  {
    assert NetworkOk(n, nets[n]);
    assert Sorted(RangesAt(nets[n].uids, sub)) by {
      SortedNone();
    }
    hide NetworksOk, NetworkOk, Synced, NetworkEntries, UidSum, RangeSum, UserGain, Sorted, RemoveFrom;
    var net, rest := nets[n], WithoutUsers(nets[n], ranges, sub);
    forall f
      ensures UidSum(net.uids, f) == UidSum(rest.uids, f) + RangeSum(ranges, sub, f)
    {
      RemoveFromSum(net.uids, ranges, sub, f);
    }
    UsersEntries(n, net, rest, sub, ranges, tabs);
    SameUserGain(n, net, rest, sub, ranges, tabs);
    SumIncludes(nets.Keys, NetworkFn(nets, tabs), n);
    PartInstalled(nets, d, tabs, fixed, rules, UserGain(n, net, sub, ranges, tabs));
  }

  /** Reject rules of the history are there to be deleted. */
  lemma RejectsInstalled(nets: Networks, d: NetId, tabs: Tables, table: nat, count: nat, rejects: multiset<Entry>,
                         rules: multiset<Entry>, m: multiset<Entry>)
    requires LOCAL_NET_ID in nets && NetworksOk(nets) && count <= 2
    requires Synced(nets, d, tabs, FixedRules(table, count, rejects), rules) && m <= rejects
    ensures m <= rules
  {
    hide NetworksOk, Synced, INITIAL_REQUESTS, DummyRequests;
    PartInstalled(nets, d, tabs, FixedRules(table, count, rejects), rules, m);
  }
}
