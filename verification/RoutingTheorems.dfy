/** What evaluating the installed rules means for packets, in every state that agrees with the kernel. */
module RoutingTheorems {
  import opened Fwmarks
  import opened IpRules
  import opened UidRangeLists
  import opened RuleSet
  import opened RouteControllers
  import opened NetworkStates
  import opened RuleMembers
  import opened SyncSteps
  import opened Policies
  import opened FwmarkServers

  // ---- where an installed rule comes from ---------------------------------------------------------

  datatype Origin = Fixed | Own(n: NetId, i: string, sub: nat, r: UidRange) | ByDefault(i: string, v: NetId)

  /** The rules of one network, spelled out. */
  ghost predicate OwnShape(e: Entry, n: NetId, net: Network, t: nat, i: string, sub: nat, r: UidRange) {
    match net.kind
    case Physical(p, _, local) =>
      i in net.ifaces &&
      (|| e == Incoming(n, i, p) || e == ExplicitNetwork(n, t, p, AllUids, 0)
       || (local && (e == LocalNetworkRule(t) || e == ExplicitNetwork(LOCAL_NET_ID, t, PERMISSION_NONE, AllUids, 0)))
       || e == OifOverride(i, t) || e == OutputInterface(i, t, p, AllUids, 0)
       || (p == PERMISSION_NONE && e == ImplicitNetwork(n, t))
       || (sub in net.uids && r in net.uids[sub] &&
            (|| e == UidNetwork(n, t, StrictUids(r), sub, true) || e == UidNetwork(n, t, StrictUids(r), sub, false)
             || (sub != SUB_PRIORITY_NO_DEFAULT &&
                  (e == UidDefaultNetwork(t, StrictUids(r), sub)
                   || e == UidLocalNetwork(LocalTable(t), StrictUids(r)))))))
    case Virtual(secure, excludeLocal) =>
      i in net.ifaces &&
      (|| e == Incoming(n, i, PERMISSION_NONE) || e == VpnOutputToLocal(i) || e == VpnSystem(n, t, secure, excludeLocal)
       || e == ExplicitNetwork(n, t, PERMISSION_NONE, Span(0, 0), 0)
       || (sub in net.uids && r in net.uids[sub] &&
            (|| e == VpnUidRange(t, LooseUids(r), sub, secure, excludeLocal)
             || e == ExplicitNetwork(n, t, PERMISSION_NONE, LooseUids(r), sub)
             || (LooseUids(r).AllUids? && e == OifOverride(i, t))
             || e == OutputInterface(i, t, PERMISSION_NONE, LooseUids(r), sub))))
    case Local =>
      i in net.ifaces &&
      (|| e == Incoming(LOCAL_NET_ID, i, PERMISSION_NONE) || e == OifOverride(i, TABLE_LOCAL_NETWORK)
       || e == OutputInterface(i, TABLE_LOCAL_NETWORK, PERMISSION_NONE, AllUids, 0))
    case Dummy => false
    case UnreachableKind =>
      sub in net.uids && r in net.uids[sub] &&
      (|| e == UidUnreachable(n, StrictUids(r), sub, true) || e == UidUnreachable(n, StrictUids(r), sub, false)
       || e == UidDefaultUnreachable(StrictUids(r), sub))
  }

  ghost predicate DefaultShape(e: Entry, vpns: set<NetId>, t: nat, p: Permission, v: NetId) {
    e == DefaultNetwork(t, p) || (v in vpns && (e == VpnFallthrough(v, t, p) || e == LocalExclusion(LocalTable(t))))
  }

  ghost predicate HasOrigin(e: Entry, o: Origin, nets: Networks, d: NetId, tabs: Tables, fixed: multiset<Entry>) {
    match o
    case Fixed => e in fixed
    case Own(n, i, sub, r) => n in nets && OwnShape(e, n, nets[n], TableOf(tabs, i), i, sub, r)
    case ByDefault(i, v) =>
      && d in nets && nets[d].kind.Physical? && i in nets[d].ifaces
      && DefaultShape(e, Vpns(nets), TableOf(tabs, i), nets[d].kind.permission, v)
  }

  lemma OwnOrigin(e: Entry, n: NetId, net: Network, tabs: Tables) returns (i: string, sub: nat, r: UidRange)
    requires FromNetwork(e, n, net, tabs)
    ensures OwnShape(e, n, net, TableOf(tabs, i), i, sub, r)
  {
    i, sub, r := NetworkOrigin(e, n, net, tabs);
    hide FromNetwork;
    var t := TableOf(tabs, i);
    match net.kind
    case Physical(p, _, local) =>
      if e in PhysicalRequests(n, i, t, p, local) {
        PhysicalCases(n, i, t, p, local, e);
      } else {
        PhysicalUidCases(n, t, sub, r, e);
      }
    case Virtual(secure, excludeLocal) =>
      if e in VirtualRequests(n, i, t, secure, excludeLocal) {
        VirtualCases(n, i, t, secure, excludeLocal, e);
      } else {
        VirtualUidCases(n, i, t, secure, excludeLocal, sub, r, e);
      }
    case Local => LocalCases(i, e);
    case _ =>
  }

  /** Every rule outside the tethering band has an origin. */
  lemma RuleOrigin(nets: Networks, d: NetId, tabs: Tables, fixed: multiset<Entry>, rules: multiset<Entry>, e: Entry)
    returns (o: Origin)
    requires LOCAL_NET_ID in nets && Synced(nets, d, tabs, fixed, rules) && e in rules && !IsTethering(e)
    ensures HasOrigin(e, o, nets, d, tabs, fixed)
  {
    hide Expected, CacheOk, FlagsOk, FixedOk, FromNetwork, OwnShape;
    ExpectedMember(nets, d, tabs, fixed, e);
    assert e in Expected(nets, d, tabs, fixed);
    if e in fixed {
      o := Fixed;
    } else if n :| n in nets && FromNetwork(e, n, nets[n], tabs) {
      var i, sub, r := OwnOrigin(e, n, nets[n], tabs);
      o := Own(n, i, sub, r);
    } else {
      var i :| i in nets[d].ifaces && FromDefaultIface(e, Vpns(nets), TableOf(tabs, i), nets[d].kind.permission);
      var v: NetId := 0;
      if w :| w in Vpns(nets) && e in FallthroughRequests(w, TableOf(tabs, i), nets[d].kind.permission) {
        v := w;
      }
      o := ByDefault(i, v);
    }
  }

  /** The rule for packets bound to the dummy interface, made at start for the table it had then. */
  function DummyOutput(t: nat): Entry {
    OutputInterface(DUMMY_INTERFACE, t, PERMISSION_NONE, AllUids, 0)
  }

  /** The fixed rules, spelled out. */
  ghost predicate FixedShape(e: Entry, t: nat) {
    || e == IpRule(LEGACY_SYSTEM, ToTable(TABLE_LEGACY_SYSTEM), IMPLICIT_MARK, None, None, AllUids)
    || e == IpRule(LEGACY_NETWORK, ToTable(TABLE_LEGACY_NETWORK), IMPLICIT_MARK, None, None, AllUids)
    || e == IpRule(VPN_OVERRIDE_SYSTEM, ToTable(TABLE_LEGACY_SYSTEM),
                   MarkMatch(None, Some(false), None, PERMISSION_SYSTEM),
                   None, None, AllUids)
    || e == ExplicitNetwork(LOCAL_NET_ID, TABLE_LOCAL_NETWORK, PERMISSION_NONE, AllUids, 0)
    || e == LocalNetworkRule(TABLE_LOCAL_NETWORK)
    || e == IpRule(UNREACHABLE, Unreachable, ANY_MARK, None, None, AllUids)
    || (e.IpRule? && e == RejectNonSecure(e.uids))
    || e == OifOverride(DUMMY_INTERFACE, t)
    || e == DummyOutput(t)
  }

  lemma FixedOrigin(nets: Networks, tabs: Tables, fixed: multiset<Entry>, e: Entry) returns (t: nat)
    requires FixedOk(nets, tabs, fixed) && e in fixed
    ensures FixedShape(e, t) && 0 < t < TABLE_OFFSET_FOR_LOCAL
    ensures e == DummyOutput(t) && DUMMY_NET_ID in nets ==> DUMMY_INTERFACE in tabs && tabs[DUMMY_INTERFACE] == t
  {
    t := 1;
    if e !in INITIAL_REQUESTS && !(e.IpRule? && e == RejectNonSecure(e.uids)) {
      t :| e in DummyRequests(t) && 0 < t < TABLE_OFFSET_FOR_LOCAL
        && (DUMMY_NET_ID in nets ==> DUMMY_INTERFACE in tabs && tabs[DUMMY_INTERFACE] == t);
    }
  }

  lemma FixedInstalled(nets: Networks, d: NetId, tabs: Tables, fixed: multiset<Entry>, rules: multiset<Entry>, e: Entry)
    requires LOCAL_NET_ID in nets && Synced(nets, d, tabs, fixed, rules) && e in fixed && !IsTethering(e)
    ensures e in rules
  {
    hide CacheOk, FlagsOk, FixedOk, Expected;
    ExpectedMember(nets, d, tabs, fixed, e);
  }

  // ---- VPN lockdown -----------------------------------------------------------------------------------

  /** A uid-range rule of a secure VPN that holds the uid. */
  ghost predicate SecureVpnRoute(nets: Networks, tabs: Tables, uid: nat, e: Entry) {
    exists n, i, r :: n in nets && nets[n].kind.Virtual? && nets[n].kind.secure && i in nets[n].ifaces
      && r in RangesAt(nets[n].uids, 0) && LooseUids(r).Admits(uid)
      && e == VpnUidRange(TableOf(tabs, i), LooseUids(r), 0, true, nets[n].kind.excludeLocal)
  }

  ghost predicate NoLoopbackVpn(nets: Networks) {
    forall n :: n in nets && nets[n].kind.Virtual? ==> LOOPBACK !in nets[n].ifaces
  }

  /** A locally generated packet of an ordinary uid. */
  predicate OrdinaryOutput(p: Packet) {
    p.uid != 0 && p.iif == LOOPBACK && Confined(p.mark)
  }

  /** Up to the lockdown band, an ordinary packet matches no rule of a network that is not a VPN. */
  lemma LockdownOthers(p: Packet, n: NetId, net: Network, t: nat, i: string, sub: nat, r: UidRange, e: Entry)
    requires OrdinaryOutput(p) && !net.kind.Virtual? && OwnShape(e, n, net, t, i, sub, r)
    ensures !(Matches(e, p) && e.priority <= PROHIBIT_NON_VPN)
  {}

  lemma LockdownVpn(p: Packet, n: NetId, net: Network, t: nat, i: string, sub: nat, r: UidRange, e: Entry)
    requires OrdinaryOutput(p) && net.kind.Virtual? && OwnShape(e, n, net, t, i, sub, r) && LOOPBACK !in net.ifaces
    requires Matches(e, p) && e.priority <= PROHIBIT_NON_VPN
    ensures net.kind.secure && i in net.ifaces && sub in net.uids && r in net.uids[sub]
    ensures e == VpnUidRange(t, LooseUids(r), sub, true, net.kind.excludeLocal)
  {}

  lemma LockdownOwn(nets: Networks, tabs: Tables, p: Packet, n: NetId, i: string, sub: nat, r: UidRange, e: Entry)
    requires NetworksOk(nets) && NoLoopbackVpn(nets) && OrdinaryOutput(p) && n in nets
    requires OwnShape(e, n, nets[n], TableOf(tabs, i), i, sub, r) && Matches(e, p) && e.priority <= PROHIBIT_NON_VPN
    ensures SecureVpnRoute(nets, tabs, p.uid, e)
  {
    assert NetworkOk(n, nets[n]);
    hide NetworksOk, OwnShape, OrdinaryOutput;
    if nets[n].kind.Virtual? {
      LockdownVpn(p, n, nets[n], TableOf(tabs, i), i, sub, r, e);
    } else {
      LockdownOthers(p, n, nets[n], TableOf(tabs, i), i, sub, r, e);
    }
  }

  lemma LockdownFixed(p: Packet, e: Entry, t: nat)
    requires OrdinaryOutput(p) && FixedShape(e, t) && Matches(e, p) && e.priority <= PROHIBIT_NON_VPN
    ensures e.action == Prohibit
  {}

  lemma DefaultLater(e: Entry, vpns: set<NetId>, t: nat, q: Permission, v: NetId)
    requires DefaultShape(e, vpns, t, q, v)
    ensures e.IpRule? && e.priority > PROHIBIT_NON_VPN && !IsTethering(e)
  {}

  lemma EarlyNotTethering(e: Entry)
    requires e.IpRule? && e.priority <= PROHIBIT_NON_VPN
    ensures !IsTethering(e)
  {}

  lemma LockdownRule(nets: Networks, d: NetId, tabs: Tables, fixed: multiset<Entry>, rules: multiset<Entry>, p: Packet,
                     e: Entry)
    requires LOCAL_NET_ID in nets && NetworksOk(nets) && Synced(nets, d, tabs, fixed, rules) && NoLoopbackVpn(nets)
    requires OrdinaryOutput(p) && e in rules && Matches(e, p) && e.priority <= PROHIBIT_NON_VPN
    ensures e.action == Prohibit || SecureVpnRoute(nets, tabs, p.uid, e)
  {
    hide NetworksOk, CacheOk, FlagsOk, SameOutsideTethering, OwnShape, SecureVpnRoute, NoLoopbackVpn, FixedOk;
    hide FixedShape, DefaultShape, Vpns, TableOf, Expected, IsTethering, OrdinaryOutput;
    assert !IsTethering(e) by {
      EarlyNotTethering(e);
    }
    var o := RuleOrigin(nets, d, tabs, fixed, rules, e);
    match o
    case Fixed =>
      var t := FixedOrigin(nets, tabs, fixed, e);
      LockdownFixed(p, e, t);
    case Own(n, i, sub, r) => LockdownOwn(nets, tabs, p, n, i, sub, r, e);
    case ByDefault(i, v) => DefaultLater(e, Vpns(nets), TableOf(tabs, i), nets[d].kind.permission, v);
  }

  /**
   * With a lockdown rule for its uid in place, an ordinary packet is prohibited or goes through a
   * secure VPN that applies to the uid, whatever routes the tables hold.
   */
  lemma Lockdown(nets: Networks, d: NetId, tabs: Tables, fixed: multiset<Entry>, list: seq<Entry>, p: Packet,
                 hit: nat -> bool,
                 uids: UidSelector)
    requires LOCAL_NET_ID in nets && NetworksOk(nets) && Synced(nets, d, tabs, fixed, multiset(list))
    requires NoLoopbackVpn(nets)
    requires InPriorityOrder(list) && OrdinaryOutput(p) && RejectNonSecure(uids) in list && uids.Admits(p.uid)
    ensures Walk(list, p, hit).Some?
    ensures var e := Walk(list, p, hit).value;
      e.IpRule? && (e.action == Prohibit || SecureVpnRoute(nets, tabs, p.uid, e))
  {
    hide NetworksOk, Synced, SecureVpnRoute, NoLoopbackVpn, InPriorityOrder, Walk;
    WalkSelects(list, p, hit);
    var reject := RejectNonSecure(uids);
    assert reject in multiset(list) && Decides(reject, p, hit);
    LockdownRule(nets, d, tabs, fixed, multiset(list), p, Walk(list, p, hit).value);
  }

  /**
   * End to end: take a user who is not root and may not protect sockets. After any run of its own
   * commands on a fresh socket, under policies that change freely, every locally generated packet
   * of that socket is prohibited or leaves through a secure VPN that applies to the user.
   */
  lemma VpnLockdown(steps: seq<Step>, uid: nat, nets: Networks, d: NetId, tabs: Tables, fixed: multiset<Entry>,
                    list: seq<Entry>,
                    p: Packet, hit: nat -> bool, uids: UidSelector)
    requires StepsOk(steps) && forall s :: s in steps ==> s.uid == uid && !CanProtect(s.policy, uid)
    requires LOCAL_NET_ID in nets && NetworksOk(nets) && Synced(nets, d, tabs, fixed, multiset(list))
    requires NoLoopbackVpn(nets)
    requires InPriorityOrder(list) && RejectNonSecure(uids) in list && uids.Admits(uid)
    requires uid != 0 && p.uid == uid && p.iif == LOOPBACK && p.mark == MarkAfter(steps, MARK_ZERO)
    ensures Walk(list, p, hit).Some?
    ensures var e := Walk(list, p, hit).value; e.IpRule? && (e.action == Prohibit || SecureVpnRoute(nets, tabs, uid, e))
  {
    hide NetworksOk, Synced, SecureVpnRoute, NoLoopbackVpn, InPriorityOrder, Walk, CanProtect, StepsOk, MarkAfter;
    StaysConfined(steps, MARK_ZERO);
    Lockdown(nets, d, tabs, fixed, list, p, hit, uids);
  }

  // ---- restricted networks --------------------------------------------------------------------------

  ghost predicate OutsideRanges(net: Network, uid: nat) {
    forall sub, r :: sub in net.uids && r in net.uids[sub] ==> !StrictUids(r).Admits(uid)
  }

  /** A packet that explicitly selected a physical network it has no right to. */
  ghost predicate Intruder(nets: Networks, n: NetId, p: Packet) {
    && n in nets && nets[n].kind.Physical?
    && p.mark.explicitlySelected && p.mark.netId == n && !p.mark.permission.Covers(nets[n].kind.permission)
    && p.uid != 0 && OutsideRanges(nets[n], p.uid)
  }

  predicate Leads(e: Entry, t: nat) {
    e.IpRule? && (e.action == ToTable(t) || e.action == ToTable(LocalTable(t)))
  }

  lemma DistinctTables(nets: Networks, tabs: Tables, ifindex: map<string, nat>, n: NetId, i: string, m: NetId,
                       j: string)
    requires NetworksOk(nets) && CacheOk(nets, tabs) && TablesOk(tabs, ifindex)
    requires n in nets && HasInterfaceTables(nets[n].kind) && i in nets[n].ifaces
    ensures TABLE_OFFSET < TableOf(tabs, i) < TABLE_OFFSET_FOR_LOCAL
    ensures m in nets && HasInterfaceTables(nets[m].kind) && j in nets[m].ifaces && i != j ==>
      TableOf(tabs, i) != TableOf(tabs, j) && TABLE_OFFSET < TableOf(tabs, j) < TABLE_OFFSET_FOR_LOCAL
    ensures m in nets && m != n && j in nets[m].ifaces ==> i != j
    ensures DUMMY_NET_ID in nets && DUMMY_INTERFACE in tabs ==>
      var t := tabs[DUMMY_INTERFACE];
      t != TableOf(tabs, i) && (t == TABLE_LOCAL_NETWORK || TABLE_OFFSET < t < TABLE_OFFSET_FOR_LOCAL)
  {}

  /** A network's own rules lead to the tables of its interfaces, or to a constant one. */
  lemma OwnTable(e: Entry, n: NetId, net: Network, t: nat, i: string, sub: nat, r: UidRange)
    requires OwnShape(e, n, net, t, i, sub, r) && e.IpRule? && e.action.ToTable?
    ensures (HasInterfaceTables(net.kind) && i in net.ifaces && e.action.table in {t, LocalTable(t)})
      || e.action.table == TABLE_LOCAL_NETWORK
  {}

  lemma IntruderStopped(e: Entry, n: NetId, net: Network, t: nat, i: string, sub: nat, r: UidRange, p: Packet)
    requires NetworkOk(n, net) && net.kind.Physical? && OwnShape(e, n, net, t, i, sub, r) && OutsideRanges(net, p.uid)
    requires p.uid != 0
    requires p.mark.explicitlySelected && p.mark.netId == n && !p.mark.permission.Covers(net.kind.permission)
    ensures !Matches(e, p)
  {}

  lemma IsolatedOwn(nets: Networks, tabs: Tables, ifindex: map<string, nat>, n: NetId, i: string, p: Packet, e: Entry,
                    m: NetId, j: string, sub: nat, r: UidRange)
    requires NetworksOk(nets) && CacheOk(nets, tabs) && TablesOk(tabs, ifindex) && Intruder(nets, n, p)
    requires i in nets[n].ifaces
    requires m in nets && OwnShape(e, m, nets[m], TableOf(tabs, j), j, sub, r) && Matches(e, p)
    ensures !Leads(e, TableOf(tabs, i))
  {
    DistinctTables(nets, tabs, ifindex, n, i, m, j);
    assert NetworkOk(n, nets[n]);
    hide NetworksOk, TablesOk, CacheOk, OwnShape, NetworkOk, OutsideRanges;
    if m == n {
      IntruderStopped(e, n, nets[n], TableOf(tabs, j), j, sub, r, p);
    } else if e.action.ToTable? {
      OwnTable(e, m, nets[m], TableOf(tabs, j), j, sub, r);
    }
  }

  /** A packet bound to the dummy interface, whose start-up rule still leads to table `t`. */
  predicate DummyExit(fixed: multiset<Entry>, t: nat, p: Packet) {
    p.iif == LOOPBACK && p.oif == Some(DUMMY_INTERFACE) && DummyOutput(t) in fixed
  }

  /** The rule matches the packet and is not a tethering rule. */
  predicate Applies(e: Entry, p: Packet) {
    Matches(e, p) && !IsTethering(e)
  }

  lemma IsolatedFixed(nets: Networks, tabs: Tables, ifindex: map<string, nat>, n: NetId, i: string, p: Packet, e: Entry,
                      t: nat)
    requires NetworksOk(nets) && CacheOk(nets, tabs) && TablesOk(tabs, ifindex) && Intruder(nets, n, p)
    requires i in nets[n].ifaces
    requires FixedShape(e, t) && t < TABLE_OFFSET_FOR_LOCAL && Matches(e, p) && Leads(e, TableOf(tabs, i))
    ensures e == DummyOutput(TableOf(tabs, i)) && p.iif == LOOPBACK && p.oif == Some(DUMMY_INTERFACE)
  {
    DistinctTables(nets, tabs, ifindex, n, i, n, i);
    assert NetworkOk(n, nets[n]);
    hide NetworksOk, TablesOk, CacheOk;
  }

  lemma IsolatedDefault(nets: Networks, n: NetId, p: Packet, e: Entry, t: nat, q: Permission, v: NetId)
    requires NetworksOk(nets) && Intruder(nets, n, p) && DefaultShape(e, Vpns(nets), t, q, v)
    ensures !Matches(e, p)
  {
    assert NetworkOk(n, nets[n]);
    hide NetworksOk;
  }

  lemma IntruderRule(nets: Networks, d: NetId, tabs: Tables, ifindex: map<string, nat>, fixed: multiset<Entry>,
                     rules: multiset<Entry>, n: NetId, i: string, p: Packet, e: Entry)
    requires LOCAL_NET_ID in nets && NetworksOk(nets) && Synced(nets, d, tabs, fixed, rules) && TablesOk(tabs, ifindex)
    requires Intruder(nets, n, p) && i in nets[n].ifaces && e in rules && Applies(e, p) && Leads(e, TableOf(tabs, i))
    ensures DummyExit(fixed, TableOf(tabs, i), p)
  {
    hide NetworksOk, FlagsOk, SameOutsideTethering, OwnShape, FixedOk, CacheOk, TablesOk, DefaultShape;
    hide FixedShape, Vpns, TableOf, Expected, Leads, OutsideRanges;
    var o := RuleOrigin(nets, d, tabs, fixed, rules, e);
    match o
    case Fixed =>
      var t := FixedOrigin(nets, tabs, fixed, e);
      IsolatedFixed(nets, tabs, ifindex, n, i, p, e, t);
    case Own(m, j, sub, r) => IsolatedOwn(nets, tabs, ifindex, n, i, p, e, m, j, sub, r);
    case ByDefault(j, v) => IsolatedDefault(nets, n, p, e, TableOf(tabs, j), nets[d].kind.permission, v);
  }

  lemma ExitOpen(fixed: multiset<Entry>, t: nat, p: Packet)
    requires DummyExit(fixed, t, p)
    ensures DummyOutput(t) in fixed && !IsTethering(DummyOutput(t))
    ensures Applies(DummyOutput(t), p) && Leads(DummyOutput(t), t)
  {}

  /**
   * Isolation, exactly: take a packet that explicitly selected network `n` without covering its
   * permission, from a uid that is neither root nor in its ranges. Some rule for it leads to a table of
   * `n` if and only if the packet is bound to the dummy interface and the rule that start-up made for
   * that interface names the table.
   */
  lemma RestrictedIsolation(nets: Networks, d: NetId, tabs: Tables, ifindex: map<string, nat>, fixed: multiset<Entry>,
                            rules: multiset<Entry>, n: NetId, i: string, p: Packet)
    requires LOCAL_NET_ID in nets && NetworksOk(nets) && Synced(nets, d, tabs, fixed, rules) && TablesOk(tabs, ifindex)
    requires Intruder(nets, n, p) && i in nets[n].ifaces
    ensures (exists e :: e in rules && Applies(e, p) && Leads(e, TableOf(tabs, i))) <==>
      DummyExit(fixed, TableOf(tabs, i), p)
  {
    hide NetworksOk, TablesOk, Intruder, Synced, Applies, Leads, DummyExit;
    var t := TableOf(tabs, i);
    if e :| e in rules && Applies(e, p) && Leads(e, t) {
      IntruderRule(nets, d, tabs, ifindex, fixed, rules, n, i, p, e);
    }
    if DummyExit(fixed, t, p) {
      ExitOpen(fixed, t, p);
      FixedInstalled(nets, d, tabs, fixed, rules, DummyOutput(t));
    }
  }

  /** As long as the dummy network has not been destroyed, no restricted network can be reached that way. */
  lemma DummyKeepsOut(nets: Networks, d: NetId, tabs: Tables, ifindex: map<string, nat>, fixed: multiset<Entry>,
                      rules: multiset<Entry>, n: NetId, i: string, p: Packet)
    requires LOCAL_NET_ID in nets && NetworksOk(nets) && Synced(nets, d, tabs, fixed, rules) && TablesOk(tabs, ifindex)
    requires n in nets && nets[n].kind.Physical? && i in nets[n].ifaces && DUMMY_NET_ID in nets
    ensures !DummyExit(fixed, TableOf(tabs, i), p)
  {
    hide FlagsOk, SameOutsideTethering, Expected, FixedShape, FixedOk;
    DistinctTables(nets, tabs, ifindex, n, i, n, i);
    hide NetworksOk, TablesOk, CacheOk;
    var e := DummyOutput(TableOf(tabs, i));
    if e in fixed {
      var t := FixedOrigin(nets, tabs, fixed, e);
      DummyShape(TableOf(tabs, i), t);
    }
  }

  lemma DummyShape(t: nat, t': nat)
    requires FixedShape(DummyOutput(t), t')
    ensures t == t'
  {}

  // ---- after the dummy network is gone ------------------------------------------------------------------

  const LEAKY_TABLE := TABLE_OFFSET + 5
  const LEAKY_NET_ID: NetId := MIN_NET_ID

  /** The dummy network was destroyed and its interface joined a network for the system alone. */
  function LeakyNetworks(): Networks {
    map[LOCAL_NET_ID := Network(Local, {}, map[], None),
        UNREACHABLE_NET_ID := Network(UnreachableKind, {}, map[], None),
        LEAKY_NET_ID := Network(Physical(PERMISSION_SYSTEM, false, false), {DUMMY_INTERFACE}, map[], None)]
  }

  const LEAKY_PACKET := Packet(Fwmark(LEAKY_NET_ID, true, false, PERMISSION_NONE, Repeat(false, 12)), 10000, LOOPBACK,
                               Some(DUMMY_INTERFACE))

  lemma LeakyFixed()
    ensures FixedOk(LeakyNetworks(), map[DUMMY_INTERFACE := LEAKY_TABLE], FixedRules(LEAKY_TABLE, 2, multiset{}))
    ensures DummyOutput(LEAKY_TABLE) in FixedRules(LEAKY_TABLE, 2, multiset{})
  {
    hide INITIAL_REQUESTS;
    assert DummyRequests(LEAKY_TABLE)[..2] == DummyRequests(LEAKY_TABLE);
    assert DummyRequests(LEAKY_TABLE)[1] == DummyOutput(LEAKY_TABLE);
  }

  lemma LeakyShape()
    ensures var nets, tabs := LeakyNetworks(), map[DUMMY_INTERFACE := LEAKY_TABLE];
      && NetworksOk(nets) && FlagsOk(nets, NETID_UNSET) && CacheOk(nets, tabs)
      && TablesOk(tabs, map[DUMMY_INTERFACE := 5])
  {}

  lemma DanglingShape()
    ensures var nets := LeakyNetworks() - {LEAKY_NET_ID};
      LOCAL_NET_ID in nets && NetworksOk(nets) && FlagsOk(nets, NETID_UNSET) && CacheOk(nets, map[])
  {}

  lemma LeakySynced(nets: Networks, tabs: Tables, fixed: multiset<Entry>)
    requires LOCAL_NET_ID in nets && FlagsOk(nets, NETID_UNSET) && CacheOk(nets, tabs) && FixedOk(nets, tabs, fixed)
    ensures Synced(nets, NETID_UNSET, tabs, fixed, Expected(nets, NETID_UNSET, tabs, fixed))
  {
    hide FlagsOk, CacheOk, FixedOk, Expected;
  }

  /** Isolation fails there: an ordinary app reaches the restricted network by binding to its interface. */
  lemma DummyLeaks()
    ensures var nets, tabs, fixed := LeakyNetworks(), map[DUMMY_INTERFACE := LEAKY_TABLE],
      FixedRules(LEAKY_TABLE, 2, multiset{});
      var rules := Expected(nets, NETID_UNSET, tabs, fixed);
      && NetworksOk(nets) && Synced(nets, NETID_UNSET, tabs, fixed, rules) && TablesOk(tabs, map[DUMMY_INTERFACE := 5])
      && Intruder(nets, LEAKY_NET_ID, LEAKY_PACKET)
      && exists e :: e in rules && Applies(e, LEAKY_PACKET) && Leads(e, TableOf(tabs, DUMMY_INTERFACE))
  {
    hide FixedRules, Expected, Synced, NetworksOk, TablesOk;
    var nets, tabs, fixed := LeakyNetworks(), map[DUMMY_INTERFACE := LEAKY_TABLE],
      FixedRules(LEAKY_TABLE, 2, multiset{});
    LeakyFixed();
    LeakyShape();
    LeakySynced(nets, tabs, fixed);
    RestrictedIsolation(nets, NETID_UNSET, tabs, map[DUMMY_INTERFACE := 5], fixed,
                        Expected(nets, NETID_UNSET, tabs, fixed),
                        LEAKY_NET_ID, DUMMY_INTERFACE, LEAKY_PACKET);
  }

  // ---- connected sockets ------------------------------------------------------------------------------

  /** `e` is a possible outcome among the rules whose priority number is at least `floor`. */
  ghost predicate SelectsFrom(rules: multiset<Entry>, floor: nat, p: Packet, hit: nat -> bool, e: Entry) {
    && e in rules && Decides(e, p, hit) && floor <= e.priority
    && forall e' :: e' in rules && Decides(e', p, hit) && floor <= e'.priority ==> e.priority <= e'.priority
  }

  /** A packet of a socket that was connected on network `n`. */
  predicate ConnectedOn(n: NetId, p: Packet) {
    p.iif == LOOPBACK && p.mark.netId == n && !p.mark.explicitlySelected
  }

  ghost predicate LeadsTo(nets: Networks, tabs: Tables, n: NetId, e: Entry) {
    n in nets && e.IpRule? && exists j :: j in nets[n].ifaces && e.action == ToTable(TableOf(tabs, j))
  }

  /** In the implicit bands a network's rules are for sockets marked with it, and lead to its interfaces. */
  lemma ImplicitShape(e: Entry, m: NetId, net: Network, t: nat, j: string, sub: nat, r: UidRange)
    requires NetworkOk(m, net) && OwnShape(e, m, net, t, j, sub, r)
    requires e.IpRule? && UID_IMPLICIT_NETWORK <= e.priority <= IMPLICIT_NETWORK
    ensures e.mark.netId == Some(m) && (net.kind.Physical? ==> j in net.ifaces && e.action == ToTable(t))
  {}

  lemma StaysOwn(nets: Networks, tabs: Tables, n: NetId, p: Packet, e: Entry, m: NetId, j: string, sub: nat,
                 r: UidRange)
    requires NetworksOk(nets) && n in nets && nets[n].kind.Physical? && ConnectedOn(n, p)
    requires m in nets && OwnShape(e, m, nets[m], TableOf(tabs, j), j, sub, r)
    requires Matches(e, p) && UID_IMPLICIT_NETWORK <= e.priority <= IMPLICIT_NETWORK
    ensures LeadsTo(nets, tabs, n, e)
  {
    assert NetworkOk(m, nets[m]);
    hide NetworksOk, OwnShape, NetworkOk;
    ImplicitShape(e, m, nets[m], TableOf(tabs, j), j, sub, r);
  }

  lemma FixedNotImplicit(e: Entry, t: nat)
    requires FixedShape(e, t)
    ensures e.IpRule? && !(UID_IMPLICIT_NETWORK <= e.priority <= IMPLICIT_NETWORK)
  {}

  lemma DefaultNotImplicit(e: Entry, vpns: set<NetId>, t: nat, q: Permission, v: NetId)
    requires DefaultShape(e, vpns, t, q, v)
    ensures e.IpRule? && !(UID_IMPLICIT_NETWORK <= e.priority <= IMPLICIT_NETWORK)
  {}

  lemma ImplicitBand(nets: Networks, d: NetId, tabs: Tables, fixed: multiset<Entry>, rules: multiset<Entry>, n: NetId,
                     p: Packet, e: Entry)
    requires LOCAL_NET_ID in nets && NetworksOk(nets) && Synced(nets, d, tabs, fixed, rules)
    requires n in nets && nets[n].kind.Physical? && ConnectedOn(n, p)
    requires e in rules && Matches(e, p) && UID_IMPLICIT_NETWORK <= e.priority <= IMPLICIT_NETWORK
    ensures LeadsTo(nets, tabs, n, e)
  {
    assert !IsTethering(e);
    hide NetworksOk, CacheOk, FlagsOk, SameOutsideTethering, OwnShape, FixedOk, FixedShape, DefaultShape, Vpns;
    hide Expected, LeadsTo;
    var o := RuleOrigin(nets, d, tabs, fixed, rules, e);
    match o
    case Fixed =>
      var t := FixedOrigin(nets, tabs, fixed, e);
      FixedNotImplicit(e, t);
    case Own(m, j, sub, r) => StaysOwn(nets, tabs, n, p, e, m, j, sub, r);
    case ByDefault(j, v) => DefaultNotImplicit(e, Vpns(nets), TableOf(tabs, j), nets[d].kind.permission, v);
  }

  lemma ImplicitInstalled(nets: Networks, d: NetId, tabs: Tables, fixed: multiset<Entry>, rules: multiset<Entry>,
                          n: NetId, i: string)
    requires LOCAL_NET_ID in nets && Synced(nets, d, tabs, fixed, rules)
    requires n in nets && nets[n].kind.Physical? && nets[n].kind.permission == PERMISSION_NONE && i in nets[n].ifaces
    ensures ImplicitNetwork(n, TableOf(tabs, i)) in rules
  {
    hide CacheOk, FlagsOk, FixedOk, Expected;
    var t := TableOf(tabs, i);
    var e := ImplicitNetwork(n, t);
    var list := PhysicalRequests(n, i, t, PERMISSION_NONE, nets[n].kind.local);
    assert list[|list| - 1] == e;
    assert FromIface(e, n, nets[n], i, t);
    ExpectedMember(nets, d, tabs, fixed, e);
    assert !IsTethering(e);
  }

  /**
   * Connected sockets stay put: in every later state in which network `n` still asks for no
   * permission and has an interface with a route for the packet, the first deciding rule from the
   * implicit-network bands on leads to an interface of `n`, whatever the default network is.
   */
  lemma ConnectedStaysPut(nets: Networks, d: NetId, tabs: Tables, fixed: multiset<Entry>, rules: multiset<Entry>,
                          n: NetId,
                          i: string, p: Packet, hit: nat -> bool, e: Entry)
    requires LOCAL_NET_ID in nets && NetworksOk(nets) && Synced(nets, d, tabs, fixed, rules)
    requires n in nets && nets[n].kind.Physical? && nets[n].kind.permission == PERMISSION_NONE
    requires i in nets[n].ifaces && hit(TableOf(tabs, i)) && ConnectedOn(n, p)
    requires SelectsFrom(rules, UID_IMPLICIT_NETWORK, p, hit, e)
    ensures LeadsTo(nets, tabs, n, e)
  {
    hide NetworksOk, Synced, LeadsTo;
    ImplicitInstalled(nets, d, tabs, fixed, rules, n, i);
    assert Decides(ImplicitNetwork(n, TableOf(tabs, i)), p, hit);
    ImplicitBand(nets, d, tabs, fixed, rules, n, p, e);
  }

  /**
   * The same, starting from the connect: a socket without protect and explicit bits, connected while
   * its user's network is `n`, is routed to `n` by later rules as long as `n` stays usable.
   */
  lemma ConnectThenStay(s: Step, before: Fwmark, nets: Networks, d: NetId, tabs: Tables, fixed: multiset<Entry>,
                        rules: multiset<Entry>, n: NetId, i: string, p: Packet, hit: nat -> bool, e: Entry)
    requires PolicyOk(s.policy) && Effective(s) && s.cmd.OnConnect? && !before.explicitlySelected
    requires !before.protectedFromVpn
    requires n == NetworkForConnect(s.policy, s.uid) && p.mark == After(s, before) && p.iif == LOOPBACK
    requires LOCAL_NET_ID in nets && NetworksOk(nets) && Synced(nets, d, tabs, fixed, rules)
    requires n in nets && nets[n].kind.Physical? && nets[n].kind.permission == PERMISSION_NONE
    requires i in nets[n].ifaces && hit(TableOf(tabs, i))
    requires SelectsFrom(rules, UID_IMPLICIT_NETWORK, p, hit, e)
    ensures LeadsTo(nets, tabs, n, e)
  {
    hide NetworksOk, Synced, LeadsTo, SelectsFrom, PolicyOk, NetworkForConnect;
    ConnectedStaysPut(nets, d, tabs, fixed, rules, n, i, p, hit, e);
  }

  // ---- cached tables ----------------------------------------------------------------------------------

  /** The table is a constant one, or the ordinary or local table of an interface in the cache. */
  ghost predicate KnownTable(tabs: Tables, t: nat) {
    || t == TABLE_LOCAL_NETWORK || t == TABLE_LEGACY_NETWORK || t == TABLE_LEGACY_SYSTEM
    || exists i :: i in tabs && (t == tabs[i] || t == LocalTable(tabs[i]))
  }

  lemma OwnKnown(nets: Networks, tabs: Tables, e: Entry, n: NetId, i: string, sub: nat, r: UidRange)
    requires LOCAL_NET_ID in nets && CacheOk(nets, tabs) && n in nets
    requires OwnShape(e, n, nets[n], TableOf(tabs, i), i, sub, r)
    ensures e.IpRule? && e.action.ToTable? ==> KnownTable(tabs, e.action.table)
  {
    assert HasInterfaceTables(nets[n].kind) ==> i in tabs;
    hide CacheOk;
  }

  lemma DefaultKnown(tabs: Tables, e: Entry, vpns: set<NetId>, i: string, q: Permission, v: NetId)
    requires i in tabs && DefaultShape(e, vpns, TableOf(tabs, i), q, v)
    ensures e.IpRule? && e.action.ToTable? ==> KnownTable(tabs, e.action.table)
  {}

  /** A rule outside the tethering band that leads to table `t`. */
  ghost predicate Names(rules: multiset<Entry>, t: nat) {
    exists e :: e in rules && !IsTethering(e) && e.IpRule? && e.action == ToTable(t)
  }

  /** A rule that start-up made for the dummy interface leads to table `t`. */
  ghost predicate DummyNames(fixed: multiset<Entry>, t: nat) {
    exists e :: e in fixed && e in DummyRequests(t)
  }

  lemma NamedTable(nets: Networks, d: NetId, tabs: Tables, fixed: multiset<Entry>, rules: multiset<Entry>, e: Entry)
    requires LOCAL_NET_ID in nets && Synced(nets, d, tabs, fixed, rules)
    requires e in rules && !IsTethering(e) && e.IpRule? && e.action.ToTable?
    ensures KnownTable(tabs, e.action.table) || DummyNames(fixed, e.action.table)
  {
    hide FlagsOk, SameOutsideTethering, OwnShape, DefaultShape, Vpns, Expected, FixedOk, CacheOk, KnownTable;
    var o := RuleOrigin(nets, d, tabs, fixed, rules, e);
    match o
    case Fixed => FixedKnown(nets, tabs, fixed, e);
    case Own(n, i, sub, r) => OwnKnown(nets, tabs, e, n, i, sub, r);
    case ByDefault(i, v) =>
      DefaultCached(nets, d, tabs, i);
      DefaultKnown(tabs, e, Vpns(nets), i, nets[d].kind.permission, v);
  }

  /**
   * An interface's table leaves the cache only after the last rule naming it is gone: outside the
   * tethering band, a rule leads to a table that is neither constant nor cached if and only if the
   * start-up rules of the dummy interface lead there.
   */
  lemma NoDanglingTable(nets: Networks, d: NetId, tabs: Tables, fixed: multiset<Entry>, rules: multiset<Entry>, t: nat)
    requires LOCAL_NET_ID in nets && Synced(nets, d, tabs, fixed, rules) && !KnownTable(tabs, t)
    ensures Names(rules, t) <==> DummyNames(fixed, t)
    ensures DUMMY_NET_ID in nets ==> !Names(rules, t)
  {
    hide FlagsOk, SameOutsideTethering, Expected, CacheOk, FixedOk;
    if Names(rules, t) {
      var e :| e in rules && !IsTethering(e) && e.IpRule? && e.action == ToTable(t);
      NamedTable(nets, d, tabs, fixed, rules, e);
    }
    if DummyNames(fixed, t) {
      var e :| e in fixed && e in DummyRequests(t);
      FixedInstalled(nets, d, tabs, fixed, rules, e);
      if DUMMY_NET_ID in nets {
        DummyCached(nets, tabs, fixed, t, e);
      }
    }
  }

  lemma DummyCached(nets: Networks, tabs: Tables, fixed: multiset<Entry>, t: nat, e: Entry)
    requires FixedOk(nets, tabs, fixed) && e in fixed && e in DummyRequests(t) && DUMMY_NET_ID in nets
    ensures KnownTable(tabs, t)
  {
    assert e !in INITIAL_REQUESTS;
    var t': nat :| e in DummyRequests(t') && DUMMY_INTERFACE in tabs && tabs[DUMMY_INTERFACE] == t';
    assert t == t';
  }

  /** Without the dummy network there is such a table: its interface came, went and left its rules behind. */
  lemma DummyDangles()
    ensures var nets, fixed := LeakyNetworks() - {LEAKY_NET_ID}, FixedRules(LEAKY_TABLE, 2, multiset{});
      var rules := Expected(nets, NETID_UNSET, map[], fixed);
      && NetworksOk(nets) && Synced(nets, NETID_UNSET, map[], fixed, rules)
      && !KnownTable(map[], LEAKY_TABLE) && Names(rules, LEAKY_TABLE)
  {
    hide FixedRules, Expected, Synced, NetworksOk, FixedOk, CacheOk, FlagsOk;
    var nets, fixed := LeakyNetworks() - {LEAKY_NET_ID}, FixedRules(LEAKY_TABLE, 2, multiset{});
    LeakyFixed();
    LeakyShape();
    DanglingShape();
    FixedStays(LeakyNetworks(), nets, map[DUMMY_INTERFACE := LEAKY_TABLE], map[], fixed);
    LeakySynced(nets, map[], fixed);
    assert DummyRequests(LEAKY_TABLE)[1] == DummyOutput(LEAKY_TABLE);
    assert DummyNames(fixed, LEAKY_TABLE);
    NoDanglingTable(nets, NETID_UNSET, map[], fixed, Expected(nets, NETID_UNSET, map[], fixed), LEAKY_TABLE);
  }

  lemma DefaultCached(nets: Networks, d: NetId, tabs: Tables, i: string)
    requires LOCAL_NET_ID in nets && CacheOk(nets, tabs) && d in nets && nets[d].kind.Physical? && i in nets[d].ifaces
    ensures i in tabs
  {}

  lemma FixedKnown(nets: Networks, tabs: Tables, fixed: multiset<Entry>, e: Entry)
    requires FixedOk(nets, tabs, fixed) && e in fixed && e.IpRule? && e.action.ToTable?
    ensures KnownTable(tabs, e.action.table) || DummyNames(fixed, e.action.table)
  {
    if e !in INITIAL_REQUESTS && !(e == RejectNonSecure(e.uids)) {
      var t: nat :| e in DummyRequests(t);
      assert e.action.table == t;
    }
  }

  // ---- nothing falls through ----------------------------------------------------------------------------

  /** The last rule, which applies to every packet. */
  const LAST_RULE := IpRule(UNREACHABLE, Unreachable, ANY_MARK, None, None, AllUids)

  lemma LastRuleFixed(t: nat, count: nat, rejects: multiset<Entry>)
    requires count <= 2
    ensures LAST_RULE in FixedRules(t, count, rejects)
  {
    assert INITIAL_REQUESTS[5] == LAST_RULE;
  }

  /** In agreement with the kernel, some rule decides every packet, whatever routes the tables hold. */
  lemma AlwaysDecided(nets: Networks, d: NetId, tabs: Tables, fixed: multiset<Entry>, list: seq<Entry>, p: Packet,
                      hit: nat -> bool)
    requires LOCAL_NET_ID in nets && Synced(nets, d, tabs, fixed, multiset(list)) && InPriorityOrder(list)
    requires LAST_RULE in fixed
    ensures Walk(list, p, hit).Some?
  {
    hide Walk, InPriorityOrder, Synced;
    FixedInstalled(nets, d, tabs, fixed, multiset(list), LAST_RULE);
    WalkSelects(list, p, hit);
    assert Decides(LAST_RULE, p, hit);
  }
}
