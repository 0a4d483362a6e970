/**
 * The routing policy as a table: which packets are sent where, and with what precedence. It is stated on
 * packets alone, and is exactly what the rules in the kernel do.
 */
module Steering {
  import opened Fwmarks
  import opened IpRules
  import opened UidRangeLists
  import opened RuleSet
  import opened RouteControllers
  import opened NetworkStates
  import opened RuleMembers
  import opened RoutingTheorems

  // ---- the table --------------------------------------------------------------------------------------

  /** What the rules of a running system are made from. */
  datatype Setup = Setup(nets: Networks, default: NetId, tabs: Tables, dummyTable: nat, dummyRules: nat,
                         rejects: multiset<Entry>)

  function Unsigned(x: Int32): nat {
    if x < 0 then x + 0x1_0000_0000 else x
  }

  /** The uid lies in a range; a range with an end of -1 holds no uid. */
  predicate Holds(r: UidRange, uid: nat) {
    r.start != -1 && r.stop != -1 && Unsigned(r.start) <= uid <= Unsigned(r.stop)
  }

  /** For a VPN, -1 at both ends stands for all uids. */
  predicate VpnHolds(r: UidRange, uid: nat) {
    (r.start == -1 && r.stop == -1) || Holds(r, uid)
  }

  /** A locally generated packet. */
  predicate Sent(p: Packet) {
    p.iif == "lo"
  }

  predicate Chose(p: Packet, n: NetId) {
    p.mark.netId == n && p.mark.explicitlySelected
  }

  predicate Has(uids: UidRangeMap, sub: nat, r: UidRange) {
    sub in uids && r in uids[sub]
  }

  /** Table `t` for interface `i` of a physical network; `r` is one of its ranges. */
  predicate PhysicalSteers(p: Packet, priority: nat, n: NetId, net: Network, i: string, sub: nat, r: UidRange)
    requires net.kind.Physical?
  {
    var permitted := p.mark.permission.Covers(net.kind.permission);
    || (priority == 11000 && Sent(p) && p.oif == Some(i) && p.uid == 0)
    || (priority == 16000 && Sent(p) && Chose(p, n) && permitted)
    || (priority == 16000 && Sent(p) && Chose(p, 99) && net.kind.local)
    || (priority == 17000 && Sent(p) && p.oif == Some(i) && permitted)
    || (priority == 20000 && !p.mark.explicitlySelected && net.kind.local)
    || (priority == 23000 && Sent(p) && p.mark.netId == n && !p.mark.explicitlySelected
        && net.kind.permission == PERMISSION_NONE)
    || (Sent(p) && Has(net.uids, sub, r) && Holds(r, p.uid) &&
        (|| (priority == 15000 + sub && Chose(p, n))
         || (priority == 22000 + sub && p.mark.netId == n && !p.mark.explicitlySelected)
         || (priority == 29000 + sub && p.mark.netId == 0 && sub != 999)))
  }

  /** The directly connected routes of a physical network, for the uids whose default it is. */
  predicate LocalRoutes(p: Packet, priority: nat, net: Network, sub: nat, r: UidRange) {
    && priority == 25000 && Sent(p) && !p.mark.explicitlySelected
    && Has(net.uids, sub, r) && sub != 999 && Holds(r, p.uid)
  }

  function VpnBand(kind: Kind): nat
    requires kind.Virtual?
  {
    if kind.secure then 13000 else if kind.excludeLocal then 27000 else 24000
  }

  /** The table of interface `i` of a VPN. */
  predicate VirtualSteers(p: Packet, priority: nat, n: NetId, net: Network, i: string, sub: nat, r: UidRange)
    requires net.kind.Virtual?
  {
    || (priority == VpnBand(net.kind) && p.mark.netId == n && p.mark.permission == PERMISSION_SYSTEM)
    || (priority == 16000 && Sent(p) && Chose(p, n) && p.uid == 0)
    || (Sent(p) && Has(net.uids, sub, r) && VpnHolds(r, p.uid) &&
        (|| (priority == VpnBand(net.kind) + sub && !p.mark.protectedFromVpn
             && (net.kind.secure || !p.mark.explicitlySelected))
         || (priority == 16000 + sub && Chose(p, n))
         || (priority == 17000 + sub && p.oif == Some(i))
         || (priority == 11000 && p.oif == Some(i) && p.uid == 0 && r.start == -1 && r.stop == -1)))
  }

  predicate UnreachableSteers(p: Packet, priority: nat, n: NetId, net: Network, sub: nat, r: UidRange) {
    Sent(p) && Has(net.uids, sub, r) && Holds(r, p.uid) &&
    (|| (priority == 15000 + sub && Chose(p, n))
     || (priority == 22000 + sub && p.mark.netId == n && !p.mark.explicitlySelected)
     || (priority == 30000 + sub && p.mark.netId == 0))
  }

  /** What one network does with a packet, on account of interface `i` or range `r`. */
  predicate OwnSteers(p: Packet, priority: nat, action: Action, n: NetId, net: Network, t: nat, i: string, sub: nat,
                      r: UidRange) {
    match net.kind
    case Physical(_, _, _) =>
      i in net.ifaces &&
      (|| (action == ToTable(t) && PhysicalSteers(p, priority, n, net, i, sub, r))
       || (action == ToTable(t + 999_999_000) && LocalRoutes(p, priority, net, sub, r)))
    case Virtual(_, _) =>
      i in net.ifaces &&
      (|| (action == ToTable(97) && priority == 12000 && p.iif == i)
       || (action == ToTable(t) && VirtualSteers(p, priority, n, net, i, sub, r)))
    case Local =>
      && i in net.ifaces && action == ToTable(97) && Sent(p) && p.oif == Some(i)
      && ((priority == 11000 && p.uid == 0) || priority == 17000)
    case Dummy => false
    case UnreachableKind => action == Unreachable && UnreachableSteers(p, priority, n, net, sub, r)
  }

  /** What interface `i` of the default network does with a packet, `v` being a VPN. */
  predicate DefaultSteers(p: Packet, priority: nat, action: Action, nets: Networks, d: NetId, t: nat, i: string,
                          v: NetId) {
    && d in nets && nets[d].kind.Physical? && i in nets[d].ifaces
    && var permitted := p.mark.permission.Covers(nets[d].kind.permission);
       || (action == ToTable(t) && priority == 31000 && Sent(p) && p.mark.netId == 0 && permitted)
       || (v in nets && nets[v].kind.Virtual? &&
           (|| (action == ToTable(t) && priority == 28000 && p.mark.netId == v && permitted)
            || (action == ToTable(t + 999_999_000) && priority == 26000 && Sent(p) && !p.mark.explicitlySelected)))
  }

  /** What the rules of start-up and the reject rules do with a packet. */
  ghost predicate FixedSteers(p: Packet, priority: nat, action: Action, x: Setup) {
    var implicit := !p.mark.explicitlySelected;
    || (priority == 10000 && action == ToTable(99) && implicit && p.mark.permission == PERMISSION_SYSTEM)
    || (priority == 11000 && action == ToTable(x.dummyTable) && Sent(p) && p.oif == Some("dummy0") && p.uid == 0
        && x.dummyRules >= 1)
    || (priority == 14000 && action == Prohibit && Sent(p) && !p.mark.protectedFromVpn
        && exists e :: e in x.rejects && e.IpRule? && e.uids.Admits(p.uid))
    || (priority == 16000 && action == ToTable(97) && Sent(p) && Chose(p, 99))
    || (priority == 17000 && action == ToTable(x.dummyTable) && Sent(p) && p.oif == Some("dummy0")
        && x.dummyRules >= 2)
    || (priority == 18000 && action == ToTable(99) && implicit)
    || (priority == 19000 && action == ToTable(98) && implicit)
    || (priority == 20000 && action == ToTable(97) && implicit)
    || (priority == 32000 && action == Unreachable)
  }

  /** The policy: packet `p` is sent where `action` says, with this precedence. */
  ghost predicate Steers(x: Setup, p: Packet, priority: nat, action: Action) {
    || FixedSteers(p, priority, action, x)
    || (exists n, i, sub, r :: n in x.nets
          && OwnSteers(p, priority, action, n, x.nets[n], TableOf(x.tabs, i), i, sub, r))
    || (exists i, v :: DefaultSteers(p, priority, action, x.nets, x.default, TableOf(x.tabs, i), i, v))
  }

  // ---- rules follow the table -------------------------------------------------------------------------

  /** The rule does with the packet what the entry of the table says. */
  predicate Does(e: Entry, p: Packet, priority: nat, action: Action) {
    Applies(e, p) && e.priority == priority && e.action == action
  }

  lemma SelectorsHold(r: UidRange, uid: nat)
    ensures StrictUids(r).Admits(uid) <==> Holds(r, uid)
    ensures LooseUids(r).Admits(uid) <==> VpnHolds(r, uid)
    ensures LooseUids(r).AllUids? <==> r.start == -1 && r.stop == -1
  {}

  lemma SystemCovers(m: Permission)
    ensures m.Covers(PERMISSION_SYSTEM) <==> m == PERMISSION_SYSTEM
  {}

  lemma PhysicalFollows(e: Entry, p: Packet, n: NetId, net: Network, t: nat, i: string, sub: nat, r: UidRange)
    requires net.kind.Physical? && OwnShape(e, n, net, t, i, sub, r) && Matches(e, p)
    ensures OwnSteers(p, e.priority, e.action, n, net, t, i, sub, r)
  {
    SelectorsHold(r, p.uid);
    hide StrictUids, Holds;
  }

  lemma VirtualFollows(e: Entry, p: Packet, n: NetId, net: Network, t: nat, i: string, sub: nat, r: UidRange)
    requires net.kind.Virtual? && OwnShape(e, n, net, t, i, sub, r) && Matches(e, p)
    ensures OwnSteers(p, e.priority, e.action, n, net, t, i, sub, r)
  {
    SelectorsHold(r, p.uid);
    SystemCovers(p.mark.permission);
    hide LooseUids, VpnHolds;
  }

  lemma OtherFollows(e: Entry, p: Packet, n: NetId, net: Network, t: nat, i: string, sub: nat, r: UidRange)
    requires !HasInterfaceTables(net.kind) && OwnShape(e, n, net, t, i, sub, r) && Matches(e, p)
    ensures OwnSteers(p, e.priority, e.action, n, net, t, i, sub, r)
  {
    SelectorsHold(r, p.uid);
    hide StrictUids, Holds;
  }

  lemma DefaultFollows(e: Entry, p: Packet, nets: Networks, d: NetId, t: nat, i: string, v: NetId)
    requires d in nets && nets[d].kind.Physical? && i in nets[d].ifaces && Matches(e, p)
    requires DefaultShape(e, Vpns(nets), t, nets[d].kind.permission, v)
    ensures DefaultSteers(p, e.priority, e.action, nets, d, t, i, v)
  {}

  lemma FixedFollows(e: Entry, p: Packet, x: Setup)
    requires x.dummyRules <= 2 && OnlyRejects(x.rejects) && Matches(e, p)
    requires e in FixedRules(x.dummyTable, x.dummyRules, x.rejects)
    ensures FixedSteers(p, e.priority, e.action, x)
  {
    SystemCovers(p.mark.permission);
    if e in x.rejects {
      assert e == RejectNonSecure(e.uids);
    } else if e !in INITIAL_REQUESTS {
      var k :| 0 <= k < x.dummyRules && DummyRequests(x.dummyTable)[k] == e;
      assert k == 0 ==> e == OifOverride(DUMMY_INTERFACE, x.dummyTable);
      assert k == 1 ==> e == DummyOutput(x.dummyTable);
    }
  }

  // ---- the table is followed --------------------------------------------------------------------------

  lemma PhysicalFollowed(p: Packet, priority: nat, action: Action, n: NetId, net: Network, t: nat, i: string, sub: nat,
                         r: UidRange) returns (e: Entry)
    requires net.kind.Physical? && OwnSteers(p, priority, action, n, net, t, i, sub, r)
    requires Has(net.uids, sub, r) ==> sub <= 999
    ensures Does(e, p, priority, action) && OwnShape(e, n, net, t, i, sub, r)
  {
    SelectorsHold(r, p.uid);
    hide StrictUids, Holds;
    var q, uids := net.kind.permission, StrictUids(r);
    if action == ToTable(t + 999_999_000) && LocalRoutes(p, priority, net, sub, r) {
      e := UidLocalNetwork(LocalTable(t), uids);
    } else if priority == 11000 {
      e := OifOverride(i, t);
    } else if priority == 16000 && Chose(p, n) && p.mark.permission.Covers(q) {
      e := ExplicitNetwork(n, t, q, AllUids, 0);
    } else if priority == 16000 && Chose(p, 99) && net.kind.local {
      e := ExplicitNetwork(LOCAL_NET_ID, t, PERMISSION_NONE, AllUids, 0);
    } else if priority == 17000 && p.oif == Some(i) && p.mark.permission.Covers(q) {
      e := OutputInterface(i, t, q, AllUids, 0);
    } else if priority == 20000 && net.kind.local && !p.mark.explicitlySelected {
      e := LocalNetworkRule(t);
    } else if priority == 23000 && p.mark.netId == n && q == PERMISSION_NONE && !p.mark.explicitlySelected {
      e := ImplicitNetwork(n, t);
    } else if priority == 15000 + sub && Chose(p, n) {
      e := UidNetwork(n, t, uids, sub, true);
    } else if priority == 22000 + sub && p.mark.netId == n && !p.mark.explicitlySelected {
      e := UidNetwork(n, t, uids, sub, false);
    } else {
      e := UidDefaultNetwork(t, uids, sub);
    }
  }

  lemma VirtualFollowed(p: Packet, priority: nat, action: Action, n: NetId, net: Network, t: nat, i: string, sub: nat,
                        r: UidRange) returns (e: Entry)
    requires net.kind.Virtual? && OwnSteers(p, priority, action, n, net, t, i, sub, r)
    requires Has(net.uids, sub, r) ==> sub <= 999
    ensures Does(e, p, priority, action) && OwnShape(e, n, net, t, i, sub, r)
  {
    SelectorsHold(r, p.uid);
    SystemCovers(p.mark.permission);
    hide LooseUids, VpnHolds;
    var uids, secure, excludeLocal := LooseUids(r), net.kind.secure, net.kind.excludeLocal;
    if priority == 12000 && p.iif == i && action == ToTable(97) {
      e := VpnOutputToLocal(i);
    } else if priority == VpnBand(net.kind) && p.mark.netId == n && p.mark.permission == PERMISSION_SYSTEM {
      e := VpnSystem(n, t, secure, excludeLocal);
    } else if priority == 16000 && Chose(p, n) && p.uid == 0 {
      e := ExplicitNetwork(n, t, PERMISSION_NONE, Span(0, 0), 0);
    } else if priority == VpnBand(net.kind) + sub && !p.mark.protectedFromVpn && (secure || !p.mark.explicitlySelected)
    {
      e := VpnUidRange(t, uids, sub, secure, excludeLocal);
    } else if priority == 16000 + sub && Chose(p, n) {
      e := ExplicitNetwork(n, t, PERMISSION_NONE, uids, sub);
    } else if priority == 17000 + sub {
      e := OutputInterface(i, t, PERMISSION_NONE, uids, sub);
    } else {
      e := OifOverride(i, t);
    }
  }

  lemma OtherFollowed(p: Packet, priority: nat, action: Action, n: NetId, net: Network, t: nat, i: string, sub: nat,
                      r: UidRange) returns (e: Entry)
    requires !HasInterfaceTables(net.kind) && OwnSteers(p, priority, action, n, net, t, i, sub, r)
    requires Has(net.uids, sub, r) ==> sub <= 999
    ensures Does(e, p, priority, action) && OwnShape(e, n, net, t, i, sub, r)
  {
    SelectorsHold(r, p.uid);
    hide StrictUids, Holds;
    if net.kind.Local? {
      e := if priority == 11000 then OifOverride(i, TABLE_LOCAL_NETWORK)
           else OutputInterface(i, TABLE_LOCAL_NETWORK, PERMISSION_NONE, AllUids, 0);
    } else if priority == 15000 + sub && Chose(p, n) {
      e := UidUnreachable(n, StrictUids(r), sub, true);
    } else if priority == 22000 + sub && p.mark.netId == n && !p.mark.explicitlySelected {
      e := UidUnreachable(n, StrictUids(r), sub, false);
    } else {
      e := UidDefaultUnreachable(StrictUids(r), sub);
    }
  }

  lemma DefaultFollowed(p: Packet, priority: nat, action: Action, nets: Networks, d: NetId, t: nat, i: string, v: NetId)
    returns (e: Entry)
    requires DefaultSteers(p, priority, action, nets, d, t, i, v)
    ensures Does(e, p, priority, action) && DefaultShape(e, Vpns(nets), t, nets[d].kind.permission, v)
  {
    var q := nets[d].kind.permission;
    e := if priority == 31000 then DefaultNetwork(t, q)
         else if priority == 28000 then VpnFallthrough(v, t, q) else LocalExclusion(LocalTable(t));
  }

  lemma InitialFollowed(p: Packet, priority: nat, action: Action, x: Setup) returns (e: Entry)
    requires FixedSteers(p, priority, action, x) && priority != 11000 && priority != 14000 && priority != 17000
    ensures Does(e, p, priority, action) && e in INITIAL_REQUESTS
  {
    SystemCovers(p.mark.permission);
    e := INITIAL_REQUESTS[if priority == 18000 then 0 else if priority == 19000 then 1 else if priority == 10000 then 2
                          else if priority == 16000 then 3 else if priority == 20000 then 4 else 5];
  }

  lemma DummyFollowed(p: Packet, priority: nat, action: Action, x: Setup) returns (e: Entry)
    requires FixedSteers(p, priority, action, x) && (priority == 11000 || priority == 17000) && x.dummyRules <= 2
    ensures Does(e, p, priority, action) && e in DummyRequests(x.dummyTable)[..x.dummyRules]
  {
    e := DummyRequests(x.dummyTable)[..x.dummyRules][if priority == 11000 then 0 else 1];
  }

  lemma FixedFollowed(p: Packet, priority: nat, action: Action, x: Setup) returns (e: Entry)
    requires FixedSteers(p, priority, action, x) && x.dummyRules <= 2 && OnlyRejects(x.rejects)
    ensures Does(e, p, priority, action) && e in FixedRules(x.dummyTable, x.dummyRules, x.rejects)
  {
    hide INITIAL_REQUESTS, DummyRequests;
    if priority == 14000 {
      e :| e in x.rejects && e.IpRule? && e.uids.Admits(p.uid);
      assert e == RejectNonSecure(e.uids);
    } else if priority == 11000 || priority == 17000 {
      e := DummyFollowed(p, priority, action, x);
    } else {
      e := InitialFollowed(p, priority, action, x);
    }
  }

  // ---- the two agree ----------------------------------------------------------------------------------

  /** A rule of one of the listed shapes is among those of its network. */
  lemma ShapeFromNetwork(e: Entry, n: NetId, net: Network, tabs: Tables, i: string, sub: nat, r: UidRange)
    requires OwnShape(e, n, net, TableOf(tabs, i), i, sub, r)
    ensures FromNetwork(e, n, net, tabs)
  {
    var t := TableOf(tabs, i);
    ShapeRequested(e, n, net, t, i, sub, r);
    hide OwnShape;
    var f := Builder(n, net.kind, i, t);
    BuilderOf(n, net.kind, i, t);
    if Has(net.uids, sub, r) && e in f(sub, r) {
      assert FromUid(e, net.uids, f);
    }
    if !net.kind.UnreachableKind? {
      assert FromIface(e, n, net, i, t);
    }
  }

  lemma ShapeRequested(e: Entry, n: NetId, net: Network, t: nat, i: string, sub: nat, r: UidRange)
    requires OwnShape(e, n, net, t, i, sub, r)
    ensures (Has(net.uids, sub, r) && e in Builder(n, net.kind, i, t)(sub, r))
      || match net.kind
         case Physical(q, _, local) => e in PhysicalRequests(n, i, t, q, local)
         case Virtual(secure, excludeLocal) => e in VirtualRequests(n, i, t, secure, excludeLocal)
         case Local => e in LocalRequests(i)
         case _ => false
    ensures !net.kind.UnreachableKind? ==> i in net.ifaces
  {}

  /** The state is well formed and the kernel agrees with it. */
  ghost predicate Running(x: Setup, rules: multiset<Entry>) {
    && LOCAL_NET_ID in x.nets && NetworksOk(x.nets) && x.dummyRules <= 2 && OnlyRejects(x.rejects)
    && Synced(x.nets, x.default, x.tabs, FixedRules(x.dummyTable, x.dummyRules, x.rejects), rules)
  }

  lemma RuleFollows(x: Setup, rules: multiset<Entry>, p: Packet, e: Entry)
    requires Running(x, rules) && e in rules && Applies(e, p)
    ensures Steers(x, p, e.priority, e.action)
  {
    hide NetworksOk, Synced, FixedRules, OnlyRejects, OwnShape, DefaultShape, OwnSteers, DefaultSteers, FixedSteers;
    hide Vpns, TableOf;
    var fixed := FixedRules(x.dummyTable, x.dummyRules, x.rejects);
    var o := RuleOrigin(x.nets, x.default, x.tabs, fixed, rules, e);
    match o
    case Fixed => FixedFollows(e, p, x);
    case Own(n, i, sub, r) =>
      var net, t := x.nets[n], TableOf(x.tabs, i);
      if net.kind.Physical? {
        PhysicalFollows(e, p, n, net, t, i, sub, r);
      } else if net.kind.Virtual? {
        VirtualFollows(e, p, n, net, t, i, sub, r);
      } else {
        OtherFollows(e, p, n, net, t, i, sub, r);
      }
      assert OwnSteers(p, e.priority, e.action, n, x.nets[n], TableOf(x.tabs, i), i, sub, r);
    case ByDefault(i, v) =>
      DefaultFollows(e, p, x.nets, x.default, TableOf(x.tabs, i), i, v);
  }

  lemma SubBound(nets: Networks, n: NetId, sub: nat, r: UidRange)
    requires NetworksOk(nets) && n in nets
    ensures Has(nets[n].uids, sub, r) ==> sub <= 999
  {
    assert NetworkOk(n, nets[n]);
  }

  /** What the state calls for, outside the tethering band, is in the kernel. */
  lemma Installed(x: Setup, rules: multiset<Entry>, e: Entry)
    requires Running(x, rules) && !IsTethering(e)
    requires var fixed := FixedRules(x.dummyTable, x.dummyRules, x.rejects);
      || e in fixed
      || (exists n :: n in x.nets && FromNetwork(e, n, x.nets[n], x.tabs))
      || FromDefault(e, x.nets, x.default, x.tabs)
    ensures e in rules
  {
    hide NetworksOk, CacheOk, FlagsOk, FixedOk, FixedRules, OnlyRejects, Expected, FromNetwork, FromDefault;
    ExpectedMember(x.nets, x.default, x.tabs, FixedRules(x.dummyTable, x.dummyRules, x.rejects), e);
  }

  lemma OwnFollowed(x: Setup, rules: multiset<Entry>, p: Packet, priority: nat, action: Action, n: NetId, i: string,
                    sub: nat, r: UidRange) returns (e: Entry)
    requires Running(x, rules) && n in x.nets
    requires OwnSteers(p, priority, action, n, x.nets[n], TableOf(x.tabs, i), i, sub, r)
    ensures e in rules && Does(e, p, priority, action)
  {
    hide NetworksOk, Synced, FixedRules, OnlyRejects, OwnShape, OwnSteers, FromNetwork, TableOf, Matches;
    var net, t := x.nets[n], TableOf(x.tabs, i);
    SubBound(x.nets, n, sub, r);
    if net.kind.Physical? {
      e := PhysicalFollowed(p, priority, action, n, net, t, i, sub, r);
    } else if net.kind.Virtual? {
      e := VirtualFollowed(p, priority, action, n, net, t, i, sub, r);
    } else {
      e := OtherFollowed(p, priority, action, n, net, t, i, sub, r);
    }
    ShapeFromNetwork(e, n, net, x.tabs, i, sub, r);
    Installed(x, rules, e);
  }

  lemma ByDefaultFollowed(x: Setup, rules: multiset<Entry>, p: Packet, priority: nat, action: Action, i: string,
                          v: NetId) returns (e: Entry)
    requires Running(x, rules)
    requires DefaultSteers(p, priority, action, x.nets, x.default, TableOf(x.tabs, i), i, v)
    ensures e in rules && Does(e, p, priority, action)
  {
    hide NetworksOk, Synced, FixedRules, OnlyRejects, TableOf, Matches, DefaultNetwork, VpnFallthrough, LocalExclusion;
    var t, q := TableOf(x.tabs, i), x.nets[x.default].kind.permission;
    e := DefaultFollowed(p, priority, action, x.nets, x.default, t, i, v);
    assert FromDefaultIface(e, Vpns(x.nets), t, q) by {
      if e != DefaultNetwork(t, q) {
        assert v in Vpns(x.nets) && e in FallthroughRequests(v, t, q);
      }
    }
    Installed(x, rules, e);
  }

  /**
   * The rules in the kernel do exactly what the table says: for every packet, every precedence and every
   * action, some rule outside the tethering band does it if and only if the table has it.
   */
  lemma RulesAreTable(x: Setup, rules: multiset<Entry>, p: Packet, priority: nat, action: Action)
    requires Running(x, rules)
    ensures (exists e :: e in rules && Does(e, p, priority, action)) <==> Steers(x, p, priority, action)
  {
    hide Running, OwnSteers, DefaultSteers, FixedSteers, Applies, TableOf, FixedRules;
    if e :| e in rules && Does(e, p, priority, action) {
      RuleFollows(x, rules, p, e);
    }
    if FixedSteers(p, priority, action, x) {
      StartFollowed(x, rules, p, priority, action);
    } else if n, i, sub, r :|
        n in x.nets && OwnSteers(p, priority, action, n, x.nets[n], TableOf(x.tabs, i), i, sub, r) {
      var e := OwnFollowed(x, rules, p, priority, action, n, i, sub, r);
    } else if i, v :| DefaultSteers(p, priority, action, x.nets, x.default, TableOf(x.tabs, i), i, v) {
      var e := ByDefaultFollowed(x, rules, p, priority, action, i, v);
    }
  }

  lemma StartFollowed(x: Setup, rules: multiset<Entry>, p: Packet, priority: nat, action: Action)
    requires Running(x, rules) && FixedSteers(p, priority, action, x)
    ensures exists e :: e in rules && Does(e, p, priority, action)
  {
    hide NetworksOk, Synced, FixedRules, OnlyRejects, FixedSteers, Matches;
    var e := FixedFollowed(p, priority, action, x);
    Installed(x, rules, e);
  }

  // ---- where packets go -------------------------------------------------------------------------------

  /** Some rule of the table or some tethering rule sends the packet there, to a table that has a route. */
  ghost predicate Goes(x: Setup, rules: multiset<Entry>, p: Packet, hit: nat -> bool, priority: nat, action: Action) {
    && (|| Steers(x, p, priority, action)
        || (priority == 21000 && exists e :: e in rules && IsTethering(e) && Matches(e, p) && e.action == action))
    && (action.ToTable? ==> hit(action.table))
  }

  lemma GoesIfDecided(x: Setup, rules: multiset<Entry>, p: Packet, hit: nat -> bool, priority: nat, action: Action)
    requires Running(x, rules)
    ensures Goes(x, rules, p, hit, priority, action) <==>
      exists e :: e in rules && Decides(e, p, hit) && e.priority == priority && e.action == action
  {
    hide Running, Steers;
    RulesAreTable(x, rules, p, priority, action);
    if Steers(x, p, priority, action) && (action.ToTable? ==> hit(action.table)) {
      var e :| e in rules && Does(e, p, priority, action);
      assert Decides(e, p, hit);
    }
    if e :| e in rules && Decides(e, p, hit) && e.priority == priority && e.action == action {
      assert IsTethering(e) || Does(e, p, priority, action);
    }
  }

  /** The kernel's decision for a packet is the entry of the table with the best precedence that has a route. */
  lemma WalkIsTable(x: Setup, list: seq<Entry>, p: Packet, hit: nat -> bool)
    requires Running(x, multiset(list)) && InPriorityOrder(list)
    ensures Walk(list, p, hit).Some? && Walk(list, p, hit).value.IpRule?
    ensures var e := Walk(list, p, hit).value;
      && Goes(x, multiset(list), p, hit, e.priority, e.action)
      && forall priority, action :: Goes(x, multiset(list), p, hit, priority, action) ==> e.priority <= priority
  {
    hide Running, InPriorityOrder, Walk, Goes;
    WalkSelects(list, p, hit);
    LastResort(x, multiset(list), p, hit);
    GoesIfDecided(x, multiset(list), p, hit, 32000, Unreachable);
    var e := Walk(list, p, hit).value;
    GoesIfDecided(x, multiset(list), p, hit, e.priority, e.action);
    forall priority, action | Goes(x, multiset(list), p, hit, priority, action)
      ensures e.priority <= priority
    {
      GoesIfDecided(x, multiset(list), p, hit, priority, action);
    }
  }

  lemma LastResort(x: Setup, rules: multiset<Entry>, p: Packet, hit: nat -> bool)
    ensures Goes(x, rules, p, hit, 32000, Unreachable)
  {
    assert FixedSteers(p, 32000, Unreachable, x);
  }

  /** No rule with a better precedence decides the packet. */
  predicate NoneBefore(list: seq<Entry>, p: Packet, hit: nat -> bool, priority: nat) {
    forall e :: e in list && Decides(e, p, hit) ==> priority <= e.priority
  }

  /** If the table sends a packet somewhere and nothing comes before, the kernel decides at that precedence. */
  lemma DecidedAt(x: Setup, list: seq<Entry>, p: Packet, hit: nat -> bool, priority: nat, action: Action)
    requires Running(x, multiset(list)) && InPriorityOrder(list) && NoneBefore(list, p, hit, priority)
    requires Steers(x, p, priority, action) && (action.ToTable? ==> hit(action.table))
    ensures Walk(list, p, hit).Some? && Walk(list, p, hit).value.IpRule?
    ensures var e := Walk(list, p, hit).value;
      e.priority == priority && Goes(x, multiset(list), p, hit, priority, e.action)
  {
    hide Running, InPriorityOrder, Walk, Steers, Matches;
    WalkIsTable(x, list, p, hit);
    WalkSelects(list, p, hit);
    assert Goes(x, multiset(list), p, hit, priority, action);
    assert Walk(list, p, hit).value in multiset(list);
  }

  /** A table of one of the network's interfaces. */
  ghost predicate IsTableOf(x: Setup, n: NetId, action: Action) {
    n in x.nets && exists i :: i in x.nets[n].ifaces && action == ToTable(TableOf(x.tabs, i))
  }

  lemma AtDefault(x: Setup, p: Packet, action: Action)
    requires NetworksOk(x.nets) && Steers(x, p, 31000, action)
    ensures IsTableOf(x, x.default, action)
  {
    hide TableOf, Holds, VpnHolds;
    forall n, i, sub, r | n in x.nets
      ensures !OwnSteers(p, 31000, action, n, x.nets[n], TableOf(x.tabs, i), i, sub, r)
    {
      SubBound(x.nets, n, sub, r);
    }
  }

  lemma ToDefault(x: Setup, p: Packet, i: string)
    requires x.default in x.nets && x.nets[x.default].kind.Physical? && i in x.nets[x.default].ifaces
    requires Sent(p) && p.mark.netId == 0 && p.mark.permission.Covers(x.nets[x.default].kind.permission)
    ensures Steers(x, p, 31000, ToTable(TableOf(x.tabs, i)))
  {
    var t := TableOf(x.tabs, i);
    assert DefaultSteers(p, 31000, ToTable(t), x.nets, x.default, t, i, 0);
  }

  /**
   * A packet without a chosen network that nothing else decides goes to the default network, if it has the
   * permission and the network has a route.
   */
  lemma DefaultDelivers(x: Setup, list: seq<Entry>, p: Packet, hit: nat -> bool, i: string)
    requires Running(x, multiset(list)) && InPriorityOrder(list)
    requires x.default in x.nets && x.nets[x.default].kind.Physical? && i in x.nets[x.default].ifaces
    requires p.iif == LOOPBACK && p.mark.netId == NETID_UNSET && hit(TableOf(x.tabs, i))
    requires p.mark.permission.Covers(x.nets[x.default].kind.permission)
    requires NoneBefore(list, p, hit, 31000)
    ensures Walk(list, p, hit).Some? && Walk(list, p, hit).value.IpRule?
    ensures IsTableOf(x, x.default, Walk(list, p, hit).value.action)
  {
    hide Steers, Walk, InPriorityOrder, Synced, NetworksOk, IsTableOf, TableOf, NoneBefore, OnlyRejects, FixedRules;
    ToDefault(x, p, i);
    DecidedAt(x, list, p, hit, 31000, ToTable(TableOf(x.tabs, i)));
    AtDefault(x, p, Walk(list, p, hit).value.action);
  }

  /** A VPN that the packet is subject to. */
  ghost predicate VpnTakes(x: Setup, p: Packet, v: NetId) {
    && v in x.nets && x.nets[v].kind.Virtual?
    && !p.mark.protectedFromVpn && (x.nets[v].kind.secure || !p.mark.explicitlySelected)
    && exists sub, r :: Has(x.nets[v].uids, sub, r) && VpnHolds(r, p.uid)
  }

  lemma VpnSub(nets: Networks, v: NetId, sub: nat, r: UidRange)
    requires NetworksOk(nets) && v in nets && nets[v].kind.Virtual? && Has(nets[v].uids, sub, r)
    ensures sub == 0
  {
    assert NetworkOk(v, nets[v]);
  }

  /** A table of a VPN that the packet is subject to or, with the SYSTEM permission, chose. */
  ghost predicate IntoVpn(x: Setup, p: Packet, action: Action) {
    exists w :: IsTableOf(x, w, action) && x.nets[w].kind.Virtual? && MayUse(x, p, w)
  }

  ghost predicate MayUse(x: Setup, p: Packet, w: NetId) {
    VpnTakes(x, p, w) || (p.mark.netId == w && p.mark.permission == PERMISSION_SYSTEM)
  }

  lemma AtVpn(x: Setup, p: Packet, kind: Kind, action: Action)
    requires NetworksOk(x.nets) && kind.Virtual? && Steers(x, p, VpnBand(kind), action)
    ensures IntoVpn(x, p, action)
  {
    hide Holds, VpnHolds, TableOf;
    var band := VpnBand(kind);
    var w, i, sub, r :| w in x.nets && OwnSteers(p, band, action, w, x.nets[w], TableOf(x.tabs, i), i, sub, r);
    SubBound(x.nets, w, sub, r);
    hide NetworksOk;
    assert x.nets[w].kind.Virtual? && MayUse(x, p, w) && IsTableOf(x, w, action);
  }

  lemma VpnSteers(x: Setup, p: Packet, v: NetId, i: string)
    requires NetworksOk(x.nets) && VpnTakes(x, p, v) && i in x.nets[v].ifaces && Sent(p)
    ensures Steers(x, p, VpnBand(x.nets[v].kind), ToTable(TableOf(x.tabs, i)))
  {
    hide VpnHolds;
    var band, t := VpnBand(x.nets[v].kind), TableOf(x.tabs, i);
    var sub, r :| Has(x.nets[v].uids, sub, r) && VpnHolds(r, p.uid);
    VpnSub(x.nets, v, sub, r);
    assert OwnSteers(p, band, ToTable(t), v, x.nets[v], t, i, sub, r);
  }

  /**
   * A VPN takes the traffic of its uids: from its band on, a packet that is subject to a VPN with a route
   * goes to a VPN that it is subject to or, with the SYSTEM permission, to the VPN of its own netId.
   */
  lemma VpnCaptures(x: Setup, list: seq<Entry>, p: Packet, hit: nat -> bool, v: NetId, i: string)
    requires Running(x, multiset(list)) && InPriorityOrder(list)
    requires VpnTakes(x, p, v) && i in x.nets[v].ifaces && p.iif == LOOPBACK && hit(TableOf(x.tabs, i))
    requires NoneBefore(list, p, hit, VpnBand(x.nets[v].kind))
    ensures Walk(list, p, hit).Some? && Walk(list, p, hit).value.IpRule?
    ensures IntoVpn(x, p, Walk(list, p, hit).value.action)
  {
    hide Steers, Walk, InPriorityOrder, Synced, NetworksOk, IntoVpn, TableOf, NoneBefore, OnlyRejects, FixedRules;
    VpnSteers(x, p, v, i);
    hide VpnTakes;
    DecidedAt(x, list, p, hit, VpnBand(x.nets[v].kind), ToTable(TableOf(x.tabs, i)));
    AtVpn(x, p, x.nets[v].kind, Walk(list, p, hit).value.action);
  }

  // ---- marks of incoming packets ------------------------------------------------------------------------

  /** The mark with which packets arrive on an interface of a network, so that answers go back there. */
  predicate ArrivesWith(n: NetId, net: Network, mark: Fwmark) {
    && (net.kind.Physical? || net.kind.Virtual? || net.kind.Local?)
    && mark.netId == (if net.kind.Local? then 99 else n) && mark.explicitlySelected && mark.protectedFromVpn
    && mark.permission == (if net.kind.Physical? then net.kind.permission else PERMISSION_NONE)
    && mark.upper == Repeat(false, 12)
  }

  /** Exactly the packets that arrive on a network's interfaces are marked, each with its network's mark. */
  lemma IncomingExactly(x: Setup, rules: multiset<Entry>, i: string, mark: Fwmark)
    requires Running(x, rules)
    ensures IncomingMark(i, mark) in rules <==>
      exists n :: n in x.nets && i in x.nets[n].ifaces && ArrivesWith(n, x.nets[n], mark)
  {
    hide NetworksOk, Synced, FixedRules, OnlyRejects, FromNetwork, TableOf, Vpns;
    var e := IncomingMark(i, mark);
    if e in rules {
      var fixed := FixedRules(x.dummyTable, x.dummyRules, x.rejects);
      var o := RuleOrigin(x.nets, x.default, x.tabs, fixed, rules, e);
      if o.Fixed? {
        NotIncoming(x, e);
      }
    }
    if n :| n in x.nets && i in x.nets[n].ifaces && ArrivesWith(n, x.nets[n], mark) {
      assert OwnShape(e, n, x.nets[n], TableOf(x.tabs, i), i, 0, UidRange(0, 0));
      ShapeFromNetwork(e, n, x.nets[n], x.tabs, i, 0, UidRange(0, 0));
      Installed(x, rules, e);
    }
  }

  lemma NotIncoming(x: Setup, e: Entry)
    requires x.dummyRules <= 2 && OnlyRejects(x.rejects) && e in FixedRules(x.dummyTable, x.dummyRules, x.rejects)
    ensures e.IpRule?
  {}
}
