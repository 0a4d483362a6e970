/**
 * The network controller: networks, their interfaces, users and permissions, the default network,
 * and the requests each change sends to the kernel.
 */
module NetworkControllers {
  import opened Fwmarks
  import opened IpRules
  import opened UidRangeLists
  import opened Sums
  import opened RuleSet
  import opened RouteControllers
  import opened NetworkStates
  import opened RuleMembers
  import opened SyncSteps
  import opened PermissionSteps
  import opened Progress

  const ENONET := -64
  const EINVAL := -22
  const EEXIST := -17
  const EBUSY := -16

  /** A change that a network makes on each of its interfaces in turn. */
  datatype InterfaceOp =
    | BecomeDefault(vpns: set<NetId>, permission: Permission)
    | LinkVpn(vpn: NetId, permission: Permission)
    | GrantUsers(netId: NetId, kind: Kind, sub: nat, ranges: seq<UidRange>)

  ghost function OpEntries(op: InterfaceOp, iface: string, t: nat): multiset<Entry> {
    match op
    case BecomeDefault(vpns, permission) => DefaultIfaceEntries(vpns, t, permission)
    case LinkVpn(vpn, permission) => multiset(FallthroughRequests(vpn, t, permission))
    case GrantUsers(netId, kind, sub, ranges) => RangeSum(ranges, sub, Builder(netId, kind, iface, t))
  }

  ghost function OpFn(op: InterfaceOp, tabs: Tables): string -> multiset<Entry> {
    i => OpEntries(op, i, TableOf(tabs, i))
  }

  ghost predicate AllCached(tabs: Tables, ifaces: set<string>) {
    forall i :: i in ifaces ==> i in tabs
  }

  ghost predicate Remembers(before: Tables, after: Tables) {
    forall i :: i in before ==> i in after && after[i] == before[i]
  }

  function InitialNetworks(): Networks {
    map[LOCAL_NET_ID := Network(Local, {}, map[], None),
        DUMMY_NET_ID := Network(Dummy, {DUMMY_INTERFACE}, map[], None),
        UNREACHABLE_NET_ID := Network(UnreachableKind, {}, map[], None)]
  }

  lemma InitialState(tabs: Tables, fixed: multiset<Entry>)
    requires InitialFixed(tabs, fixed) && CacheStep(map[], tabs, DUMMY_INTERFACE)
    ensures LOCAL_NET_ID in InitialNetworks() && NetworksOk(InitialNetworks())
    ensures Synced(InitialNetworks(), NETID_UNSET, tabs, fixed, fixed)
  {
    hide INITIAL_REQUESTS, DummyRequests, Expected;
    InitialExpected(InitialNetworks(), tabs, fixed);
  }

  lemma InitialExpected(nets: Networks, tabs: Tables, fixed: multiset<Entry>)
    requires forall n :: n in nets ==> nets[n].uids == map[] && (nets[n].ifaces == {} || nets[n].kind.Dummy?)
    requires NETID_UNSET !in nets
    ensures Expected(nets, NETID_UNSET, tabs, fixed) == fixed
  {
    forall n | n in nets
      ensures NetworkFn(nets, tabs)(n) == multiset{}
    {
      var net := nets[n];
      var none: string -> multiset<Entry> := _ => multiset{};
      SumCongruence(net.ifaces, IfaceFn(n, net, tabs), none);
      SumNone(net.ifaces, none);
    }
    SumNone(nets.Keys, NetworkFn(nets, tabs));
  }

  lemma {:induction false} SumNone<T>(s: set<T>, f: T -> multiset<Entry>)
    requires forall x :: x in s ==> f(x) == multiset{}
    ensures Sum(s, f) == multiset{}
  {
    if s != {} {
      var x :| x in s;
      SumPick(s, f, x);
      SumNone(s - {x}, f);
    }
  }

  // ---- switching the default ------------------------------------------------------------------------

  predicate HasDefaultIface(nets: Networks, d: NetId) {
    d in nets && nets[d].kind.Physical? && nets[d].ifaces != {}
  }

  /** Some rule of the default-network band is installed. */
  ghost predicate HasDefaultRule(rules: multiset<Entry>) {
    exists e :: e in rules && e.IpRule? && e.priority == DEFAULT_NETWORK
  }

  lemma BecomeDefaultSum(ifaces: set<string>, vpns: set<NetId>, permission: Permission, tabs: Tables)
    ensures Sum(ifaces, OpFn(BecomeDefault(vpns, permission), tabs)) == DefaultEntries(ifaces, vpns, tabs, permission)
  {
    hide DefaultIfaceEntries;
    SumCongruence(ifaces, OpFn(BecomeDefault(vpns, permission), tabs), DefaultFn(vpns, tabs, permission));
  }

  lemma NoDefault(nets: Networks, n: NetId, tabs: Tables)
    requires n !in nets
    ensures DefaultAt(nets, n, tabs) == multiset{}
  {}

  /** Every interface of a physical or virtual network has a known table. */
  ghost predicate AllInterfacesCached(nets: Networks, tabs: Tables) {
    forall n :: n in nets && HasInterfaceTables(nets[n].kind) ==> AllCached(tabs, nets[n].ifaces)
  }

  lemma CachedInterfaces(nets: Networks, tabs: Tables)
    requires LOCAL_NET_ID in nets && CacheOk(nets, tabs)
    ensures AllInterfacesCached(nets, tabs)
  {}

  lemma FlagValue(nets: Networks, d: NetId)
    requires FlagsOk(nets, d)
    ensures forall n :: n in nets && nets[n].kind.Physical? ==> (nets[n].kind.isDefault <==> n == d)
  {}

  lemma FlagLeavesDefault(nets: Networks, d: NetId, n: NetId, tabs: Tables)
    requires n in nets && n != d
    ensures DefaultAt(WithDefaultFlag(nets, n, true), d, tabs) == DefaultAt(nets, d, tabs)
  {
    hide DefaultEntries;
    assert Vpns(WithDefaultFlag(nets, n, true)) == Vpns(nets);
  }

  lemma DefaultExpected(nets: Networks, d: NetId, tabs: Tables, fixed: multiset<Entry>)
    ensures DefaultAt(nets, d, tabs) <= Expected(nets, d, tabs, fixed)
  {}

  lemma DefaultNotTethering(nets: Networks, d: NetId, tabs: Tables, e: Entry)
    requires e in DefaultAt(nets, d, tabs)
    ensures !IsTethering(e)
  {
    DefaultMember(nets, d, tabs, e);
    hide DefaultAt;
  }

  /** In agreement, the rules of the default network are in the kernel. */
  lemma DefaultInstalled(nets: Networks, d: NetId, tabs: Tables, fixed: multiset<Entry>, rules: multiset<Entry>)
    requires LOCAL_NET_ID in nets && Synced(nets, d, tabs, fixed, rules)
    ensures DefaultAt(nets, d, tabs) <= rules
  {
    hide DefaultAt, Expected, CacheOk, FlagsOk, FixedOk;
    var m := DefaultAt(nets, d, tabs);
    DefaultExpected(nets, d, tabs, fixed);
    forall e
      ensures m[e] <= rules[e]
    {
      if e in m {
        DefaultNotTethering(nets, d, tabs, e);
        assert m[e] <= Expected(nets, d, tabs, fixed)[e];
      }
    }
  }

  /** From `start` on, every kernel state has a rule in the default-network band. */
  ghost predicate AllHaveDefault(trace: seq<multiset<Entry>>, start: nat) {
    forall k :: start <= k < |trace| ==> HasDefaultRule(trace[k])
  }

  lemma AddingKeepsDefault(nets: Networks, d: NetId, tabs: Tables, r0: multiset<Entry>, start: nat, r1: multiset<Entry>,
                           tr1: seq<multiset<Entry>>, gained: multiset<Entry>, ret: int)
    requires Effect(r0, start, r1, tr1, gained, true, ret)
    ensures HasDefaultIface(nets, d) && DefaultAt(nets, d, tabs) <= r0 ==> AllHaveDefault(tr1, start)
  {
    hide DefaultAt, HasDefaultRule;
    if HasDefaultIface(nets, d) && DefaultAt(nets, d, tabs) <= r0 {
      forall k | start <= k < |tr1|
        ensures HasDefaultRule(tr1[k])
      {
        DefaultRuleThere(nets, d, tabs, tr1[k]);
      }
    }
  }

  lemma DroppingKeepsDefault(nets: Networks, d: NetId, n: NetId, tabs: Tables, r0: multiset<Entry>, start: nat,
                             r1: multiset<Entry>,
                             tr1: seq<multiset<Entry>>, r2: multiset<Entry>, tr2: seq<multiset<Entry>>,
                               gained: multiset<Entry>, ret: int)
    requires gained == DefaultAt(nets, n, tabs) && Effect(r0, start, r1, tr1, gained, true, 0)
    requires DefaultAt(nets, d, tabs) <= r0
    requires tr1 <= tr2 && Effect(r1, |tr1|, r2, tr2, DefaultAt(nets, d, tabs), false, ret)
    ensures HasDefaultIface(nets, n) && AllHaveDefault(tr1, start) ==> AllHaveDefault(tr2, start)
  {
    hide DefaultAt, HasDefaultRule;
    var lost := DefaultAt(nets, d, tabs);
    if HasDefaultIface(nets, n) && AllHaveDefault(tr1, start) {
      forall k | start <= k < |tr2|
        ensures HasDefaultRule(tr2[k])
      {
        if k < |tr1| {
          assert tr2[k] == tr1[k];
        } else {
          assert gained <= r0 + gained - lost;
          DefaultRuleThere(nets, n, tabs, tr2[k]);
        }
      }
    }
  }

  lemma DefaultMoved(r0: multiset<Entry>, start: nat, r1: multiset<Entry>, tr1: seq<multiset<Entry>>,
                     r2: multiset<Entry>,
                     tr2: seq<multiset<Entry>>, gained: multiset<Entry>, lost: multiset<Entry>)
    requires Effect(r0, start, r1, tr1, gained, true, 0) && Effect(r1, |tr1|, r2, tr2, lost, false, 0)
    ensures lost <= r0 + gained && r2 == r0 + gained - lost
  {}

  lemma DefaultRuleThere(nets: Networks, n: NetId, tabs: Tables, rules: multiset<Entry>)
    requires HasDefaultIface(nets, n) && DefaultAt(nets, n, tabs) <= rules
    ensures HasDefaultRule(rules)
  {
    var i :| i in nets[n].ifaces;
    var e := DefaultNetwork(TableOf(tabs, i), nets[n].kind.permission);
    assert FromDefaultIface(e, Vpns(nets), TableOf(tabs, i), nets[n].kind.permission);
    DefaultMember(nets, n, tabs, e);
    hide DefaultAt;
    assert e in rules;
  }

  lemma CachedIn(c: Change, i: string)
    requires Distinct(c) && i in c.ifaces
    ensures i in c.tabs
  {}

  // ---- steps used by the operations below -----------------------------------------------------------

  lemma InsertOk(nets: Networks, n: NetId, net: Network)
    requires NetworksOk(nets) && n !in nets && NetworkOk(n, net) && net.ifaces == {}
    ensures NetworksOk(nets[n := net])
  {
    hide NetworkOk;
  }

  lemma LinkSum(ifaces: set<string>, vpn: NetId, permission: Permission, tabs: Tables)
    ensures Sum(ifaces, OpFn(LinkVpn(vpn, permission), tabs)) == Sum(ifaces, LinkFn(vpn, tabs, permission))
  {
    hide FallthroughRequests;
    SumCongruence(ifaces, OpFn(LinkVpn(vpn, permission), tabs), LinkFn(vpn, tabs, permission));
  }

  lemma EffectValue(r0: multiset<Entry>, start: nat, r1: multiset<Entry>, tr: seq<multiset<Entry>>, m: multiset<Entry>,
                    add: bool)
    requires Effect(r0, start, r1, tr, m, add, 0)
    ensures r1 == Applied(r0, m, add) && (!add ==> m <= r0)
  {}

  lemma EffectAdded(r0: multiset<Entry>, start: nat, r1: multiset<Entry>, tr: seq<multiset<Entry>>, m: multiset<Entry>)
    requires Effect(r0, start, r1, tr, m, true, 0)
    ensures r1 == r0 + m
  {}

  lemma EffectRemoved(r0: multiset<Entry>, start: nat, r1: multiset<Entry>, tr: seq<multiset<Entry>>,
                      m: multiset<Entry>)
    requires Effect(r0, start, r1, tr, m, false, 0)
    ensures m <= r0 && r1 == r0 - m
  {}

  /** The cache after an interface that no network has was looked up. */
  lemma CacheLearns(nets: Networks, d: NetId, n: NetId, i: string, tabs: Tables, tabs': Tables, fixed: multiset<Entry>,
                    rules: multiset<Entry>)
    requires LOCAL_NET_ID in nets && NetworksOk(nets) && Synced(nets, d, tabs, fixed, rules)
    requires CacheStep(tabs, tabs', i)
    requires n in nets && HasInterfaceTables(nets[n].kind) && forall m :: m in nets ==> i !in nets[m].ifaces
    ensures i in tabs' ==> JoinOk(nets, n, i, tabs, tabs')
    ensures i !in tabs' ==> tabs' == tabs
    ensures Synced(nets, d, tabs', fixed, rules)
  {
    hide FixedOk, FlagsOk, CacheOk, SameOutsideTethering, Expected, NetworksOk, JoinOk;
    StepDiffers(tabs, tabs', i);
    LearnCacheOk(nets, n, i, tabs, tabs');
    TablesAgree(nets, i, tabs, tabs');
    SameTables(nets, d, tabs, tabs', fixed);
    if DUMMY_NET_ID in nets {
      DummyKeepsTable(nets, n, i, tabs);
    }
    FixedStays(nets, nets, tabs, tabs', fixed);
  }

  lemma StepDiffers(tabs: Tables, tabs': Tables, i: string)
    requires CacheStep(tabs, tabs', i)
    ensures tabs' - {i} == tabs - {i}
    ensures i !in tabs' ==> tabs' == tabs
  {}

  lemma LearnCacheOk(nets: Networks, n: NetId, i: string, tabs: Tables, tabs': Tables)
    requires LOCAL_NET_ID in nets && CacheOk(nets, tabs) && CacheStep(tabs, tabs', i) && tabs' - {i} == tabs - {i}
    requires n in nets && HasInterfaceTables(nets[n].kind) && forall m :: m in nets ==> i !in nets[m].ifaces
    ensures CacheOk(nets, tabs') && (i in tabs' ==> JoinOk(nets, n, i, tabs, tabs'))
  {}

  lemma LearnLocal(nets: Networks, n: NetId, i: string, tabs: Tables)
    requires n in nets && nets[n].kind.Local? && forall m :: m in nets ==> i !in nets[m].ifaces
    ensures JoinOk(nets, n, i, tabs, tabs[i := TABLE_LOCAL_NETWORK])
  {
    assert tabs[i := TABLE_LOCAL_NETWORK] - {i} == tabs - {i};
  }

  lemma IfaceBatch(n: NetId, net: Network, i: string, t: nat)
    requires HasInterfaceTables(net.kind)
    ensures net.kind.Physical? ==>
      PhysicalBatch(n, i, t, net.uids, net.kind.permission, true, net.kind.local) == IfaceEntries(n, net, i, t)
    ensures net.kind.Virtual? ==>
      VirtualBatch(n, i, t, net.uids, net.kind.secure, true, net.kind.excludeLocal) == IfaceEntries(n, net, i, t)
  {
    hide UidSum, PhysicalRequests, VirtualRequests;
  }

  predicate TakesInterfaces(kind: Kind) {
    HasInterfaceTables(kind) || kind.Local?
  }

  /** In agreement, a network other than the three fixed ones is physical or virtual. */
  lemma KindsOf(nets: Networks, d: NetId, tabs: Tables, fixed: multiset<Entry>, rules: multiset<Entry>, n: NetId)
    requires LOCAL_NET_ID in nets && NetworksOk(nets) && Synced(nets, d, tabs, fixed, rules)
    ensures n in nets && (n == LOCAL_NET_ID || n == UNREACHABLE_NET_ID) ==> !HasInterfaceTables(nets[n].kind)
    ensures n in nets && n != LOCAL_NET_ID && n != UNREACHABLE_NET_ID ==>
      HasInterfaceTables(nets[n].kind) || (nets[n].kind.Dummy? && nets[n].ifaces != {})
  {
    if n in nets {
      assert NetworkOk(n, nets[n]);
    }
  }

  predicate AllPhysical(nets: Networks, netIds: seq<NetId>) {
    forall n :: n in netIds ==> n in nets && nets[n].kind.Physical?
  }

  /** The listed physical networks have the permission; the others are as they were. */
  function Repermitted(nets: Networks, netIds: seq<NetId>, permission: Permission): Networks {
    map n | n in nets :: if n in netIds && nets[n].kind.Physical? then WithPermission(nets[n], permission) else nets[n]
  }

  lemma RepermittedNone(nets: Networks, permission: Permission)
    ensures Repermitted(nets, [], permission) == nets
  {}

  lemma RepermittedOne(nets: Networks, netIds: seq<NetId>, k: nat, permission: Permission)
    requires k < |netIds|
    ensures var n, some := netIds[k], Repermitted(nets, netIds[..k], permission);
      && (n in some <==> n in nets)
      && (n in some ==> (some[n].kind.Physical? <==> nets[n].kind.Physical?))
      && (n in some && some[n].kind.Physical? ==>
          some[n := WithPermission(some[n], permission)] == Repermitted(nets, netIds[..k + 1], permission))
  {
    assert netIds[..k + 1] == netIds[..k] + [netIds[k]];
  }

  /** The last network of an interface index exists, if there is one. */
  predicate LastOk(last: map<nat, NetId>, nets: Networks) {
    forall k :: k in last ==> last[k] == NETID_UNSET || last[k] in nets
  }

  /** The last networks that are not `n`. */
  function Forgotten(last: map<nat, NetId>, n: NetId): map<nat, NetId> {
    map k | k in last && last[k] != n :: last[k]
  }

  lemma LastForgotten(last: map<nat, NetId>, nets: Networks, nets': Networks, n: NetId)
    requires LastOk(last, nets) && nets'.Keys == nets.Keys
    ensures LastOk(Forgotten(last, n), nets' - {n})
  {}

  /** No other network has the interface. */
  predicate Free(nets: Networks, n: NetId, iface: string) {
    forall m :: m in nets && m != n ==> iface !in nets[m].ifaces
  }

  /** The network takes interfaces, and has this one already or can find its table. */
  predicate Joinable(net: Network, iface: string, tabs: Tables, ifindex: map<string, nat>) {
    || net.kind.Local?
    || (HasInterfaceTables(net.kind) && (iface in net.ifaces || iface in tabs || iface in ifindex))
  }

  lemma NoDefaultGain(nets: Networks, d: NetId, n: NetId, i: string, t: nat)
    requires n in nets && !nets[n].kind.Physical?
    ensures IfaceGain(nets, d, n, i, t) == IfaceEntries(n, nets[n], i, t)
  {
    hide IfaceEntries;
  }

  lemma LeaveTogether(nets: Networks, d: NetId, n: NetId, i: string, t: nat, r0: multiset<Entry>, r1: multiset<Entry>,
                      r2: multiset<Entry>)
    requires n in nets
    requires DefaultGain(nets, d, n, t) <= r0 && r1 == r0 - DefaultGain(nets, d, n, t)
    requires IfaceEntries(n, nets[n], i, t) <= r1 && SameOutsideTethering(r1 - IfaceEntries(n, nets[n], i, t), r2)
    ensures IfaceGain(nets, d, n, i, t) <= r0 && SameOutsideTethering(r0 - IfaceGain(nets, d, n, i, t), r2)
  {
    hide IfaceEntries, DefaultGain;
    assert r0 - IfaceGain(nets, d, n, i, t) == r1 - IfaceEntries(n, nets[n], i, t);
  }

  lemma EraseOk(nets: Networks, n: NetId)
    requires NetworksOk(nets) && n != LOCAL_NET_ID && n != UNREACHABLE_NET_ID
    ensures NetworksOk(nets - {n})
  {}

  lemma NoneToDrop(nets: Networks, n: NetId, tabs: Tables)
    requires n in nets
    ensures nets[n].ifaces == {} ==> DefaultAt(nets, n, tabs) == multiset{}
  {}

  lemma FlagErased(nets: Networks, n: NetId, isDefault: bool)
    ensures WithDefaultFlag(nets, n, isDefault) - {n} == nets - {n}
    ensures WithDefaultFlag(nets, n, isDefault).Keys == nets.Keys
  {}

  lemma SameKinds(nets: Networks, nets': Networks, n: NetId, d: NetId)
    requires DefaultOk(nets, d) && nets' - {n} == nets - {n}
    ensures DefaultOk(nets' - {n}, if d == n then NETID_UNSET else d)
  {
    if d in nets && d != n {
      assert d in nets - {n} && (nets' - {n})[d] == (nets - {n})[d];
    }
  }

  lemma NoIfacesUnreachable(nets: Networks, n: NetId)
    requires NetworksOk(nets) && n in nets
    ensures nets[n].kind.UnreachableKind? ==> nets[n].ifaces == {}
  {}

  lemma GrantSum(n: NetId, net: Network, sub: nat, ranges: seq<UidRange>, tabs: Tables)
    requires !net.kind.UnreachableKind?
    ensures Sum(net.ifaces, OpFn(GrantUsers(n, net.kind, sub, ranges), tabs)) == UserGain(n, net, sub, ranges, tabs)
  {
    hide RangeSum;
    SumCongruence(net.ifaces, OpFn(GrantUsers(n, net.kind, sub, ranges), tabs),
                  GrantFn(n, net.kind, sub, ranges, tabs));
  }

  lemma UsersStayOk(nets: Networks, n: NetId, ranges: seq<UidRange>, sub: nat)
    requires NetworksOk(nets) && n in nets && ValidSubPriority(nets[n].kind, sub) && Sorted(ranges)
    ensures Sorted(RangesAt(nets[n].uids, sub))
    ensures NetworkOk(n, WithUsers(nets[n], ranges, sub)) && NetworkOk(n, WithoutUsers(nets[n], ranges, sub))
    ensures NetworksOk(nets[n := WithUsers(nets[n], ranges, sub)])
    ensures NetworksOk(nets[n := WithoutUsers(nets[n], ranges, sub)])
  {
    hide Sorted, Merge, Difference, ValidSubPriority;
    assert NetworkOk(n, nets[n]);
    SortedNone();
    WithUsersOk(n, nets[n], ranges, sub);
    hide NetworkOk;
  }

  lemma RejectsOnly(ranges: seq<UidRange>)
    ensures OnlyRejects(RangeSum(ranges, 0, RejectRequests))
  {
    hide RangeSum;
    forall e | e in RangeSum(ranges, 0, RejectRequests)
      ensures e.IpRule? && e == RejectNonSecure(e.uids)
    {
      RejectMember(ranges, e);
    }
  }

  lemma RejectPresent(ranges: seq<UidRange>, r0: multiset<Entry>, r1: multiset<Entry>, add: bool)
    requires r1 == Applied(r0, RangeSum(ranges, 0, RejectRequests), add)
    ensures add ==> forall r :: r in ranges ==> RejectNonSecure(LooseUids(r)) in r1
  {
    forall r | r in ranges
      ensures RejectNonSecure(LooseUids(r)) in RangeSum(ranges, 0, RejectRequests)
    {
      SumSeqIncludes(ranges, RangeFn(0, RejectRequests), r);
      assert RejectRequests(0, r)[0] == RejectNonSecure(LooseUids(r));
      assert RejectNonSecure(LooseUids(r)) in RangeFn(0, RejectRequests)(r);
    }
  }

  /** Reject ranges whose rules pass their checks, or were added before. */
  ghost predicate GoodRejects(rejects: multiset<Entry>, ranges: seq<UidRange>, add: bool) {
    if add then forall r :: r in ranges ==> !LooseUids(r).Refused?
    else RangeSum(ranges, 0, RejectRequests) <= rejects
  }

  lemma RejectsCan(nets: Networks, d: NetId, tabs: Tables, table: nat, count: nat, rejects: multiset<Entry>,
                   rules: multiset<Entry>, ranges: seq<UidRange>, add: bool)
    requires LOCAL_NET_ID in nets && NetworksOk(nets) && count <= 2 && AllSendable(rules)
    requires Synced(nets, d, tabs, FixedRules(table, count, rejects), rules) && GoodRejects(rejects, ranges, add)
    ensures CanApply(rules, RangeSum(ranges, 0, RejectRequests), add)
  {
    hide NetworksOk, Synced, AllSendable, FixedRules, OnlyRejects, SumSeq;
    var m := RangeSum(ranges, 0, RejectRequests);
    if add {
      forall e | e in m
        ensures Sendable(e)
      {
        var r := SumSeqMember(ranges, RangeFn(0, RejectRequests), e);
        assert e in RejectRequests(0, r);
      }
    } else {
      RejectsInstalled(nets, d, tabs, table, count, rejects, rules, m);
      CanDrop(rules, m);
    }
  }

  /** A tethering rule sends the packet to the table. */
  ghost predicate Forwarded(rules: multiset<Entry>, p: Packet, t: nat) {
    exists e :: e in rules && Matches(e, p) && e.priority == 21000 && e.action == ToTable(t)
  }

  lemma TetheringForwards(rules: multiset<Entry>, input: string, t: nat)
    requires Tethering(input, t) in rules
    ensures forall p: Packet :: p.iif == input ==> Forwarded(rules, p, t)
    ensures forall p: Packet :: p.iif != input ==> !Matches(Tethering(input, t), p)
  {
    forall p: Packet | p.iif == input
      ensures Forwarded(rules, p, t)
    {
      assert Matches(Tethering(input, t), p);
    }
  }

  /** Looking up a table, for whatever interface, changes nothing the state calls for. */
  lemma LookupKeepsSync(nets: Networks, d: NetId, i: string, tabs: Tables, tabs': Tables, fixed: multiset<Entry>,
                        rules: multiset<Entry>)
    requires LOCAL_NET_ID in nets && NetworksOk(nets) && Synced(nets, d, tabs, fixed, rules)
    requires CacheStep(tabs, tabs', i)
    ensures Synced(nets, d, tabs', fixed, rules)
  {
    hide NetworksOk, FixedOk, FlagsOk, SameOutsideTethering, Expected;
    if tabs' != tabs {
      forall n, j | n in nets && j in nets[n].ifaces && HasInterfaceTables(nets[n].kind)
        ensures TableOf(tabs, j) == TableOf(tabs', j)
      {
        assert j in tabs;
      }
      SameTables(nets, d, tabs, tabs', fixed);
      FixedStays(nets, nets, tabs, tabs', fixed);
    }
  }

  lemma TetheringOnly(r0: multiset<Entry>, start: nat, r1: multiset<Entry>, tr: seq<multiset<Entry>>, e: Entry,
                      add: bool, ret: int)
    requires IsTethering(e) && Effect(r0, start, r1, tr, multiset{e}, add, ret)
    ensures SameOutsideTethering(r0, r1)
  {
    forall x: Entry | !IsTethering(x)
      ensures r0[x] == r1[x]
    {
      assert Low(r0, multiset{e}, add)[x] == r0[x] && High(r0, multiset{e}, add)[x] == r0[x];
    }
  }

  lemma SameTrans(nets: Networks, d: NetId, tabs: Tables, fixed: multiset<Entry>, r0: multiset<Entry>,
                  r1: multiset<Entry>)
    requires LOCAL_NET_ID in nets && Synced(nets, d, tabs, fixed, r0) && SameOutsideTethering(r0, r1)
    ensures Synced(nets, d, tabs, fixed, r1)
  {
    hide FixedOk, FlagsOk, CacheOk, Expected;
  }

  function AddressSet(addresses: map<string, set<nat>>, address: string): set<nat> {
    if address in addresses then addresses[address] else {}
  }

  /** Reading a missing entry of the last-network map gives 0, and leaves a 0 entry behind. */
  function LastOf(last: map<nat, NetId>, index: nat): NetId {
    if index in last then last[index] else NETID_UNSET
  }

  class NetworkController {
    const rc: RouteController
    var networks: Networks
    var defaultNetId: NetId
    var lastNetId: map<nat, NetId>
    var addresses: map<string, set<nat>>

    /** What no kernel failure can break. */
    ghost predicate Inv()
      reads this, rc
    {
      && rc.Valid() && rc.Pinned()
      && LOCAL_NET_ID in networks
      && NetworksOk(networks)
      && DefaultOk(networks, defaultNetId)
      && LastOk(lastNetId, networks)
      && (forall a :: a in addresses ==> addresses[a] != {})
    }

    ghost predicate InSync()
      reads this, rc
    {
      LOCAL_NET_ID in networks && Synced(networks, defaultNetId, rc.tables, rc.fixed, rc.rules)
    }

    ghost predicate InSyncWith(tabs: Tables, rules: multiset<Entry>)
      reads this, rc
    {
      LOCAL_NET_ID in networks && Synced(networks, defaultNetId, tabs, rc.fixed, rules)
    }

    constructor (names: map<string, nat>)
      requires TablesOk(map[], names)
      ensures fresh(rc) && Inv() && InSync() && !rc.aborted
      ensures networks == InitialNetworks() && defaultNetId == NETID_UNSET && lastNetId == map[] && addresses == map[]
      ensures rc.rejects == multiset{} && rc.ifindex == names
    {
      hide TablesOk, AllSendable, NetworksOk, InitialFixed, Synced, InitialNetworks, CacheStep, FixedRules, OnlyRejects;
      rc := new RouteController(names);
      networks := InitialNetworks();
      defaultNetId := NETID_UNSET;
      lastNetId, addresses := map[], map[];
      new;
      InitialState(rc.tables, rc.fixed);
    }

    // ---- one interface at a time ----------------------------------------------------------------

    /** The default-network rule of an interface, then the fallthrough rules of every VPN. */
    method ModifyDefault(iface: string, vpns: set<NetId>, permission: Permission, add: bool) returns (ret: int)
      requires rc.Valid()
      modifies rc`tables, rc`rules, rc`trace, rc`aborted, rc`refused
      ensures rc.Valid()
      ensures rc.Batch(iface, DefaultIfaceEntries(vpns, TableOf(rc.tables, iface), permission), add, ret)
    {
      hide Effect, Able, TablesOk, AllSendable, FixedRules, OnlyRejects, FallthroughRequests;
      ret := rc.ModifyDefaultNetwork(iface, permission, add);
      ghost var t := TableOf(rc.tables, iface);
      ghost var fn := FallthroughFn(t, permission);
      ghost var done := multiset{DefaultNetwork(t, permission)};
      if ret != 0 {
        if iface in rc.tables {
          EffectWiden(old(rc.rules), |old(rc.trace)|, rc.rules, rc.trace, done, Sum(vpns, fn), add, ret);
          AbleWhole(old(rc.rules), done, Sum(vpns, fn), add, ret, rc.refused);
        }
        return;
      }
      var todo := vpns;
      while todo != {}
        invariant todo <= vpns && ret == 0 && iface in rc.tables && t == TableOf(rc.tables, iface)
        invariant rc.Valid() && CacheStep(old(rc.tables), rc.tables, iface)
        invariant old(rc.trace) <= rc.trace && rc.aborted == old(rc.aborted) && (old(rc.refused) ==> rc.refused)
        invariant Effect(old(rc.rules), |old(rc.trace)|, rc.rules, rc.trace, done, add, 0)
        invariant done + Sum(todo, fn) == DefaultIfaceEntries(vpns, t, permission)
      {
        var v :| v in todo;
        SumPick(todo, fn, v);
        ghost var r1, tr1, part, rest := rc.rules, rc.trace, fn(v), Sum(todo - {v}, fn);
        ret := rc.ModifyFallthrough(v, iface, permission, add);
        EffectThen(old(rc.rules), |old(rc.trace)|, r1, tr1, done, rc.rules, rc.trace, part, add, ret);
        AbleThen(old(rc.rules), |old(rc.trace)|, r1, tr1, done, part, rest, add, ret, rc.refused);
        assert done + part + rest == DefaultIfaceEntries(vpns, t, permission);
        if ret != 0 {
          EffectWiden(old(rc.rules), |old(rc.trace)|, rc.rules, rc.trace, done + part, rest, add, ret);
          return;
        }
        todo, done := todo - {v}, done + part;
      }
      assert Sum(todo, fn) == multiset{};
      assert done == DefaultIfaceEntries(vpns, t, permission);
      NeverFailed(old(rc.rules), done, add, rc.refused);
    }

    method ApplyTo(iface: string, op: InterfaceOp, add: bool) returns (ret: int)
      requires rc.Valid()
      requires op.GrantUsers? ==> HasInterfaceTables(op.kind)
      modifies rc`tables, rc`rules, rc`trace, rc`aborted, rc`refused
      ensures rc.Valid()
      ensures rc.Batch(iface, OpEntries(op, iface, TableOf(rc.tables, iface)), add, ret)
    {
      hide Effect, Able, TablesOk, AllSendable, FixedRules, UidSum, RangeSum, FallthroughRequests, DefaultIfaceEntries;
      hide OnlyRejects, CacheStep;
      match op
      case BecomeDefault(vpns, permission) =>
        ret := ModifyDefault(iface, vpns, permission, add);
      case LinkVpn(vpn, permission) =>
        ret := rc.ModifyFallthrough(vpn, iface, permission, add);
      case GrantUsers(netId, kind, sub, ranges) =>
        if kind.Physical? {
          ret := rc.ModifyPhysicalNetwork(netId, iface, map[sub := ranges], PERMISSION_NONE, add, false, kind.local);
          ghost var t := TableOf(rc.tables, iface);
          OneSubSum(ranges, sub, PhysicalUids(netId, t));
          assert PhysicalBatch(netId, iface, t, map[sub := ranges], PERMISSION_NONE, false, kind.local)
            == OpEntries(op, iface, t);
        } else {
          ret := rc.ModifyVirtualNetwork(netId, iface, map[sub := ranges], kind.secure, add, false, kind.excludeLocal);
          ghost var t := TableOf(rc.tables, iface);
          OneSubSum(ranges, sub, VirtualUids(netId, iface, t, kind.secure, kind.excludeLocal));
          assert VirtualBatch(netId, iface, t, map[sub := ranges], kind.secure, false, kind.excludeLocal)
            == OpEntries(op, iface, t);
        }
    }

    /** Applies a change to each interface, in no particular order, until one request fails. */
    method ForEach(ifaces: set<string>, op: InterfaceOp, add: bool) returns (ret: int)
      requires rc.Valid()
      requires op.GrantUsers? ==> HasInterfaceTables(op.kind)
      modifies rc`tables, rc`rules, rc`trace, rc`aborted, rc`refused
      ensures rc.Valid() && old(rc.trace) <= rc.trace && Remembers(old(rc.tables), rc.tables)
      ensures (old(rc.aborted) ==> rc.aborted) && (old(rc.refused) ==> rc.refused)
      ensures AllCached(old(rc.tables), ifaces) ==>
        && rc.tables == old(rc.tables)
        && Effect(old(rc.rules), |old(rc.trace)|, rc.rules, rc.trace, Sum(ifaces, OpFn(op, rc.tables)), add, ret)
        && (rc.aborted <==> old(rc.aborted) || ret != 0)
        && Able(old(rc.rules), Sum(ifaces, OpFn(op, rc.tables)), add, ret, rc.refused)
    {
      hide Effect, Able, TablesOk, AllSendable, FixedRules, OnlyRejects, OpEntries;
      ret := 0;
      EffectNone(rc.rules, rc.trace, add);
      ghost var cached, fn := AllCached(rc.tables, ifaces), OpFn(op, rc.tables);
      ghost var done: multiset<Entry> := multiset{};
      var todo := ifaces;
      while todo != {}
        invariant todo <= ifaces && ret == 0
        invariant rc.Valid() && old(rc.trace) <= rc.trace && Remembers(old(rc.tables), rc.tables)
        invariant (old(rc.aborted) ==> rc.aborted) && (old(rc.refused) ==> rc.refused)
        invariant cached ==> rc.tables == old(rc.tables) && rc.aborted == old(rc.aborted)
        invariant cached ==> Effect(old(rc.rules), |old(rc.trace)|, rc.rules, rc.trace, done, add, 0)
        invariant cached ==> done + Sum(todo, fn) == Sum(ifaces, fn)
      {
        var i :| i in todo;
        SumPick(todo, fn, i);
        ghost var r1, tr1, part, rest := rc.rules, rc.trace, fn(i), Sum(todo - {i}, fn);
        ret := ApplyTo(i, op, add);
        if cached {
          EffectThen(old(rc.rules), |old(rc.trace)|, r1, tr1, done, rc.rules, rc.trace, part, add, ret);
          AbleThen(old(rc.rules), |old(rc.trace)|, r1, tr1, done, part, rest, add, ret, rc.refused);
          assert done + part + rest == Sum(ifaces, fn);
          if ret != 0 {
            EffectWiden(old(rc.rules), |old(rc.trace)|, rc.rules, rc.trace, done + part, rest, add, ret);
          }
        }
        if ret != 0 {
          return;
        }
        todo, done := todo - {i}, done + part;
      }
      if cached {
        assert Sum(todo, fn) == multiset{};
        assert done == Sum(ifaces, fn);
        NeverFailed(old(rc.rules), done, add, rc.refused);
      }
    }

    // ---- the default network --------------------------------------------------------------------

    /** `addAsDefault` and `removeAsDefault` of a physical network. */
    method SetAsDefault(n: NetId, add: bool) returns (ret: int)
      requires Inv() && n in networks && networks[n].kind.Physical?
      modifies this`networks, rc`tables, rc`rules, rc`trace, rc`aborted, rc`refused
      ensures Inv()
      ensures networks == if ret == 0 then WithDefaultFlag(old(networks), n, add) else old(networks)
      ensures old(rc.trace) <= rc.trace && (old(rc.aborted) ==> rc.aborted) && Remembers(old(rc.tables), rc.tables)
      ensures old(rc.refused) ==> rc.refused
      ensures old(networks[n].kind.isDefault) == add ==> ret == 0 && unchanged(rc)
      ensures old(networks[n].kind.isDefault) != add && AllCached(old(rc.tables), old(networks)[n].ifaces) ==>
        && rc.tables == old(rc.tables)
        && Effect(old(rc.rules), |old(rc.trace)|, rc.rules, rc.trace, DefaultAt(old(networks), n, rc.tables), add, ret)
        && (rc.aborted <==> old(rc.aborted) || ret != 0)
        && Able(old(rc.rules), DefaultAt(old(networks), n, rc.tables), add, ret, rc.refused)
    {
      hide Effect, Able, TablesOk, AllSendable, FixedRules, NetworksOk, OpEntries, DefaultEntries, AllCached;
      hide OnlyRejects;
      var net := networks[n];
      if net.kind.isDefault == add {
        assert WithFlag(net, add) == net;
        return 0;
      }
      ret := ForEach(net.ifaces, BecomeDefault(Vpns(networks), net.kind.permission), add);
      BecomeDefaultSum(net.ifaces, Vpns(networks), net.kind.permission, rc.tables);
      if ret != 0 {
        return;
      }
      FlagShape(networks, n, add);
      networks := networks[n := WithFlag(net, add)];
    }

    /**
     * Switches the default network: the new one gets its rules before the old one loses its own, so
     * if both have interfaces no kernel state on the way is without a default-network rule.
     */
    method SwitchDefault(n: NetId) returns (ret: int)
      requires Inv() && DefaultOk(networks, n) && n != defaultNetId
      modifies this`networks, this`defaultNetId, rc`tables, rc`rules, rc`trace, rc`aborted, rc`refused
      ensures Inv() && old(rc.trace) <= rc.trace && (old(rc.aborted) ==> rc.aborted)
      ensures old(rc.refused) ==> rc.refused
      ensures old(InSync()) && !rc.refused ==> ret == 0 && rc.aborted == old(rc.aborted)
      ensures old(InSync()) && !rc.aborted ==> InSync()
      ensures defaultNetId == if ret == 0 then n else old(defaultNetId)
      ensures ret == 0 ==>
        networks == WithDefaultFlag(WithDefaultFlag(old(networks), n, true), old(defaultNetId), false)
      ensures ret != 0 ==> networks == old(networks) || networks == WithDefaultFlag(old(networks), n, true)
      ensures old(InSync()) ==>
        HasDefaultIface(old(networks), old(defaultNetId)) && HasDefaultIface(old(networks), n) ==>
          AllHaveDefault(rc.trace, |old(rc.trace)|)
    {
      hide Effect, CanApply, TablesOk, AllSendable, FixedRules, NetworksOk, DefaultAt, CacheOk, FlagsOk, FixedOk;
      hide OnlyRejects, SameOutsideTethering;
      hide AllHaveDefault, Remembers, HasDefaultIface, AllCached, Expected, Vpns;
      ghost var nets, d, tabs, synced := networks, defaultNetId, rc.tables, InSync();
      ghost var gained, lost := DefaultAt(nets, n, tabs), DefaultAt(nets, d, tabs);
      NotUnreachable(networks, LOCAL_NET_ID);
      if synced {
        DefaultInstalled(nets, d, tabs, rc.fixed, rc.rules);
        CachedInterfaces(nets, tabs);
        FlagValue(nets, d);
        DefaultSendable(nets, n, tabs, rc.rules);
        CanDrop(rc.rules, lost);
      }
      if n != NETID_UNSET {
        ret := SetAsDefault(n, true);
        if synced {
          AddingKeepsDefault(nets, d, tabs, old(rc.rules), |old(rc.trace)|, rc.rules, rc.trace, gained, ret);
        }
        if ret != 0 {
          return;
        }
        FlagLeavesDefault(nets, d, n, tabs);
      } else {
        NoDefault(networks, n, tabs);
        EffectNone(rc.rules, rc.trace, true);
        AddingKeepsDefault(nets, d, tabs, rc.rules, |rc.trace|, rc.rules, rc.trace, gained, 0);
      }
      ghost var r1, tr1 := rc.rules, rc.trace;
      if synced {
        CanStill(old(rc.rules), |old(rc.trace)|, r1, tr1, gained, lost);
      }
      ret := 0;
      if defaultNetId != NETID_UNSET {
        ret := SetAsDefault(defaultNetId, false);
        if synced {
          DroppingKeepsDefault(nets, d, n, tabs, old(rc.rules), |old(rc.trace)|, r1, tr1, rc.rules, rc.trace, gained,
                               ret);
        }
        if ret != 0 {
          return;
        }
      } else {
        NoDefault(nets, d, tabs);
        EffectNone(rc.rules, rc.trace, false);
      }
      if synced {
        DefaultMoved(old(rc.rules), |old(rc.trace)|, r1, tr1, rc.rules, rc.trace, gained, lost);
        SyncDefault(nets, d, n, tabs, rc.fixed, old(rc.rules), rc.rules);
      }
      defaultNetId := n;
    }

    method SetDefaultNetwork(n: NetId) returns (ret: int)
      requires Inv()
      modifies this`networks, this`defaultNetId, rc`tables, rc`rules, rc`trace, rc`aborted, rc`refused
      ensures Inv() && old(rc.trace) <= rc.trace && (old(rc.aborted) ==> rc.aborted)
      ensures old(rc.refused) ==> rc.refused
      ensures old(InSync()) && !rc.refused ==>
        (ret == 0 <==> DefaultOk(old(networks), n)) && rc.aborted == old(rc.aborted)
      ensures old(InSync()) && !rc.aborted ==> InSync()
      ensures defaultNetId == if ret == 0 then n else old(defaultNetId)
      ensures n != old(defaultNetId) && !DefaultOk(old(networks), n) ==>
        ret == (if n in old(networks) then EINVAL else ENONET) && unchanged(rc) && networks == old(networks)
      ensures n == old(defaultNetId) ==> ret == 0 && unchanged(rc) && networks == old(networks)
      ensures n != old(defaultNetId) && ret == 0 ==>
        networks == WithDefaultFlag(WithDefaultFlag(old(networks), n, true), old(defaultNetId), false)
      ensures ret != 0 ==> networks == old(networks) || networks == WithDefaultFlag(old(networks), n, true)
      ensures old(InSync()) ==>
        HasDefaultIface(old(networks), old(defaultNetId)) && HasDefaultIface(old(networks), n) ==>
          AllHaveDefault(rc.trace, |old(rc.trace)|)
    {
      hide NetworksOk, TablesOk, AllSendable, FixedRules, OnlyRejects, Synced;
      if n == defaultNetId {
        return 0;
      }
      if n != NETID_UNSET {
        if n !in networks {
          return ENONET;
        }
        if !networks[n].kind.Physical? {
          return EINVAL;
        }
      }
      ret := SwitchDefault(n);
    }

    // ---- creating networks ----------------------------------------------------------------------

    method CreatePhysicalNetwork(netId: nat, permission: Permission, local: bool) returns (ret: int)
      requires Inv()
      modifies this`networks
      ensures Inv()
      ensures old(InSync()) ==> InSync()
      ensures ret == if !(MIN_NET_ID <= netId <= MAX_NET_ID || MIN_OEM_ID <= netId <= MAX_OEM_ID) then EINVAL
                     else if netId in old(networks) then EEXIST else 0
      ensures networks == if ret == 0
        then old(networks)[netId := Network(Physical(permission, false, local), {}, map[], None)]
                          else old(networks)
    {
      hide NetworksOk, TablesOk, AllSendable, FixedRules, OnlyRejects, Synced;
      if !(MIN_NET_ID <= netId <= MAX_NET_ID || MIN_OEM_ID <= netId <= MAX_OEM_ID) {
        return EINVAL;
      }
      if netId in networks {
        return EEXIST;
      }
      var net := Network(Physical(permission, false, local), {}, map[], None);
      InsertOk(networks, netId, net);
      if InSync() {
        SyncCreatePhysical(networks, defaultNetId, netId, net, rc.tables, rc.fixed, rc.rules);
      }
      networks := networks[netId := net];
      ret := 0;
    }

    /** The fallthrough rules of one VPN over every interface of the default network. */
    method ModifyFallthroughLocked(vpn: NetId, add: bool) returns (ret: int)
      requires Inv()
      modifies rc`tables, rc`rules, rc`trace, rc`aborted, rc`refused
      ensures rc.Valid() && old(rc.trace) <= rc.trace && (old(rc.aborted) ==> rc.aborted)
      ensures Remembers(old(rc.tables), rc.tables)
      ensures old(rc.refused) ==> rc.refused
      ensures AllInterfacesCached(networks, old(rc.tables)) ==>
        && rc.tables == old(rc.tables)
        && Effect(old(rc.rules), |old(rc.trace)|, rc.rules, rc.trace, LinkAt(networks, defaultNetId, vpn, rc.tables),
                  add, ret)
        && (rc.aborted <==> old(rc.aborted) || ret != 0)
        && Able(old(rc.rules), LinkAt(networks, defaultNetId, vpn, rc.tables), add, ret, rc.refused)
    {
      hide Effect, Able, TablesOk, AllSendable, FixedRules, OnlyRejects, NetworksOk, OpEntries;
      NotUnreachable(networks, LOCAL_NET_ID);
      if defaultNetId == NETID_UNSET {
        EffectNone(rc.rules, rc.trace, add);
        NeverFailed(rc.rules, LinkAt(networks, defaultNetId, vpn, rc.tables), add, rc.refused);
        return 0;
      }
      var net := networks[defaultNetId];
      ret := ForEach(net.ifaces, LinkVpn(vpn, net.kind.permission), add);
      LinkSum(net.ifaces, vpn, net.kind.permission, rc.tables);
    }

    method InsertVpn(n: NetId, net: Network) returns (ret: int)
      requires Inv() && n !in networks && n != NETID_UNSET && net.kind.Virtual? && net.ifaces == {} && NetworkOk(n, net)
      modifies this`networks, rc`tables, rc`rules, rc`trace, rc`aborted, rc`refused
      ensures Inv() && old(rc.trace) <= rc.trace && (old(rc.aborted) ==> rc.aborted)
      ensures old(rc.refused) ==> rc.refused
      ensures old(InSync()) && !rc.refused ==> ret == 0 && rc.aborted == old(rc.aborted)
      ensures old(InSync()) && !rc.aborted ==> InSync()
      ensures networks == if ret == 0 then old(networks)[n := net] else old(networks)
    {
      hide NetworksOk, TablesOk, AllSendable, FixedRules, CacheOk, FlagsOk, FixedOk, SameOutsideTethering, LinkAt;
      hide OnlyRejects, Effect, Remembers;
      hide Expected, NetworkOk, AllInterfacesCached, Applied, CanApply;
      InsertOk(networks, n, net);
      ghost var synced := InSync();
      if synced {
        CachedInterfaces(networks, rc.tables);
        LinkSendable(networks, defaultNetId, n, rc.tables, rc.rules);
      }
      ret := ModifyFallthroughLocked(n, true);
      if ret != 0 {
        return;
      }
      if synced {
        EffectAdded(old(rc.rules), |old(rc.trace)|, rc.rules, rc.trace, LinkAt(networks, defaultNetId, n, rc.tables));
        SyncCreateVirtual(networks, defaultNetId, n, net, rc.tables, rc.fixed, old(rc.rules), rc.rules);
      }
      networks := networks[n := net];
    }

    method CreateVirtualNetwork(netId: nat, secure: bool, validVpnType: bool, excludeLocal: bool) returns (ret: int)
      requires Inv()
      modifies this`networks, rc`tables, rc`rules, rc`trace, rc`aborted, rc`refused
      ensures Inv() && old(rc.trace) <= rc.trace && (old(rc.aborted) ==> rc.aborted)
      ensures old(rc.refused) ==> rc.refused
      ensures old(InSync()) && !rc.refused ==> rc.aborted == old(rc.aborted)
      ensures old(InSync()) && !rc.aborted ==> InSync()
      ensures old(InSync()) && !rc.refused ==>
        (ret == 0 <==> MIN_NET_ID <= netId <= MAX_NET_ID && netId !in old(networks) && validVpnType)
      ensures !(MIN_NET_ID <= netId <= MAX_NET_ID) ==> ret == EINVAL && unchanged(rc)
      ensures MIN_NET_ID <= netId <= MAX_NET_ID && netId in old(networks) ==> ret == EEXIST && unchanged(rc)
      ensures MIN_NET_ID <= netId <= MAX_NET_ID && netId !in old(networks) && !validVpnType ==>
        ret == EINVAL && unchanged(rc)
      ensures networks == if ret == 0
        then old(networks)[netId := Network(Virtual(secure, excludeLocal), {}, map[], None)]
                          else old(networks)
    {
      hide NetworksOk, TablesOk, AllSendable, FixedRules, OnlyRejects, Synced;
      if !(MIN_NET_ID <= netId <= MAX_NET_ID) {
        return EINVAL;
      }
      if netId in networks {
        return EEXIST;
      }
      if !validVpnType {
        return EINVAL;
      }
      ret := InsertVpn(netId, Network(Virtual(secure, excludeLocal), {}, map[], None));
    }

    // ---- interfaces -----------------------------------------------------------------------------

    /** The virtual function `addInterface` of each kind of network. */
    method AddInterface(n: NetId, iface: string) returns (ret: int)
      requires Inv() && n in networks && forall m :: m in networks && m != n ==> iface !in networks[m].ifaces
      modifies this`networks, rc`tables, rc`rules, rc`trace, rc`aborted, rc`refused
      ensures old(rc.refused) ==> rc.refused
      ensures Inv() && old(rc.trace) <= rc.trace && (old(rc.aborted) ==> rc.aborted)
      ensures old(InSync()) && !rc.aborted ==> InSync()
      ensures old(InSync()) && !rc.aborted ==>
        (ret == 0 <==> Joinable(old(networks)[n], iface, old(rc.tables), rc.ifindex))
      ensures old(InSync()) && !rc.refused && |iface| < IFNAMSIZ && GoodUids(old(networks)[n]) ==>
        rc.aborted == old(rc.aborted)
      ensures networks == if ret == 0 then old(networks)[n := WithIface(old(networks)[n], iface)] else old(networks)
    {
      hide Effect, TablesOk, AllSendable, FixedRules, NetworksOk, CacheOk, FlagsOk, FixedOk, SameOutsideTethering;
      hide OnlyRejects, IfaceGain, JoinOk, CacheStep;
      var net := networks[n];
      if !TakesInterfaces(net.kind) {
        return EINVAL;
      }
      if iface in net.ifaces {
        assert WithIface(net, iface) == net by { assert net.ifaces + {iface} == net.ifaces; }
        return 0;
      }
      JoinNetworksOk(networks, n, iface);
      if net.kind.Physical? {
        ret := AddPhysicalInterface(n, iface);
      } else if net.kind.Virtual? {
        ret := AddVirtualInterface(n, iface);
      } else {
        ret := AddLocalInterface(n, iface);
      }
      if ret == 0 {
        networks := networks[n := WithIface(net, iface)];
      }
    }

    /** What joining a network does to the kernel, for an interface that belongs to none. */
    twostate predicate Joined(n: NetId, iface: string, ret: int)
      requires n in networks
      reads this, rc
    {
      && rc.Valid() && old(rc.trace) <= rc.trace && (old(rc.aborted) ==> rc.aborted) && (old(rc.refused) ==> rc.refused)
      && (old(InSync()) && !rc.aborted ==>
           && (ret == 0 ==> var nets' := networks[n := WithIface(networks[n], iface)];
                            LOCAL_NET_ID in nets' && Synced(nets', defaultNetId, rc.tables, rc.fixed, rc.rules))
           && (ret != 0 ==> InSync())
           && (ret == 0 <==> networks[n].kind.Local? || iface in old(rc.tables) || iface in old(rc.ifindex)))
      && (old(InSync()) && !rc.refused && |iface| < IFNAMSIZ && GoodUids(networks[n]) ==>
           rc.aborted == old(rc.aborted))
    }

    method AddPhysicalInterface(n: NetId, iface: string) returns (ret: int)
      requires Inv() && n in networks && networks[n].kind.Physical? && forall m :: m in networks ==>
        iface !in networks[m].ifaces
      modifies rc`tables, rc`rules, rc`trace, rc`aborted, rc`refused
      ensures Joined(n, iface, ret)
    {
      hide Effect, TablesOk, AllSendable, FixedRules, NetworksOk, FixedOk, SameOutsideTethering, PhysicalBatch, CacheOk;
      hide OnlyRejects, FlagsOk, JoinOk, CanApply, GoodUids, Expected;
      hide IfaceEntries, DefaultIfaceEntries;
      var net := networks[n];
      ghost var synced := InSync();
      ghost var good := |iface| < IFNAMSIZ && GoodUids(net);
      ghost var nets, d := networks, defaultNetId;
      ret := rc.AddInterfaceToPhysicalNetwork(n, iface, net.kind.permission, net.uids, net.kind.local);
      ghost var t, r1, tr1 := TableOf(rc.tables, iface), rc.rules, rc.trace;
      if synced {
        FlagValue(nets, d);
        CacheLearns(nets, d, n, iface, old(rc.tables), rc.tables, rc.fixed, old(rc.rules));
        IfaceBatch(n, net, iface, t);
      }
      if good {
        IfaceSendable(n, net, iface, t, old(rc.rules));
        DefaultIfaceSendable(Vpns(networks), t, net.kind.permission, rc.rules);
      }
      if ret != 0 {
        return;
      }
      if net.kind.isDefault {
        ret := ModifyDefault(iface, Vpns(networks), net.kind.permission, true);
      } else {
        EffectNone(rc.rules, rc.trace, true);
      }
      if synced && ret == 0 {
        EffectThen(old(rc.rules), |old(rc.trace)|, r1, tr1, IfaceEntries(n, net, iface, t), rc.rules, rc.trace,
                   DefaultGain(nets, d, n, t), true, 0);
        EffectValue(old(rc.rules), |old(rc.trace)|, rc.rules, rc.trace, IfaceGain(nets, d, n, iface, t), true);
        SyncJoin(nets, d, n, iface, old(rc.tables), rc.tables, rc.fixed, old(rc.rules), rc.rules);
      }
    }

    method AddVirtualInterface(n: NetId, iface: string) returns (ret: int)
      requires Inv() && n in networks && networks[n].kind.Virtual? && forall m :: m in networks ==>
        iface !in networks[m].ifaces
      modifies rc`tables, rc`rules, rc`trace, rc`aborted, rc`refused
      ensures Joined(n, iface, ret)
    {
      hide Effect, TablesOk, AllSendable, FixedRules, NetworksOk, FixedOk, SameOutsideTethering, VirtualBatch, CacheOk;
      hide OnlyRejects, FlagsOk, IfaceEntries, JoinOk, CacheStep, CanApply, GoodUids, Expected, IfaceGain;
      var net := networks[n];
      ghost var nets, d, synced := networks, defaultNetId, InSync();
      ret := rc.AddInterfaceToVirtualNetwork(n, iface, net.kind.secure, net.uids, net.kind.excludeLocal);
      ghost var t := TableOf(rc.tables, iface);
      if synced {
        CacheLearns(nets, d, n, iface, old(rc.tables), rc.tables, rc.fixed, old(rc.rules));
        IfaceBatch(n, net, iface, t);
        if |iface| < IFNAMSIZ && GoodUids(net) {
          IfaceSendable(n, net, iface, t, old(rc.rules));
        }
        if ret == 0 {
          NoDefaultGain(nets, d, n, iface, t);
          EffectValue(old(rc.rules), |old(rc.trace)|, rc.rules, rc.trace, IfaceGain(nets, d, n, iface, t), true);
          SyncJoin(nets, d, n, iface, old(rc.tables), rc.tables, rc.fixed, old(rc.rules), rc.rules);
        }
      }
    }

    method AddLocalInterface(n: NetId, iface: string) returns (ret: int)
      requires Inv() && n in networks && networks[n].kind.Local? && forall m :: m in networks ==>
        iface !in networks[m].ifaces
      modifies rc`tables, rc`rules, rc`trace, rc`aborted, rc`refused
      ensures Joined(n, iface, ret)
    {
      hide Effect, TablesOk, AllSendable, FixedRules, NetworksOk, FixedOk, SameOutsideTethering, LocalRequests;
      hide OnlyRejects, CacheOk, FlagsOk, JoinOk, CanApply, GoodUids, Expected;
      var net := networks[n];
      ghost var nets, d, synced := networks, defaultNetId, InSync();
      if |iface| < IFNAMSIZ && GoodUids(net) {
        IfaceSendable(n, net, iface, TABLE_LOCAL_NETWORK, rc.rules);
        assert IfaceEntries(n, net, iface, TABLE_LOCAL_NETWORK) == multiset(LocalRequests(iface));
      }
      ret := rc.AddInterfaceToLocalNetwork(iface);
      if synced && ret == 0 {
        assert IfaceGain(nets, d, n, iface, TABLE_LOCAL_NETWORK) == multiset(LocalRequests(iface));
        EffectValue(old(rc.rules), |old(rc.trace)|, rc.rules, rc.trace, multiset(LocalRequests(iface)), true);
        LearnLocal(nets, n, iface, old(rc.tables));
        SyncJoin(nets, d, n, iface, old(rc.tables), rc.tables, rc.fixed, old(rc.rules), rc.rules);
      }
    }

    /** What leaving a network does to the kernel. */
    twostate predicate Left(n: NetId, iface: string, ret: int)
      requires n in networks
      reads this, rc
    {
      && rc.Valid() && old(rc.trace) <= rc.trace && (old(rc.aborted) ==> rc.aborted) && (old(rc.refused) ==> rc.refused)
      && (old(InSync()) && !rc.refused ==> rc.aborted == old(rc.aborted))
      && (old(InSync()) && !rc.aborted ==>
           var nets' := networks[n := WithoutIface(networks[n], iface)];
           ret == 0 && LOCAL_NET_ID in nets' && Synced(nets', defaultNetId, rc.tables, rc.fixed, rc.rules))
    }

    method RemovePhysicalInterface(n: NetId, iface: string) returns (ret: int)
      requires Inv() && n in networks && networks[n].kind.Physical? && iface in networks[n].ifaces
      modifies rc`tables, rc`rules, rc`trace, rc`aborted, rc`refused
      ensures Left(n, iface, ret)
    {
      hide Effect, CanApply, TablesOk, AllSendable, FixedRules, OnlyRejects, NetworksOk, FixedOk, SameOutsideTethering;
      hide PhysicalBatch, CacheOk, FlagsOk;
      hide IfaceEntries, DefaultIfaceEntries, Expected;
      var net := networks[n];
      ghost var nets, d, tabs, synced := networks, defaultNetId, rc.tables, InSync();
      if synced {
        FlagValue(nets, d);
        CachedInterfaces(nets, tabs);
        IfaceInstalled(nets, d, n, iface, tabs, rc.fixed, rc.rules);
        CanDrop(rc.rules, DefaultGain(nets, d, n, tabs[iface]));
      }
      if net.kind.isDefault {
        ret := ModifyDefault(iface, Vpns(networks), net.kind.permission, false);
        if ret != 0 {
          return;
        }
      } else {
        EffectNone(rc.rules, rc.trace, false);
      }
      ghost var r1 := rc.rules;
      if synced {
        EffectValue(old(rc.rules), |old(rc.trace)|, rc.rules, rc.trace, DefaultGain(nets, d, n, tabs[iface]), false);
        IfaceBatch(n, net, iface, tabs[iface]);
        CanDrop(rc.rules, IfaceEntries(n, net, iface, tabs[iface]));
      }
      ret := rc.RemoveInterfaceFromPhysicalNetwork(n, iface, net.kind.permission, net.uids, net.kind.local);
      if synced && !rc.aborted {
        LeaveTogether(nets, d, n, iface, tabs[iface], old(rc.rules), r1, rc.rules);
        SyncLeave(nets, d, n, iface, tabs, rc.fixed, old(rc.rules), rc.rules);
      }
    }

    method RemoveVirtualInterface(n: NetId, iface: string) returns (ret: int)
      requires Inv() && n in networks && networks[n].kind.Virtual? && iface in networks[n].ifaces
      modifies rc`tables, rc`rules, rc`trace, rc`aborted, rc`refused
      ensures Left(n, iface, ret)
    {
      hide CanApply, TablesOk, AllSendable, FixedRules, NetworksOk, FixedOk, SameOutsideTethering, VirtualBatch;
      hide OnlyRejects, CacheOk, FlagsOk, IfaceEntries, Expected;
      var net := networks[n];
      ghost var nets, d, tabs, synced := networks, defaultNetId, rc.tables, InSync();
      if synced {
        CachedInterfaces(nets, tabs);
        IfaceInstalled(nets, d, n, iface, tabs, rc.fixed, rc.rules);
        IfaceBatch(n, net, iface, tabs[iface]);
        assert IfaceGain(nets, d, n, iface, tabs[iface]) == IfaceEntries(n, net, iface, tabs[iface]);
        CanDrop(rc.rules, IfaceEntries(n, net, iface, tabs[iface]));
      }
      ret := rc.RemoveInterfaceFromVirtualNetwork(n, iface, net.kind.secure, net.uids, net.kind.excludeLocal);
      if synced && !rc.aborted {
        SyncLeave(nets, d, n, iface, tabs, rc.fixed, old(rc.rules), rc.rules);
      }
    }

    method RemoveLocalInterface(n: NetId, iface: string) returns (ret: int)
      requires Inv() && n in networks && networks[n].kind.Local? && iface in networks[n].ifaces
      modifies rc`tables, rc`rules, rc`trace, rc`aborted, rc`refused
      ensures Left(n, iface, ret)
    {
      hide Effect, CanApply, TablesOk, AllSendable, FixedRules, OnlyRejects, NetworksOk, FixedOk, SameOutsideTethering;
      hide LocalRequests, CacheOk, FlagsOk, Expected;
      ghost var nets, d, tabs, synced := networks, defaultNetId, rc.tables, InSync();
      if synced {
        IfaceInstalled(nets, d, n, iface, tabs, rc.fixed, rc.rules);
        assert IfaceGain(nets, d, n, iface, TableOf(tabs, iface)) == multiset(LocalRequests(iface));
        CanDrop(rc.rules, multiset(LocalRequests(iface)));
      }
      ret := rc.RemoveInterfaceFromLocalNetwork(iface);
      if synced && !rc.aborted {
        EffectValue(old(rc.rules), |old(rc.trace)|, rc.rules, rc.trace, multiset(LocalRequests(iface)), false);
        SameItself(rc.rules);
        SyncLeave(nets, d, n, iface, tabs, rc.fixed, old(rc.rules), rc.rules);
      }
    }

    /** The virtual function `removeInterface` of each kind of network. */
    method RemoveInterface(n: NetId, iface: string) returns (ret: int)
      requires Inv() && n in networks
      modifies this`networks, rc`tables, rc`rules, rc`trace, rc`aborted, rc`refused
      ensures Inv() && old(rc.trace) <= rc.trace && (old(rc.aborted) ==> rc.aborted)
      ensures old(rc.refused) ==> rc.refused
      ensures old(InSync()) && !rc.refused ==> rc.aborted == old(rc.aborted)
      ensures old(InSync()) && !rc.aborted ==> InSync()
      ensures !TakesInterfaces(old(networks)[n].kind) ==> ret == EINVAL
      ensures old(InSync()) && !rc.aborted && TakesInterfaces(old(networks)[n].kind) ==> ret == 0
      ensures networks == if ret == 0 then old(networks)[n := WithoutIface(old(networks)[n], iface)] else old(networks)
    {
      hide TablesOk, AllSendable, FixedRules, OnlyRejects, NetworksOk, Synced;
      var net := networks[n];
      if !TakesInterfaces(net.kind) {
        return EINVAL;
      }
      if iface !in net.ifaces {
        assert WithoutIface(net, iface) == net by { assert net.ifaces - {iface} == net.ifaces; }
        return 0;
      }
      LeaveNetworks(networks, n, iface, networks[n := WithoutIface(net, iface)]);
      if net.kind.Physical? {
        ret := RemovePhysicalInterface(n, iface);
      } else if net.kind.Virtual? {
        ret := RemoveVirtualInterface(n, iface);
      } else {
        ret := RemoveLocalInterface(n, iface);
      }
      if ret == 0 {
        networks := networks[n := WithoutIface(net, iface)];
      }
    }

    /** The index remembered for an interface, or 0 if there is none or it is in the local network. */
    function IfIndex(iface: string): int
      reads rc
    {
      if iface in rc.tables && rc.tables[iface] != TABLE_LOCAL_NETWORK then rc.tables[iface] - TABLE_OFFSET else 0
    }

    method AddInterfaceToNetwork(n: NetId, iface: string) returns (ret: int)
      requires Inv()
      modifies this`networks, this`lastNetId, rc`tables, rc`rules, rc`trace, rc`aborted, rc`refused
      ensures old(rc.refused) ==> rc.refused
      ensures Inv() && old(rc.trace) <= rc.trace && (old(rc.aborted) ==> rc.aborted)
      ensures old(InSync()) && !rc.aborted ==> InSync()
      ensures old(InSync()) && !rc.refused && |iface| < IFNAMSIZ ==>
        (n in old(networks) ==> GoodUids(old(networks)[n])) ==> rc.aborted == old(rc.aborted)
      ensures old(InSync()) && !rc.aborted && n in old(networks) ==>
        (ret == 0 <==> Free(old(networks), n, iface) && Joinable(old(networks)[n], iface, old(rc.tables), rc.ifindex))
      ensures n !in old(networks) ==> ret == ENONET && unchanged(rc)
      ensures n in old(networks) && !Free(old(networks), n, iface) ==> ret == EBUSY && unchanged(rc)
      ensures networks == if ret == 0 && n in old(networks) then old(networks)[n := WithIface(old(networks)[n], iface)]
        else old(networks)
      ensures lastNetId == if ret == 0 && n != LOCAL_NET_ID && iface in rc.tables && rc.tables[iface] > 1000
        then old(lastNetId)[rc.tables[iface] - 1000 := n] else old(lastNetId)
    {
      hide TablesOk, AllSendable, FixedRules, OnlyRejects, NetworksOk, Synced;
      if n !in networks {
        return ENONET;
      }
      if !Free(networks, n, iface) {
        return EBUSY;
      }
      ret := AddInterface(n, iface);
      if ret != 0 {
        return;
      }
      var index := IfIndex(iface);
      if n != LOCAL_NET_ID && index > 0 {
        lastNetId := lastNetId[index := n];
      }
    }

    method RemoveInterfaceFromNetwork(n: NetId, iface: string) returns (ret: int)
      requires Inv()
      modifies this`networks, rc`tables, rc`rules, rc`trace, rc`aborted, rc`refused
      ensures Inv() && old(rc.trace) <= rc.trace && (old(rc.aborted) ==> rc.aborted)
      ensures old(rc.refused) ==> rc.refused
      ensures old(InSync()) && !rc.refused ==> rc.aborted == old(rc.aborted)
      ensures old(InSync()) && !rc.aborted ==> InSync()
      ensures old(InSync()) && !rc.aborted && n in old(networks) ==>
        (ret == 0 <==> TakesInterfaces(old(networks)[n].kind))
      ensures n !in old(networks) ==> ret == ENONET && unchanged(rc)
      ensures networks == if ret == 0 && n in old(networks)
        then old(networks)[n := WithoutIface(old(networks)[n], iface)] else old(networks)
    {
      hide TablesOk, AllSendable, FixedRules, OnlyRejects, NetworksOk, Synced;
      if n !in networks {
        return ENONET;
      }
      ret := RemoveInterface(n, iface);
    }

    method ClearInterfaces(n: NetId) returns (ret: int)
      requires Inv() && n in networks
      modifies this`networks, rc`tables, rc`rules, rc`trace, rc`aborted, rc`refused
      ensures Inv() && old(rc.trace) <= rc.trace && (old(rc.aborted) ==> rc.aborted)
      ensures old(rc.refused) ==> rc.refused
      ensures old(InSync()) && !rc.refused ==> rc.aborted == old(rc.aborted)
      ensures networks.Keys == old(networks).Keys && networks[n].kind == old(networks)[n].kind
      ensures old(InSync()) && !rc.aborted ==> InSync() && (networks[n].ifaces == {} || networks[n].kind.Dummy?)
      ensures old(InSync()) && !rc.aborted ==>
        (ret == 0 <==> TakesInterfaces(old(networks)[n].kind) || old(networks)[n].ifaces == {})
      ensures forall m :: m in old(networks) && m != n ==> networks[m] == old(networks)[m]
    {
      hide TablesOk, AllSendable, FixedRules, OnlyRejects, NetworksOk, Synced;
      NoIfacesUnreachable(networks, n);
      ret := 0;
      while networks[n].ifaces != {}
        invariant Inv() && old(rc.trace) <= rc.trace && (old(rc.aborted) ==> rc.aborted)
        invariant old(rc.refused) ==> rc.refused
        invariant old(InSync()) && !rc.refused ==> rc.aborted == old(rc.aborted)
        invariant networks.Keys == old(networks).Keys && networks[n].kind == old(networks)[n].kind
        invariant networks[n].ifaces <= old(networks)[n].ifaces
        invariant ret == 0 && (TakesInterfaces(networks[n].kind) || networks[n].ifaces == old(networks)[n].ifaces)
        invariant old(InSync()) && !rc.aborted ==> InSync()
        invariant forall m :: m in old(networks) && m != n ==> networks[m] == old(networks)[m]
        decreases networks[n].ifaces
      {
        var iface :| iface in networks[n].ifaces;
        ret := RemoveInterface(n, iface);
        if ret != 0 {
          return;
        }
      }
    }

    /** Ends a network's role as the default network, or a VPN's ties to the default network. */
    method Unlink(n: NetId) returns (ret: int)
      requires Inv() && n in networks && n != UNREACHABLE_NET_ID
      modifies this`networks, this`defaultNetId, rc`tables, rc`rules, rc`trace, rc`aborted, rc`refused
      ensures rc.Valid() && old(rc.trace) <= rc.trace && (old(rc.aborted) ==> rc.aborted)
      ensures old(rc.refused) ==> rc.refused
      ensures old(InSync()) && !rc.refused ==> rc.aborted == old(rc.aborted)
      ensures old(InSync()) && !rc.aborted ==> ret == 0
      ensures NetworksOk(networks) && networks.Keys == old(networks).Keys && networks - {n} == old(networks) - {n}
      ensures defaultNetId == if old(defaultNetId) == n then NETID_UNSET else old(defaultNetId)
      ensures old(InSync()) && (old(networks)[n].ifaces == {} || old(networks)[n].kind.Dummy?) && !rc.aborted ==>
        var lost := if old(networks)[n].kind.Virtual? then LinkAt(old(networks), old(defaultNetId), n, rc.tables)
          else multiset{};
        rc.tables == old(rc.tables) && lost <= old(rc.rules) && rc.rules == old(rc.rules) - lost
    {
      hide TablesOk, AllSendable, FixedRules, OnlyRejects, NetworksOk, Effect, CanApply, CacheOk, FlagsOk, FixedOk;
      hide SameOutsideTethering, LinkAt, DefaultAt, Remembers;
      hide Expected, AllCached, Applied, WithDefaultFlag, Vpns;
      ghost var nets, d, tabs := networks, defaultNetId, rc.tables;
      ghost var synced := InSync() && (nets[n].ifaces == {} || nets[n].kind.Dummy?);
      ghost var lost := if nets[n].kind.Virtual? then LinkAt(nets, d, n, tabs) else multiset{};
      if InSync() {
        CachedInterfaces(nets, tabs);
        FlagValue(nets, d);
        NoneToDrop(nets, n, tabs);
        DefaultInstalled(nets, d, tabs, rc.fixed, rc.rules);
        CanDrop(rc.rules, DefaultAt(nets, d, tabs));
        if nets[n].kind.Virtual? {
          LinkInstalled(nets, d, n, tabs, rc.fixed, rc.rules);
          CanDrop(rc.rules, LinkAt(nets, d, n, tabs));
        }
      }
      EffectNone(rc.rules, rc.trace, false);
      NotUnreachable(networks, n);
      FlagErased(nets, n, false);
      ret := 0;
      if defaultNetId == n {
        ret := SetAsDefault(n, false);
        defaultNetId := NETID_UNSET;
      } else if networks[n].kind.Virtual? {
        ret := ModifyFallthroughLocked(n, false);
      }
      if synced && !rc.aborted {
        EffectRemoved(old(rc.rules), |old(rc.trace)|, rc.rules, rc.trace, lost);
      }
    }

    /** The part of destroying a network that follows the removal of its interfaces. */
    method Forget(n: NetId) returns (ret: int)
      requires Inv() && n in networks && n != LOCAL_NET_ID && n != UNREACHABLE_NET_ID
      modifies this`networks, this`defaultNetId, this`lastNetId, rc`tables, rc`rules, rc`trace, rc`aborted, rc`refused
      ensures Inv() && old(rc.trace) <= rc.trace && (old(rc.aborted) ==> rc.aborted)
      ensures old(rc.refused) ==> rc.refused
      ensures old(InSync()) && !rc.refused ==> rc.aborted == old(rc.aborted)
      ensures old(InSync()) && !rc.aborted ==> ret == 0
      ensures networks == old(networks) - {n}
      ensures lastNetId == Forgotten(old(lastNetId), n)
      ensures defaultNetId == if old(defaultNetId) == n then NETID_UNSET else old(defaultNetId)
      ensures old(InSync()) && (old(networks)[n].ifaces == {} || old(networks)[n].kind.Dummy?) && !rc.aborted ==>
        InSync()
    {
      hide TablesOk, AllSendable, FixedRules, OnlyRejects, NetworksOk, Synced, LinkAt, DefaultOk, LastOk, Forgotten;
      ghost var nets, d, tabs := networks, defaultNetId, rc.tables;
      ghost var synced := InSync() && (nets[n].ifaces == {} || nets[n].kind.Dummy?);
      ret := Unlink(n);
      if synced && !rc.aborted {
        SyncErase(nets, d, n, defaultNetId, tabs, rc.fixed, old(rc.rules), rc.rules,
                  if nets[n].kind.Virtual? then LinkAt(nets, d, n, tabs) else multiset{});
      }
      EraseOk(networks, n);
      SameKinds(nets, networks, n, d);
      LastForgotten(lastNetId, nets, networks, n);
      networks := networks - {n};
      lastNetId := Forgotten(lastNetId, n);
    }

    /** Destroys a network; errors on the way are remembered, not obeyed. */
    method DestroyNetwork(n: NetId) returns (ret: int)
      requires Inv()
      modifies this`networks, this`defaultNetId, this`lastNetId, rc`tables, rc`rules, rc`trace, rc`aborted, rc`refused
      ensures Inv() && old(rc.trace) <= rc.trace && (old(rc.aborted) ==> rc.aborted)
      ensures old(rc.refused) ==> rc.refused
      ensures old(InSync()) && !rc.refused ==> rc.aborted == old(rc.aborted)
      ensures old(InSync()) && !rc.aborted ==> InSync()
      ensures old(InSync()) && !rc.aborted && n in old(networks) ==>
        (ret == 0 <==> HasInterfaceTables(old(networks)[n].kind))
      ensures n == LOCAL_NET_ID || n == UNREACHABLE_NET_ID ==>
        ret == EINVAL && unchanged(rc) && networks == old(networks)
      ensures n != LOCAL_NET_ID && n != UNREACHABLE_NET_ID ==> networks == old(networks) - {n}
      ensures n != LOCAL_NET_ID && n != UNREACHABLE_NET_ID && n in old(networks) ==>
        && lastNetId == Forgotten(old(lastNetId), n)
        && defaultNetId == if old(defaultNetId) == n then NETID_UNSET else old(defaultNetId)
      ensures n == LOCAL_NET_ID || n == UNREACHABLE_NET_ID || n !in old(networks) ==>
        ret != 0 && lastNetId == old(lastNetId) && defaultNetId == old(defaultNetId)
    {
      hide TablesOk, AllSendable, FixedRules, OnlyRejects, NetworksOk, Synced;
      if InSync() {
        KindsOf(networks, defaultNetId, rc.tables, rc.fixed, rc.rules, n);
      }
      if n == LOCAL_NET_ID || n == UNREACHABLE_NET_ID {
        return EINVAL;
      }
      if n !in networks {
        return ENONET;
      }
      ret := ClearInterfaces(n);
      var err := Forget(n);
      ret := if ret == 0 then err else ret;
    }

    // ---- users ----------------------------------------------------------------------------------

    /** Sends the rules of some uid ranges for every interface, or for the unreachable network itself. */
    method ModifyUsers(n: NetId, ranges: seq<UidRange>, sub: nat, add: bool) returns (ret: int)
      requires Inv() && n in networks && TakesUsers(networks[n].kind)
      modifies rc`tables, rc`rules, rc`trace, rc`aborted, rc`refused
      ensures old(rc.refused) ==> rc.refused
      ensures rc.Valid() && old(rc.trace) <= rc.trace && (old(rc.aborted) ==> rc.aborted)
      ensures AllInterfacesCached(networks, old(rc.tables)) ==>
        && rc.tables == old(rc.tables)
        && Effect(old(rc.rules), |old(rc.trace)|, rc.rules, rc.trace, UserGain(n, networks[n], sub, ranges, rc.tables),
                  add, ret)
        && (rc.aborted <==> old(rc.aborted) || ret != 0)
        && Able(old(rc.rules), UserGain(n, networks[n], sub, ranges, rc.tables), add, ret, rc.refused)
    {
      hide Effect, Able, TablesOk, AllSendable, FixedRules, OnlyRejects, NetworksOk, OpEntries, UidSum, RangeSum;
      var net := networks[n];
      if net.kind.UnreachableKind? {
        ret := rc.ModifyUnreachableNetwork(n, map[sub := ranges], add);
        OneSubSum(ranges, sub, UnreachableUids(n));
      } else {
        ret := ForEach(net.ifaces, GrantUsers(n, net.kind, sub, ranges), add);
        GrantSum(n, net, sub, ranges, rc.tables);
      }
    }

    method AddUsersToNetwork(n: NetId, ranges: seq<UidRange>, sub: int) returns (ret: int)
      requires Inv() && Sorted(ranges)
      modifies this`networks, rc`tables, rc`rules, rc`trace, rc`aborted, rc`refused
      ensures old(rc.refused) ==> rc.refused
      ensures Inv() && old(rc.trace) <= rc.trace && (old(rc.aborted) ==> rc.aborted)
      ensures old(InSync()) && !rc.aborted ==> InSync()
      ensures old(InSync()) && !rc.aborted && n in old(networks) ==>
        (ret == 0 <==> ValidSubPriority(old(networks)[n].kind, sub) && !OverlapsItself(ranges))
      ensures old(InSync()) && !rc.refused ==>
        (n in old(networks) ==> forall r :: r in ranges ==> GoodRange(old(networks)[n].kind, r)) ==>
          rc.aborted == old(rc.aborted)
      ensures n !in old(networks) ==> ret == ENONET && unchanged(rc)
      ensures n in old(networks) && (!ValidSubPriority(old(networks)[n].kind, sub) || OverlapsItself(ranges)) ==>
        ret == EINVAL && unchanged(rc)
      ensures networks == if ret == 0 && n in old(networks) && sub >= 0
                          then old(networks)[n := WithUsers(old(networks)[n], ranges, sub)] else old(networks)
    {
      hide Effect, TablesOk, AllSendable, FixedRules, NetworksOk, CacheOk, FlagsOk, FixedOk, SameOutsideTethering;
      hide OnlyRejects, UserGain, Expected, CanApply, GoodRange;
      hide Sorted, Merge, AddTo, OverlapsItself, AllInterfacesCached, NetworkOk;
      if n !in networks {
        return ENONET;
      }
      if !TakesUsers(networks[n].kind) || !ValidSubPriority(networks[n].kind, sub) || OverlapsItself(ranges) {
        return EINVAL;
      }
      ghost var synced := InSync();
      if synced {
        CachedInterfaces(networks, rc.tables);
        if forall r :: r in ranges ==> GoodRange(networks[n].kind, r) {
          UsersSendable(networks, defaultNetId, n, sub, ranges, rc.tables, rc.fixed, rc.rules);
        }
      }
      UsersStayOk(networks, n, ranges, sub);
      ret := ModifyUsers(n, ranges, sub, true);
      if ret != 0 {
        return;
      }
      if synced {
        EffectAdded(old(rc.rules), |old(rc.trace)|, rc.rules, rc.trace,
                    UserGain(n, networks[n], sub, ranges, rc.tables));
        SyncAddUsers(networks, defaultNetId, n, sub, ranges, rc.tables, rc.fixed, old(rc.rules), rc.rules);
      }
      networks := networks[n := WithUsers(networks[n], ranges, sub)];
    }

    method RemoveUsersFromNetwork(n: NetId, ranges: seq<UidRange>, sub: int) returns (ret: int)
      requires Inv() && Sorted(ranges)
      modifies this`networks, rc`tables, rc`rules, rc`trace, rc`aborted, rc`refused
      ensures old(rc.refused) ==> rc.refused
      ensures Inv() && old(rc.trace) <= rc.trace && (old(rc.aborted) ==> rc.aborted)
      ensures old(InSync()) && !rc.aborted ==> InSync()
      ensures old(InSync()) && !rc.aborted && n in old(networks) ==>
        (ret == 0 <==> ValidSubPriority(old(networks)[n].kind, sub))
      ensures old(InSync()) && !rc.refused ==>
        (n in old(networks) && sub >= 0 ==> multiset(ranges) <= multiset(RangesAt(old(networks)[n].uids, sub))) ==>
          rc.aborted == old(rc.aborted)
      ensures n !in old(networks) ==> ret == ENONET && unchanged(rc)
      ensures n in old(networks) && !ValidSubPriority(old(networks)[n].kind, sub) ==> ret == EINVAL && unchanged(rc)
      ensures networks == if ret == 0 && n in old(networks) && sub >= 0
                          then old(networks)[n := WithoutUsers(old(networks)[n], ranges, sub)] else old(networks)
    {
      hide Effect, TablesOk, AllSendable, FixedRules, NetworksOk, CacheOk, FlagsOk, FixedOk, SameOutsideTethering;
      hide OnlyRejects, UserGain, Expected, CanApply;
      hide Sorted, Difference, RemoveFrom, AllInterfacesCached, NetworkOk;
      if n !in networks {
        return ENONET;
      }
      if !TakesUsers(networks[n].kind) || !ValidSubPriority(networks[n].kind, sub) {
        return EINVAL;
      }
      ghost var synced := InSync();
      if synced {
        CachedInterfaces(networks, rc.tables);
        if multiset(ranges) <= multiset(RangesAt(networks[n].uids, sub)) {
          UsersInstalled(networks, defaultNetId, n, sub, ranges, rc.tables, rc.fixed, rc.rules);
          CanDrop(rc.rules, UserGain(n, networks[n], sub, ranges, rc.tables));
        }
      }
      UsersStayOk(networks, n, ranges, sub);
      ret := ModifyUsers(n, ranges, sub, false);
      if ret != 0 {
        return;
      }
      if synced {
        EffectRemoved(old(rc.rules), |old(rc.trace)|, rc.rules, rc.trace,
                      UserGain(n, networks[n], sub, ranges, rc.tables));
        SyncRemoveUsers(networks, defaultNetId, n, sub, ranges, rc.tables, rc.ifindex, rc.fixed, old(rc.rules),
                        rc.rules);
      }
      networks := networks[n := WithoutUsers(networks[n], ranges, sub)];
    }

    // ---- permissions ----------------------------------------------------------------------------

    /** A permission change on one interface. */
    method RepermitInterface(ghost c: Change, ghost r0: multiset<Entry>, netId: NetId, i: string, before: Permission,
                             after: Permission, local: bool)
      returns (ret: int)
      requires rc.Valid() && c.n == netId && c.before == before && c.after == after && c.local == local && i in c.ifaces
      modifies rc`tables, rc`rules, rc`trace, rc`aborted, rc`refused
      ensures rc.Valid() && old(rc.trace) <= rc.trace && (old(rc.aborted) ==> rc.aborted)
      ensures old(rc.refused) ==> rc.refused
      ensures old(rc.tables) == c.tabs && i in c.tabs && Lost(c, i) <= old(rc.rules) && !rc.refused ==> ret == 0
      ensures old(rc.tables) == c.tabs && Distinct(c) && Safe(c, r0, old(rc.rules)) ==>
        && rc.tables == c.tabs && Safe(c, r0, rc.rules) && AllSafe(c, r0, rc.trace, |old(rc.trace)|)
        && (rc.aborted <==> old(rc.aborted) || ret != 0)
        && (ret == 0 ==>
            Lost(c, i) <= old(rc.rules) + Gained(c, i) && rc.rules == old(rc.rules) + Gained(c, i) - Lost(c, i))
    {
      hide TablesOk, AllSendable, FixedRules, OnlyRejects, Safe, AllSafe, PhysicalRequests, Between, CanApply;
      if Lost(c, i) <= rc.rules {
        CanDrop(rc.rules, Lost(c, i));
        GainedSendable(c, i, rc.rules);
      }
      ret := rc.ModifyPhysicalNetworkPermission(netId, i, before, after, local);
      if old(rc.tables) == c.tabs && Distinct(c) && Safe(c, r0, old(rc.rules)) {
        assert i in c.tabs;
        StepsAreSafe(c, i, r0, old(rc.rules), |old(rc.trace)|, rc.rules, rc.trace);
      }
    }

    /** The first loop of a permission change: the rules of each interface. */
    method RepermitInterfaces(ghost c: Change, netId: NetId, ifaces: set<string>, before: Permission, after: Permission,
                              local: bool)
      returns (ret: int)
      requires rc.Valid() && c == Change(netId, ifaces, rc.tables, before, after, local)
      modifies rc`tables, rc`rules, rc`trace, rc`aborted, rc`refused
      ensures rc.Valid() && old(rc.trace) <= rc.trace && (old(rc.aborted) ==> rc.aborted)
      ensures old(rc.refused) ==> rc.refused
      ensures Distinct(c) && old(Safe(c, rc.rules, rc.rules)) ==>
        Sum(ifaces, LostFn(c)) <= old(rc.rules) && !rc.refused ==> ret == 0
      ensures Distinct(c) && old(Safe(c, rc.rules, rc.rules)) ==>
        && rc.tables == c.tabs && Safe(c, old(rc.rules), rc.rules)
          && AllSafe(c, old(rc.rules), rc.trace, |old(rc.trace)|)
        && (rc.aborted <==> old(rc.aborted) || ret != 0)
        && (ret == 0 ==> rc.rules + Sum(ifaces, LostFn(c)) == old(rc.rules) + Sum(ifaces, GainedFn(c)))
    {
      hide TablesOk, AllSendable, FixedRules, OnlyRejects, Safe, AllSafe, Gained, Lost, Distinct, Settled, Collected;
      ghost var r0, start, ok := rc.rules, |rc.trace|, Distinct(c) && Safe(c, rc.rules, rc.rules);
      ghost var g: multiset<Entry>, l: multiset<Entry> := multiset{}, multiset{};
      ghost var enough := Sum(ifaces, LostFn(c)) <= rc.rules;
      NoneSafe(c, r0, rc.trace);
      NothingYet(rc.rules, ifaces, GainedFn(c), LostFn(c));
      ret := 0;
      var todo := ifaces;
      while todo != {}
        invariant todo <= ifaces && ret == 0
        invariant rc.Valid() && old(rc.trace) <= rc.trace && (old(rc.aborted) ==> rc.aborted)
        invariant old(rc.refused) ==> rc.refused
        invariant ok ==>
          rc.tables == c.tabs && Safe(c, r0, rc.rules) && AllSafe(c, r0, rc.trace, start)
            && rc.aborted == old(rc.aborted)
        invariant ok ==> Settled(r0, g, l, rc.rules)
        invariant Collected(ifaces, GainedFn(c), todo, g) && Collected(ifaces, LostFn(c), todo, l)
      {
        var i :| i in todo;
        ghost var r1, tr1 := rc.rules, rc.trace;
        if ok && enough {
          StillThere(r0, g, l, r1, ifaces, LostFn(c), todo, i);
          CachedIn(c, i);
        }
        Collect(ifaces, GainedFn(c), todo, g, i);
        Collect(ifaces, LostFn(c), todo, l, i);
        ret := RepermitInterface(c, r0, netId, i, before, after, local);
        if ok {
          SafeThen(c, r0, tr1, rc.trace, start);
          if ret == 0 {
            Account(r0, g, l, r1, Gained(c, i), Lost(c, i), rc.rules);
          }
        }
        if ret != 0 {
          return;
        }
        todo, g, l := todo - {i}, g + Gained(c, i), l + Lost(c, i);
      }
      if ok {
        AllSettled(r0, g, l, rc.rules, ifaces, GainedFn(c), LostFn(c));
      }
    }

    /** A permission change on one interface of the default network. */
    method RepermitDefaultInterface(ghost c: Change, ghost r0: multiset<Entry>, vpns: set<NetId>, i: string,
                                    before: Permission,
                                    after: Permission)
      returns (ret: int)
      requires rc.Valid() && i in c.ifaces
      modifies rc`tables, rc`rules, rc`trace, rc`aborted, rc`refused
      ensures rc.Valid() && old(rc.trace) <= rc.trace && (old(rc.aborted) ==> rc.aborted)
      ensures old(rc.refused) ==> rc.refused
      ensures old(rc.tables) == c.tabs && i in c.tabs && !rc.refused ==>
        DefaultIfaceEntries(vpns, TableOf(c.tabs, i), before) <= old(rc.rules) ==> ret == 0
      ensures old(rc.tables) == c.tabs && Distinct(c) && Safe(c, r0, old(rc.rules)) ==>
        && rc.tables == c.tabs && Safe(c, r0, rc.rules) && AllSafe(c, r0, rc.trace, |old(rc.trace)|)
        && (rc.aborted <==> old(rc.aborted) || ret != 0)
        && (ret == 0 ==> var t := TableOf(c.tabs, i);
             var gained, lost := DefaultIfaceEntries(vpns, t, after), DefaultIfaceEntries(vpns, t, before);
             lost <= old(rc.rules) + gained && rc.rules == old(rc.rules) + gained - lost)
    {
      hide TablesOk, AllSendable, FixedRules, OnlyRejects, Safe, AllSafe, Effect, DefaultIfaceEntries, CanApply;
      ghost var start, r1 := |rc.trace|, rc.rules;
      ghost var ok := rc.tables == c.tabs && Distinct(c) && Safe(c, r0, r1);
      assert ok ==> i in c.tabs;
      ghost var there := i in c.tabs && rc.tables == c.tabs
        && DefaultIfaceEntries(vpns, TableOf(c.tabs, i), before) <= r1;
      DefaultIfaceSendable(vpns, TableOf(c.tabs, i), after, r1);
      if there {
        CanDrop(r1, DefaultIfaceEntries(vpns, TableOf(c.tabs, i), before));
      }
      ret := ModifyDefault(i, vpns, after, true);
      ghost var t, r2, tr2 := TableOf(c.tabs, i), rc.rules, rc.trace;
      if ok {
        DefaultEffectIsSafe(c, vpns, t, after, r0, r1, start, r2, tr2, true, ret);
      }
      if ret != 0 {
        return;
      }
      if there {
        CanStill(r1, start, r2, tr2, DefaultIfaceEntries(vpns, t, after), DefaultIfaceEntries(vpns, t, before));
      }
      ret := ModifyDefault(i, vpns, before, false);
      if ok {
        DefaultEffectIsSafe(c, vpns, t, before, r0, r2, |tr2|, rc.rules, rc.trace, false, ret);
        SafeThen(c, r0, tr2, rc.trace, start);
        if ret == 0 {
          DefaultMoved(r1, start, r2, tr2, rc.rules, rc.trace, DefaultIfaceEntries(vpns, t, after),
                       DefaultIfaceEntries(vpns, t, before));
        }
      }
    }

    /** The second loop of a permission change: the rules of each interface as part of the default network. */
    method RepermitDefault(ghost c: Change, ghost r0: multiset<Entry>, ifaces: set<string>, before: Permission,
                           after: Permission)
      returns (ret: int)
      requires rc.Valid() && c.tabs == rc.tables && c.ifaces == ifaces
      modifies rc`tables, rc`rules, rc`trace, rc`aborted, rc`refused
      ensures rc.Valid() && old(rc.trace) <= rc.trace && (old(rc.aborted) ==> rc.aborted)
      ensures old(rc.refused) ==> rc.refused
      ensures Distinct(c) && Safe(c, r0, old(rc.rules)) && !rc.refused ==>
        DefaultEntries(ifaces, Vpns(networks), c.tabs, before) <= old(rc.rules) ==> ret == 0
      ensures Distinct(c) && Safe(c, r0, old(rc.rules)) ==>
        && rc.tables == c.tabs && AllSafe(c, r0, rc.trace, |old(rc.trace)|)
        && (rc.aborted <==> old(rc.aborted) || ret != 0)
        && (ret == 0 ==>
             var lost, gained := DefaultEntries(ifaces, Vpns(networks), c.tabs, before),
               DefaultEntries(ifaces, Vpns(networks), c.tabs, after);
             rc.rules + lost == old(rc.rules) + gained)
    {
      hide TablesOk, AllSendable, FixedRules, Safe, AllSafe, Distinct, DefaultIfaceEntries, Vpns, Settled, Collected;
      hide OnlyRejects;
      ghost var start, ok := |rc.trace|, Distinct(c) && Safe(c, r0, rc.rules);
      var vpns := Vpns(networks);
      ghost var gfn, lfn := DefaultFn(vpns, c.tabs, after), DefaultFn(vpns, c.tabs, before);
      ghost var g: multiset<Entry>, l: multiset<Entry> := multiset{}, multiset{};
      ghost var enough := Sum(ifaces, lfn) <= rc.rules;
      NoneSafe(c, r0, rc.trace);
      NothingYet(rc.rules, ifaces, gfn, lfn);
      ret := 0;
      var todo := ifaces;
      while todo != {}
        invariant todo <= ifaces && ret == 0
        invariant rc.Valid() && old(rc.trace) <= rc.trace && (old(rc.aborted) ==> rc.aborted)
        invariant old(rc.refused) ==> rc.refused
        invariant ok ==>
          rc.tables == c.tabs && Safe(c, r0, rc.rules) && AllSafe(c, r0, rc.trace, start)
            && rc.aborted == old(rc.aborted)
        invariant ok ==> Settled(old(rc.rules), g, l, rc.rules)
        invariant Collected(ifaces, gfn, todo, g) && Collected(ifaces, lfn, todo, l)
      {
        var i :| i in todo;
        ghost var r1, tr1 := rc.rules, rc.trace;
        if ok && enough {
          StillThere(old(rc.rules), g, l, r1, ifaces, lfn, todo, i);
          CachedIn(c, i);
        }
        Collect(ifaces, gfn, todo, g, i);
        Collect(ifaces, lfn, todo, l, i);
        ret := RepermitDefaultInterface(c, r0, vpns, i, before, after);
        if ok {
          SafeThen(c, r0, tr1, rc.trace, start);
          if ret == 0 {
            Account(old(rc.rules), g, l, r1, gfn(i), lfn(i), rc.rules);
          }
        }
        if ret != 0 {
          return;
        }
        todo, g, l := todo - {i}, g + gfn(i), l + lfn(i);
      }
      if ok {
        AllSettled(old(rc.rules), g, l, rc.rules, ifaces, gfn, lfn);
      }
    }

    /**
     * Changes a network's permission. In every kernel state on the way each interface of the network
     * still has an explicit-network rule, and the uid-based rules are untouched.
     */
    method SetPermission(n: NetId, permission: Permission) returns (ret: int)
      requires Inv() && n in networks && networks[n].kind.Physical?
      modifies this`networks, rc`tables, rc`rules, rc`trace, rc`aborted, rc`refused
      ensures Inv() && old(rc.trace) <= rc.trace && (old(rc.aborted) ==> rc.aborted)
      ensures old(rc.refused) ==> rc.refused
      ensures old(InSync()) && !rc.refused ==> ret == 0 && rc.aborted == old(rc.aborted)
      ensures old(InSync()) && !rc.aborted ==> InSync()
      ensures networks == if ret == 0 then old(networks)[n := WithPermission(old(networks)[n], permission)]
        else old(networks)
      ensures old(InSync()) && permission != old(networks)[n].kind.permission ==>
        AllSafe(ChangeOf(old(networks), n, permission, old(rc.tables)), old(rc.rules), rc.trace, |old(rc.trace)|)
    {
      hide TablesOk, AllSendable, FixedRules, NetworksOk, CacheOk, FlagsOk, FixedOk, SameOutsideTethering, Expected;
      hide OnlyRejects, Safe, AllSafe, Distinct;
      hide DefaultEntries, GainedFn, LostFn, PermissionPart;
      var net := networks[n];
      if permission == net.kind.permission {
        assert WithPermission(net, permission) == net;
        return 0;
      }
      ghost var nets, d, synced := networks, defaultNetId, InSync();
      ghost var c, r0, tabs := ChangeOf(networks, n, permission, rc.tables), rc.rules, rc.tables;
      if synced {
        StartsSafe(nets, d, n, tabs, rc.fixed, r0, c);
        TablesDiffer(nets, tabs, rc.ifindex, c);
        FlagValue(nets, d);
        PermissionInstalled(nets, d, n, tabs, rc.fixed, r0);
        PermissionHalves(nets, d, c, r0);
      }
      NoneSafe(c, r0, rc.trace);
      PermissionOk(networks, n, permission);
      PermissionNetworksOk(networks, n, permission);
      if net.ifaces == {} {
        if synced {
          NoPermissionPart(nets, d, n, net.kind.permission, tabs);
          NoPermissionPart(nets, d, n, permission, tabs);
          SyncPermission(nets, d, n, permission, tabs, rc.fixed, r0, rc.rules);
        }
        networks := networks[n := WithPermission(net, permission)];
        return 0;
      }
      ret := RepermitInterfaces(c, n, net.ifaces, net.kind.permission, permission, net.kind.local);
      if ret != 0 {
        return;
      }
      ghost var r1, tr1 := rc.rules, rc.trace;
      if net.kind.isDefault {
        ghost var c' := c.(tabs := rc.tables);
        if synced {
          SecondHalf(r0, Sum(c.ifaces, GainedFn(c)), Sum(c.ifaces, LostFn(c)), r1,
                     DefaultEntries(c.ifaces, Vpns(nets), c.tabs, c.before));
        }
        ret := RepermitDefault(c', r0, net.ifaces, net.kind.permission, permission);
        if synced {
          SafeThen(c, r0, tr1, rc.trace, |old(rc.trace)|);
        }
        if ret != 0 {
          return;
        }
      }
      if synced {
        PermissionAccount(nets, d, c, r0, r1, rc.rules);
        SyncPermission(nets, d, n, permission, tabs, rc.fixed, r0, rc.rules);
      }
      networks := networks[n := WithPermission(net, permission)];
    }

    /** Sets the permission of each listed network in turn, up to the first error. */
    method SetPermissionForNetworks(permission: Permission, netIds: seq<NetId>) returns (ret: int)
      requires Inv()
      modifies this`networks, rc`tables, rc`rules, rc`trace, rc`aborted, rc`refused
      ensures Inv() && old(rc.trace) <= rc.trace && (old(rc.aborted) ==> rc.aborted)
      ensures old(rc.refused) ==> rc.refused
      ensures old(InSync()) && !rc.refused ==> rc.aborted == old(rc.aborted)
      ensures old(InSync()) && !rc.refused && !rc.aborted ==> (ret == 0 <==> AllPhysical(old(networks), netIds))
      ensures old(InSync()) && !rc.aborted ==> InSync()
      ensures ret == 0 ==> networks == Repermitted(old(networks), netIds, permission)
      ensures ret == 0 ==> AllPhysical(old(networks), netIds)
      ensures ret != 0 ==>
        exists k :: 0 <= k < |netIds| && networks == Repermitted(old(networks), netIds[..k], permission)
    {
      hide TablesOk, AllSendable, FixedRules, OnlyRejects, NetworksOk, Synced, AllSafe, Repermitted;
      RepermittedNone(networks, permission);
      for k := 0 to |netIds|
        invariant Inv() && old(rc.trace) <= rc.trace && (old(rc.aborted) ==> rc.aborted)
        invariant old(rc.refused) ==> rc.refused
        invariant old(InSync()) && !rc.refused ==> rc.aborted == old(rc.aborted)
        invariant old(InSync()) && !rc.aborted ==> InSync()
        invariant networks == Repermitted(old(networks), netIds[..k], permission)
        invariant AllPhysical(old(networks), netIds[..k])
      {
        var n := netIds[k];
        RepermittedOne(old(networks), netIds, k, permission);
        if n !in networks {
          return ENONET;
        }
        if !networks[n].kind.Physical? {
          return EINVAL;
        }
        ret := SetPermission(n, permission);
        if ret != 0 {
          return;
        }
      }
      assert netIds[..|netIds|] == netIds;
      ret := 0;
    }

    // ---- reject ranges, tethering and the kernel's interfaces -----------------------------------------

    /** Sends the reject rules of some ranges. */
    method SendRejects(ranges: seq<UidRange>, add: bool) returns (ret: int)
      requires Inv()
      modifies rc`rules, rc`trace, rc`aborted, rc`refused
      ensures rc.Valid() && old(rc.trace) <= rc.trace && (old(rc.refused) ==> rc.refused)
      ensures rc.aborted <==> old(rc.aborted) || ret != 0
      ensures Effect(old(rc.rules), |old(rc.trace)|, rc.rules, rc.trace, RangeSum(ranges, 0, RejectRequests), add, ret)
      ensures old(InSync()) && !rc.refused && GoodRejects(old(rc.rejects), ranges, add) ==> ret == 0
    {
      hide Effect, TablesOk, AllSendable, NetworksOk, Synced, RangeSum, FixedRules, OnlyRejects, CanApply, GoodRejects;
      if InSync() && GoodRejects(rc.rejects, ranges, add) {
        RejectsCan(networks, defaultNetId, rc.tables, rc.dummyTable, rc.dummyRules, rc.rejects, rc.rules, ranges, add);
      }
      ret := rc.ModifyReject(ranges, add);
    }

    method RejectNonSecureVpn(ranges: seq<UidRange>, add: bool) returns (ret: int)
      requires Inv()
      modifies rc`rules, rc`trace, rc`aborted, rc`refused, rc`fixed, rc`rejects
      ensures old(rc.refused) ==> rc.refused
      ensures Inv() && old(rc.trace) <= rc.trace && (rc.aborted <==> old(rc.aborted) || ret != 0)
      ensures old(InSync()) && !rc.aborted ==> InSync()
      ensures old(InSync()) && !rc.refused && GoodRejects(old(rc.rejects), ranges, add) ==> ret == 0
      ensures ret == 0 && add ==> forall r :: r in ranges ==> RejectNonSecure(LooseUids(r)) in rc.rules
      ensures Effect(old(rc.rules), |old(rc.trace)|, rc.rules, rc.trace, RangeSum(ranges, 0, RejectRequests), add, ret)
      ensures rc.rejects == if ret == 0 then Applied(old(rc.rejects), RangeSum(ranges, 0, RejectRequests), add)
        else old(rc.rejects)
    {
      hide Effect, TablesOk, AllSendable, NetworksOk, Synced, RangeSum, Applied, RejectNonSecure, FixedRules;
      hide OnlyRejects, GoodRejects, DefaultOk;
      ghost var m := RangeSum(ranges, 0, RejectRequests);
      ret := SendRejects(ranges, add);
      if ret != 0 {
        return;
      }
      EffectValue(old(rc.rules), |old(rc.trace)|, rc.rules, rc.trace, m, add);
      RejectPresent(ranges, old(rc.rules), rc.rules, add);
      if InSyncWith(rc.tables, old(rc.rules)) {
        SyncReject(networks, defaultNetId, ranges, add, rc.tables, rc.fixed, old(rc.rules), rc.rules);
      }
      RejectsOnly(ranges);
      FixedApplied(rc.dummyTable, rc.dummyRules, rc.rejects, m, add);
      rc.fixed, rc.rejects := Applied(rc.fixed, m, add), Applied(rc.rejects, m, add);
    }

    method ModifyTethering(input: string, output: string, add: bool) returns (ret: int)
      requires Inv()
      modifies rc`tables, rc`rules, rc`trace, rc`aborted, rc`refused
      ensures old(rc.refused) ==> rc.refused
      ensures Inv() && old(rc.trace) <= rc.trace && (old(rc.aborted) ==> rc.aborted)
      ensures old(InSync()) ==> InSync()
      ensures rc.Batch(output, multiset{Tethering(input, TableOf(rc.tables, output))}, add, ret)
      ensures ret == 0 ==>
        rc.rules == Applied(old(rc.rules), multiset{Tethering(input, TableOf(rc.tables, output))}, add)
      ensures ret == 0 && add ==>
        forall p: Packet :: p.iif == input ==> Forwarded(rc.rules, p, TableOf(rc.tables, output))
    {
      hide TablesOk, AllSendable, FixedRules, OnlyRejects, NetworksOk, FixedOk, FlagsOk, CacheOk, CacheStep, Expected;
      hide SameOutsideTethering, Effect;
      ret := rc.ModifyTetheredNetwork(input, output, add);
      if ret == 0 {
        EffectValue(old(rc.rules), |old(rc.trace)|, rc.rules, rc.trace,
                    multiset{Tethering(input, TableOf(rc.tables, output))}, add);
        if add {
          TetheringForwards(rc.rules, input, TableOf(rc.tables, output));
        }
      }
      if InSyncWith(old(rc.tables), old(rc.rules)) {
        LookupKeepsSync(networks, defaultNetId, output, old(rc.tables), rc.tables, rc.fixed, old(rc.rules));
        if output in rc.tables {
          TetheringOnly(old(rc.rules), |old(rc.trace)|, rc.rules, rc.trace,
                        Tethering(input, TableOf(rc.tables, output)), add, ret);
          SameTrans(networks, defaultNetId, rc.tables, rc.fixed, old(rc.rules), rc.rules);
        }
      }
    }

    method InterfaceChanges(iface: string, index: Option<nat>)
      requires Inv()
      modifies rc`ifindex
      ensures Inv()
      ensures old(InSync()) ==> InSync()
      ensures rc.ifindex - {iface} == old(rc.ifindex) - {iface} && (index.None? ==> iface !in rc.ifindex)
    {
      rc.InterfaceChanges(iface, index);
    }

    // ---- addresses --------------------------------------------------------------------------------

    method AddInterfaceAddress(index: nat, address: string)
      requires Inv()
      modifies this`addresses
      ensures Inv()
      ensures index == 0 ==> addresses == old(addresses)
      ensures index != 0 ==> addresses == old(addresses)[address := AddressSet(old(addresses), address) + {index}]
    {
      hide TablesOk, AllSendable, FixedRules, OnlyRejects, NetworksOk;
      if index == 0 {
        return;
      }
      addresses := addresses[address := AddressSet(addresses, address) + {index}];
    }

    /**
     * Forgets an address and says whether sockets on it should be closed. They are kept only when
     * the address is still on another interface of the same live VPN.
     */
    method RemoveInterfaceAddress(index: nat, address: string) returns (destroy: bool)
      requires Inv()
      modifies this`addresses, this`lastNetId
      ensures Inv()
      ensures addresses == if AddressSet(old(addresses), address) - {index} == {} then old(addresses) - {address}
                           else old(addresses)[address := AddressSet(old(addresses), address) - {index}]
      ensures forall k :: LastOf(lastNetId, k) == LastOf(old(lastNetId), k)
      ensures !destroy <==>
        && index in AddressSet(old(addresses), address)
        && index in old(lastNetId)
        && exists other :: other in AddressSet(old(addresses), address) && other != index
             && LastOf(old(lastNetId), other) == old(lastNetId)[index]
             && old(lastNetId)[index] in networks && networks[old(lastNetId)[index]].kind.Virtual?
    {
      hide TablesOk, AllSendable, FixedRules, OnlyRejects, NetworksOk;
      if address !in addresses {
        assert addresses - {address} == addresses;
        return true;
      }
      var left := addresses[address] - {index};
      if index !in addresses[address] {
        assert left == addresses[address];
        assert addresses[address := left] == addresses;
        return true;
      }
      assert forall other :: other in addresses[address] && other != index ==> other in left;
      if left == {} {
        addresses := addresses - {address};
        return true;
      }
      addresses := addresses[address := left];
      if index !in lastNetId {
        return true;
      }
      var last := lastNetId[index];
      var todo := left;
      while todo != {}
        invariant todo <= left && Inv() && addresses == old(addresses)[address := left]
        invariant forall k :: LastOf(lastNetId, k) == LastOf(old(lastNetId), k)
        invariant forall other :: other in left - todo ==>
          !(LastOf(old(lastNetId), other) == last && last in networks && networks[last].kind.Virtual?)
      {
        var other :| other in todo;
        lastNetId := lastNetId[other := LastOf(lastNetId, other)];
        if LastOf(lastNetId, other) == last && last in networks && networks[last].kind.Virtual? {
          return false;
        }
        todo := todo - {other};
      }
      return true;
    }
  }
}
