/** Changing a network's permission: what every kernel state on the way still has. */
module PermissionSteps {
  import opened Fwmarks
  import opened IpRules
  import opened UidRangeLists
  import opened Sums
  import opened RuleSet
  import opened RouteControllers
  import opened NetworkStates
  import opened RuleMembers
  import opened SyncSteps
  import opened Progress

  /** Rules that depend on uid ranges and not on permission bits. */
  predicate IsUidBased(e: Entry) {
    e.IpRule? &&
    (|| UID_EXPLICIT_NETWORK <= e.priority < EXPLICIT_NETWORK
     || UID_IMPLICIT_NETWORK <= e.priority < IMPLICIT_NETWORK
     || e.priority == UID_LOCAL_ROUTES
     || UID_DEFAULT_NETWORK <= e.priority < DEFAULT_NETWORK)
  }

  /** The network, its interfaces and tables, and the permissions before and after. */
  datatype Change = Change(n: NetId, ifaces: set<string>, tabs: Tables, before: Permission, after: Permission,
                           local: bool)

  ghost predicate Distinct(c: Change) {
    && c.n != LOCAL_NET_ID && c.before != c.after
    && (forall i :: i in c.ifaces ==> i in c.tabs)
    && (forall i, j :: i in c.ifaces && j in c.ifaces && i != j ==> TableOf(c.tabs, i) != TableOf(c.tabs, j))
  }

  ghost predicate Covered(c: Change, i: string, rules: multiset<Entry>) {
    || ExplicitNetwork(c.n, TableOf(c.tabs, i), c.before, AllUids, 0) in rules
    || ExplicitNetwork(c.n, TableOf(c.tabs, i), c.after, AllUids, 0) in rules
  }

  /** Each interface still has an explicit-network rule, and the uid-based rules are the original ones. */
  ghost predicate Safe(c: Change, r0: multiset<Entry>, rules: multiset<Entry>) {
    && (forall i :: i in c.ifaces ==> Covered(c, i, rules))
    && (forall e: Entry :: IsUidBased(e) ==> rules[e] == r0[e])
  }

  ghost predicate AllSafe(c: Change, r0: multiset<Entry>, trace: seq<multiset<Entry>>, start: nat) {
    forall k :: start <= k < |trace| ==> Safe(c, r0, trace[k])
  }

  function Gained(c: Change, i: string): multiset<Entry> {
    multiset(PhysicalRequests(c.n, i, TableOf(c.tabs, i), c.after, c.local))
  }

  function Lost(c: Change, i: string): multiset<Entry> {
    multiset(PhysicalRequests(c.n, i, TableOf(c.tabs, i), c.before, c.local))
  }

  ghost function GainedFn(c: Change): string -> multiset<Entry> {
    i => Gained(c, i)
  }

  ghost function LostFn(c: Change): string -> multiset<Entry> {
    i => Lost(c, i)
  }

  function ChangeOf(nets: Networks, n: NetId, permission: Permission, tabs: Tables): Change
    requires n in nets && nets[n].kind.Physical?
  {
    Change(n, nets[n].ifaces, tabs, nets[n].kind.permission, permission, nets[n].kind.local)
  }

  lemma NoUidBased(c: Change, i: string, e: Entry)
    requires IsUidBased(e)
    ensures e !in Gained(c, i) && e !in Lost(c, i)
  {
    var t := TableOf(c.tabs, i);
    if e in Gained(c, i) {
      PhysicalCases(c.n, i, t, c.after, c.local, e);
    }
    if e in Lost(c, i) {
      PhysicalCases(c.n, i, t, c.before, c.local, e);
    }
  }

  lemma LostSpares(c: Change, i: string, j: string, p: Permission)
    requires Distinct(c) && i in c.ifaces && j in c.ifaces && (j != i || p == c.after)
    ensures ExplicitNetwork(c.n, TableOf(c.tabs, j), p, AllUids, 0) !in Lost(c, i)
  {
    var e := ExplicitNetwork(c.n, TableOf(c.tabs, j), p, AllUids, 0);
    if e in Lost(c, i) {
      PhysicalCases(c.n, i, TableOf(c.tabs, i), c.before, c.local, e);
    }
  }

  lemma GainedCovers(c: Change, i: string)
    ensures ExplicitNetwork(c.n, TableOf(c.tabs, i), c.after, AllUids, 0) in Gained(c, i)
  {
    var list := PhysicalRequests(c.n, i, TableOf(c.tabs, i), c.after, c.local);
    assert list[1] == ExplicitNetwork(c.n, TableOf(c.tabs, i), c.after, AllUids, 0);
  }

  /** One interface's make-before-break, seen from any state on the way. */
  lemma StepIsSafe(c: Change, i: string, r0: multiset<Entry>, r1: multiset<Entry>, t: multiset<Entry>)
    requires Distinct(c) && i in c.ifaces && Safe(c, r0, r1) && Between(r1, Gained(c, i), Lost(c, i), t)
    ensures Safe(c, r0, t)
  {
    hide Gained, Lost;
    var g, l := Gained(c, i), Lost(c, i);
    forall e: Entry | IsUidBased(e)
      ensures t[e] == r0[e]
    {
      NoUidBased(c, i, e);
      assert (r1 + g - l)[e] == r1[e] && (r1 + g)[e] == r1[e];
    }
    forall j | j in c.ifaces
      ensures Covered(c, j, t)
    {
      var before := ExplicitNetwork(c.n, TableOf(c.tabs, j), c.before, AllUids, 0);
      var after := ExplicitNetwork(c.n, TableOf(c.tabs, j), c.after, AllUids, 0);
      GainedCovers(c, i);
      LostSpares(c, i, j, c.after);
      if j != i {
        LostSpares(c, i, j, c.before);
        assert Covered(c, j, r1);
        assert (r1 + g - l)[before] >= r1[before] && (r1 + g - l)[after] >= r1[after];
      } else {
        assert (r1 + g - l)[after] >= g[after];
      }
    }
  }

  /** Entries of being the default network are neither explicit-network rules nor uid-based. */
  lemma DefaultApart(vpns: set<NetId>, t: nat, p: Permission, e: Entry)
    requires e in DefaultIfaceEntries(vpns, t, p)
    ensures e.IpRule? && !IsUidBased(e) && e.priority != EXPLICIT_NETWORK
  {
    DefaultIfaceMember(vpns, t, p, e);
    hide DefaultIfaceEntries;
  }

  lemma DefaultStepIsSafe(c: Change, m: multiset<Entry>, r0: multiset<Entry>, r1: multiset<Entry>, add: bool,
                          t: multiset<Entry>)
    requires Safe(c, r0, r1) && Low(r1, m, add) <= t <= High(r1, m, add)
    requires forall e :: e in m ==> e.IpRule? && !IsUidBased(e) && e.priority != EXPLICIT_NETWORK
    ensures Safe(c, r0, t)
  {
    forall e: Entry | e !in m
      ensures t[e] == r1[e]
    {
      assert Low(r1, m, add)[e] == r1[e] && High(r1, m, add)[e] == r1[e];
    }
    forall j | j in c.ifaces
      ensures Covered(c, j, t)
    {
      assert Covered(c, j, r1);
    }
  }

  lemma DefaultEffectIsSafe(c: Change, vpns: set<NetId>, table: nat, p: Permission, r0: multiset<Entry>,
                            r1: multiset<Entry>,
                            start: nat, r2: multiset<Entry>, tr: seq<multiset<Entry>>, add: bool, ret: int)
    requires Safe(c, r0, r1) && Effect(r1, start, r2, tr, DefaultIfaceEntries(vpns, table, p), add, ret)
    ensures Safe(c, r0, r2) && AllSafe(c, r0, tr, start)
  {
    hide Safe, DefaultIfaceEntries;
    var m := DefaultIfaceEntries(vpns, table, p);
    forall e | e in m
      ensures e.IpRule? && !IsUidBased(e) && e.priority != EXPLICIT_NETWORK
    {
      DefaultApart(vpns, table, p, e);
    }
    DefaultStepIsSafe(c, m, r0, r1, add, r2);
    forall k | start <= k < |tr|
      ensures Safe(c, r0, tr[k])
    {
      DefaultStepIsSafe(c, m, r0, r1, add, tr[k]);
    }
  }

  lemma StepsAreSafe(c: Change, i: string, r0: multiset<Entry>, r1: multiset<Entry>, start: nat, r2: multiset<Entry>,
                     tr: seq<multiset<Entry>>)
    requires Distinct(c) && i in c.ifaces && Safe(c, r0, r1) && Between(r1, Gained(c, i), Lost(c, i), r2)
    requires forall k :: start <= k < |tr| ==> Between(r1, Gained(c, i), Lost(c, i), tr[k])
    ensures Safe(c, r0, r2) && AllSafe(c, r0, tr, start)
  {
    hide Safe, Between, Gained, Lost, Distinct;
    StepIsSafe(c, i, r0, r1, r2);
    forall k | start <= k < |tr|
      ensures Safe(c, r0, tr[k])
    {
      StepIsSafe(c, i, r0, r1, tr[k]);
    }
  }

  lemma SafeThen(c: Change, r0: multiset<Entry>, tr1: seq<multiset<Entry>>, tr2: seq<multiset<Entry>>, start: nat)
    requires tr1 <= tr2 && AllSafe(c, r0, tr1, start) && AllSafe(c, r0, tr2, |tr1|)
    ensures AllSafe(c, r0, tr2, start)
  {
    hide Safe;
    forall k | start <= k < |tr2|
      ensures Safe(c, r0, tr2[k])
    {
      if k < |tr1| {
        assert tr2[k] == tr1[k];
      }
    }
  }

  /** In agreement with the kernel, the starting state is safe. */
  lemma StartsSafe(nets: Networks, d: NetId, n: NetId, tabs: Tables, fixed: multiset<Entry>, rules: multiset<Entry>,
                   c: Change)
    requires LOCAL_NET_ID in nets && Synced(nets, d, tabs, fixed, rules) && n in nets && nets[n].kind.Physical?
    requires c.n == n && c.ifaces == nets[n].ifaces && c.tabs == tabs && c.before == nets[n].kind.permission
    ensures Safe(c, rules, rules)
  {
    hide FixedOk, CacheOk, FlagsOk, Expected;
    forall i | i in c.ifaces
      ensures Covered(c, i, rules)
    {
      var t := TableOf(tabs, i);
      var e := ExplicitNetwork(n, t, c.before, AllUids, 0);
      assert PhysicalRequests(n, i, t, c.before, nets[n].kind.local)[1] == e;
      assert FromIface(e, n, nets[n], i, t);
      ExpectedMember(nets, d, tabs, fixed, e);
      assert !IsTethering(e);
    }
  }

  lemma TablesDiffer(nets: Networks, tabs: Tables, ifindex: map<string, nat>, c: Change)
    requires NetworksOk(nets) && CacheOk(nets, tabs) && TablesOk(tabs, ifindex) && c.n in nets
    requires nets[c.n].kind.Physical?
    requires c.ifaces == nets[c.n].ifaces && c.tabs == tabs && c.before != c.after
    ensures Distinct(c)
  {}

  lemma NoneSafe(c: Change, r0: multiset<Entry>, trace: seq<multiset<Entry>>)
    ensures AllSafe(c, r0, trace, |trace|)
  {}

  // ---- accounts -----------------------------------------------------------------------------------

  /** The kernel gained `g` and lost `l` since `r0`. */
  ghost predicate Settled(r0: multiset<Entry>, g: multiset<Entry>, l: multiset<Entry>, r1: multiset<Entry>) {
    r1 + l == r0 + g
  }

  /** `sum` covers all of `s` but `todo`. */
  ghost predicate Collected(s: set<string>, f: string -> multiset<Entry>, todo: set<string>, sum: multiset<Entry>) {
    sum + Sum(todo, f) == Sum(s, f) && (todo == {} ==> sum == Sum(s, f))
  }

  lemma NothingYet(r0: multiset<Entry>, s: set<string>, gained: string -> multiset<Entry>,
                   lost: string -> multiset<Entry>)
    ensures Settled(r0, multiset{}, multiset{}, r0)
    ensures Collected(s, gained, s, multiset{}) && Collected(s, lost, s, multiset{})
  {}

  lemma AllSettled(r0: multiset<Entry>, g: multiset<Entry>, l: multiset<Entry>, r1: multiset<Entry>, s: set<string>,
                   gained: string -> multiset<Entry>, lost: string -> multiset<Entry>)
    requires Settled(r0, g, l, r1) && Collected(s, gained, {}, g) && Collected(s, lost, {}, l)
    ensures r1 + Sum(s, lost) == r0 + Sum(s, gained)
  {}

  lemma Collect(s: set<string>, f: string -> multiset<Entry>, todo: set<string>, sum: multiset<Entry>, i: string)
    requires i in todo && Collected(s, f, todo, sum)
    ensures Collected(s, f, todo - {i}, sum + f(i))
  {
    SumPick(todo, f, i);
    assert sum + f(i) + Sum(todo - {i}, f) == Sum(s, f);
  }

  lemma Account(r0: multiset<Entry>, g: multiset<Entry>, l: multiset<Entry>, r1: multiset<Entry>, dg: multiset<Entry>,
                dl: multiset<Entry>, r2: multiset<Entry>)
    requires Settled(r0, g, l, r1) && dl <= r1 + dg && r2 == r1 + dg - dl
    ensures Settled(r0, g + dg, l + dl, r2)
  {
    forall e
      ensures (r2 + (l + dl))[e] == (r0 + (g + dg))[e]
    {
      assert (r1 + l)[e] == (r0 + g)[e];
    }
  }

  lemma NoPermissionPart(nets: Networks, d: NetId, n: NetId, permission: Permission, tabs: Tables)
    requires n in nets && nets[n].kind.Physical? && nets[n].ifaces == {}
    ensures PermissionPart(nets, d, n, permission, tabs) == multiset{}
  {}

  lemma PermissionNetworksOk(nets: Networks, n: NetId, permission: Permission)
    requires NetworksOk(nets) && n in nets && nets[n].kind.Physical?
    requires NetworkOk(n, WithPermission(nets[n], permission))
    ensures NetworksOk(nets[n := WithPermission(nets[n], permission)])
  {
    hide NetworkOk;
  }

  /** Both loops together move the permission-based part of the network's rules. */
  lemma PermissionAccount(nets: Networks, d: NetId, c: Change, r0: multiset<Entry>, r1: multiset<Entry>,
                          r2: multiset<Entry>)
    requires c.n in nets && nets[c.n].kind.Physical? && c == ChangeOf(nets, c.n, c.after, c.tabs)
    requires r1 + Sum(c.ifaces, LostFn(c)) == r0 + Sum(c.ifaces, GainedFn(c))
    requires c.n != d ==> r2 == r1
    requires c.n == d ==>
      r2 + DefaultEntries(c.ifaces, Vpns(nets), c.tabs, c.before)
      == r1 + DefaultEntries(c.ifaces, Vpns(nets), c.tabs, c.after)
    ensures r2 + PermissionPart(nets, d, c.n, c.before, c.tabs) == r0 + PermissionPart(nets, d, c.n, c.after, c.tabs)
  {
    hide DefaultEntries, PhysicalRequests;
    SumCongruence(c.ifaces, LostFn(c), PermissionFn(c.n, c.before, c.local, c.tabs));
    SumCongruence(c.ifaces, GainedFn(c), PermissionFn(c.n, c.after, c.local, c.tabs));
    var dg, dl := if c.n == d then DefaultEntries(c.ifaces, Vpns(nets), c.tabs, c.after) else multiset{},
                  if c.n == d then DefaultEntries(c.ifaces, Vpns(nets), c.tabs, c.before) else multiset{};
    Chain(r0, Sum(c.ifaces, GainedFn(c)), Sum(c.ifaces, LostFn(c)), r1, dg, dl, r2);
  }

  lemma Chain(r0: multiset<Entry>, g: multiset<Entry>, l: multiset<Entry>, r1: multiset<Entry>, g': multiset<Entry>,
              l': multiset<Entry>, r2: multiset<Entry>)
    requires r1 + l == r0 + g && r2 + l' == r1 + g'
    ensures r2 + (l + l') == r0 + (g + g')
  {
    forall e
      ensures (r2 + (l + l'))[e] == (r0 + (g + g'))[e]
    {
      assert (r1 + l)[e] == (r0 + g)[e] && (r2 + l')[e] == (r1 + g')[e];
    }
  }

  // ---- progress -----------------------------------------------------------------------------------

  /** What remains to be taken away is still there. */
  lemma StillThere(r0: multiset<Entry>, g: multiset<Entry>, l: multiset<Entry>, r1: multiset<Entry>, s: set<string>,
                   f: string -> multiset<Entry>, todo: set<string>, i: string)
    requires Settled(r0, g, l, r1) && Collected(s, f, todo, l) && Sum(s, f) <= r0 && i in todo
    ensures f(i) <= r1
  {
    SumIncludes(todo, f, i);
    forall e
      ensures f(i)[e] <= r1[e]
    {
      assert (r1 + l)[e] == (r0 + g)[e] && (l + Sum(todo, f))[e] == Sum(s, f)[e];
    }
  }

  lemma PhysicalNamed(n: NetId, i: string, t: nat, p: Permission, local: bool)
    ensures OutputInterface(i, t, p, AllUids, 0) in multiset(PhysicalRequests(n, i, t, p, local))
  {
    var e, outs := OutputInterface(i, t, p, AllUids, 0), OutputInterfaces(i, t, p, AllUids, 0);
    assert outs[1] == e;
    hide OutputInterfaces, OutputInterface, Incoming, ExplicitNetwork, LocalNetworkRequests, ImplicitNetwork;
    var front := [Incoming(n, i, p), ExplicitNetwork(n, t, p, AllUids, 0)]
      + if local then LocalNetworkRequests(t) else [];
    assert e in front + outs;
  }

  lemma PhysicalSendable(n: NetId, i: string, t: nat, p: Permission, local: bool, e: Entry)
    requires |i| < IFNAMSIZ && e in PhysicalRequests(n, i, t, p, local)
    ensures Sendable(e)
  {
    PhysicalCases(n, i, t, p, local, e);
    hide PhysicalRequests;
  }

  /** An interface whose old rules pass the checks has new rules that do. */
  lemma GainedSendable(c: Change, i: string, r0: multiset<Entry>)
    requires CanApply(r0, Lost(c, i), false)
    ensures CanApply(r0, Gained(c, i), true)
  {
    hide PhysicalRequests;
    var t := TableOf(c.tabs, i);
    PhysicalNamed(c.n, i, t, c.before, c.local);
    assert Sendable(OutputInterface(i, t, c.before, AllUids, 0));
    assert |i| < IFNAMSIZ;
    hide Sendable;
    forall e | e in Gained(c, i)
      ensures Sendable(e)
    {
      PhysicalSendable(c.n, i, t, c.after, c.local, e);
    }
  }

  /** In agreement with the kernel, all that a permission change takes away is there. */
  lemma PermissionInstalled(nets: Networks, d: NetId, n: NetId, tabs: Tables, fixed: multiset<Entry>,
                            rules: multiset<Entry>)
    requires LOCAL_NET_ID in nets && NetworksOk(nets) && Synced(nets, d, tabs, fixed, rules) && n in nets
    requires nets[n].kind.Physical?
    ensures PermissionPart(nets, d, n, nets[n].kind.permission, tabs) <= rules
  {
    hide NetworksOk, Synced;
    var part := PermissionPart(nets, d, n, nets[n].kind.permission, tabs);
    assert part <= Expected(nets, d, tabs, fixed) by {
      hide NetworkEntries, DefaultEntries;
      PermissionSplit(n, nets[n], tabs);
      SumIncludes(nets.Keys, NetworkFn(nets, tabs), n);
    }
    PartInstalled(nets, d, tabs, fixed, rules, part);
  }

  /** The two halves of what a permission change takes away: first the interfaces' own, then the default's. */
  lemma PermissionHalves(nets: Networks, d: NetId, c: Change, r0: multiset<Entry>)
    requires c.n in nets && nets[c.n].kind.Physical? && c == ChangeOf(nets, c.n, c.after, c.tabs)
    requires PermissionPart(nets, d, c.n, c.before, c.tabs) <= r0
    ensures Sum(c.ifaces, LostFn(c)) <= r0
    ensures c.n == d ==> Sum(c.ifaces, LostFn(c)) + DefaultEntries(c.ifaces, Vpns(nets), c.tabs, c.before) <= r0
  {
    hide DefaultEntries, PhysicalRequests;
    SumCongruence(c.ifaces, LostFn(c), PermissionFn(c.n, c.before, c.local, c.tabs));
  }

  lemma SecondHalf(r0: multiset<Entry>, g: multiset<Entry>, l: multiset<Entry>, r1: multiset<Entry>, m: multiset<Entry>)
    requires r1 + l == r0 + g && l + m <= r0
    ensures m <= r1
  {
    forall e
      ensures m[e] <= r1[e]
    {
      assert (r1 + l)[e] == (r0 + g)[e] && (l + m)[e] <= r0[e];
    }
  }
}
