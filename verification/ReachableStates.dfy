/** What every reachable state guarantees to packets: the routing theorems, stated of whole runs. */
module ReachableStates {
  import opened Fwmarks
  import opened IpRules
  import opened UidRangeLists
  import opened RuleSet
  import opened RouteControllers
  import opened NetworkStates
  import opened NetworkControllers
  import opened Policies
  import opened RoutingTheorems
  import opened PerAppDefaults
  import opened Steering
  import opened Runs

  /** A rule list the kernel may hold for a multiset of rules. */
  ghost predicate Lists(list: seq<Entry>, rules: multiset<Entry>) {
    multiset(list) == rules && InPriorityOrder(list)
  }

  ghost predicate LockedDown(nets: Networks, tabs: Tables, list: seq<Entry>, p: Packet, hit: nat -> bool) {
    && Walk(list, p, hit).Some?
    && var e := Walk(list, p, hit).value;
       e.IpRule? && (e.action == Prohibit || SecureVpnRoute(nets, tabs, p.uid, e))
  }

  /** Every ordinary packet of a uid with a prohibit rule is locked down, in every order of the rules. */
  ghost predicate LocksDown(nets: Networks, tabs: Tables, rules: multiset<Entry>) {
    NoLoopbackVpn(nets) ==>
      forall list, p, hit: nat -> bool, uids ::
        Lists(list, rules) && OrdinaryOutput(p) && RejectNonSecure(uids) in rules && uids.Admits(p.uid) ==>
        LockedDown(nets, tabs, list, p, hit)
  }

  /**
   * The only way to a physical network that a packet selected without the right to is through the
   * start-up rule of the dummy interface, which is no way while the dummy network exists.
   */
  ghost predicate Isolates(nets: Networks, tabs: Tables, fixed: multiset<Entry>, rules: multiset<Entry>) {
    && (forall n, i, p :: Intruder(nets, n, p) && i in nets[n].ifaces ==>
          (Reaches(rules, p, TableOf(tabs, i)) <==> DummyExit(fixed, TableOf(tabs, i), p)))
    && (DUMMY_NET_ID in nets ==> forall n, i, p :: Intruder(nets, n, p) && i in nets[n].ifaces ==>
        !Reaches(rules, p, TableOf(tabs, i)))
  }

  /** Some rule for the packet leads to table `t` or to its local table. */
  ghost predicate Reaches(rules: multiset<Entry>, p: Packet, t: nat) {
    exists e :: e in rules && Applies(e, p) && Leads(e, t)
  }

  /** Rules lead to constant or cached tables, the start-up rules of the dummy interface aside. */
  ghost predicate NamesCachedTables(nets: Networks, tabs: Tables, fixed: multiset<Entry>, rules: multiset<Entry>) {
    forall t :: !KnownTable(tabs, t) ==>
      (Names(rules, t) <==> DummyNames(fixed, t)) && (DUMMY_NET_ID in nets ==> !Names(rules, t))
  }

  /** Every packet is decided, in every order of the rules. */
  ghost predicate DecidesAll(rules: multiset<Entry>) {
    forall list, p, hit: nat -> bool :: Lists(list, rules) ==> Walk(list, p, hit).Some?
  }

  /** A physical network that asks for no permission and has a route for the packet. */
  ghost predicate Usable(nets: Networks, tabs: Tables, n: NetId, hit: nat -> bool) {
    && n in nets && nets[n].kind.Physical? && nets[n].kind.permission == PERMISSION_NONE
    && exists i :: i in nets[n].ifaces && hit(TableOf(tabs, i))
  }

  /** Sockets connected on a usable network without permission keep going there. */
  ghost predicate KeepsConnections(nets: Networks, tabs: Tables, rules: multiset<Entry>) {
    forall n, p, hit: nat -> bool, e ::
      Usable(nets, tabs, n, hit) && ConnectedOn(n, p) && SelectsFrom(rules, UID_IMPLICIT_NETWORK, p, hit, e) ==>
      LeadsTo(nets, tabs, n, e)
  }

  /**
   * What the kernel takes as a uid's default is the network whose rules win, whatever the ranges; and
   * where the search can handle the ranges, the controller's choice is the kernel's exactly if undisputed.
   */
  ghost predicate HonoursDefaults(nets: Networks, tabs: Tables, rules: multiset<Entry>) {
    && UsersOk(nets)
    && (forall p, choice :: Unmarked(p) ==> (Agree(nets, tabs, rules, p, choice) <==> Wins(nets, p.uid, choice)))
    && (PlainRanges(nets) ==>
          forall uid :: Wins(nets, uid, DefaultFor(nets, uid)) <==> Undisputed(nets, uid, DefaultFor(nets, uid)))
  }

  lemma SyncedLocksDown(nets: Networks, d: NetId, tabs: Tables, fixed: multiset<Entry>, rules: multiset<Entry>)
    requires LOCAL_NET_ID in nets && NetworksOk(nets) && Synced(nets, d, tabs, fixed, rules)
    ensures LocksDown(nets, tabs, rules)
  {
    hide NetworksOk, Synced, OrdinaryOutput, SecureVpnRoute, NoLoopbackVpn, InPriorityOrder, Walk, RejectNonSecure;
    if NoLoopbackVpn(nets) {
      forall list, p, hit: nat -> bool, uids
        | Lists(list, rules) && OrdinaryOutput(p) && RejectNonSecure(uids) in rules && uids.Admits(p.uid)
        ensures LockedDown(nets, tabs, list, p, hit)
      {
        assert RejectNonSecure(uids) in multiset(list);
        Lockdown(nets, d, tabs, fixed, list, p, hit, uids);
      }
    }
  }

  lemma SyncedIsolates(nets: Networks, d: NetId, tabs: Tables, ifindex: map<string, nat>, fixed: multiset<Entry>,
                       rules: multiset<Entry>)
    requires LOCAL_NET_ID in nets && NetworksOk(nets) && Synced(nets, d, tabs, fixed, rules) && TablesOk(tabs, ifindex)
    ensures Isolates(nets, tabs, fixed, rules)
  {
    hide NetworksOk, Synced, TablesOk, Applies, Leads, DummyExit;
    forall n, i, p | Intruder(nets, n, p) && i in nets[n].ifaces
      ensures Reaches(rules, p, TableOf(tabs, i)) <==> DummyExit(fixed, TableOf(tabs, i), p)
      ensures DUMMY_NET_ID in nets ==> !Reaches(rules, p, TableOf(tabs, i))
    {
      RestrictedIsolation(nets, d, tabs, ifindex, fixed, rules, n, i, p);
      if DUMMY_NET_ID in nets {
        DummyKeepsOut(nets, d, tabs, ifindex, fixed, rules, n, i, p);
      }
    }
  }

  lemma SyncedNamesCachedTables(nets: Networks, d: NetId, tabs: Tables, fixed: multiset<Entry>, rules: multiset<Entry>)
    requires LOCAL_NET_ID in nets && Synced(nets, d, tabs, fixed, rules)
    ensures NamesCachedTables(nets, tabs, fixed, rules)
  {
    hide Synced, KnownTable, Names, DummyNames;
    forall t | !KnownTable(tabs, t)
      ensures (Names(rules, t) <==> DummyNames(fixed, t)) && (DUMMY_NET_ID in nets ==> !Names(rules, t))
    {
      NoDanglingTable(nets, d, tabs, fixed, rules, t);
    }
  }

  lemma SyncedDecidesAll(nets: Networks, d: NetId, tabs: Tables, fixed: multiset<Entry>, rules: multiset<Entry>)
    requires LOCAL_NET_ID in nets && Synced(nets, d, tabs, fixed, rules) && LAST_RULE in fixed
    ensures DecidesAll(rules)
  {
    hide Synced, Walk, InPriorityOrder;
    forall list, p, hit: nat -> bool | Lists(list, rules)
      ensures Walk(list, p, hit).Some?
    {
      AlwaysDecided(nets, d, tabs, fixed, list, p, hit);
    }
  }

  lemma SyncedKeepsConnections(nets: Networks, d: NetId, tabs: Tables, fixed: multiset<Entry>, rules: multiset<Entry>)
    requires LOCAL_NET_ID in nets && NetworksOk(nets) && Synced(nets, d, tabs, fixed, rules)
    ensures KeepsConnections(nets, tabs, rules)
  {
    hide NetworksOk, Synced, SelectsFrom, LeadsTo, ConnectedOn, TableOf;
    forall n, p, hit: nat -> bool, e
      | Usable(nets, tabs, n, hit) && ConnectedOn(n, p) && SelectsFrom(rules, UID_IMPLICIT_NETWORK, p, hit, e)
      ensures LeadsTo(nets, tabs, n, e)
    {
      var i :| i in nets[n].ifaces && hit(TableOf(tabs, i));
      ConnectedStaysPut(nets, d, tabs, fixed, rules, n, i, p, hit, e);
    }
  }

  lemma SyncedHonoursDefaults(nets: Networks, d: NetId, tabs: Tables, ifindex: map<string, nat>, fixed: multiset<Entry>,
                              rules: multiset<Entry>)
    requires LOCAL_NET_ID in nets && NetworksOk(nets) && Synced(nets, d, tabs, fixed, rules) && TablesOk(tabs, ifindex)
    ensures HonoursDefaults(nets, tabs, rules)
  {
    hide NetworksOk, Synced, TablesOk, Agree, Wins, Undisputed, UsersOk, PlainRanges, Unmarked, DefaultFor;
    OkUsers(nets);
    forall p, choice | Unmarked(p)
      ensures Agree(nets, tabs, rules, p, choice) <==> Wins(nets, p.uid, choice)
    {
      KernelDefault(nets, d, tabs, ifindex, fixed, rules, p, choice);
    }
    if PlainRanges(nets) {
      forall uid
        ensures Wins(nets, uid, DefaultFor(nets, uid)) <==> Undisputed(nets, uid, DefaultFor(nets, uid))
      {
        UndisputedWins(nets, uid);
      }
    }
  }

  /** The rules are the table, for every packet, precedence and action, and so are the incoming marks. */
  ghost predicate FollowsTable(x: Setup, rules: multiset<Entry>) {
    && (forall p, priority, action ::
          (exists e :: e in rules && Does(e, p, priority, action)) <==> Steers(x, p, priority, action))
    && (forall i, mark :: IncomingMark(i, mark) in rules <==>
          exists n :: n in x.nets && i in x.nets[n].ifaces && ArrivesWith(n, x.nets[n], mark))
  }

  /** The kernel takes the best entry of the table that has a route. */
  ghost predicate DecidesByTable(x: Setup, rules: multiset<Entry>) {
    forall list, p, hit: nat -> bool :: Lists(list, rules) ==> BestOfTable(x, rules, list, p, hit)
  }

  ghost predicate BestOfTable(x: Setup, rules: multiset<Entry>, list: seq<Entry>, p: Packet, hit: nat -> bool) {
    && Walk(list, p, hit).Some? && Walk(list, p, hit).value.IpRule?
    && var e := Walk(list, p, hit).value;
       && Goes(x, rules, p, hit, e.priority, e.action)
       && forall priority, action :: Goes(x, rules, p, hit, priority, action) ==> e.priority <= priority
  }

  /** A packet for the default network. */
  ghost predicate WantsDefault(x: Setup, p: Packet, hit: nat -> bool) {
    && x.default in x.nets && x.nets[x.default].kind.Physical?
    && p.iif == LOOPBACK && p.mark.netId == NETID_UNSET
    && p.mark.permission.Covers(x.nets[x.default].kind.permission)
    && exists i :: i in x.nets[x.default].ifaces && hit(TableOf(x.tabs, i))
  }

  /** Packets without a network of their own that nothing else decides go to the default network. */
  ghost predicate Delivers(x: Setup, rules: multiset<Entry>) {
    forall list, p, hit: nat -> bool ::
      Lists(list, rules) && WantsDefault(x, p, hit) && NoneBefore(list, p, hit, 31000) ==>
        EndsInDefault(x, list, p, hit)
  }

  ghost predicate EndsInDefault(x: Setup, list: seq<Entry>, p: Packet, hit: nat -> bool) {
    && Walk(list, p, hit).Some? && Walk(list, p, hit).value.IpRule?
    && IsTableOf(x, x.default, Walk(list, p, hit).value.action)
  }

  ghost predicate EndsInVpn(x: Setup, list: seq<Entry>, p: Packet, hit: nat -> bool) {
    && Walk(list, p, hit).Some? && Walk(list, p, hit).value.IpRule?
    && IntoVpn(x, p, Walk(list, p, hit).value.action)
  }

  /** A locally generated packet that is subject to VPN `v`, which has a route for it. */
  ghost predicate WantsVpn(x: Setup, p: Packet, hit: nat -> bool, v: NetId) {
    VpnTakes(x, p, v) && p.iif == LOOPBACK && exists i :: i in x.nets[v].ifaces && hit(TableOf(x.tabs, i))
  }

  /** Packets that are subject to a VPN go into one, from its band on. */
  ghost predicate Captures(x: Setup, rules: multiset<Entry>) {
    forall list, p, hit: nat -> bool, v ::
      Lists(list, rules) && WantsVpn(x, p, hit, v) && NoneBefore(list, p, hit, VpnBand(x.nets[v].kind)) ==>
        EndsInVpn(x, list, p, hit)
  }

  lemma RunningFollowsTable(x: Setup, rules: multiset<Entry>)
    requires Running(x, rules)
    ensures FollowsTable(x, rules)
  {
    hide Running, Steers, Does, ArrivesWith;
    forall p, priority, action
      ensures (exists e :: e in rules && Does(e, p, priority, action)) <==> Steers(x, p, priority, action)
    {
      RulesAreTable(x, rules, p, priority, action);
    }
    forall i, mark
      ensures IncomingMark(i, mark) in rules <==>
        exists n :: n in x.nets && i in x.nets[n].ifaces && ArrivesWith(n, x.nets[n], mark)
    {
      IncomingExactly(x, rules, i, mark);
    }
  }

  lemma RunningDecidesByTable(x: Setup, rules: multiset<Entry>)
    requires Running(x, rules)
    ensures DecidesByTable(x, rules)
  {
    hide Running, Walk, Goes, InPriorityOrder;
    forall list, p, hit: nat -> bool | Lists(list, rules)
      ensures BestOfTable(x, rules, list, p, hit)
    {
      WalkIsTable(x, list, p, hit);
    }
  }

  lemma RunningDelivers(x: Setup, rules: multiset<Entry>)
    requires Running(x, rules)
    ensures Delivers(x, rules)
  {
    hide Running, Walk, IsTableOf, InPriorityOrder, NoneBefore, TableOf;
    forall list, p, hit: nat -> bool
      | Lists(list, rules) && WantsDefault(x, p, hit) && NoneBefore(list, p, hit, 31000)
      ensures EndsInDefault(x, list, p, hit)
    {
      var i :| i in x.nets[x.default].ifaces && hit(TableOf(x.tabs, i));
      DefaultDelivers(x, list, p, hit, i);
    }
  }

  lemma RunningCaptures(x: Setup, rules: multiset<Entry>)
    requires Running(x, rules)
    ensures Captures(x, rules)
  {
    hide Running, Walk, IntoVpn, InPriorityOrder, NoneBefore, TableOf, VpnBand;
    forall list, p, hit: nat -> bool, v
      | Lists(list, rules) && WantsVpn(x, p, hit, v) && NoneBefore(list, p, hit, VpnBand(x.nets[v].kind))
      ensures EndsInVpn(x, list, p, hit)
    {
      var i :| i in x.nets[v].ifaces && hit(TableOf(x.tabs, i));
      VpnCaptures(x, list, p, hit, v, i);
    }
  }

  /** Everything a state in agreement with the kernel guarantees to packets. */
  ghost predicate SafeState(x: Setup, fixed: multiset<Entry>, rules: multiset<Entry>) {
    && FollowsTable(x, rules)
    && DecidesByTable(x, rules)
    && Delivers(x, rules)
    && Captures(x, rules)
    && DecidesAll(rules)
    && LocksDown(x.nets, x.tabs, rules)
    && Isolates(x.nets, x.tabs, fixed, rules)
    && NamesCachedTables(x.nets, x.tabs, fixed, rules)
    && KeepsConnections(x.nets, x.tabs, rules)
    && HonoursDefaults(x.nets, x.tabs, rules)
  }

  lemma SyncedIsSafe(x: Setup, ifindex: map<string, nat>, fixed: multiset<Entry>, rules: multiset<Entry>)
    requires Running(x, rules) && TablesOk(x.tabs, ifindex)
    requires fixed == FixedRules(x.dummyTable, x.dummyRules, x.rejects)
    ensures SafeState(x, fixed, rules)
  {
    hide LocksDown, Isolates, KeepsConnections, HonoursDefaults, NamesCachedTables, DecidesAll, FollowsTable;
    hide DecidesByTable, Delivers, Captures, NetworksOk, Synced, TablesOk, FixedRules, OnlyRejects;
    RunningFollowsTable(x, rules);
    RunningDecidesByTable(x, rules);
    RunningDelivers(x, rules);
    RunningCaptures(x, rules);
    LastRuleFixed(x.dummyTable, x.dummyRules, x.rejects);
    SyncedDecidesAll(x.nets, x.default, x.tabs, fixed, rules);
    SyncedLocksDown(x.nets, x.default, x.tabs, fixed, rules);
    SyncedIsolates(x.nets, x.default, x.tabs, ifindex, fixed, rules);
    SyncedNamesCachedTables(x.nets, x.default, x.tabs, fixed, rules);
    SyncedKeepsConnections(x.nets, x.default, x.tabs, fixed, rules);
    SyncedHonoursDefaults(x.nets, x.default, x.tabs, ifindex, fixed, rules);
  }

  ghost function SetupOf(nc: NetworkController): Setup
    reads nc, nc.rc
  {
    Setup(nc.networks, nc.defaultNetId, nc.rc.tables, nc.rc.dummyTable, nc.rc.dummyRules, nc.rc.rejects)
  }

  /**
   * Safety over whole runs: whatever is asked of the controller, and whatever the kernel refuses, as
   * long as no operation gave up half-way the kernel's rules are the table of the routing policy. So in
   * the reached state every packet is decided by the best entry of the table, the default network and VPNs
   * get the packets that are theirs, and the state locks down, isolates, keeps connections and treats
   * per-app defaults as the rules rank them. Nothing is given up if all requests are proper and the kernel
   * refuses none.
   */
  method RunIsSafe(names: map<string, nat>, ops: seq<Op>)
    returns (nc: NetworkController, answers: seq<int>, ghost history: seq<Snapshot>)
    requires TablesOk(map[], names)
    ensures fresh(nc) && fresh(nc.rc) && nc.Inv()
    ensures IsHistory(names, ops, answers, history) && history[|ops|] == View(nc)
    ensures !nc.rc.aborted || (!nc.rc.refused && AllProper(ops, history)) ==>
      SafeState(SetupOf(nc), nc.rc.fixed, nc.rc.rules)
  {
    hide NetworksOk, Synced, TablesOk, AllSendable, SafeState, FixedRules, AllProper, AllAnswered, OnlyRejects;
    nc, answers, history := Run(names, ops);
    if !nc.rc.aborted {
      SyncedIsSafe(SetupOf(nc), nc.rc.ifindex, nc.rc.fixed, nc.rc.rules);
    }
  }
}
