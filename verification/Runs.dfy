/** Whole runs: any sequence of requests to the controller, and deletions that undo additions. */
module Runs {
  import opened Fwmarks
  import opened IpRules
  import opened UidRangeLists
  import opened RuleSet
  import opened RouteControllers
  import opened NetworkStates
  import opened SyncSteps
  import opened NetworkControllers
  import opened Progress

  /** What a client, or the kernel's own interface churn, can ask of the controller. */
  datatype Op =
    | CreatePhysical(netId: nat, permission: Permission, local: bool)
    | CreateVirtual(netId: nat, secure: bool, validVpnType: bool, excludeLocal: bool)
    | Destroy(n: NetId)
    | AddInterface(n: NetId, iface: string)
    | RemoveInterface(n: NetId, iface: string)
    | AddUsers(n: NetId, ranges: seq<UidRange>, sub: int)
    | RemoveUsers(n: NetId, ranges: seq<UidRange>, sub: int)
    | SetPermission(permission: Permission, netIds: seq<NetId>)
    | SetDefault(n: NetId)
    | Reject(ranges: seq<UidRange>, add: bool)
    | Tether(input: string, output: string, add: bool)
    | AddAddress(index: nat, address: string)
    | RemoveAddress(index: nat, address: string)
    | InterfaceChange(iface: string, kernelIndex: Option<nat>)

  // ---- what a request asks for ------------------------------------------------------------------------

  /** What requests depend on and change: the controller's bookkeeping and the kernel's interface indices. */
  datatype Snapshot = Snapshot(nets: Networks, default: NetId, cached: Tables, indexed: map<string, nat>,
                               rejects: multiset<Entry>)

  ghost function View(nc: NetworkController): Snapshot
    reads nc, nc.rc
  {
    Snapshot(nc.networks, nc.defaultNetId, nc.rc.tables, nc.rc.ifindex, nc.rc.rejects)
  }

  /** Names that fit and ranges that can be added or are there to be removed: nothing to fail half-way. */
  ghost predicate Proper(s: Snapshot, op: Op) {
    match op
    case AddInterface(n, iface) => |iface| < IFNAMSIZ && (n in s.nets ==> GoodUids(s.nets[n]))
    case AddUsers(n, ranges, _) => n in s.nets ==> forall r :: r in ranges ==> GoodRange(s.nets[n].kind, r)
    case RemoveUsers(n, ranges, sub) =>
      n in s.nets && sub >= 0 ==> multiset(ranges) <= multiset(RangesAt(s.nets[n].uids, sub))
    case Reject(ranges, add) => GoodRejects(s.rejects, Sort(ranges), add)
    case _ => true
  }

  /** When a proper request succeeds, unless the kernel refuses it. */
  predicate Accepts(s: Snapshot, op: Op) {
    match op
    case CreatePhysical(netId, _, _) =>
      (MIN_NET_ID <= netId <= MAX_NET_ID || MIN_OEM_ID <= netId <= MAX_OEM_ID) && netId !in s.nets
    case CreateVirtual(netId, _, validVpnType, _) =>
      MIN_NET_ID <= netId <= MAX_NET_ID && netId !in s.nets && validVpnType
    case Destroy(n) => n in s.nets && HasInterfaceTables(s.nets[n].kind)
    case AddInterface(n, iface) =>
      n in s.nets && Free(s.nets, n, iface) && Joinable(s.nets[n], iface, s.cached, s.indexed)
    case RemoveInterface(n, _) => n in s.nets && TakesInterfaces(s.nets[n].kind)
    case AddUsers(n, ranges, sub) =>
      n in s.nets && ValidSubPriority(s.nets[n].kind, sub) && !OverlapsItself(Sort(ranges))
    case RemoveUsers(n, _, sub) => n in s.nets && ValidSubPriority(s.nets[n].kind, sub)
    case SetPermission(_, netIds) => AllPhysical(s.nets, netIds)
    case SetDefault(n) => DefaultOk(s.nets, n)
    case _ => true
  }

  /** The reject rules after a request, given the answer to it. */
  ghost function RejectsAfter(rejects: multiset<Entry>, op: Op, ret: int): multiset<Entry> {
    if op.Reject? && ret == 0 then Applied(rejects, RangeSum(Sort(op.ranges), 0, RejectRequests), op.add) else rejects
  }

  /** The default network after a request, given the answer to it. */
  function DefaultAfter(s: Snapshot, op: Op, ret: int): NetId {
    match op
    case SetDefault(n) => if ret == 0 then n else s.default
    case Destroy(n) =>
      if n in s.nets && n != LOCAL_NET_ID && n != UNREACHABLE_NET_ID && s.default == n then NETID_UNSET else s.default
    case _ => s.default
  }

  /** The networks after a request, given the answer to it. */
  ghost predicate NetworksAfter(s: Snapshot, op: Op, ret: int, nets: Networks) {
    match op
    case CreatePhysical(netId, permission, local) =>
      nets == if ret == 0 && netId <= MAX_NET_ID
              then s.nets[netId := Network(Physical(permission, false, local), {}, map[], None)] else s.nets
    case CreateVirtual(netId, secure, _, excludeLocal) =>
      nets == if ret == 0 && netId <= MAX_NET_ID
              then s.nets[netId := Network(Virtual(secure, excludeLocal), {}, map[], None)] else s.nets
    case Destroy(n) => nets == if n == LOCAL_NET_ID || n == UNREACHABLE_NET_ID then s.nets else s.nets - {n}
    case AddInterface(n, iface) =>
      nets == if ret == 0 && n in s.nets then s.nets[n := WithIface(s.nets[n], iface)] else s.nets
    case RemoveInterface(n, iface) =>
      nets == if ret == 0 && n in s.nets then s.nets[n := WithoutIface(s.nets[n], iface)] else s.nets
    case AddUsers(n, ranges, sub) =>
      nets == if ret == 0 && n in s.nets && sub >= 0
              then s.nets[n := WithUsers(s.nets[n], Sort(ranges), sub)] else s.nets
    case RemoveUsers(n, ranges, sub) =>
      nets == if ret == 0 && n in s.nets && sub >= 0
              then s.nets[n := WithoutUsers(s.nets[n], Sort(ranges), sub)] else s.nets
    case SetPermission(permission, netIds) =>
      if ret == 0 then nets == Repermitted(s.nets, netIds, permission)
      else exists k :: 0 <= k < |netIds| && nets == Repermitted(s.nets, netIds[..k], permission)
    case SetDefault(n) =>
      if ret != 0 then nets == s.nets || nets == WithDefaultFlag(s.nets, n, true)
      else if n == s.default then nets == s.nets
      else nets == WithDefaultFlag(WithDefaultFlag(s.nets, n, true), s.default, false)
    case _ => nets == s.nets
  }

  /** What a request does to the bookkeeping, given the answer to it. */
  ghost predicate Moves(s: Snapshot, op: Op, ret: int, s': Snapshot) {
    && NetworksAfter(s, op, ret, s'.nets)
    && s'.default == DefaultAfter(s, op, ret)
    && s'.rejects == RejectsAfter(s.rejects, op, ret)
    && if op.InterfaceChange?
       then s'.indexed - {op.iface} == s.indexed - {op.iface} && (op.kernelIndex.None? ==> op.iface !in s'.indexed)
       else s'.indexed == s.indexed
  }

  // ---- one request ------------------------------------------------------------------------------------

  /** What every request keeps, how it answers, and when it gives up half-way. */
  twostate predicate Handled(nc: NetworkController, op: Op, ret: int)
    reads nc, nc.rc
  {
    && nc.Inv()
    && (old(nc.InSync()) && (!nc.rc.aborted || op.Tether?) ==> nc.InSync())
    && (old(nc.rc.aborted) ==> nc.rc.aborted) && (old(nc.rc.refused) ==> nc.rc.refused)
    && (old(nc.InSync()) && !nc.rc.refused && !op.Tether? ==>
         && (Proper(old(View(nc)), op) ==> nc.rc.aborted == old(nc.rc.aborted))
         && (!nc.rc.aborted ==> (ret == 0 <==> Accepts(old(View(nc)), op))))
    && Moves(old(View(nc)), op, ret, View(nc))
    && (op.Tether? && ret == 0 ==>
         var e := Tethering(op.input, TableOf(nc.rc.tables, op.output));
         nc.rc.rules == Applied(old(nc.rc.rules), multiset{e}, op.add))
  }

  method SendCreate(nc: NetworkController, op: Op) returns (ret: int)
    requires nc.Inv() && (op.CreatePhysical? || op.CreateVirtual?)
    modifies nc, nc.rc
    ensures Handled(nc, op, ret)
  {
    hide Synced, TablesOk, AllSendable, FixedRules, OnlyRejects, NetworksOk, DefaultOk;
    match op
    case CreatePhysical(netId, permission, local) => ret := nc.CreatePhysicalNetwork(netId, permission, local);
    case CreateVirtual(netId, secure, valid, excludeLocal) =>
      ret := nc.CreateVirtualNetwork(netId, secure, valid, excludeLocal);
  }

  method SendDestroy(nc: NetworkController, op: Op) returns (ret: int)
    requires nc.Inv() && op.Destroy?
    modifies nc, nc.rc
    ensures Handled(nc, op, ret)
  {
    hide Synced, TablesOk, AllSendable, FixedRules, OnlyRejects, NetworksOk, DefaultOk, Forgotten, LastOk;
    ret := nc.DestroyNetwork(op.n);
  }

  method SendSettings(nc: NetworkController, op: Op) returns (ret: int)
    requires nc.Inv() && (op.SetPermission? || op.SetDefault?)
    modifies nc, nc.rc
    ensures Handled(nc, op, ret)
  {
    hide Synced, TablesOk, AllSendable, FixedRules, OnlyRejects, NetworksOk, AllHaveDefault, Repermitted;
    hide WithDefaultFlag, HasDefaultIface, AllPhysical, DefaultOk, LastOk;
    match op
    case SetPermission(permission, netIds) => ret := nc.SetPermissionForNetworks(permission, netIds);
    case SetDefault(n) => ret := nc.SetDefaultNetwork(n);
  }

  method SendInterface(nc: NetworkController, op: Op) returns (ret: int)
    requires nc.Inv() && (op.AddInterface? || op.RemoveInterface?)
    modifies nc, nc.rc
    ensures Handled(nc, op, ret)
  {
    hide Synced, TablesOk, AllSendable, FixedRules, NetworksOk, GoodUids, Free, Joinable, WithIface, WithoutIface;
    hide OnlyRejects;
    match op
    case AddInterface(n, iface) => ret := nc.AddInterfaceToNetwork(n, iface);
    case RemoveInterface(n, iface) => ret := nc.RemoveInterfaceFromNetwork(n, iface);
  }

  method SendUsers(nc: NetworkController, op: Op) returns (ret: int)
    requires nc.Inv() && (op.AddUsers? || op.RemoveUsers?)
    modifies nc, nc.rc
    ensures Handled(nc, op, ret)
  {
    hide Synced, TablesOk, AllSendable, FixedRules, OnlyRejects, NetworksOk, Sort, GoodRange, OverlapsItself;
    hide WithUsers, WithoutUsers, DefaultOk, LastOk;
    SortCorrect(op.ranges);
    SameElements(op.ranges);
    match op
    case AddUsers(n, ranges, sub) => ret := nc.AddUsersToNetwork(n, Sort(ranges), sub);
    case RemoveUsers(n, ranges, sub) => ret := nc.RemoveUsersFromNetwork(n, Sort(ranges), sub);
  }

  lemma SameElements(ranges: seq<UidRange>)
    ensures forall r :: r in Sort(ranges) <==> r in ranges
  {
    hide Sort;
    SortCorrect(ranges);
    assert forall r :: r in Sort(ranges) <==> r in multiset(Sort(ranges));
    assert forall r :: r in ranges <==> r in multiset(ranges);
  }

  method SendToRules(nc: NetworkController, op: Op) returns (ret: int)
    requires nc.Inv() && (op.Reject? || op.Tether?)
    modifies nc, nc.rc
    ensures Handled(nc, op, ret)
  {
    hide Synced, TablesOk, AllSendable, FixedRules, NetworksOk, RangeSum, Sort, GoodRejects, Effect, Able, Applied;
    hide OnlyRejects, RejectNonSecure, LooseUids, CacheStep, DefaultOk;
    match op
    case Reject(ranges, add) => ret := nc.RejectNonSecureVpn(Sort(ranges), add);
    case Tether(input, output, add) => ret := nc.ModifyTethering(input, output, add);
  }

  /** Requests without an answer, which never fail. */
  method Notify(nc: NetworkController, op: Op)
    requires nc.Inv() && (op.AddAddress? || op.RemoveAddress? || op.InterfaceChange?)
    modifies nc, nc.rc
    ensures Handled(nc, op, 0)
  {
    hide Synced, TablesOk, AllSendable, FixedRules, OnlyRejects, NetworksOk, AddressSet, LastOf, DefaultOk, Applied;
    match op
    case AddAddress(index, address) => nc.AddInterfaceAddress(index, address);
    case RemoveAddress(index, address) => var _ := nc.RemoveInterfaceAddress(index, address);
    case InterfaceChange(iface, index) => nc.InterfaceChanges(iface, index);
  }

  /** Sends one request to the controller. */
  method Send(nc: NetworkController, op: Op) returns (ret: int)
    requires nc.Inv()
    modifies nc, nc.rc
    ensures Handled(nc, op, ret)
  {
    hide Synced, TablesOk, AllSendable, FixedRules, OnlyRejects, NetworksOk, Moves, Proper, Accepts;
    if op.CreatePhysical? || op.CreateVirtual? {
      ret := SendCreate(nc, op);
    } else if op.Destroy? {
      ret := SendDestroy(nc, op);
    } else if op.SetPermission? || op.SetDefault? {
      ret := SendSettings(nc, op);
    } else if op.AddInterface? || op.RemoveInterface? {
      ret := SendInterface(nc, op);
    } else if op.AddUsers? || op.RemoveUsers? {
      ret := SendUsers(nc, op);
    } else if op.Reject? || op.Tether? {
      ret := SendToRules(nc, op);
    } else {
      Notify(nc, op);
      ret := 0;
    }
  }

  /** Tables may have been learned, none of them the local network's, and none was forgotten. */
  ghost predicate OnlyLearned(before: Tables, after: Tables) {
    && Remembers(before, after)
    && forall i :: i in after && i !in before ==> after[i] != TABLE_LOCAL_NETWORK
  }

  /** A request that changed neither networks nor rules leaves agreement as it was. */
  lemma NothingHappened(nets: Networks, d: NetId, tabs: Tables, tabs': Tables, fixed: multiset<Entry>,
                        rules: multiset<Entry>)
    requires LOCAL_NET_ID in nets && Synced(nets, d, tabs, fixed, rules) && OnlyLearned(tabs, tabs')
    ensures Synced(nets, d, tabs', fixed, rules)
  {
    hide FixedOk, FlagsOk, SameOutsideTethering, Expected;
    forall n, j | n in nets && j in nets[n].ifaces && HasInterfaceTables(nets[n].kind)
      ensures TableOf(tabs, j) == TableOf(tabs', j)
    {
      assert j in tabs;
    }
    SameTables(nets, d, tabs, tabs', fixed);
    FixedStays(nets, nets, tabs, tabs', fixed);
  }

  /**
   * Any one request. If it fails without having changed anything, or only has to do with tethering, it
   * does not count as given up half-way, so the rest of a run is as good as before.
   */
  method Apply(nc: NetworkController, op: Op) returns (ret: int)
    requires nc.Inv()
    modifies nc, nc.rc
    ensures nc.Inv()
    ensures old(nc.InSync()) && !nc.rc.aborted ==> nc.InSync()
    ensures (old(nc.rc.aborted) ==> nc.rc.aborted) && (old(nc.rc.refused) ==> nc.rc.refused)
    ensures Moves(old(View(nc)), op, ret, View(nc))
    ensures old(nc.InSync()) && !old(nc.rc.aborted) && !nc.rc.refused && Proper(old(View(nc)), op) ==>
      !nc.rc.aborted && (!op.Tether? ==> (ret == 0 <==> Accepts(old(View(nc)), op)))
    ensures op.Tether? && ret == 0 ==>
      var e := Tethering(op.input, TableOf(nc.rc.tables, op.output));
      nc.rc.rules == Applied(old(nc.rc.rules), multiset{e}, op.add)
    ensures nc.rc.aborted && !old(nc.rc.aborted) ==>
      !op.Tether? && (|| nc.rc.rules != old(nc.rc.rules) || nc.networks != old(nc.networks)
                      || nc.defaultNetId != old(nc.defaultNetId) || nc.rc.fixed != old(nc.rc.fixed)
                      || !OnlyLearned(old(nc.rc.tables), nc.rc.tables))
  {
    hide Synced, TablesOk, AllSendable, FixedRules, OnlyRejects, NetworksOk, OnlyLearned, Moves, Proper, Accepts;
    ret := Send(nc, op);
    if op.Tether? {
      nc.rc.aborted := old(nc.rc.aborted);
    } else if nc.rc.rules == old(nc.rc.rules) && nc.networks == old(nc.networks)
      && nc.defaultNetId == old(nc.defaultNetId) && nc.rc.fixed == old(nc.rc.fixed)
      && OnlyLearned(old(nc.rc.tables), nc.rc.tables) {
      if old(nc.InSync()) {
        NothingHappened(nc.networks, nc.defaultNetId, old(nc.rc.tables), nc.rc.tables, nc.rc.fixed, nc.rc.rules);
      }
      nc.rc.aborted := old(nc.rc.aborted);
    }
  }

  // ---- whole runs -------------------------------------------------------------------------------------

  /** The reject rules of a whole history. */
  ghost function RejectsOf(ops: seq<Op>, answers: seq<int>): multiset<Entry>
    requires |answers| == |ops|
  {
    if ops == [] then multiset{}
    else
      var last := |ops| - 1;
      RejectsAfter(RejectsOf(ops[..last], answers[..last]), ops[last], answers[last])
  }

  lemma NoRejects()
    ensures RejectsOf([], []) == multiset{}
  {}

  lemma OneMoreAnswer(ops: seq<Op>, k: nat, answers: seq<int>, ret: int)
    requires k < |ops| && |answers| == k
    ensures RejectsOf(ops[..k + 1], answers + [ret]) == RejectsAfter(RejectsOf(ops[..k], answers), ops[k], ret)
  {
    hide RejectsAfter;
    assert ops[..k + 1][..k] == ops[..k] && (answers + [ret])[..k] == answers;
  }

  lemma SyncedMeansExpected(nets: Networks, d: NetId, tabs: Tables, fixed: multiset<Entry>, rules: multiset<Entry>)
    requires LOCAL_NET_ID in nets && Synced(nets, d, tabs, fixed, rules)
    ensures SameOutsideTethering(rules, Expected(nets, d, tabs, fixed))
  {}

  /** A run, seen from outside: how each request moved the bookkeeping on. */
  ghost predicate IsHistory(names: map<string, nat>, ops: seq<Op>, answers: seq<int>, history: seq<Snapshot>) {
    && |answers| == |ops| && |history| == |ops| + 1
    && history[0].nets == InitialNetworks() && history[0].default == NETID_UNSET
    && history[0].indexed == names && history[0].rejects == multiset{}
    && forall k :: 0 <= k < |ops| ==> Moves(history[k], ops[k], answers[k], history[k + 1])
  }

  ghost predicate AllProper(ops: seq<Op>, history: seq<Snapshot>)
    requires |history| == |ops| + 1
  {
    forall k :: 0 <= k < |ops| ==> Proper(history[k], ops[k])
  }

  /** Each request, tethering aside, succeeded exactly if it should. */
  ghost predicate AllAnswered(ops: seq<Op>, answers: seq<int>, history: seq<Snapshot>)
    requires |answers| == |ops| && |history| == |ops| + 1
  {
    forall k :: 0 <= k < |ops| && !ops[k].Tether? ==> (answers[k] == 0 <==> Accepts(history[k], ops[k]))
  }

  /**
   * Refinement over whole runs. From start-up, after any sequence of requests, whatever the kernel
   * refuses, the bookkeeping invariants hold, and networks, default network and reject rules are those
   * that the answers to the requests tell. As long as no operation had to give up half-way, the
   * kernel's rules are exactly, tethering rules aside: what start-up installed, the reject rules of the
   * history, and what the networks and the default network call for. And if all requests are proper
   * and the kernel refuses none, nothing is given up, and each request succeeds exactly if it should.
   */
  method Run(names: map<string, nat>, ops: seq<Op>)
    returns (nc: NetworkController, answers: seq<int>, ghost history: seq<Snapshot>)
    requires TablesOk(map[], names)
    ensures fresh(nc) && fresh(nc.rc) && nc.Inv()
    ensures IsHistory(names, ops, answers, history) && history[|ops|] == View(nc)
    ensures nc.rc.dummyRules <= 2
    ensures nc.rc.fixed == FixedRules(nc.rc.dummyTable, nc.rc.dummyRules, RejectsOf(ops, answers))
    ensures !nc.rc.aborted ==>
      SameOutsideTethering(nc.rc.rules, Expected(nc.networks, nc.defaultNetId, nc.rc.tables, nc.rc.fixed))
    ensures !nc.rc.aborted ==> nc.InSync()
    ensures !nc.rc.refused && AllProper(ops, history) ==> !nc.rc.aborted && AllAnswered(ops, answers, history)
  {
    hide Synced, TablesOk, AllSendable, FixedRules, NetworksOk, RejectsAfter, RejectsOf, Expected, SameOutsideTethering;
    hide OnlyRejects, Moves, Proper, Accepts, InitialNetworks;
    nc := new NetworkController(names);
    answers, history := [], [View(nc)];
    NoRejects();
    for k := 0 to |ops|
      invariant fresh(nc) && fresh(nc.rc) && nc.Inv()
      invariant IsHistory(names, ops[..k], answers, history) && history[k] == View(nc)
      invariant !nc.rc.aborted ==> nc.InSync()
      invariant nc.rc.rejects == RejectsOf(ops[..k], answers)
      invariant !nc.rc.refused && AllProper(ops[..k], history) ==>
        !nc.rc.aborted && AllAnswered(ops[..k], answers, history)
    {
      ghost var before := View(nc);
      var ret := Apply(nc, ops[k]);
      OneMoreAnswer(ops, k, answers, ret);
      MovesTell(before, ops[k], ret, View(nc));
      assert ops[..k + 1] == ops[..k] + [ops[k]];
      answers, history := answers + [ret], history + [View(nc)];
    }
    assert ops[..|ops|] == ops;
    if !nc.rc.aborted {
      SyncedMeansExpected(nc.networks, nc.defaultNetId, nc.rc.tables, nc.rc.fixed, nc.rc.rules);
    }
  }

  lemma MovesTell(s: Snapshot, op: Op, ret: int, s': Snapshot)
    requires Moves(s, op, ret, s')
    ensures s'.rejects == RejectsAfter(s.rejects, op, ret)
  {}

  // ---- deleting what was added ----------------------------------------------------------------------

  type Churn = seq<(string, Option<nat>)>

  method RunChurn(rc: RouteController, churn: Churn)
    requires rc.Valid()
    modifies rc`ifindex
    ensures rc.Valid()
  {
    for k := 0 to |churn|
      invariant rc.Valid()
    {
      rc.InterfaceChanges(churn[k].0, churn[k].1);
    }
  }

  /** Requests that were all accepted, and then all undone by a batch for the same entries. */
  lemma AddDelete(r0: multiset<Entry>, s0: nat, r1: multiset<Entry>, tr1: seq<multiset<Entry>>, s1: nat,
                  r2: multiset<Entry>, tr2: seq<multiset<Entry>>, m: multiset<Entry>, ret: int, refused: bool)
    requires Effect(r0, s0, r1, tr1, m, true, 0) && Effect(r1, s1, r2, tr2, m, false, ret)
    requires AllSendable(r1) && Able(r1, m, false, ret, refused)
    ensures r0 <= r2 <= r0 + m && (ret == 0 ==> r2 == r0) && (!refused ==> ret == 0)
  {
    CanDrop(r1, m);
    hide CanApply;
  }

  /**
   * Delete undoes add for a physical network, even if names and indices were reassigned in between:
   * the table comes from the cache, not from the kernel. A delete that fails part of the way never
   * takes away anything that was there before, and unless the kernel refuses it does not fail.
   */
  method UndoPhysical(rc: RouteController, netId: NetId, iface: string, uids: UidRangeMap, permission: Permission,
                      nonUid: bool, local: bool, churn: Churn)
    returns (added: int, deleted: int)
    requires rc.Valid()
    modifies rc
    ensures rc.Valid()
    ensures added == 0 ==> old(rc.rules) <= rc.rules && rc.tables == old(rc.tables)[iface := TableOf(rc.tables, iface)]
    ensures added == 0 && deleted == 0 ==> rc.rules == old(rc.rules)
    ensures added == 0 && !rc.refused ==> deleted == 0
  {
    hide Effect, Able, TablesOk, AllSendable, FixedRules, OnlyRejects, PhysicalBatch;
    added := rc.ModifyPhysicalNetwork(netId, iface, uids, permission, true, nonUid, local);
    ghost var r1, tr1 := rc.rules, rc.trace;
    RunChurn(rc, churn);
    deleted := rc.ModifyPhysicalNetwork(netId, iface, uids, permission, false, nonUid, local);
    if added == 0 {
      AddDelete(old(rc.rules), |old(rc.trace)|, r1, tr1, |tr1|, rc.rules, rc.trace,
                PhysicalBatch(netId, iface, TableOf(rc.tables, iface), uids, permission, nonUid, local), deleted,
                rc.refused);
    }
  }

  method UndoVirtual(rc: RouteController, netId: NetId, iface: string, uids: UidRangeMap, secure: bool,
                     nonUid: bool, excludeLocal: bool, churn: Churn)
    returns (added: int, deleted: int)
    requires rc.Valid()
    modifies rc
    ensures rc.Valid()
    ensures added == 0 ==> old(rc.rules) <= rc.rules && rc.tables == old(rc.tables)[iface := TableOf(rc.tables, iface)]
    ensures added == 0 && deleted == 0 ==> rc.rules == old(rc.rules)
    ensures added == 0 && !rc.refused ==> deleted == 0
  {
    hide Effect, Able, TablesOk, AllSendable, FixedRules, OnlyRejects, VirtualBatch;
    added := rc.ModifyVirtualNetwork(netId, iface, uids, secure, true, nonUid, excludeLocal);
    ghost var r1, tr1 := rc.rules, rc.trace;
    RunChurn(rc, churn);
    deleted := rc.ModifyVirtualNetwork(netId, iface, uids, secure, false, nonUid, excludeLocal);
    if added == 0 {
      AddDelete(old(rc.rules), |old(rc.trace)|, r1, tr1, |tr1|, rc.rules, rc.trace,
                VirtualBatch(netId, iface, TableOf(rc.tables, iface), uids, secure, nonUid, excludeLocal), deleted,
                rc.refused);
    }
  }

  method UndoUnreachable(rc: RouteController, netId: NetId, uids: UidRangeMap, churn: Churn)
    returns (added: int, deleted: int)
    requires rc.Valid()
    modifies rc
    ensures rc.Valid()
    ensures added == 0 ==> old(rc.rules) <= rc.rules && rc.tables == old(rc.tables)
    ensures added == 0 && deleted == 0 ==> rc.rules == old(rc.rules)
    ensures added == 0 && !rc.refused ==> deleted == 0
  {
    hide Effect, Able, TablesOk, AllSendable, FixedRules, OnlyRejects, UidSum;
    added := rc.ModifyUnreachableNetwork(netId, uids, true);
    ghost var r1, tr1 := rc.rules, rc.trace;
    RunChurn(rc, churn);
    deleted := rc.ModifyUnreachableNetwork(netId, uids, false);
    if added == 0 {
      AddDelete(old(rc.rules), |old(rc.trace)|, r1, tr1, |tr1|, rc.rules, rc.trace,
                UidSum(uids, UnreachableUids(netId)), deleted, rc.refused);
    }
  }
}
