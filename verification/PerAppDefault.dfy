/** When the controller and the kernel agree on a user's default network. */
module PerAppDefaults {
  import opened Fwmarks
  import opened IpRules
  import opened UidRangeLists
  import opened RuleSet
  import opened RouteControllers
  import opened NetworkStates
  import opened RuleMembers
  import opened Policies
  import opened RoutingTheorems

  // ---- ranges as rules see them ---------------------------------------------------------------------

  predicate HasDefaults(kind: Kind) {
    kind.Physical? || kind.UnreachableKind?
  }

  predicate PlainRange(r: UidRange) {
    0 <= r.start && 0 <= r.stop
  }

  ghost predicate PlainList(s: seq<UidRange>) {
    (forall r :: r in s ==> PlainRange(r)) && Searchable(s)
  }

  /** At each subpriority of each network, ranges without negative ends that the search can handle. */
  ghost predicate PlainRanges(nets: Networks) {
    forall n, sub :: n in nets && HasDefaults(nets[n].kind) && sub in nets[n].uids ==> PlainList(nets[n].uids[sub])
  }

  lemma OkUsers(nets: Networks)
    requires NetworksOk(nets)
    ensures UsersOk(nets)
  {
    hide Sorted;
    forall n | n in nets
      ensures UidsOk(nets[n].uids)
    {
      assert NetworkOk(n, nets[n]);
    }
  }

  lemma PlainSelector(r: UidRange, uid: nat)
    requires PlainRange(r)
    ensures StrictUids(r).Admits(uid) <==> r.Contains(uid)
  {}

  lemma PlainMember(s: seq<UidRange>, uid: nat)
    requires forall r :: r in s ==> PlainRange(r)
    ensures Member(s, uid) <==> exists r :: r in s && StrictUids(r).Admits(uid)
  {
    hide StrictUids, PlainRange;
    if Member(s, uid) {
      var i :| 0 <= i < |s| && s[i].Contains(uid);
      PlainSelector(s[i], uid);
      assert s[i] in s;
    }
    if r :| r in s && StrictUids(r).Admits(uid) {
      PlainSelector(r, uid);
      var i :| 0 <= i < |s| && s[i] == r;
    }
  }

  /** On plain lists the binary search finds a uid exactly when one of the rules admits it. */
  lemma SearchIsSelector(s: seq<UidRange>, uid: nat)
    requires Sorted(s) && PlainList(s)
    ensures HasUid(s, uid) <==> exists r :: r in s && StrictUids(r).Admits(uid)
  {
    hide HasUid, Member, Sorted, StrictUids, Searchable;
    PlainMember(s, uid);
    if uid <= INT32_MAX {
      HasUidExactly(s);
    } else {
      TooLarge(s, uid);
    }
  }

  lemma TooLarge(s: seq<UidRange>, uid: nat)
    requires Sorted(s) && uid > INT32_MAX
    ensures !HasUid(s, uid) && !Member(s, uid)
  {}

  // ---- the rules of the band --------------------------------------------------------------------------

  predicate InBand(e: Entry) {
    e.IpRule? && UID_DEFAULT_NETWORK <= e.priority < DEFAULT_NETWORK
  }

  predicate Unmarked(p: Packet) {
    p.mark.netId == NETID_UNSET && p.iif == LOOPBACK
  }

  /** The network has something to put into the kernel. */
  predicate Backed(nets: Networks, n: NetId) {
    n in nets && (nets[n].kind.UnreachableKind? || (nets[n].kind.Physical? && nets[n].ifaces != {}))
  }

  ghost predicate GoesTo(nets: Networks, tabs: Tables, n: NetId, e: Entry) {
    && n in nets && HasDefaults(nets[n].kind) && e.IpRule?
    && (nets[n].kind.Physical? ==> exists i :: i in nets[n].ifaces && e.action == ToTable(TableOf(tabs, i)))
    && (nets[n].kind.UnreachableKind? ==> e.action == Unreachable)
  }

  /** A default rule of one range. */
  ghost predicate BandRule(nets: Networks, tabs: Tables, e: Entry, n: NetId, i: string, sub: nat, r: UidRange) {
    && n in nets && sub in nets[n].uids && r in nets[n].uids[sub] && sub < SUB_PRIORITY_NO_DEFAULT
    && if nets[n].kind.Physical?
       then i in nets[n].ifaces && e == UidDefaultNetwork(TableOf(tabs, i), StrictUids(r), sub)
       else nets[n].kind.UnreachableKind? && e == UidDefaultUnreachable(StrictUids(r), sub)
  }

  lemma FixedNotBand(e: Entry, t: nat)
    requires FixedShape(e, t)
    ensures !InBand(e)
  {}

  lemma DefaultNotBand(e: Entry, vpns: set<NetId>, t: nat, q: Permission, v: NetId)
    requires DefaultShape(e, vpns, t, q, v)
    ensures !InBand(e)
  {}

  lemma OwnBand(nets: Networks, tabs: Tables, e: Entry, n: NetId, i: string, sub: nat, r: UidRange)
    requires NetworksOk(nets) && n in nets && OwnShape(e, n, nets[n], TableOf(tabs, i), i, sub, r) && InBand(e)
    ensures BandRule(nets, tabs, e, n, i, sub, r)
  {
    assert NetworkOk(n, nets[n]);
    hide NetworksOk;
  }

  lemma BandOrigin(nets: Networks, d: NetId, tabs: Tables, fixed: multiset<Entry>, rules: multiset<Entry>, e: Entry)
    returns (n: NetId, i: string, sub: nat, r: UidRange)
    requires LOCAL_NET_ID in nets && NetworksOk(nets) && Synced(nets, d, tabs, fixed, rules) && e in rules && InBand(e)
    ensures BandRule(nets, tabs, e, n, i, sub, r)
  {
    assert !IsTethering(e);
    hide NetworksOk, CacheOk, FlagsOk, SameOutsideTethering, OwnShape, FixedOk, FixedShape, DefaultShape, Vpns;
    hide Expected, BandRule, InBand;
    n, i, sub, r := 0, "", 0, UidRange(0, 0);
    var o := RuleOrigin(nets, d, tabs, fixed, rules, e);
    match o
    case Fixed =>
      var t := FixedOrigin(nets, tabs, fixed, e);
      FixedNotBand(e, t);
    case Own(m, j, s, q) =>
      OwnBand(nets, tabs, e, m, j, s, q);
      n, i, sub, r := m, j, s, q;
    case ByDefault(j, v) => DefaultNotBand(e, Vpns(nets), TableOf(tabs, j), nets[d].kind.permission, v);
  }

  lemma BandInstalled(nets: Networks, d: NetId, tabs: Tables, fixed: multiset<Entry>, rules: multiset<Entry>, e: Entry,
                      n: NetId, i: string, sub: nat, r: UidRange)
    requires LOCAL_NET_ID in nets && Synced(nets, d, tabs, fixed, rules) && BandRule(nets, tabs, e, n, i, sub, r)
    ensures e in rules && InBand(e)
  {
    hide CacheOk, FlagsOk, FixedOk, Expected;
    var t := TableOf(tabs, i);
    if nets[n].kind.Physical? {
      assert PhysicalUidRequests(n, t, sub, r)[2] == e;
      assert e in PhysicalUids(n, t)(sub, r);
      assert FromIface(e, n, nets[n], i, t);
    } else {
      assert UnreachableUidRequests(n, sub, r)[2] == e;
      assert e in UnreachableUids(n)(sub, r);
    }
    assert FromNetwork(e, n, nets[n], tabs);
    ExpectedMember(nets, d, tabs, fixed, e);
    assert !IsTethering(e);
  }

  // ---- ranks ------------------------------------------------------------------------------------------

  /** A default rule of a range at this subpriority would admit the uid. */
  predicate Admitted(uids: UidRangeMap, sub: nat, uid: nat) {
    sub in uids && exists r :: r in uids[sub] && StrictUids(r).Admits(uid)
  }

  /** The least subpriority from `k` on, among those with default rules, that admits the uid. */
  function FirstAdmitted(uids: UidRangeMap, uid: nat, k: nat): (r: Option<nat>)
    requires k <= SUB_PRIORITY_NO_DEFAULT
    ensures r.Some? ==> k <= r.value < SUB_PRIORITY_NO_DEFAULT && Admitted(uids, r.value, uid)
    ensures r.Some? ==> forall s: nat :: k <= s < r.value ==> !Admitted(uids, s, uid)
    ensures r.None? ==> forall s: nat :: k <= s < SUB_PRIORITY_NO_DEFAULT ==> !Admitted(uids, s, uid)
    decreases SUB_PRIORITY_NO_DEFAULT - k
  {
    if k == SUB_PRIORITY_NO_DEFAULT then None
    else if Admitted(uids, k, uid) then Some(k) else FirstAdmitted(uids, uid, k + 1)
  }

  function Base(kind: Kind): nat {
    if kind.Physical? then UID_DEFAULT_NETWORK else UID_DEFAULT_UNREACHABLE
  }

  /** The priority of the first rule of a network for the uid, if it has rules for it. */
  function RuleRank(nets: Networks, n: NetId, uid: nat): Option<nat> {
    if !Backed(nets, n) then None
    else
      var sub := FirstAdmitted(nets[n].uids, uid, 0);
      if sub.None? then None else Some(Base(nets[n].kind) + sub.value)
  }

  /** A matching rule of the band is ranked no better than its network. */
  lemma MatchRanked(nets: Networks, tabs: Tables, p: Packet, e: Entry, n: NetId, i: string, sub: nat, r: UidRange)
    requires BandRule(nets, tabs, e, n, i, sub, r) && Matches(e, p)
    ensures RuleRank(nets, n, p.uid).Some? && RuleRank(nets, n, p.uid).value <= e.priority
    ensures GoesTo(nets, tabs, n, e)
  {
    assert StrictUids(r).Admits(p.uid);
    assert Admitted(nets[n].uids, sub, p.uid);
  }

  /** A network with rules for the uid has a matching rule at its rank. */
  lemma RankReached(nets: Networks, d: NetId, tabs: Tables, fixed: multiset<Entry>, rules: multiset<Entry>, p: Packet,
                    n: NetId)
    returns (e: Entry)
    requires LOCAL_NET_ID in nets && Synced(nets, d, tabs, fixed, rules)
    requires Unmarked(p) && RuleRank(nets, n, p.uid).Some?
    ensures e in rules && InBand(e) && Matches(e, p) && e.priority == RuleRank(nets, n, p.uid).value
    ensures GoesTo(nets, tabs, n, e)
  {
    hide Synced;
    var sub := FirstAdmitted(nets[n].uids, p.uid, 0).value;
    var r :| r in nets[n].uids[sub] && StrictUids(r).Admits(p.uid);
    var i := "";
    if nets[n].kind.Physical? {
      i :| i in nets[n].ifaces;
      e := UidDefaultNetwork(TableOf(tabs, i), StrictUids(r), sub);
    } else {
      e := UidDefaultUnreachable(StrictUids(r), sub);
    }
    BandInstalled(nets, d, tabs, fixed, rules, e, n, i, sub, r);
  }

  // ---- what the kernel does ---------------------------------------------------------------------------

  /** The first per-uid default rule that matches. */
  ghost predicate FirstInBand(rules: multiset<Entry>, p: Packet, e: Entry) {
    && e in rules && InBand(e) && Matches(e, p)
    && forall e' :: e' in rules && InBand(e') && Matches(e', p) ==> e.priority <= e'.priority
  }

  /** The kernel routes the packet as the choice says. */
  ghost predicate Agree(nets: Networks, tabs: Tables, rules: multiset<Entry>, p: Packet, choice: Option<NetId>) {
    match choice
    case None => forall e :: e in rules ==> !(InBand(e) && Matches(e, p))
    case Some(n) =>
      (exists e :: FirstInBand(rules, p, e)) && forall e :: FirstInBand(rules, p, e) ==> GoesTo(nets, tabs, n, e)
  }

  /** The network has rules for the uid, ranked better than those of every other network; or none has any. */
  ghost predicate Wins(nets: Networks, uid: nat, choice: Option<NetId>) {
    match choice
    case None => forall m: NetId :: RuleRank(nets, m, uid).None?
    case Some(n) =>
      && RuleRank(nets, n, uid).Some?
      && forall m: NetId :: m != n && RuleRank(nets, m, uid).Some? ==>
           RuleRank(nets, n, uid).value < RuleRank(nets, m, uid).value
  }

  lemma OneUnreachable(nets: Networks, n: NetId)
    requires NetworksOk(nets) && n in nets && nets[n].kind.UnreachableKind?
    ensures n == UNREACHABLE_NET_ID
  {}

  /** No rule goes to two networks. */
  lemma TablesApart(nets: Networks, tabs: Tables, ifindex: map<string, nat>, n: NetId, m: NetId, e: Entry)
    requires NetworksOk(nets) && LOCAL_NET_ID in nets && CacheOk(nets, tabs) && TablesOk(tabs, ifindex) && n != m
    requires GoesTo(nets, tabs, n, e)
    ensures !GoesTo(nets, tabs, m, e)
  {
    hide NetworksOk, CacheOk, TablesOk;
    if m in nets && nets[n].kind.Physical? && nets[m].kind.Physical? {
      var i :| i in nets[n].ifaces && e.action == ToTable(TableOf(tabs, i));
      forall j | j in nets[m].ifaces
        ensures e.action != ToTable(TableOf(tabs, j))
      {
        DistinctTables(nets, tabs, ifindex, n, i, m, j);
      }
    } else if m in nets && nets[n].kind.UnreachableKind? && nets[m].kind.UnreachableKind? {
      OneUnreachable(nets, n);
      OneUnreachable(nets, m);
    }
  }

  lemma WinnerAgrees(nets: Networks, d: NetId, tabs: Tables, fixed: multiset<Entry>, rules: multiset<Entry>, p: Packet,
                     choice: Option<NetId>)
    requires LOCAL_NET_ID in nets && NetworksOk(nets) && Synced(nets, d, tabs, fixed, rules)
    requires Unmarked(p) && Wins(nets, p.uid, choice)
    ensures Agree(nets, tabs, rules, p, choice)
  {
    hide NetworksOk, Synced, GoesTo, Matches, BandRule, RuleRank;
    forall e | e in rules && InBand(e) && Matches(e, p)
      ensures choice.Some? && RuleRank(nets, choice.value, p.uid).value <= e.priority
      ensures e.priority <= RuleRank(nets, choice.value, p.uid).value ==> GoesTo(nets, tabs, choice.value, e)
    {
      var m, i, sub, r := BandOrigin(nets, d, tabs, fixed, rules, e);
      MatchRanked(nets, tabs, p, e, m, i, sub, r);
    }
    if choice.Some? {
      var best := RankReached(nets, d, tabs, fixed, rules, p, choice.value);
      assert FirstInBand(rules, p, best);
    }
  }

  lemma AgreedWins(nets: Networks, d: NetId, tabs: Tables, ifindex: map<string, nat>, fixed: multiset<Entry>,
                   rules: multiset<Entry>, p: Packet, choice: Option<NetId>)
    requires LOCAL_NET_ID in nets && NetworksOk(nets) && Synced(nets, d, tabs, fixed, rules) && TablesOk(tabs, ifindex)
    requires Unmarked(p) && Agree(nets, tabs, rules, p, choice)
    ensures Wins(nets, p.uid, choice)
  {
    hide NetworksOk, FlagsOk, CacheOk, FixedOk, SameOutsideTethering, Expected, TablesOk;
    hide GoesTo, Matches, InBand, BandRule, RuleRank;
    if choice.Some? {
      var n, e :| choice == Some(n) && FirstInBand(rules, p, e);
      var k, i, sub, r := BandOrigin(nets, d, tabs, fixed, rules, e);
      MatchRanked(nets, tabs, p, e, k, i, sub, r);
      if k != n {
        TablesApart(nets, tabs, ifindex, k, n, e);
      }
      forall m: NetId | m != n && RuleRank(nets, m, p.uid).Some?
        ensures RuleRank(nets, n, p.uid).value < RuleRank(nets, m, p.uid).value
      {
        var rival := RankReached(nets, d, tabs, fixed, rules, p, m);
        if RuleRank(nets, m, p.uid).value <= RuleRank(nets, n, p.uid).value {
          assert FirstInBand(rules, p, rival);
          TablesApart(nets, tabs, ifindex, m, n, rival);
        }
      }
    } else {
      forall m: NetId
        ensures RuleRank(nets, m, p.uid).None?
      {
        if RuleRank(nets, m, p.uid).Some? {
          var e := RankReached(nets, d, tabs, fixed, rules, p, m);
        }
      }
    }
  }

  /**
   * For whatever ranges the networks hold: the first per-uid default rules that match an unmarked packet
   * lead to a network if and only if its rules for the uid are ranked better than all others, and there
   * is none if and only if no network has rules for the uid.
   */
  lemma KernelDefault(nets: Networks, d: NetId, tabs: Tables, ifindex: map<string, nat>, fixed: multiset<Entry>,
                      rules: multiset<Entry>, p: Packet, choice: Option<NetId>)
    requires LOCAL_NET_ID in nets && NetworksOk(nets) && Synced(nets, d, tabs, fixed, rules) && TablesOk(tabs, ifindex)
    requires Unmarked(p)
    ensures Agree(nets, tabs, rules, p, choice) <==> Wins(nets, p.uid, choice)
  {
    hide NetworksOk, Synced, TablesOk, Agree, Wins, Unmarked;
    if Wins(nets, p.uid, choice) {
      WinnerAgrees(nets, d, tabs, fixed, rules, p, choice);
    }
    if Agree(nets, tabs, rules, p, choice) {
      AgreedWins(nets, d, tabs, ifindex, fixed, rules, p, choice);
    }
  }

  // ---- what the controller chooses --------------------------------------------------------------------

  lemma HasIsAdmitted(nets: Networks, n: NetId, sub: nat, uid: nat)
    requires UsersOk(nets) && PlainRanges(nets) && n in nets && HasDefaults(nets[n].kind)
    ensures Has(nets[n].uids, sub, uid) <==> Admitted(nets[n].uids, sub, uid)
  {
    hide PlainList;
    if sub in nets[n].uids {
      SearchIsSelector(nets[n].uids[sub], uid);
    }
  }

  /** On plain ranges the controller ranks networks by the subpriorities that the rules have. */
  lemma SameSub(nets: Networks, n: NetId, uid: nat)
    requires UsersOk(nets) && PlainRanges(nets) && n in nets && HasDefaults(nets[n].kind)
    ensures DefaultSub(nets, n, uid) == FirstAdmitted(nets[n].uids, uid, 0)
  {
    hide PlainRanges, HasUid, Admitted;
    forall sub: nat
      ensures Has(nets[n].uids, sub, uid) <==> Admitted(nets[n].uids, sub, uid)
    {
      HasIsAdmitted(nets, n, sub, uid);
    }
  }

  lemma SameRank(nets: Networks, n: NetId, uid: nat)
    requires UsersOk(nets) && PlainRanges(nets)
    ensures RuleRank(nets, n, uid) == if Backed(nets, n) && DefaultSub(nets, n, uid).Some?
      then Some(Base(nets[n].kind) + DefaultSub(nets, n, uid).value) else None
  {
    hide UsersOk, PlainRanges, DefaultSub, FirstAdmitted;
    if Backed(nets, n) {
      SameSub(nets, n, uid);
    }
  }

  /**
   * When a choice is the kernel's too: it has rules, no other physical network with interfaces ties
   * with it, and if it is the unreachable network no physical network with interfaces competes.
   */
  ghost predicate Undisputed(nets: Networks, uid: nat, choice: Option<NetId>)
    requires UsersOk(nets)
  {
    choice.Some? ==>
      var n := choice.value;
      && Backed(nets, n)
      && forall m: NetId ::
           m != n && m in nets && nets[m].kind.Physical? && Backed(nets, m) && DefaultSub(nets, m, uid).Some? ==>
             nets[n].kind.Physical? && DefaultSub(nets, m, uid) != DefaultSub(nets, n, uid)
  }

  /** The controller's choice is ranked better than another network exactly if that one does not dispute it. */
  lemma OutranksExactly(nets: Networks, uid: nat, n: NetId, m: NetId)
    requires NetworksOk(nets) && UsersOk(nets) && DefaultFor(nets, uid) == Some(n) && Backed(nets, n)
    requires m != n && Backed(nets, m) && DefaultSub(nets, m, uid).Some?
    ensures DefaultSub(nets, n, uid).Some?
    ensures Base(nets[n].kind) + DefaultSub(nets, n, uid).value < Base(nets[m].kind) + DefaultSub(nets, m, uid).value
      <==> (nets[m].kind.Physical? ==> nets[n].kind.Physical? && DefaultSub(nets, m, uid) != DefaultSub(nets, n, uid))
  {
    hide NetworksOk;
    if nets[m].kind.UnreachableKind? && nets[n].kind.UnreachableKind? {
      OneUnreachable(nets, m);
      OneUnreachable(nets, n);
    }
    BestBelowIsBest(nets, uid, NET_ID_LIMIT);
  }

  lemma UndisputedWins(nets: Networks, uid: nat)
    requires NetworksOk(nets) && UsersOk(nets) && PlainRanges(nets)
    ensures Wins(nets, uid, DefaultFor(nets, uid)) <==> Undisputed(nets, uid, DefaultFor(nets, uid))
  {
    hide NetworksOk, UsersOk, PlainRanges, DefaultSub, RuleRank, FirstAdmitted;
    var choice := DefaultFor(nets, uid);
    BestBelowIsBest(nets, uid, NET_ID_LIMIT);
    hide DefaultFor;
    forall m: NetId
      ensures RuleRank(nets, m, uid) == if Backed(nets, m) && DefaultSub(nets, m, uid).Some?
        then Some(Base(nets[m].kind) + DefaultSub(nets, m, uid).value) else None
    {
      SameRank(nets, m, uid);
    }
    if choice.Some? && Backed(nets, choice.value) {
      var n := choice.value;
      forall m: NetId | m != n && RuleRank(nets, m, uid).Some?
        ensures RuleRank(nets, n, uid).Some?
        ensures RuleRank(nets, n, uid).value < RuleRank(nets, m, uid).value
          <==> (nets[m].kind.Physical? ==>
                nets[n].kind.Physical? && DefaultSub(nets, m, uid) != DefaultSub(nets, n, uid))
      {
        OutranksExactly(nets, uid, n, m);
      }
    }
  }

  /**
   * Where the search can handle the ranges, the controller's choice for a uid is the kernel's exactly
   * when it is undisputed; in particular, if the controller chooses no network, no rule matches.
   */
  lemma PerAppDefaultAgrees(nets: Networks, d: NetId, tabs: Tables, ifindex: map<string, nat>, fixed: multiset<Entry>,
                            rules: multiset<Entry>, p: Packet)
    requires LOCAL_NET_ID in nets && NetworksOk(nets) && UsersOk(nets) && PlainRanges(nets)
    requires Synced(nets, d, tabs, fixed, rules) && TablesOk(tabs, ifindex) && Unmarked(p)
    ensures Agree(nets, tabs, rules, p, DefaultFor(nets, p.uid)) <==> Undisputed(nets, p.uid, DefaultFor(nets, p.uid))
  {
    hide NetworksOk, UsersOk, PlainRanges, Synced, TablesOk, Agree, Wins, Undisputed, DefaultFor, Unmarked;
    KernelDefault(nets, d, tabs, ifindex, fixed, rules, p, DefaultFor(nets, p.uid));
    UndisputedWins(nets, p.uid);
  }

  /** A physical default beats the unreachable network in the kernel, whatever their subpriorities. */
  lemma UnreachableDisagrees(nets: Networks, d: NetId, tabs: Tables, ifindex: map<string, nat>, fixed: multiset<Entry>,
                             rules: multiset<Entry>, p: Packet, n: NetId, m: NetId)
    requires LOCAL_NET_ID in nets && NetworksOk(nets) && Synced(nets, d, tabs, fixed, rules) && TablesOk(tabs, ifindex)
    requires Unmarked(p) && n in nets && nets[n].kind.UnreachableKind?
    requires m in nets && nets[m].kind.Physical? && RuleRank(nets, m, p.uid).Some?
    ensures !Agree(nets, tabs, rules, p, Some(n))
  {
    hide NetworksOk, Synced, TablesOk, Agree, Unmarked, FirstAdmitted;
    KernelDefault(nets, d, tabs, ifindex, fixed, rules, p, Some(n));
  }

  // ---- ranges the search cannot handle ------------------------------------------------------------------

  const WIDE := UidRange(0, 100)
  const NARROW := UidRange(10, 20)

  /** Adding one range after the other, each fit to be added, gives a list whose search misses uid 50. */
  lemma NestedRanges()
    ensures !OverlapsItself([WIDE]) && !OverlapsItself([NARROW])
    ensures Merge([WIDE], [NARROW]) == [WIDE, NARROW] && Sorted([WIDE, NARROW])
    ensures Member([WIDE, NARROW], 50) && !HasUid([WIDE, NARROW], 50)
  {
    var s := [WIDE, NARROW];
    assert Merge([WIDE][1..], [NARROW]) == [NARROW];
    assert s[0].Contains(50);
    LowerBoundUnique(s, 50, 2);
  }

  /**
   * With such ranges the controller chooses no network for uid 50, while the kernel sends it to the
   * network that holds them.
   */
  lemma NestedDisagrees(nets: Networks, d: NetId, tabs: Tables, ifindex: map<string, nat>, fixed: multiset<Entry>,
                        rules: multiset<Entry>, p: Packet, n: NetId)
    requires LOCAL_NET_ID in nets && NetworksOk(nets) && UsersOk(nets) && Synced(nets, d, tabs, fixed, rules)
    requires TablesOk(tabs, ifindex) && Unmarked(p) && p.uid == 50
    requires n in nets && nets[n].kind.Physical? && nets[n].ifaces != {} && nets[n].uids == map[0 := [WIDE, NARROW]]
    requires forall m :: m in nets && m != n ==> nets[m].uids == map[]
    ensures DefaultFor(nets, p.uid) == None && Undisputed(nets, p.uid, None) && !Agree(nets, tabs, rules, p, None)
    ensures Agree(nets, tabs, rules, p, Some(n))
  {
    hide NetworksOk, Synced, TablesOk, Agree, Unmarked, HasUid, Sorted;
    NestedRanges();
    assert forall m: NetId :: DefaultSub(nets, m, p.uid).None?;
    BestBelowIsBest(nets, p.uid, NET_ID_LIMIT);
    assert WIDE in nets[n].uids[0] && StrictUids(WIDE).Admits(50);
    assert Admitted(nets[n].uids, 0, 50);
    assert Wins(nets, p.uid, Some(n));
    KernelDefault(nets, d, tabs, ifindex, fixed, rules, p, None);
    KernelDefault(nets, d, tabs, ifindex, fixed, rules, p, Some(n));
  }
}
