/**
 * The request side of routing: the interface-to-table cache and the loops that send rule requests
 * to a kernel that may refuse any of them.
 */
module RouteControllers {
  import opened Fwmarks
  import opened IpRules
  import opened UidRangeLists
  import opened Sums
  import opened RuleSet

  const ESRCH := -3

  // ---- what a batch of requests does to the kernel ----------------------------------------------

  function Applied(rules: multiset<Entry>, m: multiset<Entry>, add: bool): multiset<Entry> {
    if add then rules + m else rules - m
  }

  /** Every kernel state from `start` on lies between two bounds. */
  ghost predicate Within(trace: seq<multiset<Entry>>, start: nat, lo: multiset<Entry>, hi: multiset<Entry>) {
    forall k :: start <= k < |trace| ==> lo <= trace[k] <= hi
  }

  function Low(r0: multiset<Entry>, m: multiset<Entry>, add: bool): multiset<Entry> {
    if add then r0 else r0 - m
  }

  function High(r0: multiset<Entry>, m: multiset<Entry>, add: bool): multiset<Entry> {
    if add then r0 + m else r0
  }

  /**
   * A batch that asks for `m`: adding never takes anything away, deleting never adds and takes away
   * at most `m`, and this holds of every intermediate kernel state. If the batch succeeds the kernel
   * gained, or had and lost, exactly `m`.
   */
  ghost predicate Effect(r0: multiset<Entry>, start: nat, r1: multiset<Entry>, trace: seq<multiset<Entry>>,
                         m: multiset<Entry>, add: bool, ret: int) {
    && Within(trace, start, Low(r0, m, add), High(r0, m, add))
    && Low(r0, m, add) <= r1 <= High(r0, m, add)
    && (ret == 0 ==> r1 == Applied(r0, m, add) && (!add ==> m <= r0))
  }

  /** A batch that the kernel has no reason of its own to refuse. */
  ghost predicate CanApply(r0: multiset<Entry>, m: multiset<Entry>, add: bool) {
    (forall e :: e in m ==> Sendable(e)) && (!add ==> m <= r0)
  }

  /** A batch only fails if it could not be applied, or the kernel refused. */
  ghost predicate Able(r0: multiset<Entry>, m: multiset<Entry>, add: bool, ret: int, refused: bool) {
    ret != 0 && CanApply(r0, m, add) ==> refused
  }

  /** What can be applied as a whole can be applied part by part. */
  lemma AbleThen(r0: multiset<Entry>, start: nat, r1: multiset<Entry>, tr1: seq<multiset<Entry>>, m1: multiset<Entry>,
                 m2: multiset<Entry>, m3: multiset<Entry>, add: bool, ret: int, refused: bool)
    requires Effect(r0, start, r1, tr1, m1, add, 0) && Able(r1, m2, add, ret, refused)
    ensures Able(r0, m1 + m2 + m3, add, ret, refused)
  {
    if CanApply(r0, m1 + m2 + m3, add) {
      forall e | e in m2
        ensures Sendable(e)
      {
        assert e in m1 + m2 + m3;
      }
      if !add {
        assert m2 <= r1;
      }
    }
  }

  lemma CanStill(r0: multiset<Entry>, start: nat, r1: multiset<Entry>, tr1: seq<multiset<Entry>>,
                 gained: multiset<Entry>,
                 lost: multiset<Entry>)
    requires Effect(r0, start, r1, tr1, gained, true, 0)
    ensures CanApply(r0, lost, false) ==> CanApply(r1, lost, false)
  {}

  lemma AbleWhole(r0: multiset<Entry>, m: multiset<Entry>, extra: multiset<Entry>, add: bool, ret: int, refused: bool)
    requires Able(r0, m, add, ret, refused)
    ensures Able(r0, m + extra, add, ret, refused)
  {
    if CanApply(r0, m + extra, add) {
      forall e | e in m
        ensures Sendable(e)
      {
        assert e in m + extra;
      }
    }
  }

  lemma BoundsThen(r0: multiset<Entry>, m1: multiset<Entry>, r1: multiset<Entry>, m2: multiset<Entry>, add: bool,
                   x: multiset<Entry>)
    requires r1 == Applied(r0, m1, add) && (!add ==> m1 <= r0)
    requires Low(r1, m2, add) <= x <= High(r1, m2, add)
    ensures Low(r0, m1 + m2, add) <= x <= High(r0, m1 + m2, add)
  {}

  lemma BoundsWiden(r0: multiset<Entry>, m: multiset<Entry>, extra: multiset<Entry>, add: bool, x: multiset<Entry>)
    requires Low(r0, m, add) <= x <= High(r0, m, add)
    ensures Low(r0, m + extra, add) <= x <= High(r0, m + extra, add)
  {}

  lemma AppliedThen(r0: multiset<Entry>, m1: multiset<Entry>, m2: multiset<Entry>, add: bool)
    requires !add ==> m1 <= r0 && m2 <= r0 - m1
    ensures Applied(Applied(r0, m1, add), m2, add) == Applied(r0, m1 + m2, add)
    ensures !add ==> m1 + m2 <= r0
  {}

  /** Two successful-so-far batches make one. */
  lemma EffectThen(r0: multiset<Entry>, start: nat, r1: multiset<Entry>, tr1: seq<multiset<Entry>>, m1: multiset<Entry>,
                   r2: multiset<Entry>, tr2: seq<multiset<Entry>>, m2: multiset<Entry>, add: bool, ret: int)
    requires start <= |tr1| && tr1 <= tr2
    requires Effect(r0, start, r1, tr1, m1, add, 0)
    requires Effect(r1, |tr1|, r2, tr2, m2, add, ret)
    ensures Effect(r0, start, r2, tr2, m1 + m2, add, ret)
  {
    forall k | start <= k < |tr2|
      ensures Low(r0, m1 + m2, add) <= tr2[k] <= High(r0, m1 + m2, add)
    {
      if k < |tr1| {
        assert tr2[k] == tr1[k];
        BoundsWiden(r0, m1, m2, add, tr2[k]);
      } else {
        BoundsThen(r0, m1, r1, m2, add, tr2[k]);
      }
    }
    BoundsThen(r0, m1, r1, m2, add, r2);
    if ret == 0 {
      AppliedThen(r0, m1, m2, add);
    }
  }

  /** A batch that failed also fits any larger claim. */
  lemma EffectWiden(r0: multiset<Entry>, start: nat, r1: multiset<Entry>, tr: seq<multiset<Entry>>,
                    m: multiset<Entry>, extra: multiset<Entry>, add: bool, ret: int)
    requires Effect(r0, start, r1, tr, m, add, ret) && ret != 0
    ensures Effect(r0, start, r1, tr, m + extra, add, ret)
  {
    forall k | start <= k < |tr|
      ensures Low(r0, m + extra, add) <= tr[k] <= High(r0, m + extra, add)
    {
      BoundsWiden(r0, m, extra, add, tr[k]);
    }
    BoundsWiden(r0, m, extra, add, r1);
  }

  lemma EffectOne(r0: multiset<Entry>, tr0: seq<multiset<Entry>>, r1: multiset<Entry>, tr1: seq<multiset<Entry>>,
                  e: Entry, add: bool, ret: int)
    requires tr1 == tr0 + [r1] && (r1 == r0 || r1 == Applied(r0, multiset{e}, add))
    requires ret == 0 ==> r1 == Applied(r0, multiset{e}, add) && (add || e in r0)
    ensures Effect(r0, |tr0|, r1, tr1, multiset{e}, add, ret)
  {
    var one := multiset{e};
    assert Low(r0, one, add) <= r0 <= High(r0, one, add);
    assert Low(r0, one, add) <= r1 <= High(r0, one, add);
  }

  lemma EffectFailed(r0: multiset<Entry>, start: nat, r1: multiset<Entry>, tr: seq<multiset<Entry>>,
                     m: multiset<Entry>, add: bool, ret: int)
    requires Effect(r0, start, r1, tr, m, add, 0) && ret != 0
    ensures Effect(r0, start, r1, tr, m, add, ret)
  {}

  lemma EffectNone(r0: multiset<Entry>, tr0: seq<multiset<Entry>>, add: bool)
    ensures Effect(r0, |tr0|, r0, tr0, multiset{}, add, 0)
  {}

  /** One round of the request loop. */
  lemma IssueStep(es: seq<Entry>, k: nat, r0: multiset<Entry>, start: nat, r1: multiset<Entry>,
                  tr1: seq<multiset<Entry>>,
                  r2: multiset<Entry>, tr2: seq<multiset<Entry>>, add: bool, ret: int)
    requires k < |es| && start <= |tr1|
    requires Effect(r0, start, r1, tr1, multiset(es[..k]), add, 0)
    requires tr2 == tr1 + [r2] && (r2 == r1 || r2 == Applied(r1, multiset{es[k]}, add))
    requires ret == 0 ==> r2 == Applied(r1, multiset{es[k]}, add) && (add || es[k] in r1)
    ensures Effect(r0, start, r2, tr2, multiset(es[..k + 1]), add, ret)
    ensures ret != 0 ==> Effect(r0, start, r2, tr2, multiset(es), add, ret)
  {
    hide Effect;
    EffectOne(r1, tr1, r2, tr2, es[k], add, ret);
    EffectThen(r0, start, r1, tr1, multiset(es[..k]), r2, tr2, multiset{es[k]}, add, ret);
    assert es[..k + 1] == es[..k] + [es[k]];
    if ret != 0 {
      EffectWiden(r0, start, r2, tr2, multiset(es[..k + 1]), multiset(es[k + 1..]), add, ret);
      assert es == es[..k + 1] + es[k + 1..];
    }
  }

  lemma NeverFailed(r0: multiset<Entry>, m: multiset<Entry>, add: bool, refused: bool)
    ensures Able(r0, m, add, 0, refused)
  {}

  lemma AbleOne(es: seq<Entry>, k: nat, r0: multiset<Entry>, start: nat, r1: multiset<Entry>, tr1: seq<multiset<Entry>>,
                add: bool,
                ret: int, refused: bool)
    requires k < |es| && Effect(r0, start, r1, tr1, multiset(es[..k]), add, 0)
    requires ret != 0 && Sendable(es[k]) && (add || es[k] in r1) ==> refused
    ensures Able(r0, multiset(es), add, ret, refused)
  {
    hide Effect;
    assert Able(r1, multiset{es[k]}, add, ret, refused);
    AbleThen(r0, start, r1, tr1, multiset(es[..k]), multiset{es[k]}, multiset(es[k + 1..]), add, ret, refused);
    assert es == es[..k] + [es[k]] + es[k + 1..];
  }

  /** One round of the loop over the ranges of a subpriority. */
  lemma RangesStep(ranges: seq<UidRange>, k: nat, sub: nat, f: UidBuilder, r0: multiset<Entry>, start: nat,
                   r1: multiset<Entry>, tr1: seq<multiset<Entry>>, r2: multiset<Entry>, tr2: seq<multiset<Entry>>,
                   add: bool, ret: int)
    requires k < |ranges| && start <= |tr1| && tr1 <= tr2
    requires Effect(r0, start, r1, tr1, RangeSum(ranges[..k], sub, f), add, 0)
    requires Effect(r1, |tr1|, r2, tr2, multiset(f(sub, ranges[k])), add, ret)
    ensures Effect(r0, start, r2, tr2, RangeSum(ranges[..k + 1], sub, f), add, ret)
    ensures ret != 0 ==> Effect(r0, start, r2, tr2, RangeSum(ranges, sub, f), add, ret)
  {
    hide Effect;
    var part := multiset(f(sub, ranges[k]));
    EffectThen(r0, start, r1, tr1, RangeSum(ranges[..k], sub, f), r2, tr2, part, add, ret);
    assert ranges[..k + 1] == ranges[..k] + [ranges[k]];
    SumSeqMerge(ranges[..k + 1], RangeFn(sub, f), ranges[..k], [ranges[k]]);
    assert SumSeq([ranges[k]], RangeFn(sub, f)) == part;
    if ret != 0 {
      assert ranges == ranges[..k + 1] + ranges[k + 1..];
      SumSeqMerge(ranges, RangeFn(sub, f), ranges[..k + 1], ranges[k + 1..]);
      EffectWiden(r0, start, r2, tr2, RangeSum(ranges[..k + 1], sub, f), RangeSum(ranges[k + 1..], sub, f), add, ret);
    }
  }

  lemma AbleRange(ranges: seq<UidRange>, k: nat, sub: nat, f: UidBuilder, r0: multiset<Entry>, start: nat,
                  r1: multiset<Entry>, tr1: seq<multiset<Entry>>, add: bool, ret: int, refused: bool)
    requires k < |ranges| && Effect(r0, start, r1, tr1, RangeSum(ranges[..k], sub, f), add, 0)
    requires Able(r1, multiset(f(sub, ranges[k])), add, ret, refused)
    ensures Able(r0, RangeSum(ranges, sub, f), add, ret, refused)
  {
    hide Effect, Able, SumSeq;
    var part, fn := multiset(f(sub, ranges[k])), RangeFn(sub, f);
    SumSeqTakeOut(ranges, fn, k);
    SumSeqMerge(ranges[..k] + ranges[k + 1..], fn, ranges[..k], ranges[k + 1..]);
    AbleThen(r0, start, r1, tr1, RangeSum(ranges[..k], sub, f), part, SumSeq(ranges[k + 1..], fn), add, ret, refused);
    assert RangeSum(ranges, sub, f) == SumSeq(ranges[..k], fn) + part + SumSeq(ranges[k + 1..], fn);
  }

  // ---- interface indices and tables -------------------------------------------------------------

  /**
   * Cached tables of distinct interfaces differ, and the kernel gives no interface an index whose
   * table is cached for another one.
   */
  ghost predicate TablesOk(tabs: Tables, ifindex: map<string, nat>) {
    && (forall i :: i in tabs ==> tabs[i] == TABLE_LOCAL_NETWORK || TABLE_OFFSET < tabs[i] < TABLE_OFFSET_FOR_LOCAL)
    && (forall i, j :: i in tabs && j in tabs && i != j && tabs[i] == tabs[j] ==> tabs[i] == TABLE_LOCAL_NETWORK)
    && (forall i :: i in ifindex ==> 0 < ifindex[i] < TABLE_OFFSET_FOR_LOCAL - TABLE_OFFSET)
    && (forall i, j :: i in ifindex && j in ifindex && ifindex[i] == ifindex[j] ==> i == j)
    && (forall i, j :: i in ifindex && j in tabs && i != j ==> tabs[j] != ifindex[i] + TABLE_OFFSET)
  }

  lemma ForgetTable(tabs: Tables, ifindex: map<string, nat>, iface: string)
    requires TablesOk(tabs, ifindex)
    ensures TablesOk(tabs - {iface}, ifindex)
  {}

  lemma LearnTable(tabs: Tables, ifindex: map<string, nat>, iface: string, table: nat)
    requires TablesOk(tabs, ifindex)
    requires table == TABLE_LOCAL_NETWORK || (iface in ifindex && table == ifindex[iface] + TABLE_OFFSET)
    ensures TablesOk(tabs[iface := table], ifindex)
  {}

  lemma IndexGone(tabs: Tables, ifindex: map<string, nat>, iface: string)
    requires TablesOk(tabs, ifindex)
    ensures TablesOk(tabs, ifindex - {iface})
  {}

  lemma IndexGiven(tabs: Tables, ifindex: map<string, nat>, iface: string, index: nat)
    requires TablesOk(tabs, ifindex) && iface !in ifindex
    requires 0 < index < TABLE_OFFSET_FOR_LOCAL - TABLE_OFFSET && index !in ifindex.Values
    requires forall j :: j in tabs && j != iface ==> tabs[j] != index + TABLE_OFFSET
    ensures TablesOk(tabs, ifindex[iface := index])
  {}

  /** The cache either keeps still or learns one interface it did not know. */
  ghost predicate CacheStep(before: Tables, after: Tables, iface: string) {
    || after == before
    || (iface !in before && iface in after && after == before[iface := after[iface]] && TABLE_OFFSET < after[iface])
  }

  predicate IsTethering(e: Entry) {
    e.IpRule? && e.priority == TETHERING
  }

  ghost predicate SameOutsideTethering(a: multiset<Entry>, b: multiset<Entry>) {
    forall e: Entry :: !IsTethering(e) ==> a[e] == b[e]
  }

  lemma TetheringDropped(r0: multiset<Entry>, r1: multiset<Entry>, e: Entry)
    requires SameOutsideTethering(r0, r1) && AllSendable(r1) && e in r1 && IsTethering(e)
    ensures SameOutsideTethering(r0, r1 - multiset{e}) && AllSendable(r1 - multiset{e})
    ensures |r1 - multiset{e}| < |r1|
  {}

  /** The entries one call of `ModifyPhysicalNetwork` asks for. */
  ghost function PhysicalBatch(netId: NetId, iface: string, table: nat, uids: UidRangeMap, permission: Permission,
                               nonUid: bool, local: bool): multiset<Entry> {
    UidSum(uids, PhysicalUids(netId, table))
    + if nonUid then multiset(PhysicalRequests(netId, iface, table, permission, local)) else multiset{}
  }

  /** The entries one call of `ModifyVirtualNetwork` asks for. */
  ghost function VirtualBatch(netId: NetId, iface: string, table: nat, uids: UidRangeMap, secure: bool,
                              nonUid: bool, excludeLocal: bool): multiset<Entry> {
    UidSum(uids, VirtualUids(netId, iface, table, secure, excludeLocal))
    + if nonUid then multiset(VirtualRequests(netId, iface, table, secure, excludeLocal)) else multiset{}
  }

  lemma EmptyBatch(netId: NetId, iface: string, table: nat, permission: Permission, local: bool)
    ensures PhysicalBatch(netId, iface, table, map[], permission, true, local)
         == multiset(PhysicalRequests(netId, iface, table, permission, local))
  {}

  /** A state on the way of a make-before-break change: nothing lost yet, or everything gained already. */
  ghost predicate Between(r0: multiset<Entry>, gained: multiset<Entry>, lost: multiset<Entry>, t: multiset<Entry>) {
    (r0 <= t || r0 + gained - lost <= t) && t <= r0 + gained
  }

  lemma MakeOnly(r0: multiset<Entry>, start: nat, r1: multiset<Entry>, tr: seq<multiset<Entry>>,
                 gained: multiset<Entry>, lost: multiset<Entry>, ret: int)
    requires Effect(r0, start, r1, tr, gained, true, ret)
    ensures forall k :: start <= k < |tr| ==> Between(r0, gained, lost, tr[k])
    ensures Between(r0, gained, lost, r1)
  {}

  /** Adding first and deleting afterwards keeps every state on the way between the two ends. */
  lemma MakeBeforeBreak(r0: multiset<Entry>, start: nat, r1: multiset<Entry>, tr1: seq<multiset<Entry>>,
                        r2: multiset<Entry>, tr2: seq<multiset<Entry>>, gained: multiset<Entry>, lost: multiset<Entry>,
                          ret: int)
    requires start <= |tr1| && tr1 <= tr2
    requires Effect(r0, start, r1, tr1, gained, true, 0)
    requires Effect(r1, |tr1|, r2, tr2, lost, false, ret)
    ensures forall k :: start <= k < |tr2| ==> Between(r0, gained, lost, tr2[k])
    ensures Between(r0, gained, lost, r2)
    ensures ret == 0 ==> lost <= r0 + gained && r2 == r0 + gained - lost
  {
    forall k | start <= k < |tr2|
      ensures Between(r0, gained, lost, tr2[k])
    {
      if k < |tr1| {
        assert tr2[k] == tr1[k];
      }
    }
  }

  function RejectRequests(sub: nat, r: UidRange): seq<Entry> {
    [RejectNonSecure(LooseUids(r))]
  }

  ghost predicate AllSendable(rules: multiset<Entry>) {
    forall e :: e in rules ==> Sendable(e)
  }

  /** What initialisation leaves in the kernel. */
  ghost predicate InitialFixed(tabs: Tables, fixed: multiset<Entry>) {
    forall e :: e in fixed ==>
      || e in INITIAL_REQUESTS
      || (&& DUMMY_INTERFACE in tabs && 0 < tabs[DUMMY_INTERFACE] < TABLE_OFFSET_FOR_LOCAL
          && e in DummyRequests(tabs[DUMMY_INTERFACE]))
  }

  /**
   * The entries not derived from networks: the initial rules, the first `count` rules of the dummy
   * interface, whose table was `table`, and the reject rules.
   */
  ghost function FixedRules(table: nat, count: nat, rejects: multiset<Entry>): multiset<Entry>
    requires count <= 2
  {
    multiset(INITIAL_REQUESTS) + multiset(DummyRequests(table)[..count]) + rejects
  }

  lemma StartRules(table: nat, count: nat)
    requires count <= 2
    ensures |DummyRequests(table)| == 2
    ensures FixedRules(table, count, multiset{}) == multiset(INITIAL_REQUESTS) + multiset(DummyRequests(table)[..count])
  {
    hide INITIAL_REQUESTS;
  }

  /** Nothing but reject rules. */
  ghost predicate OnlyRejects(rejects: multiset<Entry>) {
    forall e :: e in rejects ==> e.IpRule? && e == RejectNonSecure(e.uids)
  }

  lemma RejectsApart(table: nat, count: nat, e: Entry)
    requires count <= 2 && e.IpRule? && e == RejectNonSecure(e.uids)
    ensures FixedRules(table, count, multiset{})[e] == 0
  {}

  /** Adding or deleting reject rules among the fixed ones changes only the reject rules. */
  lemma FixedApplied(table: nat, count: nat, rejects: multiset<Entry>, m: multiset<Entry>, add: bool)
    requires count <= 2 && OnlyRejects(m)
    ensures OnlyRejects(rejects) ==> OnlyRejects(Applied(rejects, m, add))
    ensures Applied(FixedRules(table, count, rejects), m, add) == FixedRules(table, count, Applied(rejects, m, add))
  {
    var rest := FixedRules(table, count, multiset{});
    assert FixedRules(table, count, rejects) == rest + rejects;
    assert FixedRules(table, count, Applied(rejects, m, add)) == rest + Applied(rejects, m, add);
    hide FixedRules;
    if !add {
      forall e
        ensures (rest + rejects - m)[e] == (rest + (rejects - m))[e]
      {
        if e in m {
          RejectsApart(table, count, e);
        }
      }
    }
  }

  lemma InitialSendable()
    ensures AllSendable(multiset(INITIAL_REQUESTS))
  {
    forall e | e in INITIAL_REQUESTS
      ensures Sendable(e)
    {}
  }

  lemma DummySendable(tabs: Tables, table: nat, k: nat)
    requires table == TableOf(tabs, DUMMY_INTERFACE) < TABLE_OFFSET_FOR_LOCAL && (table == 0 ==> k == 0) && k <= 2
    ensures |DummyRequests(table)| == 2
    ensures var all := multiset(INITIAL_REQUESTS) + multiset(DummyRequests(table)[..k]);
      AllSendable(all) && InitialFixed(tabs, all)
  {
    InitialSendable();
    hide INITIAL_REQUESTS;
    forall e | e in DummyRequests(table)
      ensures Sendable(e)
    {}
    var all := multiset(INITIAL_REQUESTS) + multiset(DummyRequests(table)[..k]);
    forall e | e in all
      ensures Sendable(e)
      ensures e in INITIAL_REQUESTS || (k > 0 && e in DummyRequests(table))
    {
      if e !in INITIAL_REQUESTS {
        assert e in DummyRequests(table)[..k];
      }
    }
  }

  lemma TableBound(tabs: Tables, ifindex: map<string, nat>, iface: string)
    requires TablesOk(tabs, ifindex)
    ensures TableOf(tabs, iface) < TABLE_OFFSET_FOR_LOCAL
  {}

  class RouteController {
    var tables: Tables
    var ifindex: map<string, nat>
    var rules: multiset<Entry>
    /** Every kernel state seen so far, one per request. */
    ghost var trace: seq<multiset<Entry>>
    /** Set when an operation gave up after it had started to send requests. */
    ghost var aborted: bool
    /** Set when the kernel itself refused something that was in order. */
    ghost var refused: bool
    /** Entries not derived from any network: installed at start, or by the reject ranges. */
    ghost var fixed: multiset<Entry>
    /** The table of the dummy interface at start, how many of its rules were installed, and the reject rules. */
    ghost var dummyTable: nat
    ghost var dummyRules: nat
    ghost var rejects: multiset<Entry>

    ghost predicate Valid()
      reads this
    {
      TablesOk(tables, ifindex) && AllSendable(rules)
    }

    /** What the fixed entries are made of. */
    ghost predicate Pinned()
      reads `fixed, `dummyTable, `dummyRules, `rejects
    {
      && dummyRules <= 2 && dummyTable < TABLE_OFFSET_FOR_LOCAL
      && fixed == FixedRules(dummyTable, dummyRules, rejects) && OnlyRejects(rejects)
    }

    /**
     * Initialisation, given the kernel's interface indices. The rules of the dummy interface may be
     * missing, wholly or in part, because failing to set it up is not an error.
     */
    constructor (names: map<string, nat>)
      requires TablesOk(map[], names)
      ensures Valid() && ifindex == names && rules == fixed && !aborted && !refused
      ensures CacheStep(map[], tables, DUMMY_INTERFACE)
      ensures InitialFixed(tables, fixed) && Pinned() && rejects == multiset{}
    {
      tables, ifindex, trace, aborted, refused, rejects := map[], names, [], false, false, multiset{};
      rules, fixed := multiset(INITIAL_REQUESTS), multiset(INITIAL_REQUESTS);
      new;
      hide TablesOk, DummyRequests, AllSendable, InitialFixed, Sendable, INITIAL_REQUESTS, FixedRules, TableOf;
      InitialSendable();
      var table := TableFor(DUMMY_INTERFACE);
      var installed: int := *;
      if table == 0 || installed < 0 || installed > 2 {
        installed := 0;
      }
      TableBound(tables, ifindex, DUMMY_INTERFACE);
      DummySendable(tables, table, installed);
      StartRules(table, installed);
      rules := rules + multiset(DummyRequests(table)[..installed]);
      fixed, dummyTable, dummyRules := rules, table, installed;
    }

    /** One request to the kernel, for one address family; it may fail, before or after taking effect. */
    method Request(e: Entry, add: bool) returns (ret: int)
      requires Valid()
      modifies this`rules, this`trace, this`refused
      ensures Valid() && (old(refused) ==> refused)
      ensures ret != 0 && Sendable(e) && (add || e in old(rules)) ==> refused
      ensures trace == old(trace) + [rules]
      ensures rules == old(rules) || rules == Applied(old(rules), multiset{e}, add)
      ensures ret == 0 ==> Sendable(e) && (add || e in old(rules)) && rules == Applied(old(rules), multiset{e}, add)
    {
      var outcome: int := *;
      var tookEffect: bool := *;
      if Sendable(e) && (add || e in rules) {
        if outcome == 0 || tookEffect {
          rules := Applied(rules, multiset{e}, add);
        }
        ret, refused := outcome, refused || outcome != 0;
      } else {
        ret := if outcome == 0 then ESRCH else outcome;
      }
      trace := trace + [rules];
    }

    /** Sends requests in order and stops at the first failure. */
    method Issue(es: seq<Entry>, add: bool) returns (ret: int)
      requires Valid()
      modifies this`rules, this`trace, this`aborted, this`refused
      ensures Valid() && old(trace) <= trace
      ensures Effect(old(rules), |old(trace)|, rules, trace, multiset(es), add, ret)
      ensures (aborted <==> old(aborted) || ret != 0) && (old(refused) ==> refused)
      ensures Able(old(rules), multiset(es), add, ret, refused)
    {
      hide Effect, TablesOk, AllSendable, Able;
      ret := 0;
      NeverFailed(rules, multiset(es), add, refused);
      assert Effect(rules, |trace|, rules, trace, multiset(es[..0]), add, 0) by { EffectNone(rules, trace, add); }
      for k := 0 to |es|
        invariant Valid() && old(trace) <= trace && ret == 0 && aborted == old(aborted) && (old(refused) ==> refused)
        invariant Effect(old(rules), |old(trace)|, rules, trace, multiset(es[..k]), add, 0)
      {
        ghost var r1, tr1 := rules, trace;
        ret := Request(es[k], add);
        AbleOne(es, k, old(rules), |old(trace)|, r1, tr1, add, ret, refused);
        IssueStep(es, k, old(rules), |old(trace)|, r1, tr1, rules, trace, add, ret);
        if ret != 0 {
          aborted := true;
          return;
        }
      }
      assert es[..|es|] == es;
      NeverFailed(old(rules), multiset(es), add, refused);
    }

    // ---- the interface-to-table cache ---------------------------------------------------------

    /** The table of an interface, remembered from the first time it was asked for; 0 if unknown. */
    method TableFor(iface: string) returns (table: nat)
      requires Valid()
      modifies this`tables
      ensures Valid() && CacheStep(old(tables), tables, iface)
      ensures table == TableOf(tables, iface)
      ensures iface in tables <==> table != 0
      ensures iface in tables <==> iface in old(tables) || iface in ifindex
    {
      if iface in tables {
        return tables[iface];
      }
      if iface !in ifindex {
        return 0;
      }
      LearnTable(tables, ifindex, iface, ifindex[iface] + TABLE_OFFSET);
      tables := tables[iface := ifindex[iface] + TABLE_OFFSET];
      table := tables[iface];
    }

    /** The kernel creates, renumbers or removes an interface, never reusing an index that is cached. */
    method InterfaceChanges(iface: string, index: Option<nat>)
      requires Valid()
      modifies this`ifindex
      ensures Valid() && ifindex - {iface} == old(ifindex) - {iface}
      ensures index.None? ==> iface !in ifindex
      ensures index.Some? && iface in ifindex ==> ifindex[iface] == index.value || ifindex == old(ifindex)
    {
      hide TablesOk, AllSendable;
      var rest := ifindex - {iface};
      IndexGone(tables, ifindex, iface);
      if index.None? {
        ifindex := rest;
      } else if 0 < index.value < TABLE_OFFSET_FOR_LOCAL - TABLE_OFFSET && index.value !in rest.Values
                && forall j :: j in tables && j != iface ==> tables[j] != index.value + TABLE_OFFSET {
        IndexGiven(tables, rest, iface, index.value);
        ifindex := rest[iface := index.value];
      }
    }

    // ---- uid-based requests -------------------------------------------------------------------

    method IssueRanges(sub: nat, ranges: seq<UidRange>, f: UidBuilder, add: bool) returns (ret: int)
      requires Valid()
      modifies this`rules, this`trace, this`aborted, this`refused
      ensures Valid() && old(trace) <= trace
      ensures Effect(old(rules), |old(trace)|, rules, trace, RangeSum(ranges, sub, f), add, ret)
      ensures (aborted <==> old(aborted) || ret != 0) && (old(refused) ==> refused)
      ensures Able(old(rules), RangeSum(ranges, sub, f), add, ret, refused)
    {
      hide Effect, TablesOk, AllSendable, Able;
      ret := 0;
      EffectNone(rules, trace, add);
      for k := 0 to |ranges|
        invariant Valid() && old(trace) <= trace && ret == 0 && aborted == old(aborted) && (old(refused) ==> refused)
        invariant Effect(old(rules), |old(trace)|, rules, trace, RangeSum(ranges[..k], sub, f), add, 0)
      {
        ghost var r1, tr1 := rules, trace;
        ret := Issue(f(sub, ranges[k]), add);
        AbleRange(ranges, k, sub, f, old(rules), |old(trace)|, r1, tr1, add, ret, refused);
        RangesStep(ranges, k, sub, f, old(rules), |old(trace)|, r1, tr1, rules, trace, add, ret);
        if ret != 0 {
          return;
        }
      }
      assert ranges[..|ranges|] == ranges;
      NeverFailed(old(rules), RangeSum(ranges, sub, f), add, refused);
    }

    method IssueUids(uids: UidRangeMap, f: UidBuilder, add: bool) returns (ret: int)
      requires Valid()
      modifies this`rules, this`trace, this`aborted, this`refused
      ensures Valid() && old(trace) <= trace
      ensures Effect(old(rules), |old(trace)|, rules, trace, UidSum(uids, f), add, ret)
      ensures (aborted <==> old(aborted) || ret != 0) && (old(refused) ==> refused)
      ensures Able(old(rules), UidSum(uids, f), add, ret, refused)
    {
      hide Effect, TablesOk, AllSendable, Able;
      ret := 0;
      EffectNone(rules, trace, add);
      var todo := uids.Keys;
      ghost var done: multiset<Entry> := multiset{};
      while todo != {}
        invariant todo <= uids.Keys
        invariant Valid() && old(trace) <= trace && ret == 0 && aborted == old(aborted) && (old(refused) ==> refused)
        invariant Effect(old(rules), |old(trace)|, rules, trace, done, add, 0)
        invariant done + Sum(todo, SubFn(uids, f)) == UidSum(uids, f)
      {
        var sub :| sub in todo;
        SumPick(todo, SubFn(uids, f), sub);
        ghost var r1, tr1 := rules, trace;
        ghost var part, rest := RangeSum(uids[sub], sub, f), Sum(todo - {sub}, SubFn(uids, f));
        ret := IssueRanges(sub, uids[sub], f, add);
        AbleThen(old(rules), |old(trace)|, r1, tr1, done, part, rest, add, ret, refused);
        EffectThen(old(rules), |old(trace)|, r1, tr1, done, rules, trace, part, add, ret);
        assert done + part + rest == UidSum(uids, f);
        if ret != 0 {
          EffectWiden(old(rules), |old(trace)|, rules, trace, done + part, rest, add, ret);
          return;
        }
        todo := todo - {sub};
        done := done + part;
      }
      assert Sum(todo, SubFn(uids, f)) == multiset{};
      assert done == UidSum(uids, f);
      NeverFailed(old(rules), UidSum(uids, f), add, refused);
    }

    // ---- one network on one interface ---------------------------------------------------------

    /**
     * An operation on one interface. If the interface is unknown nothing is sent at all; otherwise
     * the batch `m`, built for the interface's cached table, has its effect.
     */
    twostate predicate Batch(iface: string, m: multiset<Entry>, add: bool, ret: int)
      reads this
    {
      && CacheStep(old(tables), tables, iface)
      && (iface in tables <==> iface in old(tables) || iface in old(ifindex))
      && old(trace) <= trace && (old(refused) ==> refused)
      && if iface !in tables
         then ret != 0 && rules == old(rules) && trace == old(trace) && aborted == old(aborted)
         else
           && Effect(old(rules), |old(trace)|, rules, trace, m, add, ret)
           && (aborted <==> old(aborted) || ret != 0)
           && Able(old(rules), m, add, ret, refused)
    }

    method ModifyPhysicalNetwork(netId: NetId, iface: string, uids: UidRangeMap, permission: Permission, add: bool,
                                 nonUid: bool, local: bool)
      returns (ret: int)
      requires Valid()
      modifies this`tables, this`rules, this`trace, this`aborted, this`refused
      ensures Valid()
      ensures Batch(iface, PhysicalBatch(netId, iface, TableOf(tables, iface), uids, permission, nonUid, local), add,
                    ret)
    {
      hide Effect, Able, TablesOk, AllSendable, UidSum, PhysicalRequests, VirtualRequests, FallthroughRequests;
      hide CacheStep;
      var table := TableFor(iface);
      if table == 0 {
        return ESRCH;
      }
      ret := IssueUids(uids, PhysicalUids(netId, table), add);
      ghost var r1, tr1, m1 := rules, trace, UidSum(uids, PhysicalUids(netId, table));
      ghost var m2 := if nonUid then multiset(PhysicalRequests(netId, iface, table, permission, local)) else multiset{};
      if ret != 0 {
        EffectWiden(old(rules), |old(trace)|, rules, trace, m1, m2, add, ret);
        AbleWhole(old(rules), m1, m2, add, ret, refused);
        return;
      }
      if nonUid {
        ret := Issue(PhysicalRequests(netId, iface, table, permission, local), add);
        EffectThen(old(rules), |old(trace)|, r1, tr1, m1, rules, trace, m2, add, ret);
        AbleThen(old(rules), |old(trace)|, r1, tr1, m1, m2, multiset{}, add, ret, refused);
        assert m1 + m2 + multiset{} == m1 + m2;
      } else {
        assert m1 + m2 == m1;
      }
    }

    method ModifyVirtualNetwork(netId: NetId, iface: string, uids: UidRangeMap, secure: bool, add: bool,
                                nonUid: bool, excludeLocal: bool)
      returns (ret: int)
      requires Valid()
      modifies this`tables, this`rules, this`trace, this`aborted, this`refused
      ensures Valid()
      ensures Batch(iface, VirtualBatch(netId, iface, TableOf(tables, iface), uids, secure, nonUid, excludeLocal), add,
                    ret)
    {
      hide Effect, Able, TablesOk, AllSendable, UidSum, PhysicalRequests, VirtualRequests, FallthroughRequests;
      hide CacheStep;
      var table := TableFor(iface);
      if table == 0 {
        return ESRCH;
      }
      ret := IssueUids(uids, VirtualUids(netId, iface, table, secure, excludeLocal), add);
      ghost var r1, tr1, m1 := rules, trace, UidSum(uids, VirtualUids(netId, iface, table, secure, excludeLocal));
      ghost var m2 := if nonUid then multiset(VirtualRequests(netId, iface, table, secure, excludeLocal))
        else multiset{};
      if ret != 0 {
        EffectWiden(old(rules), |old(trace)|, rules, trace, m1, m2, add, ret);
        AbleWhole(old(rules), m1, m2, add, ret, refused);
        return;
      }
      if nonUid {
        ret := Issue(VirtualRequests(netId, iface, table, secure, excludeLocal), add);
        EffectThen(old(rules), |old(trace)|, r1, tr1, m1, rules, trace, m2, add, ret);
        AbleThen(old(rules), |old(trace)|, r1, tr1, m1, m2, multiset{}, add, ret, refused);
        assert m1 + m2 + multiset{} == m1 + m2;
      } else {
        assert m1 + m2 == m1;
      }
    }

    method ModifyUnreachableNetwork(netId: NetId, uids: UidRangeMap, add: bool) returns (ret: int)
      requires Valid()
      modifies this`rules, this`trace, this`aborted, this`refused
      ensures Valid() && old(trace) <= trace
      ensures Effect(old(rules), |old(trace)|, rules, trace, UidSum(uids, UnreachableUids(netId)), add, ret)
      ensures (aborted <==> old(aborted) || ret != 0) && (old(refused) ==> refused)
      ensures Able(old(rules), UidSum(uids, UnreachableUids(netId)), add, ret, refused)
    {
      ret := IssueUids(uids, UnreachableUids(netId), add);
    }

    method ModifyDefaultNetwork(iface: string, permission: Permission, add: bool) returns (ret: int)
      requires Valid()
      modifies this`tables, this`rules, this`trace, this`aborted, this`refused
      ensures Valid()
      ensures Batch(iface, multiset{DefaultNetwork(TableOf(tables, iface), permission)}, add, ret)
    {
      hide Effect, Able, TablesOk, AllSendable, UidSum, PhysicalRequests, VirtualRequests, FallthroughRequests;
      hide CacheStep;
      var table := TableFor(iface);
      if table == 0 {
        return ESRCH;
      }
      ret := Issue([DefaultNetwork(table, permission)], add);
    }

    /** The fallthrough rule of one VPN and the local-exclusion rule that goes with it. */
    method ModifyFallthrough(vpnNetId: NetId, iface: string, permission: Permission, add: bool) returns (ret: int)
      requires Valid()
      modifies this`tables, this`rules, this`trace, this`aborted, this`refused
      ensures Valid()
      ensures Batch(iface, multiset(FallthroughRequests(vpnNetId, TableOf(tables, iface), permission)), add, ret)
    {
      hide Effect, Able, TablesOk, AllSendable, UidSum, PhysicalRequests, VirtualRequests, FallthroughRequests;
      hide CacheStep;
      var table := TableFor(iface);
      if table == 0 {
        return ESRCH;
      }
      ret := Issue(FallthroughRequests(vpnNetId, table, permission), add);
    }

    // ---- interfaces joining and leaving networks ------------------------------------------------

    /** A kernel operation on routes, which has no bearing on rules; it may fail. */
    method ModifyRoutes() returns (ret: int)
      modifies this`refused
      ensures refused <==> old(refused) || ret != 0
    {
      ret := *;
      refused := refused || ret != 0;
    }

    method AddInterfaceToPhysicalNetwork(netId: NetId, iface: string, permission: Permission, uids: UidRangeMap,
                                         local: bool)
      returns (ret: int)
      requires Valid()
      modifies this`tables, this`rules, this`trace, this`aborted, this`refused
      ensures Valid()
      ensures Batch(iface, PhysicalBatch(netId, iface, TableOf(tables, iface), uids, permission, true, local), true,
                    ret)
    {
      hide Effect, TablesOk, AllSendable, PhysicalBatch, CacheStep, CanApply;
      ret := ModifyPhysicalNetwork(netId, iface, uids, permission, true, true, local);
      if ret != 0 {
        return;
      }
      ret := ModifyRoutes();
      if ret != 0 {
        aborted := true;
        EffectFailed(old(rules), |old(trace)|, rules, trace,
                     PhysicalBatch(netId, iface, TableOf(tables, iface), uids, permission, true, local), true, ret);
      }
    }

    /** Flushes both tables of an interface and forgets the interface once its main table is empty. */
    method FlushRoutes(iface: string) returns (ret: int)
      requires Valid()
      modifies this`tables, this`refused
      ensures Valid() && (old(refused) ==> refused)
      ensures tables == old(tables) - {iface} || CacheStep(old(tables), tables, iface)
      ensures ret == 0 ==> tables == old(tables) - {iface}
      ensures ret != 0 && iface in old(tables) ==> refused
    {
      hide TablesOk, AllSendable;
      var table := TableFor(iface);
      if table == 0 {
        return ESRCH;
      }
      ForgetTable(tables, ifindex, iface);
      var flushedLocal := ModifyRoutes();
      var flushed := ModifyRoutes();
      if flushed == 0 {
        tables := tables - {iface};
      }
      ret := if flushed != 0 then flushed else flushedLocal;
    }

    /** Deletes the tethering rules of an input interface, whatever their table, until none is left. */
    method ClearTetheringRules(input: string) returns (ret: int)
      requires Valid()
      modifies this`rules, this`trace, this`aborted, this`refused
      ensures Valid() && old(trace) <= trace
      ensures SameOutsideTethering(old(rules), rules)
      ensures (aborted <==> old(aborted) || ret != 0) && (refused <==> old(refused) || ret != 0)
      ensures ret == 0 ==> forall e :: e in rules && IsTethering(e) ==> e.iif != Some(input)
    {
      hide TablesOk, AllSendable;
      while exists e :: e in rules && IsTethering(e) && e.iif == Some(input)
        invariant Valid() && old(trace) <= trace && aborted == old(aborted) && refused == old(refused)
        invariant SameOutsideTethering(old(rules), rules)
        decreases |rules|
      {
        var outcome: int := *;
        if outcome != 0 {
          aborted, refused := true, true;
          return outcome;
        }
        var e :| e in rules && IsTethering(e) && e.iif == Some(input);
        TetheringDropped(old(rules), rules, e);
        rules := rules - multiset{e};
        trace := trace + [rules];
      }
      // The deletion that finds nothing left may still fail for another reason.
      var last: int := *;
      if last != 0 {
        aborted, refused := true, true;
      }
      ret := last;
    }

    method RemoveInterfaceFromPhysicalNetwork(netId: NetId, iface: string, permission: Permission, uids: UidRangeMap,
                                              local: bool)
      returns (ret: int)
      requires Valid()
      modifies this`tables, this`rules, this`trace, this`aborted, this`refused
      ensures Valid() && old(trace) <= trace
      ensures (old(aborted) ==> aborted) && (old(refused) ==> refused)
      ensures iface in old(tables) && !refused ==>
        (CanApply(old(rules), PhysicalBatch(netId, iface, old(tables)[iface], uids, permission, true, local), false) ==>
          aborted == old(aborted))
      ensures iface in old(tables) && !aborted ==>
        var m := PhysicalBatch(netId, iface, old(tables)[iface], uids, permission, true, local);
        ret == 0 && m <= old(rules) && SameOutsideTethering(old(rules) - m, rules) && tables == old(tables) - {iface}
      ensures forall j :: j in old(tables) && j != iface ==> j in tables && tables[j] == old(tables)[j]
    {
      hide TablesOk, AllSendable, PhysicalBatch, Within;
      ret := ModifyPhysicalNetwork(netId, iface, uids, permission, false, true, local);
      if ret != 0 {
        return;
      }
      ret := FlushRoutes(iface);
      if ret != 0 {
        aborted := true;
        return;
      }
      ret := ClearTetheringRules(iface);
    }

    method AddInterfaceToVirtualNetwork(netId: NetId, iface: string, secure: bool, uids: UidRangeMap,
                                        excludeLocal: bool)
      returns (ret: int)
      requires Valid()
      modifies this`tables, this`rules, this`trace, this`aborted, this`refused
      ensures Valid()
      ensures Batch(iface, VirtualBatch(netId, iface, TableOf(tables, iface), uids, secure, true, excludeLocal), true,
                    ret)
    {
      ret := ModifyVirtualNetwork(netId, iface, uids, secure, true, true, excludeLocal);
    }

    method RemoveInterfaceFromVirtualNetwork(netId: NetId, iface: string, secure: bool, uids: UidRangeMap,
                                             excludeLocal: bool)
      returns (ret: int)
      requires Valid()
      modifies this`tables, this`rules, this`trace, this`aborted, this`refused
      ensures Valid() && old(trace) <= trace
      ensures (old(aborted) ==> aborted) && (old(refused) ==> refused)
      ensures iface in old(tables) && !refused ==>
        (CanApply(old(rules), VirtualBatch(netId, iface, old(tables)[iface], uids, secure, true, excludeLocal),
                  false) ==>
          aborted == old(aborted))
      ensures iface in old(tables) && !aborted ==>
        var m := VirtualBatch(netId, iface, old(tables)[iface], uids, secure, true, excludeLocal);
        ret == 0 && m <= old(rules) && SameOutsideTethering(old(rules) - m, rules) && tables == old(tables) - {iface}
      ensures forall j :: j in old(tables) && j != iface ==> j in tables && tables[j] == old(tables)[j]
    {
      hide TablesOk, AllSendable, VirtualBatch, Within;
      ret := ModifyVirtualNetwork(netId, iface, uids, secure, false, true, excludeLocal);
      if ret != 0 {
        return;
      }
      ret := FlushRoutes(iface);
      if ret != 0 {
        aborted := true;
      }
    }

    method AddInterfaceToLocalNetwork(iface: string) returns (ret: int)
      requires Valid()
      modifies this`tables, this`rules, this`trace, this`aborted, this`refused
      ensures Valid() && old(trace) <= trace
      ensures Effect(old(rules), |old(trace)|, rules, trace, multiset(LocalRequests(iface)), true, ret)
      ensures (aborted <==> old(aborted) || ret != 0) && (old(refused) ==> refused)
      ensures Able(old(rules), multiset(LocalRequests(iface)), true, ret, refused)
      ensures tables == if ret == 0 then old(tables)[iface := TABLE_LOCAL_NETWORK] else old(tables)
    {
      hide Effect, Able, TablesOk, AllSendable, LocalRequests;
      LearnTable(tables, ifindex, iface, TABLE_LOCAL_NETWORK);
      ret := Issue(LocalRequests(iface), true);
      if ret == 0 {
        tables := tables[iface := TABLE_LOCAL_NETWORK];
      }
    }

    method RemoveInterfaceFromLocalNetwork(iface: string) returns (ret: int)
      requires Valid()
      modifies this`tables, this`rules, this`trace, this`aborted, this`refused
      ensures Valid() && old(trace) <= trace
      ensures Effect(old(rules), |old(trace)|, rules, trace, multiset(LocalRequests(iface)), false, ret)
      ensures (aborted <==> old(aborted) || ret != 0) && (old(refused) ==> refused)
      ensures Able(old(rules), multiset(LocalRequests(iface)), false, ret, refused)
      ensures tables == if ret == 0 then old(tables) - {iface} else old(tables)
    {
      hide Effect, Able, TablesOk, AllSendable, LocalRequests;
      ForgetTable(tables, ifindex, iface);
      ret := Issue(LocalRequests(iface), false);
      if ret == 0 {
        tables := tables - {iface};
      }
    }

    /** Changes the permission an interface's rules ask for: the new rules first, then the old ones go. */
    method ModifyPhysicalNetworkPermission(netId: NetId, iface: string, before: Permission, after: Permission,
                                           local: bool)
      returns (ret: int)
      requires Valid()
      modifies this`tables, this`rules, this`trace, this`aborted, this`refused
      ensures Valid() && old(trace) <= trace && CacheStep(old(tables), tables, iface)
      ensures (old(aborted) ==> aborted) && (old(refused) ==> refused)
      ensures iface in tables && ret != 0 ==> aborted
      ensures iface !in tables ==> ret != 0
      ensures iface in tables && !refused ==>
        var t := TableOf(tables, iface);
        var gained := multiset(PhysicalRequests(netId, iface, t, after, local));
        var lost := multiset(PhysicalRequests(netId, iface, t, before, local));
        CanApply(old(rules), gained, true) && CanApply(old(rules), lost, false) ==> ret == 0
      ensures iface in tables ==>
        var t := TableOf(tables, iface);
        var gained := multiset(PhysicalRequests(netId, iface, t, after, local));
        var lost := multiset(PhysicalRequests(netId, iface, t, before, local));
        && (forall k :: |old(trace)| <= k < |trace| ==> Between(old(rules), gained, lost, trace[k]))
        && Between(old(rules), gained, lost, rules)
        && (ret == 0 ==> lost <= old(rules) + gained && rules == old(rules) + gained - lost && aborted == old(aborted))
    {
      hide TablesOk, AllSendable, PhysicalRequests, PhysicalBatch, Effect, Between, CanApply;
      ret := ModifyPhysicalNetwork(netId, iface, map[], after, true, true, local);
      ghost var t := TableOf(tables, iface);
      EmptyBatch(netId, iface, t, after, local);
      EmptyBatch(netId, iface, t, before, local);
      ghost var gained := multiset(PhysicalRequests(netId, iface, t, after, local));
      ghost var lost := multiset(PhysicalRequests(netId, iface, t, before, local));
      ghost var r1, tr1 := rules, trace;
      if ret != 0 {
        if iface in tables {
          MakeOnly(old(rules), |old(trace)|, rules, trace, gained, lost, ret);
        }
        return;
      }
      CanStill(old(rules), |old(trace)|, r1, tr1, gained, lost);
      ret := ModifyPhysicalNetwork(netId, iface, map[], before, false, true, local);
      MakeBeforeBreak(old(rules), |old(trace)|, r1, tr1, rules, trace, gained, lost, ret);
    }

    method ModifyReject(ranges: seq<UidRange>, add: bool) returns (ret: int)
      requires Valid()
      modifies this`rules, this`trace, this`aborted, this`refused
      ensures Valid() && old(trace) <= trace
      ensures Effect(old(rules), |old(trace)|, rules, trace, RangeSum(ranges, 0, RejectRequests), add, ret)
      ensures (aborted <==> old(aborted) || ret != 0) && (old(refused) ==> refused)
      ensures Able(old(rules), RangeSum(ranges, 0, RejectRequests), add, ret, refused)
    {
      ret := IssueRanges(0, ranges, RejectRequests, add);
    }

    method ModifyTetheredNetwork(input: string, output: string, add: bool) returns (ret: int)
      requires Valid()
      modifies this`tables, this`rules, this`trace, this`aborted, this`refused
      ensures Valid()
      ensures Batch(output, multiset{Tethering(input, TableOf(tables, output))}, add, ret)
    {
      hide Effect, Able, TablesOk, AllSendable, UidSum, PhysicalRequests, VirtualRequests, FallthroughRequests;
      hide CacheStep;
      var table := TableFor(output);
      if table == 0 {
        return ESRCH;
      }
      ret := Issue([Tethering(input, table)], add);
    }
  }
}
