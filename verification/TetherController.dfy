/** Tethering: which interface pairs forward, and the iptables chains that make them do so. */
module TetherControllers {
  import opened Fwmarks
  import opened Sums
  import opened TetherChains

  const ENODEV := -19
  const EINVAL := -22
  const EREMOTEIO := -121
  const IFNAMSIZ := 16

  predicate IsAlnum(c: char) {
    'a' <= c <= 'z' || 'A' <= c <= 'Z' || '0' <= c <= '9'
  }

  /** The same in character codes. */
  lemma AlnumCodes(c: char)
    ensures IsAlnum(c) <==> 48 <= c as int <= 57 || 65 <= c as int <= 90 || 97 <= c as int <= 122
  {}

  predicate IsIfaceName(name: string) {
    && 0 < |name| <= IFNAMSIZ && IsAlnum(name[0])
    && forall i :: 1 <= i < |name| ==> IsAlnum(name[i]) || name[i] in "_-:."
  }

  /** The test of a name, character by character. */
  method CheckIfaceName(name: string) returns (ok: bool)
    ensures ok == IsIfaceName(name)
  {
    if |name| == 0 || |name| > IFNAMSIZ {
      return false;
    }
    if !IsAlnum(name[0]) {
      return false;
    }
    for i := 1 to |name|
      invariant forall j :: 1 <= j < i ==> IsAlnum(name[j]) || name[j] in "_-:."
    {
      if !IsAlnum(name[i]) && name[i] != '_' && name[i] != '-' && name[i] != ':' && name[i] != '.' {
        return false;
      }
    }
    return true;
  }

  // ---- what the chains look like ------------------------------------------------------------------------

  ghost function RawFn(): Pair -> multiset<RawRule> {
    (p: Pair) => multiset{Ftp(p.inner), Pptp(p.inner)}
  }

  ghost function InnerFn(): Pair -> multiset<string> {
    (p: Pair) => multiset{p.inner}
  }

  /** The counting rules are mirrored and adjacent, one couple for each pair ever enabled. */
  ghost predicate CountersOk(c: Chains, pairs: map<Pair, bool>, known: seq<Pair>) {
    && c.counters4 == Mirrors(known) && c.counters6 == c.counters4
    && DistinctUnordered(known)
    && (forall p :: p in known ==> p in pairs)
    && (forall p :: p in pairs ==> p in known || p.Swapped() in known)
  }

  /**
   * The chains that belong to the active pairs, listed in the order they were enabled. `hooked` says
   * whether the alert rule and the IPv6 counting rule are in place.
   */
  ghost predicate Ready(c: Chains, pairs: map<Pair, bool>, order: seq<Pair>, known: seq<Pair>, hooked: bool) {
    && Distinct(order) && (forall p :: p in order <==> p in pairs && pairs[p])
    && c.forward4 == (if hooked then [Alert] else []) + Blocks(order) + [Drop]
    && c.forward6 == (if hooked then [Alert, CountAll] else [])
    && (forall p :: p in order ==> p.outer in c.masquerade)
    && multiset(c.raw4) == SumSeq(order, RawFn()) && multiset(c.raw6) == SumSeq(order, InnerFn())
    && CountersOk(c, pairs, known)
  }

  // ---- the states a batch of commands goes through, one per table ------------------------------------------

  function AddRules(c: Chains, p: Pair, count: bool): seq<Option<Chains>> {
    var c1 := c.(raw4 := c.raw4 + [Ftp(p.inner), Pptp(p.inner)]);
    var forward := AddForward(c1.forward4, p);
    var counters := if count then c1.counters4 + Mirror(p) else c1.counters4;
    [Some(c1), if forward.Some? then Some(c1.(forward4 := forward.value, counters4 := counters)) else None]
  }

  function RemoveRules(c: Chains, p: Pair): seq<Option<Chains>> {
    var raw := DeleteAll(c.raw4, [Ftp(p.inner), Pptp(p.inner)]);
    if raw.None? then [None]
    else
      var c1 := c.(raw4 := raw.value);
      var forward := DeleteAll(c1.forward4, Block(p));
      [Some(c1), if forward.Some? then Some(c1.(forward4 := forward.value)) else None]
  }

  function RemoveFilter(c: Chains, p: Pair): Option<Chains> {
    var raw := Delete(c.raw6, p.inner);
    if raw.Some? then Some(c.(raw6 := raw.value)) else None
  }

  /** What the kernel is left with when nothing but the commands themselves can fail. */
  function Committed(c: Chains, states: seq<Option<Chains>>): Chains
    decreases |states|
  {
    if states == [] || states[0].None? then c else Committed(states[0].value, states[1..])
  }

  // ---- steps ------------------------------------------------------------------------------------------------

  lemma MirrorsMore(known: seq<Pair>, p: Pair)
    ensures Mirrors(known + [p]) == Mirrors(known) + Mirror(p)
  {
    assert (known + [p])[..|known|] == known;
  }

  lemma SumSeqMore<E>(s: seq<Pair>, f: Pair -> multiset<E>, p: Pair)
    ensures SumSeq(s + [p], f) == SumSeq(s, f) + f(p)
  {
    SumSeqMerge(s + [p], f, s, [p]);
    assert SumSeq([p], f) == f(p) + SumSeq([p][1..], f);
  }

  lemma SumSeqOut<E>(a: seq<Pair>, p: Pair, b: seq<Pair>, f: Pair -> multiset<E>)
    ensures SumSeq(a + [p] + b, f) == f(p) + SumSeq(a + b, f)
  {
    var s := a + [p] + b;
    SumSeqTakeOut(s, f, |a|);
    assert s[..|a|] + s[|a| + 1..] == a + b;
  }

  lemma OrderMore(order: seq<Pair>, p: Pair, pairs: map<Pair, bool>)
    requires Distinct(order) && p !in order && forall q :: q in order <==> q in pairs && pairs[q]
    ensures Distinct(order + [p]) && forall q :: q in order + [p] <==> q in pairs[p := true] && pairs[p := true][q]
  {}

  lemma CountersMore(c: Chains, pairs: map<Pair, bool>, known: seq<Pair>, p: Pair, c': Chains)
    requires CountersOk(c, pairs, known) && p.inner != p.outer && p.inner != "" && p.outer != ""
    requires var count := p !in pairs && p.Swapped() !in pairs;
      c'.counters4 == c'.counters6 == if count then c.counters4 + Mirror(p) else c.counters4
    ensures CountersOk(c', pairs[p := true], if p !in pairs && p.Swapped() !in pairs then known + [p] else known)
  {
    MirrorsMore(known, p);
    hide Mirrors, Mirror;
    if p !in pairs && p.Swapped() in pairs {
      assert p.Swapped() in known || p.Swapped().Swapped() in known;
    }
  }

  /** Enabling a pair, step by step. */
  lemma AddMeans(c: Chains, pairs: map<Pair, bool>, order: seq<Pair>, known: seq<Pair>, p: Pair, c': Chains)
    requires Ready(c, pairs, order, known, true) && p !in order && p.outer in c.masquerade
    requires p.inner != p.outer && p.inner != "" && p.outer != ""
    requires var count := p !in pairs && p.Swapped() !in pairs;
      var c1 := c.(raw6 := c.raw6 + [p.inner]);
      var states := AddRules(c1, p, count);
      states[1].Some? && c' == states[1].value.(counters6 := if count then c1.counters6 + Mirror(p) else c1.counters6)
    ensures Ready(c', pairs[p := true], order + [p], if p !in pairs && p.Swapped() !in pairs then known + [p]
                  else known, true)
  {
    hide Blocks, SumSeq, CountersOk, RawFn, InnerFn, Mirror, AddForward, Distinct;
    AddForwardMeans([Alert], order, p);
    OrderMore(order, p, pairs);
    SumSeqMore(order, RawFn(), p);
    SumSeqMore(order, InnerFn(), p);
    FnValues(p);
    CountersSame(c, pairs, known);
    CountersMore(c, pairs, known, p, c');
  }

  lemma FnValues(p: Pair)
    ensures RawFn()(p) == multiset{Ftp(p.inner), Pptp(p.inner)} && InnerFn()(p) == multiset{p.inner}
  {}

  lemma CountersSame(c: Chains, pairs: map<Pair, bool>, known: seq<Pair>)
    requires CountersOk(c, pairs, known)
    ensures c.counters4 == c.counters6
  {}

  lemma {:induction false} DeleteAllMeans<T>(s: seq<T>, xs: seq<T>)
    requires DeleteAll(s, xs).Some?
    ensures multiset(s) == multiset(DeleteAll(s, xs).value) + multiset(xs)
    decreases |xs|
  {
    if xs != [] {
      DeleteMeans(s, xs[0]);
      DeleteAllMeans(Delete(s, xs[0]).value, xs[1..]);
      assert xs == [xs[0]] + xs[1..];
    }
  }

  lemma OrderLess(a: seq<Pair>, p: Pair, b: seq<Pair>, pairs: map<Pair, bool>)
    requires Distinct(a + b) && p !in a + b && p in pairs && forall q :: q in a + [p] + b <==> q in pairs && pairs[q]
    ensures forall q :: q in a + b <==> q in pairs[p := false] && pairs[p := false][q]
  {
    forall q
      ensures q in a + b <==> q in pairs[p := false] && pairs[p := false][q]
    {
      assert q in a + [p] + b <==> q in a + b || q == p;
    }
  }

  lemma CountersLess(c: Chains, pairs: map<Pair, bool>, known: seq<Pair>, p: Pair, c': Chains)
    requires CountersOk(c, pairs, known) && p in pairs && c'.counters4 == c.counters4 && c'.counters6 == c.counters6
    ensures CountersOk(c', pairs[p := false], known)
  {
    hide Mirrors;
  }

  /** Disabling a pair whose commands all worked: it was active, and the others keep their rules. */
  lemma RemoveMeans(c: Chains, pairs: map<Pair, bool>, order: seq<Pair>, known: seq<Pair>, p: Pair, c': Chains)
    returns (order': seq<Pair>)
    requires Ready(c, pairs, order, known, order != [])
    requires RemoveFilter(c, p).Some?
    requires var states := RemoveRules(RemoveFilter(c, p).value, p); |states| == 2 && states[1] == Some(c')
    ensures p in order && p in pairs && Ready(c', pairs[p := false], order', known, true)
    ensures forall q :: q in order' <==> q in order && q != p
  {
    hide Blocks, SumSeq, CountersOk, RawFn, InnerFn, Distinct, Block, Delete, DeleteAll;
    var c1 := RemoveFilter(c, p).value;
    assert c.forward4 == ForwardChain(order);
    if p !in order {
      RemoveForwardFails(order, p);
    }
    var a, b := SplitAt(order, p);
    order' := a + b;
    RemoveForwardMeans(a, p, b);
    OrderLess(a, p, b, pairs);
    SumSeqOut(a, p, b, RawFn());
    SumSeqOut(a, p, b, InnerFn());
    FnValues(p);
    DeleteMeans(c.raw6, p.inner);
    DeleteAllMeans(c.raw4, [Ftp(p.inner), Pptp(p.inner)]);
    Cancel(multiset(c'.raw4), SumSeq(a + b, RawFn()), multiset{Ftp(p.inner), Pptp(p.inner)});
    Cancel(multiset(c'.raw6), SumSeq(a + b, InnerFn()), multiset{p.inner});
    CountersLess(c, pairs, known, p, c');
  }

  /** The commands that add a pair can always be carried out. */
  lemma AddWorks(c: Chains, pairs: map<Pair, bool>, order: seq<Pair>, known: seq<Pair>, p: Pair, count: bool)
    requires Ready(c, pairs, order, known, true)
    ensures var states := AddRules(c.(raw6 := c.raw6 + [p.inner]), p, count);
      |states| == 2 && states[0].Some? && states[1].Some?
  {
    hide AddForward, Blocks, Mirror, CountersOk;
    AddForwardMeans([Alert], order, p);
  }

  /** The commands that remove an active pair can be carried out. */
  lemma RemoveWorks(c: Chains, pairs: map<Pair, bool>, order: seq<Pair>, known: seq<Pair>, p: Pair)
    requires Ready(c, pairs, order, known, order != []) && p in order
    ensures RemoveFilter(c, p).Some?
    ensures var states := RemoveRules(RemoveFilter(c, p).value, p); |states| == 2 && states[0].Some? && states[1].Some?
  {
    hide RawFn, InnerFn, SumSeq, Blocks, DeleteAll, Delete, Block, CountersOk;
    assert c.forward4 == ForwardChain(order);
    HelpersOwned(c, order, p.inner);
    FilterOwned(c, order, p.inner);
    var a, b := SplitAt(order, p);
    RemoveForwardMeans(a, p, b);
  }

  lemma Reset(c: Chains, pairs: map<Pair, bool>, known: seq<Pair>, hooked: bool)
    requires Ready(c, pairs, [], known, hooked)
    ensures Ready(c.(forward4 := [Drop], forward6 := [], masquerade := [], raw6 := []), pairs, [], known, false)
  {
    hide CountersOk, RawFn, InnerFn;
    CountersLike(c, pairs, known, c.(forward4 := [Drop], forward6 := [], masquerade := [], raw6 := []));
  }

  lemma CountersLike(c: Chains, pairs: map<Pair, bool>, known: seq<Pair>, c': Chains)
    requires CountersOk(c, pairs, known) && c'.counters4 == c.counters4 && c'.counters6 == c.counters6
    ensures CountersOk(c', pairs, known)
  {}

  lemma ActiveListed(c: Chains, pairs: map<Pair, bool>, order: seq<Pair>, known: seq<Pair>, p: Pair)
    requires Ready(c, pairs, order, known, order != [])
    ensures p in order <==> p in pairs && pairs[p]
    ensures p in order ==> p.outer in c.masquerade && Ready(c, pairs, order, known, true)
  {}

  /** Preparing for the first pair of an upstream. */
  lemma Prepare(c: Chains, pairs: map<Pair, bool>, order: seq<Pair>, known: seq<Pair>, outer: string, c': Chains)
    requires Ready(c, pairs, order, known, order != [])
    requires order != [] ==> c' == c.(masquerade := c.masquerade + [outer])
    requires order == [] ==>
      c' == c.(masquerade := c.masquerade + [outer], forward4 := [Alert] + c.forward4,
               forward6 := [Alert] + (c.forward6 + [CountAll]))
    ensures Ready(c', pairs, order, known, true) && outer in c'.masquerade
  {
    hide CountersOk, RawFn, InnerFn, SumSeq, Distinct;
    CountersLike(c, pairs, known, c');
    hide Blocks;
    if order == [] {
      assert [Alert] + ([] + Blocks(order) + [Drop]) == [Alert] + Blocks(order) + [Drop];
      assert [Alert] + ([] + [CountAll]) == [Alert, CountAll];
    }
  }

  class TetherController {
    /** The pairs that were ever enabled, and whether they are active. */
    var pairs: map<Pair, bool>
    var chains: Chains
    ghost var order: seq<Pair>
    ghost var known: seq<Pair>
    /** Set once an iptables command has failed. */
    ghost var failed: bool
    /** Set once one has failed although its commands could be carried out. */
    ghost var refused: bool

    ghost predicate Valid()
      reads this
    {
      !failed ==> Ready(chains, pairs, order, known, order != [])
    }

    /** After the hooks have been set up. */
    constructor ()
      ensures Valid() && !failed && !refused && order == []
    {
      pairs, chains := map[], Chains([Drop], [], [], [], [], [], []);
      order, known, failed, refused := [], [], false, false;
    }

    predicate AnyActive()
      reads this
    {
      exists p :: p in pairs && pairs[p]
    }

    /** One run of iptables-restore: tables are committed in order until one fails. */
    method Restore(states: seq<Option<Chains>>) returns (ret: int)
      modifies this`chains, this`failed, this`refused
      ensures failed <==> old(failed) || ret != 0
      ensures (ret == 0 || ret == -1) && (old(refused) ==> refused)
      ensures ret != 0 && (forall i :: 0 <= i < |states| ==> states[i].Some?) ==> refused
      ensures ret == 0 ==> forall i :: 0 <= i < |states| ==> states[i].Some?
      ensures ret == 0 && states != [] ==> chains == states[|states| - 1].value
    {
      for k := 0 to |states|
        invariant failed == old(failed) && refused == old(refused) && forall i :: 0 <= i < k ==> states[i].Some?
        invariant k > 0 ==> chains == states[k - 1].value
      {
        var broken: bool := *;
        if broken || states[k].None? {
          failed, refused := true, refused || broken;
          return -1;
        }
        chains := states[k].value;
      }
      ret := 0;
    }

    method SetDefaults() returns (ret: int)
      modifies this`chains, this`failed, this`refused
      ensures failed <==> old(failed) || ret != 0
      ensures (old(refused) ==> refused) && (ret != 0 ==> refused)
      ensures ret == 0 ==> chains == old(chains).(forward4 := [Drop], forward6 := [], masquerade := [], raw6 := [])
    {
      var c := chains.(forward4 := [Drop]);
      ret := Restore([Some(c), Some(c.(masquerade := []))]);
      if ret < 0 {
        return;
      }
      var d := chains.(forward6 := []);
      ret := Restore([Some(d), Some(d.(raw6 := []))]);
    }

    /** Adds or removes the rules of a pair; a failed addition is undone as far as possible. */
    method SetForwardRules(add: bool, p: Pair) returns (ret: int)
      requires !failed && add ==>
        Ready(chains, pairs, order, known, true) && p !in order && p.outer in chains.masquerade
      requires !failed && !add ==> Ready(chains, pairs, order, known, order != [])
      requires p.inner != "" && p.outer != "" && (add ==> p.inner != p.outer)
      modifies this
      ensures (old(failed) ==> failed) && (old(refused) ==> refused)
      ensures !old(failed) && !refused && (add || p in old(order)) ==> !failed
      ensures add && !old(failed) ==> ret == if failed then EREMOTEIO else 0
      ensures !failed ==> ret == 0 && pairs == old(pairs)[p := add] && Ready(chains, pairs, order, known, true)
      ensures !failed && add ==> order == old(order) + [p]
      ensures !failed && !add ==> p in old(order) && forall q :: q in order <==> q in old(order) && q != p
      decreases add
    {
      hide Ready, AddForward, DeleteAll, Delete;
      ghost var c0 := chains;
      if !failed && add {
        AddWorks(c0, pairs, order, known, p, p !in pairs && p.Swapped() !in pairs);
      } else if !failed && p in order {
        RemoveWorks(c0, pairs, order, known, p);
      }
      ret := Restore([if add then Some(chains.(raw6 := chains.raw6 + [p.inner])) else RemoveFilter(chains, p)]);
      if ret == -1 && add {
        return EREMOTEIO;
      }
      var count := add && p !in pairs && p.Swapped() !in pairs;
      ghost var c1 := chains;
      ret := Restore(if add then AddRules(chains, p, count) else RemoveRules(chains, p));
      if ret != -1 && add {
        ret := Restore([Some(if count then chains.(counters6 := chains.counters6 + Mirror(p)) else chains)]);
      }
      if ret == -1 {
        if add {
          var _ := SetForwardRules(false, p);
        }
        return EREMOTEIO;
      }
      if !failed {
        if add {
          AddMeans(c0, pairs, order, known, p, chains);
          order, known := order + [p], if count then known + [p] else known;
        } else {
          assert RemoveRules(c1, p)[0].Some?;
          order := RemoveMeans(c0, pairs, order, known, p, chains);
        }
      }
      if add {
        pairs := pairs[p := true];
      } else if p in pairs {
        pairs := pairs[p := false];
      }
      ret := 0;
    }

    /** Sets up what the first pair of an upstream needs, and the first pair of all. */
    method SetupUpstream(outer: string) returns (ret: int)
      requires !failed ==> Ready(chains, pairs, order, known, order != [])
      modifies this`chains, this`failed, this`refused
      ensures failed <==> old(failed) || ret != 0
      ensures (old(refused) ==> refused) && (ret != 0 ==> refused)
      ensures !failed ==> Ready(chains, pairs, order, known, true) && outer in chains.masquerade
    {
      hide CountersOk;
      ghost var c0 := chains;
      assert !failed ==> (AnyActive() <==> order != []) by {
        if !failed && order != [] {
          assert order[0] in order;
        }
      }
      hide Ready;
      ret := Restore([Some(chains.(masquerade := chains.masquerade + [outer]))]);
      if ret == 0 && !AnyActive() {
        ret := Restore([Some(chains.(forward6 := chains.forward6 + [CountAll]))]);
        if ret == 0 {
          var c := chains.(forward4 := [Alert] + chains.forward4);
          ret := Restore([Some(c), Some(c.(forward6 := [Alert] + c.forward6))]);
        }
      }
      if !failed {
        Prepare(c0, pairs, order, known, outer, chains);
      }
    }

    method EnableNat(inner: string, outer: string) returns (ret: int)
      requires Valid()
      modifies this
      ensures Valid() && (old(failed) ==> failed) && (old(refused) ==> refused)
      ensures !old(failed) && !refused ==> !failed
      ensures !IsIfaceName(inner) || !IsIfaceName(outer) ==> ret == ENODEV && unchanged(this)
      ensures IsIfaceName(inner) && IsIfaceName(outer) && inner == outer ==> ret == EINVAL && unchanged(this)
      ensures IsIfaceName(inner) && IsIfaceName(outer) && inner != outer && !old(failed) ==>
        if failed then ret == EREMOTEIO || ret == ENODEV else ret == 0
      ensures IsIfaceName(inner) && IsIfaceName(outer) && inner != outer && !failed ==>
        ret == 0 && forall q :: q in order <==> q in old(order) || q == Pair(inner, outer)
    {
      hide Ready;
      if !IsIfaceName(inner) || !IsIfaceName(outer) {
        return ENODEV;
      }
      if inner == outer {
        return EINVAL;
      }
      var p := Pair(inner, outer);
      if !failed {
        ActiveListed(chains, pairs, order, known, p);
      }
      if p in pairs && pairs[p] {
        return 0;
      }
      if !exists q :: q in pairs && pairs[q] && q.outer == outer {
        ret := SetupUpstream(outer);
        if ret != 0 {
          if !AnyActive() {
            var _ := SetDefaults();
          }
          return EREMOTEIO;
        }
      } else if !failed {
        var q :| q in pairs && pairs[q] && q.outer == outer;
        ActiveListed(chains, pairs, order, known, q);
      }
      ret := SetForwardRules(true, p);
      if ret != 0 {
        if !AnyActive() {
          var _ := SetDefaults();
        }
        return ENODEV;
      }
    }

    /** Disables a pair. If no command failed, the pair was active, and no longer is. */
    method DisableNat(inner: string, outer: string) returns (ret: int)
      requires Valid()
      modifies this
      ensures Valid() && (old(failed) ==> failed) && (old(refused) ==> refused)
      ensures !old(failed) && !refused && Pair(inner, outer) in old(order) ==> !failed
      ensures !IsIfaceName(inner) || !IsIfaceName(outer) ==> ret == ENODEV && unchanged(this)
      ensures IsIfaceName(inner) && IsIfaceName(outer) && !failed ==>
        Pair(inner, outer) in old(order) && forall q :: q in order <==> q in old(order) && q != Pair(inner, outer)
    {
      hide CountersOk, RawFn, InnerFn;
      if !IsIfaceName(inner) || !IsIfaceName(outer) {
        return ENODEV;
      }
      var _ := SetForwardRules(false, Pair(inner, outer));
      ghost var c := chains;
      assert !failed ==> (AnyActive() <==> order != []) by {
        if !failed && order != [] {
          assert order[0] in order;
        }
      }
      if !AnyActive() {
        var _ := SetDefaults();
        if !failed {
          Reset(c, pairs, known, true);
        }
      }
      ret := 0;
    }
  }

  // ---- runs -----------------------------------------------------------------------------------------------

  datatype NatOp = Enable(inner: string, outer: string) | Disable(inner: string, outer: string)

  /** What a reader may expect of the chains when `order` lists the active pairs. */
  ghost predicate Sound(c: Chains, pairs: map<Pair, bool>, order: seq<Pair>, known: seq<Pair>) {
    && (forall p :: p in order <==> p in pairs && pairs[p])
    && (forall k :: Passes(c.forward4, k) <==> Permitted(order, k))
    && (forall k :: Passes(c.forward6, k)) && (order != [] ==> CountAll in c.forward6)
    && c.forward4 != [] && c.forward4[|c.forward4| - 1] == Drop && Drop !in c.forward4[..|c.forward4| - 1]
    && (forall p :: p in order ==> p.outer in c.masquerade)
    && c.counters4 == c.counters6 == Mirrors(known) && DistinctUnordered(known)
  }

  lemma ReadyIsSound(c: Chains, pairs: map<Pair, bool>, order: seq<Pair>, known: seq<Pair>)
    requires Ready(c, pairs, order, known, order != [])
    ensures Sound(c, pairs, order, known)
  {
    hide RawFn, InnerFn, SumSeq, Passes, Blocks, Permitted, Mirrors, DistinctUnordered;
    assert c.forward4 == ForwardChain(order);
    hide ForwardChain;
    forall k
      ensures Passes(c.forward4, k) <==> Permitted(order, k)
    {
      ForwardMeaning(order, k);
    }
    DropLast(order);
    SixPasses(c.forward6);
  }

  lemma SixPasses(chain: seq<ForwardRule>)
    requires chain == [] || chain == [Alert, CountAll]
    ensures forall k :: Passes(chain, k)
  {
    if chain != [] {
      forall k
        ensures Passes(chain, k)
      {
        PassesCons(Alert, [CountAll], k);
        PassesCons(CountAll, [], k);
        assert [Alert] + [CountAll] == chain && [CountAll] + [] == [CountAll];
      }
    }
  }

  /** Both names are interface names. */
  predicate Named(op: NatOp) {
    IsIfaceName(op.inner) && IsIfaceName(op.outer)
  }

  /** The pairs that are active after a request, if no command fails. */
  function ActiveWith(active: set<Pair>, op: NatOp): set<Pair> {
    var p := Pair(op.inner, op.outer);
    if !Named(op) then active
    else if op.Disable? then active - {p}
    else if op.inner == op.outer then active else active + {p}
  }

  /** The pairs that are active after a history. */
  function ActiveAfter(ops: seq<NatOp>): set<Pair> {
    if ops == [] then {} else ActiveWith(ActiveAfter(ops[..|ops| - 1]), ops[|ops| - 1])
  }

  /** Only active pairs are disabled. */
  predicate InOrder(ops: seq<NatOp>) {
    forall k :: 0 <= k < |ops| && ops[k].Disable? && Named(ops[k]) ==>
      Pair(ops[k].inner, ops[k].outer) in ActiveAfter(ops[..k])
  }

  lemma NoNatOps()
    ensures ActiveAfter([]) == {} && InOrder([])
  {}

  lemma OneMoreNatOp(ops: seq<NatOp>, k: nat)
    requires k < |ops|
    ensures ActiveAfter(ops[..k + 1]) == ActiveWith(ActiveAfter(ops[..k]), ops[k])
    ensures InOrder(ops[..k + 1]) <==>
      InOrder(ops[..k])
      && (ops[k].Disable? && Named(ops[k]) ==> Pair(ops[k].inner, ops[k].outer) in ActiveAfter(ops[..k]))
  {
    hide ActiveWith, Named;
    var more, had := ops[..k + 1], ops[..k];
    assert more[..k] == had;
    assert forall j :: 0 <= j < k ==> more[..j] == had[..j] && more[j] == had[j];
  }

  /** One request of a history. */
  method ApplyNat(t: TetherController, op: NatOp, ghost active: set<Pair>)
    requires t.Valid() && (!t.failed ==> forall p :: p in t.order <==> p in active)
    modifies t
    ensures t.Valid() && (old(t.failed) ==> t.failed) && (old(t.refused) ==> t.refused)
    ensures !t.failed ==> forall p :: p in t.order <==> p in ActiveWith(active, op)
    ensures !t.failed ==> (op.Disable? && Named(op) ==> Pair(op.inner, op.outer) in active)
    ensures !old(t.failed) && !t.refused && (op.Disable? && Named(op) ==> Pair(op.inner, op.outer) in active) ==>
      !t.failed
  {
    hide Ready;
    match op
    case Enable(inner, outer) => var _ := t.EnableNat(inner, outer);
    case Disable(inner, outer) => var _ := t.DisableNat(inner, outer);
  }

  /**
   * Over any history, unless iptables itself refuses a command: commands fail if and only if a pair is
   * disabled that is not active. If none failed, the active pairs are those of the history; the forward
   * chain has a single DROP, at its end, and passes exactly what the active pairs permit; every active
   * upstream is masqueraded; and the counting rules come in adjacent mirrored couples, each unordered
   * pair once.
   */
  method RunNat(ops: seq<NatOp>) returns (t: TetherController)
    ensures fresh(t) && t.Valid()
    ensures !t.refused ==> (t.failed <==> !InOrder(ops))
    ensures !t.failed ==> forall p :: p in t.order <==> p in ActiveAfter(ops)
    ensures !t.failed ==> Sound(t.chains, t.pairs, t.order, t.known)
  {
    hide Ready, Sound, ActiveWith, ActiveAfter, InOrder, Named;
    t := new TetherController();
    NoNatOps();
    for i := 0 to |ops|
      invariant fresh(t) && t.Valid()
      invariant !t.failed ==> forall p :: p in t.order <==> p in ActiveAfter(ops[..i])
      invariant (!t.failed ==> InOrder(ops[..i])) && (!t.refused && InOrder(ops[..i]) ==> !t.failed)
    {
      OneMoreNatOp(ops, i);
      ApplyNat(t, ops[i], ActiveAfter(ops[..i]));
    }
    assert ops[..|ops|] == ops;
    if !t.failed {
      ReadyIsSound(t.chains, t.pairs, t.order, t.known);
    }
  }

  lemma HelpersThere(raw: seq<RawRule>, inner: string)
    requires multiset{Ftp(inner), Pptp(inner)} <= multiset(raw)
    ensures DeleteAll(raw, [Ftp(inner), Pptp(inner)]).Some?
  {
    hide Delete;
    DeleteMeans(raw, Ftp(inner));
    assert Ftp(inner) in multiset(raw) && Pptp(inner) in multiset(raw);
    var rest := Delete(raw, Ftp(inner)).value;
    assert Pptp(inner) in multiset(rest);
    DeleteMeans(rest, Pptp(inner));
    assert [Ftp(inner), Pptp(inner)][1..] == [Pptp(inner)] && [Pptp(inner)][1..] == [];
    assert DeleteAll(rest, [Pptp(inner)]).Some?;
  }

  lemma HelpersOwned(c: Chains, order: seq<Pair>, inner: string)
    requires multiset(c.raw4) == SumSeq(order, RawFn())
    ensures var raw := DeleteAll(c.raw4, [Ftp(inner), Pptp(inner)]);
      (raw.Some? <==> exists q :: q in order && q.inner == inner) && (raw.Some? ==> |raw.value| < |c.raw4|)
  {
    hide DeleteAll, RawFn;
    var helpers := [Ftp(inner), Pptp(inner)];
    var raw := DeleteAll(c.raw4, helpers);
    if q :| q in order && q.inner == inner {
      SumSeqIncludes(order, RawFn(), q);
      FnValues(q);
      HelpersThere(c.raw4, inner);
    }
    if raw.Some? {
      DeleteAllMeans(c.raw4, helpers);
      assert Ftp(inner) in multiset(c.raw4);
      var q := SumSeqMember(order, RawFn(), Ftp(inner));
      FnValues(q);
      assert |multiset(c.raw4)| == |multiset(raw.value)| + |multiset(helpers)|;
    }
  }

  lemma FilterOwned(c: Chains, order: seq<Pair>, inner: string)
    requires multiset(c.raw6) == SumSeq(order, InnerFn())
    ensures var raw := Delete(c.raw6, inner);
      (raw.Some? <==> exists q :: q in order && q.inner == inner) && (raw.Some? ==> |raw.value| < |c.raw6|)
  {
    hide Delete, InnerFn;
    DeleteMeans(c.raw6, inner);
    if q :| q in order && q.inner == inner {
      SumSeqIncludes(order, InnerFn(), q);
      FnValues(q);
      assert inner in multiset(c.raw6);
    }
    if Delete(c.raw6, inner).Some? {
      assert inner in multiset(c.raw6);
      var q := SumSeqMember(order, InnerFn(), inner);
      FnValues(q);
      assert |multiset(c.raw6)| == |multiset(Delete(c.raw6, inner).value)| + 1;
    }
  }

  lemma CommittedOne(c: Chains, state: Option<Chains>)
    ensures Committed(c, [state]) == if state.Some? then state.value else c
  {
    assert [state][1..] == [];
  }

  /** What disabling a pair leaves when nothing but the commands themselves can fail. */
  function Disabled(c: Chains, p: Pair): Chains {
    var filtered := Committed(c, [RemoveFilter(c, p)]);
    Committed(filtered, RemoveRules(filtered, p))
  }

  /**
   * Disabling a pair that is not active takes away raw rules, in both families, exactly when some
   * active pair has the same downstream interface; every other chain stays as it was.
   */
  lemma DisableInactive(c: Chains, pairs: map<Pair, bool>, order: seq<Pair>, known: seq<Pair>, p: Pair)
    requires Ready(c, pairs, order, known, order != []) && p !in order
    ensures var after := Disabled(c, p);
      && after == c.(raw4 := after.raw4, raw6 := after.raw6)
      && (after.raw4 != c.raw4 <==> exists q :: q in order && q.inner == p.inner)
      && (after.raw6 != c.raw6 <==> exists q :: q in order && q.inner == p.inner)
  {
    hide RawFn, InnerFn, SumSeq, Blocks, Mirrors, DistinctUnordered, DeleteAll, Delete, Block, CountersOk;
    assert c.forward4 == ForwardChain(order);
    RemoveForwardFails(order, p);
    HelpersOwned(c, order, p.inner);
    FilterOwned(c, order, p.inner);
    var filtered := Committed(c, [RemoveFilter(c, p)]);
    CommittedOne(c, RemoveFilter(c, p));
    var raw := DeleteAll(c.raw4, [Ftp(p.inner), Pptp(p.inner)]);
    if raw.Some? {
      var c1 := filtered.(raw4 := raw.value);
      assert RemoveRules(filtered, p) == [Some(c1), None];
      assert RemoveRules(filtered, p)[1..] == [None];
      assert Committed(c1, [None]) == c1;
    }
  }
}
