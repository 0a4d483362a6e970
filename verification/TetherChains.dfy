/** The iptables chains of tethering, the commands that edit them, and what they do to packets. */
module TetherChains {
  import opened Fwmarks

  /** A downstream and an upstream interface. */
  datatype Pair = Pair(inner: string, outer: string) {
    function Swapped(): Pair {
      Pair(outer, inner)
    }
  }

  datatype ForwardRule =
    | Alert                  // jump to the global alert chain, which decides nothing
    | Replies(pair: Pair)    // upstream to downstream, ESTABLISHED or RELATED: go to the counters
    | Invalid(pair: Pair)    // downstream to upstream, INVALID: drop
    | Outgoing(pair: Pair)   // downstream to upstream: go to the counters
    | CountAll               // go to the counters
    | Drop

  datatype RawRule = Ftp(inner: string) | Pptp(inner: string)

  datatype CountRule = CountRule(input: string, output: string)

  datatype Chains = Chains(forward4: seq<ForwardRule>, forward6: seq<ForwardRule>, masquerade: seq<string>,
                           raw4: seq<RawRule>, raw6: seq<string>, counters4: seq<CountRule>, counters6: seq<CountRule>)

  // ---- commands -------------------------------------------------------------------------------------

  /** `-D`: removes the first rule equal to `x`, and fails if there is none. */
  function Delete<T(==)>(s: seq<T>, x: T): Option<seq<T>> {
    if s == [] then None
    else if s[0] == x then Some(s[1..])
    else
      var rest := Delete(s[1..], x);
      if rest.Some? then Some([s[0]] + rest.value) else None
  }

  function DeleteAll<T(==)>(s: seq<T>, xs: seq<T>): Option<seq<T>>
    decreases |xs|
  {
    if xs == [] then Some(s)
    else
      var rest := Delete(s, xs[0]);
      if rest.Some? then DeleteAll(rest.value, xs[1..]) else None
  }

  lemma {:induction false} DeleteMeans<T>(s: seq<T>, x: T)
    ensures Delete(s, x).Some? <==> x in s
    ensures Delete(s, x).Some? ==> multiset(s) == multiset(Delete(s, x).value) + multiset{x}
  {
    if s != [] {
      assert s == [s[0]] + s[1..];
      if s[0] != x {
        DeleteMeans(s[1..], x);
      }
    }
  }

  lemma {:induction false} DeleteAt<T>(a: seq<T>, x: T, b: seq<T>)
    requires x !in a
    ensures Delete(a + [x] + b, x) == Some(a + b)
  {
    var s := a + [x] + b;
    if a == [] {
      assert s[1..] == b == a + b;
    } else {
      assert s[1..] == a[1..] + [x] + b;
      DeleteAt(a[1..], x, b);
      assert [a[0]] + (a[1..] + b) == a + b;
    }
  }

  /** The rules of one active pair in the IPv4 forward chain. */
  function Block(p: Pair): seq<ForwardRule> {
    [Replies(p), Invalid(p), Outgoing(p)]
  }

  function Blocks(ps: seq<Pair>): seq<ForwardRule> {
    if ps == [] then [] else Block(ps[0]) + Blocks(ps[1..])
  }

  lemma {:induction false} BlocksJoin(a: seq<Pair>, b: seq<Pair>)
    ensures Blocks(a + b) == Blocks(a) + Blocks(b)
  {
    if a == [] {
      assert a + b == b;
    } else {
      assert (a + b)[1..] == a[1..] + b;
      BlocksJoin(a[1..], b);
      assert Block(a[0]) + (Blocks(a[1..]) + Blocks(b)) == Block(a[0]) + Blocks(a[1..]) + Blocks(b);
    }
  }

  /** A block's rules name its pair. */
  predicate Names(r: ForwardRule, p: Pair) {
    (r.Replies? || r.Invalid? || r.Outgoing?) && r.pair == p
  }

  lemma {:induction false} BlocksMember(ps: seq<Pair>, r: ForwardRule)
    ensures r in Blocks(ps) <==> exists p :: p in ps && Names(r, p)
  {
    if ps != [] {
      BlocksMember(ps[1..], r);
      assert r in Block(ps[0]) <==> Names(r, ps[0]);
      if p :| p in ps && Names(r, p) {
        assert p == ps[0] || p in ps[1..];
      }
    }
  }

  lemma DeleteAllStep<T>(a: seq<T>, x: T, b: seq<T>, xs: seq<T>)
    requires x !in a
    ensures DeleteAll(a + [x] + b, [x] + xs) == DeleteAll(a + b, xs)
  {
    DeleteAt(a, x, b);
    assert ([x] + xs)[1..] == xs;
  }

  /** Deleting a pair's three rules takes out its block and nothing else. */
  lemma DeleteBlock(pre: seq<ForwardRule>, p: Pair, post: seq<ForwardRule>)
    requires forall r :: r in pre ==> !Names(r, p)
    ensures DeleteAll(pre + Block(p) + post, Block(p)) == Some(pre + post)
  {
    hide DeleteAll;
    var r, i, o := Replies(p), Invalid(p), Outgoing(p);
    assert pre + Block(p) + post == pre + [r] + ([i, o] + post) && Block(p) == [r] + [i, o];
    DeleteAllStep(pre, r, [i, o] + post, [i, o]);
    assert pre + ([i, o] + post) == pre + [i] + ([o] + post) && [i, o] == [i] + [o];
    DeleteAllStep(pre, i, [o] + post, [o]);
    assert pre + ([o] + post) == pre + [o] + post && [o] == [o] + [];
    DeleteAllStep(pre, o, post, []);
    assert DeleteAll(pre + post, []) == Some(pre + post) by {
      DeleteNone(pre + post);
    }
  }

  lemma DeleteNone<T>(s: seq<T>)
    ensures DeleteAll(s, []) == Some(s)
  {}

  // ---- what the IPv4 forward chain does -----------------------------------------------------------------

  datatype ConnState = New | Established | Related | InvalidState

  datatype Forwarded = Forwarded(input: string, output: string, state: ConnState)

  predicate IsReply(k: Forwarded) {
    k.state.Established? || k.state.Related?
  }

  /** The verdict of one rule, if it gives one; reaching the counters lets the packet through. */
  function RuleVerdict(r: ForwardRule, k: Forwarded): Option<bool> {
    match r
    case Alert => None
    case Replies(p) => if k.input == p.outer && k.output == p.inner && IsReply(k) then Some(true) else None
    case Invalid(p) => if k.input == p.inner && k.output == p.outer && k.state.InvalidState? then Some(false) else None
    case Outgoing(p) => if k.input == p.inner && k.output == p.outer then Some(true) else None
    case CountAll => Some(true)
    case Drop => Some(false)
  }

  /** Whether a packet gets through a chain; running off its end returns to the calling chain. */
  function Passes(chain: seq<ForwardRule>, k: Forwarded): bool {
    if chain == [] then true
    else
      var v := RuleVerdict(chain[0], k);
      if v.Some? then v.value else Passes(chain[1..], k)
  }

  /** The chain of some active pairs, in the order they were enabled. */
  function ForwardChain(ps: seq<Pair>): seq<ForwardRule> {
    (if ps == [] then [] else [Alert]) + Blocks(ps) + [Drop]
  }

  /** The policy: out through an active pair unless INVALID, back in only as a reply. */
  ghost predicate Permitted(ps: seq<Pair>, k: Forwarded) {
    || (Pair(k.input, k.output) in ps && !k.state.InvalidState?)
    || (Pair(k.output, k.input) in ps && (k.state == Established || k.state == Related))
  }

  lemma PassesCons(r: ForwardRule, rest: seq<ForwardRule>, k: Forwarded)
    ensures Passes([r] + rest, k) == var v := RuleVerdict(r, k); if v.Some? then v.value else Passes(rest, k)
  {
    assert ([r] + rest)[1..] == rest;
  }

  /** The verdict of a pair's block followed by more rules. */
  lemma BlockPasses(p: Pair, rest: seq<ForwardRule>, k: Forwarded)
    ensures Passes(Block(p) + rest, k) ==
      if k.input == p.outer && k.output == p.inner && IsReply(k) then true
      else if k.input == p.inner && k.output == p.outer then !k.state.InvalidState?
      else Passes(rest, k)
  {
    hide Passes;
    assert Block(p) + rest == [Replies(p)] + ([Invalid(p)] + ([Outgoing(p)] + rest));
    PassesCons(Replies(p), [Invalid(p)] + ([Outgoing(p)] + rest), k);
    PassesCons(Invalid(p), [Outgoing(p)] + rest, k);
    PassesCons(Outgoing(p), rest, k);
  }

  lemma {:induction false} BlocksPass(ps: seq<Pair>, k: Forwarded)
    ensures Passes(Blocks(ps) + [Drop], k) <==> Permitted(ps, k)
  {
    if ps == [] {
      assert Blocks(ps) + [Drop] == [Drop];
    } else {
      BlocksPass(ps[1..], k);
      hide Passes;
      BlockPasses(ps[0], Blocks(ps[1..]) + [Drop], k);
      assert Blocks(ps) + [Drop] == Block(ps[0]) + (Blocks(ps[1..]) + [Drop]);
      hide Block, Blocks;
      assert ps == [ps[0]] + ps[1..];
    }
  }

  /**
   * Forwarding meaning: the chain lets a packet through exactly when an active pair permits it.
   */
  lemma ForwardMeaning(ps: seq<Pair>, k: Forwarded)
    ensures Passes(ForwardChain(ps), k) <==> Permitted(ps, k)
  {
    BlocksPass(ps, k);
    if ps == [] {
      assert ForwardChain(ps) == Blocks(ps) + [Drop];
    } else {
      assert ForwardChain(ps)[1..] == Blocks(ps) + [Drop];
    }
  }

  lemma DropLast(ps: seq<Pair>)
    ensures var chain := ForwardChain(ps); chain[|chain| - 1] == Drop && Drop !in chain[..|chain| - 1]
  {
    BlocksMember(ps, Drop);
    var chain := ForwardChain(ps);
    assert chain[..|chain| - 1] == (if ps == [] then [] else [Alert]) + Blocks(ps);
  }

  // ---- adding and removing a pair's rules ----------------------------------------------------------------

  function AddForward(chain: seq<ForwardRule>, p: Pair): Option<seq<ForwardRule>> {
    var moved := Delete(chain + Block(p), Drop);
    if moved.Some? then Some(moved.value + [Drop]) else None
  }

  /** Adding a pair's rules puts its block before the only DROP, which stays last. */
  lemma AddForwardMeans(head: seq<ForwardRule>, ps: seq<Pair>, p: Pair)
    requires Drop !in head
    ensures AddForward(head + Blocks(ps) + [Drop], p) == Some(head + Blocks(ps + [p]) + [Drop])
  {
    BlocksMember(ps, Drop);
    BlocksOne(p);
    BlocksJoin(ps, [p]);
    hide Blocks, Delete, Block;
    var pre := head + Blocks(ps);
    DeleteAt(pre, Drop, Block(p));
    assert pre + Block(p) == head + (Blocks(ps) + Block(p));
  }

  lemma BlocksOne(p: Pair)
    ensures Blocks([p]) == Block(p)
  {
    assert [p][1..] == [];
    assert Blocks([p]) == Block(p) + Blocks([]);
  }

  predicate Distinct(ps: seq<Pair>) {
    forall i, j :: 0 <= i < j < |ps| ==> ps[i] != ps[j]
  }

  lemma SplitAt(ps: seq<Pair>, p: Pair) returns (a: seq<Pair>, b: seq<Pair>)
    requires Distinct(ps) && p in ps
    ensures ps == a + [p] + b && p !in a + b && Distinct(a + b)
  {
    var k :| 0 <= k < |ps| && ps[k] == p;
    a, b := ps[..k], ps[k + 1..];
  }

  lemma BlocksAround(a: seq<Pair>, p: Pair, b: seq<Pair>)
    ensures Blocks(a + [p] + b) == Blocks(a) + Block(p) + Blocks(b)
  {
    BlocksJoin(a + [p], b);
    BlocksJoin(a, [p]);
    BlocksOne(p);
  }

  lemma BlocksAvoid(a: seq<Pair>, p: Pair)
    requires p !in a
    ensures forall r :: r in [Alert] + Blocks(a) ==> !Names(r, p)
  {
    forall r | r in [Alert] + Blocks(a)
      ensures !Names(r, p)
    {
      BlocksMember(a, r);
    }
  }

  /** Removing an active pair's rules leaves the rules of the other active pairs as they were. */
  lemma RemoveForwardMeans(a: seq<Pair>, p: Pair, b: seq<Pair>)
    requires p !in a
    ensures DeleteAll(ForwardChain(a + [p] + b), Block(p)) == Some([Alert] + Blocks(a + b) + [Drop])
  {
    hide Blocks, DeleteAll, Block, Names;
    BlocksJoin(a, b);
    BlocksAround(a, p, b);
    BlocksAvoid(a, p);
    var pre, post := [Alert] + Blocks(a), Blocks(b) + [Drop];
    DeleteBlock(pre, p, post);
    assert ForwardChain(a + [p] + b) == [Alert] + (Blocks(a) + Block(p) + Blocks(b)) + [Drop] == pre + Block(p) + post;
    assert pre + post == [Alert] + (Blocks(a) + Blocks(b)) + [Drop];
  }

  lemma RemoveForwardFails(ps: seq<Pair>, p: Pair)
    requires p !in ps
    ensures DeleteAll(ForwardChain(ps), Block(p)) == None
  {
    BlocksMember(ps, Replies(p));
    DeleteMeans(ForwardChain(ps), Replies(p));
  }

  // ---- counting rules -------------------------------------------------------------------------------------

  function Mirror(p: Pair): seq<CountRule> {
    [CountRule(p.inner, p.outer), CountRule(p.outer, p.inner)]
  }

  /** Adjacent mirrored rules, one pair after another. */
  function Mirrors(ps: seq<Pair>): seq<CountRule> {
    if ps == [] then [] else Mirrors(ps[..|ps| - 1]) + Mirror(ps[|ps| - 1])
  }

  predicate SamePair(p: Pair, q: Pair) {
    {p.inner, p.outer} == {q.inner, q.outer}
  }

  /** Each unordered pair occurs once, and no interface is paired with itself. */
  predicate DistinctUnordered(ps: seq<Pair>) {
    && (forall i, j :: 0 <= i < j < |ps| ==> !SamePair(ps[i], ps[j]))
    && (forall p :: p in ps ==> p.inner != p.outer && p.inner != "" && p.outer != "")
  }
}
