/** Reading the tethering counters back: the parser, the merging of both families, and the regrouping. */
module TetherStatistics {
  import opened Fwmarks
  import opened TetherChains
  import opened TetherControllers

  /** Received and transmitted bytes and packets; -1 stands for "not seen yet". */
  datatype Amount = Amount(rxBytes: int, rxPackets: int, txBytes: int, txPackets: int) {
    function Plus(that: Amount): Amount {
      Amount(rxBytes + that.rxBytes, rxPackets + that.rxPackets, txBytes + that.txBytes, txPackets + that.txPackets)
    }
  }

  const NOTHING := Amount(0, 0, 0, 0)
  const UNSEEN := Amount(-1, -1, -1, -1)

  datatype Stats = Stats(pair: Pair, amount: Amount)

  const EMPTY := Stats(Pair("", ""), UNSEEN)

  // ---- one entry per pair ---------------------------------------------------------------------------------

  function Added(list: seq<Stats>, s: Stats): seq<Stats> {
    if list == [] then [s]
    else if list[0].pair == s.pair then [Stats(s.pair, list[0].amount.Plus(s.amount))] + list[1..]
    else [list[0]] + Added(list[1..], s)
  }

  /** All that a list holds for one pair, and all that it holds. */
  function At(list: seq<Stats>, p: Pair): Amount {
    if list == [] then NOTHING else (if list[0].pair == p then list[0].amount else NOTHING).Plus(At(list[1..], p))
  }

  function Total(list: seq<Stats>): Amount {
    if list == [] then NOTHING else list[0].amount.Plus(Total(list[1..]))
  }

  predicate UniquePairs(list: seq<Stats>) {
    forall i, j :: 0 <= i < j < |list| ==> list[i].pair != list[j].pair
  }

  lemma AtCons(x: Stats, rest: seq<Stats>, p: Pair)
    ensures At([x] + rest, p) == (if x.pair == p then x.amount else NOTHING).Plus(At(rest, p))
    ensures Total([x] + rest) == x.amount.Plus(Total(rest))
  {
    assert ([x] + rest)[1..] == rest;
  }

  lemma AddedCons(x: Stats, rest: seq<Stats>, s: Stats)
    ensures Added([x] + rest, s) ==
      if x.pair == s.pair then [Stats(s.pair, x.amount.Plus(s.amount))] + rest else [x] + Added(rest, s)
  {
    assert ([x] + rest)[1..] == rest;
  }

  lemma AddedNone(s: Stats, p: Pair)
    ensures Added([], s) == [s] + [] && At([], p) == NOTHING && Total([]) == NOTHING
  {}

  lemma PlusLaws(a: Amount, b: Amount, c: Amount)
    ensures a.Plus(b).Plus(c) == a.Plus(b.Plus(c)) && a.Plus(c).Plus(b) == a.Plus(b).Plus(c)
    ensures a.Plus(NOTHING) == a && NOTHING.Plus(a) == a
  {}

  lemma {:induction false} AddedAt(list: seq<Stats>, s: Stats, p: Pair)
    ensures At(Added(list, s), p) == At(list, p).Plus(if p == s.pair then s.amount else NOTHING)
  {
    hide Added, At, Total, Amount.Plus;
    var gain := if p == s.pair then s.amount else NOTHING;
    if list == [] {
      AddedNone(s, p);
      AtCons(s, [], p);
      PlusLaws(gain, NOTHING, NOTHING);
    } else {
      var x, rest := list[0], list[1..];
      var had := if x.pair == p then x.amount else NOTHING;
      assert list == [x] + rest;
      AddedCons(x, rest, s);
      AtCons(x, rest, p);
      PlusLaws(had, At(rest, p), gain);
      if x.pair == s.pair {
        AtCons(Stats(s.pair, x.amount.Plus(s.amount)), rest, p);
        PlusLaws(NOTHING, NOTHING, NOTHING);
      } else {
        AddedAt(rest, s, p);
        AtCons(x, Added(rest, s), p);
      }
    }
  }

  lemma {:induction false} AddedTotal(list: seq<Stats>, s: Stats)
    ensures Total(Added(list, s)) == Total(list).Plus(s.amount)
  {
    hide Added, At, Total, Amount.Plus;
    if list == [] {
      AddedNone(s, s.pair);
      AtCons(s, [], s.pair);
      PlusLaws(s.amount, NOTHING, NOTHING);
    } else {
      var x, rest := list[0], list[1..];
      assert list == [x] + rest;
      AddedCons(x, rest, s);
      AtCons(x, rest, s.pair);
      PlusLaws(x.amount, Total(rest), s.amount);
      if x.pair == s.pair {
        AtCons(Stats(s.pair, x.amount.Plus(s.amount)), rest, s.pair);
      } else {
        AddedTotal(rest, s);
        AtCons(x, Added(rest, s), s.pair);
      }
    }
  }

  lemma {:induction false} AddedPairs(list: seq<Stats>, s: Stats)
    requires UniquePairs(list)
    ensures UniquePairs(Added(list, s))
    ensures forall x :: x in Added(list, s) ==> x.pair == s.pair || exists y :: y in list && y.pair == x.pair
  {
    if list != [] && list[0].pair != s.pair {
      AddedPairs(list[1..], s);
      var rest := Added(list[1..], s);
      forall x | x in rest
        ensures x.pair != list[0].pair
      {
        if x.pair != s.pair {
          var y :| y in list[1..] && y.pair == x.pair;
        }
      }
    }
  }

  /** The search passes over the entries of other pairs. */
  lemma {:induction false} AddedSkip(head: seq<Stats>, rest: seq<Stats>, s: Stats)
    requires forall x :: x in head ==> x.pair != s.pair
    ensures Added(head + rest, s) == head + Added(rest, s)
  {
    hide Added;
    if head == [] {
      assert head + rest == rest && head + Added(rest, s) == Added(rest, s);
    } else {
      AddedSkip(head[1..], rest, s);
      AddedCons(head[0], head[1..] + rest, s);
      assert head + rest == [head[0]] + (head[1..] + rest);
      assert head + Added(rest, s) == [head[0]] + (head[1..] + Added(rest, s));
    }
  }

  method AddStats(list: seq<Stats>, s: Stats) returns (more: seq<Stats>)
    ensures more == Added(list, s)
  {
    hide Added;
    for k := 0 to |list|
      invariant forall x :: x in list[..k] ==> x.pair != s.pair
    {
      if list[k].pair == s.pair {
        more := list[k := Stats(s.pair, list[k].amount.Plus(s.amount))];
        AddedSkip(list[..k], list[k..], s);
        AddedCons(list[k], list[k + 1..], s);
        assert list == list[..k] + list[k..] && list[k..] == [list[k]] + list[k + 1..];
        return;
      }
    }
    AddedSkip(list, [], s);
    AddedNone(s, s.pair);
    assert list + [] == list && list[..|list|] == list;
    more := list + [s];
  }

  // ---- the parser -------------------------------------------------------------------------------------------

  datatype Line = Counter(packets: nat, bytes: nat, input: string, output: string) | Blank | OtherText

  /** The state of the parser between lines: the list so far and a half-read couple. */
  datatype Parser = Parser(ok: bool, list: seq<Stats>, half: Stats)

  function Take(half: Stats, line: Line): Stats
    requires line.Counter?
  {
    if half.pair.inner == "" then
      Stats(Pair(line.input, line.output), half.amount.(txPackets := line.packets, txBytes := line.bytes))
    else if half.pair == Pair(line.output, line.input) then
      half.(amount := half.amount.(rxPackets := line.packets, rxBytes := line.bytes))
    else half
  }

  function Step(p: Parser, line: Line): Parser {
    if !p.ok || line.Blank? then p
    else if line.OtherText? then p.(ok := false)
    else
      var half := Take(p.half, line);
      if half.amount.rxBytes != -1 && half.amount.txBytes != -1 then Parser(true, Added(p.list, half), EMPTY)
      else p.(half := half)
  }

  function ParseAll(list: seq<Stats>, lines: seq<Line>): Parser {
    if lines == [] then Parser(true, list, EMPTY) else Step(ParseAll(list, lines[..|lines| - 1]), lines[|lines| - 1])
  }

  /** A listing is read successfully if every line is understood and no couple is left half-read. */
  predicate Succeeds(p: Parser) {
    p.ok && (p.half.amount.rxBytes == -1 <==> p.half.amount.txBytes == -1)
  }

  const HEADERS := 2

  /** What follows the two header lines. */
  function Body(lines: seq<Line>): seq<Line> {
    if |lines| <= HEADERS then [] else lines[HEADERS..]
  }

  predicate HeadersOk(lines: seq<Line>) {
    forall i :: 0 <= i < HEADERS && i < |lines| ==> !lines[i].Blank?
  }

  lemma BodyMore(lines: seq<Line>, k: nat)
    requires k < |lines|
    ensures Body(lines[..k + 1]) == if k < HEADERS then [] else Body(lines[..k]) + [lines[k]]
    ensures k >= HEADERS ==> Body(lines)[..k + 1 - HEADERS] == Body(lines[..k + 1])
  {}

  method AddForwardChainStats(list: seq<Stats>, lines: seq<Line>) returns (ret: int, more: seq<Stats>)
    ensures ret == 0 <==> HeadersOk(lines) && Succeeds(ParseAll(list, Body(lines)))
    ensures ret == 0 ==> more == ParseAll(list, Body(lines)).list
  {
    hide ParseAll;
    more := list;
    var half := EMPTY;
    var headerLine := 0;
    ParseNone(list);
    for k := 0 to |lines|
      invariant headerLine == if k < HEADERS then k else HEADERS
      invariant forall i :: 0 <= i < HEADERS && i < k ==> !lines[i].Blank?
      invariant ParseAll(list, Body(lines[..k])) == Parser(true, more, half)
    {
      BodyMore(lines, k);
      if headerLine < HEADERS {
        if lines[k].Blank? {
          return EREMOTEIO, more;
        }
        headerLine := headerLine + 1;
        continue;
      }
      ParseMore(list, Body(lines[..k]), lines[k]);
      match lines[k]
      case Blank => continue;
      case OtherText =>
        Stuck(list, Body(lines), k + 1 - HEADERS);
        return EREMOTEIO, more;
      case Counter(packets, bytes, input, output) =>
        if half.pair.inner == "" {
          half := Stats(Pair(input, output), half.amount.(txPackets := packets, txBytes := bytes));
        } else if half.pair.inner == output && half.pair.outer == input {
          half := half.(amount := half.amount.(rxPackets := packets, rxBytes := bytes));
        }
        if half.amount.rxBytes != -1 && half.amount.txBytes != -1 {
          more := AddStats(more, half);
          half := EMPTY;
        }
    }
    assert lines[..|lines|] == lines;
    ret := if (half.amount.rxBytes == -1) != (half.amount.txBytes == -1) then EREMOTEIO else 0;
  }

  lemma ParseNone(list: seq<Stats>)
    ensures ParseAll(list, []) == Parser(true, list, EMPTY)
  {}

  lemma ParseMore(list: seq<Stats>, lines: seq<Line>, line: Line)
    ensures ParseAll(list, lines + [line]) == Step(ParseAll(list, lines), line)
  {
    assert (lines + [line])[..|lines|] == lines;
  }

  lemma {:induction false} Stuck(list: seq<Stats>, lines: seq<Line>, k: nat)
    requires k <= |lines| && !ParseAll(list, lines[..k]).ok
    ensures !ParseAll(list, lines).ok
    decreases |lines|
  {
    if k == |lines| {
      assert lines[..k] == lines;
    } else {
      assert lines[..|lines| - 1][..k] == lines[..k];
      Stuck(list, lines[..|lines| - 1], k);
    }
  }

  // ---- reading a listing of the counters chain -----------------------------------------------------------------

  /** What one rule has counted. */
  datatype Count = Count(packets: nat, bytes: nat)

  /** The counts of the two rules of each couple. */
  datatype Couple = Couple(tx: Count, rx: Count)

  function CoupleStats(p: Pair, c: Couple): Stats {
    Stats(p, Amount(c.rx.bytes, c.rx.packets, c.tx.bytes, c.tx.packets))
  }

  function CoupleLines(p: Pair, c: Couple): seq<Line> {
    [Counter(c.tx.packets, c.tx.bytes, p.inner, p.outer), Counter(c.rx.packets, c.rx.bytes, p.outer, p.inner)]
  }

  /** The listing of a chain of adjacent mirrored rules. */
  function Listing(known: seq<Pair>, counts: seq<Couple>): (lines: seq<Line>)
    requires |known| == |counts|
    ensures |lines| == 2 * |known|
  {
    if known == [] then []
    else
      var n := |known| - 1;
      Listing(known[..n], counts[..n]) + CoupleLines(known[n], counts[n])
  }

  /** The chain's name and the column titles. */
  const HEADINGS: seq<Line> := [OtherText, OtherText]

  lemma WithHeadings(lines: seq<Line>)
    ensures HeadersOk(HEADINGS + lines) && Body(HEADINGS + lines) == lines
  {}

  /** The listing of a chain whose rules have counted `counts`. */
  function Show(chain: seq<CountRule>, counts: seq<Count>): seq<Line>
    requires |chain| == |counts|
  {
    seq(|chain|, i requires 0 <= i < |chain| =>
        Counter(counts[i].packets, counts[i].bytes, chain[i].input, chain[i].output))
  }

  /** The counts of adjacent rules, taken together. */
  function Couples(counts: seq<Count>): (c: seq<Couple>)
    requires |counts| % 2 == 0
    ensures |c| == |counts| / 2
  {
    if counts == [] then []
    else
      var n := |counts| - 2;
      Couples(counts[..n]) + [Couple(counts[n], counts[n + 1])]
  }

  lemma {:induction false} MirrorsLength(known: seq<Pair>)
    ensures |Mirrors(known)| == 2 * |known|
  {
    if known != [] {
      MirrorsLength(known[..|known| - 1]);
    }
  }

  /** A chain of mirrored rules is listed as a sequence of couples. */
  lemma {:induction false} ShowMirrors(known: seq<Pair>, counts: seq<Count>)
    requires |counts| == 2 * |known|
    ensures |Mirrors(known)| == 2 * |known| && |Couples(counts)| == |known|
    ensures Show(Mirrors(known), counts) == Listing(known, Couples(counts))
  {
    MirrorsLength(known);
    if known != [] {
      var n := |known| - 1;
      MirrorsLength(known[..n]);
      ShowMirrors(known[..n], counts[..2 * n]);
      var last := Couple(counts[2 * n], counts[2 * n + 1]);
      assert Couples(counts)[..n] == Couples(counts[..2 * n]) && Couples(counts)[n] == last;
      assert Show(Mirrors(known), counts) == Show(Mirrors(known[..n]), counts[..2 * n]) + CoupleLines(known[n], last);
    }
  }

  /** What reading the listing is meant to add to a list. */
  function Folded(list: seq<Stats>, known: seq<Pair>, counts: seq<Couple>): seq<Stats>
    requires |known| == |counts|
  {
    if known == [] then list
    else
      var n := |known| - 1;
      Added(Folded(list, known[..n], counts[..n]), CoupleStats(known[n], counts[n]))
  }

  lemma ReadCouple(p: Parser, pair: Pair, c: Couple)
    requires p.ok && p.half == EMPTY && pair.inner != ""
    ensures var lines := CoupleLines(pair, c);
      Step(Step(p, lines[0]), lines[1]) == Parser(true, Added(p.list, CoupleStats(pair, c)), EMPTY)
  {}

  /** The parser always succeeds on a listing of the chain, whatever the counts. */
  lemma {:induction false} ParsesListing(list: seq<Stats>, known: seq<Pair>, counts: seq<Couple>)
    requires |known| == |counts| && forall p :: p in known ==> p.inner != ""
    ensures ParseAll(list, Listing(known, counts)) == Parser(true, Folded(list, known, counts), EMPTY)
  {
    if known != [] {
      var n := |known| - 1;
      var before, couple := Listing(known[..n], counts[..n]), CoupleLines(known[n], counts[n]);
      ParsesListing(list, known[..n], counts[..n]);
      hide Step, Added, ParseAll;
      ReadCouple(ParseAll(list, before), known[n], counts[n]);
      ParseMore(list, before, couple[0]);
      ParseMore(list, before + [couple[0]], couple[1]);
      assert Listing(known, counts) == before + [couple[0]] + [couple[1]];
    }
  }

  // ---- conservation -----------------------------------------------------------------------------------------------

  function CountsTotal(counts: seq<Couple>): Amount {
    if counts == [] then NOTHING
    else
      var c := counts[|counts| - 1];
      CountsTotal(counts[..|counts| - 1]).Plus(Amount(c.rx.bytes, c.rx.packets, c.tx.bytes, c.tx.packets))
  }

  function CountAt(known: seq<Pair>, counts: seq<Couple>, p: Pair): Amount
    requires |known| == |counts|
  {
    if known == [] then NOTHING
    else
      var n := |known| - 1;
      CountAt(known[..n], counts[..n], p).Plus(if known[n] == p then CoupleStats(p, counts[n]).amount else NOTHING)
  }

  /** In a chain where each pair occurs once, a pair's count is that of its own couple. */
  lemma {:induction false} CountAtOwn(known: seq<Pair>, counts: seq<Couple>, k: nat)
    requires |known| == |counts| && k < |known| && DistinctUnordered(known)
    ensures CountAt(known, counts, known[k]) == CoupleStats(known[k], counts[k]).amount
  {
    var n := |known| - 1;
    if k < n {
      CountAtOwn(known[..n], counts[..n], k);
      assert !SamePair(known[k], known[n]);
    } else {
      CountAtNone(known[..n], counts[..n], known[k]);
    }
  }

  lemma {:induction false} CountAtNone(known: seq<Pair>, counts: seq<Couple>, p: Pair)
    requires |known| == |counts| && (p in known ==> false)
    ensures CountAt(known, counts, p) == NOTHING
  {
    if known != [] {
      CountAtNone(known[..|known| - 1], counts[..|known| - 1], p);
    }
  }

  lemma {:induction false} FoldedAt(list: seq<Stats>, known: seq<Pair>, counts: seq<Couple>, p: Pair)
    requires |known| == |counts|
    ensures At(Folded(list, known, counts), p) == At(list, p).Plus(CountAt(known, counts, p))
  {
    if known == [] {
      PlusLaws(At(list, p), NOTHING, NOTHING);
    } else {
      hide At, Added, Amount.Plus;
      var n := |known| - 1;
      FoldedAt(list, known[..n], counts[..n], p);
      AddedAt(Folded(list, known[..n], counts[..n]), CoupleStats(known[n], counts[n]), p);
      PlusLaws(At(list, p), CountAt(known[..n], counts[..n], p), if known[n] == p then CoupleStats(p, counts[n]).amount
               else NOTHING);
    }
  }

  lemma {:induction false} FoldedTotal(list: seq<Stats>, known: seq<Pair>, counts: seq<Couple>)
    requires |known| == |counts|
    ensures Total(Folded(list, known, counts)) == Total(list).Plus(CountsTotal(counts))
  {
    if known == [] {
      PlusLaws(Total(list), NOTHING, NOTHING);
    } else {
      hide Total, Added, Amount.Plus;
      var n := |known| - 1;
      FoldedTotal(list, known[..n], counts[..n]);
      AddedTotal(Folded(list, known[..n], counts[..n]), CoupleStats(known[n], counts[n]));
      PlusLaws(Total(list), CountsTotal(counts[..n]), CoupleStats(known[n], counts[n]).amount);
    }
  }

  lemma {:induction false} FoldedUnique(list: seq<Stats>, known: seq<Pair>, counts: seq<Couple>)
    requires |known| == |counts| && UniquePairs(list)
    ensures UniquePairs(Folded(list, known, counts))
  {
    hide UniquePairs, Added;
    if known != [] {
      var n := |known| - 1;
      FoldedUnique(list, known[..n], counts[..n]);
      AddedPairs(Folded(list, known[..n], counts[..n]), CoupleStats(known[n], counts[n]));
    }
  }

  /** Both families together. */
  lemma BothFamilies(known: seq<Pair>, v4: seq<Couple>, v6: seq<Couple>, p: Pair)
    requires |v4| == |v6| == |known|
    ensures var list := Folded(Folded([], known, v4), known, v6);
      && UniquePairs(list) && At(list, p) == CountAt(known, v4, p).Plus(CountAt(known, v6, p))
      && Total(list) == CountsTotal(v4).Plus(CountsTotal(v6))
  {
    hide At, Total, Folded, CountAt, CountsTotal;
    FoldedAt([], known, v4, p);
    FoldedTotal([], known, v4);
    FoldedAt(Folded([], known, v4), known, v6, p);
    FoldedTotal(Folded([], known, v4), known, v6);
    FoldedUnique([], known, v4);
    FoldedUnique(Folded([], known, v4), known, v6);
    AddedNone(EMPTY, p);
  }

  /** The amounts that both families counted for each known pair, and nothing else. */
  ghost predicate Faithful(list: seq<Stats>, known: seq<Pair>, v4: seq<Couple>, v6: seq<Couple>)
    requires |v4| == |v6| == |known|
  {
    && UniquePairs(list)
    && (forall k :: 0 <= k < |known| ==>
          At(list, known[k]) == CoupleStats(known[k], v4[k]).amount.Plus(CoupleStats(known[k], v6[k]).amount))
    && Total(list) == CountsTotal(v4).Plus(CountsTotal(v6))
  }

  lemma FoldedFaithful(known: seq<Pair>, v4: seq<Couple>, v6: seq<Couple>)
    requires |v4| == |v6| == |known| && DistinctUnordered(known)
    ensures Faithful(Folded(Folded([], known, v4), known, v6), known, v4, v6)
  {
    hide Folded, DistinctUnordered, At, CountAt, Total, CountsTotal, UniquePairs;
    BothFamilies(known, v4, v6, Pair("", ""));
    forall k | 0 <= k < |known|
      ensures At(Folded(Folded([], known, v4), known, v6), known[k])
           == CoupleStats(known[k], v4[k]).amount.Plus(CoupleStats(known[k], v6[k]).amount)
    {
      BothFamilies(known, v4, v6, known[k]);
      CountAtOwn(known, v4, k);
      CountAtOwn(known, v6, k);
    }
  }

  /**
   * Reads both families' listings of the counters chain. On chains of adjacent mirrored rules, each
   * unordered pair once, it always succeeds, keeps one entry per pair holding the sum of both
   * families, and loses or invents nothing.
   */
  method GetTetherStats(chain4: seq<CountRule>, counts4: seq<Count>, chain6: seq<CountRule>, counts6: seq<Count>,
                        ghost known: seq<Pair>)
    returns (ret: int, list: seq<Stats>)
    requires |counts4| == |chain4| && |counts6| == |chain6|
    ensures chain4 == chain6 == Mirrors(known) && DistinctUnordered(known) ==>
      && ret == 0 && |counts4| == |counts6| == 2 * |known|
      && Faithful(list, known, Couples(counts4), Couples(counts6))
  {
    hide Listing, Folded, ParseAll, DistinctUnordered, Faithful, Mirrors, Show, Couples, Body, HeadersOk;
    WithHeadings(Show(chain4, counts4));
    WithHeadings(Show(chain6, counts6));
    ret, list := AddForwardChainStats([], HEADINGS + Show(chain4, counts4));
    ghost var mirrored := chain4 == chain6 == Mirrors(known) && DistinctUnordered(known);
    if mirrored {
      MirrorsLength(known);
      NamesKnown(known);
      ShowMirrors(known, counts4);
      ParsesListing([], known, Couples(counts4));
      ShowMirrors(known, counts6);
      ParsesListing(list, known, Couples(counts6));
      FoldedFaithful(known, Couples(counts4), Couples(counts6));
    }
    if ret != 0 {
      return;
    }
    ret, list := AddForwardChainStats(list, HEADINGS + Show(chain6, counts6));
  }

  lemma NamesKnown(known: seq<Pair>)
    requires DistinctUnordered(known)
    ensures forall p :: p in known ==> p.inner != ""
  {}

  // ---- regrouping by upstream -----------------------------------------------------------------------------------

  datatype Parcel = Parcel(iface: string, amount: Amount)

  /** All that a list holds for one upstream. */
  function OnUpstream(list: seq<Stats>, outer: string): Amount {
    if list == [] then NOTHING
    else
      var n := |list| - 1;
      OnUpstream(list[..n], outer).Plus(if list[n].pair.outer == outer then list[n].amount else NOTHING)
  }

  ghost function MapTotal(m: map<string, Amount>): Amount {
    if m == map[] then NOTHING else
      var k :| k in m;
      m[k].Plus(MapTotal(m - {k}))
  }

  lemma PlusSwap(a: Amount, b: Amount, c: Amount)
    ensures a.Plus(b.Plus(c)) == b.Plus(a.Plus(c))
  {}

  lemma {:induction false} MapTotalPick(m: map<string, Amount>, k: string)
    requires k in m
    ensures MapTotal(m) == m[k].Plus(MapTotal(m - {k}))
    decreases |m|
  {
    var j :| j in m && MapTotal(m) == m[j].Plus(MapTotal(m - {j}));
    if j != k {
      MapTotalPick(m - {j}, k);
      MapTotalPick(m - {k}, j);
      hide MapTotal;
      assert m - {j} - {k} == m - {k} - {j};
      PlusSwap(m[j], m[k], MapTotal(m - {j} - {k}));
    }
  }

  lemma MapTotalUpdate(m: map<string, Amount>, k: string, v: Amount)
    ensures k in m ==> MapTotal(m[k := m[k].Plus(v)]) == MapTotal(m).Plus(v)
    ensures k !in m ==> MapTotal(m[k := v]) == MapTotal(m).Plus(v)
  {
    hide MapTotal;
    if k in m {
      MapTotalPick(m, k);
      MapTotalPick(m[k := m[k].Plus(v)], k);
      assert m[k := m[k].Plus(v)] - {k} == m - {k};
    } else {
      MapTotalPick(m[k := v], k);
      assert m[k := v] - {k} == m;
    }
  }

  lemma UpstreamMore(list: seq<Stats>, s: Stats, outer: string)
    ensures OnUpstream(list + [s], outer)
      == OnUpstream(list, outer).Plus(if s.pair.outer == outer then s.amount else NOTHING)
  {
    assert (list + [s])[..|list|] == list;
  }

  lemma {:induction false} TotalMore(list: seq<Stats>, s: Stats)
    ensures Total(list + [s]) == Total(list).Plus(s.amount)
  {
    if list != [] {
      TotalMore(list[1..], s);
      assert (list + [s])[1..] == list[1..] + [s];
    } else {
      assert ([] + [s])[1..] == [];
    }
  }

  function ParcelTotal(parcels: seq<Parcel>): Amount {
    if parcels == [] then NOTHING else ParcelTotal(parcels[..|parcels| - 1]).Plus(parcels[|parcels| - 1].amount)
  }

  lemma ParcelMore(parcels: seq<Parcel>, p: Parcel)
    ensures ParcelTotal(parcels + [p]) == ParcelTotal(parcels).Plus(p.amount)
  {
    assert (parcels + [p])[..|parcels|] == parcels;
  }

  /** The groups hold what a list has for each upstream. */
  ghost predicate Grouped(list: seq<Stats>, groups: map<string, Amount>) {
    && (forall x :: x in groups ==> groups[x] == OnUpstream(list, x))
    && (forall x :: x !in groups ==> OnUpstream(list, x) == NOTHING)
    && (forall s :: s in list ==> s.pair.outer in groups)
    && MapTotal(groups) == Total(list)
  }

  lemma GroupMore(list: seq<Stats>, groups: map<string, Amount>, s: Stats)
    requires Grouped(list, groups)
    ensures Grouped(list + [s], if s.pair.outer in groups
                    then groups[s.pair.outer := groups[s.pair.outer].Plus(s.amount)]
                                else groups[s.pair.outer := s.amount])
  {
    hide OnUpstream, MapTotal, Total;
    TotalMore(list, s);
    MapTotalUpdate(groups, s.pair.outer, s.amount);
    forall x
      ensures OnUpstream(list + [s], x) == OnUpstream(list, x).Plus(if s.pair.outer == x then s.amount else NOTHING)
    {
      UpstreamMore(list, s, x);
    }
  }

  /** Sums per upstream: the first loop, over the list. */
  method GroupByUpstream(list: seq<Stats>) returns (groups: map<string, Amount>)
    ensures Grouped(list, groups)
  {
    groups := map[];
    for k := 0 to |list|
      invariant Grouped(list[..k], groups)
    {
      hide Grouped;
      var s := list[k];
      GroupMore(list[..k], groups, s);
      assert list[..k + 1] == list[..k] + [s];
      if s.pair.outer in groups {
        groups := groups[s.pair.outer := groups[s.pair.outer].Plus(s.amount)];
      } else {
        groups := groups[s.pair.outer := s.amount];
      }
    }
    assert list[..|list|] == list;
  }

  /** The order of a sorted map of strings. */
  predicate Before(a: string, b: string) {
    b != "" && (a == "" || a[0] < b[0] || (a[0] == b[0] && Before(a[1..], b[1..])))
  }

  lemma {:induction false} BeforeTotal(a: string, b: string)
    ensures Before(a, b) || Before(b, a) || a == b
    ensures !(Before(a, b) && Before(b, a)) && (a == b ==> !Before(a, b))
  {
    if a != "" && b != "" {
      BeforeTotal(a[1..], b[1..]);
      assert a == [a[0]] + a[1..] && b == [b[0]] + b[1..];
    }
  }

  lemma {:induction false} BeforeTrans(a: string, b: string, c: string)
    requires Before(a, b) && Before(b, c)
    ensures Before(a, c)
  {
    if a != "" && a[0] == b[0] == c[0] {
      BeforeTrans(a[1..], b[1..], c[1..]);
    }
  }

  /** The first key of a sorted map. */
  method FirstKey(m: map<string, Amount>) returns (x: string)
    requires m != map[]
    ensures x in m && forall y :: y in m && y != x ==> Before(x, y)
  {
    hide Before;
    x :| x in m;
    var todo := m.Keys - {x};
    while todo != {}
      invariant x in m && x !in todo && todo <= m.Keys
      invariant forall y :: y in m && y !in todo && y != x ==> Before(x, y)
    {
      var y :| y in todo;
      BeforeTotal(x, y);
      todo := todo - {y};
      if Before(y, x) {
        forall z | z in m && z !in todo && z != y
          ensures Before(y, z)
        {
          if z != x {
            BeforeTrans(y, x, z);
          }
        }
        x := y;
      }
    }
  }

  /** One parcel per upstream, in order, holding the sum over its pairs; nothing is lost on the way. */
  method StatsByInterface(list: seq<Stats>) returns (parcels: seq<Parcel>)
    ensures forall i, j :: 0 <= i < j < |parcels| ==> Before(parcels[i].iface, parcels[j].iface)
    ensures forall i :: 0 <= i < |parcels| ==> parcels[i].amount == OnUpstream(list, parcels[i].iface)
    ensures forall s :: s in list ==> exists i :: 0 <= i < |parcels| && parcels[i].iface == s.pair.outer
    ensures ParcelTotal(parcels) == Total(list)
  {
    hide MapTotal, Total, OnUpstream, ParcelTotal, Before;
    var groups := GroupByUpstream(list);
    var todo := groups;
    parcels := [];
    NoParcels();
    while todo != map[]
      invariant Emitted(list, groups, todo, parcels)
      decreases |todo|
    {
      hide Emitted;
      var x := FirstKey(todo);
      EmitMore(list, groups, todo, parcels, x);
      parcels := parcels + [Parcel(x, todo[x])];
      todo := todo - {x};
    }
  }

  /** The parcels written so far come before the groups still to be written. */
  ghost predicate Emitted(list: seq<Stats>, groups: map<string, Amount>, todo: map<string, Amount>,
                          parcels: seq<Parcel>) {
    && (forall x :: x in todo ==> x in groups && todo[x] == groups[x] == OnUpstream(list, x))
    && (forall x :: x in groups ==> x in todo || exists i :: 0 <= i < |parcels| && parcels[i].iface == x)
    && (forall i :: 0 <= i < |parcels| ==> parcels[i].amount == OnUpstream(list, parcels[i].iface))
    && (forall i, x :: 0 <= i < |parcels| && x in todo ==> Before(parcels[i].iface, x))
    && (forall i, j :: 0 <= i < j < |parcels| ==> Before(parcels[i].iface, parcels[j].iface))
    && ParcelTotal(parcels).Plus(MapTotal(todo)) == Total(list)
  }

  lemma EmitMore(list: seq<Stats>, groups: map<string, Amount>, todo: map<string, Amount>, parcels: seq<Parcel>,
                 x: string)
    requires Emitted(list, groups, todo, parcels) && x in todo && forall y :: y in todo && y != x ==> Before(x, y)
    ensures Emitted(list, groups, todo - {x}, parcels + [Parcel(x, todo[x])])
  {
    hide MapTotal, Total, OnUpstream, ParcelTotal, Amount.Plus, Before;
    MapTotalPick(todo, x);
    ParcelMore(parcels, Parcel(x, todo[x]));
    PlusLaws(ParcelTotal(parcels), todo[x], MapTotal(todo - {x}));
    var more := parcels + [Parcel(x, todo[x])];
    assert more[|parcels|].iface == x;
    forall y | y in groups
      ensures y in todo - {x} || exists i :: 0 <= i < |more| && more[i].iface == y
    {
      if y !in todo {
        var i :| 0 <= i < |parcels| && parcels[i].iface == y;
        assert more[i].iface == y;
      }
    }
  }

  lemma NoParcels()
    ensures ParcelTotal([]) == NOTHING && MapTotal(map[]) == NOTHING
  {}

  // ---- end to end ---------------------------------------------------------------------------------------------------

  lemma CountersMirrored(c: Chains, pairs: map<Pair, bool>, order: seq<Pair>, known: seq<Pair>)
    requires Ready(c, pairs, order, known, order != [])
    ensures c.counters4 == c.counters6 == Mirrors(known) && DistinctUnordered(known)
  {}

  /**
   * After any enable/disable history in which iptables did not fail, and whatever the rules have
   * counted, the statistics are read successfully, and what is reported per upstream adds up to
   * what both families' counters hold.
   */
  method ReportAfterHistory(t: TetherController, counts4: seq<Count>, counts6: seq<Count>)
    returns (ret: int, parcels: seq<Parcel>)
    requires t.Valid() && |counts4| == |t.chains.counters4| && |counts6| == |t.chains.counters6|
    ensures !t.failed ==>
      && ret == 0 && |counts4| % 2 == |counts6| % 2 == 0
      && ParcelTotal(parcels) == CountsTotal(Couples(counts4)).Plus(CountsTotal(Couples(counts6)))
  {
    hide Ready, ParcelTotal, CountsTotal, Couples, At, Total, Mirrors, DistinctUnordered, UniquePairs, OnUpstream;
    if !t.failed {
      CountersMirrored(t.chains, t.pairs, t.order, t.known);
    }
    var list: seq<Stats>;
    ret, list := GetTetherStats(t.chains.counters4, counts4, t.chains.counters6, counts6, t.known);
    parcels := StatsByInterface(list);
  }
}
