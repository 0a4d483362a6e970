/** Rule requests as netlink messages: assembling them from parts, and reading attributes back. */
module Netlinks {
  import opened Fwmarks

  type Byte = b: int | 0 <= b < 256

  const U32_LIMIT := 0x1_0000_0000
  const ALIGNTO := 4
  const NLMSG_HEADER := 16
  const RULE_HEADER := 12
  const RTA_HEADER := 4
  const NAME_LIMIT := 16

  const FRA_IIFNAME := 3
  const FRA_PRIORITY := 6
  const FRA_FWMARK := 10
  const FRA_TABLE := 15
  const FRA_FWMASK := 16
  const FRA_OIFNAME := 17
  const FRA_UID_RANGE := 20

  const ENAMETOOLONG := -36
  const ERANGE := -34
  const ENOTUNIQ := -76
  const EUSERS := -87

  const INVALID_UID := 0xFFFF_FFFF

  // ---- little-endian numbers --------------------------------------------------------------------------

  function Pow256(k: nat): nat {
    if k == 0 then 1 else 256 * Pow256(k - 1)
  }

  function LE(n: nat, k: nat): (s: seq<Byte>)
    ensures |s| == k
  {
    if k == 0 then [] else [n % 256] + LE(n / 256, k - 1)
  }

  function FromLE(s: seq<Byte>): nat {
    if s == [] then 0 else s[0] + 256 * FromLE(s[1..])
  }

  lemma {:induction false} RoundTripLE(n: nat, k: nat)
    requires n < Pow256(k)
    ensures FromLE(LE(n, k)) == n
  {
    if k > 0 {
      RoundTripLE(n / 256, k - 1);
      assert LE(n, k)[1..] == LE(n / 256, k - 1);
    }
  }

  lemma WordSizes()
    ensures Pow256(2) == 0x10000 && Pow256(4) == U32_LIMIT
  {
    assert Pow256(1) == 256;
    assert Pow256(2) == 256 * Pow256(1);
    assert Pow256(3) == 256 * Pow256(2);
    assert Pow256(4) == 256 * Pow256(3);
  }

  // ---- attributes ---------------------------------------------------------------------------------------

  datatype Attr = Attr(kind: nat, payload: seq<Byte>)

  predicate AttrOk(a: Attr) {
    a.kind < 0x10000 && RTA_HEADER + |a.payload| < 0x10000
  }

  function Padding(n: nat): nat {
    (ALIGNTO - n % ALIGNTO) % ALIGNTO
  }

  function Align(n: nat): nat {
    n + Padding(n)
  }

  lemma AlignMeans(n: nat)
    ensures Align(n) % ALIGNTO == 0 && n <= Align(n) < n + ALIGNTO
  {}

  function Zeros(n: nat): (s: seq<Byte>)
    ensures |s| == n
  {
    if n == 0 then [] else [0] + Zeros(n - 1)
  }

  function AttrHead(a: Attr): (s: seq<Byte>)
    ensures |s| == RTA_HEADER
  {
    LE(RTA_HEADER + |a.payload|, 2) + LE(a.kind, 2)
  }

  function EncodeAttr(a: Attr): (s: seq<Byte>)
    ensures |s| == Align(RTA_HEADER + |a.payload|)
  {
    AttrHead(a) + a.payload + Zeros(Padding(RTA_HEADER + |a.payload|))
  }

  function EncodeAll(attrs: seq<Attr>): seq<Byte> {
    if attrs == [] then [] else EncodeAttr(attrs[0]) + EncodeAll(attrs[1..])
  }

  // ---- reading an attribute -------------------------------------------------------------------------------

  /** `Fault` is a read outside the message. */
  datatype Lookup = Found(value: nat) | Missing | Fault

  function Slice(s: seq<Byte>, pos: nat, n: nat): seq<Byte>
    requires pos + n <= |s|
  {
    s[pos..pos + n]
  }

  /**
   * The walk over the attributes from `pos` on, `len` bytes remaining. The remaining length is
   * unsigned and wraps around if an attribute's padding is missing at the end.
   */
  function Walk(msg: seq<Byte>, pos: nat, len: nat, kind: nat): Lookup
    decreases if pos <= |msg| then |msg| - pos else 0
  {
    if len < RTA_HEADER then Missing
    else if pos + RTA_HEADER > |msg| then Fault
    else
      var size, found := FromLE(Slice(msg, pos, 2)), FromLE(Slice(msg, pos + 2, 2));
      if size < RTA_HEADER || size > len then Missing
      else if found == kind then
        if pos + RTA_HEADER + 4 <= |msg| then Found(FromLE(Slice(msg, pos + RTA_HEADER, 4))) else Fault
      else Walk(msg, pos + Align(size), (len - Align(size)) % U32_LIMIT, kind)
  }

  /** Every attribute of the kind has a whole 32-bit value. */
  predicate Readable(attrs: seq<Attr>, kind: nat) {
    forall i :: 0 <= i < |attrs| && attrs[i].kind == kind ==> |attrs[i].payload| >= 4
  }

  /** Attributes that fit their length and kind fields. */
  predicate Fitting(attrs: seq<Attr>) {
    forall i :: 0 <= i < |attrs| ==> AttrOk(attrs[i])
  }

  /** What reading an attribute is meant to give: the first one of its kind. */
  function LookIn(attrs: seq<Attr>, kind: nat): Lookup
    requires Readable(attrs, kind)
  {
    if attrs == [] then Missing
    else if attrs[0].kind == kind then Found(FromLE(attrs[0].payload[..4]))
    else LookIn(attrs[1..], kind)
  }

  /** The fields of an encoded attribute, wherever it stands in a message. */
  lemma AttrFields(pre: seq<Byte>, a: Attr, post: seq<Byte>)
    requires AttrOk(a)
    ensures var msg := pre + EncodeAttr(a) + post;
      && FromLE(Slice(msg, |pre|, 2)) == RTA_HEADER + |a.payload| && FromLE(Slice(msg, |pre| + 2, 2)) == a.kind
      && (|a.payload| >= 4 ==> Slice(msg, |pre| + RTA_HEADER, 4) == a.payload[..4])
  {
    WordSizes();
    RoundTripLE(RTA_HEADER + |a.payload|, 2);
    RoundTripLE(a.kind, 2);
    hide LE, FromLE, Zeros, Pow256;
    var msg := pre + EncodeAttr(a) + post;
    assert Slice(msg, |pre|, 2) == LE(RTA_HEADER + |a.payload|, 2);
    assert Slice(msg, |pre| + 2, 2) == LE(a.kind, 2);
    if |a.payload| >= 4 {
      assert Slice(msg, |pre| + RTA_HEADER, 4) == a.payload[..4];
    }
  }

  /** One step of the walk, on an attribute that fits. */
  lemma WalkStep(msg: seq<Byte>, pos: nat, len: nat, kind: nat)
    requires RTA_HEADER <= len && pos + RTA_HEADER <= |msg| && RTA_HEADER <= FromLE(Slice(msg, pos, 2)) <= len
    ensures var size := FromLE(Slice(msg, pos, 2));
      Walk(msg, pos, len, kind) ==
        if FromLE(Slice(msg, pos + 2, 2)) == kind then
          if pos + RTA_HEADER + 4 <= |msg| then Found(FromLE(Slice(msg, pos + RTA_HEADER, 4))) else Fault
        else Walk(msg, pos + Align(size), (len - Align(size)) % U32_LIMIT, kind)
  {
    hide FromLE, Slice, Align;
  }

  lemma EncodeHead(attrs: seq<Attr>)
    requires attrs != []
    ensures EncodeAll(attrs) == EncodeAttr(attrs[0]) + EncodeAll(attrs[1..])
  {}

  lemma Unwrapped(n: nat, len: nat)
    requires n <= len < U32_LIMIT
    ensures (len - n) % U32_LIMIT == len - n
  {}

  /** The walk at an assembled attribute: it reads its value or moves on to what follows it. */
  lemma WalkOne(pre: seq<Byte>, a: Attr, rest: seq<Byte>, kind: nat)
    requires AttrOk(a) && (a.kind == kind ==> |a.payload| >= 4) && |EncodeAttr(a)| + |rest| < U32_LIMIT
    ensures Walk(pre + EncodeAttr(a) + rest, |pre|, |EncodeAttr(a)| + |rest|, kind) ==
      if a.kind == kind then Found(FromLE(a.payload[..4]))
      else Walk(pre + EncodeAttr(a) + rest, |pre| + |EncodeAttr(a)|, |rest|, kind)
  {
    hide EncodeAttr, FromLE, Slice, Walk, Align;
    AttrFields(pre, a, rest);
    AlignMeans(RTA_HEADER + |a.payload|);
    WalkStep(pre + EncodeAttr(a) + rest, |pre|, |EncodeAttr(a)| + |rest|, kind);
    Unwrapped(|EncodeAttr(a)|, |EncodeAttr(a)| + |rest|);
  }

  lemma LookStep(attrs: seq<Attr>, kind: nat)
    requires attrs != [] && Readable(attrs, kind)
    ensures Readable(attrs[1..], kind) && (attrs[0].kind == kind ==> |attrs[0].payload| >= 4)
    ensures LookIn(attrs, kind)
      == if attrs[0].kind == kind then Found(FromLE(attrs[0].payload[..4])) else LookIn(attrs[1..], kind)
  {
    hide FromLE;
  }

  lemma FittingTail(attrs: seq<Attr>)
    requires attrs != [] && Fitting(attrs)
    ensures AttrOk(attrs[0]) && Fitting(attrs[1..])
  {}

  lemma WalkAt(msg: seq<Byte>, pos: nat, a: Attr, rest: seq<Byte>, kind: nat)
    requires pos <= |msg| && msg[pos..] == EncodeAttr(a) + rest
    requires AttrOk(a) && (a.kind == kind ==> |a.payload| >= 4) && |EncodeAttr(a)| + |rest| < U32_LIMIT
    ensures pos + |EncodeAttr(a)| <= |msg| && msg[pos + |EncodeAttr(a)|..] == rest
    ensures Walk(msg, pos, |EncodeAttr(a)| + |rest|, kind) ==
      if a.kind == kind then Found(FromLE(a.payload[..4])) else Walk(msg, pos + |EncodeAttr(a)|, |rest|, kind)
  {
    hide EncodeAttr, FromLE, Walk, Align, AttrOk;
    assert msg == msg[..pos] + msg[pos..];
    assert msg == msg[..pos] + EncodeAttr(a) + rest;
    WalkOne(msg[..pos], a, rest, kind);
  }

  lemma NoAttrs(kind: nat)
    ensures EncodeAll([]) == [] && Readable([], kind) && LookIn([], kind) == Missing
  {}

  lemma Regroup(head: seq<Byte>, others: seq<Byte>, tail: seq<Byte>)
    ensures head + others + tail == head + (others + tail)
    ensures |head + others| + |tail| == |head| + |others + tail| && |others + tail| == |others| + |tail|
  {}

  /** Whatever follows them, the walk gives the first assembled attribute of its kind, or goes on after them. */
  lemma {:induction false} WalkThrough(msg: seq<Byte>, pos: nat, attrs: seq<Attr>, tail: seq<Byte>, kind: nat)
    requires pos <= |msg| && msg[pos..] == EncodeAll(attrs) + tail
    requires Fitting(attrs) && Readable(attrs, kind) && |EncodeAll(attrs)| + |tail| < U32_LIMIT
    ensures Walk(msg, pos, |EncodeAll(attrs)| + |tail|, kind) ==
      if LookIn(attrs, kind).Missing? then Walk(msg, pos + |EncodeAll(attrs)|, |tail|, kind) else LookIn(attrs, kind)
    decreases |attrs|
  {
    hide EncodeAttr, EncodeAll, FromLE, Walk, Align, LookIn, AttrOk, Fitting, Readable;
    if attrs == [] {
      NoAttrs(kind);
    } else {
      FittingTail(attrs);
      EncodeHead(attrs);
      LookStep(attrs, kind);
      var head, others := EncodeAttr(attrs[0]), EncodeAll(attrs[1..]);
      Regroup(head, others, tail);
      WalkAt(msg, pos, attrs[0], others + tail, kind);
      if attrs[0].kind != kind {
        WalkThrough(msg, pos + |head|, attrs[1..], tail, kind);
      }
    }
  }

  /** On assembled attributes the walk ends inside the message and finds the first one of its kind. */
  lemma WalkFinds(pre: seq<Byte>, attrs: seq<Attr>, kind: nat)
    requires Fitting(attrs) && Readable(attrs, kind) && |EncodeAll(attrs)| < U32_LIMIT
    ensures Walk(pre + EncodeAll(attrs), |pre|, |EncodeAll(attrs)|, kind) == LookIn(attrs, kind)
  {
    hide EncodeAll, LookIn;
    var msg := pre + EncodeAll(attrs);
    assert msg[|pre|..] == EncodeAll(attrs) + [];
    WalkThrough(msg, |pre|, attrs, [], kind);
  }

  /** An attribute whose padding was left out. */
  function Unpadded(a: Attr): seq<Byte> {
    AttrHead(a) + a.payload
  }

  /** The walk at a last attribute without padding: the remaining length wraps around and the next read is outside. */
  lemma WalkUnpadded(pre: seq<Byte>, a: Attr, kind: nat)
    requires AttrOk(a) && (a.kind == kind ==> |a.payload| >= 4) && Padding(RTA_HEADER + |a.payload|) > 0
    ensures Walk(pre + Unpadded(a), |pre|, |Unpadded(a)|, kind)
      == if a.kind == kind then Found(FromLE(a.payload[..4])) else Fault
  {
    UnpaddedFields(pre, a);
    hide AttrHead, FromLE, Slice;
    WalkStep(pre + Unpadded(a), |pre|, |Unpadded(a)|, kind);
    AlignMeans(RTA_HEADER + |a.payload|);
  }

  lemma UnpaddedFields(pre: seq<Byte>, a: Attr)
    requires AttrOk(a)
    ensures var msg := pre + Unpadded(a);
      && FromLE(Slice(msg, |pre|, 2)) == RTA_HEADER + |a.payload| && FromLE(Slice(msg, |pre| + 2, 2)) == a.kind
      && (|a.payload| >= 4 ==> Slice(msg, |pre| + RTA_HEADER, 4) == a.payload[..4])
  {
    var pad := Zeros(Padding(RTA_HEADER + |a.payload|));
    AttrFields(pre, a, []);
    hide AttrHead, FromLE, Padding, Zeros;
    var msg, full := pre + Unpadded(a), pre + EncodeAttr(a) + [];
    assert full == msg + pad;
    assert forall pos: nat, n: nat :: pos + n <= |msg| ==> Slice(full, pos, n) == Slice(msg, pos, n);
  }

  /**
   * When a message ends in an attribute whose padding was left out, for every prefix and every list of
   * attributes before it: the walk leaves the message if and only if padding was due and no attribute
   * is of the kind looked for; otherwise it answers as if the padding were there.
   */
  lemma UnpaddedWalkFaults(pre: seq<Byte>, attrs: seq<Attr>, a: Attr, kind: nat)
    requires Fitting(attrs + [a]) && Readable(attrs + [a], kind) && |EncodeAll(attrs)| + |Unpadded(a)| < U32_LIMIT
    ensures var r := Walk(pre + EncodeAll(attrs) + Unpadded(a), |pre|, |EncodeAll(attrs)| + |Unpadded(a)|, kind);
      && (r.Fault? <==> Padding(RTA_HEADER + |a.payload|) > 0 && LookIn(attrs + [a], kind).Missing?)
      && (!r.Fault? ==> r == LookIn(attrs + [a], kind))
  {
    SplitLast(attrs, a, kind);
    hide EncodeAll, FromLE, Walk, Align, AttrOk, Fitting, Readable, Unpadded, Padding, LookIn;
    var msg := pre + EncodeAll(attrs) + Unpadded(a);
    assert msg[|pre|..] == EncodeAll(attrs) + Unpadded(a);
    WalkThrough(msg, |pre|, attrs, Unpadded(a), kind);
    LookJoin(attrs, [a], kind);
    LookLast(a, kind);
    NeverFault(attrs + [a], kind);
    WalkLast(pre + EncodeAll(attrs), a, kind);
  }

  /** The walk over a last attribute without its padding. */
  lemma WalkLast(pre: seq<Byte>, a: Attr, kind: nat)
    requires Fitting([a]) && Readable([a], kind) && AttrOk(a) && (a.kind == kind ==> |a.payload| >= 4)
    requires |Unpadded(a)| < U32_LIMIT
    ensures Walk(pre + Unpadded(a), |pre|, |Unpadded(a)|, kind)
      == if a.kind == kind then Found(FromLE(a.payload[..4]))
         else if Padding(RTA_HEADER + |a.payload|) > 0 then Fault else Missing
  {
    hide EncodeAll, FromLE, Walk, Align, Fitting, Readable, Unpadded, Padding, LookIn;
    if Padding(RTA_HEADER + |a.payload|) > 0 {
      WalkUnpadded(pre, a, kind);
    } else {
      PaddedAlready(a);
      LookLast(a, kind);
      hide AttrOk;
      WalkFinds(pre, [a], kind);
    }
  }

  lemma SplitLast(attrs: seq<Attr>, a: Attr, kind: nat)
    requires Fitting(attrs + [a]) && Readable(attrs + [a], kind)
    ensures Fitting(attrs) && Readable(attrs, kind) && Fitting([a]) && Readable([a], kind)
    ensures AttrOk(a) && (a.kind == kind ==> |a.payload| >= 4)
  {
    assert (attrs + [a])[|attrs|] == a;
    assert forall i :: 0 <= i < |attrs| ==> (attrs + [a])[i] == attrs[i];
  }

  lemma LookLast(a: Attr, kind: nat)
    requires Readable([a], kind)
    ensures a.kind == kind ==> |a.payload| >= 4
    ensures LookIn([a], kind) == if a.kind == kind then Found(FromLE(a.payload[..4])) else Missing
  {
    LookStep([a], kind);
    assert [a][1..] == [];
  }

  lemma PaddedAlready(a: Attr)
    requires Padding(RTA_HEADER + |a.payload|) == 0
    ensures EncodeAll([a]) == Unpadded(a)
  {
    EncodeHead([a]);
    assert [a][1..] == [];
    assert Zeros(0) == [];
  }

  lemma {:induction false} NeverFault(attrs: seq<Attr>, kind: nat)
    requires Readable(attrs, kind)
    ensures !LookIn(attrs, kind).Fault?
  {
    if attrs != [] {
      NeverFault(attrs[1..], kind);
    }
  }

  /** Reads a 32-bit attribute of a message, 0 if it is not there. */
  method GetRtmU32Attribute(msg: seq<Byte>, kind: nat) returns (value: nat, fault: bool)
    requires |msg| >= NLMSG_HEADER
    ensures var len := (FromLE(Slice(msg, 0, 4)) - (NLMSG_HEADER + RULE_HEADER)) % U32_LIMIT;
      var r := Walk(msg, NLMSG_HEADER + RULE_HEADER, len, kind);
      (fault <==> r.Fault?) && value == if r.Found? then r.value else 0
  {
    hide FromLE, Slice;
    var len := (FromLE(Slice(msg, 0, 4)) - (NLMSG_HEADER + RULE_HEADER)) % U32_LIMIT;
    var pos := NLMSG_HEADER + RULE_HEADER;
    ghost var r := Walk(msg, pos, len, kind);
    value, fault := 0, false;
    while len >= RTA_HEADER
      invariant 0 <= pos && 0 <= len && value == 0 && !fault && Walk(msg, pos, len, kind) == r
      decreases if pos <= |msg| then |msg| - pos else 0
    {
      if pos + RTA_HEADER > |msg| {
        return 0, true;
      }
      var size, found := FromLE(Slice(msg, pos, 2)), FromLE(Slice(msg, pos + 2, 2));
      if size < RTA_HEADER || size > len {
        return;
      }
      if found == kind {
        if pos + RTA_HEADER + 4 > |msg| {
          return 0, true;
        }
        return FromLE(Slice(msg, pos + RTA_HEADER, 4)), false;
      }
      pos, len := pos + Align(size), (len - Align(size)) % U32_LIMIT;
    }
  }

  // ---- assembling a request ---------------------------------------------------------------------------------

  function Concat(parts: seq<seq<Byte>>): seq<Byte> {
    if parts == [] then [] else Concat(parts[..|parts| - 1]) + parts[|parts| - 1]
  }

  lemma ConcatMore(parts: seq<seq<Byte>>, part: seq<Byte>)
    ensures Concat(parts + [part]) == Concat(parts) + part
  {
    assert (parts + [part])[..|parts|] == parts;
  }

  lemma {:induction false} ConcatJoin(a: seq<seq<Byte>>, b: seq<seq<Byte>>)
    ensures Concat(a + b) == Concat(a) + Concat(b)
  {
    if b == [] {
      assert a + b == a;
    } else {
      var n := |b| - 1;
      ConcatJoin(a, b[..n]);
      ConcatMore(a + b[..n], b[n]);
      assert a + b == a + b[..n] + [b[n]];
      assert Concat(a) + Concat(b[..n]) + b[n] == Concat(a) + (Concat(b[..n]) + b[n]);
    }
  }

  function NlmsgHeader(length: nat, action: nat, flags: nat): (s: seq<Byte>)
    ensures |s| == NLMSG_HEADER
  {
    LE(length, 4) + LE(action, 2) + LE(flags, 2) + LE(0, 4) + LE(0, 4)
  }

  /** Puts a header in front of the parts, with the length of the whole, modulo the width of its field. */
  method Assemble(action: nat, flags: nat, parts: seq<seq<Byte>>) returns (msg: seq<Byte>)
    ensures msg == NlmsgHeader((NLMSG_HEADER + |Concat(parts)|) % U32_LIMIT, action, flags) + Concat(parts)
  {
    hide NlmsgHeader;
    var length := NLMSG_HEADER % U32_LIMIT;
    for k := 0 to |parts|
      invariant length == (NLMSG_HEADER + |Concat(parts[..k])|) % U32_LIMIT
    {
      ConcatMore(parts[..k], parts[k]);
      assert parts[..k + 1] == parts[..k] + [parts[k]];
      length := (length + |parts[k]|) % U32_LIMIT;
    }
    assert parts[..|parts|] == parts;
    msg := NlmsgHeader(length, action, flags) + Concat(parts);
  }

  // ---- rule requests ----------------------------------------------------------------------------------------

  type U32 = n: int | 0 <= n < U32_LIMIT
  type I32 = n: int | -0x8000_0000 <= n < 0x8000_0000

  datatype Request = Request(delete: bool, priority: I32, toTable: bool, table: U32, fwmark: U32, mask: U32,
                             iif: Option<seq<Byte>>, oif: Option<seq<Byte>>, uidStart: U32, uidEnd: U32)

  function Word32(n: nat): Word {
    Bits(n, 32)
  }

  predicate NameFits(name: Option<seq<Byte>>) {
    name.Some? ==> |name.value| + 1 <= NAME_LIMIT
  }

  /** The checks before a rule request is sent: 0 if it is accepted. */
  function RequestError(r: Request): int {
    if r.priority < 0 then ERANGE
    else if And(Word32(r.fwmark), Not(Word32(r.mask))) != ZERO_WORD then ERANGE
    else if !NameFits(r.iif) || !NameFits(r.oif) then ENAMETOOLONG
    else if (r.uidStart == INVALID_UID) != (r.uidEnd == INVALID_UID) then EUSERS
    else if r.table == 0 && r.toTable && !r.delete then ENOTUNIQ
    else 0
  }

  function NamePayload(name: seq<Byte>): seq<Byte> {
    name + [0]
  }

  function U32Attr(there: bool, kind: nat, value: nat): seq<Attr> {
    if there then [Attr(kind, LE(value, 4))] else []
  }

  function NameAttr(kind: nat, name: Option<seq<Byte>>): seq<Attr> {
    if name.Some? then [Attr(kind, NamePayload(name.value))] else []
  }

  function UidAttr(r: Request): seq<Attr> {
    if r.uidStart != INVALID_UID then [Attr(FRA_UID_RANGE, LE(r.uidStart, 4) + LE(r.uidEnd, 4))] else []
  }

  /** The attributes of a request, in order. */
  function RuleAttrs(r: Request): seq<Attr>
    requires r.priority >= 0
  {
    U32Attr(true, FRA_PRIORITY, r.priority)
    + U32Attr(r.table != 0, FRA_TABLE, r.table)
    + U32Attr(r.mask != 0, FRA_FWMARK, r.fwmark)
    + U32Attr(r.mask != 0, FRA_FWMASK, r.mask)
    + UidAttr(r)
    + NameAttr(FRA_IIFNAME, r.iif)
    + NameAttr(FRA_OIFNAME, r.oif)
  }

  /** An attribute as the separate parts it is sent in: its header, its payload and its padding. */
  function AttrParts(attrs: seq<Attr>): seq<seq<Byte>> {
    if attrs == [] then []
    else
      var a := attrs[0];
      [AttrHead(a), a.payload, Zeros(Padding(RTA_HEADER + |a.payload|))] + AttrParts(attrs[1..])
  }

  lemma {:induction false} PartsEncode(attrs: seq<Attr>)
    ensures Concat(AttrParts(attrs)) == EncodeAll(attrs)
  {
    if attrs != [] {
      var a := attrs[0];
      PartsEncode(attrs[1..]);
      var head, pad := AttrHead(a), Zeros(Padding(RTA_HEADER + |a.payload|));
      hide AttrHead, Zeros;
      ConcatJoin([head, a.payload, pad], AttrParts(attrs[1..]));
      ConcatMore([head, a.payload], pad);
      ConcatMore([head], a.payload);
      ConcatMore([], head);
      assert [] + [head] == [head] && [head] + [a.payload] == [head, a.payload]
        && [head, a.payload] + [pad] == [head, a.payload, pad];
      assert Concat([]) + head == head;
    }
  }

  function RuleHeader(family: Byte, action: Byte): (s: seq<Byte>)
    ensures |s| == RULE_HEADER
  {
    [family, 0, 0, 0, 0, 0, 0, action] + LE(0, 4)
  }

  /** The message of an accepted request for one address family. */
  function Message(r: Request, family: Byte, action: Byte, netlinkAction: nat, flags: nat): seq<Byte>
    requires r.priority >= 0
  {
    NlmsgHeader(NLMSG_HEADER + RULE_HEADER + |EncodeAll(RuleAttrs(r))|, netlinkAction, flags)
    + RuleHeader(family, action) + EncodeAll(RuleAttrs(r))
  }

  /** What the attributes of an accepted request have in common. */
  predicate Fine(a: Attr) {
    && AttrOk(a) && |a.payload| <= NAME_LIMIT
    && (a.kind in {FRA_PRIORITY, FRA_TABLE, FRA_FWMARK, FRA_FWMASK} ==> |a.payload| == 4)
  }

  predicate AllFine(attrs: seq<Attr>) {
    forall i :: 0 <= i < |attrs| ==> Fine(attrs[i])
  }

  lemma {:induction false} EncodedLength(attrs: seq<Attr>)
    requires AllFine(attrs)
    ensures |EncodeAll(attrs)| % ALIGNTO == 0 && |EncodeAll(attrs)| <= 24 * |attrs|
  {
    if attrs != [] {
      EncodeHead(attrs);
      EncodedLength(attrs[1..]);
      hide EncodeAttr, EncodeAll;
      AlignMeans(RTA_HEADER + |attrs[0].payload|);
      assert Fine(attrs[0]);
      hide Align;
      Multiples(|EncodeAttr(attrs[0])|, |EncodeAll(attrs[1..])|);
    }
  }

  lemma Multiples(a: nat, b: nat)
    requires a % ALIGNTO == 0 && b % ALIGNTO == 0
    ensures (a + b) % ALIGNTO == 0
  {}

  lemma RuleAttrsFine(r: Request)
    requires RequestError(r) == 0
    ensures |RuleAttrs(r)| <= 7 && AllFine(RuleAttrs(r))
  {
    hide And, Not, Word32, LE;
    assert AllFine(U32Attr(true, FRA_PRIORITY, r.priority));
    assert AllFine(U32Attr(r.table != 0, FRA_TABLE, r.table));
    assert AllFine(U32Attr(r.mask != 0, FRA_FWMARK, r.fwmark));
    assert AllFine(U32Attr(r.mask != 0, FRA_FWMASK, r.mask));
    assert AllFine(NameAttr(FRA_IIFNAME, r.iif)) && AllFine(NameAttr(FRA_OIFNAME, r.oif));
    hide U32Attr, NameAttr, Fine;
  }

  /** A mark outside an empty mask is refused, so a rule without a mask has no mark. */
  lemma NoMaskNoMark(r: Request)
    requires RequestError(r) == 0 && r.mask == 0
    ensures r.fwmark == 0
  {
    var mark, mask := Word32(r.fwmark), Word32(0);
    AllZeros(32);
    assert Not(mask) == Repeat(true, 32);
    assert And(mark, Not(mask)) == mark;
    PowersOfTwo();
    BitsRoundTrip(r.fwmark, 32);
    BitsRoundTrip(0, 32);
  }

  // ---- the round trip ---------------------------------------------------------------------------------------

  lemma {:induction false} LookJoin(a: seq<Attr>, b: seq<Attr>, kind: nat)
    requires Readable(a, kind) && Readable(b, kind)
    ensures Readable(a + b, kind)
    ensures LookIn(a + b, kind) == if LookIn(a, kind).Missing? then LookIn(b, kind) else LookIn(a, kind)
  {
    if a == [] {
      assert a + b == b;
    } else {
      LookJoin(a[1..], b, kind);
      assert (a + b)[1..] == a[1..] + b && (a + b)[0] == a[0];
    }
  }

  lemma LookU32(there: bool, kind: nat, value: U32, wanted: nat)
    ensures Readable(U32Attr(there, kind, value), wanted)
    ensures LookIn(U32Attr(there, kind, value), wanted) == if there && kind == wanted then Found(value) else Missing
  {
    WordSizes();
    RoundTripLE(value, 4);
    hide FromLE, LE;
    if there {
      var list := U32Attr(there, kind, value);
      assert list[1..] == [] && list[0].payload[..4] == LE(value, 4);
    }
  }

  lemma LookOther(a: seq<Attr>, wanted: nat)
    requires |a| <= 1 && (a != [] ==> a[0].kind != wanted)
    ensures Readable(a, wanted) && LookIn(a, wanted) == Missing
  {
    if a != [] {
      assert a[1..] == [];
    }
  }

  predicate IsU32Kind(kind: nat) {
    kind == FRA_PRIORITY || kind == FRA_TABLE || kind == FRA_FWMARK || kind == FRA_FWMASK
  }

  /** What each 32-bit attribute of a request is meant to hold. */
  function FieldOf(r: Request, kind: nat): Lookup
    requires r.priority >= 0
  {
    if kind == FRA_PRIORITY then Found(r.priority)
    else if kind == FRA_TABLE then if r.table != 0 then Found(r.table) else Missing
    else if kind == FRA_FWMARK then if r.mask != 0 then Found(r.fwmark) else Missing
    else if r.mask != 0 then Found(r.mask) else Missing
  }

  lemma RuleLook(r: Request, kind: nat)
    requires r.priority >= 0 && IsU32Kind(kind)
    ensures Readable(RuleAttrs(r), kind) && LookIn(RuleAttrs(r), kind) == FieldOf(r, kind)
  {
    var a1, a2 := U32Attr(true, FRA_PRIORITY, r.priority), U32Attr(r.table != 0, FRA_TABLE, r.table);
    var a3, a4 := U32Attr(r.mask != 0, FRA_FWMARK, r.fwmark), U32Attr(r.mask != 0, FRA_FWMASK, r.mask);
    var a5, a6, a7 := UidAttr(r), NameAttr(FRA_IIFNAME, r.iif), NameAttr(FRA_OIFNAME, r.oif);
    LookU32(true, FRA_PRIORITY, r.priority, kind);
    LookU32(r.table != 0, FRA_TABLE, r.table, kind);
    LookU32(r.mask != 0, FRA_FWMARK, r.fwmark, kind);
    LookU32(r.mask != 0, FRA_FWMASK, r.mask, kind);
    LookOther(a5, kind);
    LookOther(a6, kind);
    LookOther(a7, kind);
    hide U32Attr, NameAttr, LookIn, Readable;
    LookJoin(a1, a2, kind);
    LookJoin(a1 + a2, a3, kind);
    LookJoin(a1 + a2 + a3, a4, kind);
    LookJoin(a1 + a2 + a3 + a4, a5, kind);
    LookJoin(a1 + a2 + a3 + a4 + a5, a6, kind);
    LookJoin(a1 + a2 + a3 + a4 + a5 + a6, a7, kind);
  }

  /** The outcome of reading a 32-bit attribute of a message. */
  function ReadU32(msg: seq<Byte>, kind: nat): Lookup
    requires |msg| >= NLMSG_HEADER
  {
    Walk(msg, NLMSG_HEADER + RULE_HEADER, (FromLE(Slice(msg, 0, 4)) - (NLMSG_HEADER + RULE_HEADER)) % U32_LIMIT, kind)
  }

  lemma HeaderLength(length: U32, action: nat, flags: nat, rest: seq<Byte>)
    ensures FromLE(Slice(NlmsgHeader(length, action, flags) + rest, 0, 4)) == length
  {
    WordSizes();
    RoundTripLE(length, 4);
    hide LE, FromLE;
    assert Slice(NlmsgHeader(length, action, flags) + rest, 0, 4) == LE(length, 4);
  }

  /**
   * The message of an accepted request states its own length, keeps every attribute aligned, and
   * reading any of the four attributes gives what the request asked for, never leaving the message.
   */
  lemma RuleRoundTrip(r: Request, family: Byte, action: Byte, netlinkAction: nat, flags: nat, kind: nat)
    requires RequestError(r) == 0 && IsU32Kind(kind)
    ensures var msg := Message(r, family, action, netlinkAction, flags);
      && FromLE(Slice(msg, 0, 4)) == |msg| && |msg| % ALIGNTO == 0
      && ReadU32(msg, kind) == FieldOf(r, kind)
  {
    hide And, Not, Word32, FromLE, LE, Slice, EncodeAll, RuleAttrs, Walk, FieldOf, LookIn;
    RuleAttrsFine(r);
    RuleLook(r, kind);
    var attrs := RuleAttrs(r);
    EncodedLength(attrs);
    var length := NLMSG_HEADER + RULE_HEADER + |EncodeAll(attrs)|;
    var head := NlmsgHeader(length, netlinkAction, flags) + RuleHeader(family, action);
    hide NlmsgHeader, RuleHeader;
    HeaderLength(length, netlinkAction, flags, RuleHeader(family, action) + EncodeAll(attrs));
    assert NlmsgHeader(length, netlinkAction, flags) + (RuleHeader(family, action) + EncodeAll(attrs))
      == head + EncodeAll(attrs);
    Unwrapped(NLMSG_HEADER + RULE_HEADER, length);
    assert Fitting(attrs) by {
      assert forall i :: 0 <= i < |attrs| ==> Fine(attrs[i]);
    }
    WalkFinds(head, attrs, kind);
  }

  function ValueOf(l: Lookup): nat {
    if l.Found? then l.value else 0
  }

  /** Priority, table, mark and mask survive the trip, 0 standing for what was left out. */
  lemma DecodedFields(r: Request, family: Byte, action: Byte, netlinkAction: nat, flags: nat)
    requires RequestError(r) == 0
    ensures var msg := Message(r, family, action, netlinkAction, flags);
      && ValueOf(ReadU32(msg, FRA_PRIORITY)) == r.priority && ValueOf(ReadU32(msg, FRA_TABLE)) == r.table
      && ValueOf(ReadU32(msg, FRA_FWMARK)) == r.fwmark && ValueOf(ReadU32(msg, FRA_FWMASK)) == r.mask
  {
    hide Message, ReadU32, RuleAttrs;
    RuleRoundTrip(r, family, action, netlinkAction, flags, FRA_PRIORITY);
    RuleRoundTrip(r, family, action, netlinkAction, flags, FRA_TABLE);
    RuleRoundTrip(r, family, action, netlinkAction, flags, FRA_FWMARK);
    RuleRoundTrip(r, family, action, netlinkAction, flags, FRA_FWMASK);
    if r.mask == 0 {
      NoMaskNoMark(r);
    }
  }

  // ---- the whole message, read back ---------------------------------------------------------------------------

  /** The attributes that a run of bytes stands for, if it stands for any. */
  function Decode(bytes: seq<Byte>): Option<seq<Attr>>
    decreases |bytes|
  {
    if bytes == [] then Some([])
    else if |bytes| < RTA_HEADER then None
    else
      var size, kind := FromLE(bytes[..2]), FromLE(bytes[2..4]);
      if size < RTA_HEADER || Align(size) > |bytes| then None
      else
        var rest := Decode(bytes[Align(size)..]);
        if rest.None? then None else Some([Attr(kind, bytes[RTA_HEADER..size])] + rest.value)
  }

  lemma DecodeOne(a: Attr, rest: seq<Byte>)
    requires AttrOk(a)
    ensures var bytes := EncodeAttr(a) + rest;
      && |bytes| >= RTA_HEADER && FromLE(bytes[..2]) == RTA_HEADER + |a.payload| && FromLE(bytes[2..4]) == a.kind
      && bytes[RTA_HEADER..RTA_HEADER + |a.payload|] == a.payload && bytes[|EncodeAttr(a)|..] == rest
  {
    AttrFields([], a, rest);
    AlignMeans(RTA_HEADER + |a.payload|);
    hide FromLE, LE, Zeros, Align, Padding;
    var bytes := EncodeAttr(a) + rest;
    assert [] + EncodeAttr(a) + rest == bytes;
    assert Slice(bytes, 0, 2) == bytes[..2] && Slice(bytes, 2, 2) == bytes[2..4];
    assert bytes[RTA_HEADER..RTA_HEADER + |a.payload|] == a.payload;
  }

  /** Attributes that fit are read back as they were written, whatever their payloads. */
  lemma {:induction false} DecodeEncode(attrs: seq<Attr>)
    requires Fitting(attrs)
    ensures Decode(EncodeAll(attrs)) == Some(attrs)
  {
    if attrs != [] {
      var a, rest := attrs[0], EncodeAll(attrs[1..]);
      FittingTail(attrs);
      DecodeEncode(attrs[1..]);
      DecodeOne(a, rest);
      EncodeHead(attrs);
      AlignMeans(RTA_HEADER + |a.payload|);
      hide FromLE, EncodeAttr, EncodeAll, Align, AttrOk;
      assert attrs == [a] + attrs[1..];
    }
  }

  /** The payload of the first attribute of a kind. */
  function PayloadOf(attrs: seq<Attr>, kind: nat): Option<seq<Byte>> {
    if attrs == [] then None
    else if attrs[0].kind == kind then Some(attrs[0].payload)
    else PayloadOf(attrs[1..], kind)
  }

  lemma {:induction false} PayloadJoin(a: seq<Attr>, b: seq<Attr>, kind: nat)
    ensures PayloadOf(a + b, kind) == if PayloadOf(a, kind).None? then PayloadOf(b, kind) else PayloadOf(a, kind)
  {
    if a == [] {
      assert a + b == b;
    } else {
      PayloadJoin(a[1..], b, kind);
      assert (a + b)[1..] == a[1..] + b && (a + b)[0] == a[0];
    }
  }

  lemma PayloadOne(a: seq<Attr>, kind: nat)
    requires |a| <= 1
    ensures PayloadOf(a, kind) == if a != [] && a[0].kind == kind then Some(a[0].payload) else None
  {
    if a != [] {
      assert a[1..] == [];
    }
  }

  /** What the kernel reads as the uid range: two 32-bit numbers. */
  predicate ReadsRange(payload: Option<seq<Byte>>, start: nat, end: nat) {
    && payload.Some? && |payload.value| == 8
    && FromLE(payload.value[..4]) == start && FromLE(payload.value[4..]) == end
  }

  /** What the kernel reads as an interface name: the bytes up to the terminating zero at the end. */
  predicate ReadsName(payload: Option<seq<Byte>>, name: seq<Byte>) {
    && payload.Some? && |payload.value| == |name| + 1
    && payload.value[..|name|] == name && payload.value[|name|] == 0
  }

  lemma RangeReads(start: U32, end: U32)
    ensures ReadsRange(Some(LE(start, 4) + LE(end, 4)), start, end)
  {
    WordSizes();
    RoundTripLE(start, 4);
    RoundTripLE(end, 4);
    hide FromLE, LE;
    var b := LE(start, 4) + LE(end, 4);
    assert b[..4] == LE(start, 4) && b[4..] == LE(end, 4);
  }

  /** Uid range and names of a request, as attributes. */
  lemma RulePayloads(r: Request, kind: nat)
    requires r.priority >= 0 && !IsU32Kind(kind)
    ensures var payload := PayloadOf(RuleAttrs(r), kind);
      && (kind == FRA_UID_RANGE ==>
           if r.uidStart == INVALID_UID then payload.None? else ReadsRange(payload, r.uidStart, r.uidEnd))
      && (kind == FRA_IIFNAME ==> if r.iif.None? then payload.None? else ReadsName(payload, r.iif.value))
      && (kind == FRA_OIFNAME ==> if r.oif.None? then payload.None? else ReadsName(payload, r.oif.value))
  {
    var a1, a2 := U32Attr(true, FRA_PRIORITY, r.priority), U32Attr(r.table != 0, FRA_TABLE, r.table);
    var a3, a4 := U32Attr(r.mask != 0, FRA_FWMARK, r.fwmark), U32Attr(r.mask != 0, FRA_FWMASK, r.mask);
    var a5, a6, a7 := UidAttr(r), NameAttr(FRA_IIFNAME, r.iif), NameAttr(FRA_OIFNAME, r.oif);
    RangeReads(r.uidStart, r.uidEnd);
    PayloadOne(a1, kind);
    PayloadOne(a2, kind);
    PayloadOne(a3, kind);
    PayloadOne(a4, kind);
    PayloadOne(a5, kind);
    PayloadOne(a6, kind);
    PayloadOne(a7, kind);
    hide U32Attr, LE, FromLE, PayloadOf;
    PayloadJoin(a1, a2, kind);
    PayloadJoin(a1 + a2, a3, kind);
    PayloadJoin(a1 + a2 + a3, a4, kind);
    PayloadJoin(a1 + a2 + a3 + a4, a5, kind);
    PayloadJoin(a1 + a2 + a3 + a4 + a5, a6, kind);
    PayloadJoin(a1 + a2 + a3 + a4 + a5 + a6, a7, kind);
  }

  /** The attributes of a message, as the kernel reads them. */
  function AttrsOf(msg: seq<Byte>): Option<seq<Attr>>
    requires |msg| >= NLMSG_HEADER + RULE_HEADER
  {
    Decode(msg[NLMSG_HEADER + RULE_HEADER..])
  }

  /** The message of an accepted request holds its attributes and nothing else. */
  lemma MessageDecodes(r: Request, family: Byte, action: Byte, netlinkAction: nat, flags: nat)
    requires RequestError(r) == 0
    ensures AttrsOf(Message(r, family, action, netlinkAction, flags)) == Some(RuleAttrs(r))
  {
    hide And, Not, Word32, LE, RuleAttrs, NlmsgHeader, RuleHeader, EncodeAll, Decode;
    RuleAttrsFine(r);
    var attrs := RuleAttrs(r);
    assert Fitting(attrs) by {
      assert forall i :: 0 <= i < |attrs| ==> Fine(attrs[i]);
    }
    DecodeEncode(attrs);
    var msg := Message(r, family, action, netlinkAction, flags);
    assert msg[NLMSG_HEADER + RULE_HEADER..] == EncodeAll(attrs);
  }

  /** The fixed part of a message: what is asked, how, for which address family, and what the rule does. */
  lemma HeaderDecodes(r: Request, family: Byte, action: Byte, netlinkAction: nat, flags: nat)
    requires r.priority >= 0 && netlinkAction < 0x10000 && flags < 0x10000
    ensures var msg := Message(r, family, action, netlinkAction, flags);
      && FromLE(Slice(msg, 4, 2)) == netlinkAction && FromLE(Slice(msg, 6, 2)) == flags
      && msg[16] == family && msg[17..23] == [0, 0, 0, 0, 0, 0] && msg[23] == action && FromLE(msg[24..28]) == 0
  {
    WordSizes();
    RoundTripLE(netlinkAction, 2);
    RoundTripLE(flags, 2);
    RoundTripLE(0, 4);
    hide LE, FromLE, RuleAttrs, EncodeAll, Pow256;
    var msg := Message(r, family, action, netlinkAction, flags);
    assert Slice(msg, 4, 2) == LE(netlinkAction, 2) && Slice(msg, 6, 2) == LE(flags, 2);
    assert msg[24..28] == LE(0, 4);
  }

  /** The length check of an interface name, its terminating zero included. */
  method PadInterfaceName(name: Option<seq<Byte>>) returns (ret: int)
    ensures ret == if NameFits(name) then 0 else ENAMETOOLONG
  {
    if name.None? {
      return 0;
    }
    var length := |name.value| + 1;
    ret := if length > NAME_LIMIT then ENAMETOOLONG else 0;
  }

  /** Checks a request and assembles its message for one address family. */
  method ModifyIpRule(r: Request, family: Byte, action: Byte, netlinkAction: nat, flags: nat)
    returns (ret: int, msg: seq<Byte>)
    ensures ret == RequestError(r)
    ensures ret == 0 ==> msg == Message(r, family, action, netlinkAction, flags)
  {
    hide And, Not, Word32, LE, RuleAttrs, NlmsgHeader, EncodeAll, Concat, AttrParts, RuleHeader;
    ret, msg := 0, [];
    if r.priority < 0 {
      return ERANGE, msg;
    }
    if And(Word32(r.fwmark), Not(Word32(r.mask))) != ZERO_WORD {
      return ERANGE, msg;
    }
    ret := PadInterfaceName(r.iif);
    if ret != 0 {
      return;
    }
    ret := PadInterfaceName(r.oif);
    if ret != 0 {
      return;
    }
    if (r.uidStart == INVALID_UID) != (r.uidEnd == INVALID_UID) {
      return EUSERS, msg;
    }
    if r.table == 0 && r.toTable && !r.delete {
      return ENOTUNIQ, msg;
    }
    var attrs := RuleAttrs(r);
    var header := RuleHeader(family, action);
    RuleAttrsFine(r);
    EncodedLength(attrs);
    PartsEncode(attrs);
    ConcatJoin([header], AttrParts(attrs));
    ConcatOne(header);
    msg := Assemble(netlinkAction, flags, [header] + AttrParts(attrs));
    assert NlmsgHeader(NLMSG_HEADER + |Concat([header] + AttrParts(attrs))|, netlinkAction, flags)
      + (header + EncodeAll(attrs))
        == Message(r, family, action, netlinkAction, flags);
  }

  lemma ConcatOne(part: seq<Byte>)
    ensures Concat([part]) == part
  {
    ConcatMore([], part);
    assert [] + [part] == [part];
    assert Concat([]) + part == part;
  }
}
