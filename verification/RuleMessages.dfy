/** From the entries of the routing policy to the netlink messages that ask the kernel for them. */
module RuleMessages {
  import opened Fwmarks
  import opened IpRules
  import opened UidRangeLists
  import opened RuleSet
  import opened RouteControllers
  import opened NetworkStates
  import opened RoutingTheorems
  import N = Netlinks

  // ---- words as numbers -----------------------------------------------------------------------------

  lemma {:induction false} ValueRoundTrip(b: seq<bool>)
    ensures Value(b) < Pow2(|b|) && Bits(Value(b), |b|) == b
  {
    if b != [] {
      ValueRoundTrip(b[1..]);
      assert b == [b[0]] + b[1..];
    }
  }

  function WordValue(w: Word): (n: N.U32)
    ensures N.Word32(n) == w
  {
    ValueRoundTrip(w);
    PowersOfTwo();
    Value(w)
  }

  // ---- requests -------------------------------------------------------------------------------------

  function Bytes(name: Option<string>): Option<seq<N.Byte>> {
    if name.None? then None
    else Some(seq(|name.value|, i requires 0 <= i < |name.value| => name.value[i] as int % 256))
  }

  /** Numbers that fit the fields of a request; no entry names table 0, which stands for any table. */
  predicate Fits(e: Entry) {
    e.IpRule? && e.priority < 0x8000_0000 && (e.action.ToTable? ==> 0 < e.action.table < N.U32_LIMIT)
  }

  /** The request for an entry, from the uid arguments that its builder was called with. */
  function ToRequest(e: Entry, uids: UidRange, delete: bool): N.Request
    requires Fits(e)
  {
    N.Request(delete, e.priority, e.action.ToTable?, if e.action.ToTable? then e.action.table else 0,
              WordValue(MarkValue(e.mark)), WordValue(MaskValue(e.mark)), Bytes(e.iif), Bytes(e.oif),
              ToUid(uids.start), ToUid(uids.stop))
  }

  lemma UidEnds(uids: UidRange)
    ensures LooseUids(uids).Refused? <==> (ToUid(uids.start) == N.INVALID_UID) != (ToUid(uids.stop) == N.INVALID_UID)
    ensures LooseUids(uids).AllUids? <==> ToUid(uids.start) == N.INVALID_UID && ToUid(uids.stop) == N.INVALID_UID
  {}

  /**
   * The routing model's own test agrees with the checks of the request, and the mask check never
   * fails: a request is refused for its names or for its uids, or not at all.
   */
  lemma SendableIsAccepted(e: Entry, uids: UidRange, delete: bool)
    requires Fits(e) && e.uids == LooseUids(uids)
    ensures Sendable(e) <==> N.RequestError(ToRequest(e, uids, delete)) == 0
  {
    MarkWithinMask(e.mark);
    UidEnds(uids);
    hide MarkValue, MaskValue, And, Not, LooseUids, ToUid;
  }

  /** What the kernel reads as a name is the entry's name, byte by byte. */
  predicate ReadsAs(payload: Option<seq<N.Byte>>, name: Option<string>) {
    if name.None? then payload.None?
    else
      && payload.Some? && |payload.value| == |name.value| + 1 && payload.value[|name.value|] == 0
      && forall k :: 0 <= k < |name.value| ==> payload.value[k] == name.value[k] as int % 256
  }

  lemma NamesRead(payload: Option<seq<N.Byte>>, name: Option<string>)
    requires if name.None? then payload.None? else N.ReadsName(payload, Bytes(name).value)
    ensures ReadsAs(payload, name)
  {
    if name.Some? {
      forall k | 0 <= k < |name.value|
        ensures payload.value[k] == name.value[k] as int % 256
      {
        assert payload.value[..|name.value|][k] == Bytes(name).value[k];
      }
    }
  }

  /** The uids and interfaces that the kernel reads from the message are the entry's. */
  lemma MessageSelects(e: Entry, uids: UidRange, delete: bool, family: N.Byte, action: N.Byte, netlinkAction: nat,
                       flags: nat)
    requires Fits(e) && e.uids == LooseUids(uids) && Sendable(e)
    ensures var attrs := N.AttrsOf(N.Message(ToRequest(e, uids, delete), family, action, netlinkAction, flags));
      && attrs.Some?
      && (e.uids.AllUids? ==> N.PayloadOf(attrs.value, N.FRA_UID_RANGE).None?)
      && (e.uids.Span? ==> N.ReadsRange(N.PayloadOf(attrs.value, N.FRA_UID_RANGE), e.uids.lo, e.uids.hi))
      && ReadsAs(N.PayloadOf(attrs.value, N.FRA_IIFNAME), e.iif)
      && ReadsAs(N.PayloadOf(attrs.value, N.FRA_OIFNAME), e.oif)
  {
    hide N.Message, N.RequestError, MarkValue, MaskValue, N.RuleAttrs, N.PayloadOf, N.ReadsRange;
    var r := ToRequest(e, uids, delete);
    SendableIsAccepted(e, uids, delete);
    N.MessageDecodes(r, family, action, netlinkAction, flags);
    N.RulePayloads(r, N.FRA_UID_RANGE);
    N.RulePayloads(r, N.FRA_IIFNAME);
    N.RulePayloads(r, N.FRA_OIFNAME);
    NamesRead(N.PayloadOf(N.RuleAttrs(r), N.FRA_IIFNAME), e.iif);
    NamesRead(N.PayloadOf(N.RuleAttrs(r), N.FRA_OIFNAME), e.oif);
  }

  /**
   * What the kernel reads from the message: the entry's priority and table, and a mark and a mask that
   * select exactly the marks which the entry admits.
   */
  lemma MessageMeansEntry(e: Entry, uids: UidRange, delete: bool, family: N.Byte, action: N.Byte, netlinkAction: nat,
                          flags: nat, m: Fwmark)
    requires Fits(e) && e.uids == LooseUids(uids) && Sendable(e)
    ensures var msg := N.Message(ToRequest(e, uids, delete), family, action, netlinkAction, flags);
      && N.ValueOf(N.ReadU32(msg, N.FRA_PRIORITY)) == e.priority
      && N.ReadU32(msg, N.FRA_TABLE) == (if e.action.ToTable? then N.Found(e.action.table) else N.Missing)
      && N.Word32(N.ValueOf(N.ReadU32(msg, N.FRA_FWMARK))) == MarkValue(e.mark)
      && N.Word32(N.ValueOf(N.ReadU32(msg, N.FRA_FWMASK))) == MaskValue(e.mark)
      && (e.mark.Admits(m) <==>
          And(Encode(m), N.Word32(N.ValueOf(N.ReadU32(msg, N.FRA_FWMASK))))
          == N.Word32(N.ValueOf(N.ReadU32(msg, N.FRA_FWMARK))))
  {
    hide N.Message, N.ReadU32, N.Word32, N.RequestError, Sendable, MarkValue, MaskValue, And, Encode, ToUid, LooseUids;
    var r := ToRequest(e, uids, delete);
    SendableIsAccepted(e, uids, delete);
    N.DecodedFields(r, family, action, netlinkAction, flags);
    N.RuleRoundTrip(r, family, action, netlinkAction, flags, N.FRA_TABLE);
    MaskTestIsFieldTest(e.mark, m);
  }

  // ---- the rules of a running system ------------------------------------------------------------------

  lemma OwnFits(e: Entry, n: NetId, net: Network, t: nat, i: string, sub: nat, r: UidRange)
    requires NetworkOk(n, net) && OwnShape(e, n, net, t, i, sub, r) && e.IpRule?
    requires net.kind.Physical? || net.kind.Virtual? ==> 0 < t < TABLE_OFFSET_FOR_LOCAL
    ensures Fits(e)
  {}

  lemma OwnCached(e: Entry, n: NetId, net: Network, t: nat, i: string, sub: nat, r: UidRange)
    requires OwnShape(e, n, net, t, i, sub, r) && HasInterfaceTables(net.kind)
    ensures i in net.ifaces
  {}

  /** Whatever was asked of the controller, the numbers of every rule in the kernel fit their fields. */
  lemma InstalledFits(nets: Networks, d: NetId, tabs: Tables, ifindex: map<string, nat>, fixed: multiset<Entry>,
                      rules: multiset<Entry>, e: Entry)
    requires NetworksOk(nets) && TablesOk(tabs, ifindex) && Synced(nets, d, tabs, fixed, rules)
    requires e in rules && e.IpRule? && !IsTethering(e)
    ensures Fits(e)
  {
    hide FlagsOk, FixedOk, SameOutsideTethering, Expected, NetworkOk, OwnShape, Sendable;
    var o := RuleOrigin(nets, d, tabs, fixed, rules, e);
    match o
    case Fixed =>
      var t := FixedOrigin(nets, tabs, fixed, e);
    case Own(n, i, sub, r) =>
      if HasInterfaceTables(nets[n].kind) {
        OwnCached(e, n, nets[n], TableOf(tabs, i), i, sub, r);
      }
      OwnFits(e, n, nets[n], TableOf(tabs, i), i, sub, r);
    case ByDefault(i, v) =>
  }
}
