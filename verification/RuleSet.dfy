/** The entries each routing operation asks for, and the networks they are derived from. */
module RuleSet {
  import opened Fwmarks
  import opened IpRules
  import opened UidRangeLists
  import opened Sums

  // ---- constants ------------------------------------------------------------------------------

  const VPN_OVERRIDE_SYSTEM := 10000
  const VPN_OVERRIDE_OIF := 11000
  const VPN_OUTPUT_TO_LOCAL := 12000
  const SECURE_VPN := 13000
  const PROHIBIT_NON_VPN := 14000
  const UID_EXPLICIT_NETWORK := 15000
  const EXPLICIT_NETWORK := 16000
  const OUTPUT_INTERFACE := 17000
  const LEGACY_SYSTEM := 18000
  const LEGACY_NETWORK := 19000
  const LOCAL_NETWORK := 20000
  const TETHERING := 21000
  const UID_IMPLICIT_NETWORK := 22000
  const IMPLICIT_NETWORK := 23000
  const BYPASSABLE_VPN_NO_LOCAL_EXCLUSION := 24000
  const UID_LOCAL_ROUTES := 25000
  const LOCAL_ROUTES := 26000
  const BYPASSABLE_VPN_LOCAL_EXCLUSION := 27000
  const VPN_FALLTHROUGH := 28000
  const UID_DEFAULT_NETWORK := 29000
  const UID_DEFAULT_UNREACHABLE := 30000
  const DEFAULT_NETWORK := 31000
  const UNREACHABLE := 32000

  const TABLE_LOCAL_NETWORK := 97
  const TABLE_LEGACY_NETWORK := 98
  const TABLE_LEGACY_SYSTEM := 99
  const TABLE_OFFSET := 1000
  const TABLE_OFFSET_FOR_LOCAL := 1_000_000_000

  const SUB_PRIORITY_HIGHEST := 0
  const SUB_PRIORITY_LOWEST := 998
  const SUB_PRIORITY_NO_DEFAULT := 999

  const MIN_OEM_ID := 1
  const MAX_OEM_ID := 50
  const DUMMY_NET_ID: NetId := 51
  const UNREACHABLE_NET_ID: NetId := 52
  const LOCAL_NET_ID: NetId := 99
  const MIN_NET_ID := 100
  const MAX_NET_ID := 65535

  const DUMMY_INTERFACE := "dummy0"
  const IFNAMSIZ := 16

  /** The table of an interface's directly connected routes, from its ordinary table. */
  function LocalTable(table: nat): nat {
    table + (TABLE_OFFSET_FOR_LOCAL - TABLE_OFFSET)
  }

  // ---- uid arguments --------------------------------------------------------------------------

  /** A 32-bit signed uid read as unsigned. */
  function ToUid(x: Int32): nat {
    x % 0x1_0000_0000
  }

  /** Selector of the per-uid builders, which refuse the invalid uid -1 at either end. */
  function StrictUids(r: UidRange): UidSelector {
    if r.start == -1 || r.stop == -1 then Refused else Span(ToUid(r.start), ToUid(r.stop))
  }

  /** Selector of the other builders: -1 at both ends means no uid restriction at all. */
  function LooseUids(r: UidRange): UidSelector {
    if r.start == -1 && r.stop == -1 then AllUids else StrictUids(r)
  }

  // ---- rule builders --------------------------------------------------------------------------

  function Exactly(netId: NetId, explicitly: Option<bool>, permission: Permission): MarkMatch {
    MarkMatch(Some(netId), explicitly, None, permission)
  }

  const IMPLICIT_MARK := MarkMatch(None, Some(false), None, PERMISSION_NONE)
  const UNPROTECTED_MARK := MarkMatch(None, None, Some(false), PERMISSION_NONE)

  function Incoming(netId: NetId, iface: string, permission: Permission): Entry {
    IncomingMark(iface, Fwmark(netId, true, true, permission, Repeat(false, 12)))
  }

  function VpnOutputToLocal(iface: string): Entry {
    IpRule(VPN_OUTPUT_TO_LOCAL, ToTable(TABLE_LOCAL_NETWORK), ANY_MARK, Some(iface), None, AllUids)
  }

  function VpnPriority(secure: bool, excludeLocal: bool): nat {
    if secure then SECURE_VPN
    else if excludeLocal then BYPASSABLE_VPN_LOCAL_EXCLUSION else BYPASSABLE_VPN_NO_LOCAL_EXCLUSION
  }

  function VpnUidRange(table: nat, uids: UidSelector, sub: nat, secure: bool, excludeLocal: bool): Entry {
    var mark := MarkMatch(None, if secure then None else Some(false), Some(false), PERMISSION_NONE);
    IpRule(VpnPriority(secure, excludeLocal) + sub, ToTable(table), mark, Some(LOOPBACK), None, uids)
  }

  function VpnSystem(netId: NetId, table: nat, secure: bool, excludeLocal: bool): Entry {
    IpRule(VpnPriority(secure, excludeLocal), ToTable(table), Exactly(netId, None, PERMISSION_SYSTEM), None, None,
           AllUids)
  }

  function ExplicitNetwork(netId: NetId, table: nat, permission: Permission, uids: UidSelector, sub: nat): Entry {
    IpRule(EXPLICIT_NETWORK + sub, ToTable(table), Exactly(netId, Some(true), permission), Some(LOOPBACK), None, uids)
  }

  function LocalNetworkRule(table: nat): Entry {
    IpRule(LOCAL_NETWORK, ToTable(table), IMPLICIT_MARK, None, None, AllUids)
  }

  function OifOverride(iface: string, table: nat): Entry {
    IpRule(VPN_OVERRIDE_OIF, ToTable(table), ANY_MARK, Some(LOOPBACK), Some(iface), Span(0, 0))
  }

  function OutputInterface(iface: string, table: nat, permission: Permission, uids: UidSelector, sub: nat): Entry {
    IpRule(OUTPUT_INTERFACE + sub, ToTable(table), MarkMatch(None, None, None, permission),
           Some(LOOPBACK), Some(iface), uids)
  }

  function ImplicitNetwork(netId: NetId, table: nat): Entry {
    IpRule(IMPLICIT_NETWORK, ToTable(table), Exactly(netId, Some(false), PERMISSION_NONE), Some(LOOPBACK), None,
           AllUids)
  }

  function LocalExclusion(localTable: nat): Entry {
    IpRule(LOCAL_ROUTES, ToTable(localTable), IMPLICIT_MARK, Some(LOOPBACK), None, AllUids)
  }

  function VpnFallthrough(vpnNetId: NetId, table: nat, permission: Permission): Entry {
    IpRule(VPN_FALLTHROUGH, ToTable(table), Exactly(vpnNetId, None, permission), None, None, AllUids)
  }

  function UidNetwork(netId: NetId, table: nat, uids: UidSelector, sub: nat, explicitly: bool): Entry {
    IpRule((if explicitly then UID_EXPLICIT_NETWORK else UID_IMPLICIT_NETWORK) + sub, ToTable(table),
           Exactly(netId, Some(explicitly), PERMISSION_NONE), Some(LOOPBACK), None, uids)
  }

  function UidDefaultNetwork(table: nat, uids: UidSelector, sub: nat): Entry {
    IpRule(UID_DEFAULT_NETWORK + sub, ToTable(table), Exactly(NETID_UNSET, None, PERMISSION_NONE),
           Some(LOOPBACK), None, uids)
  }

  function UidLocalNetwork(localTable: nat, uids: UidSelector): Entry {
    IpRule(UID_LOCAL_ROUTES, ToTable(localTable), IMPLICIT_MARK, Some(LOOPBACK), None, uids)
  }

  function UidUnreachable(netId: NetId, uids: UidSelector, sub: nat, explicitly: bool): Entry {
    IpRule((if explicitly then UID_EXPLICIT_NETWORK else UID_IMPLICIT_NETWORK) + sub, Unreachable,
           Exactly(netId, Some(explicitly), PERMISSION_NONE), Some(LOOPBACK), None, uids)
  }

  function UidDefaultUnreachable(uids: UidSelector, sub: nat): Entry {
    IpRule(UID_DEFAULT_UNREACHABLE + sub, Unreachable, Exactly(NETID_UNSET, None, PERMISSION_NONE),
           Some(LOOPBACK), None, uids)
  }

  function RejectNonSecure(uids: UidSelector): Entry {
    IpRule(PROHIBIT_NON_VPN, Prohibit, UNPROTECTED_MARK, Some(LOOPBACK), None, uids)
  }

  function DefaultNetwork(table: nat, permission: Permission): Entry {
    IpRule(DEFAULT_NETWORK, ToTable(table), Exactly(NETID_UNSET, None, permission), Some(LOOPBACK), None, AllUids)
  }

  function Tethering(input: string, table: nat): Entry {
    IpRule(TETHERING, ToTable(table), ANY_MARK, Some(input), None, AllUids)
  }

  /** The checks a rule request makes before anything is sent. */
  predicate Sendable(e: Entry) {
    e.IpRule? ==>
      && !e.uids.Refused?
      && (e.iif.Some? ==> |e.iif.value| < IFNAMSIZ)
      && (e.oif.Some? ==> |e.oif.value| < IFNAMSIZ)
  }

  // ---- request lists, in the order they are issued ----------------------------------------------

  function OutputInterfaces(iface: string, table: nat, permission: Permission, uids: UidSelector,
                            sub: nat): seq<Entry> {
    (if uids.AllUids? then [OifOverride(iface, table)] else [])
    + [OutputInterface(iface, table, permission, uids, sub)]
  }

  function PhysicalUidRequests(netId: NetId, table: nat, sub: nat, r: UidRange): seq<Entry> {
    var uids := StrictUids(r);
    [UidNetwork(netId, table, uids, sub, true), UidNetwork(netId, table, uids, sub, false)]
    + if sub == SUB_PRIORITY_NO_DEFAULT then []
      else [UidDefaultNetwork(table, uids, sub), UidLocalNetwork(LocalTable(table), uids)]
  }

  function LocalNetworkRequests(table: nat): seq<Entry> {
    [LocalNetworkRule(table), ExplicitNetwork(LOCAL_NET_ID, table, PERMISSION_NONE, AllUids, 0)]
  }

  function PhysicalRequests(netId: NetId, iface: string, table: nat, permission: Permission, local: bool): seq<Entry> {
    [Incoming(netId, iface, permission), ExplicitNetwork(netId, table, permission, AllUids, 0)]
    + (if local then LocalNetworkRequests(table) else [])
    + OutputInterfaces(iface, table, permission, AllUids, 0)
    + (if permission == PERMISSION_NONE then [ImplicitNetwork(netId, table)] else [])
  }

  function FallthroughRequests(vpnNetId: NetId, table: nat, permission: Permission): seq<Entry> {
    [VpnFallthrough(vpnNetId, table, permission), LocalExclusion(LocalTable(table))]
  }

  function VirtualUidRequests(netId: NetId, iface: string, table: nat, secure: bool, excludeLocal: bool,
                              sub: nat, r: UidRange): seq<Entry> {
    var uids := LooseUids(r);
    [VpnUidRange(table, uids, sub, secure, excludeLocal), ExplicitNetwork(netId, table, PERMISSION_NONE, uids, sub)]
    + OutputInterfaces(iface, table, PERMISSION_NONE, uids, sub)
  }

  function VirtualRequests(netId: NetId, iface: string, table: nat, secure: bool, excludeLocal: bool): seq<Entry> {
    [Incoming(netId, iface, PERMISSION_NONE), VpnOutputToLocal(iface), VpnSystem(netId, table, secure, excludeLocal),
     ExplicitNetwork(netId, table, PERMISSION_NONE, Span(0, 0), 0)]
  }

  function LocalRequests(iface: string): seq<Entry> {
    [Incoming(LOCAL_NET_ID, iface, PERMISSION_NONE)]
    + OutputInterfaces(iface, TABLE_LOCAL_NETWORK, PERMISSION_NONE, AllUids, 0)
  }

  function UnreachableUidRequests(netId: NetId, sub: nat, r: UidRange): seq<Entry> {
    var uids := StrictUids(r);
    [UidUnreachable(netId, uids, sub, true), UidUnreachable(netId, uids, sub, false), UidDefaultUnreachable(uids, sub)]
  }

  function DummyRequests(table: nat): seq<Entry> {
    OutputInterfaces(DUMMY_INTERFACE, table, PERMISSION_NONE, AllUids, 0)
  }

  /** What initialisation installs, before the dummy interface. */
  const INITIAL_REQUESTS: seq<Entry> := [
    IpRule(LEGACY_SYSTEM, ToTable(TABLE_LEGACY_SYSTEM), IMPLICIT_MARK, None, None, AllUids),
    IpRule(LEGACY_NETWORK, ToTable(TABLE_LEGACY_NETWORK), IMPLICIT_MARK, None, None, AllUids),
    IpRule(VPN_OVERRIDE_SYSTEM, ToTable(TABLE_LEGACY_SYSTEM), MarkMatch(None, Some(false), None, PERMISSION_SYSTEM),
           None, None, AllUids),
    ExplicitNetwork(LOCAL_NET_ID, TABLE_LOCAL_NETWORK, PERMISSION_NONE, AllUids, 0),
    LocalNetworkRule(TABLE_LOCAL_NETWORK),
    IpRule(UNREACHABLE, Unreachable, ANY_MARK, None, None, AllUids)]

  // ---- networks -------------------------------------------------------------------------------

  type UidRangeMap = map<nat, seq<UidRange>>

  datatype Kind =
    | Physical(permission: Permission, isDefault: bool, local: bool)
    | Virtual(secure: bool, excludeLocal: bool)
    | Local
    | Dummy
    | UnreachableKind

  datatype Network = Network(kind: Kind, ifaces: set<string>, uids: UidRangeMap, allowed: Option<seq<UidRange>>)

  type Networks = map<NetId, Network>
  type Tables = map<string, nat>

  function TableOf(tabs: Tables, iface: string): nat {
    if iface in tabs then tabs[iface] else 0
  }

  function RangesAt(uids: UidRangeMap, sub: nat): seq<UidRange> {
    if sub in uids then uids[sub] else []
  }

  /** The requests for one range at one subpriority. */
  type UidBuilder = (nat, UidRange) -> seq<Entry>

  ghost function RangeFn(sub: nat, f: UidBuilder): UidRange -> multiset<Entry> {
    r => multiset(f(sub, r))
  }

  ghost function RangeSum(ranges: seq<UidRange>, sub: nat, f: UidBuilder): multiset<Entry> {
    SumSeq(ranges, RangeFn(sub, f))
  }

  ghost function SubFn(uids: UidRangeMap, f: UidBuilder): nat -> multiset<Entry> {
    (sub: nat) => RangeSum(RangesAt(uids, sub), sub, f)
  }

  ghost function UidSum(uids: UidRangeMap, f: UidBuilder): multiset<Entry> {
    Sum(uids.Keys, SubFn(uids, f))
  }

  function PhysicalUids(netId: NetId, table: nat): UidBuilder {
    (sub: nat, r: UidRange) => PhysicalUidRequests(netId, table, sub, r)
  }

  function VirtualUids(netId: NetId, iface: string, table: nat, secure: bool, excludeLocal: bool): UidBuilder {
    (sub: nat, r: UidRange) => VirtualUidRequests(netId, iface, table, secure, excludeLocal, sub, r)
  }

  function UnreachableUids(netId: NetId): UidBuilder {
    (sub: nat, r: UidRange) => UnreachableUidRequests(netId, sub, r)
  }

  /** The entries that one interface of a network calls for. */
  ghost function IfaceEntries(n: NetId, net: Network, iface: string, table: nat): multiset<Entry> {
    match net.kind
    case Physical(permission, _, local) =>
      multiset(PhysicalRequests(n, iface, table, permission, local)) + UidSum(net.uids, PhysicalUids(n, table))
    case Virtual(secure, excludeLocal) =>
      multiset(VirtualRequests(n, iface, table, secure, excludeLocal))
      + UidSum(net.uids, VirtualUids(n, iface, table, secure, excludeLocal))
    case Local => multiset(LocalRequests(iface))
    case Dummy => multiset{}
    case UnreachableKind => multiset{}
  }

  ghost function IfaceFn(n: NetId, net: Network, tabs: Tables): string -> multiset<Entry> {
    i => IfaceEntries(n, net, i, TableOf(tabs, i))
  }

  ghost function NetworkEntries(n: NetId, net: Network, tabs: Tables): multiset<Entry> {
    if net.kind.UnreachableKind? then UidSum(net.uids, UnreachableUids(n)) else Sum(net.ifaces, IfaceFn(n, net, tabs))
  }

  ghost function NetworkFn(nets: Networks, tabs: Tables): NetId -> multiset<Entry> {
    (n: NetId) => if n in nets then NetworkEntries(n, nets[n], tabs) else multiset{}
  }

  function Vpns(nets: Networks): set<NetId> {
    set n | n in nets && nets[n].kind.Virtual?
  }

  ghost function FallthroughFn(table: nat, permission: Permission): NetId -> multiset<Entry> {
    (v: NetId) => multiset(FallthroughRequests(v, table, permission))
  }

  /** What being the default network adds for one interface: its own rule and two per VPN. */
  ghost function DefaultIfaceEntries(vpns: set<NetId>, table: nat, permission: Permission): multiset<Entry> {
    multiset{DefaultNetwork(table, permission)} + Sum(vpns, FallthroughFn(table, permission))
  }

  ghost function DefaultFn(vpns: set<NetId>, tabs: Tables, permission: Permission): string -> multiset<Entry> {
    i => DefaultIfaceEntries(vpns, TableOf(tabs, i), permission)
  }

  ghost function DefaultEntries(ifaces: set<string>, vpns: set<NetId>, tabs: Tables,
                                permission: Permission): multiset<Entry> {
    Sum(ifaces, DefaultFn(vpns, tabs, permission))
  }

  ghost function DefaultAt(nets: Networks, d: NetId, tabs: Tables): multiset<Entry> {
    if d in nets && nets[d].kind.Physical?
    then DefaultEntries(nets[d].ifaces, Vpns(nets), tabs, nets[d].kind.permission)
    else multiset{}
  }

  /** Everything the in-memory state calls for. */
  ghost function Expected(nets: Networks, d: NetId, tabs: Tables, fixed: multiset<Entry>): multiset<Entry> {
    fixed + Sum(nets.Keys, NetworkFn(nets, tabs)) + DefaultAt(nets, d, tabs)
  }
}
