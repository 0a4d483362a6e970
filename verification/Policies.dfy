/** What the network controller answers about users: permissions, VPNs, per-app defaults, access. */
module Policies {
  import opened Fwmarks
  import opened UidRangeLists
  import opened RuleSet
  import opened NetworkStates

  const FIRST_APPLICATION_UID := 10000
  const INVALID_UID := 0xFFFF_FFFF

  const EPERM := -1
  const EACCES := -13
  const ENONET := -64
  const EREMOTEIO := -121

  const NET_ID_LIMIT := 0x10000

  /** The permissions a user can be given: SYSTEM always comes with NETWORK. */
  type UserPermission = p: Permission | p.system ==> p.network witness PERMISSION_NONE

  datatype Policy = Policy(nets: Networks, defaultNet: NetId, users: map<nat, UserPermission>, protectable: set<nat>)

  predicate UidsOk(uids: UidRangeMap) {
    forall sub :: sub in uids ==> sub < 1000 && Sorted(uids[sub])
  }

  predicate UsersOk(nets: Networks) {
    forall n :: n in nets ==> UidsOk(nets[n].uids) && (nets[n].allowed.Some? ==> Sorted(nets[n].allowed.value))
  }

  predicate PolicyOk(p: Policy) {
    UsersOk(p.nets) && DefaultOk(p.nets, p.defaultNet) && NETID_UNSET !in p.nets
  }

  // ---- uid ranges of a network ------------------------------------------------------------------

  predicate Has(uids: UidRangeMap, sub: nat, uid: nat)
    requires UidsOk(uids)
  {
    sub in uids && HasUid(uids[sub], uid)
  }

  /** The least subpriority from `k` on whose ranges hold the uid. */
  function FirstSub(uids: UidRangeMap, uid: nat, k: nat): (r: Option<nat>)
    requires UidsOk(uids) && k <= 1000
    ensures r.Some? ==> k <= r.value && Has(uids, r.value, uid) && forall s: nat :: k <= s < r.value ==>
      !Has(uids, s, uid)
    ensures r.None? ==> forall s: nat :: k <= s ==> !Has(uids, s, uid)
    decreases 1000 - k
  {
    if k == 1000 then None else if Has(uids, k, uid) then Some(k) else FirstSub(uids, uid, k + 1)
  }

  function AppliesToUser(net: Network, uid: nat): Option<nat>
    requires UidsOk(net.uids)
  {
    FirstSub(net.uids, uid, 0)
  }

  // ---- VPNs -------------------------------------------------------------------------------------

  predicate IsVpnFor(nets: Networks, n: nat, uid: nat)
    requires UsersOk(nets)
  {
    n in nets && nets[n].kind.Virtual? && AppliesToUser(nets[n], uid).Some?
  }

  /** The VPN with the least netId, from `k` on, that applies to the uid. */
  function VpnFrom(nets: Networks, uid: nat, k: nat): (r: Option<NetId>)
    requires UsersOk(nets) && k <= NET_ID_LIMIT
    ensures r.Some? ==> k <= r.value && IsVpnFor(nets, r.value, uid)
    ensures r.Some? ==> forall n: NetId :: k <= n < r.value ==> !IsVpnFor(nets, n, uid)
    ensures r.None? ==> forall n: NetId :: k <= n ==> !IsVpnFor(nets, n, uid)
    decreases NET_ID_LIMIT - k
  {
    if k == NET_ID_LIMIT then None else if IsVpnFor(nets, k, uid) then Some(k) else VpnFrom(nets, uid, k + 1)
  }

  method GetVirtualNetworkForUser(nets: Networks, uid: nat) returns (r: Option<NetId>)
    requires UsersOk(nets)
    ensures r == VpnFrom(nets, uid, 0)
    ensures r.Some? ==> IsVpnFor(nets, r.value, uid) && forall n: NetId :: n < r.value ==> !IsVpnFor(nets, n, uid)
    ensures r.None? ==> forall n: NetId :: !IsVpnFor(nets, n, uid)
  {
    for k := 0 to NET_ID_LIMIT
      invariant VpnFrom(nets, uid, 0) == VpnFrom(nets, uid, k)
      invariant forall n: NetId :: n < k ==> !IsVpnFor(nets, n, uid)
    {
      if IsVpnFor(nets, k, uid) {
        return Some(k);
      }
    }
    r := None;
  }

  /** The VPN of least netId that applies to the uid. */
  ghost predicate IsFirstVpn(nets: Networks, uid: nat, v: NetId)
    requires UsersOk(nets)
  {
    IsVpnFor(nets, v, uid) && forall n: NetId :: n < v ==> !IsVpnFor(nets, n, uid)
  }

  // ---- per-app defaults -------------------------------------------------------------------------

  /** The subpriority at which a physical or the unreachable network is a uid's default, if it is. */
  function DefaultSub(nets: Networks, n: nat, uid: nat): Option<nat>
    requires UsersOk(nets)
  {
    if n !in nets || !(nets[n].kind.Physical? || nets[n].kind.UnreachableKind?) then None
    else
      var sub := AppliesToUser(nets[n], uid);
      if sub == Some(SUB_PRIORITY_NO_DEFAULT) then None else sub
  }

  /** `r` is the best default among the netIds below `k`: least subpriority, then least netId. */
  ghost predicate IsBestBelow(nets: Networks, uid: nat, k: nat, r: Option<NetId>)
    requires UsersOk(nets)
  {
    match r
    case None => forall n: NetId :: n < k ==> DefaultSub(nets, n, uid).None?
    case Some(b) =>
      && b < k && DefaultSub(nets, b, uid).Some?
      && forall n: NetId :: n < k && DefaultSub(nets, n, uid).Some? ==>
           var s, t := DefaultSub(nets, b, uid).value, DefaultSub(nets, n, uid).value;
           s < t || (s == t && b <= n)
  }

  function BestBelow(nets: Networks, uid: nat, k: nat): (r: Option<NetId>)
    requires UsersOk(nets) && k <= NET_ID_LIMIT
    ensures r.Some? ==> r.value < k && DefaultSub(nets, r.value, uid).Some?
  {
    if k == 0 then None
    else
      var b := BestBelow(nets, uid, k - 1);
      var sub := DefaultSub(nets, k - 1, uid);
      if sub.Some? && (b.None? || sub.value < DefaultSub(nets, b.value, uid).value) then Some(k - 1) else b
  }

  lemma {:induction false} BestBelowIsBest(nets: Networks, uid: nat, k: nat)
    requires UsersOk(nets) && k <= NET_ID_LIMIT
    ensures IsBestBelow(nets, uid, k, BestBelow(nets, uid, k))
  {
    hide DefaultSub, UsersOk;
    if k > 0 {
      BestBelowIsBest(nets, uid, k - 1);
    }
  }

  /** The per-app default network of a uid. */
  function DefaultFor(nets: Networks, uid: nat): Option<NetId>
    requires UsersOk(nets)
  {
    BestBelow(nets, uid, NET_ID_LIMIT)
  }

  method GetPhysicalOrUnreachableNetworkForUser(nets: Networks, uid: nat) returns (best: Option<NetId>)
    requires UsersOk(nets)
    ensures IsBestBelow(nets, uid, NET_ID_LIMIT, best)
    ensures best == DefaultFor(nets, uid)
  {
    best := None;
    var bestSub := SUB_PRIORITY_NO_DEFAULT;
    for k := 0 to NET_ID_LIMIT
      invariant best == BestBelow(nets, uid, k)
      invariant best.None? ==> bestSub == SUB_PRIORITY_NO_DEFAULT
      invariant best.Some? ==> DefaultSub(nets, best.value, uid) == Some(bestSub)
    {
      if k !in nets || !(nets[k].kind.Physical? || nets[k].kind.UnreachableKind?) {
        continue;
      }
      var sub := AppliesToUser(nets[k], uid);
      if sub.None? || sub.value == SUB_PRIORITY_NO_DEFAULT {
        continue;
      }
      if sub.value < bestSub {
        best, bestSub := Some(k), sub.value;
      }
    }
    BestBelowIsBest(nets, uid, NET_ID_LIMIT);
  }

  // ---- answers the socket-mark server relies on ---------------------------------------------------

  function PermissionForUser(p: Policy, uid: nat): UserPermission {
    if uid in p.users then p.users[uid] else if uid < FIRST_APPLICATION_UID then PERMISSION_SYSTEM else PERMISSION_NONE
  }

  predicate CanProtect(p: Policy, uid: nat) {
    PermissionForUser(p, uid).Covers(PERMISSION_SYSTEM) || uid in p.protectable
  }

  /** SYSTEM belongs to the users it was given to, and to those below the application uids without an entry. */
  lemma SystemUsers(p: Policy, uid: nat)
    ensures PermissionForUser(p, uid).Covers(PERMISSION_SYSTEM) <==>
      (uid in p.users && p.users[uid].system) || (uid !in p.users && uid < 10000)
    ensures CanProtect(p, uid) <==>
      (uid in p.users && p.users[uid].system) || (uid !in p.users && uid < 10000) || uid in p.protectable
    ensures uid !in p.users && uid >= 10000 ==> PermissionForUser(p, uid) == PERMISSION_NONE
    ensures uid in p.users ==> PermissionForUser(p, uid) == p.users[uid]
  {}

  predicate IsVirtual(p: Policy, n: nat) {
    n in p.nets && p.nets[n].kind.Virtual?
  }

  /** The permission needed to select a network; all but physical networks ask for SYSTEM. */
  function NetworkPermission(net: Network): Permission {
    if net.kind.Physical? then net.kind.permission else PERMISSION_SYSTEM
  }

  function CheckUserNetworkAccess(p: Policy, uid: nat, n: nat): int
    requires PolicyOk(p)
  {
    if n !in p.nets then ENONET
    else if uid == INVALID_UID then EREMOTEIO
    else if PermissionForUser(p, uid).Covers(PERMISSION_SYSTEM) then 0
    else
      var net := p.nets[n];
      var applies := AppliesToUser(net, uid).Some?;
      var vpn := VpnFrom(p.nets, uid, 0);
      if net.kind.Virtual? then if applies then 0 else EPERM
      else if vpn.Some? && p.nets[vpn.value].kind.Virtual? && p.nets[vpn.value].kind.secure && uid !in p.protectable
        then EPERM
      else if net.kind.Physical? && applies then 0
      else if net.kind.UnreachableKind? then if applies then 0 else EPERM
      else if net.allowed.Some? && !HasUid(net.allowed.value, uid) then EACCES
      else if PermissionForUser(p, uid).Covers(NetworkPermission(net)) then 0 else EACCES
  }

  /** A secure VPN is the first that applies to the uid, and the uid may not protect its sockets. */
  ghost predicate HeldByVpn(p: Policy, uid: nat)
    requires PolicyOk(p)
  {
    uid !in p.protectable && exists v: NetId :: IsFirstVpn(p.nets, uid, v) && p.nets[v].kind.secure
  }

  lemma FirstVpn(p: Policy, uid: nat)
    requires PolicyOk(p)
    ensures var vpn := VpnFrom(p.nets, uid, 0);
      HeldByVpn(p, uid) <==> vpn.Some? && p.nets[vpn.value].kind.secure && uid !in p.protectable
  {
    var vpn := VpnFrom(p.nets, uid, 0);
    if vpn.Some? {
      assert IsFirstVpn(p.nets, uid, vpn.value);
    }
  }

  /**
   * Access of a user without SYSTEM to each kind of network, and the error otherwise. A physical network
   * is open to the uids in its ranges, and to those on its allow list, if it has one, who have its
   * permission; unless a secure VPN holds the user.
   */
  lemma AccessExactly(p: Policy, uid: nat, n: NetId)
    requires PolicyOk(p) && uid != INVALID_UID && n in p.nets
    requires !PermissionForUser(p, uid).Covers(PERMISSION_SYSTEM)
    ensures var net, ret := p.nets[n], CheckUserNetworkAccess(p, uid, n);
      var listed := exists sub: nat :: Has(net.uids, sub, uid);
      var allowed := net.allowed.Some? ==> HasUid(net.allowed.value, uid);
      match net.kind
      case Physical(permission, _, _) =>
        && (ret == 0 <==>
            !HeldByVpn(p, uid) && (listed || (allowed && PermissionForUser(p, uid).Covers(permission))))
        && (ret != 0 ==> ret == if HeldByVpn(p, uid) then EPERM else EACCES)
      case Virtual(_, _) => ret == if listed then 0 else EPERM
      case UnreachableKind => ret == if !HeldByVpn(p, uid) && listed then 0 else EPERM
      case _ => ret == if HeldByVpn(p, uid) then EPERM else EACCES
  {
    FirstVpn(p, uid);
    var sub := AppliesToUser(p.nets[n], uid);
    assert sub.Some? ==> Has(p.nets[n].uids, sub.value, uid);
  }

  /** Whatever the network: it has to exist, the user has to be known, and SYSTEM opens all of them. */
  lemma AccessAtAll(p: Policy, uid: nat, n: nat)
    requires PolicyOk(p)
    ensures n !in p.nets ==> CheckUserNetworkAccess(p, uid, n) == ENONET
    ensures n in p.nets && uid == INVALID_UID ==> CheckUserNetworkAccess(p, uid, n) == EREMOTEIO
    ensures n in p.nets && uid != INVALID_UID && PermissionForUser(p, uid).Covers(PERMISSION_SYSTEM) ==>
      CheckUserNetworkAccess(p, uid, n) == 0
  {}

  /** The local and the dummy network can be selected with the SYSTEM permission only. */
  lemma OwnNetworksNeedSystem(p: Policy, uid: nat, n: NetId)
    requires PolicyOk(p) && uid != INVALID_UID
    requires n in p.nets && (p.nets[n].kind.Local? || p.nets[n].kind.Dummy?)
    ensures CheckUserNetworkAccess(p, uid, n) == 0 <==> PermissionForUser(p, uid).Covers(PERMISSION_SYSTEM)
  {}

  /**
   * What sockets use that are not meant for a VPN: the best per-app default of the uid, and the default
   * network if it has none.
   */
  ghost predicate IsOwnDefault(p: Policy, uid: nat, n: NetId)
    requires PolicyOk(p)
  {
    || IsBestBelow(p.nets, uid, NET_ID_LIMIT, Some(n))
    || (IsBestBelow(p.nets, uid, NET_ID_LIMIT, None) && n == p.defaultNet)
  }

  /** The network a connecting socket is marked with: never a secure VPN. */
  function NetworkForConnect(p: Policy, uid: nat): (n: NetId)
    requires PolicyOk(p)
    ensures n == NETID_UNSET || n in p.nets
    ensures IsVirtual(p, n) ==> IsVpnFor(p.nets, n, uid) && !p.nets[n].kind.secure
    ensures forall v: NetId :: IsFirstVpn(p.nets, uid, v) && !p.nets[v].kind.secure ==> n == v
    ensures (forall v: NetId :: IsFirstVpn(p.nets, uid, v) ==> p.nets[v].kind.secure) ==> IsOwnDefault(p, uid, n)
  {
    BestBelowIsBest(p.nets, uid, NET_ID_LIMIT);
    var vpn := VpnFrom(p.nets, uid, 0);
    assert vpn.Some? ==> IsFirstVpn(p.nets, uid, vpn.value);
    if vpn.Some? && p.nets[vpn.value].kind.Virtual? && !p.nets[vpn.value].kind.secure then vpn.value
    else
      var best := DefaultFor(p.nets, uid);
      if best.Some? then best.value else p.defaultNet
  }

  function NetworkForUser(p: Policy, uid: nat): (n: NetId)
    requires PolicyOk(p)
    ensures n == NETID_UNSET || n in p.nets
    ensures IsVirtual(p, n) <==> exists v: NetId :: IsVpnFor(p.nets, v, uid)
    ensures forall v: NetId :: IsFirstVpn(p.nets, uid, v) ==> n == v
    ensures (forall v: NetId :: !IsFirstVpn(p.nets, uid, v)) ==> IsOwnDefault(p, uid, n)
  {
    BestBelowIsBest(p.nets, uid, NET_ID_LIMIT);
    var vpn := VpnFrom(p.nets, uid, 0);
    assert vpn.Some? ==> IsFirstVpn(p.nets, uid, vpn.value);
    if vpn.Some? then vpn.value
    else
      var best := DefaultFor(p.nets, uid);
      if best.Some? then best.value else p.defaultNet
  }

  /**
   * A user under a secure VPN who can neither protect sockets nor act as the system may select
   * exactly the VPNs that apply to it.
   */
  lemma AccessUnderSecureVpn(p: Policy, uid: nat, n: NetId)
    requires PolicyOk(p) && !CanProtect(p, uid) && uid != INVALID_UID
    requires var vpn := VpnFrom(p.nets, uid, 0); vpn.Some? && p.nets[vpn.value].kind.secure
    ensures CheckUserNetworkAccess(p, uid, n) == 0 <==> IsVpnFor(p.nets, n, uid)
  {}
}
