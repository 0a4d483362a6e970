/** The socket-mark server: which mark a socket carries after any run of commands. */
module FwmarkServers {
  import opened Fwmarks
  import opened UidRangeLists
  import opened RuleSet
  import opened Policies

  const EBADF := -9
  const EBADMSG := -74
  const EPROTO := -71
  const EAFNOSUPPORT := -97

  datatype Command =
    | OnAccept
    | OnConnect
    | OnConnectComplete
    | OnSend
    | SelectNetwork(netId: nat)
    | ProtectFromVpn
    | SelectForUser(uid: nat)
    | TagSocket
    | UntagSocket
    | QueryUserAccess(uid: nat, netId: nat)
    | UnknownCommand

  /** The parts of handling a command that the kernel and the client decide. */
  datatype Circumstances = Circumstances(lengthOk: bool, fds: nat, supportedFamily: bool, readable: bool,
                                         writable: bool,
                                         errno: int, tagResult: int)

  // ---- specification ------------------------------------------------------------------------------

  predicate ChangesMark(cmd: Command) {
    cmd.OnAccept? || cmd.OnConnect? || cmd.OnConnectComplete? || cmd.SelectNetwork? || cmd.ProtectFromVpn?
      || cmd.SelectForUser?
  }

  /** Whether a mark-changing command is granted, and the error if it is not. */
  function Grant(p: Policy, uid: nat, cmd: Command): int
    requires PolicyOk(p)
  {
    match cmd
    case SelectNetwork(n) => if n == NETID_UNSET then 0 else CheckUserNetworkAccess(p, uid, n)
    case ProtectFromVpn => if CanProtect(p, uid) then 0 else EPERM
    case SelectForUser(_) => if PermissionForUser(p, uid).Covers(PERMISSION_SYSTEM) then 0 else EPERM
    case _ => 0
  }

  function NextNetId(p: Policy, uid: nat, cmd: Command, mark: Fwmark): NetId
    requires PolicyOk(p)
  {
    match cmd
    case OnConnect =>
      if mark.explicitlySelected then mark.netId
      else if !mark.protectedFromVpn then NetworkForConnect(p, uid)
      else if IsVirtual(p, mark.netId) then mark.netId else p.defaultNet
    case SelectNetwork(n) => n % NET_ID_LIMIT
    case ProtectFromVpn => if !mark.explicitlySelected && IsVirtual(p, mark.netId) then p.defaultNet else mark.netId
    case SelectForUser(user) => NetworkForUser(p, user)
    case _ => mark.netId
  }

  function NextProtected(p: Policy, uid: nat, cmd: Command, mark: Fwmark): bool {
    match cmd
    case SelectNetwork(n) => n != NETID_UNSET && CanProtect(p, uid)
    case ProtectFromVpn => true
    case SelectForUser(_) => true
    case _ => mark.protectedFromVpn
  }

  function NextPermission(p: Policy, uid: nat, cmd: Command, mark: Fwmark): Permission {
    var own := PermissionForUser(p, uid);
    match cmd
    case OnAccept => own.Or(mark.permission)
    case ProtectFromVpn => own.Or(mark.permission)
    case SelectNetwork(n) => if n == NETID_UNSET then PERMISSION_NONE else own
    case _ => own
  }

  /** The mark a granted command asks for. */
  function NextMark(p: Policy, uid: nat, cmd: Command, mark: Fwmark): Fwmark
    requires PolicyOk(p)
  {
    Fwmark(NextNetId(p, uid, cmd, mark), if cmd.SelectNetwork? then cmd.netId != NETID_UNSET
           else mark.explicitlySelected,
           NextProtected(p, uid, cmd, mark), NextPermission(p, uid, cmd, mark), mark.upper)
  }

  datatype Step = Step(policy: Policy, uid: nat, cmd: Command, at: Circumstances)

  /** The command got as far as changing the socket's mark. */
  predicate Effective(s: Step)
    requires PolicyOk(s.policy)
  {
    && s.at.lengthOk && s.at.fds == 1 && s.at.supportedFamily && s.at.readable && s.at.writable
    && ChangesMark(s.cmd) && Grant(s.policy, s.uid, s.cmd) == 0
  }

  function After(s: Step, mark: Fwmark): Fwmark
    requires PolicyOk(s.policy)
  {
    if Effective(s) then NextMark(s.policy, s.uid, s.cmd, mark) else mark
  }

  /** The answer to the client. */
  function Reply(s: Step): int
    requires PolicyOk(s.policy)
  {
    if !s.at.lengthOk then EBADMSG
    else if s.cmd.QueryUserAccess? then
      if PermissionForUser(s.policy, s.uid).Covers(PERMISSION_SYSTEM)
      then CheckUserNetworkAccess(s.policy, s.cmd.uid, s.cmd.netId) else EPERM
    else if s.at.fds != 1 then EBADF
    else if !s.at.supportedFamily then EAFNOSUPPORT
    else if !s.at.readable then s.at.errno
    else if s.cmd.OnSend? then 0
    else if s.cmd.TagSocket? || s.cmd.UntagSocket? then s.at.tagResult
    else if !ChangesMark(s.cmd) then EPROTO
    else if Grant(s.policy, s.uid, s.cmd) != 0 then Grant(s.policy, s.uid, s.cmd)
    else if !s.at.writable then s.at.errno
    else 0
  }

  predicate StepsOk(steps: seq<Step>) {
    forall s :: s in steps ==> PolicyOk(s.policy)
  }

  /** The mark after a run of commands, the policy changing freely between them. */
  function MarkAfter(steps: seq<Step>, mark: Fwmark): Fwmark
    requires StepsOk(steps)
  {
    if steps == [] then mark else After(steps[|steps| - 1], MarkAfter(steps[..|steps| - 1], mark))
  }

  // ---- the server -----------------------------------------------------------------------------------

  class Socket {
    var mark: Fwmark

    constructor ()
      ensures mark == MARK_ZERO
    {
      mark := MARK_ZERO;
    }
  }

  /** Handles one command, editing the mark it read and writing it back at the end. */
  method ProcessClient(s: Step, socket: Socket) returns (ret: int)
    requires PolicyOk(s.policy)
    modifies socket
    ensures socket.mark == After(s, old(socket.mark))
    ensures ret == Reply(s)
  {
    if !s.at.lengthOk {
      return EBADMSG;
    }
    var permission: Permission := PermissionForUser(s.policy, s.uid);
    if s.cmd.QueryUserAccess? {
      if !permission.Covers(PERMISSION_SYSTEM) {
        return EPERM;
      }
      return CheckUserNetworkAccess(s.policy, s.cmd.uid, s.cmd.netId);
    }
    if s.at.fds != 1 {
      return EBADF;
    }
    if !s.at.supportedFamily {
      return EAFNOSUPPORT;
    }
    if !s.at.readable {
      return s.at.errno;
    }
    var fwmark := socket.mark;
    match s.cmd {
      case OnAccept =>
        permission := permission.Or(fwmark.permission);
      case OnConnect =>
        if !fwmark.explicitlySelected {
          if !fwmark.protectedFromVpn {
            fwmark := fwmark.(netId := NetworkForConnect(s.policy, s.uid));
          } else if !IsVirtual(s.policy, fwmark.netId) {
            fwmark := fwmark.(netId := s.policy.defaultNet);
          }
        }
      case OnConnectComplete =>
      case OnSend =>
        return 0;
      case SelectNetwork(n) =>
        fwmark := fwmark.(netId := n % NET_ID_LIMIT);
        if n == NETID_UNSET {
          fwmark := fwmark.(explicitlySelected := false, protectedFromVpn := false);
          permission := PERMISSION_NONE;
        } else {
          ret := CheckUserNetworkAccess(s.policy, s.uid, n);
          if ret != 0 {
            return;
          }
          fwmark := fwmark.(explicitlySelected := true, protectedFromVpn := CanProtect(s.policy, s.uid));
        }
      case ProtectFromVpn =>
        if !CanProtect(s.policy, s.uid) {
          return EPERM;
        }
        if !fwmark.explicitlySelected && IsVirtual(s.policy, fwmark.netId) {
          fwmark := fwmark.(netId := s.policy.defaultNet);
        }
        fwmark := fwmark.(protectedFromVpn := true);
        permission := permission.Or(fwmark.permission);
      case SelectForUser(user) =>
        if !permission.Covers(PERMISSION_SYSTEM) {
          return EPERM;
        }
        fwmark := fwmark.(netId := NetworkForUser(s.policy, user), protectedFromVpn := true);
      case TagSocket =>
        return s.at.tagResult;
      case UntagSocket =>
        return s.at.tagResult;
      case _ =>
        return EPROTO;
    }
    fwmark := fwmark.(permission := permission);
    if !s.at.writable {
      return s.at.errno;
    }
    socket.mark := fwmark;
    ret := 0;
  }

  predicate IsUnion(q: Permission, a: Permission, b: Permission) {
    (q.network <==> a.network || b.network) && (q.system <==> a.system || b.system)
  }

  /** What each effective command makes of the mark, in terms of the networks that apply to users. */
  lemma EffectOf(s: Step, mark: Fwmark)
    requires PolicyOk(s.policy) && Effective(s)
    ensures var p, m, own := s.policy, After(s, mark), PermissionForUser(s.policy, s.uid);
      m.upper == mark.upper &&
      match s.cmd
      case OnAccept =>
        m == mark.(permission := m.permission) && IsUnion(m.permission, own, mark.permission)
      case OnConnect =>
        && m == mark.(netId := m.netId, permission := own)
        && (mark.explicitlySelected ==> m.netId == mark.netId)
        && (!mark.explicitlySelected && mark.protectedFromVpn ==>
             m.netId == if mark.netId in p.nets && p.nets[mark.netId].kind.Virtual? then mark.netId else p.defaultNet)
        && (!mark.explicitlySelected && !mark.protectedFromVpn ==>
             || (IsFirstVpn(p.nets, s.uid, m.netId) && !p.nets[m.netId].kind.secure)
             || ((forall v: NetId :: IsFirstVpn(p.nets, s.uid, v) ==> p.nets[v].kind.secure)
                 && IsOwnDefault(p, s.uid, m.netId)))
      case OnConnectComplete => m == mark.(permission := own)
      case SelectNetwork(n) =>
        if n == 0 then m == MARK_ZERO.(upper := mark.upper)
        else m.netId == n && m.explicitlySelected && m.permission == own
             && m.protectedFromVpn == CanProtect(p, s.uid)
      case ProtectFromVpn =>
        && m == mark.(netId := m.netId, protectedFromVpn := true, permission := m.permission)
        && IsUnion(m.permission, own, mark.permission)
        && m.netId == if !mark.explicitlySelected && mark.netId in p.nets && p.nets[mark.netId].kind.Virtual?
                      then p.defaultNet else mark.netId
      case SelectForUser(user) =>
        && m == mark.(netId := m.netId, protectedFromVpn := true, permission := own)
        && (|| IsFirstVpn(p.nets, user, m.netId)
            || ((forall v: NetId :: !IsFirstVpn(p.nets, user, v)) && IsOwnDefault(p, user, m.netId)))
      case _ => true
  {
    hide IsOwnDefault, CheckUserNetworkAccess;
    if s.cmd.SelectNetwork? && s.cmd.netId != 0 {
      AccessAtAll(s.policy, s.uid, s.cmd.netId);
    }
  }

  // ---- runs -----------------------------------------------------------------------------------------

  /** A mark that no secure VPN or lockdown rule lets past. */
  predicate Confined(mark: Fwmark) {
    !mark.protectedFromVpn && !mark.permission.system
  }

  lemma ConfinedStep(s: Step, mark: Fwmark)
    requires PolicyOk(s.policy) && !CanProtect(s.policy, s.uid) && Confined(mark)
    ensures Confined(After(s, mark))
  {}

  /**
   * Whatever a user who may not protect sockets does with a fresh socket, and however the policy
   * changes meanwhile, the socket stays unprotected and without the SYSTEM bit.
   */
  lemma {:induction false} StaysConfined(steps: seq<Step>, mark: Fwmark)
    requires StepsOk(steps) && Confined(mark)
    requires forall s :: s in steps ==> !CanProtect(s.policy, s.uid)
    ensures Confined(MarkAfter(steps, mark))
  {
    if steps != [] {
      StaysConfined(steps[..|steps| - 1], mark);
      ConfinedStep(steps[|steps| - 1], MarkAfter(steps[..|steps| - 1], mark));
    }
  }

  lemma ProtectStep(s: Step, mark: Fwmark)
    requires PolicyOk(s.policy) && !mark.protectedFromVpn && After(s, mark).protectedFromVpn
    ensures CanProtect(s.policy, s.uid)
  {}

  /** The protect bit only appears through a command from a user who may protect at that moment. */
  lemma {:induction false} ProtectionEarned(steps: seq<Step>, mark: Fwmark)
    requires StepsOk(steps) && !mark.protectedFromVpn && MarkAfter(steps, mark).protectedFromVpn
    ensures exists k :: 0 <= k < |steps| && CanProtect(steps[k].policy, steps[k].uid)
             && !MarkAfter(steps[..k], mark).protectedFromVpn && MarkAfter(steps[..k + 1], mark).protectedFromVpn
  {
    hide After, CanProtect, PolicyOk;
    var last := |steps| - 1;
    if MarkAfter(steps[..last], mark).protectedFromVpn {
      ProtectionEarned(steps[..last], mark);
      var k :| 0 <= k < last && CanProtect(steps[k].policy, steps[k].uid)
        && !MarkAfter(steps[..last][..k], mark).protectedFromVpn
          && MarkAfter(steps[..last][..k + 1], mark).protectedFromVpn;
      assert steps[..last][..k] == steps[..k] && steps[..last][..k + 1] == steps[..k + 1];
    } else {
      assert steps[..last + 1] == steps;
      ProtectStep(steps[last], MarkAfter(steps[..last], mark));
    }
  }

  // ---- protected marks on a VPN ---------------------------------------------------------------------

  /** What the connect heuristic takes for a proxy's socket: protected, implicit, on a VPN. */
  predicate LooksLikeProxy(p: Policy, mark: Fwmark) {
    mark.protectedFromVpn && !mark.explicitlySelected && IsVirtual(p, mark.netId)
  }

  /** The same with the VPNs of a lifetime in place of those of the moment. */
  predicate OnVpnId(vpnIds: set<NetId>, mark: Fwmark) {
    mark.protectedFromVpn && !mark.explicitlySelected && mark.netId in vpnIds
  }

  /** No netId of `vpnIds` is ever another kind of network, and no other netId is ever a VPN. */
  predicate KindsKept(vpnIds: set<NetId>, p: Policy) {
    forall n :: n in p.nets ==> (p.nets[n].kind.Virtual? <==> n in vpnIds)
  }

  /**
   * One command other than SELECT_FOR_USER brings a socket onto a VPN's netId with the protect bit
   * and without the explicit bit exactly when it is a granted PROTECT on a socket whose implicit
   * netId belongs to a VPN that does not exist at that moment.
   */
  lemma ProxyLookExactly(s: Step, vpnIds: set<NetId>, mark: Fwmark)
    requires PolicyOk(s.policy) && KindsKept(vpnIds, s.policy) && NETID_UNSET !in vpnIds
    requires !OnVpnId(vpnIds, mark) && !s.cmd.SelectForUser?
    ensures OnVpnId(vpnIds, After(s, mark)) <==>
      Effective(s) && s.cmd.ProtectFromVpn? && !mark.explicitlySelected && mark.netId in vpnIds
        && mark.netId !in s.policy.nets
  {}

  /** A run never looks like a proxy's if PROTECT is only used on sockets whose VPN, if any, exists. */
  lemma {:induction false} NeverProxyLook(steps: seq<Step>, vpnIds: set<NetId>, mark: Fwmark)
    requires StepsOk(steps) && NETID_UNSET !in vpnIds && !OnVpnId(vpnIds, mark)
    requires forall s :: s in steps ==> KindsKept(vpnIds, s.policy) && !s.cmd.SelectForUser?
    requires forall k :: 0 <= k < |steps| && steps[k].cmd.ProtectFromVpn? ==>
      var m := MarkAfter(steps[..k], mark); m.netId in vpnIds ==> m.netId in steps[k].policy.nets
    ensures !OnVpnId(vpnIds, MarkAfter(steps, mark))
  {
    if steps != [] {
      var last := |steps| - 1;
      forall k | 0 <= k < last
        ensures steps[..last][..k] == steps[..k]
      {}
      NeverProxyLook(steps[..last], vpnIds, mark);
      ProxyLookExactly(steps[last], vpnIds, MarkAfter(steps[..last], mark));
    }
  }

  /** A netId, once its network is gone, is not used again, and keeps its kind while it lives. */
  ghost predicate NoRecycling(steps: seq<Step>) {
    && (forall i, j, n :: 0 <= i < j < |steps| && n in steps[i].policy.nets && n in steps[j].policy.nets ==>
          (steps[i].policy.nets[n].kind.Virtual? <==> steps[j].policy.nets[n].kind.Virtual?))
    && (forall i, j, k, n :: 0 <= i < j < k < |steps| && n in steps[i].policy.nets && n !in steps[j].policy.nets ==>
          n !in steps[k].policy.nets)
  }

  /** The netId is not a VPN now nor at any later step. */
  ghost predicate NeverVpnFrom(steps: seq<Step>, k: nat, n: NetId) {
    forall j :: k <= j < |steps| ==> !IsVirtual(steps[j].policy, n)
  }

  /** What holds of the mark before step `k`. */
  ghost predicate HonestAt(steps: seq<Step>, k: nat, mark: Fwmark) {
    && (mark.netId != NETID_UNSET ==> exists i :: 0 <= i < k <= |steps| && mark.netId in steps[i].policy.nets)
    && (mark.protectedFromVpn && !mark.explicitlySelected ==> NeverVpnFrom(steps, k, mark.netId))
  }

  lemma GoneForGood(steps: seq<Step>, i: nat, k: nat, n: NetId)
    requires NoRecycling(steps) && i <= k < |steps| && n in steps[i].policy.nets && !IsVirtual(steps[k].policy, n)
    ensures NeverVpnFrom(steps, k, n)
  {
    forall j | k <= j < |steps|
      ensures !IsVirtual(steps[j].policy, n)
    {
      if j > k && n !in steps[k].policy.nets {
        assert i < k;
      }
    }
  }

  lemma UnsetNeverVpn(steps: seq<Step>, k: nat)
    requires StepsOk(steps)
    ensures NeverVpnFrom(steps, k, NETID_UNSET)
  {
    forall j | k <= j < |steps|
      ensures !IsVirtual(steps[j].policy, NETID_UNSET)
    {
      assert PolicyOk(steps[j].policy);
    }
  }

  lemma HonestStep(steps: seq<Step>, k: nat, mark: Fwmark)
    requires StepsOk(steps) && NoRecycling(steps) && k < |steps| && !steps[k].cmd.SelectForUser?
    requires HonestAt(steps, k, mark)
    ensures HonestAt(steps, k + 1, After(steps[k], mark))
  {
    hide NoRecycling;
    var s := steps[k];
    assert s in steps;
    var next := After(s, mark);
    if mark.netId != NETID_UNSET {
      var i :| 0 <= i < k && mark.netId in steps[i].policy.nets;
      if !IsVirtual(s.policy, mark.netId) {
        GoneForGood(steps, i, k, mark.netId);
      }
    }
    UnsetNeverVpn(steps, k);
    var d := s.policy.defaultNet;
    if d != NETID_UNSET {
      GoneForGood(steps, k, k, d);
    }
    if Effective(s) && s.cmd.SelectNetwork? && s.cmd.netId != NETID_UNSET {
      assert s.cmd.netId in s.policy.nets;
    }
    assert next.netId == mark.netId || next.netId == NETID_UNSET || next.netId in s.policy.nets;
  }

  lemma HonestStart(steps: seq<Step>)
    ensures HonestAt(steps, 0, MARK_ZERO)
  {}

  lemma {:induction false} HonestRun(steps: seq<Step>, k: nat)
    requires StepsOk(steps) && NoRecycling(steps) && k <= |steps| && forall s :: s in steps ==> !s.cmd.SelectForUser?
    ensures HonestAt(steps, k, MarkAfter(steps[..k], MARK_ZERO))
  {
    hide NoRecycling, HonestAt, After, PolicyOk;
    if k == 0 {
      HonestStart(steps);
    } else {
      HonestRun(steps, k - 1);
      assert steps[..k][..k - 1] == steps[..k - 1] && steps[..k][k - 1] == steps[k - 1];
      HonestStep(steps, k - 1, MarkAfter(steps[..k - 1], MARK_ZERO));
    }
  }

  /**
   * The invariant behind the connect heuristic: if netIds are not recycled, no run without
   * SELECT_FOR_USER ever meets a policy under which its socket looks like a proxy's.
   */
  lemma NoProxyLookWithoutRecycling(steps: seq<Step>, k: nat)
    requires StepsOk(steps) && NoRecycling(steps) && k < |steps| && forall s :: s in steps ==> !s.cmd.SelectForUser?
    ensures !LooksLikeProxy(steps[k].policy, MarkAfter(steps[..k], MARK_ZERO))
  {
    HonestRun(steps, k);
  }

  /** A VPN that applies to one user, who may protect sockets, and the same without the VPN. */
  function WithVpn(n: NetId, user: nat): Policy
    requires user <= INT32_MAX
  {
    Policy(map[n := Network(Virtual(false, false), {}, map[0 := [UidRange(user, user)]], None)], NETID_UNSET, map[],
           {user})
  }

  function WithoutVpn(user: nat): Policy {
    Policy(map[], NETID_UNSET, map[], {user})
  }

  /**
   * With recycling it fails: connect under a bypassable VPN, protect after the VPN is gone, and the
   * socket looks like a proxy's once a VPN gets the same netId again.
   */
  lemma RecyclingFools(n: NetId, user: nat)
    requires n != NETID_UNSET && user <= INT32_MAX
    ensures var usual := Circumstances(true, 1, true, true, true, 0, 0);
      var steps := [Step(WithVpn(n, user), user, OnConnect, usual),
                    Step(WithoutVpn(user), user, ProtectFromVpn, usual)];
      StepsOk(steps) && LooksLikeProxy(WithVpn(n, user), MarkAfter(steps, MARK_ZERO))
  {
    var usual := Circumstances(true, 1, true, true, true, 0, 0);
    var p := WithVpn(n, user);
    var ranges := [UidRange(user, user)];
    assert LowerBound(ranges, user) == 0 by {
      LowerBoundUnique(ranges, user, 0);
    }
    assert Has(p.nets[n].uids, 0, user);
    assert IsVpnFor(p.nets, n, user);
    assert NetworkForConnect(p, user) == n;
    var connect, protect := Step(p, user, OnConnect, usual), Step(WithoutVpn(user), user, ProtectFromVpn, usual);
    assert [connect, protect][..1] == [connect] && [connect][..0] == [];
    assert MarkAfter([connect], MARK_ZERO) == After(connect, MARK_ZERO);
  }
}
