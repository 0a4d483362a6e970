/** Closing the sockets that a permission change cuts off: the filter program and the loops around it. */
module SockDiags {
  import opened Fwmarks
  import opened IpRules
  import opened RuleSet

  // ---- filter programs --------------------------------------------------------------------------------

  const BC_NOP := 0
  const BC_JMP := 1
  const BC_MARK_COND := 10

  /** Four bytes of a program: an instruction, or one of the operands that follow it. */
  datatype Cell = Instruction(code: nat, yes: nat, no: nat) | Operand(value: Word)

  type Program = seq<Cell>

  const CELL := 4

  function Size(prog: Program): nat {
    CELL * |prog|
  }

  /** The cell that is `len` bytes before the end. */
  function CellAt(prog: Program, len: int): Option<Cell> {
    if 0 < len <= Size(prog) && len % CELL == 0 then Some(prog[|prog| - len / CELL]) else None
  }

  /** Whether the instruction `len` bytes before the end takes its `yes` branch. */
  function Branch(prog: Program, len: int, mark: Word): Option<bool> {
    var op := CellAt(prog, len);
    if op.None? || !op.value.Instruction? then None
    else if op.value.code == BC_NOP then Some(true)
    else if op.value.code == BC_JMP then Some(false)
    else if op.value.code == BC_MARK_COND then
      var value, mask := CellAt(prog, len - CELL), CellAt(prog, len - 2 * CELL);
      if value.Some? && mask.Some? && value.value.Operand? && mask.value.Operand?
      then Some(And(mark, mask.value.value) == value.value.value) else None
    else None
  }

  /**
   * The kernel's interpreter, `len` bytes before the end: landing exactly on the end accepts the
   * socket, jumping past it rejects. `None` is a program that goes wrong.
   */
  function Interpret(prog: Program, len: int, mark: Word): Option<bool>
    decreases if len > 0 then len else 0
  {
    if len <= 0 then Some(len == 0)
    else
      var b := Branch(prog, len, mark);
      if b.None? then None
      else
        var op := CellAt(prog, len).value;
        var jump := if b.value then op.yes else op.no;
        if jump == 0 then None else Interpret(prog, len - jump, mark)
  }

  /** The position `cc` bytes before the end is reached by `yes` jumps alone. */
  predicate ReachedByYes(prog: Program, len: int, cc: int)
    decreases if len > 0 then len else 0
  {
    if cc >= len then cc == len
    else
      var op := CellAt(prog, len);
      op.Some? && op.value.Instruction? && op.value.yes >= CELL && op.value.yes % CELL == 0
      && ReachedByYes(prog, len - op.value.yes, cc)
  }

  function Length(code: nat): nat {
    if code == BC_MARK_COND then 3 * CELL else CELL
  }

  predicate JumpOk(len: int, least: nat, jump: nat) {
    least <= jump <= len + CELL && jump % CELL == 0
  }

  /** The kernel's check of a program: jumps stay in bounds and every `no` target lies on the `yes` path. */
  predicate Audited(prog: Program, len: int)
    decreases if len > 0 then len else 0
  {
    if len <= 0 then len == 0
    else
      var cell := CellAt(prog, len);
      && cell.Some? && cell.value.Instruction?
      && var op := cell.value;
      && (op.code == BC_NOP || op.code == BC_JMP || op.code == BC_MARK_COND)
      && Length(op.code) <= len
      && JumpOk(len, Length(op.code), op.yes)
      && (op.code != BC_NOP ==>
            JumpOk(len, Length(op.code), op.no) && (op.no < len ==> ReachedByYes(prog, Size(prog), len - op.no)))
      && Audited(prog, len - op.yes)
  }

  /** Every mark condition is followed by its two operands. */
  predicate Typed(prog: Program) {
    forall k :: 0 <= k < |prog| && prog[k].Instruction? && prog[k].code == BC_MARK_COND ==>
      k + 2 < |prog| && prog[k + 1].Operand? && prog[k + 2].Operand?
  }

  /** What is reached by `yes` jumps from an audited position is audited as well. */
  lemma {:induction false} AuditedAlong(prog: Program, len: int, cc: nat)
    requires Audited(prog, len) && ReachedByYes(prog, len, cc)
    ensures Audited(prog, cc)
    decreases if len > 0 then len else 0
  {
    if cc < len {
      AuditedAlong(prog, len - CellAt(prog, len).value.yes, cc);
    }
  }

  lemma {:induction false} OneMoreYes(prog: Program, len: int, cc: int)
    requires ReachedByYes(prog, len, cc) && 0 < cc && CellAt(prog, cc).Some? && CellAt(prog, cc).value.Instruction?
    requires var yes := CellAt(prog, cc).value.yes; CELL <= yes <= cc && yes % CELL == 0
    ensures ReachedByYes(prog, len, cc - CellAt(prog, cc).value.yes)
    decreases if len > 0 then len else 0
  {
    if cc < len {
      OneMoreYes(prog, len - CellAt(prog, len).value.yes, cc);
    }
  }

  /** The audit is enough: an audited program gives an answer for every mark, from wherever it gets to. */
  lemma {:induction false} AuditedNeverFails(prog: Program, len: int, mark: Word)
    requires Typed(prog) && Audited(prog, Size(prog)) && Audited(prog, len) && ReachedByYes(prog, Size(prog), len)
    ensures Interpret(prog, len, mark).Some?
    decreases if len > 0 then len else 0
  {
    if len > 0 {
      var op := CellAt(prog, len).value;
      BranchTaken(prog, len, mark);
      var jump := if Branch(prog, len, mark).value then op.yes else op.no;
      if len - jump > 0 {
        if jump == op.yes {
          OneMoreYes(prog, Size(prog), len);
        } else {
          AuditedAlong(prog, Size(prog), len - jump);
        }
        AuditedNeverFails(prog, len - jump, mark);
      }
    }
  }

  lemma BranchTaken(prog: Program, len: int, mark: Word)
    requires Typed(prog) && Audited(prog, len) && 0 < len <= Size(prog)
    ensures Branch(prog, len, mark).Some?
    ensures !Branch(prog, len, mark).value ==> CellAt(prog, len).value.code != BC_NOP
  {
    hide And;
  }

  // ---- the program of a permission change ---------------------------------------------------------------

  const MATCH_LENGTH := 3 * CELL
  const JUMP_LENGTH := CELL
  const REJECT_OFFSET := CELL
  const PROGRAM_LENGTH := 2 * MATCH_LENGTH + JUMP_LENGTH

  function FieldMark(netId: NetId, explicitly: bool, permission: Permission): Word {
    Encode(Fwmark(netId, explicitly, false, permission, Repeat(false, 12)))
  }

  function LackingPermission(netId: NetId, permission: Permission): Program {
    [Instruction(BC_MARK_COND, MATCH_LENGTH, PROGRAM_LENGTH + REJECT_OFFSET),
     Operand(FieldMark(netId, false, PERMISSION_NONE)), Operand(FieldMark(0xffff, false, PERMISSION_NONE)),
     Instruction(BC_MARK_COND, MATCH_LENGTH, MATCH_LENGTH + JUMP_LENGTH),
     Operand(FieldMark(0, true, permission)), Operand(FieldMark(0, true, permission)),
     Instruction(BC_JMP, JUMP_LENGTH, JUMP_LENGTH + REJECT_OFFSET)]
  }

  lemma {:induction false} AllOnes(k: nat)
    ensures Pow2(k) > 0 && Bits(Pow2(k) - 1, k) == Repeat(true, k)
  {
    if k > 0 {
      AllOnes(k - 1);
      assert (Pow2(k) - 1) / 2 == Pow2(k - 1) - 1;
    }
  }

  lemma SixteenBits()
    ensures Bits(0xffff, 16) == Repeat(true, 16) && Bits(0, 16) == Repeat(false, 16)
  {
    AllOnes(16);
    AllZeros(16);
    PowersOfTwo();
  }

  /** The first test of the program asks for the netId, the second for the explicit and permission bits. */
  lemma TestsMean(netId: NetId, permission: Permission, m: Fwmark)
    ensures And(Encode(m), FieldMark(0xffff, false, PERMISSION_NONE)) == FieldMark(netId, false, PERMISSION_NONE) <==>
      m.netId == netId
    ensures And(Encode(m), FieldMark(0, true, permission)) == FieldMark(0, true, permission)
      <==> m.explicitlySelected && m.permission.Covers(permission)
  {
    SixteenBits();
    var onNet, control := MarkMatch(Some(netId), None, None, PERMISSION_NONE),
      MarkMatch(None, Some(true), None, permission);
    MaskTestIsFieldTest(onNet, m);
    MaskTestIsFieldTest(control, m);
    assert FieldMark(0xffff, false, PERMISSION_NONE) == MaskValue(onNet);
    assert FieldMark(netId, false, PERMISSION_NONE) == MarkValue(onNet);
    assert FieldMark(0, true, permission) == MaskValue(control) == MarkValue(control);
  }

  lemma Positions(netId: NetId, permission: Permission)
    ensures var prog := LackingPermission(netId, permission);
      && Size(prog) == PROGRAM_LENGTH == 28
      && CellAt(prog, 28) == Some(Instruction(BC_MARK_COND, 12, 32))
      && CellAt(prog, 24) == Some(Operand(FieldMark(netId, false, PERMISSION_NONE)))
      && CellAt(prog, 20) == Some(Operand(FieldMark(0xffff, false, PERMISSION_NONE)))
      && CellAt(prog, 16) == Some(Instruction(BC_MARK_COND, 12, 16))
      && CellAt(prog, 12) == Some(Operand(FieldMark(0, true, permission)))
      && CellAt(prog, 8) == Some(Operand(FieldMark(0, true, permission)))
      && CellAt(prog, 4) == Some(Instruction(BC_JMP, 4, 8))
  {}

  /**
   * What the program accepts, for every mark: sockets on the network that do not carry both the
   * explicit bit and all the required permission bits.
   */
  lemma ProgramMeaning(netId: NetId, permission: Permission, m: Fwmark)
    ensures Interpret(LackingPermission(netId, permission), PROGRAM_LENGTH, Encode(m))
         == Some(m.netId == netId && !(m.explicitlySelected && m.permission.Covers(permission)))
  {
    Positions(netId, permission);
    TestsMean(netId, permission, m);
    hide LackingPermission, FieldMark, CellAt, And, Encode;
    var prog, mark := LackingPermission(netId, permission), Encode(m);
    assert Interpret(prog, 4, mark) == Some(false);
    assert Interpret(prog, 16, mark) == Some(!(m.explicitlySelected && m.permission.Covers(permission)));
  }

  /** The program passes the kernel's check. */
  lemma ProgramAudited(netId: NetId, permission: Permission)
    ensures Audited(LackingPermission(netId, permission), PROGRAM_LENGTH)
  {
    Positions(netId, permission);
    hide LackingPermission, FieldMark, CellAt;
    var prog := LackingPermission(netId, permission);
    assert Audited(prog, 4);
    assert ReachedByYes(prog, 4, 0);
    assert ReachedByYes(prog, 16, 0);
    assert ReachedByYes(prog, 28, 0);
    assert Audited(prog, 16);
  }

  /** The same filter without the final jump: the second test rejects on `yes` and accepts on `no`. */
  function WithoutJump(netId: NetId, permission: Permission): Program {
    [Instruction(BC_MARK_COND, MATCH_LENGTH, 2 * MATCH_LENGTH + REJECT_OFFSET),
     Operand(FieldMark(netId, false, PERMISSION_NONE)), Operand(FieldMark(0xffff, false, PERMISSION_NONE)),
     Instruction(BC_MARK_COND, MATCH_LENGTH + REJECT_OFFSET, MATCH_LENGTH),
     Operand(FieldMark(0, true, permission)), Operand(FieldMark(0, true, permission))]
  }

  lemma ShortPositions(netId: NetId, permission: Permission)
    ensures var short := WithoutJump(netId, permission);
      && Size(short) == 24
      && CellAt(short, 24) == Some(Instruction(BC_MARK_COND, 12, 28))
      && CellAt(short, 20) == Some(Operand(FieldMark(netId, false, PERMISSION_NONE)))
      && CellAt(short, 16) == Some(Operand(FieldMark(0xffff, false, PERMISSION_NONE)))
      && CellAt(short, 12) == Some(Instruction(BC_MARK_COND, 16, 12))
      && CellAt(short, 8) == Some(Operand(FieldMark(0, true, permission)))
      && CellAt(short, 4) == Some(Operand(FieldMark(0, true, permission)))
  {}

  lemma ShortRefused(netId: NetId, permission: Permission)
    ensures !Audited(WithoutJump(netId, permission), Size(WithoutJump(netId, permission)))
  {
    ShortPositions(netId, permission);
    hide WithoutJump, FieldMark, CellAt;
    assert !Audited(WithoutJump(netId, permission), 12);
  }

  /** It accepts the same sockets, but the kernel's check refuses it: its end is not on the `yes` path. */
  lemma JumpNeeded(netId: NetId, permission: Permission, m: Fwmark)
    ensures var short := WithoutJump(netId, permission);
      && Interpret(short, Size(short), Encode(m))
        == Interpret(LackingPermission(netId, permission), PROGRAM_LENGTH, Encode(m))
      && !Audited(short, Size(short))
  {
    ProgramMeaning(netId, permission, m);
    TestsMean(netId, permission, m);
    ShortPositions(netId, permission);
    ShortRefused(netId, permission);
    hide LackingPermission, WithoutJump, FieldMark, CellAt, And, Encode, Audited;
    var short, mark := WithoutJump(netId, permission), Encode(m);
    assert Interpret(short, 12, mark) == Some(!(m.explicitlySelected && m.permission.Covers(permission)));
  }

  /** A socket on the network survives exactly when the network's explicit-network rule admits its mark. */
  lemma SurvivorsMatchRule(netId: NetId, permission: Permission, table: nat, m: Fwmark)
    requires m.netId == netId
    ensures Interpret(LackingPermission(netId, permission), PROGRAM_LENGTH, Encode(m)) == Some(false)
      <==> ExplicitNetwork(netId, table, permission, AllUids, 0).mark.Admits(m)
  {
    ProgramMeaning(netId, permission, m);
    hide Interpret, LackingPermission;
  }

  // ---- loopback sockets -----------------------------------------------------------------------------------

  type Octet = b: int | 0 <= b < 256

  datatype Address = V4(a: Octet, b: Octet, c: Octet, d: Octet) | V6(octets: seq<Octet>)

  predicate Mapped(s: seq<Octet>) {
    |s| == 16 && s[..10] == [0, 0, 0, 0, 0, 0, 0, 0, 0, 0] && s[10..12] == [255, 255]
  }

  /**
   * The test for loopback sockets on a little-endian machine. For mapped addresses the last four
   * octets are not brought into host order, so it is the last octet that is compared with 127.
   */
  predicate IsLoopback(src: Address, dst: Address) {
    match (src, dst)
    case (V4(a, _, _, _), V4(a', _, _, _)) => a == 127 || a' == 127 || src == dst
    case (V6(s), V6(t)) =>
      || (Mapped(s) && s[15] == 127) || (Mapped(t) && t[15] == 127)
      || s == LOOPBACK_V6 || t == LOOPBACK_V6 || s == t
    case _ => false
  }

  const LOOPBACK_V6: seq<Octet> := [0, 0, 0, 0, 0, 0, 0, 0, 0, 0, 0, 0, 0, 0, 0, 1]

  function MapV4(x: Address): seq<Octet>
    requires x.V4?
  {
    [0, 0, 0, 0, 0, 0, 0, 0, 0, 0, 255, 255, x.a, x.b, x.c, x.d]
  }

  /** Between mapped addresses the test agrees with the IPv4 one exactly when first and last octets agree about 127. */
  lemma MappedLoopback(src: Address, dst: Address)
    requires src.V4? && dst.V4?
    ensures (IsLoopback(V6(MapV4(src)), V6(MapV4(dst))) == IsLoopback(src, dst))
      <==> (src == dst || ((src.d == 127 || dst.d == 127) <==> (src.a == 127 || dst.a == 127)))
  {
    var s, t := MapV4(src), MapV4(dst);
    assert Mapped(s) && Mapped(t);
    assert s[15] == src.d && t[15] == dst.d;
    assert s[10] != LOOPBACK_V6[10] && t[10] != LOOPBACK_V6[10];
    if s == t {
      assert s[12] == t[12] && s[13] == t[13] && s[14] == t[14] && s[15] == t[15];
    }
  }

  // ---- closing sockets --------------------------------------------------------------------------------------

  datatype TcpSocket = TcpSocket(id: nat, live: bool, mark: Fwmark, src: Address, dst: Address)

  /** The sockets a permission change is meant to close. */
  predicate Doomed(s: TcpSocket, netId: NetId, permission: Permission, excludeLoopback: bool) {
    && s.live && s.mark.netId == netId && !(s.mark.explicitlySelected && s.mark.permission.Covers(permission))
    && !(excludeLoopback && IsLoopback(s.src, s.dst))
  }

  class SockDiag {
    /** The kernel's TCP sockets. */
    var sockets: set<TcpSocket>
    var socketsDestroyed: nat
    /** Set when the kernel refused to destroy some socket, which is not reported. */
    ghost var refused: bool

    constructor (given: set<TcpSocket>)
      ensures sockets == given && socketsDestroyed == 0 && !refused
    {
      sockets, socketsDestroyed, refused := given, 0, false;
    }

    method SockDestroy(s: TcpSocket)
      requires s in sockets
      modifies this
      ensures || (sockets == old(sockets) && socketsDestroyed == old(socketsDestroyed) && refused)
              || (sockets == old(sockets) - {s} && socketsDestroyed == old(socketsDestroyed) + 1
                  && refused == old(refused))
    {
      var accepted: bool := *;
      if accepted {
        sockets, socketsDestroyed := sockets - {s}, socketsDestroyed + 1;
      } else {
        refused := true;
      }
    }

    /** One dump: the kernel lists the live sockets of a family that the program accepts. */
    method DestroyFamily(v6: bool, netId: NetId, permission: Permission, excludeLoopback: bool)
      modifies this
      ensures sockets <= old(sockets)
      ensures forall s :: s in old(sockets) && s !in sockets ==>
        s.src.V6? == v6 && Doomed(s, netId, permission, excludeLoopback)
      ensures |sockets| + socketsDestroyed == |old(sockets)| + old(socketsDestroyed)
      ensures old(refused) ==> refused
      ensures !refused ==> forall s :: s in sockets && s.src.V6? == v6 ==>
        !Doomed(s, netId, permission, excludeLoopback)
    {
      hide Interpret, LackingPermission;
      var prog := LackingPermission(netId, permission);
      var dump := set s | s in sockets && s.live && s.src.V6? == v6
        && Interpret(prog, PROGRAM_LENGTH, Encode(s.mark)) == Some(true);
      forall s | s in sockets
        ensures s in dump && !(excludeLoopback && IsLoopback(s.src, s.dst)) <==>
          s.src.V6? == v6 && Doomed(s, netId, permission, excludeLoopback)
      {
        ProgramMeaning(netId, permission, s.mark);
      }
      while dump != {}
        invariant dump <= sockets <= old(sockets) && (old(refused) ==> refused)
        invariant forall s :: s in dump && !(excludeLoopback && IsLoopback(s.src, s.dst)) ==>
          s.src.V6? == v6 && Doomed(s, netId, permission, excludeLoopback)
        invariant forall s :: s in old(sockets) && s !in sockets ==>
          s.src.V6? == v6 && Doomed(s, netId, permission, excludeLoopback)
        invariant |sockets| + socketsDestroyed == |old(sockets)| + old(socketsDestroyed)
        invariant !refused ==>
          forall s :: s in sockets && s.src.V6? == v6 && Doomed(s, netId, permission, excludeLoopback) ==> s in dump
        decreases dump
      {
        var s :| s in dump;
        dump := dump - {s};
        if !(excludeLoopback && IsLoopback(s.src, s.dst)) {
          SockDestroy(s);
        }
      }
    }

    /**
     * Closes the live sockets on a network that lack its permission or did not select it explicitly.
     * Nothing else is touched, and unless the kernel refused, none of them is left. The kernel answers
     * the two requests for a list of sockets with `dump4` and `dump6`.
     */
    method DestroySocketsLackingPermission(netId: NetId, permission: Permission, excludeLoopback: bool, dump4: int,
                                           dump6: int) returns (ret: int)
      modifies this
      ensures ret == (if dump4 != 0 then dump4 else dump6) && (dump4 != 0 ==> sockets == old(sockets))
      ensures sockets <= old(sockets)
      ensures forall s :: s in old(sockets) && s !in sockets ==> Doomed(s, netId, permission, excludeLoopback)
      ensures |sockets| + socketsDestroyed == |old(sockets)|
      ensures ret == 0 && !refused ==> forall s :: s in sockets ==> !Doomed(s, netId, permission, excludeLoopback)
    {
      socketsDestroyed := 0;
      if dump4 != 0 {
        return dump4;
      }
      DestroyFamily(false, netId, permission, excludeLoopback);
      if dump6 != 0 {
        return dump6;
      }
      DestroyFamily(true, netId, permission, excludeLoopback);
      ret := 0;
    }
  }
}
