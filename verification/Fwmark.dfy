/** The 32-bit socket mark, its field view, and the mark/mask pairs that routing rules carry. */
module Fwmarks {

  datatype Option<+T> = None | Some(value: T)

  /** The two permission bits. NETWORK is bit 0; SYSTEM sets both bits, so it includes NETWORK. */
  datatype Permission = Permission(network: bool, system: bool) {

    /** `(this & required) == required` on the two bits. */
    predicate Covers(required: Permission) {
      (required.network ==> network) && (required.system ==> system)
    }

    function Or(that: Permission): Permission {
      Permission(network || that.network, system || that.system)
    }
  }

  const PERMISSION_NONE := Permission(false, false)
  const PERMISSION_SYSTEM := Permission(true, true)

  type NetId = n: int | 0 <= n < 0x10000

  const NETID_UNSET: NetId := 0

  function Repeat(bit: bool, k: nat): (s: seq<bool>)
    ensures |s| == k && forall i :: 0 <= i < k ==> s[i] == bit
  {
    if k == 0 then [] else [bit] + Repeat(bit, k - 1)
  }

  /** The twelve bits above the permission bits: billing flag, reserved bits, wake-up flag. */
  type UpperBits = b: seq<bool> | |b| == 12 witness Repeat(false, 12)

  datatype Fwmark = Fwmark(netId: NetId, explicitlySelected: bool, protectedFromVpn: bool,
                           permission: Permission, upper: UpperBits)

  const MARK_ZERO := Fwmark(NETID_UNSET, false, false, PERMISSION_NONE, Repeat(false, 12))

  /**
   * What a rule asks of a mark. A field left out is not covered by the rule's mask; the permission
   * bits are always required by setting the same bits in the mark and in the mask.
   */
  datatype MarkMatch = MarkMatch(netId: Option<NetId>, explicitlySelected: Option<bool>,
                                 protectedFromVpn: Option<bool>, permission: Permission) {

    predicate Admits(mark: Fwmark) {
      && (netId.Some? ==> mark.netId == netId.value)
      && (explicitlySelected.Some? ==> mark.explicitlySelected == explicitlySelected.value)
      && (protectedFromVpn.Some? ==> mark.protectedFromVpn == protectedFromVpn.value)
      && mark.permission.Covers(permission)
    }
  }

  const ANY_MARK := MarkMatch(None, None, None, PERMISSION_NONE)

  // ---- bit level ---------------------------------------------------------------------------

  /** A 32-bit unsigned integer as its bits, least significant bit first. */
  type Word = w: seq<bool> | |w| == 32 witness Repeat(false, 32)

  function And(a: Word, b: Word): Word {
    seq(32, i requires 0 <= i < 32 => a[i] && b[i])
  }

  function Not(a: Word): Word {
    seq(32, i requires 0 <= i < 32 => !a[i])
  }

  const ZERO_WORD: Word := Repeat(false, 32)

  /** The low `k` bits of a number. */
  function Bits(n: nat, k: nat): (b: seq<bool>)
    ensures |b| == k
  {
    if k == 0 then [] else [n % 2 == 1] + Bits(n / 2, k - 1)
  }

  function Value(b: seq<bool>): nat {
    if b == [] then 0 else (if b[0] then 1 else 0) + 2 * Value(b[1..])
  }

  function Pow2(k: nat): nat {
    if k == 0 then 1 else 2 * Pow2(k - 1)
  }

  lemma {:induction false} BitsRoundTrip(n: nat, k: nat)
    requires n < Pow2(k)
    ensures Value(Bits(n, k)) == n
  {
    if k != 0 {
      BitsRoundTrip(n / 2, k - 1);
      assert Bits(n, k)[1..] == Bits(n / 2, k - 1);
    }
  }

  lemma PowersOfTwo()
    ensures Pow2(16) == 0x1_0000 && Pow2(32) == 0x1_0000_0000
  {
    assert Pow2(4) == 16;
    assert Pow2(8) == 256;
    assert Pow2(12) == 4096;
    assert Pow2(16) == 0x1_0000;
    assert Pow2(20) == 0x10_0000;
    assert Pow2(24) == 0x100_0000;
    assert Pow2(28) == 0x1000_0000;
  }

  lemma {:induction false} AllZeros(k: nat)
    ensures Bits(0, k) == Repeat(false, k)
  {
    if k > 0 {
      AllZeros(k - 1);
    }
  }

  lemma NetIdBits(n: NetId)
    ensures Value(Bits(n, 16)) == n
  {
    PowersOfTwo();
    BitsRoundTrip(n, 16);
  }

  /** The layout: netId in bits 0-15, explicit 16, protect 17, permission 18-19, the rest 20-31. */
  function Assemble(netId: seq<bool>, explicitly: bool, protect: bool, permission: Permission,
                    upper: seq<bool>): Word
    requires |netId| == 16 && |upper| == 12
  {
    netId + [explicitly, protect, permission.network, permission.system] + upper
  }

  function NetIdMark(want: Option<NetId>): (b: seq<bool>)
    ensures |b| == 16
  {
    if want.Some? then Bits(want.value, 16) else Repeat(false, 16)
  }

  function NetIdMask(want: Option<NetId>): (b: seq<bool>)
    ensures |b| == 16
  {
    Repeat(want.Some?, 16)
  }

  /** The integer the kernel stores for a mark. */
  function Encode(m: Fwmark): Word {
    Assemble(Bits(m.netId, 16), m.explicitlySelected, m.protectedFromVpn, m.permission, m.upper)
  }

  /** The `fwmark` half of a rule. */
  function MarkValue(k: MarkMatch): Word {
    Assemble(NetIdMark(k.netId),
             k.explicitlySelected == Some(true), k.protectedFromVpn == Some(true), k.permission, Repeat(false, 12))
  }

  /** The `mask` half of a rule. */
  function MaskValue(k: MarkMatch): Word {
    Assemble(NetIdMask(k.netId),
             k.explicitlySelected.Some?, k.protectedFromVpn.Some?, k.permission, Repeat(false, 12))
  }

  /** Two words are equal exactly when each field of the layout is. */
  lemma AssembleEqual(n: seq<bool>, e: bool, p: bool, q: Permission, u: seq<bool>,
                      n': seq<bool>, e': bool, p': bool, q': Permission, u': seq<bool>)
    requires |n| == 16 && |u| == 12 && |n'| == 16 && |u'| == 12
    ensures Assemble(n, e, p, q, u) == Assemble(n', e', p', q', u')
      <==> n == n' && e == e' && p == p' && q == q' && u == u'
  {
    var w, w' := Assemble(n, e, p, q, u), Assemble(n', e', p', q', u');
    assert w[..16] == n && w'[..16] == n';
    assert w[20..] == u && w'[20..] == u';
    assert w[16] == e && w[17] == p && w[18] == q.network && w[19] == q.system;
    assert w'[16] == e' && w'[17] == p' && w'[18] == q'.network && w'[19] == q'.system;
  }

  /** The record view loses nothing: distinct marks are distinct integers. */
  lemma EncodeInjective(a: Fwmark, b: Fwmark)
    ensures Encode(a) == Encode(b) <==> a == b
  {
    NetIdBits(a.netId);
    NetIdBits(b.netId);
    AssembleEqual(
      Bits(a.netId, 16), a.explicitlySelected, a.protectedFromVpn, a.permission, a.upper,
      Bits(b.netId, 16), b.explicitlySelected, b.protectedFromVpn, b.permission, b.upper);
  }

  /** Masking works field by field. */
  lemma AndAssemble(n: seq<bool>, e: bool, p: bool, q: Permission, u: seq<bool>,
                    n': seq<bool>, e': bool, p': bool, q': Permission, u': seq<bool>)
    requires |n| == 16 && |u| == 12 && |n'| == 16 && |u'| == 12
    ensures And(Assemble(n, e, p, q, u), Assemble(n', e', p', q', u'))
      == Assemble(seq(16, i requires 0 <= i < 16 => n[i] && n'[i]), e && e', p && p',
                  Permission(q.network && q'.network, q.system && q'.system),
                  seq(12, i requires 0 <= i < 12 => u[i] && u'[i]))
  {}

  /** The netId part of the test: masking keeps the netId bits or clears them all. */
  lemma NetIdPart(want: Option<NetId>, n: NetId)
    ensures var bits, mask := Bits(n, 16), NetIdMask(want);
      seq(16, i requires 0 <= i < 16 => bits[i] && mask[i]) == NetIdMark(want) <==> (want.Some? ==> n == want.value)
  {
    NetIdBits(n);
    var bits, mask := Bits(n, 16), NetIdMask(want);
    var masked := seq(16, i requires 0 <= i < 16 => bits[i] && mask[i]);
    if want.Some? {
      NetIdBits(want.value);
      assert masked == bits;
    } else {
      assert masked == Repeat(false, 16);
    }
  }

  /**
   * The kernel's test on integers is the field-wise test: a rule built from `k` applies to a mark
   * exactly when `(mark & mask) == fwmark`.
   */
  lemma MaskTestIsFieldTest(k: MarkMatch, m: Fwmark)
    ensures And(Encode(m), MaskValue(k)) == MarkValue(k) <==> k.Admits(m)
  {
    var n, mn, none := Bits(m.netId, 16), NetIdMask(k.netId), Repeat(false, 12);
    var masked := seq(16, i requires 0 <= i < 16 => n[i] && mn[i]);
    var maskedUpper := seq(12, i requires 0 <= i < 12 => m.upper[i] && none[i]);
    AndAssemble(n, m.explicitlySelected, m.protectedFromVpn, m.permission, m.upper,
                mn, k.explicitlySelected.Some?, k.protectedFromVpn.Some?, k.permission, none);
    AssembleEqual(masked, m.explicitlySelected && k.explicitlySelected.Some?,
                  m.protectedFromVpn && k.protectedFromVpn.Some?,
                  Permission(m.permission.network && k.permission.network, m.permission.system && k.permission.system),
                  maskedUpper, NetIdMark(k.netId), k.explicitlySelected == Some(true),
                  k.protectedFromVpn == Some(true), k.permission, none);
    assert maskedUpper == none;
    NetIdPart(k.netId, m.netId);
  }

  /** No bit of a rule's mark lies outside its mask, the check every rule request has to pass. */
  lemma MarkWithinMask(k: MarkMatch)
    ensures And(MarkValue(k), Not(MaskValue(k))) == ZERO_WORD
  {
    var mark, mask := MarkValue(k), MaskValue(k);
    forall i | 0 <= i < 32
      ensures mark[i] ==> mask[i]
    {
      if i < 16 {
        assert mark[i] == NetIdMark(k.netId)[i] && mask[i] == NetIdMask(k.netId)[i];
      }
    }
  }
}
