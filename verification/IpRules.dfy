/** The kernel's policy-routing rules, the packets they apply to, and how a packet picks a rule. */
module IpRules {
  import opened Fwmarks

  datatype Action = ToTable(table: nat) | Prohibit | Unreachable

  /** Which uids a rule applies to. `Refused` marks arguments that the request builder rejects. */
  datatype UidSelector = AllUids | Span(lo: nat, hi: nat) | Refused {
    predicate Admits(uid: nat) {
      AllUids? || (Span? && lo <= uid <= hi)
    }
  }

  /**
   * What netd installs in the kernel: policy rules, and the mangle-table rules that mark packets
   * arriving on an interface.
   */
  datatype Entry =
    | IpRule(priority: nat, action: Action, mark: MarkMatch, iif: Option<string>, oif: Option<string>,
             uids: UidSelector)
    | IncomingMark(iface: string, value: Fwmark)

  datatype Packet = Packet(mark: Fwmark, uid: nat, iif: string, oif: Option<string>)

  const LOOPBACK := "lo"

  predicate Matches(e: Entry, p: Packet) {
    && e.IpRule?
    && e.mark.Admits(p.mark)
    && (e.iif.Some? ==> p.iif == e.iif.value)
    && (e.oif.Some? ==> p.oif == e.oif)
    && e.uids.Admits(p.uid)
  }

  /**
   * A matching rule ends the search unless it points at a routing table that has no route for the
   * packet; `hit` says which tables have one.
   */
  predicate Decides(e: Entry, p: Packet, hit: nat -> bool) {
    Matches(e, p) && (e.action.ToTable? ==> hit(e.action.table))
  }

  /** `e` is a possible outcome for `p`: it decides, and no deciding rule has a lower priority number. */
  ghost predicate Selects(rules: multiset<Entry>, p: Packet, hit: nat -> bool, e: Entry) {
    && e in rules
    && Decides(e, p, hit)
    && forall e' :: e' in rules && Decides(e', p, hit) ==> e.priority <= e'.priority
  }

  // ---- the ordered walk -----------------------------------------------------------------------

  /** The kernel's walk over its ordered rule list. */
  function Walk(list: seq<Entry>, p: Packet, hit: nat -> bool): Option<Entry> {
    if list == [] then None
    else if Decides(list[0], p, hit) then Some(list[0])
    else Walk(list[1..], p, hit)
  }

  predicate InPriorityOrder(list: seq<Entry>) {
    forall i, j :: 0 <= i < j < |list| && list[i].IpRule? && list[j].IpRule? ==> list[i].priority <= list[j].priority
  }

  /**
   * Whatever order the kernel keeps among rules of equal priority, the walk returns a possible
   * outcome in the sense of `Selects`, and it returns none exactly when no rule decides.
   */
  lemma {:induction false} WalkSelects(list: seq<Entry>, p: Packet, hit: nat -> bool)
    requires InPriorityOrder(list)
    ensures Walk(list, p, hit).Some? ==> Selects(multiset(list), p, hit, Walk(list, p, hit).value)
    ensures Walk(list, p, hit).None? <==> forall e :: e in multiset(list) ==> !Decides(e, p, hit)
  {
    if list != [] {
      assert list == [list[0]] + list[1..];
      if Decides(list[0], p, hit) {
        forall e | e in multiset(list) && Decides(e, p, hit)
          ensures list[0].priority <= e.priority
        {
          var i :| 0 <= i < |list| && list[i] == e;
        }
      } else {
        WalkSelects(list[1..], p, hit);
      }
    }
  }
}
