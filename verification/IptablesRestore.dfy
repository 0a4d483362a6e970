/**
 * Talking to the long-running iptables-restore children: commands, answers and acknowledgements over
 * pipes that deliver in any chunks, with children that may be slow, die or never answer.
 */
module IptablesRestores {
  import opened Fwmarks

  const PING := "#PING\n"
  const MAX_RETRIES := 50

  // ---- finding the acknowledgement --------------------------------------------------------------------

  predicate PingAt(s: string, p: nat) {
    p + |PING| <= |s| && s[p..p + |PING|] == PING
  }

  ghost predicate NoPing(s: string) {
    forall p: nat :: !PingAt(s, p)
  }

  /** The first place from `k` on where the acknowledgement occurs. */
  function FindFrom(s: string, k: nat): (r: Option<nat>)
    requires k <= |s|
    ensures r.Some? ==> k <= r.value && PingAt(s, r.value) && forall p: nat :: k <= p < r.value ==> !PingAt(s, p)
    ensures r.None? ==> forall p: nat :: k <= p ==> !PingAt(s, p)
    decreases |s| - k
  {
    if PingAt(s, k) then Some(k) else if k == |s| then None else FindFrom(s, k + 1)
  }

  function Find(s: string): (r: Option<nat>)
    ensures r.Some? ==> PingAt(s, r.value) && forall p: nat :: p < r.value ==> !PingAt(s, p)
    ensures r.None? <==> NoPing(s)
  {
    FindFrom(s, 0)
  }

  lemma PingChars()
    ensures |PING| == 6 && PING[0] == '#' && forall j :: 0 < j < 6 ==> PING[j] != '#'
  {}

  /** Text before an acknowledgement does not make an earlier one together with it. */
  lemma NoEarlyPing(b: string, p: nat)
    requires NoPing(b) && p < |b|
    ensures !PingAt(b + PING, p)
  {
    PingChars();
    hide PING;
    var full := b + PING;
    if p + 6 <= |b| {
      assert full[p..p + 6] == b[p..p + 6] && !PingAt(b, p);
    } else {
      assert full[p..p + 6][|b| - p] == full[|b|] == PING[0];
    }
  }

  /** In a text that is a part of `b` followed by the acknowledgement, it is found only in its place. */
  lemma PingOnlyAtEnd(b: string, x: string, p: nat)
    requires NoPing(b) && x <= b + PING && PingAt(x, p)
    ensures p == |b| && x == b + PING
  {
    forall q: nat | q < |b|
      ensures !PingAt(b + PING, q)
    {
      NoEarlyPing(b, q);
    }
    assert x[p..p + |PING|] == (b + PING)[p..p + |PING|];
    assert PingAt(b + PING, p);
  }

  /**
   * The reader cuts the accumulated text at the first acknowledgement. This is where the text before
   * it ends exactly when that text does not itself contain an acknowledgement.
   */
  lemma AckFoundInPlace(b: string)
    ensures Find(b + PING) == Some(|b|) <==> NoPing(b)
  {
    assert PingAt(b + PING, |b|);
    if NoPing(b) {
      PingOnlyAtEnd(b, b + PING, Find(b + PING).value);
    } else {
      var p: nat :| PingAt(b, p);
      assert (b + PING)[p..p + |PING|] == b[p..p + |PING|];
      assert PingAt(b + PING, p) && p < |b|;
    }
  }

  lemma NoPingBefore(a: string, c: string)
    requires NoPing(a + c)
    ensures NoPing(a)
  {
    forall p: nat | p + |PING| <= |a|
      ensures !PingAt(a, p)
    {
      assert (a + c)[p..p + |PING|] == a[p..p + |PING|] && !PingAt(a + c, p);
    }
  }

  /**
   * Were an earlier answer left unread in the pipe, the next command would be given that answer:
   * the first acknowledgement after it ends the reading.
   */
  lemma StaleAnswer(output: string, stale: string, own: string)
    requires NoPing(output + stale)
    ensures Find(output + stale + PING + (own + PING)) == Some(|output + stale|)
  {
    var b, rest := output + stale, own + PING;
    forall p: nat | p < |b|
      ensures !PingAt(b + PING + rest, p)
    {
      NoEarlyPing(b, p);
      assert (b + PING + rest)[p..p + |PING|] == (b + PING)[p..p + |PING|];
    }
    assert (b + PING + rest)[|b|..|b| + |PING|] == PING;
    assert PingAt(b + PING + rest, |b|);
  }

  /** Two answers without acknowledgement can make one where they meet. */
  lemma AnswersMayCross()
    ensures NoPing("#PI") && NoPing("NG\n") && !NoPing("#PI" + "NG\n")
  {
    assert "#PI" + "NG\n" == PING;
    assert PingAt(PING, 0);
  }

  // ---- a child process ------------------------------------------------------------------------------------

  class Child {
    /** Set when the process has been told to stop and has been waited for. */
    var terminated: bool
    /** The process is gone, whether or not anybody has noticed. */
    var dead: bool
    /** Output that has been or will be written and has not been read. */
    var pipe: string
    /** Everything written to its input. */
    ghost var received: seq<string>
    ghost var stops: nat
    /** Set when the process dies by itself, or has nothing to read yet although output is due. */
    ghost var troubled: bool

    ghost predicate Valid()
      reads this
    {
      stops <= 1 && (terminated <==> stops == 1) && (terminated ==> dead)
    }

    constructor ()
      ensures Valid() && !terminated && !dead && pipe == "" && received == [] && !troubled
    {
      terminated, dead, pipe, received, stops, troubled := false, false, "", [], 0, false;
    }

    /** The process may die at any moment, leaving some of its output unwritten. */
    method MayDie()
      requires Valid()
      modifies this`dead, this`pipe, this`troubled
      ensures Valid() && (old(dead) ==> dead) && pipe <= old(pipe) && (!dead ==> pipe == old(pipe))
      ensures troubled <==> old(troubled) || (dead && !old(dead))
    {
      var dies: bool := *;
      var written: int := *;
      if dies && !dead && 0 <= written <= |pipe| {
        dead, pipe, troubled := true, pipe[..written], true;
      }
    }

    /** Whether its input can be written to: never if the process is gone. */
    method OutputReady() returns (ready: bool)
      requires Valid()
      modifies this`dead, this`pipe, this`troubled
      ensures Valid() && (ready ==> !dead) && (old(dead) ==> dead) && (!dead ==> pipe == old(pipe))
      ensures old(troubled) ==> troubled
    {
      MayDie();
      var full: bool := *;
      ready := !dead && !full;
    }

    method Stop()
      requires Valid()
      modifies this`terminated, this`dead, this`stops
      ensures Valid() && terminated
      ensures stops == if old(terminated) then old(stops) else old(stops) + 1
    {
      if terminated {
        return;
      }
      stops := stops + 1;
      terminated, dead := true, true;
    }

    /** Sends text that the process answers with `answer`; a failed write means the process is gone. */
    method Write(text: string, answer: string) returns (ok: bool)
      requires Valid()
      modifies this`dead, this`pipe, this`received, this`troubled
      ensures Valid() && (old(dead) ==> dead) && (ok ==> !old(dead)) && (!ok ==> dead)
      ensures troubled <==> old(troubled) || (dead && !old(dead))
      ensures ok ==> pipe <= old(pipe) + answer && (!dead ==> pipe == old(pipe) + answer)
      ensures received == if ok then old(received) + [text] else old(received)
    {
      MayDie();
      if dead {
        return false;
      }
      pipe, received := pipe + answer, received + [text];
      MayDie();
      ok := true;
    }

    /** Reads some output: any non-empty amount that is there, or nothing yet. */
    method Read() returns (chunk: string)
      requires Valid()
      modifies this`pipe, this`troubled
      ensures old(pipe) == chunk + pipe
      ensures troubled <==> old(troubled) || (chunk == "" && pipe != "")
    {
      var size: int := *;
      if size < 0 || size > |pipe| {
        size := |pipe|;
      }
      chunk, pipe := pipe[..size], pipe[size..];
      troubled := troubled || (chunk == "" && pipe != "");
    }
  }

  // ---- waiting for the acknowledgement ---------------------------------------------------------------------

  /**
   * What the reader knows: `text` was accumulated before this command, `full` is that text with the
   * command's whole answer and acknowledgement, `output` what it has now.
   */
  ghost predicate Reading(b: string, ack: bool, output: string, pipe: string, dead: bool) {
    if ack then output == b && pipe == ""
    else NoPing(output) && output + pipe <= b + PING && (!dead ==> output + pipe == b + PING)
  }

  lemma ChunkRead(b: string, output: string, chunk: string, pipe: string, dead: bool)
    requires NoPing(b) && Reading(b, false, output, chunk + pipe, dead)
    ensures var more := output + chunk;
      if Find(more).Some? then more[..Find(more).value] == b && pipe == "" else Reading(b, false, more, pipe, dead)
  {
    var more := output + chunk;
    assert output + (chunk + pipe) == more + pipe;
    if Find(more).Some? {
      PingOnlyAtEnd(b, more, Find(more).value);
    }
  }

  /** Appends to the output whatever can be read now, and looks for the acknowledgement. */
  method ReadAvailable(child: Child, acked: bool, output: string, ghost b: string) returns (ack: bool, more: string)
    requires child.Valid()
    modifies child`pipe, child`troubled
    ensures child.Valid() && (old(child.troubled) ==> child.troubled)
    ensures !child.troubled ==> child.pipe == ""
    ensures NoPing(b) && Reading(b, acked, output, old(child.pipe), child.dead) ==>
      Reading(b, ack, more, child.pipe, child.dead)
    ensures (acked ==> ack) && (!ack ==> output <= more)
  {
    hide Find, NoPing;
    ack, more := acked, output;
    ghost var expected := NoPing(b) && Reading(b, acked, output, child.pipe, child.dead);
    while true
      invariant child.Valid() && (acked ==> ack) && (!ack ==> output <= more)
      invariant old(child.troubled) ==> child.troubled
      invariant expected ==> Reading(b, ack, more, child.pipe, child.dead)
      decreases |child.pipe|
    {
      ghost var pipe := child.pipe;
      var chunk := child.Read();
      if chunk == "" {
        assert child.pipe == pipe;
        break;
      }
      if expected && !ack {
        ChunkRead(b, more, chunk, child.pipe, child.dead);
      }
      more := more + chunk;
      var pos := Find(more);
      if pos.Some? {
        more, ack := more[..pos.value], true;
      }
    }
  }

  /** A process that lives and whose output has all been read has acknowledged. */
  lemma AllRead(b: string, ack: bool, output: string)
    requires Reading(b, ack, output, "", false)
    ensures ack
  {
    assert PingAt(b + PING, |b|);
    assert output + "" == output;
  }

  lemma StillReading(b: string, ack: bool, output: string, pipe: string, dead: bool, pipe': string, dead': bool)
    requires Reading(b, ack, output, pipe, dead) && pipe' <= pipe && (dead ==> dead') && (!dead' ==> pipe' == pipe)
    ensures Reading(b, ack, output, pipe', dead')
  {
    assert output + pipe' <= output + pipe;
  }

  /**
   * Reads the answer to a command. `b` is the text accumulated before the command followed by the
   * command's whole answer. Without an acknowledgement the child is stopped, unless polling failed.
   */
  method DrainAndWaitForAck(child: Child, output: string, ghost b: string)
    returns (ack: bool, more: string, pollFailed: bool)
    requires child.Valid()
    modifies child`dead, child`pipe, child`terminated, child`stops, child`troubled
    ensures child.Valid() && (old(child.troubled) ==> child.troubled)
    ensures NoPing(b) && old(Reading(b, false, output, child.pipe, child.dead)) ==>
      ack || pollFailed || child.troubled || old(child.dead)
    ensures NoPing(b) && old(Reading(b, false, output, child.pipe, child.dead)) ==>
      Reading(b, ack, more, child.pipe, child.dead)
    ensures !ack && !pollFailed ==> child.terminated
    ensures (pollFailed ==> !ack) && (!ack ==> output <= more)
    ensures old(child.terminated) ==> child.terminated && child.stops == old(child.stops)
  {
    hide Reading;
    ack, more, pollFailed := false, output, false;
    ghost var expected := NoPing(b) && Reading(b, false, output, child.pipe, child.dead);
    var tries := 0;
    while !ack && tries < MAX_RETRIES
      invariant child.Valid() && tries <= MAX_RETRIES && !pollFailed && (!ack ==> output <= more)
      invariant expected ==> Reading(b, ack, more, child.pipe, child.dead)
      invariant (old(child.troubled) ==> child.troubled) && (!child.troubled ==> child.dead == old(child.dead))
      invariant expected && tries > 0 && !child.troubled && !old(child.dead) ==> ack
      invariant old(child.terminated) ==> child.terminated && child.stops == old(child.stops)
    {
      tries := tries + 1;
      ghost var pipe, dead := child.pipe, child.dead;
      child.MayDie();
      if expected {
        StillReading(b, ack, more, pipe, dead, child.pipe, child.dead);
      }
      var events: int := *;
      if events == -1 {
        pollFailed := true;
        return;
      }
      var readable: bool := *;
      if events != 0 && readable {
        ack, more := ReadAvailable(child, ack, more, b);
        if expected && !child.troubled && !child.dead {
          AllRead(b, ack, more);
        }
      } else {
        child.troubled := true;
      }
      var hungUp: bool := *;
      if events != 0 && hungUp && child.dead {
        child.Stop();
      }
    }
    if !ack && !child.terminated {
      ghost var dead := child.dead;
      child.Stop();
      if expected {
        StillReading(b, ack, more, child.pipe, dead, child.pipe, child.dead);
      }
    }
  }

  /** What a finished drain has read: the whole answer, or a proper part of answer and acknowledgement. */
  lemma ReadingDone(b: string, ack: bool, output: string, pipe: string, dead: bool)
    requires Reading(b, ack, output, pipe, dead)
    ensures ack ==> output == b && pipe == ""
    ensures !ack ==> output < b + PING
  {
    if !ack {
      assert output + pipe == (b + PING)[..|output + pipe|];
      assert output == (b + PING)[..|output|];
      assert PingAt(b + PING, |b|);
    }
  }

  lemma ProperPart(output: string, reply: string, more: string)
    requires output <= more < output + reply + PING
    ensures exists part :: part < reply + PING && more == output + part
  {
    var part := more[|output|..];
    assert more == output + part;
    assert output + reply + PING == output + (reply + PING);
    assert part == (output + reply + PING)[|output|..|more|] == (reply + PING)[..|part|];
  }

  /** Nothing has been read yet. */
  lemma NoPart(output: string, reply: string)
    ensures exists part :: part < reply + PING && output == output + part
  {
    assert "" < reply + PING && output == output + "";
  }

  /** Writes a command and its ping to a child, and reads the answer. */
  method Converse(child: Child, command: string, reply: string, output: string)
    returns (ack: bool, more: string, pollFailed: bool)
    requires child.Valid() && !child.dead
    modifies child
    ensures child.Valid() && (pollFailed ==> !ack)
    ensures ack ==> child.received == old(child.received) + [command, PING]
    ensures !ack && !pollFailed ==> child.dead
    ensures old(child.troubled) ==> child.troubled
    ensures old(child.pipe) == "" && NoPing(output + reply) ==> ack || pollFailed || child.troubled
    ensures old(child.pipe) == "" && NoPing(output + reply) && ack ==> more == output + reply && child.pipe == ""
    ensures old(child.pipe) == "" && NoPing(output + reply) && !ack ==>
      exists part :: part < reply + PING && more == output + part
    ensures old(child.terminated) ==> child.terminated && child.stops == old(child.stops)
  {
    hide NoPing, Reading;
    ack, more, pollFailed := false, output, false;
    NoPart(output, reply);
    ghost var b := output + reply;
    ghost var clean := child.pipe == "" && NoPing(b);
    var ok := child.Write(command, reply);
    if !ok {
      return;
    }
    ok := child.Write(PING, PING);
    if !ok {
      return;
    }
    if clean {
      Sent(output, reply, child.pipe, child.dead);
    }
    ack, more, pollFailed := DrainAndWaitForAck(child, output, b);
    if clean {
      ReadingDone(b, ack, more, child.pipe, child.dead);
      if !ack {
        ProperPart(output, reply, more);
      }
    }
  }

  // ---- one family's child, replaced when needed --------------------------------------------------------------

  class Slot {
    var process: Child?
    /** Every child this slot has had, and those that were replaced. */
    ghost var children: set<Child>
    ghost var retired: set<Child>
    /** Set when polling failed. */
    ghost var pollFailed: bool
    /** Set when the text in front of an acknowledgement held one of its own. */
    ghost var garbled: bool
    /** Set when a child was in trouble or could not be forked. */
    ghost var trouble: bool

    ghost predicate Valid()
      reads this, children
    {
      && (forall c :: c in children ==> c.Valid())
      && retired <= children && (forall c :: c in retired ==> c.terminated)
      && (process != null ==>
            && process in children && process !in retired
            && (!pollFailed && !garbled && !process.dead ==> process.pipe == ""))
    }

    /** Starts with a first attempt to fork. */
    constructor ()
      ensures Valid() && !pollFailed && !garbled && !trouble && fresh(children) && retired == {}
    {
      process, children, retired, pollFailed, garbled, trouble := null, {}, {}, false, false, false;
      new;
      var child := Fork();
      if child != null {
        process, children := child, {child};
      }
    }

    /** Forks a child; it may fail. */
    method Fork() returns (child: Child?)
      ensures child != null ==> fresh(child) && child.Valid() && !child.dead && child.pipe == "" && child.received == []
    {
      var works: bool := *;
      child := null;
      if works {
        child := new Child();
      }
    }

    /** The child a command goes to: the present one if it takes input, else a new one. */
    method Ready() returns (ok: bool)
      requires Valid()
      modifies this`process, this`children, this`retired, children
      ensures Valid() && fresh(children - old(children)) && children >= old(children)
      ensures ok ==> process != null && !process.dead
      ensures ok ==> process.received == if process == old(process) then old(process.received) else []
      ensures !ok && process != null ==> process.terminated
      ensures process == old(process) || (process != null && fresh(process))
      ensures process != old(process) && old(process) != null ==> old(process) in retired && old(process).terminated
      ensures old(process != null && process.dead) ==> !ok || fresh(process)
      ensures forall c :: c in old(children) ==> (old(c.terminated) ==> c.terminated && c.stops == old(c.stops))
    {
      var existing := process;
      if existing != null {
        var ready := existing.OutputReady();
        if !ready {
          existing.Stop();
          existing := null;
        }
      }
      if existing == null {
        var child := Fork();
        if child == null {
          return false;
        }
        if process != null {
          retired := retired + {process};
        }
        process, children := child, children + {child};
      }
      ok := true;
    }

    /** One exchange with the present child. */
    method Talk(command: string, reply: string, output: string) returns (ret: int, more: string)
      requires Valid() && process != null && !process.dead && (garbled || NoPing(output + reply))
      modifies this`pollFailed, this`trouble, process
      ensures Valid() && (old(pollFailed) ==> pollFailed) && (old(trouble) ==> trouble) && (ret == 0 || ret == -1)
      ensures ret == 0 ==> process.received == old(process.received) + [command, PING]
      ensures ret == 0 && !pollFailed && !garbled ==> more == output + reply
      ensures ret != 0 && !pollFailed && !garbled ==> exists part :: part < reply + PING && more == output + part
      ensures ret != 0 && !pollFailed ==> process.dead
      ensures ret != 0 ==> pollFailed || garbled || trouble
    {
      hide NoPing;
      var ack, failed;
      ack, more, failed := Converse(process, command, reply, output);
      pollFailed, trouble := pollFailed || failed, trouble || process.troubled;
      ret := if ack then 0 else -1;
    }

    /**
     * Sends one command, which the child would answer with `reply`, and collects the answer after the
     * text already in `output`. Success means that the command was written to the present child; and
     * unless polling failed or an acknowledgement was garbled, exactly the command's own answer was
     * appended. A failure appends a proper part of the answer and its acknowledgement.
     */
    method SendCommand(command: string, reply: string, output: string) returns (ret: int, more: string)
      requires Valid()
      modifies this, children
      ensures Valid() && fresh(children - old(children)) && children >= old(children)
      ensures (old(pollFailed) ==> pollFailed) && (garbled <==> old(garbled) || !NoPing(output + reply))
      ensures (ret == 0 || ret == -1) && (ret == 0 ==> process != null)
      ensures ret == 0 ==>
        process.received == (if process == old(process) then old(process.received) else []) + [command, PING]
      ensures ret == 0 && !pollFailed && !garbled ==> more == output + reply
      ensures ret != 0 && !pollFailed && !garbled ==> exists part :: part < reply + PING && more == output + part
      ensures process == old(process) || (process != null && fresh(process))
      ensures process != old(process) && old(process) != null ==> old(process) in retired && old(process).terminated
      ensures old(process != null && process.dead) ==> ret != 0 || fresh(process)
      ensures ret != 0 && !pollFailed && process != null ==> process.dead
      ensures (old(trouble) ==> trouble) && (ret != 0 ==> pollFailed || garbled || trouble)
      ensures forall c :: c in old(children) ==> (old(c.terminated) ==> c.terminated && c.stops == old(c.stops))
    {
      hide NoPing;
      ret, more := -1, output;
      NoPart(output, reply);
      garbled := garbled || !NoPing(output + reply);
      var ok := Ready();
      if !ok {
        trouble := true;
        return;
      }
      ret, more := Talk(command, reply, output);
    }
  }

  lemma Sent(output: string, reply: string, pipe: string, dead: bool)
    requires NoPing(output + reply) && pipe <= reply + PING && (!dead ==> pipe == reply + PING)
    ensures Reading(output + reply, false, output, pipe, dead)
  {
    NoPingBefore(output, reply);
    assert output + (reply + PING) == output + reply + PING;
    assert output + pipe <= output + (reply + PING);
  }

  // ---- the controller --------------------------------------------------------------------------------------

  datatype Target = V4 | V6 | V4V6

  /** A command, and what the two children would answer to it. */
  datatype Command = Command(target: Target, text: string, reply4: string, reply6: string) {
    /** Its own answers, the IPv4 one first. */
    function Answers(): string {
      (if target.V6? then "" else reply4) + if target.V4? then "" else reply6
    }

    /** No part of the IPv4 answer, with or without the start of its acknowledgement, completes one with the rest. */
    ghost predicate Clean() {
      && (target != V6 ==> NoPing(reply4))
      && (target == V6 ==> NoPing(reply6))
      && (target == V4V6 ==> forall part :: part < reply4 + PING ==> NoPing(part + reply6))
    }
  }

  class IptablesRestoreController {
    const v4: Slot
    const v6: Slot

    ghost predicate Valid()
      reads this, v4, v6, v4.children, v6.children
    {
      v4 != v6 && v4.children !! v6.children && v4.Valid() && v6.Valid()
    }

    /** No acknowledgement has been garbled. */
    ghost predicate Intact()
      reads this, v4, v6
    {
      !v4.garbled && !v6.garbled
    }

    /** Polling has failed for some child. */
    ghost predicate PollFailed()
      reads this, v4, v6
    {
      v4.pollFailed || v6.pollFailed
    }

    /** Some child was in trouble or could not be forked. */
    ghost predicate Trouble()
      reads this, v4, v6
    {
      v4.trouble || v6.trouble
    }

    constructor ()
      ensures Valid() && Intact() && !PollFailed() && !Trouble()
      ensures fresh(v4) && fresh(v6) && fresh(v4.children) && fresh(v6.children)
    {
      v4 := new Slot();
      v6 := new Slot();
    }

    /**
     * Executes a command for one family or both. If its answers are clean, nothing garbles an
     * acknowledgement; and if it reports success and polling never failed, the output is the IPv4 answer
     * followed by the IPv6 answer to this very command. It does report success unless a child was in
     * trouble.
     */
    method Execute(c: Command) returns (res: int, output: string)
      requires Valid()
      modifies v4, v6, v4.children, v6.children
      ensures Valid() && fresh(v4.children - old(v4.children)) && fresh(v6.children - old(v6.children))
      ensures (old(PollFailed()) ==> PollFailed()) && (old(Trouble()) ==> Trouble())
      ensures old(Intact()) && !PollFailed() && c.Clean() ==> Intact() && (res == 0 ==> output == c.Answers())
      ensures old(Intact()) && !PollFailed() && c.Clean() ==> res == 0 || Trouble()
    {
      hide NoPing;
      res, output := 0, "";
      ghost var ok := Intact() && c.Clean();
      if c.target != V6 {
        assert output + c.reply4 == c.reply4;
        var ret;
        ret, output := v4.SendCommand(c.text, c.reply4, output);
        res := ret;
        assert ok && !PollFailed() ==> Intact();
        assert c.reply4 < c.reply4 + PING;
      }
      if c.target != V4 {
        if c.target == V6 {
          assert output + c.reply6 == c.reply6;
        }
        ghost var before := output;
        var ret;
        ret, output := v6.SendCommand(c.text, c.reply6, output);
        assert ok && !PollFailed() && c.target == V4V6 ==> before < c.reply4 + PING;
        res := if ret == 0 then res else ret;
      }
    }
  }

  /**
   * Any run of commands. Every child was stopped at most once, and those that were replaced were
   * stopped. And if all answers are clean and polling never failed, every command that reported
   * success returned exactly its own answers, whatever became of the commands before it; and all of them
   * did unless a child died by itself, kept an answer back or could not be forked.
   */
  method RunCommands(commands: seq<Command>) returns (c: IptablesRestoreController, results: seq<(int, string)>)
    ensures fresh(c) && c.Valid() && |results| == |commands|
    ensures !c.PollFailed() && (forall k :: 0 <= k < |commands| ==> commands[k].Clean()) ==>
      forall k :: 0 <= k < |commands| && results[k].0 == 0 ==> results[k].1 == commands[k].Answers()
    ensures !c.PollFailed() && (forall k :: 0 <= k < |commands| ==> commands[k].Clean()) && !c.Trouble() ==>
      forall k :: 0 <= k < |commands| ==> results[k].0 == 0
    ensures forall child :: child in c.v4.children + c.v6.children ==> child.stops <= 1
    ensures forall child :: child in c.v4.retired + c.v6.retired ==> child.stops == 1
  {
    c := new IptablesRestoreController();
    results := [];
    ghost var clean := forall k :: 0 <= k < |commands| ==> commands[k].Clean();
    for k := 0 to |commands|
      invariant c.Valid() && fresh(c) && fresh(c.v4) && fresh(c.v6) && fresh(c.v4.children) && fresh(c.v6.children)
      invariant |results| == k
      invariant clean && !c.PollFailed() ==>
        c.Intact() && forall j :: 0 <= j < k && results[j].0 == 0 ==> results[j].1 == commands[j].Answers()
      invariant clean && !c.PollFailed() && !c.Trouble() ==> forall j :: 0 <= j < k ==> results[j].0 == 0
    {
      var res, output := c.Execute(commands[k]);
      results := results + [(res, output)];
    }
  }
}
