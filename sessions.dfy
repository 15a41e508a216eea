/** The bookkeeping that ties `pid_array`, the PCBs and the three terminal
    records together, stated on values. Each terminal runs a stack of
    processes, root first: every process on it names the one below as its
    parent (the root names no parent), the terminal's `pid` and
    `curr_pcb_ptr` name the top, `number_of_processes` is the height, and
    a pid is marked used exactly when it sits in one of the stacks. The
    stacks are ghost: the kernel keeps only the parent links. */
module Sessions {
  import opened Util
  import opened Process
  import opened Console

  /** Stack `c` (pids, root first) is the process stack of terminal `t`. */
  ghost predicate ChainOk(used: seq<bool>, pcbs: seq<Pcb>, term: Terminal, t: int, c: seq<nat>)
    requires |used| == MAX_PID && |pcbs| == MAX_PID
  {
    && |c| == term.numberOfProcesses
    && (forall k :: 0 <= k < |c| ==>
          c[k] < MAX_PID && used[c[k]] && pcbs[c[k]].pid == c[k] && pcbs[c[k]].terminalNum == t)
    && (|c| > 0 ==> pcbs[c[0]].parent == NO_PARENT)
    && (forall k, l :: 0 <= l < k < |c| && k == l + 1 ==> pcbs[c[k]].parent == c[l])
    && (forall k, l :: 0 <= k < l < |c| ==> c[k] != c[l])
    && (if |c| == 0 then term.currPcb == None
        else term.pid == c[|c| - 1] && term.currPcb == Some(c[|c| - 1]))
  }

  predicate InSomeChain(chains: seq<seq<nat>>, p: nat)
    requires |chains| == NUM_TERMINALS
  {
    p in chains[0] || p in chains[1] || p in chains[2]
  }

  /** The whole table: every terminal's stack is well formed and the used
      pids are exactly the pids on the stacks. */
  ghost predicate Tracked(used: seq<bool>, pcbs: seq<Pcb>, terms: seq<Terminal>, chains: seq<seq<nat>>) {
    && |used| == MAX_PID && |pcbs| == MAX_PID && |terms| == NUM_TERMINALS && |chains| == NUM_TERMINALS
    && (forall t :: 0 <= t < NUM_TERMINALS ==> ChainOk(used, pcbs, terms[t], t, chains[t]))
    && (forall p: nat {:trigger InSomeChain(chains, p)} :: p < MAX_PID ==> (used[p] <==> InSomeChain(chains, p)))
  }

  /** The process a terminal's `curr_pcb_ptr` names is live and belongs to
      that terminal; it is the terminal's root exactly when its parent is
      the no-parent mark, and otherwise its parent is a different live
      process of the same terminal. */
  lemma ParentIsLive(used: seq<bool>, pcbs: seq<Pcb>, terms: seq<Terminal>, chains: seq<seq<nat>>, t: nat)
    requires Tracked(used, pcbs, terms, chains) && t < NUM_TERMINALS && terms[t].currPcb.Some?
    ensures |chains[t]| == terms[t].numberOfProcesses
    ensures var p := terms[t].currPcb.value;
      && p < MAX_PID && used[p] && pcbs[p].pid == p && pcbs[p].terminalNum == t && terms[t].pid == p
      && (pcbs[p].parent == NO_PARENT <==> terms[t].numberOfProcesses == 1)
      && (pcbs[p].parent != NO_PARENT ==>
            var q := pcbs[p].parent;
            q < MAX_PID && q != p && used[q] && pcbs[q].pid == q && pcbs[q].terminalNum == t)
  {
    var c := chains[t];
    assert ChainOk(used, pcbs, terms[t], t, c);
    var n := |c|;
    assert n > 0;
    if n > 1 {
      assert c[n - 1] != c[n - 2];
      assert c[n - 2] < MAX_PID;
    }
  }

  /** No pid is on two terminals: a used pid's PCB names the one terminal
      whose stack holds it. */
  lemma PidOnOneTerminal(used: seq<bool>, pcbs: seq<Pcb>, terms: seq<Terminal>, chains: seq<seq<nat>>, p: nat, t: nat)
    requires Tracked(used, pcbs, terms, chains) && p < MAX_PID && t < NUM_TERMINALS
    ensures p in chains[t] <==> used[p] && pcbs[p].terminalNum == t
  {
    if used[p] {
      assert InSomeChain(chains, p);
      var u :| 0 <= u < NUM_TERMINALS && p in chains[u];
      assert ChainOk(used, pcbs, terms[u], u, chains[u]);
      var k :| 0 <= k < |chains[u]| && chains[u][k] == p;
      assert pcbs[p].terminalNum == u;
    }
    if p in chains[t] {
      assert ChainOk(used, pcbs, terms[t], t, chains[t]);
      var k :| 0 <= k < |chains[t]| && chains[t][k] == p;
    }
  }

  /** Pushing a free pid on a terminal's stack. */
  lemma PushOnChain(used: seq<bool>, pcbs: seq<Pcb>, term: Terminal, t: nat, c: seq<nat>, p: nat, pcb: Pcb)
    requires |used| == MAX_PID && |pcbs| == MAX_PID && ChainOk(used, pcbs, term, t, c) && p < MAX_PID && !used[p]
    requires pcb.pid == p && pcb.terminalNum == t
    requires pcb.parent == if term.numberOfProcesses == 0 then NO_PARENT else term.pid
    ensures ChainOk(used[p := true], pcbs[p := pcb],
                    term.(pid := p, numberOfProcesses := term.numberOfProcesses + 1, currPcb := Some(p)), t, c + [p])
  {
    var c' := c + [p];
    var used', pcbs' := used[p := true], pcbs[p := pcb];
    assert forall k :: 0 <= k < |c| ==> c[k] != p;
    forall k | 0 <= k < |c'|
      ensures c'[k] < MAX_PID && used'[c'[k]] && pcbs'[c'[k]].pid == c'[k] && pcbs'[c'[k]].terminalNum == t
    {
      if k < |c| {
        assert c'[k] == c[k] && c[k] != p;
      }
    }
    forall k, l | 0 <= l < k < |c'| && k == l + 1
      ensures pcbs'[c'[k]].parent == c'[l]
    {
      assert c'[l] == c[l];
      if k < |c| {
        assert c'[k] == c[k] && c[k] != p;
      } else {
        assert term.pid == c[l];
      }
    }
  }

  /** Claiming a pid that is on no stack leaves a stack as it was. */
  lemma ClaimOffChain(used: seq<bool>, pcbs: seq<Pcb>, term: Terminal, u: nat, c: seq<nat>, p: nat, pcb: Pcb)
    requires |used| == MAX_PID && |pcbs| == MAX_PID && ChainOk(used, pcbs, term, u, c) && p < MAX_PID && !used[p]
    ensures ChainOk(used[p := true], pcbs[p := pcb], term, u, c)
  {
    assert forall k :: 0 <= k < |c| ==> c[k] != p;
  }

  /** Popping the top of a stack of two or more. */
  lemma PopOffChain(used: seq<bool>, pcbs: seq<Pcb>, term: Terminal, t: nat, c: seq<nat>)
    requires |used| == MAX_PID && |pcbs| == MAX_PID && ChainOk(used, pcbs, term, t, c) && |c| >= 2
    ensures var n := |c|;
      ChainOk(used[c[n - 1] := false], pcbs,
              term.(pid := c[n - 2], numberOfProcesses := term.numberOfProcesses - 1, currPcb := Some(c[n - 2])),
              t, c[..n - 1])
  {
    var n := |c|;
    var c' := c[..n - 1];
    var used' := used[c[n - 1] := false];
    forall k | 0 <= k < |c'|
      ensures c'[k] < MAX_PID && used'[c'[k]] && pcbs[c'[k]].pid == c'[k] && pcbs[c'[k]].terminalNum == t
    {
      assert c'[k] == c[k] && c[k] != c[n - 1];
    }
    forall k, l | 0 <= l < k < |c'| && k == l + 1
      ensures pcbs[c'[k]].parent == c'[l]
    {
      assert c'[k] == c[k] && c'[l] == c[l];
    }
  }

  /** Freeing a pid that is not on a stack leaves it as it was. */
  lemma FreeOffChain(used: seq<bool>, pcbs: seq<Pcb>, term: Terminal, u: nat, c: seq<nat>, p: nat)
    requires |used| == MAX_PID && |pcbs| == MAX_PID && ChainOk(used, pcbs, term, u, c) && p < MAX_PID && p !in c
    ensures ChainOk(used[p := false], pcbs, term, u, c)
  {
  }

  /** `execute`'s bookkeeping keeps the table: a free pid `p` is pushed on
      terminal `t`, its PCB naming the terminal's previous top as parent
      (or no parent on an empty terminal), and the terminal's `pid`,
      `curr_pcb_ptr` and count move up. */
  lemma {:induction false} PushTracked(used: seq<bool>, pcbs: seq<Pcb>, terms: seq<Terminal>, chains: seq<seq<nat>>,
                                       t: nat, p: nat, pcb: Pcb)
    requires Tracked(used, pcbs, terms, chains) && t < NUM_TERMINALS && p < MAX_PID && !used[p]
    requires pcb.pid == p && pcb.terminalNum == t
    requires pcb.parent == if terms[t].numberOfProcesses == 0 then NO_PARENT else terms[t].pid
    ensures Tracked(used[p := true], pcbs[p := pcb],
                    terms[t := terms[t].(pid := p, numberOfProcesses := terms[t].numberOfProcesses + 1, currPcb := Some(p))],
                    chains[t := chains[t] + [p]])
  {
    var used', pcbs' := used[p := true], pcbs[p := pcb];
    var terms' := terms[t := terms[t].(pid := p, numberOfProcesses := terms[t].numberOfProcesses + 1, currPcb := Some(p))];
    var chains' := chains[t := chains[t] + [p]];
    forall u | 0 <= u < NUM_TERMINALS
      ensures ChainOk(used', pcbs', terms'[u], u, chains'[u])
    {
      if u == t {
        PushOnChain(used, pcbs, terms[t], t, chains[t], p, pcb);
      } else {
        ClaimOffChain(used, pcbs, terms[u], u, chains[u], p, pcb);
      }
    }
    PushCoverage(used, used', chains, chains', t, p);
    assert |used'| == MAX_PID && |pcbs'| == MAX_PID && |terms'| == NUM_TERMINALS && |chains'| == NUM_TERMINALS;
    assert forall u :: 0 <= u < NUM_TERMINALS ==> ChainOk(used', pcbs', terms'[u], u, chains'[u]);
    assert Tracked(used', pcbs', terms', chains');
  }

  /** Claiming the pid pushed on stack `t` keeps "used exactly when on a
      stack". */
  lemma PushCoverage(used: seq<bool>, used': seq<bool>, chains: seq<seq<nat>>, chains': seq<seq<nat>>, t: nat, p: nat)
    requires |used| == MAX_PID && |chains| == NUM_TERMINALS && t < NUM_TERMINALS && p < MAX_PID
    requires used' == used[p := true] && chains' == chains[t := chains[t] + [p]]
    requires forall r: nat {:trigger InSomeChain(chains, r)} :: r < MAX_PID ==> (used[r] <==> InSomeChain(chains, r))
    ensures forall r: nat {:trigger InSomeChain(chains', r)} :: r < MAX_PID ==> (used'[r] <==> InSomeChain(chains', r))
  {
    forall r: nat | r < MAX_PID
      ensures used'[r] <==> InSomeChain(chains', r)
    {
      assert used[r] <==> InSomeChain(chains, r);
      assert r in chains'[t] <==> r in chains[t] || r == p;
    }
  }

  /** `halt`'s bookkeeping keeps the table: the top `p` of terminal `t`,
      when it is not the root, is popped and freed, and the terminal's
      `pid`, `curr_pcb_ptr` and count move down to the parent. */
  lemma {:induction false} PopTracked(used: seq<bool>, pcbs: seq<Pcb>, terms: seq<Terminal>, chains: seq<seq<nat>>, t: nat)
    requires Tracked(used, pcbs, terms, chains) && t < NUM_TERMINALS && terms[t].currPcb.Some?
    requires pcbs[terms[t].currPcb.value].parent != NO_PARENT
    ensures terms[t].numberOfProcesses >= 2 && terms[t].currPcb.value < MAX_PID
    ensures var p := terms[t].currPcb.value;
      var q := pcbs[p].parent;
      q < MAX_PID
      && Tracked(used[p := false], pcbs,
                 terms[t := terms[t].(pid := q, numberOfProcesses := terms[t].numberOfProcesses - 1, currPcb := Some(q))],
                 chains[t := chains[t][..|chains[t]| - 1]])
  {
    ParentIsLive(used, pcbs, terms, chains, t);
    var p := terms[t].currPcb.value;
    var c := chains[t];
    var n := |c|;
    assert ChainOk(used, pcbs, terms[t], t, c);
    assert c[n - 1] == p && pcbs[p].parent == c[n - 2];
    var used' := used[p := false];
    var terms' := terms[t := terms[t].(pid := c[n - 2], numberOfProcesses := terms[t].numberOfProcesses - 1,
                                        currPcb := Some(c[n - 2]))];
    var chains' := chains[t := c[..n - 1]];
    OnlyOnOwnTerminal(used, pcbs, terms, chains, p, t);
    forall u | 0 <= u < NUM_TERMINALS
      ensures ChainOk(used', pcbs, terms'[u], u, chains'[u])
    {
      if u == t {
        PopOffChain(used, pcbs, terms[t], t, c);
      } else {
        FreeOffChain(used, pcbs, terms[u], u, chains[u], p);
      }
    }
    assert forall k :: 0 <= k < n - 1 ==> c[k] != p;
    PopCoverage(used, used', chains, chains', t, c[..n - 1], p);
    assert |used'| == MAX_PID && |pcbs| == MAX_PID && |terms'| == NUM_TERMINALS && |chains'| == NUM_TERMINALS;
    assert forall u :: 0 <= u < NUM_TERMINALS ==> ChainOk(used', pcbs, terms'[u], u, chains'[u]);
    assert Tracked(used', pcbs, terms', chains');
  }

  /** A pid on terminal `t`'s stack is on no other. */
  lemma OnlyOnOwnTerminal(used: seq<bool>, pcbs: seq<Pcb>, terms: seq<Terminal>, chains: seq<seq<nat>>, p: nat, t: nat)
    requires Tracked(used, pcbs, terms, chains) && p < MAX_PID && t < NUM_TERMINALS && p in chains[t]
    ensures forall u :: 0 <= u < NUM_TERMINALS && u != t ==> p !in chains[u]
  {
    PidOnOneTerminal(used, pcbs, terms, chains, p, 0);
    PidOnOneTerminal(used, pcbs, terms, chains, p, 1);
    PidOnOneTerminal(used, pcbs, terms, chains, p, 2);
  }

  /** Freeing the pid taken off the top of stack `t` keeps "used exactly
      when on a stack". */
  lemma PopCoverage(used: seq<bool>, used': seq<bool>, chains: seq<seq<nat>>, chains': seq<seq<nat>>,
                    t: nat, rest: seq<nat>, p: nat)
    requires |used| == MAX_PID && |chains| == NUM_TERMINALS && t < NUM_TERMINALS && p < MAX_PID
    requires used' == used[p := false] && chains' == chains[t := rest]
    requires forall r: nat {:trigger InSomeChain(chains, r)} :: r < MAX_PID ==> (used[r] <==> InSomeChain(chains, r))
    requires chains[t] == rest + [p] && p !in rest
    requires forall u :: 0 <= u < NUM_TERMINALS && u != t ==> p !in chains[u]
    ensures forall r: nat {:trigger InSomeChain(chains', r)} :: r < MAX_PID ==> (used'[r] <==> InSomeChain(chains', r))
  {
    forall r: nat | r < MAX_PID
      ensures used'[r] <==> InSomeChain(chains', r)
    {
      assert used[r] <==> InSomeChain(chains, r);
      assert r in chains[t] <==> r in rest || r == p;
    }
  }

  /** Changes to a PCB's descriptors or saved registers, or to a terminal's
      cursor, line or screen, keep the table. */
  lemma TrackedFrame(used: seq<bool>, pcbs: seq<Pcb>, pcbs': seq<Pcb>, terms: seq<Terminal>, terms': seq<Terminal>,
                     chains: seq<seq<nat>>)
    requires Tracked(used, pcbs, terms, chains)
    requires |pcbs'| == MAX_PID && |terms'| == NUM_TERMINALS
    requires forall p :: 0 <= p < MAX_PID ==>
      pcbs'[p].pid == pcbs[p].pid && pcbs'[p].parent == pcbs[p].parent && pcbs'[p].terminalNum == pcbs[p].terminalNum
    requires forall t :: 0 <= t < NUM_TERMINALS ==>
      terms'[t].pid == terms[t].pid && terms'[t].numberOfProcesses == terms[t].numberOfProcesses
      && terms'[t].currPcb == terms[t].currPcb
    ensures Tracked(used, pcbs', terms', chains)
  {
    forall u | 0 <= u < NUM_TERMINALS
      ensures ChainOk(used, pcbs', terms'[u], u, chains[u])
    {
      assert ChainOk(used, pcbs, terms[u], u, chains[u]);
    }
  }

  /** The boot state: no pid used, no process on any terminal. */
  lemma BootTracked(terms: seq<Terminal>, pcbs: seq<Pcb>)
    requires |terms| == NUM_TERMINALS && |pcbs| == MAX_PID
    requires forall t :: 0 <= t < NUM_TERMINALS ==> terms[t].numberOfProcesses == 0 && terms[t].currPcb.None?
    ensures Tracked(seq(MAX_PID, _ => false), pcbs, terms, [[], [], []])
  {
  }

  // ---- the scans ----

  /** `execute`'s pid scan: the lowest unused pid, or -1 when all 8 are in
      use. */
  method FindFreePid(used: seq<bool>) returns (p: int)
    requires |used| == MAX_PID
    ensures -1 <= p < MAX_PID
    ensures p == -1 <==> forall j :: 0 <= j < MAX_PID ==> used[j]
    ensures p >= 0 ==> !used[p] && forall j :: 0 <= j < p ==> used[j]
  {
    var i := 0;
    while i < MAX_PID
      invariant 0 <= i <= MAX_PID
      invariant forall j :: 0 <= j < i ==> used[j]
    {
      if !used[i] {
        return i;
      }
      i := i + 1;
    }
    return -1;
  }

  /** `open`'s slot scan: the lowest unused descriptor from 2 to 7, or -1
      when they are all in use. */
  method FindFreeFd(fds: seq<FileDesc>) returns (i: int)
    requires |fds| == NUM_FILE_DES
    ensures i == -1 || 2 <= i < NUM_FILE_DES
    ensures i == -1 <==> forall j :: 2 <= j < NUM_FILE_DES ==> fds[j].used
    ensures i >= 0 ==> !fds[i].used && forall j :: 2 <= j < i ==> fds[j].used
  {
    i := 2;
    while i < NUM_FILE_DES
      invariant 2 <= i <= NUM_FILE_DES
      invariant forall j :: 2 <= j < i ==> fds[j].used
    {
      if !fds[i].used {
        return i;
      }
      i := i + 1;
    }
    return -1;
  }

  /** `execute`'s descriptor loop: stdin and stdout open, the rest free,
      every inode and position zero. */
  method InitFileArray() returns (fds: seq<FileDesc>)
    ensures |fds| == NUM_FILE_DES
    ensures fds[0] == FileDesc(StdinTable, 0, 0, true) && fds[1] == FileDesc(StdoutTable, 0, 0, true)
    ensures forall i :: 2 <= i < NUM_FILE_DES ==> fds[i] == FileDesc(NullTable, 0, 0, false)
  {
    fds := [];
    var i := 0;
    while i < NUM_FILE_DES
      invariant 0 <= i <= NUM_FILE_DES && |fds| == i
      invariant forall j :: 0 <= j < i ==> fds[j] == InitialFd(j)
    {
      fds := fds + [InitialFd(i)];
      i := i + 1;
    }
  }

  /** `halt`'s descriptor loop: every slot marked unused, the rest of each
      entry kept. */
  method ReleaseFileArray(fds: seq<FileDesc>) returns (r: seq<FileDesc>)
    ensures |r| == |fds|
    ensures forall i :: 0 <= i < |fds| ==> !r[i].used
    ensures forall i :: 0 <= i < |fds| ==>
      r[i].table == fds[i].table && r[i].inode == fds[i].inode && r[i].position == fds[i].position
  {
    r := fds;
    var i := 0;
    while i < |fds|
      invariant 0 <= i <= |fds| && |r| == |fds|
      invariant forall j :: 0 <= j < i ==> r[j] == fds[j].(used := false)
      invariant forall j :: i <= j < |fds| ==> r[j] == fds[j]
    {
      r := r[i := r[i].(used := false)];
      i := i + 1;
    }
  }
}
