/** The kernel context the system calls, the terminal driver and the
    keyboard interrupt work on: `pid_array`, `cur_pid`, the PCBs, the three
    terminal records and `current_terminal`, the page directory and tables,
    `tss.esp0`, the keyboard's modifier flags, the terminal driver's global
    line copy, the screen and the PIC and RTC devices. */
module Kernel {
  import opened Util
  import opened Process
  import opened Console
  import opened Sessions
  import Paging
  import Pic
  import Rtc
  import FileSystem

  /** How `execute` ends: -1, or the jump to user mode at the program's
      entry point with the user stack pointer. */
  datatype ExecResult = ExecFailed | EnterUser(eip: u32, esp: u32)

  /** How `halt` ends: a root process jumps back into its own program;
      any other returns from its parent's `execute` call with the status. */
  datatype HaltResult = ReenterUser(eip: u32, esp: u32) | ResumeParent(ebp: u32, esp: u32, status: byte)

  /** The kernel stack pointers `execute` records for `halt` to return to
      (read with inline assembly in the source). */
  datatype Resume = Resume(esp: u32, ebp: u32)

  /** What a system call returns, or a call through a NULL entry of an
      operation table (which the source would jump through). */
  datatype SysResult = Ret(value: int) | NullCall

  /** The kernel variables as one value, for stating what an operation
      changes and what it leaves alone. */
  datatype Snapshot = Snapshot(
    pidUsed: seq<bool>, curPid: int, pcbs: seq<Pcb>, terminals: seq<Terminal>, current: nat,
    pageDir: seq<Paging.Pde>, pageTable: seq<Paging.Pte>, userPageTable: seq<Paging.Pte>, tssEsp0: int,
    mods: Modifiers, command: seq<byte>, commandIdx: int, videoMem: seq<byte>, shadows: seq<seq<byte>>,
    screen: seq<ScreenOp>)

  /** A terminal record as `terminal_init` shapes it and everything after
      keeps it: its own number and shadow page, a 128-byte line with the
      index inside it, a pid in range. */
  predicate TerminalOk(term: Terminal, t: int) {
    && term.terminalNum == t && term.videoBuffer == TERMINAL_VID_BUF_START + t * FOUR_KB
    && |term.command| == BUFFER_SIZE && term.commandIdx <= BUFFER_SIZE && term.pid < MAX_PID
    && (term.currPcb.Some? ==> term.currPcb.value == term.pid)
  }

  /** The process table and the terminal records: every stack well formed
      (`Tracked`), every PCB and terminal record shaped. */
  ghost predicate TablesOk(used: seq<bool>, pcbs: seq<Pcb>, terms: seq<Terminal>, chains: seq<seq<nat>>) {
    && Tracked(used, pcbs, terms, chains)
    && (forall p :: 0 <= p < MAX_PID ==> pcbs[p].Shaped())
    && (forall t :: 0 <= t < NUM_TERMINALS ==> TerminalOk(terms[t], t))
  }

  /** `execute`'s push keeps the tables. */
  lemma PushKeepsTables(used: seq<bool>, pcbs: seq<Pcb>, terms: seq<Terminal>, chains: seq<seq<nat>>,
                        t: nat, p: nat, pcb: Pcb)
    requires TablesOk(used, pcbs, terms, chains) && t < NUM_TERMINALS && p < MAX_PID && !used[p]
    requires pcb.pid == p && pcb.terminalNum == t && pcb.Shaped()
    requires pcb.parent == if terms[t].numberOfProcesses == 0 then NO_PARENT else terms[t].pid
    ensures TablesOk(used[p := true], pcbs[p := pcb],
                     terms[t := terms[t].(pid := p, numberOfProcesses := terms[t].numberOfProcesses + 1, currPcb := Some(p))],
                     chains[t := chains[t] + [p]])
  {
    PushTracked(used, pcbs, terms, chains, t, p, pcb);
  }

  /** `halt`'s pop, with the popped PCB's descriptors released, keeps the
      tables. */
  lemma PopKeepsTables(used: seq<bool>, pcbs: seq<Pcb>, terms: seq<Terminal>, chains: seq<seq<nat>>, t: nat)
    requires TablesOk(used, pcbs, terms, chains) && t < NUM_TERMINALS && terms[t].currPcb.Some?
    requires pcbs[terms[t].currPcb.value].parent != NO_PARENT
    ensures terms[t].numberOfProcesses >= 2 && terms[t].currPcb.value < MAX_PID
    ensures |chains| == NUM_TERMINALS && |chains[t]| == terms[t].numberOfProcesses
    ensures var p := terms[t].currPcb.value;
      var q := pcbs[p].parent;
      q < MAX_PID
      && TablesOk(used[p := false], pcbs[p := pcbs[p].(fds := Released(pcbs[p].fds))],
                  terms[t := terms[t].(pid := q, numberOfProcesses := terms[t].numberOfProcesses - 1, currPcb := Some(q))],
                  chains[t := chains[t][..|chains[t]| - 1]])
  {
    PopTracked(used, pcbs, terms, chains, t);
    ParentIsLive(used, pcbs, terms, chains, t);
    var p := terms[t].currPcb.value;
    var q := pcbs[p].parent;
    var used' := used[p := false];
    var terms' := terms[t := terms[t].(pid := q, numberOfProcesses := terms[t].numberOfProcesses - 1, currPcb := Some(q))];
    var chains' := chains[t := chains[t][..|chains[t]| - 1]];
    TrackedFrame(used', pcbs, pcbs[p := pcbs[p].(fds := Released(pcbs[p].fds))], terms', terms', chains');
  }

  /** Replacing one process's descriptor array keeps the tables. */
  lemma FdsKeepTables(used: seq<bool>, pcbs: seq<Pcb>, terms: seq<Terminal>, chains: seq<seq<nat>>,
                      pid: nat, fds: seq<FileDesc>)
    requires TablesOk(used, pcbs, terms, chains) && pid < MAX_PID && |fds| == NUM_FILE_DES
    ensures TablesOk(used, pcbs[pid := pcbs[pid].(fds := fds)], terms, chains)
  {
    TrackedFrame(used, pcbs, pcbs[pid := pcbs[pid].(fds := fds)], terms, terms, chains);
  }

  /** Changing a terminal's cursor, line or flags keeps the tables. */
  lemma TerminalKeepsTables(used: seq<bool>, pcbs: seq<Pcb>, terms: seq<Terminal>, chains: seq<seq<nat>>,
                            t: nat, term: Terminal)
    requires TablesOk(used, pcbs, terms, chains) && t < NUM_TERMINALS && TerminalOk(term, t)
    requires term.pid == terms[t].pid && term.numberOfProcesses == terms[t].numberOfProcesses
    requires term.currPcb == terms[t].currPcb
    ensures TablesOk(used, pcbs, terms[t := term], chains)
  {
    TrackedFrame(used, pcbs, pcbs, terms, terms[t := term], chains);
  }

  /** The three terminal records `terminal_init` leaves, terminal 0 marked
      as processing. */
  function BootTerminals(): seq<Terminal> {
    [InitialTerminal(0).(processing := true), InitialTerminal(1), InitialTerminal(2)]
  }

  /** A file whose first four bytes exist and are the ELF magic. */
  ghost predicate ElfFile(fs: FileSystem.FsImage, ino: nat)
    requires fs.Valid()
  {
    && ino < fs.inodeCount && fs.inodes[ino].length >= 4
    && FileSystem.AllBlocksOk(fs, ino, 0, 4) && FileSystem.FileBytes(fs, ino, 0, 4) == ELF_MAGIC
  }

  /** The inode `execute` starts for `cmdline`: both tokens fit their
      buffers, the name has a directory entry, and the first four bytes
      read from its file into a zeroed buffer are the ELF magic. */
  function ImageInode(fs: FileSystem.FsImage, cmdline: seq<byte>): Option<u32>
    requires fs.Valid()
  {
    if |Name(cmdline)| >= TOKEN_SIZE || |Arg(cmdline)| >= TOKEN_SIZE then None
    else match FileSystem.Lookup(fs, Name(cmdline))
      case None => None
      case Some(i) =>
        var ino := FileSystem.EntryAt(fs, i).inode;
        var header := FileSystem.ReadZeroed(fs, ino, 0, 4);
        if header.0 == -1 || header.1 != ELF_MAGIC then None else Some(ino)
  }

  /** The check on the zero-filled header buffer accepts exactly the files
      that really begin with the magic: a file shorter than four bytes
      leaves a zero in the buffer and is refused. */
  lemma ImageInodeIsElf(fs: FileSystem.FsImage, cmdline: seq<byte>)
    requires fs.Valid()
    ensures ImageInode(fs, cmdline).Some? <==>
      && |Name(cmdline)| < TOKEN_SIZE && |Arg(cmdline)| < TOKEN_SIZE
      && FileSystem.Lookup(fs, Name(cmdline)).Some?
      && ElfFile(fs, FileSystem.EntryAt(fs, FileSystem.Lookup(fs, Name(cmdline)).value).inode)
    ensures ImageInode(fs, cmdline).Some? ==>
      ImageInode(fs, cmdline).value == FileSystem.EntryAt(fs, FileSystem.Lookup(fs, Name(cmdline)).value).inode
  {
    if |Name(cmdline)| < TOKEN_SIZE && |Arg(cmdline)| < TOKEN_SIZE && FileSystem.Lookup(fs, Name(cmdline)).Some? {
      var ino := FileSystem.EntryAt(fs, FileSystem.Lookup(fs, Name(cmdline)).value).inode;
      HeaderIsMagic(fs, ino);
    }
  }

  /** The header read for one inode. */
  lemma HeaderIsMagic(fs: FileSystem.FsImage, ino: u32)
    requires fs.Valid()
    ensures var h := FileSystem.ReadZeroed(fs, ino, 0, 4);
      (h.0 != -1 && h.1 == ELF_MAGIC) <==> ElfFile(fs, ino)
  {
    var h := FileSystem.ReadZeroed(fs, ino, 0, 4);
    if ino < fs.inodeCount && 0 < fs.inodes[ino].length {
      var k := FileSystem.ReadLen(fs, ino, 0, 4);
      if fs.inodes[ino].length < 4 {
        assert k < 4;
        if h.0 > 0 {
          assert h.1[3] == NUL;
        }
      } else {
        assert k == 4;
        match FileSystem.FirstBadFrom(fs, ino, 0, k, 0)
        case Some(b) =>
          assert !FileSystem.AllBlocksOk(fs, ino, 0, 4);
        case None =>
          assert h.1 == FileSystem.FileBytes(fs, ino, 0, 4) + Zeros(0);
      }
    } else if ino < fs.inodeCount {
      assert h.1[0] == NUL;
    }
  }

  /** The entry point `execute` reads: the little-endian word at byte 24 of
      the image, read into a zeroed buffer. */
  function EntryPoint(fs: FileSystem.FsImage, ino: u32): u32
    requires fs.Valid()
  {
    Le32(FileSystem.ReadZeroed(fs, ino, ELF_START, 4).1)
  }

  /** For an image that holds bytes 24..27, the entry point is that header
      word. */
  lemma EntryPointIsHeaderWord(fs: FileSystem.FsImage, ino: u32)
    requires fs.Valid() && ino < fs.inodeCount && fs.inodes[ino].length >= ELF_START + 4
    requires FileSystem.AllBlocksOk(fs, ino, ELF_START, 4)
    ensures EntryPoint(fs, ino) == Le32(FileSystem.FileBytes(fs, ino, ELF_START, 4))
  {
    var h := FileSystem.ReadZeroed(fs, ino, ELF_START, 4);
    var k := FileSystem.ReadLen(fs, ino, ELF_START, 4);
    assert k == 4;
    match FileSystem.FirstBadFrom(fs, ino, ELF_START, k, 0)
    case Some(b) =>
      assert false;
    case None =>
      assert h.1 == FileSystem.FileBytes(fs, ino, ELF_START, 4) + Zeros(0);
  }

  /** The loop of `terminal_init` over the three records: each gets its
      number, its shadow page and a zeroed line; terminal 0 is then marked
      as processing. */
  method InitTerminals() returns (ts: seq<Terminal>)
    ensures ts == BootTerminals()
  {
    ts := [];
    var i := 0;
    while i < NUM_TERMINALS
      invariant 0 <= i <= NUM_TERMINALS && |ts| == i
      invariant forall j :: 0 <= j < i ==> ts[j] == InitialTerminal(j)
    {
      var line: seq<byte> := [];
      var k := 0;
      while k < BUFFER_SIZE
        invariant 0 <= k <= BUFFER_SIZE && |line| == k
        invariant forall j :: 0 <= j < k ==> line[j] == NUL
      {
        line := line + [NUL];
        k := k + 1;
      }
      assert line == Zeros(BUFFER_SIZE);
      ts := ts + [Terminal(0, NO_PARENT, false, i, 0, 0, line, 0, TERMINAL_VID_BUF_START + i * FOUR_KB, 0, false, None)];
      i := i + 1;
    }
    ts := ts[0 := ts[0].(processing := true)];
  }

  /** The PCB `execute` builds for pid `p`: a fresh descriptor array, the
      argument copied with `strncpy`, and the entry point read from byte
      24 of the image into a zeroed buffer. */
  method MakePcb(fs: FileSystem.FsImage, ino: u32, p: nat, parent: u32, resume: Resume,
                 ghost cmdline: seq<byte>, arg: seq<byte>, t: nat) returns (pcb: Pcb)
    requires fs.Valid() && p < MAX_PID && t < NUM_TERMINALS
    requires NoNul(cmdline) && |Arg(cmdline)| < TOKEN_SIZE && arg == Pad(Arg(cmdline), TOKEN_SIZE)
    ensures pcb == NewPcb(p, parent, resume, EntryPoint(fs, ino), cmdline, t)
  {
    var fds := InitFileArray();
    assert fds == seq(NUM_FILE_DES, i => InitialFd(i));
    var argCopy := StrNCpy(arg, TOKEN_SIZE);
    StrNCpyOfPad(Arg(cmdline), TOKEN_SIZE);
    var er, entry := FileSystem.ReadIntoZeroed(fs, ino, ELF_START, 4);
    pcb := Pcb(p, parent, resume.esp, resume.ebp, KernelStackTop(p), Le32(entry), USER_ESP, argCopy, fds, t);
  }

  /** The checks `execute` makes before it claims a pid: split the
      command line, look the name up, read the first four bytes of the
      file into a zeroed buffer and compare them with the ELF magic. On
      success the result is the image's inode and the argument buffer. */
  method LoadImage(fs: FileSystem.FsImage, cmdline: seq<byte>) returns (image: Option<u32>, arg: seq<byte>)
    requires fs.Valid() && NoNul(cmdline)
    ensures image == ImageInode(fs, cmdline)
    ensures image.Some? ==> |Arg(cmdline)| < TOKEN_SIZE && arg == Pad(Arg(cmdline), TOKEN_SIZE)
  {
    var fits, cmd;
    fits, cmd, arg := ParseCommand(cmdline);
    if !fits {
      return None, arg;
    }
    PadThenStrLen(Name(cmdline), TOKEN_SIZE);
    var name := cmd[..CStrLen(cmd)];
    var found, dentry := FileSystem.ReadDentryByName(fs, name, FileSystem.Dentry(Zeros(FileSystem.MAX_FILE_NAME), 0, 0));
    if found == -1 {
      return None, arg;
    }
    var hr, header := FileSystem.ReadIntoZeroed(fs, dentry.inode, 0, 4);
    if hr == -1 || header != ELF_MAGIC {
      return None, arg;
    }
    return Some(dentry.inode), arg;
  }

  /** The PCB `execute` writes for pid `p` started from `cmdline` under
      `parent`, on terminal `t`. */
  function NewPcb(p: nat, parent: u32, resume: Resume, eip: u32, cmdline: seq<byte>, t: nat): Pcb
    requires p < MAX_PID && t < NUM_TERMINALS
  {
    Pcb(p, parent, resume.esp, resume.ebp, KernelStackTop(p), eip, USER_ESP,
        Pad(Arg(cmdline), TOKEN_SIZE), seq(NUM_FILE_DES, i => InitialFd(i)), t)
  }

  /** Every descriptor marked unused, the rest of each entry kept. */
  function Released(fds: seq<FileDesc>): (r: seq<FileDesc>)
  {
    seq(|fds|, i requires 0 <= i < |fds| => fds[i].(used := false))
  }

  /** The PCB table with descriptor `fd` of `pid` replaced. */
  function UpdateFd(pcbs: seq<Pcb>, pid: nat, fd: nat, d: FileDesc): seq<Pcb>
    requires pid < |pcbs| && fd < |pcbs[pid].fds|
  {
    pcbs[pid := pcbs[pid].(fds := pcbs[pid].fds[fd := d])]
  }

  /** What `close` returns for a descriptor bound to table `t`: the
      table's close entry, or a call through NULL when the slot never got a
      table. */
  function CloseVia(t: TableRef, fd: int): (r: SysResult)
    ensures r == NullCall <==> t == NullTable
    ensures t in {StdinTable, StdoutTable} ==> r == Ret(-1)
    ensures t in {RtcTable, FileTable, DirTable} ==> r == Ret(0)
  {
    if t == NullTable then NullCall
    else match Ops(t).close
      case NullOp => NullCall
      case Call(d) =>
        Ret(match d
            case RtcDriver => Rtc.Close(fd)
            case FileDriver => FileSystem.FileClose(fd)
            case DirDriver => FileSystem.DirectoryClose(fd)
            case TerminalDriver => TerminalClose(fd))
  }

  /** The driver a `read` through table `t` reaches, None for a NULL
      table or a NULL read entry. */
  function ReadVia(t: TableRef): (d: Option<Driver>)
    ensures d.None? <==> t in {NullTable, StdoutTable}
    ensures t == StdinTable ==> d == Some(TerminalDriver)
    ensures t == RtcTable ==> d == Some(RtcDriver)
    ensures t == FileTable ==> d == Some(FileDriver)
    ensures t == DirTable ==> d == Some(DirDriver)
  {
    if t == NullTable then None
    else match Ops(t).read
      case NullOp => None
      case Call(drv) => Some(drv)
  }

  /** The driver a `write` through table `t` reaches, None for a NULL
      table or a NULL write entry. */
  function WriteVia(t: TableRef): (d: Option<Driver>)
    ensures d.None? <==> t in {NullTable, StdinTable}
    ensures t == StdoutTable ==> d == Some(TerminalDriver)
    ensures t == RtcTable ==> d == Some(RtcDriver)
    ensures t == FileTable ==> d == Some(FileDriver)
    ensures t == DirTable ==> d == Some(DirDriver)
  {
    if t == NullTable then None
    else match Ops(t).write
      case NullOp => None
      case Call(drv) => Some(drv)
  }

  /** A descriptor that `open` bound to an entry of type 0, 1 or 2 closes
      with 0. */
  lemma OpenedCloses(fileType: int, previous: TableRef, fd: int)
    requires fileType in {0, 1, 2}
    ensures CloseVia(TableForType(fileType, previous), fd) == Ret(0)
  {
  }

  /** Snapshot `s` after pid `p` with PCB `pcb` is pushed on its current
      terminal: the pid claimed, the PCB stored, the terminal's top and
      count moved up, and the switch to `p` made. */
  ghost function PushOnto(s: Snapshot, p: nat, pcb: Pcb): Snapshot
    requires p < MAX_PID && p < |s.pidUsed| && p < |s.pcbs| && s.current < |s.terminals| && |s.pageDir| == Paging.ENTRIES
  {
    var t := s.terminals[s.current];
    s.(pidUsed := s.pidUsed[p := true], curPid := p, pcbs := s.pcbs[p := pcb],
       terminals := s.terminals[s.current := t.(pid := p, numberOfProcesses := t.numberOfProcesses + 1,
                                                currPcb := Some(p))],
       pageDir := Paging.Remap(s.pageDir, p), tssEsp0 := KernelStackTop(p))
  }

  /** What `execute(cmdline)` does to kernel state `s` (with process
      stacks `chains`), giving `s'` (and `chains'`): it fails, changing
      nothing, exactly when the command names no runnable image or every
      pid is in use; otherwise the lowest free pid is pushed on the current
      terminal with a fresh PCB whose parent is the terminal's previous
      top (none on an empty terminal), and the jump to the image's entry
      point follows. */
  ghost predicate ExecOutcome(fs: FileSystem.FsImage, s: Snapshot, chains: seq<seq<nat>>, s': Snapshot,
                              chains': seq<seq<nat>>, cmdline: seq<byte>, resume: Resume, r: ExecResult)
    requires fs.Valid()
    requires |s.pidUsed| == MAX_PID && |s.pcbs| == MAX_PID && |s.pageDir| == Paging.ENTRIES
    requires |s.terminals| == NUM_TERMINALS && s.current < NUM_TERMINALS && |chains| == NUM_TERMINALS
  {
    && (r.ExecFailed? <==> ImageInode(fs, cmdline).None? || forall j :: 0 <= j < MAX_PID ==> s.pidUsed[j])
    && (r.ExecFailed? ==> s' == s && chains' == chains)
    && (r.EnterUser? ==>
          var p := s'.curPid;
          var ino := ImageInode(fs, cmdline).value;
          var t := s.terminals[s.current];
          && 0 <= p < MAX_PID && !s.pidUsed[p] && (forall j :: 0 <= j < p ==> s.pidUsed[j])
          && r == EnterUser(EntryPoint(fs, ino), USER_ESP)
          && s' == PushOnto(s, p, NewPcb(p, if t.numberOfProcesses == 0 then NO_PARENT else t.pid, resume,
                                         EntryPoint(fs, ino), cmdline, s.current))
          && chains' == chains[s.current := chains[s.current] + [p]])
  }

  /** Snapshot `s` after `switch_terminal(n)` has moved the screen from
      its current terminal to terminal `n` (1-based) with the hardware
      cursor at `cursorPos`: the cursor saved in the old terminal's record,
      video memory saved to its shadow and loaded from the new one's, the
      global line index taken from the new terminal, the cursor moved to
      its saved place and, on a terminal with no process, the banner
      printed. */
  ghost function SwitchedFrom(s: Snapshot, n: int, cursorPos: nat): Snapshot
    requires |s.terminals| == NUM_TERMINALS && |s.shadows| == NUM_TERMINALS && s.current < NUM_TERMINALS
    requires 1 <= n <= NUM_TERMINALS
  {
    var c := s.current;
    var terms := s.terminals[c := s.terminals[c].(cursorX := cursorPos % NUM_COLS, cursorY := cursorPos / NUM_COLS)];
    var next := terms[n - 1];
    var swapped := SwapScreens(s.videoMem, s.shadows, c, n - 1);
    s.(terminals := terms, current := n - 1, commandIdx := next.commandIdx,
       videoMem := swapped.0, shadows := swapped.1,
       screen := s.screen + [MoveCursor(next.cursorX, next.cursorY)]
                 + (if next.numberOfProcesses == 0 then Puts(Banner(n)) else []))
  }

  /** What `switch_terminal(n)` does to the kernel state `s` (with process
      stacks `chains`), giving `s'` (and `chains'`), and the `execute` of
      the shell it starts on a terminal with no process. Switching to the
      current terminal does nothing. */
  ghost predicate SwitchOutcome(fs: FileSystem.FsImage, s: Snapshot, chains: seq<seq<nat>>, s': Snapshot,
                                chains': seq<seq<nat>>, n: int, cursorPos: nat, resume: Resume,
                                spawned: Option<ExecResult>)
    requires fs.Valid() && 1 <= n <= NUM_TERMINALS
    requires |s.pidUsed| == MAX_PID && |s.pcbs| == MAX_PID && |s.pageDir| == Paging.ENTRIES
    requires |s.terminals| == NUM_TERMINALS && |s.shadows| == NUM_TERMINALS && s.current < NUM_TERMINALS
    requires |chains| == NUM_TERMINALS
  {
    if n - 1 == s.current then
      spawned == None && s' == s && chains' == chains
    else if s.terminals[n - 1].numberOfProcesses > 0 then
      spawned == None && s' == SwitchedFrom(s, n, cursorPos) && chains' == chains
    else
      spawned.Some? && ExecOutcome(fs, SwitchedFrom(s, n, cursorPos), chains, s', chains', SHELL, resume, spawned.value)
  }

  /** Snapshot `s` after `special_status_key(sc)` for a key it handles:
      Backspace erases the last typed byte of the current terminal's line
      and echoes the erasure; any other such key updates the modifier
      flags. */
  ghost function SpecialKeyFrom(s: Snapshot, sc: int): Snapshot
    requires IsSpecial(sc) && s.current < |s.terminals|
    requires |s.terminals[s.current].command| == BUFFER_SIZE && s.terminals[s.current].commandIdx <= BUFFER_SIZE
  {
    if sc == BACKSPACE_KEY then
      var e := EraseLast(s.terminals[s.current]);
      s.(terminals := s.terminals[s.current := e.0], screen := s.screen + e.1)
    else s.(mods := SpecialStatus(s.mods, sc).value)
  }

  /** Snapshot `s` after `keyboard_handler` acted on a decoded key other
      than a terminal switch: Control+L clears the screen, a stored
      character goes into the current terminal's line and is echoed, and
      anything else changes nothing. */
  ghost function KeyFrom(s: Snapshot, a: KeyAction): Snapshot
    requires s.current < |s.terminals|
    requires |s.terminals[s.current].command| == BUFFER_SIZE
    requires a.Store? ==> s.terminals[s.current].commandIdx < BUFFER_SIZE
  {
    match a
    case Clear => s.(screen := s.screen + [ClearScreen])
    case Store(c) =>
      s.(terminals := s.terminals[s.current := Append(s.terminals[s.current], c)], screen := s.screen + [Put(c)])
    case _ => s
  }

  /** The acknowledgement `switch_terminal` sends itself: none when the
      terminal asked for is already current. */
  function SwitchEoi(same: bool, cfg: Pic.PicConfig): seq<Pic.PortWrite>
  {
    if same then [] else Pic.EoiWrites(cfg, KEYBOARD_IRQ)
  }

  /** The keyboard handler's own acknowledgement after a switch: none when
      a new shell was entered, since that never returns to the handler. */
  function HandlerEoi(spawned: Option<ExecResult>, cfg: Pic.PicConfig): seq<Pic.PortWrite>
  {
    if spawned.Some? && spawned.value.EnterUser? then [] else Pic.EoiWrites(cfg, KEYBOARD_IRQ)
  }

  /** `vidmap`'s pointer test as written: not NULL, and 128 MiB up to and
      including 132 MiB. */
  predicate VidmapArgOk(screenStart: int) {
    screenStart != 0 && Paging.VidmapPointerAsWritten(screenStart)
  }

  /** What a `vidmap` call comes to: refused with -1; the 136 MiB address
      stored through the pointer and 0 returned; or a page fault on that
      store, after which the exception handler spins and the call never
      returns. */
  datatype VidmapOutcome = VidmapRefused | VidmapStored(addr: int) | VidmapFaulted

  class KernelState {
    const fs: FileSystem.FsImage
    const pteFrame: int          // where the kernel's page table `pte` sits
    const userPteFrame: int      // where `user_pte` sits
    const pic: Pic.Controllers
    const clock: Rtc.Clock

    var pidUsed: seq<bool>                 // pid_array
    var curPid: int                        // cur_pid
    var pcbs: seq<Pcb>                     // the PCB at the bottom of each pid's 8 KiB block
    var terminals: seq<Terminal>           // terminal_array
    var current: nat                       // current_terminal
    var pageDir: seq<Paging.Pde>           // pde
    var pageTable: seq<Paging.Pte>         // pte
    var userPageTable: seq<Paging.Pte>     // user_pte
    var tssEsp0: int                       // tss.esp0
    var mods: Modifiers                    // the keyboard's flag globals
    var command: seq<byte>                 // terminal.c's `command`
    var commandIdx: int                    // terminal.c's `command_idx`
    var videoMem: seq<byte>                // the 4 KiB text screen at 0xB8000
    var shadows: seq<seq<byte>>            // the terminals' saved screens
    var screen: seq<ScreenOp>              // what has been printed, in order
    ghost var chains: seq<seq<nat>>        // each terminal's process stack

    ghost function State(): Snapshot
      reads this
    {
      Snapshot(pidUsed, curPid, pcbs, terminals, current, pageDir, pageTable, userPageTable, tssEsp0,
               mods, command, commandIdx, videoMem, shadows, screen)
    }

    /** Everything but the terminal records and the process table. */
    ghost predicate Sized()
      reads this
    {
      && fs.Valid() && pic.cfg.Valid() && pteFrame != userPteFrame
      && TablesSized() && PagingSized() && LineSized() && ScreenSized()
    }

    ghost predicate TablesSized()
      reads this`pidUsed, this`pcbs
    {
      |pidUsed| == MAX_PID && |pcbs| == MAX_PID
    }

    ghost predicate PagingSized()
      reads this`pageDir, this`pageTable, this`userPageTable
    {
      |pageDir| == Paging.ENTRIES && |pageTable| == Paging.ENTRIES && |userPageTable| == Paging.ENTRIES
    }

    ghost predicate LineSized()
      reads this`command, this`commandIdx
    {
      |command| == BUFFER_SIZE && 0 <= commandIdx <= BUFFER_SIZE
    }

    ghost predicate ScreenSized()
      reads this`videoMem, this`shadows, this`current
    {
      && |videoMem| == FOUR_KB && |shadows| == NUM_TERMINALS
      && (forall i :: 0 <= i < NUM_TERMINALS ==> |shadows[i]| == FOUR_KB)
      && current < NUM_TERMINALS
    }

    ghost predicate Valid()
      reads this
    {
      Sized() && TablesOk(pidUsed, pcbs, terminals, chains)
    }

    /** Boot: `paging_init`, `i8259_init`, `terminal_init` and
        `keyboard_init` on zeroed memory. */
    constructor (fs: FileSystem.FsImage, pteFrame: int, userPteFrame: int, cfg: Pic.PicConfig, registerA: bv8)
      requires fs.Valid() && cfg.Valid() && pteFrame != userPteFrame
      ensures Valid() && this.fs == fs && this.pteFrame == pteFrame && this.userPteFrame == userPteFrame
      ensures fresh(pic) && fresh(clock) && pic.cfg == cfg && clock.registerA == registerA
      ensures pageDir == Paging.BootDirectory(pteFrame) && pageTable == Paging.BootTable()
      ensures forall p :: 0 <= p < MAX_PID ==> !pidUsed[p]
      ensures terminals == BootTerminals() && current == 0 && chains == [[], [], []]
      ensures mods == NO_MODIFIERS
      ensures forall j: nat :: j <= cfg.maxIrq ==> (pic.Masked(j) <==> j != cfg.slaveIrqOnMaster && j != KEYBOARD_IRQ)
    {
      var pde := new Paging.Pde[Paging.ENTRIES](_ => Paging.Pde(false, false, false, false, 0));
      var pte := new Paging.Pte[Paging.ENTRIES](_ => Paging.Pte(false, false, false, false, false, 0));
      Paging.PagingInit(pde, pte, pteFrame);
      this.fs := fs;
      this.pteFrame := pteFrame;
      this.userPteFrame := userPteFrame;
      pic := new Pic.Controllers(cfg);
      clock := new Rtc.Clock(registerA);
      pidUsed := seq(MAX_PID, _ => false);
      curPid := 0;
      pcbs := seq(MAX_PID, _ => ZeroPcb());
      terminals := [];
      current := 0;
      pageDir := pde[..];
      pageTable := pte[..];
      userPageTable := seq(Paging.ENTRIES, _ => Paging.Pte(false, false, false, false, false, 0));
      tssEsp0 := 0;
      mods := NO_MODIFIERS;
      command := Zeros(BUFFER_SIZE);
      commandIdx := 0;
      videoMem := Zeros(FOUR_KB);
      shadows := seq(NUM_TERMINALS, _ => Zeros(FOUR_KB));
      screen := [];
      chains := [];
      new;
      pic.Init();
      TerminalInit();
      KeyboardInit();
    }

    /** `terminal_init`: three idle terminals with empty lines, terminal 0
        current and marked as processing. Only meaningful before any
        process exists. */
    method TerminalInit()
      requires Sized() && forall p :: 0 <= p < MAX_PID ==> !pidUsed[p] && pcbs[p].Shaped()
      modifies this
      ensures Valid() && chains == [[], [], []]
      ensures State() == old(State()).(terminals := BootTerminals(), current := 0)
    {
      var ts := InitTerminals();
      assert pidUsed == seq(MAX_PID, _ => false);
      assert TablesOk(pidUsed, pcbs, ts, [[], [], []]) by {
        BootTracked(ts, pcbs);
      }
      terminals, current, chains := ts, 0, [[], [], []];
    }

    /** `keyboard_init`: unmask the keyboard line, clear every modifier. */
    method KeyboardInit()
      requires Valid()
      modifies this, pic
      ensures Valid() && chains == old(chains)
      ensures State() == old(State()).(mods := NO_MODIFIERS)
      ensures forall j: nat :: j <= pic.cfg.maxIrq ==> pic.Masked(j) == (old(pic.Masked(j)) && j != KEYBOARD_IRQ)
    {
      pic.EnableIrq(KEYBOARD_IRQ);
      mods := NO_MODIFIERS;
    }

    /** The parent `execute` records for a new process: the current
        terminal's top, or no parent on an empty terminal. */
    function TopParent(): (q: u32)
      requires Valid()
      reads this
      ensures terminals[current].numberOfProcesses == 0 <==> q == NO_PARENT
    {
      var t := terminals[current];
      if t.numberOfProcesses == 0 then NO_PARENT else t.pid
    }

    /** The stacks after `p` is pushed on the current terminal's. */
    ghost function PushedChains(p: nat): seq<seq<nat>>
      requires Valid()
      reads this
    {
      chains[current := chains[current] + [p]]
    }

    /** `execute`: parse the command line, check the image, claim the
        lowest free pid, point the user window at its 4 MiB frame and push
        the new process on the current terminal, its parent the terminal's
        previous top. Every failure comes before the pid is claimed and
        leaves everything as it was. */
    method Execute(cmdline: seq<byte>, resume: Resume) returns (r: ExecResult)
      requires Valid() && NoNul(cmdline)
      modifies this
      ensures Valid()
      ensures ExecOutcome(fs, old(State()), old(chains), State(), chains, cmdline, resume, r)
    {
      var image, arg := LoadImage(fs, cmdline);
      if image.None? {
        return ExecFailed;
      }
      var p := FindFreePid(pidUsed);
      if p == -1 {
        return ExecFailed;
      }
      // the program image is copied to 0x08048000 here; user memory is not modelled
      var pcb := MakePcb(fs, image.value, p, TopParent(), resume, cmdline, arg, current);
      Spawn(p, pcb);
      return EnterUser(pcb.eipUser, USER_ESP);
    }

    /** The bookkeeping of a successful `execute` for the free pid `p`
        and its new PCB: claim the pid, remap the user window, store the
        PCB, point `tss.esp0` at its kernel stack and push it on the
        current terminal. */
    method Spawn(p: nat, pcb: Pcb)
      requires Valid() && p < MAX_PID && !pidUsed[p]
      requires pcb.pid == p && pcb.terminalNum == current && pcb.Shaped()
      requires pcb.parent == if terminals[current].numberOfProcesses == 0 then NO_PARENT else terminals[current].pid
      modifies this
      ensures Valid()
      ensures State() == PushOnto(old(State()), p, pcb) && chains == old(PushedChains(p))
    {
      var t := terminals[current];
      var top := t.(pid := p, numberOfProcesses := t.numberOfProcesses + 1, currPcb := Some(p));
      assert TablesOk(pidUsed[p := true], pcbs[p := pcb], terminals[current := top], chains[current := chains[current] + [p]]) by {
        PushKeepsTables(pidUsed, pcbs, terminals, chains, current, p, pcb);
      }
      StoreTables(pidUsed[p := true], pcbs[p := pcb], terminals[current := top], chains[current := chains[current] + [p]]);
      SwitchTo(p);
    }

    /** `halt` of the current terminal's top process. The root process
        jumps back into its own program and nothing changes; any other
        frees its pid and descriptors, hands the terminal, the user window
        and the kernel stack back to its parent, and returns from the
        parent's `execute`. */
    method Halt(status: byte) returns (r: HaltResult)
      requires Valid() && terminals[current].currPcb.Some?
      modifies this
      ensures Valid()
      ensures var p := old(terminals[current].pid);
        old(pcbs[p].parent) == NO_PARENT <==> old(terminals[current].numberOfProcesses) == 1
      ensures var pcb := old(pcbs[terminals[current].pid]);
        pcb.parent == NO_PARENT ==>
          r == ReenterUser(pcb.eipUser, pcb.espUser) && State() == old(State()) && chains == old(chains)
      ensures var c := old(current); var p := old(terminals[c].pid); var pcb := old(pcbs[p]); var q := pcb.parent;
        var t := old(terminals[c]);
        pcb.parent != NO_PARENT ==>
          && r == ResumeParent(pcb.ebpExecute, pcb.espExecute, status)
          && q < MAX_PID && q != p && old(pidUsed[q]) && old(pcbs[q].terminalNum) == c
          && State() == old(State()).(
               pidUsed := old(pidUsed)[p := false], curPid := q,
               pcbs := old(pcbs)[p := pcb.(fds := Released(pcb.fds))],
               terminals := old(terminals)[c := t.(pid := q, numberOfProcesses := t.numberOfProcesses - 1,
                                                   currPcb := Some(q))],
               pageDir := Paging.Remap(old(pageDir), q), tssEsp0 := KernelStackTop(q))
          && chains == old(chains)[c := old(chains[c])[..|old(chains[c])| - 1]]
    {
      var t := terminals[current];
      var p := t.currPcb.value;
      var pcb := pcbs[p];
      assert p < MAX_PID && t.pid == p && (pcb.parent == NO_PARENT <==> t.numberOfProcesses == 1) by {
        ParentIsLive(pidUsed, pcbs, terminals, chains, current);
      }
      if pcb.parent == NO_PARENT {
        return ReenterUser(pcb.eipUser, pcb.espUser);
      }
      var fds := ReleaseFileArray(pcb.fds);
      assert fds == Released(pcb.fds);
      ReturnToParent(fds);
      return ResumeParent(pcb.ebpExecute, pcb.espExecute, status);
    }

    /** The bookkeeping of `halt` for a process with a parent: release its
        descriptors and pid, move the terminal, the user window and
        `tss.esp0` back to the parent. */
    method ReturnToParent(fds: seq<FileDesc>)
      requires Valid() && terminals[current].currPcb.Some?
      requires pcbs[terminals[current].currPcb.value].parent != NO_PARENT
      requires fds == Released(pcbs[terminals[current].currPcb.value].fds)
      modifies this
      ensures Valid()
      ensures var c := old(current); var p := old(terminals[c].pid); var pcb := old(pcbs[p]); var q := pcb.parent;
        var t := old(terminals[c]);
        && q < MAX_PID && q != p && old(pidUsed[q]) && old(pcbs[q].terminalNum) == c
        && State() == old(State()).(
             pidUsed := old(pidUsed)[p := false], curPid := q,
             pcbs := old(pcbs)[p := pcb.(fds := Released(pcb.fds))],
             terminals := old(terminals)[c := t.(pid := q, numberOfProcesses := t.numberOfProcesses - 1,
                                                 currPcb := Some(q))],
             pageDir := Paging.Remap(old(pageDir), q), tssEsp0 := KernelStackTop(q))
        && chains == old(chains)[c := old(chains[c])[..|old(chains[c])| - 1]]
    {
      var t := terminals[current];
      var p := t.currPcb.value;
      var pcb := pcbs[p];
      var q := pcb.parent;
      ghost var stack := chains[current];
      var top := t.(pid := q, numberOfProcesses := t.numberOfProcesses - 1, currPcb := Some(q));
      assert q < MAX_PID && q != p && pidUsed[q] && pcbs[q].terminalNum == current && |stack| >= 2 && t.pid == p
          && TablesOk(pidUsed[p := false], pcbs[p := pcb.(fds := fds)], terminals[current := top],
                      chains[current := stack[..|stack| - 1]]) by {
        ParentIsLive(pidUsed, pcbs, terminals, chains, current);
        PopKeepsTables(pidUsed, pcbs, terminals, chains, current);
      }
      StoreTables(pidUsed[p := false], pcbs[p := pcb.(fds := fds)], terminals[current := top],
                  chains[current := stack[..|stack| - 1]]);
      SwitchTo(q);
    }

    /** Writes `pid_array`, the PCB table and the terminal records (and
        the stacks they describe) in one step. */
    method StoreTables(used: seq<bool>, pcbs': seq<Pcb>, terms: seq<Terminal>, ghost chains': seq<seq<nat>>)
      requires Sized() && |used| == MAX_PID && |pcbs'| == MAX_PID
      modifies this
      ensures Sized()
      ensures State() == old(State()).(pidUsed := used, pcbs := pcbs', terminals := terms) && chains == chains'
    {
      pidUsed, pcbs, terminals, chains := used, pcbs', terms, chains';
    }

    /** The switch `execute` and `halt` make to process `q`: `cur_pid`,
        the user window's 4 MiB frame and `tss.esp0`. */
    method SwitchTo(q: nat)
      requires Sized()
      modifies this
      ensures Sized()
      ensures State() == old(State()).(curPid := q, pageDir := Paging.Remap(old(pageDir), q), tssEsp0 := KernelStackTop(q))
      ensures chains == old(chains)
    {
      curPid, pageDir, tssEsp0 := q, Paging.Remap(pageDir, q), KernelStackTop(q);
    }

    // ---- descriptors of the calling process ----

    /** `get_pcb_ptr`: system calls act on the PCB of the current
        terminal's top pid, a pid in range. */
    function Caller(): (p: nat)
      requires Valid()
      reads this
      ensures p < MAX_PID && p == terminals[current].pid
    {
      terminals[current].pid
    }

    /** The caller's descriptor `fd`. */
    ghost function FdAt(fd: int): FileDesc
      requires Valid() && 0 <= fd < NUM_FILE_DES
      reads this
    {
      pcbs[Caller()].fds[fd]
    }

    /** Replaces the caller's descriptor `fd`. */
    method StoreFd(fd: nat, d: FileDesc)
      requires Valid() && fd < NUM_FILE_DES
      modifies this
      ensures Valid() && chains == old(chains)
      ensures State() == old(State()).(pcbs := UpdateFd(old(pcbs), old(Caller()), fd, d))
    {
      var p := Caller();
      assert TablesOk(pidUsed, UpdateFd(pcbs, p, fd, d), terminals, chains) by {
        FdsKeepTables(pidUsed, pcbs, terminals, chains, p, pcbs[p].fds[fd := d]);
      }
      pcbs := UpdateFd(pcbs, p, fd, d);
    }

    /** `open`: -1 for an empty name, a name with no directory entry, or
        when descriptors 2..7 are all in use; otherwise the lowest free
        one of them is bound to the entry's table and inode at position 0.
        A type other than 0, 1 or 2 keeps the slot's previous table. */
    method Open(fname: seq<byte>) returns (r: int)
      requires Valid() && NoNul(fname)
      modifies this
      ensures Valid() && chains == old(chains)
      ensures r == -1 <==>
        || |fname| == 0 || |fname| > FileSystem.MAX_FILE_NAME || FileSystem.Lookup(fs, fname).None?
        || forall j :: 2 <= j < NUM_FILE_DES ==> old(FdAt(j)).used
      ensures r == -1 ==> State() == old(State())
      ensures r != -1 ==>
        var e := FileSystem.EntryAt(fs, FileSystem.Lookup(fs, fname).value);
        && 2 <= r < NUM_FILE_DES && !old(FdAt(r)).used && (forall j :: 2 <= j < r ==> old(FdAt(j)).used)
        && State() == old(State()).(pcbs := UpdateFd(old(pcbs), old(Caller()), r,
                                      FileDesc(TableForType(e.fileType, old(FdAt(r)).table), e.inode, 0, true)))
    {
      if |fname| == 0 {
        return -1;
      }
      var found, dentry := FileSystem.ReadDentryByName(fs, fname, FileSystem.Dentry(Zeros(FileSystem.MAX_FILE_NAME), 0, 0));
      if found == -1 {
        return -1;
      }
      var fds := pcbs[Caller()].fds;
      var i := FindFreeFd(fds);
      if i == -1 {
        return -1;
      }
      assert !FdAt(i).used && forall j :: 2 <= j < i ==> FdAt(j).used;
      StoreFd(i, FileDesc(TableForType(dentry.fileType, fds[i].table), dentry.inode, 0, true));
      return i;
    }

    /** `close`: -1 for descriptors outside 2..7 (so stdin and stdout stay
        open) and for a free slot; otherwise the slot is freed and the
        table's close entry answers. */
    method Close(fd: i32) returns (r: SysResult)
      requires Valid()
      modifies this
      ensures Valid() && chains == old(chains)
      ensures fd < 2 || fd >= NUM_FILE_DES || !old(FdAt(fd)).used ==> r == Ret(-1) && State() == old(State())
      ensures 2 <= fd < NUM_FILE_DES && old(FdAt(fd)).used ==>
        && r == CloseVia(old(FdAt(fd)).table, fd)
        && State() == old(State()).(pcbs := UpdateFd(old(pcbs), old(Caller()), fd, old(FdAt(fd)).(used := false)))
    {
      if fd < 2 || fd > NUM_FILE_DES - 1 {
        return Ret(-1);
      }
      var d := pcbs[Caller()].fds[fd];
      if !d.used {
        return Ret(-1);
      }
      StoreFd(fd, d.(used := false));
      return CloseVia(d.table, fd);
    }

    /** The state after the caller's descriptor `fd` moves `step` places
        on. */
    ghost function Advanced(fd: nat, step: nat): Snapshot
      requires Valid() && fd < NUM_FILE_DES && FdAt(fd).position + step < 0x1_0000_0000
      reads this
    {
      var d := FdAt(fd);
      State().(pcbs := UpdateFd(pcbs, Caller(), fd, d.(position := d.position + step)))
    }

    /** The state after `terminal_read` delivered `n` bytes of the pending
        line: those bytes blanked in the global line, the global index taken
        from the terminal, and the terminal's Enter flag and index cleared
        when `n` is positive. */
    ghost function LineRead(n: nat): Snapshot
      requires Valid() && n <= BUFFER_SIZE
      reads this
    {
      State().(command := Blanked(PendingLine(), n), commandIdx := terminals[current].commandIdx,
               terminals := Consumed(n > 0))
    }

    /** `file_read` through the caller's descriptor `fd`: the count
        `read_data` returns, the file bytes at the descriptor's position in
        the buffer, and the position advanced by the count (kept on -1). */
    method ReadFile(fd: nat, buf: array<byte>, nbytes: nat) returns (r: int)
      requires Valid() && fd < NUM_FILE_DES && nbytes <= buf.Length && nbytes < 0x8000_0000
      modifies this, buf
      ensures Valid() && chains == old(chains)
      ensures var d := old(FdAt(fd));
        && r == FileSystem.ReadZeroed(fs, d.inode, d.position, nbytes).0
        && (r >= 0 ==> buf[r..] == old(buf[r..]))
        && (r <= 0 ==> State() == old(State()))
        && (r > 0 ==>
              && d.position + r <= fs.inodes[d.inode].length
              && FileSystem.AllBlocksOk(fs, d.inode, d.position, r)
              && buf[..r] == FileSystem.FileBytes(fs, d.inode, d.position, r)
              && State() == old(Advanced(fd, r)))
    {
      var d := pcbs[Caller()].fds[fd];
      var n, position := FileSystem.FileRead(fs, d.inode, d.position, buf, nbytes);
      if n <= 0 {
        return n;
      }
      StoreFd(fd, d.(position := position));
      return n;
    }

    /** `directory_read` through the caller's descriptor `fd`, with the
        copy bounded by `nbytes` (`FileSystem.DirectoryReadCorrected`):
        past entry 63 it returns 0 and changes nothing; otherwise the first
        `nbytes` bytes, at most 32, of the next entry's name go to the
        buffer, and the position moves on by one. */
    method ReadDirectory(fd: nat, buf: array<byte>, nbytes: int) returns (r: int)
      requires Valid() && fd < NUM_FILE_DES && 0 <= nbytes <= buf.Length
      modifies this, buf
      ensures Valid() && chains == old(chains)
      ensures var d := old(FdAt(fd));
        d.position > FileSystem.MAX_FILES ==> r == 0 && buf[..] == old(buf[..]) && State() == old(State())
      ensures var d := old(FdAt(fd));
        d.position <= FileSystem.MAX_FILES ==>
          var name := FileSystem.EntryAt(fs, d.position).name;
          var c := Min(nbytes, FileSystem.MAX_FILE_NAME);
          && r == Min(CStrLen(name), nbytes)
          && buf[..c] == StrNCpy(name, FileSystem.MAX_FILE_NAME)[..c]
          && buf[c..] == old(buf[c..])
          && State() == old(Advanced(fd, 1))
    {
      var d := pcbs[Caller()].fds[fd];
      var n, position := FileSystem.DirectoryReadCorrected(fs, d.position, buf, nbytes);
      if d.position > FileSystem.MAX_FILES {
        return n;
      }
      StoreFd(fd, d.(position := position));
      return n;
    }

    /** The line `terminal_read` reads from: the current terminal's first
        `command_idx` characters over the rest of the global line. */
    ghost function PendingLine(): (line: seq<byte>)
      requires Valid()
      reads this
      ensures |line| == BUFFER_SIZE
    {
      var t := terminals[current];
      t.command[..t.commandIdx] + command[t.commandIdx..]
    }

    /** The terminal records after a read: when something was delivered,
        the current terminal's Enter flag and index are cleared. */
    function Consumed(delivered: bool): (terms: seq<Terminal>)
      requires Valid()
      reads this
      ensures |terms| == NUM_TERMINALS && TablesOk(pidUsed, pcbs, terms, chains)
    {
      var t := terminals[current];
      TerminalKeepsTables(pidUsed, pcbs, terminals, chains, current, t.(enterFlag := false, commandIdx := 0));
      if delivered then terminals[current := t.(enterFlag := false, commandIdx := 0)] else terminals
    }

    /** `read`: the descriptor must be 0..7, not stdout, and open, the
        buffer present and the count not negative; then the read entry of
        the descriptor's table runs. Each driver's count and new state are
        stated here; the bytes each leaves in the buffer are stated by
        `ReadFile`, `ReadDirectory` and `TerminalRead`. */
    method Read(fd: i32, buf: array?<byte>, nbytes: i32) returns (r: SysResult)
      requires Valid()
      requires buf != null ==> nbytes <= buf.Length
      requires buf != null && ReadFdOk(fd) && ReadVia(FdAt(fd).table) == Some(TerminalDriver) ==>
        terminals[current].enterFlag
      modifies this, buf
      ensures Valid() && chains == old(chains)
      ensures !ReadFdOk(fd) || buf == null || nbytes < 0 || !old(FdAt(fd)).used ==>
        r == Ret(-1) && State() == old(State())
      ensures ReadFdOk(fd) && buf != null && nbytes >= 0 && old(FdAt(fd)).used ==>
        var d := old(FdAt(fd));
        match ReadVia(d.table)
        case None => r == NullCall && State() == old(State())
        case Some(RtcDriver) => r == Ret(0) && State() == old(State())
        case Some(FileDriver) =>
          var n := FileSystem.ReadZeroed(fs, d.inode, d.position, nbytes).0;
          && r == Ret(n)
          && (n <= 0 ==> State() == old(State()))
          && (n > 0 ==> State() == old(Advanced(fd, n)))
        case Some(DirDriver) =>
          if d.position > FileSystem.MAX_FILES then r == Ret(0) && State() == old(State())
          else
            && r == Ret(Min(CStrLen(FileSystem.EntryAt(fs, d.position).name), nbytes as int))
            && State() == old(Advanced(fd, 1))
        case Some(TerminalDriver) =>
          var n := ReadCount(old(PendingLine()), nbytes);
          r == Ret(n) && State() == old(LineRead(n))
    {
      if fd < 0 || fd > 7 || buf == null || nbytes < 0 {
        return Ret(-1);
      }
      if fd == 1 {
        return Ret(-1);
      }
      var d := pcbs[Caller()].fds[fd];
      if !d.used {
        return Ret(-1);
      }
      match ReadVia(d.table)
      case None =>
        return NullCall;
      case Some(drv) =>
        match drv
        case RtcDriver =>
          return Ret(Rtc.Read());
        case FileDriver =>
          var n := ReadFile(fd, buf, nbytes);
          return Ret(n);
        case DirDriver =>
          var n := ReadDirectory(fd, buf, nbytes as int);
          return Ret(n);
        case TerminalDriver =>
          var n := TerminalRead(buf, nbytes);
          return Ret(n);
    }

    /** `write`, with the descriptor bound corrected to 1..7 (see
        `Process.WriteFdOkAsWritten`): the buffer present, the count not
        negative and the descriptor open; then the write entry of the
        descriptor's table runs. The clock's rate changes only through the
        RTC driver, the screen only through the terminal driver. */
    method Write(fd: i32, buf: array?<byte>, nbytes: i32) returns (r: SysResult)
      requires Valid()
      requires buf != null ==> nbytes <= buf.Length
      requires buf != null && WriteFdOk(fd) && WriteVia(FdAt(fd).table) == Some(RtcDriver) ==> buf.Length >= 4
      modifies this, clock
      ensures Valid() && chains == old(chains)
      ensures !WriteFdOk(fd) || buf == null || nbytes < 0 || !old(FdAt(fd)).used ==>
        r == Ret(-1) && State() == old(State()) && clock.registerA == old(clock.registerA)
      ensures WriteFdOk(fd) && buf != null && nbytes >= 0 && old(FdAt(fd)).used ==>
        match WriteVia(old(FdAt(fd)).table)
        case None => r == NullCall && State() == old(State()) && clock.registerA == old(clock.registerA)
        case Some(RtcDriver) =>
          var freq := Int32Of(buf[..4]);
          && State() == old(State())
          && (Rtc.Supported(freq) ==> r == Ret(0) && clock.registerA == Rtc.MergeRegisterA(old(clock.registerA), Rtc.RateFor(freq).value))
          && (!Rtc.Supported(freq) ==> r == Ret(-1) && clock.registerA == old(clock.registerA))
        case Some(FileDriver) => r == Ret(-1) && State() == old(State()) && clock.registerA == old(clock.registerA)
        case Some(DirDriver) => r == Ret(-1) && State() == old(State()) && clock.registerA == old(clock.registerA)
        case Some(TerminalDriver) =>
          && r == Ret(nbytes as int) && clock.registerA == old(clock.registerA)
          && State() == old(State()).(screen := old(screen) + Puts(Visible(buf[..nbytes])))
    {
      if fd < 0 || fd > NUM_FILE_DES - 1 || buf == null || nbytes < 0 {
        return Ret(-1);
      }
      if fd == 0 {
        return Ret(-1);
      }
      var d := pcbs[Caller()].fds[fd];
      if !d.used {
        return Ret(-1);
      }
      match WriteVia(d.table)
      case None =>
        return NullCall;
      case Some(drv) =>
        match drv
        case RtcDriver =>
          var n := clock.Write(Some(Int32Of(buf[..4])));
          return Ret(n);
        case FileDriver =>
          return Ret(FileSystem.FileWrite(fd, nbytes));
        case DirDriver =>
          return Ret(FileSystem.DirectoryWrite(fd, nbytes));
        case TerminalDriver =>
          var n := TerminalWrite(buf, nbytes);
          return Ret(n);
    }

    /** `terminal_read` once Enter has been pressed: the terminal's typed
        bytes are copied into the global line, the line is drained into the
        buffer up to the first newline (or `nbytes`, or 128 bytes, with a
        newline forced in the last place), and the drained bytes are blanked.
        A read that delivered something clears the terminal's Enter flag
        and line index. */
    method TerminalRead(buf: array?<byte>, nbytes: i32) returns (r: int)
      requires Valid()
      requires buf != null ==> terminals[current].enterFlag && Min(nbytes, BUFFER_SIZE) <= buf.Length
      modifies this, buf
      ensures Valid() && chains == old(chains)
      ensures buf == null ==> r == -1 && State() == old(State())
      ensures buf != null ==>
        var line := old(PendingLine());
        && r == ReadCount(line, nbytes)
        && buf[..r] == Delivered(line, nbytes) && buf[r..] == old(buf[r..])
        && State() == old(LineRead(r))
    {
      if buf == null {
        return -1;
      }
      var t := terminals[current];
      var line := LoadLine(command, t.command, t.commandIdx);
      var n, rest := DrainLine(line, buf, nbytes);
      EndRead(rest, n > 0);
      return n;
    }

    /** The state `terminal_read` leaves: the blanked global line, the
        global index taken from the terminal, and, when something was
        delivered, the terminal's Enter flag and index cleared. */
    method EndRead(rest: seq<byte>, delivered: bool)
      requires Valid() && |rest| == BUFFER_SIZE
      modifies this
      ensures Valid() && chains == old(chains)
      ensures State() == old(State()).(command := rest, commandIdx := old(terminals[current].commandIdx),
                                        terminals := old(Consumed(delivered)))
    {
      StoreLine(rest, terminals[current].commandIdx, Consumed(delivered));
    }

    /** Writes the global line buffer, its index and the terminal records
        in one step. */
    method StoreLine(line: seq<byte>, idx: int, terms: seq<Terminal>)
      requires Sized() && |line| == BUFFER_SIZE && 0 <= idx <= BUFFER_SIZE
      modifies this
      ensures Sized() && chains == old(chains)
      ensures State() == old(State()).(command := line, commandIdx := idx, terminals := terms)
    {
      command, commandIdx, terminals := line, idx, terms;
    }

    /** `terminal_write`: -1 for a NULL buffer or a negative count;
        otherwise every non-NUL byte of the first `nbytes` is printed, in
        order, and the count is returned. */
    method TerminalWrite(buf: array?<byte>, nbytes: i32) returns (r: int)
      requires Valid() && (buf != null ==> nbytes <= buf.Length)
      modifies this
      ensures Valid() && chains == old(chains)
      ensures buf == null || nbytes < 0 ==> r == -1 && State() == old(State())
      ensures buf != null && nbytes >= 0 ==>
        r == nbytes && State() == old(State()).(screen := old(screen) + Puts(Visible(buf[..nbytes])))
    {
      if buf == null || nbytes < 0 {
        return -1;
      }
      var ops := Echo(buf, nbytes);
      screen := screen + ops;
      return nbytes;
    }

    // ---- argument, video mapping, terminal switch and keyboard ----

    /** `getargs` with the fit test the source describes (see
        `Process.GetargsAsWritten`): -1 when the caller has no argument or
        the argument with its NUL does not fit in `nbytes`; otherwise the
        argument is copied, NUL-padded to `nbytes`, and 0 is returned. */
    method Getargs(buf: array<byte>, nbytes: i32) returns (r: int)
      requires Valid() && nbytes <= buf.Length
      modifies buf
      ensures (r, buf[..]) == Process.Getargs(pcbs[Caller()].commandArg, nbytes, old(buf[..]))
    {
      var arg := pcbs[Caller()].commandArg;
      if arg[0] == NUL {
        return -1;
      }
      var n := CStrLen(arg);
      if n >= nbytes as int {
        return -1;
      }
      forall i | 0 <= i < nbytes as int {
        buf[i] := if i < n then arg[i] else NUL;
      }
      assert buf[..] == StrNCpy(arg, nbytes as int) + old(buf[..])[nbytes..];
      return 0;
    }

    /** `vidmap`: -1 for a NULL pointer or one outside 128 MiB..132 MiB
        (inclusive, as written); otherwise directory entry 34 is pointed
        at `user_pte`, whose entry 0 maps video memory for user code, and
        the address 136 MiB is stored through `screen_start`. That store
        faults when the word does not fit in the user window
        (`Paging.VidmapStoreFaults`), and lands otherwise
        (`Paging.VidmapStoreLands`). */
    method Vidmap(screenStart: int) returns (r: VidmapOutcome)
      requires Valid()
      modifies this
      ensures Valid() && chains == old(chains)
      ensures !VidmapArgOk(screenStart) ==> r == VidmapRefused && State() == old(State())
      ensures VidmapArgOk(screenStart) ==>
        var m := Paging.Vidmap(old(pageDir), old(userPageTable), userPteFrame);
        State() == old(State()).(pageDir := m.0, userPageTable := m.1)
        && r == (if Paging.VidmapPointerFits(screenStart) then VidmapStored(Paging.VIDMAP_ADDR) else VidmapFaulted)
    {
      if screenStart == 0 {
        return VidmapRefused;
      }
      if screenStart < Paging.USER_WINDOW || Paging.USER_WINDOW + Paging.PAGE_4M < screenStart {
        return VidmapRefused;
      }
      var m := Paging.Vidmap(pageDir, userPageTable, userPteFrame);
      pageDir, userPageTable := m.0, m.1;
      if !Paging.VidmapPointerFits(screenStart) {
        return VidmapFaulted;
      }
      return VidmapStored(Paging.VIDMAP_ADDR);
    }

    /** `update_video_memory_paging`: the kernel's video page is pointed at
        the shadow page of terminal `t` (see `Paging.RedirectedVideo`). */
    method UpdateVideoMemoryPaging(t: nat)
      requires Valid() && t < NUM_TERMINALS
      modifies this
      ensures Valid() && chains == old(chains)
      ensures State() == old(State()).(pageTable := Paging.RedirectVideo(old(pageTable), old(terminals[t].terminalNum)))
    {
      pageTable := Paging.RedirectVideo(pageTable, terminals[t].terminalNum);
    }

    /** `switch_terminal(n)`: unless `n` is already current, acknowledge
        the keyboard interrupt, move the screen to terminal `n`, and start
        a shell there when it has no process. */
    method SwitchTerminal(n: int, cursorPos: nat, resume: Resume) returns (spawned: Option<ExecResult>)
      requires Valid() && 1 <= n <= NUM_TERMINALS
      modifies this, pic
      ensures Valid() && SwitchOutcome(fs, old(State()), old(chains), State(), chains, n, cursorPos, resume, spawned)
      ensures pic.masterMask == old(pic.masterMask) && pic.slaveMask == old(pic.slaveMask)
      ensures pic.ports == old(pic.ports) + SwitchEoi(n - 1 == old(current), pic.cfg)
    {
      if n - 1 == terminals[current].terminalNum {
        return None;
      }
      spawned := SwitchAway(n, cursorPos, resume);
    }

    /** `switch_terminal(n)` once `n` is known not to be current. */
    method SwitchAway(n: int, cursorPos: nat, resume: Resume) returns (spawned: Option<ExecResult>)
      requires Valid() && 1 <= n <= NUM_TERMINALS && n - 1 != current
      modifies this, pic
      ensures Valid()
      ensures old(terminals[n - 1].numberOfProcesses) > 0 ==>
        spawned == None && State() == SwitchedFrom(old(State()), n, cursorPos) && chains == old(chains)
      ensures old(terminals[n - 1].numberOfProcesses) == 0 ==>
        spawned.Some? && ExecOutcome(fs, SwitchedFrom(old(State()), n, cursorPos), old(chains), State(), chains, SHELL, resume, spawned.value)
      ensures pic.masterMask == old(pic.masterMask) && pic.slaveMask == old(pic.slaveMask)
      ensures pic.ports == old(pic.ports) + Pic.EoiWrites(pic.cfg, KEYBOARD_IRQ)
    {
      SwitchScreen(n, cursorPos);
      if terminals[current].numberOfProcesses != 0 {
        return None;
      }
      var r := Execute(SHELL, resume);
      return Some(r);
    }

    /** The part of `switch_terminal` before the shell is started: the
        interrupt acknowledged and the screen moved to terminal `n`. */
    method SwitchScreen(n: int, cursorPos: nat)
      requires Valid() && 1 <= n <= NUM_TERMINALS
      modifies this, pic
      ensures Valid() && chains == old(chains)
      ensures State() == SwitchedFrom(old(State()), n, cursorPos)
      ensures current == n - 1 && terminals[current].numberOfProcesses == old(terminals[n - 1].numberOfProcesses)
      ensures pic.masterMask == old(pic.masterMask) && pic.slaveMask == old(pic.slaveMask)
      ensures pic.ports == old(pic.ports) + Pic.EoiWrites(pic.cfg, KEYBOARD_IRQ)
    {
      pic.SendEoi(KEYBOARD_IRQ);
      SaveAndRestore(n, cursorPos);
    }

    /** The screen part of `switch_terminal`, in one step. */
    method SaveAndRestore(n: int, cursorPos: nat)
      requires Valid() && 1 <= n <= NUM_TERMINALS
      modifies this
      ensures Valid() && chains == old(chains)
      ensures State() == SwitchedFrom(old(State()), n, cursorPos)
    {
      var c := current;
      var t := terminals[c].(cursorX := cursorPos % NUM_COLS, cursorY := cursorPos / NUM_COLS);
      EditLine(t, []);
      var next := terminals[n - 1];
      var swapped := SwapScreens(videoMem, shadows, c, n - 1);
      var banner := if next.numberOfProcesses == 0 then Puts(Banner(n)) else [];
      ShowTerminal(n - 1, next.commandIdx, swapped.0, swapped.1, [MoveCursor(next.cursorX, next.cursorY)] + banner);
    }

    /** Makes terminal `k` current: its line index, the screen contents and
        the saved screens, and what is printed, in one step. */
    method ShowTerminal(k: nat, idx: int, video: seq<byte>, shadows': seq<seq<byte>>, ops: seq<ScreenOp>)
      requires Sized() && k < NUM_TERMINALS && 0 <= idx <= BUFFER_SIZE
      requires |video| == FOUR_KB && |shadows'| == NUM_TERMINALS
      requires forall i :: 0 <= i < NUM_TERMINALS ==> |shadows'[i]| == FOUR_KB
      modifies this
      ensures Sized() && chains == old(chains)
      ensures State() == old(State()).(current := k, commandIdx := idx, videoMem := video, shadows := shadows',
                                        screen := old(screen) + ops)
    {
      current, commandIdx, videoMem, shadows, screen := k, idx, video, shadows', screen + ops;
    }

    /** Replaces the current terminal's record (its line, index and Enter
        flag) and prints `ops`, in one step. */
    method EditLine(term: Terminal, ops: seq<ScreenOp>)
      requires Valid() && TerminalOk(term, current)
      requires term.pid == terminals[current].pid && term.numberOfProcesses == terminals[current].numberOfProcesses
      requires term.currPcb == terminals[current].currPcb
      modifies this
      ensures Valid() && chains == old(chains)
      ensures State() == old(State()).(terminals := old(terminals)[old(current) := term], screen := old(screen) + ops)
    {
      assert TablesOk(pidUsed, pcbs, terminals[current := term], chains) by {
        TerminalKeepsTables(pidUsed, pcbs, terminals, chains, current, term);
      }
      terminals, screen := terminals[current := term], screen + ops;
    }

    /** `keyboard_handler` for scancode `sc`, the hardware cursor at
        `cursorPos`. A key `special_status_key` handles updates the
        modifier flags (Backspace erases the last typed byte); otherwise
        Alt+F1..F3 switches terminals, Control+L clears the screen, and a
        printable key is stored in the current terminal's line and echoed.
        The interrupt is acknowledged at the end, and once more inside a
        switch, except when the switch entered a new shell, which does not
        come back here. */
    method KeyboardHandler(sc: byte, cursorPos: nat, resume: Resume) returns (spawned: Option<ExecResult>)
      requires Valid()
      modifies this, pic
      ensures Valid()
      ensures pic.masterMask == old(pic.masterMask) && pic.slaveMask == old(pic.slaveMask)
      ensures IsSpecial(sc) ==>
        && spawned == None && chains == old(chains)
        && State() == SpecialKeyFrom(old(State()), sc)
        && pic.ports == old(pic.ports) + Pic.EoiWrites(pic.cfg, KEYBOARD_IRQ)
      ensures !IsSpecial(sc) ==>
        var a := Decode(old(mods), old(terminals[current].commandIdx), sc);
        && (!a.SwitchTo? ==>
              && spawned == None && chains == old(chains)
              && State() == KeyFrom(old(State()), a)
              && pic.ports == old(pic.ports) + Pic.EoiWrites(pic.cfg, KEYBOARD_IRQ))
        && (a.SwitchTo? ==>
              && SwitchOutcome(fs, old(State()), old(chains), State(), chains, a.num, cursorPos, resume, spawned)
              && pic.ports == old(pic.ports) + SwitchEoi(a.num - 1 == old(current), pic.cfg) + HandlerEoi(spawned, pic.cfg))
    {
      if IsSpecial(sc) {
        SpecialKey(sc);
        return None;
      }
      var a := Decode(mods, terminals[current].commandIdx, sc);
      if a.SwitchTo? {
        spawned := SwitchKey(a.num, cursorPos, resume);
        return;
      }
      OrdinaryKey(a);
      return None;
    }

    /** A key `special_status_key` handles, then the acknowledgement. */
    method SpecialKey(sc: byte)
      requires Valid() && IsSpecial(sc)
      modifies this, pic
      ensures Valid() && chains == old(chains)
      ensures State() == SpecialKeyFrom(old(State()), sc)
      ensures pic.masterMask == old(pic.masterMask) && pic.slaveMask == old(pic.slaveMask)
      ensures pic.ports == old(pic.ports) + Pic.EoiWrites(pic.cfg, KEYBOARD_IRQ)
    {
      if sc == BACKSPACE_KEY {
        var e := EraseLast(terminals[current]);
        EditLine(e.0, e.1);
      } else {
        mods := SpecialStatus(mods, sc).value;
      }
      pic.SendEoi(KEYBOARD_IRQ);
    }

    /** Alt+F1..F3: `switch_terminal(n)`, then the handler's own
        acknowledgement unless a new shell was entered. */
    method SwitchKey(n: int, cursorPos: nat, resume: Resume) returns (spawned: Option<ExecResult>)
      requires Valid() && 1 <= n <= NUM_TERMINALS
      modifies this, pic
      ensures Valid() && SwitchOutcome(fs, old(State()), old(chains), State(), chains, n, cursorPos, resume, spawned)
      ensures pic.masterMask == old(pic.masterMask) && pic.slaveMask == old(pic.slaveMask)
      ensures pic.ports == old(pic.ports) + SwitchEoi(n - 1 == old(current), pic.cfg) + HandlerEoi(spawned, pic.cfg)
    {
      spawned := SwitchTerminal(n, cursorPos, resume);
      if !(spawned.Some? && spawned.value.EnterUser?) {
        pic.SendEoi(KEYBOARD_IRQ);
      }
    }

    /** Control+L, a character to store, or a key that does nothing, then
        the acknowledgement. */
    method OrdinaryKey(a: KeyAction)
      requires Valid() && !a.SwitchTo? && (a.Store? ==> terminals[current].commandIdx < BUFFER_SIZE)
      modifies this, pic
      ensures Valid() && chains == old(chains)
      ensures State() == KeyFrom(old(State()), a)
      ensures pic.masterMask == old(pic.masterMask) && pic.slaveMask == old(pic.slaveMask)
      ensures pic.ports == old(pic.ports) + Pic.EoiWrites(pic.cfg, KEYBOARD_IRQ)
    {
      match a {
        case Clear =>
          screen := screen + [ClearScreen];
        case Store(c) =>
          EditLine(Append(terminals[current], c), [Put(c)]);
        case Ignore =>
      }
      pic.SendEoi(KEYBOARD_IRQ);
    }
  }
}
