/** The per-process values of the system-call layer: file descriptors and
    their operation tables, the process control block, where PCBs and
    kernel stacks sit in memory, and the pure parts of `execute`
    (command-line parsing) and `getargs`. */
module Process {
  import opened Util

  const NUM_FILE_DES := 8
  const MAX_PID := 8
  const TOKEN_SIZE := 32             // the zeroed `cmd`/`arg` buffers and `command_arg`
  const ADDRESS_8MB := 0x80_0000
  const KERNEL_STACK_SIZE := 0x2000  // one 8 KiB block per pid below 8 MiB
  const USER_WINDOW := 0x800_0000
  const USER_ESP := USER_WINDOW + 0x40_0000 - 4
  const ELF_START := 24              // offset of the entry point in the image
  const ELF_MAGIC: seq<byte> := [0x7F, 0x45, 0x4C, 0x46]
  /** `pid_parent = -1` stored in a `uint32_t`: the mark of a terminal's
      first process. */
  const NO_PARENT: u32 := 0xFFFF_FFFF

  // ---- operation tables ----

  /** Which table a descriptor's `fileop_ptr` points at (`NullTable` for
      NULL). */
  datatype TableRef = NullTable | RtcTable | DirTable | FileTable | StdinTable | StdoutTable

  /** The driver an entry of a table calls. */
  datatype Driver = RtcDriver | FileDriver | DirDriver | TerminalDriver
  datatype Op = NullOp | Call(driver: Driver)
  datatype OpTable = OpTable(read: Op, write: Op, open: Op, close: Op)

  /** The tables as `init_*_fileop` fill them: every slot of the device,
      file and directory tables calls its own driver; the terminal tables
      call the terminal driver, except that stdout has no read and stdin
      no write. */
  function Ops(t: TableRef): (o: OpTable)
    requires t != NullTable
    ensures o.read == NullOp <==> t == StdoutTable
    ensures o.write == NullOp <==> t == StdinTable
    ensures o.open != NullOp && o.close != NullOp
    ensures t == RtcTable ==> o == OpTable(Call(RtcDriver), Call(RtcDriver), Call(RtcDriver), Call(RtcDriver))
    ensures t == FileTable ==> o == OpTable(Call(FileDriver), Call(FileDriver), Call(FileDriver), Call(FileDriver))
    ensures t == DirTable ==> o == OpTable(Call(DirDriver), Call(DirDriver), Call(DirDriver), Call(DirDriver))
    ensures t in {StdinTable, StdoutTable} ==>
      o.open == Call(TerminalDriver) && o.close == Call(TerminalDriver)
      && (o.read == NullOp || o.read == Call(TerminalDriver)) && (o.write == NullOp || o.write == Call(TerminalDriver))
  {
    match t
    case RtcTable => OpTable(Call(RtcDriver), Call(RtcDriver), Call(RtcDriver), Call(RtcDriver))
    case FileTable => OpTable(Call(FileDriver), Call(FileDriver), Call(FileDriver), Call(FileDriver))
    case DirTable => OpTable(Call(DirDriver), Call(DirDriver), Call(DirDriver), Call(DirDriver))
    case StdoutTable => OpTable(NullOp, Call(TerminalDriver), Call(TerminalDriver), Call(TerminalDriver))
    case StdinTable => OpTable(Call(TerminalDriver), NullOp, Call(TerminalDriver), Call(TerminalDriver))
  }

  /** The table `open` installs for a directory-entry type; another type
      leaves the slot's old pointer in place. */
  function TableForType(fileType: int, previous: TableRef): (t: TableRef)
    ensures fileType == 0 ==> t == RtcTable
    ensures fileType == 1 ==> t == DirTable
    ensures fileType == 2 ==> t == FileTable
    ensures fileType !in {0, 1, 2} ==> t == previous
  {
    if fileType == 0 then RtcTable
    else if fileType == 1 then DirTable
    else if fileType == 2 then FileTable
    else previous
  }

  // ---- descriptors and control blocks ----

  datatype FileDesc = FileDesc(table: TableRef, inode: u32, position: u32, used: bool)

  /** A process control block. `espExecute`/`ebpExecute` are the kernel
      stack of the `execute` call that started the process, where `halt`
      resumes the parent. */
  datatype Pcb = Pcb(
    pid: u32, parent: u32, espExecute: u32, ebpExecute: u32, esp0: u32,
    eipUser: u32, espUser: u32, commandArg: seq<byte>, fds: seq<FileDesc>, terminalNum: u32)
  {
    predicate Shaped() {
      |commandArg| == TOKEN_SIZE && |fds| == NUM_FILE_DES
    }
  }

  /** PCB memory that holds zeros. */
  function ZeroPcb(): (p: Pcb)
    ensures p.Shaped()
  {
    Pcb(0, 0, 0, 0, 0, 0, 0, Zeros(TOKEN_SIZE), seq(NUM_FILE_DES, _ => FileDesc(NullTable, 0, 0, false)), 0)
  }

  /** The descriptor array a new process starts with: stdin and stdout open
      on the terminal, the other six free with no table. */
  function InitialFd(i: int): (d: FileDesc)
    ensures d.inode == 0 && d.position == 0
    ensures d.used <==> i == 0 || i == 1
    ensures i == 0 ==> d.table == StdinTable
    ensures i == 1 ==> d.table == StdoutTable
    ensures i != 0 && i != 1 ==> d.table == NullTable
  {
    if i == 0 then FileDesc(StdinTable, 0, 0, true)
    else if i == 1 then FileDesc(StdoutTable, 0, 0, true)
    else FileDesc(NullTable, 0, 0, false)
  }

  // ---- memory layout ----

  /** `get_pcb(pid)`: the PCB sits at the bottom of the pid's 8 KiB block
      below 8 MiB. */
  function PcbAddress(pid: int): (a: int)
    requires 0 <= pid < MAX_PID
    ensures ADDRESS_8MB - MAX_PID * KERNEL_STACK_SIZE <= a <= ADDRESS_8MB - KERNEL_STACK_SIZE
    ensures a % KERNEL_STACK_SIZE == 0
  {
    ADDRESS_8MB - KERNEL_STACK_SIZE * (pid + 1)
  }

  /** The `tss.esp0` that `execute` and `halt` install for `pid`: the top
      word of the same 8 KiB block. */
  function KernelStackTop(pid: int): int {
    ADDRESS_8MB - KERNEL_STACK_SIZE * pid - 4
  }

  /** Each pid's kernel stack top lies in its own PCB block, and the blocks
      of distinct pids are disjoint and lie inside the kernel's 4 MiB page. */
  lemma {:induction false} PcbBlocksDisjoint(p: int, q: int)
    requires 0 <= p < MAX_PID && 0 <= q < MAX_PID
    ensures PcbAddress(p) < KernelStackTop(p) < PcbAddress(p) + KERNEL_STACK_SIZE
    ensures 0x40_0000 <= PcbAddress(p) && PcbAddress(p) + KERNEL_STACK_SIZE <= ADDRESS_8MB
    ensures p != q ==>
      PcbAddress(p) + KERNEL_STACK_SIZE <= PcbAddress(q) || PcbAddress(q) + KERNEL_STACK_SIZE <= PcbAddress(p)
  {
    assert PcbAddress(p) == ADDRESS_8MB - KERNEL_STACK_SIZE * p - KERNEL_STACK_SIZE;
    assert PcbAddress(q) == ADDRESS_8MB - KERNEL_STACK_SIZE * q - KERNEL_STACK_SIZE;
    if p < q {
      assert KERNEL_STACK_SIZE * p + KERNEL_STACK_SIZE <= KERNEL_STACK_SIZE * q;
    } else if q < p {
      assert KERNEL_STACK_SIZE * q + KERNEL_STACK_SIZE <= KERNEL_STACK_SIZE * p;
    }
  }

  // ---- command-line parsing (execute) ----

  /** The first index at or after `i` that is not a space. */
  function SkipSpaces(s: seq<byte>, i: nat): (j: nat)
    requires i <= |s|
    ensures i <= j <= |s|
    ensures forall k :: i <= k < j ==> s[k] == SPACE
    ensures j < |s| ==> s[j] != SPACE
    decreases |s| - i
  {
    if i < |s| && s[i] == SPACE then SkipSpaces(s, i + 1) else i
  }

  /** The first index at or after `i` that is a space. */
  function TokenEnd(s: seq<byte>, i: nat): (j: nat)
    requires i <= |s|
    ensures i <= j <= |s|
    ensures forall k :: i <= k < j ==> s[k] != SPACE
    ensures j < |s| ==> s[j] == SPACE
    decreases |s| - i
  {
    if i < |s| && s[i] != SPACE then TokenEnd(s, i + 1) else i
  }

  predicate NoSpace(s: seq<byte>) {
    forall k :: 0 <= k < |s| ==> s[k] != SPACE
  }

  /** The program name: the first run of non-spaces after leading spaces. */
  function Name(s: seq<byte>): (n: seq<byte>)
    ensures NoSpace(n)
    ensures NoNul(s) ==> NoNul(n)
    ensures |n| <= |s|
  {
    var a := SkipSpaces(s, 0);
    s[a..TokenEnd(s, a)]
  }

  /** Where the name ends. */
  function NameEnd(s: seq<byte>): (j: nat)
    ensures j <= |s|
  {
    TokenEnd(s, SkipSpaces(s, 0))
  }

  /** The argument: the next run of non-spaces; the rest of the line is
      ignored. */
  function Arg(s: seq<byte>): (a: seq<byte>)
    ensures NoSpace(a)
    ensures NoNul(s) ==> NoNul(a)
  {
    var c := SkipSpaces(s, NameEnd(s));
    s[c..TokenEnd(s, c)]
  }

  /** One of `execute`'s token-copy loops, from `start` up to the next
      space, into a zeroed 32-byte buffer; stores that would leave no room
      for the terminating NUL are refused and reported through `fits`. */
  method CopyToken(command: seq<byte>, start: nat) returns (fits: bool, buf: seq<byte>, end: nat)
    requires start <= |command|
    ensures end == TokenEnd(command, start)
    ensures fits <==> end - start < TOKEN_SIZE
    ensures fits ==> buf == Pad(command[start..end], TOKEN_SIZE)
  {
    var b := new byte[TOKEN_SIZE](_ => NUL);
    fits := true;
    var i := start;
    while i < |command| && command[i] != SPACE
      invariant start <= i <= |command|
      invariant TokenEnd(command, i) == TokenEnd(command, start)
      invariant fits <==> i - start < TOKEN_SIZE
      invariant forall j :: 0 <= j < TOKEN_SIZE ==> b[j] == (if j < i - start && j < TOKEN_SIZE - 1 then command[start + j] else NUL)
    {
      if i - start < TOKEN_SIZE - 1 {
        b[i - start] := command[i];
      } else {
        fits := false;
      }
      i := i + 1;
    }
    end := i;
    if fits {
      assert forall j :: 0 <= j < TOKEN_SIZE ==> b[..][j] == Pad(command[start..end], TOKEN_SIZE)[j];
    }
    buf := b[..];
  }

  /** `execute`'s four parse loops: leading spaces, the name, the spaces
      between, the argument. A name or argument of `TOKEN_SIZE` bytes or
      more does not fit a zero-terminated 32-byte buffer and is refused
      (`fits` false) instead of being written past the buffer's end. */
  method ParseCommand(command: seq<byte>) returns (fits: bool, cmd: seq<byte>, arg: seq<byte>)
    ensures fits <==> |Name(command)| < TOKEN_SIZE && |Arg(command)| < TOKEN_SIZE
    ensures fits ==> cmd == Pad(Name(command), TOKEN_SIZE) && arg == Pad(Arg(command), TOKEN_SIZE)
  {
    var i := 0;
    while i < |command| && command[i] == SPACE
      invariant 0 <= i <= |command|
      invariant SkipSpaces(command, i) == SkipSpaces(command, 0)
    {
      i := i + 1;
    }
    var nameFits;
    nameFits, cmd, i := CopyToken(command, i);
    while i < |command| && command[i] == SPACE
      invariant NameEnd(command) <= i <= |command|
      invariant SkipSpaces(command, i) == SkipSpaces(command, NameEnd(command))
    {
      i := i + 1;
    }
    var argFits;
    argFits, arg, i := CopyToken(command, i);
    fits := nameFits && argFits;
  }

  /** `execute`'s four parse loops as written: the name loop stores the
      byte at `i` into `cmd[i - cmd_idx]` and the argument loop into
      `arg[i - arg_idx]`, with no bound on either index. The indices stored
      to are returned in order; the k-th byte of each token goes to index
      k, so a store lands past a 32-byte buffer exactly when its token is
      longer than the buffer. */
  method ParseStoresAsWritten(command: seq<byte>) returns (cmdStores: seq<int>, argStores: seq<int>)
    ensures |cmdStores| == |Name(command)| && |argStores| == |Arg(command)|
    ensures forall k :: 0 <= k < |cmdStores| ==> cmdStores[k] == k
    ensures forall k :: 0 <= k < |argStores| ==> argStores[k] == k
    ensures (exists k :: 0 <= k < |cmdStores| && cmdStores[k] >= TOKEN_SIZE) <==> |Name(command)| > TOKEN_SIZE
    ensures (exists k :: 0 <= k < |argStores| && argStores[k] >= TOKEN_SIZE) <==> |Arg(command)| > TOKEN_SIZE
  {
    var i := 0;
    while i < |command| && command[i] == SPACE
      invariant 0 <= i <= |command|
      invariant SkipSpaces(command, i) == SkipSpaces(command, 0)
    {
      i := i + 1;
    }
    var cmdIdx := i;
    cmdStores := [];
    while i < |command| && command[i] != SPACE
      invariant cmdIdx <= i <= |command|
      invariant TokenEnd(command, i) == TokenEnd(command, cmdIdx)
      invariant |cmdStores| == i - cmdIdx
      invariant forall k :: 0 <= k < |cmdStores| ==> cmdStores[k] == k
    {
      cmdStores := cmdStores + [i - cmdIdx];
      i := i + 1;
    }
    while i < |command| && command[i] == SPACE
      invariant NameEnd(command) <= i <= |command|
      invariant SkipSpaces(command, i) == SkipSpaces(command, NameEnd(command))
    {
      i := i + 1;
    }
    var argIdx := i;
    argStores := [];
    while i < |command| && command[i] != SPACE
      invariant argIdx <= i <= |command|
      invariant TokenEnd(command, i) == TokenEnd(command, argIdx)
      invariant |argStores| == i - argIdx
      invariant forall k :: 0 <= k < |argStores| ==> argStores[k] == k
    {
      argStores := argStores + [i - argIdx];
      i := i + 1;
    }
    if |cmdStores| > TOKEN_SIZE {
      assert cmdStores[TOKEN_SIZE] >= TOKEN_SIZE;
    }
    if |argStores| > TOKEN_SIZE {
      assert argStores[TOKEN_SIZE] >= TOKEN_SIZE;
    }
  }

  /** A 33-byte program name: the unguarded name loop stores at `cmd[32]`,
      one past the end of the 32-byte buffer, while the guarded parse
      refuses the line. */
  method LongNameOverflows() returns (command: seq<byte>, cmdStores: seq<int>, fits: bool)
    ensures |command| == TOKEN_SIZE + 1
    ensures TOKEN_SIZE in cmdStores && !fits
  {
    command := seq(33, _ => 97 as byte);
    assert SkipSpaces(command, 0) == 0;
    TokenEndOver(command, 0, 33);
    assert |Name(command)| == 33;
    var argStores;
    cmdStores, argStores := ParseStoresAsWritten(command);
    assert cmdStores[TOKEN_SIZE] == TOKEN_SIZE;
    var cmd, arg;
    fits, cmd, arg := ParseCommand(command);
  }

  /** Skipping a run of exactly `k` spaces. */
  lemma {:induction false} SkipSpacesOver(s: seq<byte>, i: nat, k: nat)
    requires i + k <= |s|
    requires forall j :: i <= j < i + k ==> s[j] == SPACE
    requires i + k == |s| || s[i + k] != SPACE
    ensures SkipSpaces(s, i) == i + k
    decreases k
  {
    if k > 0 {
      SkipSpacesOver(s, i + 1, k - 1);
    }
  }

  /** Scanning a run of exactly `k` non-spaces. */
  lemma {:induction false} TokenEndOver(s: seq<byte>, i: nat, k: nat)
    requires i + k <= |s|
    requires forall j :: i <= j < i + k ==> s[j] != SPACE
    requires i + k == |s| || s[i + k] == SPACE
    ensures TokenEnd(s, i) == i + k
    decreases k
  {
    if k > 0 {
      TokenEndOver(s, i + 1, k - 1);
    }
  }

  /** The name part of `ParseRoundTrip`: the name comes back and ends
      where it was placed. */
  lemma NameBack(lead: nat, name: seq<byte>, arg: seq<byte>)
    requires |name| > 0 && NoSpace(name)
    ensures var s := seq(lead, _ => SPACE) + name + [SPACE] + arg;
      Name(s) == name && NameEnd(s) == lead + |name|
  {
    var s := seq(lead, _ => SPACE) + name + [SPACE] + arg;
    assert forall j :: 0 <= j < lead ==> s[j] == SPACE;
    assert forall j :: lead <= j < lead + |name| ==> s[j] == name[j - lead];
    SkipSpacesOver(s, 0, lead);
    TokenEndOver(s, lead, |name|);
    assert s[lead..lead + |name|] == name;
  }

  /** Parsing a line built from leading spaces, a name, one space and an
      argument gives back that name and argument. */
  lemma ParseRoundTrip(lead: nat, name: seq<byte>, arg: seq<byte>)
    requires |name| > 0 && NoSpace(name) && NoSpace(arg)
    ensures var s := seq(lead, _ => SPACE) + name + [SPACE] + arg;
      Name(s) == name && Arg(s) == arg
  {
    var s := seq(lead, _ => SPACE) + name + [SPACE] + arg;
    NameBack(lead, name, arg);
    var e := lead + |name|;
    assert s[e] == SPACE && s[e + 1..] == arg;
    SkipSpacesOver(s, e, 1);
    TokenEndOver(s, e + 1, |arg|);
  }

  // ---- getargs ----

  /** `getargs` as written: after the no-argument check it copies with
      `strncpy(buf, command_arg, nbytes)` and then judges the fit by
      `buf[31]`, whatever `nbytes` is. */
  function GetargsAsWritten(commandArg: seq<byte>, nbytes: nat, buf: seq<byte>): (res: (int, seq<byte>))
    requires |commandArg| == TOKEN_SIZE && nbytes <= |buf| && TOKEN_SIZE <= |buf|
    ensures |res.1| == |buf|
    ensures commandArg[0] == NUL ==> res == (-1, buf)
    ensures commandArg[0] != NUL ==> res.1[..nbytes] == StrNCpy(commandArg, nbytes) && res.1[nbytes..] == buf[nbytes..]
    ensures commandArg[0] != NUL ==> (res.0 == 0 <==> res.1[TOKEN_SIZE - 1] == NUL)
  {
    if commandArg[0] == NUL then (-1, buf)
    else
      var b := StrNCpy(commandArg, nbytes) + buf[nbytes..];
      (if b[TOKEN_SIZE - 1] != NUL then -1 else 0, b)
  }

  /** `getargs` with the fit test the source describes: -1 when there is no
      argument or when the argument and its terminating NUL do not fit in
      `nbytes`, and then the buffer is left alone. */
  function Getargs(commandArg: seq<byte>, nbytes: int, buf: seq<byte>): (res: (int, seq<byte>))
    requires |commandArg| == TOKEN_SIZE && nbytes <= |buf|
    ensures res.0 == 0 || res.0 == -1
    ensures res.0 == 0 <==> commandArg[0] != NUL && CStrLen(commandArg) < nbytes
    ensures res.0 == -1 ==> res.1 == buf
    ensures res.0 == 0 ==>
      var n := CStrLen(commandArg);
      |res.1| == |buf| && res.1[..n] == commandArg[..n] && CStrLen(res.1) == n
      && res.1[nbytes..] == buf[nbytes..]
  {
    if commandArg[0] == NUL || CStrLen(commandArg) >= nbytes then (-1, buf)
    else
      var n := CStrLen(commandArg);
      var b := StrNCpy(commandArg, nbytes) + buf[nbytes..];
      assert b[n] == NUL && NoNul(b[..n]);
      assert b[..n] == commandArg[..n];
      (0, b)
  }

  /** The argument `execute` stores is the one `getargs` hands back, when
      the caller's buffer has room for it and its NUL. */
  lemma GetargsReturnsArgument(command: seq<byte>, nbytes: int, buf: seq<byte>)
    requires NoNul(command) && 0 < |Arg(command)| < TOKEN_SIZE && |Arg(command)| < nbytes <= |buf|
    ensures var res := Getargs(Pad(Arg(command), TOKEN_SIZE), nbytes, buf);
      res.0 == 0 && res.1[..|Arg(command)|] == Arg(command) && CStrLen(res.1) == |Arg(command)|
  {
    PadThenStrLen(Arg(command), TOKEN_SIZE);
  }

  /** With `nbytes` 4 and the argument "hello", the written version copies
      "hell" with no terminator and still reports success, since `buf[31]`
      was zero; the corrected one refuses. */
  lemma GetargsAsWrittenMisreports()
    ensures var arg := Pad([104, 101, 108, 108, 111], TOKEN_SIZE);
      var res := GetargsAsWritten(arg, 4, Zeros(TOKEN_SIZE));
      res.0 == 0 && NoNul(res.1[..4]) && Getargs(arg, 4, Zeros(TOKEN_SIZE)).0 == -1
  {
    var arg := Pad([104, 101, 108, 108, 111], TOKEN_SIZE);
    assert arg[..5] == [104, 101, 108, 108, 111];
    PadThenStrLen([104, 101, 108, 108, 111], TOKEN_SIZE);
  }

  // ---- descriptor guards ----

  /** `read`'s descriptor test: in range and not stdout. */
  predicate ReadFdOk(fd: int) {
    0 <= fd < NUM_FILE_DES && fd != 1
  }

  /** `write`'s descriptor test as written: `fd > 8` admits 8. */
  predicate WriteFdOkAsWritten(fd: int) {
    !(fd < 0 || fd > 8) && fd != 0
  }

  /** The evident bound: `file_array` has `NUM_FILE_DES` entries. */
  predicate WriteFdOk(fd: int) {
    0 <= fd < NUM_FILE_DES && fd != 0
  }

  /** As written, `write` indexes `file_array[8]`, one past its end. */
  lemma WriteGuardAdmitsEight()
    ensures WriteFdOkAsWritten(8) && !(8 < NUM_FILE_DES) && !WriteFdOk(8)
  {
  }

  /** Only 8 separates the two tests, and the corrected test admits exactly
      the indices of `file_array` other than stdin. */
  lemma WriteGuardsAgree(fd: int)
    ensures fd != 8 ==> (WriteFdOkAsWritten(fd) <==> WriteFdOk(fd))
    ensures WriteFdOk(fd) <==> 0 < fd < NUM_FILE_DES
  {
  }

  // ---- signals ----

  /** Signals are not supported: both calls fail. */
  function SetHandler(signum: int, handlerAddress: int): (r: int)
    ensures r == -1
  {
    -1
  }

  function Sigreturn(): (r: int)
    ensures r == -1
  {
    -1
  }
}
