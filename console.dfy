/** The console side of the kernel as values: the three terminal records,
    the scancode table and modifier flags of the keyboard driver, what a
    keystroke does to the current line, and what `terminal_read` and
    `terminal_write` deliver. Screen output (`putc`, `clear`, cursor moves)
    is kept as a trace of `ScreenOp`s. */
module Console {
  import opened Util

  const NUM_TERMINALS := 3
  const BUFFER_SIZE := 128
  const NUM_COLS := 80
  const FOUR_KB := 4096
  const TERMINAL_VID_BUF_START := 0xB9000
  const KEYBOARD_IRQ := 1
  const KEY_NUM := 58                 // scancodes with a table entry

  const ESC_KEY := 0x01
  const ESC_RELEASED := 0x81
  const BACKSPACE_KEY := 0x0E
  const ENTER_KEY := 0x1C
  const CONTROL_KEY := 0x1D
  const CONTROL_RELEASED := 0x9D
  const LEFT_SHIFT_KEY := 0x2A
  const LEFT_SHIFT_RELEASED := 0xAA
  const RIGHT_SHIFT_KEY := 0x36
  const RIGHT_SHIFT_RELEASED := 0xB6
  const CAPS_LOCK_KEY := 0x3A
  const CAPS_LOCK_RELEASED := 0xBA
  const ALT_KEY := 0x38
  const ALT_RELEASED := 0xB8
  const F1_KEY := 0x3B
  const F3_KEY := 0x3D

  const BACKSPACE_CHAR: byte := 8
  const TAB_CHAR: byte := 9

  datatype ScreenOp = Put(c: byte) | ClearScreen | MoveCursor(x: int, y: int)

  /** One `putc` per byte. */
  function Puts(s: seq<byte>): (ops: seq<ScreenOp>)
    ensures |ops| == |s|
    ensures forall i :: 0 <= i < |s| ==> ops[i] == Put(s[i])
  {
    if |s| == 0 then [] else Puts(s[..|s| - 1]) + [Put(s[|s| - 1])]
  }

  /** Printing one more byte adds one more `putc`. */
  lemma PutsSnoc(s: seq<byte>, c: byte)
    ensures Puts(s + [c]) == Puts(s) + [Put(c)]
  {
    assert (s + [c])[..|s|] == s;
  }

  // ---- the terminal record ----

  /** A terminal: its top process, cursor, line buffer and the count of
      processes started on it. `currPcb` is the pid whose PCB
      `curr_pcb_ptr` points at (None for NULL). */
  datatype Terminal = Terminal(
    pid: u32, parentPid: u32, processing: bool, terminalNum: int,
    cursorX: int, cursorY: int, command: seq<byte>, commandIdx: nat,
    videoBuffer: int, numberOfProcesses: nat, enterFlag: bool, currPcb: Option<nat>)

  /** Terminal `i` as `terminal_init` leaves it (terminal 0 is then also
      marked as processing). */
  function InitialTerminal(i: int): (t: Terminal)
    ensures |t.command| == BUFFER_SIZE && t.commandIdx == 0 && !t.enterFlag
    ensures t.terminalNum == i && t.videoBuffer == TERMINAL_VID_BUF_START + i * FOUR_KB
    ensures t.numberOfProcesses == 0 && t.currPcb.None? && t.pid == 0
  {
    Terminal(0, 0xFFFF_FFFF, false, i, 0, 0, Zeros(BUFFER_SIZE), 0,
             TERMINAL_VID_BUF_START + i * FOUR_KB, 0, false, None)
  }

  /** The keyboard stores `c` at the line index and moves on; Enter also
      raises the flag `terminal_read` waits for. */
  function Append(t: Terminal, c: byte): (r: Terminal)
    requires |t.command| == BUFFER_SIZE && t.commandIdx < BUFFER_SIZE
    ensures |r.command| == BUFFER_SIZE && r.commandIdx == t.commandIdx + 1
    ensures r.command[t.commandIdx] == c
    ensures forall j :: 0 <= j < BUFFER_SIZE && j != t.commandIdx ==> r.command[j] == t.command[j]
    ensures r.enterFlag <==> t.enterFlag || c == NEWLINE
    ensures r == t.(command := r.command, commandIdx := r.commandIdx, enterFlag := r.enterFlag)
  {
    t.(command := t.command[t.commandIdx := c], commandIdx := t.commandIdx + 1,
       enterFlag := t.enterFlag || c == NEWLINE)
  }

  /** Backspace: the last byte of the line is cleared and the index steps
      back; the screen gets four backspaces for a tab, one otherwise.
      Nothing happens on an empty line. */
  function EraseLast(t: Terminal): (r: (Terminal, seq<ScreenOp>))
    requires |t.command| == BUFFER_SIZE && t.commandIdx <= BUFFER_SIZE
    ensures |r.0.command| == BUFFER_SIZE
    ensures t.commandIdx == 0 ==> r == (t, [])
    ensures t.commandIdx > 0 ==>
      r.0 == t.(command := t.command[t.commandIdx - 1 := NUL], commandIdx := t.commandIdx - 1)
      && r.1 == Puts(seq(if t.command[t.commandIdx - 1] == TAB_CHAR then 4 else 1, _ => BACKSPACE_CHAR))
  {
    if t.commandIdx == 0 then (t, [])
    else
      var n := if t.command[t.commandIdx - 1] == TAB_CHAR then 4 else 1;
      (t.(command := t.command[t.commandIdx - 1 := NUL], commandIdx := t.commandIdx - 1),
       Puts(seq(n, _ => BACKSPACE_CHAR)))
  }

  /** Typing a character and erasing it gives the line back, with a NUL
      where the character went. */
  lemma TypeThenErase(t: Terminal, c: byte)
    requires |t.command| == BUFFER_SIZE && t.commandIdx < BUFFER_SIZE && c != NEWLINE
    ensures EraseLast(Append(t, c)).0 == t.(command := t.command[t.commandIdx := NUL])
    ensures |EraseLast(Append(t, c)).1| == if c == TAB_CHAR then 4 else 1
  {
    var a := Append(t, c);
    assert a.command[a.commandIdx - 1 := NUL] == t.command[t.commandIdx := NUL];
  }

  // ---- the scancode table ----

  /** `scancode_key`: the plain and shifted character of each scancode
      below 58, 0 for keys that print nothing. */
  function KeyEntry(sc: int): (e: (char, char))
    requires 0 <= sc < KEY_NUM
    ensures e.0 as int < 128 && e.1 as int < 128
  {
    match sc
    case 0x00 => ('\0', '\0') case 0x01 => ('\0', '\0') case 0x02 => ('1', '!') case 0x03 => ('2', '@')
    case 0x04 => ('3', '#') case 0x05 => ('4', '$') case 0x06 => ('5', '%') case 0x07 => ('6', '^')
    case 0x08 => ('7', '&') case 0x09 => ('8', '*') case 0x0A => ('9', '(') case 0x0B => ('0', ')')
    case 0x0C => ('-', '_') case 0x0D => ('=', '+') case 0x0E => ('\U{8}', '\U{8}') case 0x0F => ('\t', '\t')
    case 0x10 => ('q', 'Q') case 0x11 => ('w', 'W') case 0x12 => ('e', 'E') case 0x13 => ('r', 'R')
    case 0x14 => ('t', 'T') case 0x15 => ('y', 'Y') case 0x16 => ('u', 'U') case 0x17 => ('i', 'I')
    case 0x18 => ('o', 'O') case 0x19 => ('p', 'P') case 0x1A => ('[', '{') case 0x1B => (']', '}')
    case 0x1C => ('\n', '\n') case 0x1D => ('\0', '\0') case 0x1E => ('a', 'A') case 0x1F => ('s', 'S')
    case 0x20 => ('d', 'D') case 0x21 => ('f', 'F') case 0x22 => ('g', 'G') case 0x23 => ('h', 'H')
    case 0x24 => ('j', 'J') case 0x25 => ('k', 'K') case 0x26 => ('l', 'L') case 0x27 => (';', ':')
    case 0x28 => ('\'', '\'') case 0x29 => ('`', '~') case 0x2A => ('\0', '\0') case 0x2B => ('\\', '|')
    case 0x2C => ('z', 'Z') case 0x2D => ('x', 'X') case 0x2E => ('c', 'C') case 0x2F => ('v', 'V')
    case 0x30 => ('b', 'B') case 0x31 => ('n', 'N') case 0x32 => ('m', 'M') case 0x33 => (',', '<')
    case 0x34 => ('.', '>') case 0x35 => ('/', '?') case 0x36 => ('\0', '\0') case 0x37 => ('\0', '\0')
    case 0x38 => ('\0', '\0') case 0x39 => (' ', ' ')
  }

  /** The table entry of scancode `sc` in column `shifted`. */
  function KeyChar(sc: int, shifted: bool): (c: byte)
    requires 0 <= sc < KEY_NUM
    ensures c < 128
  {
    var e := KeyEntry(sc);
    (if shifted then e.1 else e.0) as int
  }

  predicate IsLower(c: byte) {
    'a' as int <= c <= 'z' as int
  }

  /** For each letter key the shifted column holds the capital letter; Enter
      is the only key whose entry is a newline. */
  lemma TableColumns(sc: int)
    requires 0 <= sc < KEY_NUM
    ensures IsLower(KeyChar(sc, false)) ==> KeyChar(sc, true) == KeyChar(sc, false) - 32
    ensures KeyChar(sc, false) == NEWLINE <==> sc == ENTER_KEY
    ensures KeyChar(sc, false) == 'l' as int <==> sc == 0x26
  {
  }

  // ---- modifier keys ----

  /** The driver's modifier globals. */
  datatype Modifiers = Modifiers(capsStat: bool, capsPressed: bool, control: bool, shift: bool, esc: bool, alt: bool)

  /** `keyboard_init` clears them all. */
  const NO_MODIFIERS := Modifiers(false, false, false, false, false, false)

  predicate IsSpecial(sc: int) {
    sc in {ESC_KEY, ESC_RELEASED, CONTROL_KEY, CONTROL_RELEASED, LEFT_SHIFT_KEY, RIGHT_SHIFT_KEY,
           LEFT_SHIFT_RELEASED, RIGHT_SHIFT_RELEASED, CAPS_LOCK_KEY, CAPS_LOCK_RELEASED,
           ALT_KEY, ALT_RELEASED, BACKSPACE_KEY}
  }

  /** `special_status_key`'s effect on the modifier flags, None when it
      returns 0 (backspace is special but leaves the flags alone; its line
      edit is `EraseLast`). A Caps Lock press toggles the lock only when the
      key was not already held, so auto-repeat does not flip it again. */
  function SpecialStatus(m: Modifiers, sc: int): (r: Option<Modifiers>)
    ensures r.Some? <==> IsSpecial(sc)
    ensures r.Some? && sc != CAPS_LOCK_KEY ==> r.value.capsStat == m.capsStat
    ensures sc == CAPS_LOCK_KEY ==> r.value.capsStat == (m.capsStat != !m.capsPressed) && r.value.capsPressed
    ensures sc == CAPS_LOCK_RELEASED ==> !r.value.capsPressed
    ensures sc in {LEFT_SHIFT_KEY, RIGHT_SHIFT_KEY} ==> r.value.shift
    ensures sc in {LEFT_SHIFT_RELEASED, RIGHT_SHIFT_RELEASED} ==> !r.value.shift
    ensures r.Some? && sc !in {LEFT_SHIFT_KEY, RIGHT_SHIFT_KEY, LEFT_SHIFT_RELEASED, RIGHT_SHIFT_RELEASED} ==>
      r.value.shift == m.shift
    ensures r.Some? && sc !in {CONTROL_KEY, CONTROL_RELEASED} ==> r.value.control == m.control
    ensures r.Some? && sc !in {ALT_KEY, ALT_RELEASED} ==> r.value.alt == m.alt
    ensures sc == CONTROL_KEY ==> r.value.control
    ensures sc == ALT_KEY ==> r.value.alt
    ensures sc == BACKSPACE_KEY ==> r == Some(m)
  {
    if sc == ESC_KEY then Some(m.(esc := true))
    else if sc == ESC_RELEASED then Some(m.(esc := false))
    else if sc == CONTROL_KEY then Some(m.(control := true))
    else if sc == CONTROL_RELEASED then Some(m.(control := false))
    else if sc == LEFT_SHIFT_KEY || sc == RIGHT_SHIFT_KEY then Some(m.(shift := true))
    else if sc == LEFT_SHIFT_RELEASED || sc == RIGHT_SHIFT_RELEASED then Some(m.(shift := false))
    else if sc == CAPS_LOCK_KEY then
      if !m.capsPressed then Some(m.(capsStat := !m.capsStat, capsPressed := true)) else Some(m)
    else if sc == CAPS_LOCK_RELEASED then Some(m.(capsPressed := false))
    else if sc == ALT_KEY then Some(m.(alt := true))
    else if sc == ALT_RELEASED then Some(m.(alt := false))
    else if sc == BACKSPACE_KEY then Some(m)
    else None
  }

  /** The modifier flags after a run of scancodes (non-special ones leave
      them alone). */
  function Feed(m: Modifiers, scs: seq<int>): Modifiers
    decreases |scs|
  {
    if |scs| == 0 then m
    else
      var s := SpecialStatus(m, scs[0]);
      Feed(if s.Some? then s.value else m, scs[1..])
  }

  /** Holding Caps Lock (one press and any number of auto-repeated presses)
      and releasing it toggles the lock exactly once. */
  lemma {:induction false} CapsToggledOncePerHold(m: Modifiers, repeats: nat)
    requires !m.capsPressed
    ensures var r := Feed(m, seq(repeats + 1, _ => CAPS_LOCK_KEY) + [CAPS_LOCK_RELEASED]);
      r.capsStat == !m.capsStat && !r.capsPressed && r.shift == m.shift && r.control == m.control
  {
    var m1 := SpecialStatus(m, CAPS_LOCK_KEY).value;
    assert seq(repeats + 1, _ => CAPS_LOCK_KEY) + [CAPS_LOCK_RELEASED]
        == [CAPS_LOCK_KEY] + (seq(repeats, _ => CAPS_LOCK_KEY) + [CAPS_LOCK_RELEASED]);
    HeldCapsRepeats(m1, repeats);
  }

  /** Further presses while held change nothing; the release clears the
      held flag. */
  lemma {:induction false} HeldCapsRepeats(m: Modifiers, repeats: nat)
    requires m.capsPressed
    ensures Feed(m, seq(repeats, _ => CAPS_LOCK_KEY) + [CAPS_LOCK_RELEASED]) == m.(capsPressed := false)
    decreases repeats
  {
    var s := seq(repeats, _ => CAPS_LOCK_KEY) + [CAPS_LOCK_RELEASED];
    if repeats == 0 {
      assert s == [CAPS_LOCK_RELEASED];
      assert Feed(m, s) == Feed(m.(capsPressed := false), s[1..]);
    } else {
      assert s[1..] == seq(repeats - 1, _ => CAPS_LOCK_KEY) + [CAPS_LOCK_RELEASED];
      HeldCapsRepeats(m, repeats - 1);
    }
  }

  // ---- what a keystroke does ----

  /** The outcome of a non-special scancode: switch terminals (1-based, as
      `switch_terminal` takes it), clear the screen, store a character at
      the line index (and echo it), or nothing. */
  datatype KeyAction = Ignore | SwitchTo(num: int) | Clear | Store(c: byte)

  /** `keyboard_handler` after `special_status_key` returned 0, as written:
      once the line index reaches 127 only Enter is stored, at whatever the
      index is, even at 128. */
  function DecodeAsWritten(m: Modifiers, idx: int, sc: int): (a: KeyAction)
    requires 0 <= sc < 256
    ensures m.alt && F1_KEY <= sc <= F3_KEY ==> a == SwitchTo(sc - F1_KEY + 1)
    ensures !(m.alt && F1_KEY <= sc <= F3_KEY) && sc >= KEY_NUM ==> a == Ignore
    ensures a.SwitchTo? ==> 1 <= a.num <= NUM_TERMINALS
    ensures a == Clear <==> !(m.alt && F1_KEY <= sc <= F3_KEY) && sc < KEY_NUM && m.control && KeyChar(sc, false) == 'l' as int
    ensures a.Store? ==> sc < KEY_NUM && a.c != NUL && (a.c == KeyChar(sc, false) || a.c == KeyChar(sc, true))
    ensures a.Store? && idx >= BUFFER_SIZE - 1 ==> a.c == NEWLINE
    ensures sc == ENTER_KEY && !m.control ==> a == Store(NEWLINE)
  {
    TableColumns(ENTER_KEY);
    if m.alt && F1_KEY <= sc <= F3_KEY then SwitchTo(sc - F1_KEY + 1)
    else if sc >= KEY_NUM then Ignore
    else
      var plain := KeyChar(sc, false);
      if m.control && plain == 'l' as int then Clear
      else if idx >= BUFFER_SIZE - 1 then
        if plain == NEWLINE then Store(NEWLINE) else Ignore
      else if plain == NEWLINE then Store(NEWLINE)
      else if IsLower(plain) then Store(KeyChar(sc, m.shift != m.capsStat))
      else if plain != NUL then Store(KeyChar(sc, m.shift))
      else Ignore
  }

  /** The same decision with the bound the line buffer needs: nothing is
      stored once the index has reached the end of the 128-byte buffer. */
  function Decode(m: Modifiers, idx: int, sc: int): (a: KeyAction)
    requires 0 <= sc < 256
    ensures a.Store? ==> idx < BUFFER_SIZE
    ensures idx < BUFFER_SIZE ==> a == DecodeAsWritten(m, idx, sc)
    ensures idx >= BUFFER_SIZE && !DecodeAsWritten(m, idx, sc).Store? ==> a == DecodeAsWritten(m, idx, sc)
  {
    var a := DecodeAsWritten(m, idx, sc);
    if idx >= BUFFER_SIZE && a.Store? then Ignore else a
  }

  /** A letter key stores the capital letter exactly when Shift and Caps
      Lock disagree. */
  lemma LetterCase(m: Modifiers, idx: int, sc: int)
    requires 0 <= sc < KEY_NUM && IsLower(KeyChar(sc, false)) && 0 <= idx < BUFFER_SIZE - 1
    requires !(m.control && KeyChar(sc, false) == 'l' as int)
    ensures Decode(m, idx, sc) ==
      Store(if m.shift != m.capsStat then KeyChar(sc, false) - 32 else KeyChar(sc, false))
  {
    TableColumns(sc);
  }

  /** Once the line has reached index 127, the first Enter is stored at 127
      and moves the index to 128; as written, a second Enter is then stored
      at index 128, one past the end of the 128-byte line buffer. The
      corrected decision stores nothing there. */
  lemma SecondEnterOverflows(m: Modifiers, t: Terminal)
    requires |t.command| == BUFFER_SIZE && t.commandIdx == BUFFER_SIZE - 1 && !m.control && !m.alt
    ensures Decode(m, t.commandIdx, ENTER_KEY) == Store(NEWLINE)
    ensures Append(t, NEWLINE).commandIdx == BUFFER_SIZE
    ensures DecodeAsWritten(m, Append(t, NEWLINE).commandIdx, ENTER_KEY) == Store(NEWLINE)
    ensures Decode(m, Append(t, NEWLINE).commandIdx, ENTER_KEY) == Ignore
  {
  }

  // ---- terminal_read ----

  /** How many bytes `terminal_read` delivers from the 128-byte `line`,
      scanning from index `i` on. */
  function ReadCountFrom(line: seq<byte>, nbytes: int, i: nat): (r: nat)
    requires |line| == BUFFER_SIZE && i < nbytes && i < BUFFER_SIZE
    requires forall j :: 0 <= j < i ==> line[j] != NEWLINE
    ensures i < r <= Min(nbytes, BUFFER_SIZE)
    ensures forall j :: 0 <= j < r - 1 ==> line[j] != NEWLINE
    ensures line[r - 1] == NEWLINE || r == Min(nbytes, BUFFER_SIZE)
    decreases BUFFER_SIZE - i
  {
    if line[i] == NEWLINE || i == nbytes - 1 || i == BUFFER_SIZE - 1 then i + 1
    else ReadCountFrom(line, nbytes, i + 1)
  }

  /** `terminal_read`'s count: up to and including the first newline,
      else `nbytes` or 128 bytes, whichever is less; 0 when `nbytes` is not
      positive. */
  function ReadCount(line: seq<byte>, nbytes: int): (r: nat)
    requires |line| == BUFFER_SIZE
    ensures nbytes <= 0 ==> r == 0
    ensures nbytes > 0 ==> 1 <= r <= Min(nbytes, BUFFER_SIZE)
    ensures nbytes > 0 ==> forall j :: 0 <= j < r - 1 ==> line[j] != NEWLINE
    ensures nbytes > 0 ==> line[r - 1] == NEWLINE || r == Min(nbytes, BUFFER_SIZE)
  {
    if nbytes <= 0 then 0 else ReadCountFrom(line, nbytes, 0)
  }

  /** The bytes delivered: the line up to the count, whose last byte is
      always a newline (forced when the line had none). */
  function Delivered(line: seq<byte>, nbytes: int): (d: seq<byte>)
    requires |line| == BUFFER_SIZE
    ensures |d| == ReadCount(line, nbytes)
    ensures nbytes > 0 ==> d[|d| - 1] == NEWLINE && d[..|d| - 1] == line[..|d| - 1]
  {
    var r := ReadCount(line, nbytes);
    if r == 0 then [] else line[..r - 1] + [NEWLINE]
  }

  /** A typed line that fits the buffer and the caller's count comes back
      whole, newline included. */
  lemma {:induction false} ReadReturnsTypedLine(text: seq<byte>, rest: seq<byte>, nbytes: int)
    requires forall j :: 0 <= j < |text| ==> text[j] != NEWLINE
    requires |text| + 1 + |rest| == BUFFER_SIZE && |text| < nbytes
    ensures Delivered(text + [NEWLINE] + rest, nbytes) == text + [NEWLINE]
  {
    var line := text + [NEWLINE] + rest;
    var r := ReadCount(line, nbytes);
    assert line[|text|] == NEWLINE;
    assert forall j :: 0 <= j < |text| ==> line[j] == text[j];
    assert r == |text| + 1;
    assert line[..r - 1] == text;
  }

  /** The global line after a read of `r` bytes: those bytes blanked, the
      rest kept. */
  function Blanked(line: seq<byte>, r: nat): (b: seq<byte>)
    requires r <= |line|
    ensures |b| == |line|
    ensures forall j :: 0 <= j < r ==> b[j] == SPACE
    ensures forall j :: r <= j < |line| ==> b[j] == line[j]
  {
    seq(r, _ => SPACE) + line[r..]
  }

  /** `terminal_read`'s first loop: the global line copy `global` takes the
      first `idx` bytes of the terminal's typed buffer `typed` and keeps the
      rest. */
  method LoadLine(global: seq<byte>, typed: seq<byte>, idx: nat) returns (r: seq<byte>)
    requires |global| == BUFFER_SIZE && |typed| == BUFFER_SIZE && idx <= BUFFER_SIZE
    ensures r == typed[..idx] + global[idx..]
  {
    r := global;
    var i := 0;
    while i < idx
      invariant 0 <= i <= idx && |r| == BUFFER_SIZE
      invariant r == typed[..i] + global[i..]
    {
      r := r[i := typed[i]];
      i := i + 1;
      assert r == typed[..i] + global[i..];
    }
  }

  /** `terminal_read`'s second loop over the 128-byte global `line`: each
      byte goes to the caller's buffer and is blanked in the line; it stops
      after the first newline, or puts a newline in the last place when it
      reaches `nbytes` or 128 bytes. Returns the count and the blanked line. */
  method DrainLine(line: seq<byte>, buf: array<byte>, nbytes: int) returns (r: nat, rest: seq<byte>)
    requires |line| == BUFFER_SIZE && Min(nbytes, BUFFER_SIZE) <= buf.Length
    modifies buf
    ensures r == ReadCount(line, nbytes)
    ensures buf[..r] == Delivered(line, nbytes) && buf[r..] == old(buf[r..])
    ensures rest == Blanked(line, r)
  {
    rest := line;
    var i := 0;
    while i < nbytes
      invariant 0 <= i < BUFFER_SIZE && (nbytes > 0 ==> i < nbytes) && (nbytes <= 0 ==> i == 0)
      invariant forall j :: 0 <= j < i ==> line[j] != NEWLINE
      invariant forall j :: 0 <= j < i ==> buf[j] == line[j]
      invariant forall j :: i <= j < buf.Length ==> buf[j] == old(buf[j])
      invariant |rest| == BUFFER_SIZE
      invariant forall j :: 0 <= j < i ==> rest[j] == SPACE
      invariant forall j :: i <= j < BUFFER_SIZE ==> rest[j] == line[j]
      decreases nbytes - i
    {
      var c := rest[i];
      buf[i] := c;
      rest := rest[i := SPACE];
      if c == NEWLINE || i == nbytes - 1 || i == BUFFER_SIZE - 1 {
        buf[i] := NEWLINE;
        r := i + 1;
        DrainedLine(line, nbytes, r, buf[..], old(buf[..]), rest);
        return;
      }
      i := i + 1;
    }
    r := 0;
    assert rest == Blanked(line, r);
  }

  /** The buffer and the line as `DrainLine` leaves them when it stops
      after `r` bytes. */
  lemma DrainedLine(line: seq<byte>, nbytes: int, r: nat, buf: seq<byte>, before: seq<byte>, rest: seq<byte>)
    requires |line| == BUFFER_SIZE && nbytes > 0 && 0 < r <= BUFFER_SIZE && r <= nbytes && |buf| == |before| >= r
    requires forall j :: 0 <= j < r - 1 ==> line[j] != NEWLINE
    requires line[r - 1] == NEWLINE || r == nbytes || r == BUFFER_SIZE
    requires forall j :: 0 <= j < r - 1 ==> buf[j] == line[j]
    requires buf[r - 1] == NEWLINE
    requires forall j :: r <= j < |buf| ==> buf[j] == before[j]
    requires |rest| == BUFFER_SIZE
    requires forall j :: 0 <= j < r ==> rest[j] == SPACE
    requires forall j :: r <= j < BUFFER_SIZE ==> rest[j] == line[j]
    ensures r == ReadCount(line, nbytes)
    ensures buf[..r] == Delivered(line, nbytes) && buf[r..] == before[r..]
    ensures rest == Blanked(line, r)
  {
    CountFrom(line, nbytes, 0, r);
    assert buf[..r] == line[..r - 1] + [NEWLINE];
  }

  /** The scan from any index before `r` stops at `r` when `r` is the
      first place where it may stop. */
  lemma {:induction false} CountFrom(line: seq<byte>, nbytes: int, i: nat, r: nat)
    requires |line| == BUFFER_SIZE && i < r <= BUFFER_SIZE && r <= nbytes
    requires forall j :: 0 <= j < r - 1 ==> line[j] != NEWLINE
    requires line[r - 1] == NEWLINE || r == nbytes || r == BUFFER_SIZE
    ensures ReadCountFrom(line, nbytes, i) == r
    decreases r - i
  {
    if i < r - 1 {
      CountFrom(line, nbytes, i + 1, r);
    }
  }

  // ---- terminal_write ----

  /** The bytes `terminal_write` prints: every byte but NUL, in order. */
  function Visible(s: seq<byte>): (v: seq<byte>)
    ensures NoNul(v) && |v| <= |s|
  {
    if |s| == 0 then []
    else Visible(s[..|s| - 1]) + (if s[|s| - 1] != NUL then [s[|s| - 1]] else [])
  }

  /** A NUL-free buffer is printed as it is. */
  lemma {:induction false} VisibleOfString(s: seq<byte>)
    requires NoNul(s)
    ensures Visible(s) == s
  {
    if |s| > 0 {
      VisibleOfString(s[..|s| - 1]);
    }
  }

  /** `terminal_write`'s loop: one `putc` for each byte of the first
      `nbytes` that is not NUL. */
  method Echo(buf: array<byte>, nbytes: nat) returns (ops: seq<ScreenOp>)
    requires nbytes <= buf.Length
    ensures ops == Puts(Visible(buf[..nbytes]))
  {
    ops := [];
    var i := 0;
    while i < nbytes
      invariant 0 <= i <= nbytes
      invariant ops == Puts(Visible(buf[..i]))
    {
      assert buf[..i + 1][..i] == buf[..i];
      if buf[i] != NUL {
        PutsSnoc(Visible(buf[..i]), buf[i]);
        ops := ops + [Put(buf[i])];
      }
      i := i + 1;
    }
  }

  // ---- switch_terminal ----

  /** `switch_terminal`'s two copies: the screen is saved to terminal
      `from`'s shadow page, then terminal `to`'s page is loaded. */
  function SwapScreens(video: seq<byte>, shadows: seq<seq<byte>>, from: nat, to: nat): (r: (seq<byte>, seq<seq<byte>>))
    requires from < |shadows| && to < |shadows|
    ensures |r.1| == |shadows|
    ensures r.0 == (if from == to then video else shadows[to])
  {
    var s := shadows[from := video];
    (s[to], s)
  }

  /** Switching away and back restores the screen exactly. */
  lemma SwitchAwayAndBack(video: seq<byte>, shadows: seq<seq<byte>>, a: nat, b: nat)
    requires a < |shadows| && b < |shadows| && a != b
    ensures var there := SwapScreens(video, shadows, a, b);
      SwapScreens(there.0, there.1, b, a) == (video, shadows[a := video])
  {
    var s := shadows[a := video];
    assert s[b := s[b]] == s;
  }

  /** The banner `printf("\nTerminal %d:\n", n)` prints for n in 1..3. */
  function Banner(n: int): (b: seq<byte>)
    requires 1 <= n <= NUM_TERMINALS
    ensures NoNul(b)
  {
    [NEWLINE, 'T' as int, 'e' as int, 'r' as int, 'm' as int, 'i' as int, 'n' as int, 'a' as int, 'l' as int,
     SPACE, '0' as int + n, ':' as int, NEWLINE]
  }

  /** `terminal_open` has nothing to set up; `terminal_close` refuses, so
      stdin and stdout cannot be closed through their table. */
  function TerminalOpen(fname: seq<byte>): (r: int)
    ensures r == 0
  {
    0
  }

  function TerminalClose(fd: int): (r: int)
    ensures r == -1
  {
    -1
  }

  /** `"shell"`, the program a fresh terminal starts. */
  const SHELL: seq<byte> := ['s' as int, 'h' as int, 'e' as int, 'l' as int, 'l' as int]
}
