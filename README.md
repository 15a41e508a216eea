# A model of the student-distrib teaching kernel

This project models the core of a small protected-mode x86 kernel, the
`student-distrib` kernel (`code-os/student-distrib`), and proves properties of
the model in Dafny. The kernel boots into paging, programs two cascaded 8259
interrupt controllers, drives the real-time clock and the keyboard, keeps three
text terminals, reads a read-only in-memory file system image, and offers user
programs ten system calls: `halt`, `execute`, `read`, `write`, `open`, `close`,
`getargs`, `vidmap`, `set_handler` and `sigreturn`.

The modules follow the source files:

- `Util`: bytes, `Option`, and the C string helpers the kernel uses (`strlen`,
  `strncpy`, NUL padding, little-endian words).
- `Paging` (`paging.c`, and the paging done by `execute`, `halt`, `vidmap` and
  the terminal switch): the page directory and tables, and an address-translation
  function `Translate` that states what each boot mapping and each later edit
  makes reachable.
- `Pic` (`i8259.c`): the mask registers and the log of port writes, as a class.
- `Rtc` (`rtc.c`): the frequency-to-rate table and register A, as a class.
- `FileSystem` (`file_system.c`): the boot block, inodes and data blocks as
  values, and the directory lookups and `read_data` as loops over them.
- `Process` (`systemcall.h` and the pure parts of `systemcall.c`): file
  descriptors, PCBs, the operation tables, the command-line parser, the
  `getargs` copy and the descriptor tests.
- `Console` (`terminal.h`, `terminal.c`, `keyboard.c`): the terminal record, the
  scancode table, the modifier state machine, the decoding of a key, and the
  line discipline of `terminal_read` and `terminal_write`.
- `Sessions`: the invariant that ties the pid table, the PCB parent links and
  each terminal's process count to one stack of pids per terminal. It includes
  the proofs that `execute` and `halt` keep it.
- `Kernel`: one `KernelState` object holding the kernel's global tables: the pid
  table, the PCBs, the terminals, the page directory and tables, the video
  memory and its three shadow pages, and the modifier keys. Its methods are the
  system calls, the terminal switch and the keyboard interrupt handler.

The ghost field `chains` of `KernelState` lists, per terminal, the pids from its
root shell to its running program. `Valid()` states the kernel's process
invariant over it:
- every used pid is on exactly one terminal's chain;
- each PCB's parent is the pid below it on that chain;
- the terminal's `pid`, `curr_pcb` and `number_of_processes` describe the top of
  the chain.

Every method keeps it.

## Model

| member | source | states |
|---|---|---|
| Util.StrNCpy | code-os/student-distrib/file_system.c:51-54 | `strncpy` writes exactly `n` bytes: the source up to and including its first NUL, then NULs |
| Util.PadThenStrLen | code-os/student-distrib/systemcall.c:282 | a NUL-free string padded with NULs has its own length as `strlen` and is its own prefix |
| Util.StrNCpyOfPad | code-os/student-distrib/systemcall.c:282 | copying an already padded token with `strncpy` of the same size leaves it unchanged |
| Util.Le32RoundTrip | code-os/student-distrib/systemcall.c:286-294 | reading back the four little-endian bytes of a 32-bit word gives the word |
| Pic.Unmask | code-os/student-distrib/i8259.c:40-58 | clearing a mask bit clears exactly that bit and keeps the other seven |
| Pic.Mask | code-os/student-distrib/i8259.c:61-77 | setting a mask bit sets exactly that bit and keeps the other seven |
| Pic.MaskUnmaskRoundTrip | code-os/student-distrib/i8259.c:40-77 | disabling an IRQ that was enabled, or enabling one that was disabled, restores the mask |
| Pic.MaskIdempotent | code-os/student-distrib/i8259.c:40-77 | enabling twice equals enabling once, and so does disabling |
| Pic.ShiftIsBitMask | code-os/student-distrib/i8259.c:48-56 | the shifted one bit the driver uses is the mask of that IRQ's line |
| Pic.EoiWrites | code-os/student-distrib/i8259.c:80-96 | an EOI for IRQ 0-7 is one write to the master; for 8-15 it is one write to the slave and then the master's EOI for line 2; a larger IRQ writes nothing |
| Pic.Controllers.constructor | code-os/student-distrib/i8259.c:18-19 | both controllers start with every line masked and no port written |
| Pic.Controllers.EnableIrq | code-os/student-distrib/i8259.c:40-58 | after `enable_irq(i)` line `i` is unmasked and every other line keeps its mask; the changed mask register is logged to its data port; an IRQ above 15 changes nothing |
| Pic.Controllers.DisableIrq | code-os/student-distrib/i8259.c:61-77 | after `disable_irq(i)` line `i` is masked and every other line keeps its mask; an IRQ above 15 changes nothing |
| Pic.Controllers.SendEoi | code-os/student-distrib/i8259.c:80-96 | `send_eoi` leaves the masks alone and appends exactly the EOI writes for that IRQ |
| Pic.Controllers.Init | code-os/student-distrib/i8259.c:13-37 | `i8259_init` writes 0xFF to both data ports but does not reset the saved masks: afterwards line 2 is unmasked in the saved master mask, every other line keeps its saved mask, and that master mask is logged to the master's data port |
| Rtc.RateFor | code-os/student-distrib/rtc.c:86-132 | a rate exists exactly for the powers of two 2..1024, and it lies in 6..15 |
| Rtc.Pow2Table | code-os/student-distrib/rtc.c:86-132 | the powers of two the rate formula needs, as constants |
| Rtc.RateMatchesFormula | code-os/student-distrib/rtc.c:86-132 | every accepted frequency equals `32768 >> (rate - 1)` for its rate |
| Rtc.RateTableInverse | code-os/student-distrib/rtc.c:86-132 | every rate 6..15 is the one chosen for the frequency it produces |
| Rtc.MergeRegisterA | code-os/student-distrib/rtc.c:134-139 | the new register A keeps the old high nibble and takes the rate as its low nibble |
| Rtc.Clock.constructor | code-os/student-distrib/rtc.c:16 | the clock starts with the register A it is given |
| Rtc.Clock.ChangeFreq | code-os/student-distrib/rtc.c:82-144 | a supported frequency returns 0 and sets the rate; any other returns -1 and leaves register A unchanged |
| Rtc.Clock.Write | code-os/student-distrib/rtc.c:67-77 | a NULL buffer gives -1; otherwise the result is 0 exactly when the frequency read from the buffer is supported, and only then does register A change |
| Rtc.Clock.Open | code-os/student-distrib/rtc.c:153-159 | opening the clock sets the 2 Hz rate (low nibble 15), keeps the high nibble, and returns 0 |
| Rtc.Read | code-os/student-distrib/rtc.c:165-172 | `rtc_read` returns 0; the wait for the interrupt before it is left out |
| Rtc.Close | code-os/student-distrib/rtc.c:179-181 | `rtc_close` returns 0 |
| Paging.PagingInit | code-os/student-distrib/paging.c:17-146 | the two loops leave the directory and the first table exactly equal to the boot layout |
| Paging.BootTables | code-os/student-distrib/paging.c:109-146 | the boot table map holds only full 1024-entry tables |
| Paging.BootKernelPage | code-os/student-distrib/paging.c:20-108 | the kernel's 4 MiB page at 4 MiB is identity mapped for the kernel and faults for user code |
| Paging.BootNullPageTraps | code-os/student-distrib/paging.c:109-125 | address 0 and the rest of page 0 fault at boot |
| Paging.BootLowMemory | code-os/student-distrib/paging.c:109-146 | in the first 4 MiB only video memory, the three terminal shadow pages and their alias are mapped, and only for the kernel |
| Paging.BootUnmappedElsewhere | code-os/student-distrib/paging.c:20-108 | every 4 MiB region other than the first, the kernel page and the user window faults at boot |
| Paging.Remap | code-os/student-distrib/systemcall.c:210-213 | remapping keeps the directory's size; what the new entry maps is stated by `Paging.UserWindowAfterRemap` |
| Paging.UserWindowAfterRemap | code-os/student-distrib/systemcall.c:210-213 | after the remap for pid `p`, the user window at 128 MiB reaches physical `8 MiB + 4 MiB * p` plus the offset, for user code too |
| Paging.UserWindowsDisjoint | code-os/student-distrib/systemcall.c:210-213 | two different pids see their user windows in disjoint physical memory |
| Paging.RedirectVideo | code-os/student-distrib/terminal.c:21-33 | redirecting keeps the table's size; where video memory then leads is stated by `Paging.RedirectedVideo` |
| Paging.RedirectedVideo | code-os/student-distrib/terminal.c:21-33 | after `update_video_memory_paging(n)` the video page at 0xB8000 reaches terminal `n`'s shadow page |
| Paging.WindowEndUnmapped | code-os/student-distrib/systemcall.c:523 | the last address `vidmap` accepts, 132 MiB, is unmapped after any remap |
| Paging.VidmapAsWritten | code-os/student-distrib/systemcall.c:527-535 | the as-written edit keeps both tables' sizes; its effect on page 0 is stated by `Paging.VidmapAsWrittenMapsPageZero` |
| Paging.VidmapAsWrittenMapsPageZero | code-os/student-distrib/systemcall.c:527-529 | as written, `vidmap` makes the kernel's page 0 map video memory, so a kernel NULL access no longer faults |
| Paging.Vidmap | code-os/student-distrib/systemcall.c:527-535 | the corrected edit keeps both tables' sizes; what it maps is stated by `Paging.VidmapMapsVideoOnly` |
| Paging.VidmapMapsVideoOnly | code-os/student-distrib/systemcall.c:527-535 | the corrected `vidmap` lets user code reach video memory at 136 MiB, and page 0 still faults |
| Paging.VidmapStoreFaults | code-os/student-distrib/systemcall.c:522-540 | as written, a pointer accepted within the last three bytes below 132 MiB, or at 132 MiB itself, has a byte of the stored word at 132 MiB, and that byte faults even after the remap and the `vidmap` edit |
| Paging.VidmapStoreLands | code-os/student-distrib/systemcall.c:522-540 | with the intended bound (the whole word inside the user window), every byte of the stored word reaches the running process's physical page |
| FileSystem.EntryAt | code-os/student-distrib/file_system.c:38-59 | entries 0..62 are the boot block's; index 63 is decoded from the 64 bytes after the boot block, as the scan reads them |
| FileSystem.LookupFrom | code-os/student-distrib/file_system.c:38-59 | the lookup returns the first entry whose name matches, and none when no entry up to 63 matches |
| FileSystem.ReadDentryByName | code-os/student-distrib/file_system.c:29-63 | a name longer than 32 bytes gives -1; otherwise 0 exactly when an entry matches, and then the dentry is the first match's name (NUL padded), type and inode; on -1 the dentry is untouched |
| FileSystem.ReadDentryByIndex | code-os/student-distrib/file_system.c:75-86 | as written: -1 exactly for an index above 63; otherwise the name is copied, the type field gets the inode number, and the inode field is left as it was |
| FileSystem.ReadDentryByIndexCorrected | code-os/student-distrib/file_system.c:75-86 | -1 exactly for an index above 63; otherwise the dentry is the entry's name, type and inode |
| FileSystem.ByIndexLosesType | code-os/student-distrib/file_system.c:81-82 | when an entry's type and inode differ, the as-written copy reports the wrong type |
| FileSystem.ByIndexNamesAgree | code-os/student-distrib/file_system.c:75-86 | the as-written and corrected copies agree on the result and the name, which is all `directory_read` uses |
| FileSystem.ByIndexMatchesByName | code-os/student-distrib/file_system.c:29-86 | for the entry a lookup by name finds, the corrected copy by index has that entry's type and inode and spells the name looked up |
| FileSystem.ReadLen | code-os/student-distrib/file_system.c:123-135 | the bytes read stop at the requested length or at the end of the file, whichever comes first |
| FileSystem.FirstBadFrom | code-os/student-distrib/file_system.c:152-154 | finds the first position whose data block number is out of range, with every earlier block valid |
| FileSystem.ByteAt | code-os/student-distrib/file_system.c:135-178 | the byte at a file position is the byte at that offset in the block its block index names, when that block number is in range |
| FileSystem.ReadData | code-os/student-distrib/file_system.c:101-203 | `read_data`: -1 for an inode out of range; 0 at or past the end of the file; -1 when a block number on the way is out of range; otherwise the count of bytes copied, which are the file's bytes from the offset; the rest of the buffer is unchanged |
| FileSystem.ConsecutiveBytes | code-os/student-distrib/file_system.c:135-178 | reading `a` bytes and then `b` more is reading `a + b` bytes |
| FileSystem.ReadZeroed | code-os/student-distrib/file_system.c:216-239 | a read into a zeroed buffer: the count is -1 or at most `n`; the buffer holds the file's bytes for a positive count and zeros past it |
| FileSystem.ReadIntoZeroed | code-os/student-distrib/file_system.c:101-203 | `read_data` on a zeroed buffer gives exactly `ReadZeroed` |
| FileSystem.ZeroedRead | code-os/student-distrib/file_system.c:101-203 | the bytes and count of `read_data` into a zeroed buffer are those of `ReadZeroed` |
| FileSystem.FileRead | code-os/student-distrib/file_system.c:216-239 | `file_read` returns what `read_data` returns and advances the position by it when it is not negative; the bytes are the file's bytes from the position |
| FileSystem.DirectoryRead | code-os/student-distrib/file_system.c:253-289 | past the last entry it returns 0 and changes nothing; otherwise it copies the entry's name, 32 bytes whatever `nbytes` is, returns its length (at most 32) and advances the position by one |
| FileSystem.DirectoryReadStoresAsWritten | code-os/student-distrib/file_system.c:283 | as written, the name copy stores to buffer indices 0..31 whatever `nbytes` is, so some store lands at or past `nbytes` exactly when an entry is read and fewer than 32 bytes were asked for |
| FileSystem.DirectoryReadCorrected | code-os/student-distrib/file_system.c:253-289 | the intended read: only the first `nbytes` bytes (at most 32) of the name copy reach the buffer, the rest of the buffer is kept, the count is the name's length capped by `nbytes`, and for a request of 32 bytes or more it is `directory_read` |
| FileSystem.StrNCpyStrLen | code-os/student-distrib/file_system.c:270-288 | copying a name with `strncpy` of 32 bytes keeps its `strlen` |
| FileSystem.FileOpen | code-os/student-distrib/file_system.c:299-301 | `file_open` returns 0 |
| FileSystem.FileClose | code-os/student-distrib/file_system.c:311-313 | `file_close` returns 0 |
| FileSystem.FileWrite | code-os/student-distrib/file_system.c:325-327 | `file_write` returns -1: the image is read-only |
| FileSystem.DirectoryOpen | code-os/student-distrib/file_system.c:337-339 | `directory_open` returns 0 |
| FileSystem.DirectoryClose | code-os/student-distrib/file_system.c:349-351 | `directory_close` returns 0 |
| FileSystem.DirectoryWrite | code-os/student-distrib/file_system.c:362-364 | `directory_write` returns -1 |
| Process.Ops | code-os/student-distrib/systemcall.c:590-619 | each table's four entries: stdin has no write, stdout no read, and the RTC, file and directory tables call their own driver for all four |
| Process.TableForType | code-os/student-distrib/systemcall.c:349-358 | type 0 selects the RTC table, 1 the directory table, 2 the file table; any other type keeps the slot's previous table |
| Process.InitialFd | code-os/student-distrib/systemcall.c:264-279 | a new process's descriptors 0 and 1 are stdin and stdout in use; the others are free with no table; all start at inode 0 and position 0 |
| Process.PcbAddress | code-os/student-distrib/systemcall.c:563-579 | the PCB of pid `p` sits at the bottom of its 8 KiB kernel stack, below 8 MiB, aligned to 8 KiB |
| Process.PcbBlocksDisjoint | code-os/student-distrib/systemcall.c:303-308 | each pid's stack top lies inside its own block, all blocks sit between 4 MiB and 8 MiB, and two pids' blocks do not overlap |
| Process.SkipSpaces | code-os/student-distrib/systemcall.c:163-166 | skips exactly the run of spaces at the position |
| Process.TokenEnd | code-os/student-distrib/systemcall.c:168-171 | stops at the first space after the position or at the end |
| Process.Name | code-os/student-distrib/systemcall.c:163-171 | the program name has no space and no NUL and is no longer than the command |
| Process.Arg | code-os/student-distrib/systemcall.c:172-179 | the argument has no space and no NUL |
| Process.CopyToken | code-os/student-distrib/systemcall.c:168-179 | copies the token up to the next space into a NUL-padded 32-byte buffer, and says whether it fits |
| Process.ParseCommand | code-os/student-distrib/systemcall.c:163-179 | parsing succeeds exactly when name and argument are each shorter than 32 bytes, and then yields both NUL padded |
| Process.ParseStoresAsWritten | code-os/student-distrib/systemcall.c:168-179 | the four parse loops as written, with no bound on the store index: the k-th byte of the name goes to `cmd[k]` and the k-th byte of the argument to `arg[k]`, so a store lands past the 32-byte buffer exactly when its token is longer than 32 bytes |
| Process.LongNameOverflows | code-os/student-distrib/systemcall.c:168-171 | for a 33-byte name, the unguarded name loop stores to `cmd[32]`, past the buffer, and the guarded parse refuses the line |
| Process.NameBack | code-os/student-distrib/systemcall.c:163-171 | leading spaces, a name, a space and an argument parse back to that name |
| Process.ParseRoundTrip | code-os/student-distrib/systemcall.c:163-179 | a command built from a name and an argument parses back to both |
| Process.GetargsAsWritten | code-os/student-distrib/systemcall.c:489-507 | as written: -1 without an argument; otherwise `strncpy` of `nbytes` bytes, and success judged by `buf[31]` being NUL |
| Process.Getargs | code-os/student-distrib/systemcall.c:489-507 | 0 exactly when there is an argument and it fits in `nbytes` with its NUL, and then the buffer holds it NUL-terminated; on -1 the buffer is untouched |
| Process.GetargsReturnsArgument | code-os/student-distrib/systemcall.c:282 | the argument `execute` stores is the one `getargs` hands back when it fits |
| Process.GetargsAsWrittenMisreports | code-os/student-distrib/systemcall.c:500-506 | with `nbytes` 4 and argument "hello", the as-written copy leaves no terminator yet reports success |
| Process.WriteGuardAdmitsEight | code-os/student-distrib/systemcall.c:445 | the written test admits descriptor 8, one past the eight-entry file array |
| Process.WriteGuardsAgree | code-os/student-distrib/systemcall.c:445 | the written and the corrected tests differ only at 8, and the corrected one admits exactly descriptors 1..7 |
| Process.SetHandler | code-os/student-distrib/systemcall.c:545-547 | `set_handler` returns -1 |
| Process.Sigreturn | code-os/student-distrib/systemcall.c:548-550 | `sigreturn` returns -1 |
| Sessions.ParentIsLive | code-os/student-distrib/systemcall.c:54-102 | under the invariant, the top process's parent is a live pid on the same terminal, or none exactly for a terminal's only process |
| Sessions.PidOnOneTerminal | code-os/student-distrib/systemcall.c:199-249 | a pid is on a terminal's chain exactly when it is used and its PCB names that terminal |
| Sessions.PushTracked | code-os/student-distrib/systemcall.c:229-249 | claiming a free pid and pushing it on the current terminal keeps the invariant |
| Sessions.PushCoverage | code-os/student-distrib/systemcall.c:199-249 | after the push the used pids are still exactly those on some chain |
| Sessions.PopTracked | code-os/student-distrib/systemcall.c:69-102 | freeing the top pid of a terminal with a parent keeps the invariant |
| Sessions.PopCoverage | code-os/student-distrib/systemcall.c:69-102 | after the pop the used pids are still exactly those on some chain |
| Sessions.OnlyOnOwnTerminal | code-os/student-distrib/systemcall.c:229-249 | a pid on one terminal's chain is on no other |
| Sessions.TrackedFrame | code-os/student-distrib/systemcall.c:264-279 | changes that keep every PCB's pid, parent and terminal and every terminal's pid, count and top process (descriptors, saved registers, lines, cursors) keep the invariant |
| Sessions.BootTracked | code-os/student-distrib/terminal.c:128-150 | at boot, with no pid used and empty chains, the invariant holds |
| Sessions.FindFreePid | code-os/student-distrib/systemcall.c:199-208 | returns the lowest free pid, or -1 exactly when all eight are used |
| Sessions.FindFreeFd | code-os/student-distrib/systemcall.c:343-349 | returns the lowest free descriptor in 2..7, or -1 exactly when all are used |
| Sessions.InitFileArray | code-os/student-distrib/systemcall.c:264-279 | the new file array: stdin and stdout in use at 0 and 1, the other six free |
| Sessions.ReleaseFileArray | code-os/student-distrib/systemcall.c:93-96 | `halt` marks every descriptor free and keeps its other fields |
| Console.InitialTerminal | code-os/student-distrib/terminal.c:128-150 | terminal `i` starts empty, with no process, and its shadow page at the `i`th 4 KiB slot |
| Console.Append | code-os/student-distrib/keyboard.c:246-273 | storing a byte puts it at the line index, advances the index by one, sets the Enter flag for a newline and changes nothing else |
| Console.EraseLast | code-os/student-distrib/keyboard.c:141-157 | Backspace on an empty line does nothing; otherwise it clears the last byte, steps back, and erases one cell on screen (four for a tab) |
| Console.TypeThenErase | code-os/student-distrib/keyboard.c:141-157 | typing a byte and then Backspace restores the line, the typed cell being cleared |
| Console.KeyChar | code-os/student-distrib/keyboard.c:42-57 | the table holds ASCII (below 128) |
| Console.TableColumns | code-os/student-distrib/keyboard.c:42-57 | the shifted column of a lower-case letter is its upper case; Enter is the only key giving a newline, and 0x26 the only one giving `l` |
| Console.SpecialStatus | code-os/student-distrib/keyboard.c:99-170 | which scancodes `special_status_key` handles, and for each the modifier it sets or clears; Caps Lock toggles only on the first press of a hold |
| Console.CapsToggledOncePerHold | code-os/student-distrib/keyboard.c:126-134 | pressing Caps Lock with any number of repeats and then releasing it toggles caps once |
| Console.HeldCapsRepeats | code-os/student-distrib/keyboard.c:126-134 | with Caps Lock already held, repeats and a release do not toggle |
| Console.DecodeAsWritten | code-os/student-distrib/keyboard.c:189-273 | the key's action as written: Alt+F1..F3 switch, Control+L clear, out-of-table codes ignored, a printable key stored; when the line holds 127 or more bytes only Enter is stored |
| Console.Decode | code-os/student-distrib/keyboard.c:189-273 | the action with the line bound enforced: nothing is stored on a full line; otherwise it is the as-written action |
| Console.LetterCase | code-os/student-distrib/keyboard.c:246-265 | a letter is stored in upper case exactly when Shift and Caps Lock differ |
| Console.SecondEnterOverflows | code-os/student-distrib/keyboard.c:223-230 | a second Enter on a line already at 128 bytes is stored at index 128 as written, and ignored by the corrected decoder |
| Console.ReadCount | code-os/student-distrib/terminal.c:205-221 | `terminal_read` returns the bytes up to and including the first newline, at most `nbytes` and 128, and 0 for a count not above 0 |
| Console.Delivered | code-os/student-distrib/terminal.c:205-221 | the delivered bytes are a prefix of the line ending in a newline |
| Console.ReadReturnsTypedLine | code-os/student-distrib/terminal.c:194-224 | a typed line followed by Enter is returned whole, with its newline |
| Console.Blanked | code-os/student-distrib/terminal.c:205-221 | the returned bytes are overwritten with spaces in the terminal's line, and the rest kept |
| Console.LoadLine | code-os/student-distrib/terminal.c:201-204 | the line read is the terminal's typed buffer up to the index and the global line copy after it |
| Console.DrainLine | code-os/student-distrib/terminal.c:205-221 | the copy loop returns `ReadCount`, puts the delivered bytes at the head of the buffer, leaves the rest alone, and blanks them in the line |
| Console.DrainedLine | code-os/student-distrib/terminal.c:205-221 | when the copy loop stops after `r` bytes, `r` is `ReadCount`, the buffer holds the delivered bytes and the line is blanked |
| Console.Visible | code-os/student-distrib/terminal.c:232-249 | what is printed has no NUL and is no longer than the buffer |
| Console.VisibleOfString | code-os/student-distrib/terminal.c:232-249 | a buffer with no NUL is printed whole |
| Console.Echo | code-os/student-distrib/terminal.c:232-249 | `terminal_write` prints the buffer's bytes, skipping NULs |
| Console.SwapScreens | code-os/student-distrib/terminal.c:70-89 | the visible page after a switch is the shadow of the terminal switched to |
| Console.SwitchAwayAndBack | code-os/student-distrib/terminal.c:70-89 | switching away and back restores the screen, and the first terminal's shadow then holds that screen |
| Console.TerminalOpen | code-os/student-distrib/terminal.c:257-259 | `terminal_open` returns 0 |
| Console.TerminalClose | code-os/student-distrib/terminal.c:266-268 | `terminal_close` returns -1 |
| Kernel.ImageInodeIsElf | code-os/student-distrib/systemcall.c:184-194 | with the header buffer zero-filled, `execute` accepts an image exactly when name and argument are shorter than 32 bytes, the name has an entry, and that file starts with the four ELF magic bytes; the image is that entry's inode |
| Kernel.HeaderIsMagic | code-os/student-distrib/systemcall.c:188-194 | the test on a zero-filled four-byte header buffer passes exactly for a file whose first four bytes are the ELF magic; a shorter file is then refused |
| Kernel.EntryPointIsHeaderWord | code-os/student-distrib/systemcall.c:286-294 | for an image holding bytes 24..27, the entry point is the little-endian word there |
| Kernel.InitTerminals | code-os/student-distrib/terminal.c:128-150 | the loop builds the three boot terminals |
| Kernel.MakePcb | code-os/student-distrib/systemcall.c:229-308 | the new PCB holds the pid, the parent, the saved return context, the entry point (read into a zero-filled buffer), the argument and the terminal |
| Kernel.LoadImage | code-os/student-distrib/systemcall.c:163-194 | the image is found exactly when `execute`'s checks pass (tokens of 32 bytes or more refused, the header read into a zero-filled buffer), and the stored argument is the parsed one |
| Kernel.CloseVia | code-os/student-distrib/systemcall.c:398 | `close` through each table: stdin and stdout answer -1, the drivers 0, and a slot with no table has no close to call |
| Kernel.ReadVia | code-os/student-distrib/systemcall.c:430 | which driver `read` reaches through each table; none for stdout or no table |
| Kernel.WriteVia | code-os/student-distrib/systemcall.c:459 | which driver `write` reaches through each table; none for stdin or no table |
| Kernel.OpenedCloses | code-os/student-distrib/systemcall.c:349-398 | a descriptor `open` bound to a file of type 0, 1 or 2 closes with 0 |
| Kernel.KernelState.constructor | code-os/student-distrib/paging.c:17-162 | after the modelled boot steps (paging, PIC, terminal and keyboard init): the boot page tables, the PICs with only the cascade and keyboard lines open, the three boot terminals, no pid used, and the invariant |
| Kernel.KernelState.TerminalInit | code-os/student-distrib/terminal.c:128-150 | `terminal_init` resets the three terminals and makes terminal 0 current |
| Kernel.KernelState.KeyboardInit | code-os/student-distrib/keyboard.c:78-87 | `keyboard_init` clears the modifiers and unmasks IRQ 1 only |
| Kernel.KernelState.TopParent | code-os/student-distrib/systemcall.c:229-249 | a new process has no parent exactly when its terminal has no process yet |
| Kernel.KernelState.Execute | code-os/student-distrib/systemcall.c:135-320 | `execute` fails, changing nothing, exactly when the image check fails (including a token of 32 bytes or more) or all pids are used; otherwise it takes the lowest free pid, pushes it on the current terminal with a fresh PCB, remaps the user window, and enters the program at its entry point |
| Kernel.KernelState.Spawn | code-os/student-distrib/systemcall.c:199-308 | the bookkeeping of `execute`: the state becomes the push of the new pid, and its chain grows by it |
| Kernel.KernelState.Halt | code-os/student-distrib/systemcall.c:45-125 | the root process re-enters its program and nothing changes; any other frees its pid and descriptors, gives the terminal, user window and kernel stack back to its parent, pops its chain, and resumes the parent's `execute` with the status |
| Kernel.KernelState.ReturnToParent | code-os/student-distrib/systemcall.c:69-102 | the state change of a non-root `halt`, with the parent live on the same terminal |
| Kernel.KernelState.Caller | code-os/student-distrib/systemcall.c:563-567 | the calling process is the current terminal's top pid |
| Kernel.KernelState.StoreFd | code-os/student-distrib/systemcall.c:349-361 | only the caller's one descriptor changes |
| Kernel.KernelState.Open | code-os/student-distrib/systemcall.c:333-367 | -1, changing nothing, exactly for an empty or unknown name or a full table; otherwise the lowest free of 2..7 is bound to the entry's table and inode at position 0 |
| Kernel.KernelState.Close | code-os/student-distrib/systemcall.c:379-401 | -1, changing nothing, for 0, 1, out-of-range or free descriptors; otherwise the slot is freed and its table's close answers |
| Kernel.KernelState.ReadFile | code-os/student-distrib/systemcall.c:411-432 | `read` on a file descriptor returns `file_read`'s count and bytes and advances the descriptor's position |
| Kernel.KernelState.ReadDirectory | code-os/student-distrib/systemcall.c:411-432 | `read` on a directory descriptor places at most `nbytes` bytes of the next name, keeps the rest of the buffer, returns the name's length capped by `nbytes` and advances the position; past entry 63 it returns 0 and changes nothing |
| Kernel.KernelState.Read | code-os/student-distrib/systemcall.c:411-432 | -1, changing nothing, for stdout, out-of-range or free descriptors, NULL buffers and negative counts; otherwise the table's driver answers, with each driver's count and new state |
| Kernel.KernelState.Write | code-os/student-distrib/systemcall.c:442-460 | -1, changing nothing, for stdin, out-of-range or free descriptors, NULL buffers and negative counts; otherwise the table's driver answers; the clock changes only through the RTC and the screen only through the terminal |
| Kernel.KernelState.TerminalRead | code-os/student-distrib/terminal.c:194-224 | -1 for a NULL buffer; otherwise the typed line up to its first newline (or `nbytes`, or 128 bytes) is returned and blanked, and after a read that delivered something the terminal's Enter flag and index are cleared |
| Kernel.KernelState.EndRead | code-os/student-distrib/terminal.c:205-221 | the state after a read: the blanked global line, the global index taken from the terminal, and the terminal's Enter flag and index cleared when something was delivered |
| Kernel.KernelState.TerminalWrite | code-os/student-distrib/terminal.c:232-249 | -1 for a NULL buffer or a negative count, changing nothing; otherwise the count is returned and every non-NUL byte is printed in order |
| Kernel.KernelState.Getargs | code-os/student-distrib/systemcall.c:489-507 | the caller's argument is handed back as the corrected `Process.Getargs` states: 0 exactly when it exists and fits `nbytes` with its NUL |
| Kernel.KernelState.Vidmap | code-os/student-distrib/systemcall.c:516-543 | -1, changing nothing, for NULL or an address outside 128..132 MiB; otherwise the corrected video mapping is made, and 136 MiB is stored and 0 returned when the stored word fits in the user window, while a pointer in the last three bytes or at 132 MiB ends in a page fault on the store, with the tables already edited |
| Kernel.KernelState.UpdateVideoMemoryPaging | code-os/student-distrib/terminal.c:21-33 | only the kernel's page table changes, its video page redirected to the terminal's shadow |
| Kernel.KernelState.SwitchTerminal | code-os/student-distrib/terminal.c:35-119 | switching to the current terminal does nothing; otherwise the screen moves to the new terminal, and a shell is executed there when it has no process; one EOI is sent unless nothing happened |
| Kernel.KernelState.SwitchAway | code-os/student-distrib/terminal.c:44-119 | the switch proper: the screen moves, and the shell starts exactly when the terminal has no process |
| Kernel.KernelState.SwitchScreen | code-os/student-distrib/terminal.c:44-89 | the EOI, then the screen, cursor and line index of the new terminal |
| Kernel.KernelState.SaveAndRestore | code-os/student-distrib/terminal.c:60-98 | the old terminal's cursor and screen are saved, the new one's restored, and its banner printed when it has no process |
| Kernel.KernelState.EditLine | code-os/student-distrib/keyboard.c:141-265 | only the current terminal's record and the screen change, and the invariant holds |
| Kernel.KernelState.KeyboardHandler | code-os/student-distrib/keyboard.c:180-276 | a modifier key or Backspace updates the modifiers or the line; otherwise the key decoded by the corrected `Decode` (nothing stored on a full line) switches, clears or stores; one EOI ends every path except a switch that entered a new shell |
| Kernel.KernelState.SpecialKey | code-os/student-distrib/keyboard.c:184-188 | a key `special_status_key` handles updates the modifiers or erases, then the EOI |
| Kernel.KernelState.SwitchKey | code-os/student-distrib/keyboard.c:189-208 | Alt+F1..F3 performs the switch, and the handler's EOI follows unless a new shell was entered |
| Kernel.KernelState.OrdinaryKey | code-os/student-distrib/keyboard.c:210-274 | Control+L clears the screen, a stored byte goes into the line and is echoed, anything else does nothing; then the EOI |

## Left out

- Assembly and control registers: loading CR0, CR3 and CR4, TLB flushes, `cli`/`sti`, the IRET into user mode (`process_asm`) and the return into `execute` (`halt_asm`). The model returns these as results (`EnterUser`, `ReenterUser`, `ResumeParent`) and records the page directory, the TSS stack pointer and the current pid as state.
- Busy waits: `rtc_read`'s wait for the next clock interrupt is left out, since interrupts are not modelled. `terminal_read`'s wait for Enter becomes a requirement, on `Kernel.KernelState.Read` and `Kernel.KernelState.TerminalRead`, that the Enter flag be set.
- Port I/O other than the PIC's masks and EOIs, `rtc_init` and `rtc_handler`, the IDT, exception handlers, the PIT and `switch_process`: outside the modelled core. `file_system_init` becomes the file system image, a value given to the kernel.
- Copying the program image into user memory at 0x08048000 is not modelled. `execute` checks the header and takes the entry point from it, and the bytes are left out.
- `putc`, `puts` and `clear` become a trace of screen operations (`ScreenOp`), not character cells in video memory. Video memory and its shadow pages are modelled only as whole pages that a switch swaps.
- The hardware cursor (`get_cursor_position`) and the return context that `execute` saves (ebp/esp) are parameters.
- `Kernel.KernelState.Read`: states each driver's count and new state, and leaves the bytes placed in the buffer to `Kernel.KernelState.ReadFile`, `Kernel.KernelState.ReadDirectory` and `Kernel.KernelState.TerminalRead`.
- `Pic.Controllers.Init`: does not log the initialisation command words or the second pair of 0xFF mask writes; it logs the first pair and the mask `enable_irq(2)` writes, and states the final masks.
- Getargs (`Kernel.KernelState.Getargs`): uses the corrected fit test of `Process.Getargs`, not the written `buf[31]` test (see Findings): with the argument "hello" and `nbytes` 4 the source returns 0 and leaves "hell" without a NUL where the model returns -1 and leaves the buffer alone, and with "hi", `nbytes` 10 and a nonzero `buf[31]` the source returns -1 where the model returns 0. The buffer is a non-null array; a NULL buffer is not modelled.
- KeyboardHandler (`Kernel.KernelState.KeyboardHandler`): decodes with the corrected `Console.Decode` (see Findings): once the line index is 128, a further Enter is ignored, where the source stores it at `buffer[128]`, past the line buffer, and advances the index.
- Execute (`Kernel.KernelState.Execute`): answers `ExecFailed` for a program name or argument of 32 bytes or more (the guarded `Process.ParseCommand`). The source differs in two ways. A 32-byte token fills `cmd` or `arg` with no terminating NUL: a 32-byte argument is accepted and stored unterminated, and a 32-byte name is looked up through an unbounded `strlen(cmd)` that reads past the array. A token of 33 bytes or more makes the unguarded loops write past `cmd` or `arg` (see Findings). It also reads the ELF header and the entry word into zero-filled buffers, where the source's `buf` and `eip_buffer` (systemcall.c:154 and 286) are uninitialised stack arrays, so for an image shorter than 4 or 28 bytes the source compares or loads stale stack bytes that the model takes as zero.
- ImageInodeIsElf (`Kernel.ImageInodeIsElf`): states the header check for a zero-filled header buffer; for a file shorter than four bytes the source compares the magic with uninitialised bytes, which the model takes as zero, so such a file is refused in the model and may be accepted by the source.
- HeaderIsMagic (`Kernel.HeaderIsMagic`): the same zero-filled header buffer; "a shorter file is refused" holds only for it.
- LoadImage (`Kernel.LoadImage`): the checks of `execute` with the guarded parse and the zero-filled header buffer. Tokens of 32 bytes or more are refused, where the source stores a 32-byte token unterminated and writes past the buffer for 33 bytes or more, as under Execute above.
- MakePcb (`Kernel.MakePcb`): the entry word is read into a zero-filled buffer, so for an image shorter than 28 bytes the missing bytes are zero rather than stale stack bytes.
- `Kernel.KernelState.Write`: uses the corrected descriptor bound (below 8), not the written `fd > 8`; see Findings.
- `Kernel.KernelState.Vidmap`: uses the corrected mapping through `user_pte`; see Findings. The inclusive upper bound of 132 MiB is kept as written, and a pointer whose stored word crosses 132 MiB ends in the `VidmapFaulted` outcome. The model stops there: the source's page-fault handler prints a message and spins forever (exception_handler.c is not part of this model).
- `FileSystem.DirectoryRead`: the as-written driver requires a buffer of at least 32 bytes, because a Dafny array cannot be written past its end. The overrun the source performs on a shorter buffer is stated by `FileSystem.DirectoryReadStoresAsWritten`, and the kernel uses `FileSystem.DirectoryReadCorrected`; see Findings.
- `Kernel.KernelState.ReadDirectory` and `Kernel.KernelState.Read`: a directory read copies at most `nbytes` bytes and returns the name's length capped by `nbytes` (the corrected driver); for requests of 32 bytes or more this is the source's behaviour.
- `FileSystem.ReadDentryByIndex`: the written type/inode mix-up is reproduced. `directory_read` uses only the name, which both versions agree on, so the model calls the corrected one.
- Integer widths: the `int32_t` arguments of the system calls are `i32`, and bytes are integers in 0..255. No modelled path wraps around.

## Findings

| source | as written | input that shows it | evidently intended | confidence | as-written member | corrected member |
|---|---|---|---|---|---|---|
| code-os/student-distrib/systemcall.c:445 | `write` rejects `fd > 8`, so descriptor 8 passes and indexes `file_array[8]`, past the eight entries | `write(8, buf, n)` | reject `fd > 7` (or `fd >= 8`), as `read` does | not executed | Process.WriteGuardAdmitsEight | Process.WriteGuardsAgree |
| code-os/student-distrib/systemcall.c:500-506 | `getargs` copies `nbytes` bytes and judges the fit by `buf[31]`, whatever `nbytes` is | argument "hello", `nbytes` 4, zeroed buffer: "hell" without a NUL and a return of 0 | fail when the argument and its NUL do not fit in `nbytes` | not executed | Process.GetargsAsWrittenMisreports | Process.GetargsReturnsArgument |
| code-os/student-distrib/keyboard.c:223-230 | with the line index at 127 or more, Enter is still stored at `buffer[command_idx]` and the index advanced | Enter at index 127, then Enter again: the second is stored at index 128 of a 128-byte buffer | store nothing once the line is full | not executed | Console.SecondEnterOverflows | Console.Decode |
| code-os/student-distrib/systemcall.c:168-179 | the name and argument loops store `cmd[i - cmd_idx]` and `arg[i - arg_idx]` without a bound | a 33-byte program name: the loop stores `cmd[32]` (a 32-byte token stays in bounds but is left without a NUL) | refuse tokens of 32 bytes or more, so that every stored token is NUL terminated | not executed | Process.LongNameOverflows | Process.ParseRoundTrip |
| code-os/student-distrib/systemcall.c:527-535 | `vidmap` writes entry 0 of the kernel's own table `pte` and points directory entry 34 at `pte` | any successful `vidmap`: the kernel's page 0 then maps video memory, and a NULL access no longer faults | use the separate `user_pte` for the user video page | not executed | Paging.VidmapAsWrittenMapsPageZero | Paging.VidmapMapsVideoOnly |
| code-os/student-distrib/systemcall.c:522-540 | the range test accepts `screen_start` up to and including 132 MiB, then stores a 4-byte word through it | `vidmap(0x8400000)`: the store hits directory entry 33, which is never present, and the page-fault handler spins | accept only pointers up to 132 MiB - 4, so the whole word lies in the user window | not executed | Paging.VidmapStoreFaults | Paging.VidmapStoreLands |
| code-os/student-distrib/file_system.c:283 | `directory_read` copies the name with `strncpy(buf, name, 32)` and ignores `nbytes` | `read(fd, buf, 10)` on a directory with a 10-byte buffer: bytes 10..31 are written past it | copy at most `nbytes` bytes and return at most `nbytes` | not executed | FileSystem.DirectoryReadStoresAsWritten | FileSystem.DirectoryReadCorrected |
| code-os/student-distrib/file_system.c:81-82 | `read_dentry_by_index` assigns the inode number to `file_type`, and `inode_number` is never set | an entry of type 2 with inode 5 comes back with type 5 | copy the type to `file_type` and the inode to `inode_number` | not executed | FileSystem.ByIndexLosesType | FileSystem.ByIndexMatchesByName |
