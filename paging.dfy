/** The static paging layout the kernel installs at boot, in the 32-bit
    paging format of section 4.3 of the Intel 64 and IA-32 Architectures
    Software Developer's Manual, Volume 3A: a 1024-entry page directory whose
    entries either map a 4 MiB page (page-size bit set) or point at a
    1024-entry page table of 4 KiB pages. */
module Paging {
  import opened Util

  const ENTRIES := 1024
  const PAGE_4K := 0x1000
  const PAGE_4M := 0x40_0000
  const KERNEL_ADDR := 0x40_0000        // the kernel's own 4 MiB page
  const USER_WINDOW := 0x800_0000       // 128 MiB, the user program's 4 MiB window
  const VIDEO := 0xB8000                // text-mode video memory
  const TERMINAL_VID_BUF := 0xB9000     // three 4 KiB terminal shadow pages follow video memory
  const VIDEO_ALIAS := 0xBC000          // a fourth page mapped back onto video memory

  /** A page-directory entry, reduced to the fields the kernel sets to
      something other than zero. `frame` is bits 31..12 of the address. */
  datatype Pde = Pde(present: bool, readWrite: bool, user: bool, pageSize: bool, frame: int)

  /** A page-table entry, reduced the same way. */
  datatype Pte = Pte(present: bool, readWrite: bool, user: bool, global: bool, accessed: bool, frame: int)

  /** Page-directory entry `i` as `paging_init` leaves it; `pteFrame` is the
      frame of the kernel's page table `pte`, an address fixed at link time. */
  function BootPde(i: int, pteFrame: int): Pde {
    if i == 0 then Pde(true, true, false, false, pteFrame)
    else if i == 1 then Pde(true, true, false, true, KERNEL_ADDR / PAGE_4K)
    else if i == 32 then Pde(true, true, true, true, USER_WINDOW / PAGE_4K)
    else Pde(false, true, false, true, 0)
  }

  /** Page-table entry `i` as the fill loop leaves it: identity frame,
      supervisor, read-write, present (and global) only for video memory. */
  function LoopPte(i: int): Pte {
    Pte(i == VIDEO / PAGE_4K, true, false, i == VIDEO / PAGE_4K, false, i)
  }

  /** Page-table entry `i` after the four patches that follow the loop. */
  function BootPte(i: int): Pte {
    if TERMINAL_VID_BUF / PAGE_4K <= i < VIDEO_ALIAS / PAGE_4K then
      LoopPte(i).(present := true, user := false, accessed := true,
                  frame := (TERMINAL_VID_BUF + (i - TERMINAL_VID_BUF / PAGE_4K) * PAGE_4K) / PAGE_4K)
    else if i == VIDEO_ALIAS / PAGE_4K then
      LoopPte(i).(present := true, user := false, accessed := true, frame := VIDEO / PAGE_4K)
    else LoopPte(i)
  }

  function BootDirectory(pteFrame: int): (d: seq<Pde>)
    ensures |d| == ENTRIES
  {
    seq(ENTRIES, i => BootPde(i, pteFrame))
  }

  function BootTable(): (t: seq<Pte>)
    ensures |t| == ENTRIES
  {
    seq(ENTRIES, i => BootPte(i))
  }

  /** `paging_init`'s fill loop and patches (the control-register sequence
      that turns paging on is hardware only and not modelled). */
  method PagingInit(pde: array<Pde>, pte: array<Pte>, pteFrame: int)
    requires pde.Length == ENTRIES && pte.Length == ENTRIES
    modifies pde, pte
    ensures pde[..] == BootDirectory(pteFrame)
    ensures pte[..] == BootTable()
  {
    var i := 0;
    while i < ENTRIES
      invariant 0 <= i <= ENTRIES
      invariant forall j :: 0 <= j < i ==> pde[j] == BootPde(j, pteFrame)
      invariant forall j :: 0 <= j < i ==> pte[j] == LoopPte(j)
    {
      if i == 0 {
        pde[i] := Pde(true, true, false, false, pteFrame);
      } else if i == 1 {
        pde[i] := Pde(true, true, false, true, KERNEL_ADDR / PAGE_4K);
      } else if i == 32 {
        pde[i] := Pde(true, true, true, true, USER_WINDOW / PAGE_4K);
      } else {
        pde[i] := Pde(false, true, false, true, 0);
      }
      var isVideo := i == VIDEO / PAGE_4K;
      pte[i] := Pte(isVideo, true, false, isVideo, false, i);
      i := i + 1;
    }
    var k := 0;
    while k < 3
      invariant 0 <= k <= 3
      invariant forall j :: 0 <= j < ENTRIES ==> pde[j] == BootPde(j, pteFrame)
      invariant forall j :: 0 <= j < ENTRIES ==>
        pte[j] == if TERMINAL_VID_BUF / PAGE_4K <= j < TERMINAL_VID_BUF / PAGE_4K + k then BootPte(j) else LoopPte(j)
    {
      var t := TERMINAL_VID_BUF / PAGE_4K + k;
      pte[t] := pte[t].(present := true, user := false, accessed := true,
                        frame := (TERMINAL_VID_BUF + k * PAGE_4K) / PAGE_4K);
      k := k + 1;
    }
    var a := VIDEO_ALIAS / PAGE_4K;
    pte[a] := pte[a].(present := true, user := false, accessed := true, frame := VIDEO / PAGE_4K);
    assert pde[..] == BootDirectory(pteFrame);
    assert pte[..] == BootTable();
  }

  /** The outcome of a linear-address walk. */
  datatype Walk = PageFault | Physical(addr: int) | OtherTable(frame: int)

  /** The page tables in memory, by the frame they sit at. */
  predicate TablesOk(tables: map<int, seq<Pte>>) {
    forall f :: f in tables ==> |tables[f]| == ENTRIES
  }

  /** The 32-bit paging walk of a linear address `va` for an access from
      user mode (`fromUser`) or supervisor mode. A 4 MiB entry takes bits
      31..22 from the entry and 21..0 from `va`; a 4 KiB-table entry is
      followed into the table at its frame, when that table is known. */
  function Translate(pd: seq<Pde>, tables: map<int, seq<Pte>>, va: int, fromUser: bool): (w: Walk)
    requires |pd| == ENTRIES && TablesOk(tables) && 0 <= va < 0x1_0000_0000
    ensures w.Physical? ==> pd[va / PAGE_4M].present
    ensures w.Physical? && fromUser ==> pd[va / PAGE_4M].user
  {
    var e := pd[va / PAGE_4M];
    if !e.present || (fromUser && !e.user) then PageFault
    else if e.pageSize then Physical((e.frame / 1024) * PAGE_4M + va % PAGE_4M)
    else if e.frame !in tables then OtherTable(e.frame)
    else
      var p := tables[e.frame][(va / PAGE_4K) % ENTRIES];
      if !p.present || (fromUser && !p.user) then PageFault
      else Physical(p.frame * PAGE_4K + va % PAGE_4K)
  }

  /** The tables right after boot: only the kernel's `pte`. */
  function BootTables(pteFrame: int): (t: map<int, seq<Pte>>)
    ensures TablesOk(t)
  {
    map[pteFrame := BootTable()]
  }

  /** The 4 MiB kernel page is identity-mapped for the kernel and closed
      to user mode. */
  lemma BootKernelPage(pteFrame: int, va: int)
    requires KERNEL_ADDR <= va < KERNEL_ADDR + PAGE_4M
    ensures Translate(BootDirectory(pteFrame), BootTables(pteFrame), va, false) == Physical(va)
    ensures Translate(BootDirectory(pteFrame), BootTables(pteFrame), va, true) == PageFault
  {
    assert va / PAGE_4M == 1;
  }

  /** Page 0 is not present, so a null dereference traps. */
  lemma BootNullPageTraps(pteFrame: int, va: int, fromUser: bool)
    requires 0 <= va < PAGE_4K
    ensures Translate(BootDirectory(pteFrame), BootTables(pteFrame), va, fromUser) == PageFault
  {
    assert va / PAGE_4M == 0 && va / PAGE_4K == 0;
  }

  /** In the first 4 MiB, exactly video memory, the three shadow pages and
      the alias page are mapped, all for the kernel only; the alias page
      reaches video memory. */
  lemma BootLowMemory(pteFrame: int, va: int)
    requires 0 <= va < PAGE_4M
    ensures Translate(BootDirectory(pteFrame), BootTables(pteFrame), va, true) == PageFault
    ensures VIDEO <= va < VIDEO_ALIAS ==>
      Translate(BootDirectory(pteFrame), BootTables(pteFrame), va, false) == Physical(va)
    ensures VIDEO_ALIAS <= va < VIDEO_ALIAS + PAGE_4K ==>
      Translate(BootDirectory(pteFrame), BootTables(pteFrame), va, false) == Physical(va - (VIDEO_ALIAS - VIDEO))
    ensures !(VIDEO <= va < VIDEO_ALIAS + PAGE_4K) ==>
      Translate(BootDirectory(pteFrame), BootTables(pteFrame), va, false) == PageFault
  {
    var n := va / PAGE_4K;
    assert va / PAGE_4M == 0;
    assert (va / PAGE_4K) % ENTRIES == n;
    assert n * PAGE_4K <= va < n * PAGE_4K + PAGE_4K;
    assert VIDEO <= va < VIDEO_ALIAS + PAGE_4K <==> VIDEO / PAGE_4K <= n <= VIDEO_ALIAS / PAGE_4K;
  }

  /** Every 4 MiB region other than the first, the kernel page and the
      user window is unmapped. */
  lemma BootUnmappedElsewhere(pteFrame: int, va: int, fromUser: bool)
    requires 0 <= va < 0x1_0000_0000
    requires va / PAGE_4M != 0 && va / PAGE_4M != 1 && va / PAGE_4M != 32
    ensures Translate(BootDirectory(pteFrame), BootTables(pteFrame), va, fromUser) == PageFault
  {
  }

  /** Frame of the 4 MiB physical page that backs the user window of
      process `pid`: physical `(2 + pid) * 4 MiB`. */
  function UserFrame(pid: int): int {
    ((2 + pid) * PAGE_4M) / PAGE_4K
  }

  /** The directory `execute`/`halt` leave behind: entry 32 rewritten to
      `UserFrame(pid)`, everything else as before. */
  function Remap(pd: seq<Pde>, pid: int): (r: seq<Pde>)
    requires |pd| == ENTRIES
    ensures |r| == ENTRIES
  {
    pd[32 := pd[32].(frame := UserFrame(pid))]
  }

  /** After the remap for `pid`, the user window's byte `off` is physical
      `(2 + pid) * 4 MiB + off`, from user mode as from the kernel. */
  lemma UserWindowAfterRemap(pteFrame: int, pid: nat, off: int, fromUser: bool)
    requires pid < 8 && 0 <= off < PAGE_4M
    ensures Translate(Remap(BootDirectory(pteFrame), pid), BootTables(pteFrame), USER_WINDOW + off, fromUser)
            == Physical((2 + pid) * PAGE_4M + off)
  {
    assert (USER_WINDOW + off) / PAGE_4M == 32;
    assert (USER_WINDOW + off) % PAGE_4M == off;
    assert UserFrame(pid) / 1024 == 2 + pid;
  }

  /** Distinct pids' user windows land in disjoint physical ranges, all of
      them above the kernel's 8 MiB. */
  lemma {:induction false} UserWindowsDisjoint(pteFrame: int, p: nat, q: nat, a: int, b: int)
    requires p < 8 && q < 8 && p != q
    requires 0 <= a < PAGE_4M && 0 <= b < PAGE_4M
    ensures Translate(Remap(BootDirectory(pteFrame), p), BootTables(pteFrame), USER_WINDOW + a, true)
         != Translate(Remap(BootDirectory(pteFrame), q), BootTables(pteFrame), USER_WINDOW + b, true)
    ensures Translate(Remap(BootDirectory(pteFrame), p), BootTables(pteFrame), USER_WINDOW + a, true).addr
         >= 2 * PAGE_4M
  {
    UserWindowAfterRemap(pteFrame, p, a, true);
    UserWindowAfterRemap(pteFrame, q, b, true);
    if p < q {
      assert (2 + p) * PAGE_4M + a < (2 + q) * PAGE_4M;
    } else {
      assert (2 + q) * PAGE_4M + b < (2 + p) * PAGE_4M;
    }
  }

  // ---- later edits of the tables ----

  const VIDMAP_PDE := (USER_WINDOW + 2 * PAGE_4M) / PAGE_4M   // entry 34: virtual 136 MiB
  const VIDMAP_ADDR := USER_WINDOW + 2 * PAGE_4M

  /** `update_video_memory_paging`: PTE 0xB8 now names the shadow page of
      terminal `n`. */
  function RedirectVideo(pt: seq<Pte>, n: int): (r: seq<Pte>)
    requires |pt| == ENTRIES
    ensures |r| == ENTRIES
  {
    pt[VIDEO / PAGE_4K := pt[VIDEO / PAGE_4K].(frame := VIDEO / PAGE_4K + 1 + n)]
  }

  /** Kernel accesses to video memory then reach terminal `n`'s shadow
      page. */
  lemma RedirectedVideo(pteFrame: int, n: nat, off: int)
    requires n < 3 && 0 <= off < PAGE_4K
    ensures Translate(BootDirectory(pteFrame), map[pteFrame := RedirectVideo(BootTable(), n)], VIDEO + off, false)
            == Physical(TERMINAL_VID_BUF + n * PAGE_4K + off)
  {
    assert (VIDEO + off) / PAGE_4M == 0;
    assert (VIDEO + off) / PAGE_4K == VIDEO / PAGE_4K;
    assert (VIDEO + off) % PAGE_4K == off;
  }

  /** The last address `vidmap` accepts, 132 MiB, lies just past the user
      window and is not mapped after any remap: the pointer it stores
      through would fault. */
  lemma WindowEndUnmapped(pteFrame: int, pid: nat, fromUser: bool)
    ensures Translate(Remap(BootDirectory(pteFrame), pid), BootTables(pteFrame), USER_WINDOW + PAGE_4M, fromUser)
            == PageFault
  {
    assert (USER_WINDOW + PAGE_4M) / PAGE_4M == 33;
  }

  /** `vidmap` as written: it edits entry 0 of the kernel's own table `pte`
      and points directory entry 34 at that table. */
  function VidmapAsWritten(pd: seq<Pde>, pt: seq<Pte>, pteFrame: int): (r: (seq<Pde>, seq<Pte>))
    requires |pd| == ENTRIES && |pt| == ENTRIES
    ensures |r.0| == ENTRIES && |r.1| == ENTRIES
  {
    (pd[VIDMAP_PDE := pd[VIDMAP_PDE].(present := true, pageSize := false, user := true, frame := pteFrame)],
     pt[0 := pt[0].(present := true, user := true, frame := VIDEO / PAGE_4K)])
  }

  /** As written, the kernel's page 0 becomes present: after a `vidmap`, a
      kernel null dereference reads video memory instead of trapping
      (compare `BootNullPageTraps`). */
  lemma VidmapAsWrittenMapsPageZero(pteFrame: int, off: int)
    requires 0 <= off < PAGE_4K
    ensures var r := VidmapAsWritten(BootDirectory(pteFrame), BootTable(), pteFrame);
      Translate(r.0, map[pteFrame := r.1], off, false) == Physical(VIDEO + off)
  {
    assert off / PAGE_4M == 0 && off / PAGE_4K == 0 && off % PAGE_4K == off;
  }

  /** The evident intent: the video page goes into the separate table
      `user_pte` (declared beside `pte` and otherwise unused), which
      directory entry 34 points at. */
  function Vidmap(pd: seq<Pde>, upt: seq<Pte>, userPteFrame: int): (r: (seq<Pde>, seq<Pte>))
    requires |pd| == ENTRIES && |upt| == ENTRIES
    ensures |r.0| == ENTRIES && |r.1| == ENTRIES
  {
    (pd[VIDMAP_PDE := pd[VIDMAP_PDE].(present := true, pageSize := false, user := true, frame := userPteFrame)],
     upt[0 := upt[0].(present := true, user := true, frame := VIDEO / PAGE_4K)])
  }

  /** With the corrected `vidmap`, user code reaches video memory through
      the page at 136 MiB, and page 0 still traps. */
  lemma VidmapMapsVideoOnly(pteFrame: int, userPteFrame: int, upt: seq<Pte>, off: int, fromUser: bool)
    requires pteFrame != userPteFrame && |upt| == ENTRIES && 0 <= off < PAGE_4K
    ensures var r := Vidmap(BootDirectory(pteFrame), upt, userPteFrame);
      var tables := map[pteFrame := BootTable(), userPteFrame := r.1];
      Translate(r.0, tables, VIDMAP_ADDR + off, fromUser) == Physical(VIDEO + off)
      && Translate(r.0, tables, off, fromUser) == PageFault
  {
    assert (VIDMAP_ADDR + off) / PAGE_4M == VIDMAP_PDE;
    assert ((VIDMAP_ADDR + off) / PAGE_4K) % ENTRIES == 0;
    assert (VIDMAP_ADDR + off) % PAGE_4K == off;
    assert off / PAGE_4M == 0 && off / PAGE_4K == 0;
  }

  // ---- the word `vidmap` stores through the caller's pointer ----

  /** `vidmap`'s range test as written: 128 MiB up to and including
      132 MiB. */
  predicate VidmapPointerAsWritten(p: int) {
    !(p < USER_WINDOW || USER_WINDOW + PAGE_4M < p)
  }

  /** The evidently intended test: the whole 4-byte word stored through
      the pointer lies inside the user window. */
  predicate VidmapPointerFits(p: int) {
    USER_WINDOW <= p <= USER_WINDOW + PAGE_4M - 4
  }

  /** As written, a pointer the test accepts past the last whole word of
      the window has a byte of the stored word at 132 MiB, and that byte
      faults even after the remap and the `vidmap` edit, for the kernel as
      for user code (compare `WindowEndUnmapped`). */
  lemma VidmapStoreFaults(pteFrame: int, userPteFrame: int, upt: seq<Pte>, pid: nat, p: int, fromUser: bool)
    requires |upt| == ENTRIES
    requires VidmapPointerAsWritten(p) && !VidmapPointerFits(p)
    ensures p <= USER_WINDOW + PAGE_4M < p + 4
    ensures var r := Vidmap(Remap(BootDirectory(pteFrame), pid), upt, userPteFrame);
      Translate(r.0, map[pteFrame := BootTable(), userPteFrame := r.1], USER_WINDOW + PAGE_4M, fromUser)
      == PageFault
  {
    assert (USER_WINDOW + PAGE_4M) / PAGE_4M == 33;
  }

  /** With the intended test, every byte of the stored word lies in the
      user window and reaches the running process's physical page. */
  lemma VidmapStoreLands(pteFrame: int, userPteFrame: int, upt: seq<Pte>, pid: nat, p: int, k: int, fromUser: bool)
    requires |upt| == ENTRIES && pid < 8
    requires VidmapPointerFits(p) && 0 <= k < 4
    ensures var r := Vidmap(Remap(BootDirectory(pteFrame), pid), upt, userPteFrame);
      Translate(r.0, map[pteFrame := BootTable(), userPteFrame := r.1], p + k, fromUser)
      == Physical((2 + pid) * PAGE_4M + (p - USER_WINDOW) + k)
  {
    var off := p - USER_WINDOW + k;
    assert 0 <= off < PAGE_4M;
    assert (USER_WINDOW + off) / PAGE_4M == 32;
    assert (USER_WINDOW + off) % PAGE_4M == off;
    assert UserFrame(pid) / 1024 == 2 + pid;
  }
}
