/** The read-only file-system image: a 4 KiB boot block (three counts, 52
    reserved bytes and 63 directory entries of 64 bytes), then the inodes
    (a length and 1023 data-block numbers each), then the 4 KiB data
    blocks. The image is a value here; the kernel only reads it. */
module FileSystem {
  import opened Util

  const MAX_FILES := 63
  const MAX_FILE_NAME := 32
  const BLOCK_SIZE := 4096
  const MAX_DATA_BLOCKS := (BLOCK_SIZE - 4) / 4   // 1023 block numbers per inode

  const RTC_FILE_TYPE := 0
  const DIRECTORY_FILE_TYPE := 1
  const REGULAR_FILE_TYPE := 2

  /** A directory entry: a 32-byte name that need not hold a NUL, a type
      and an inode number (the 24 reserved bytes are not modelled). */
  datatype Dentry = Dentry(name: seq<byte>, fileType: u32, inode: u32)

  datatype Inode = Inode(length: u32, blocks: seq<u32>)

  datatype FsImage = FsImage(
    dirCount: u32, inodeCount: u32, dataBlockCount: u32,
    entries: seq<Dentry>, inodes: seq<Inode>, dataBlocks: seq<seq<byte>>)
  {
    predicate Valid() {
      && |entries| == MAX_FILES
      && (forall i :: 0 <= i < |entries| ==> |entries[i].name| == MAX_FILE_NAME)
      && |inodes| == inodeCount
      && (forall i :: 0 <= i < |inodes| ==>
            |inodes[i].blocks| == MAX_DATA_BLOCKS && inodes[i].length <= MAX_DATA_BLOCKS * BLOCK_SIZE)
      && |dataBlocks| == dataBlockCount
      && (forall i :: 0 <= i < |dataBlocks| ==> |dataBlocks[i]| == BLOCK_SIZE)
    }
  }

  /** The little-endian bytes of a run of 32-bit words. */
  function Words(ws: seq<u32>): (b: seq<byte>)
    ensures |b| == 4 * |ws|
  {
    if ws == [] then [] else Le32Bytes(ws[0]) + Words(ws[1..])
  }

  /** A 64-byte directory entry read from raw bytes. */
  function DecodeDentry(b: seq<byte>): (d: Dentry)
    requires |b| == 64
    ensures |d.name| == MAX_FILE_NAME
  {
    Dentry(b[..32], Le32(b[32..36]), Le32(b[36..40]))
  }

  /** The 64 bytes right after the boot block: the head of inode 0, or the
      head of data block 0 when there are no inodes. Bytes past an image
      with neither are unknown and are taken to be zero. */
  function AfterBootBlock(fs: FsImage): (b: seq<byte>)
    requires fs.Valid()
    ensures |b| == 64
  {
    if |fs.inodes| > 0 then Words([fs.inodes[0].length] + fs.inodes[0].blocks[..15])
    else if |fs.dataBlocks| > 0 then fs.dataBlocks[0][..64]
    else Zeros(64)
  }

  /** `boot_block_ptr->dir_entries[i]` for i in 0..63. Index 63 is one past
      the 63-entry array and reads the bytes after the boot block. */
  function EntryAt(fs: FsImage, i: nat): (d: Dentry)
    requires fs.Valid() && i <= MAX_FILES
    ensures |d.name| == MAX_FILE_NAME
    ensures i < MAX_FILES ==> d == fs.entries[i]
    ensures i == MAX_FILES ==> d == DecodeDentry(AfterBootBlock(fs))
  {
    if i < MAX_FILES then fs.entries[i] else DecodeDentry(AfterBootBlock(fs))
  }

  /** The name test of `read_dentry_by_name`: lengths (the entry's capped
      at 32) equal, and `strncmp` over 32 bytes finds no difference. */
  predicate NameMatches(d: Dentry, fname: seq<byte>)
    requires |d.name| == MAX_FILE_NAME
  {
    CStrLen(d.name) == |fname| && d.name[..|fname|] == fname
  }

  /** The first entry at index `from` or later (up to 63) that matches. */
  function LookupFrom(fs: FsImage, fname: seq<byte>, from: nat): (r: Option<nat>)
    requires fs.Valid() && from <= MAX_FILES + 1
    ensures r.Some? ==> from <= r.value <= MAX_FILES && NameMatches(EntryAt(fs, r.value), fname)
    ensures r.Some? ==> forall j :: from <= j < r.value ==> !NameMatches(EntryAt(fs, j), fname)
    ensures r.None? ==> forall j :: from <= j <= MAX_FILES ==> !NameMatches(EntryAt(fs, j), fname)
    decreases MAX_FILES + 1 - from
  {
    if from > MAX_FILES then None
    else if NameMatches(EntryAt(fs, from), fname) then Some(from)
    else LookupFrom(fs, fname, from + 1)
  }

  function Lookup(fs: FsImage, fname: seq<byte>): Option<nat>
    requires fs.Valid()
  {
    LookupFrom(fs, fname, 0)
  }

  /** `read_dentry_by_name`. `fname` is the string before its NUL; `d` is
      the caller's dentry, returned as the call leaves it. */
  method ReadDentryByName(fs: FsImage, fname: seq<byte>, d: Dentry) returns (r: int, d': Dentry)
    requires fs.Valid() && NoNul(fname)
    ensures |fname| > MAX_FILE_NAME ==> r == -1 && d' == d
    ensures r == 0 || r == -1
    ensures r == 0 <==> |fname| <= MAX_FILE_NAME && Lookup(fs, fname).Some?
    ensures r == -1 ==> d' == d
    ensures r == 0 ==> (
      var e := EntryAt(fs, Lookup(fs, fname).value);
      d' == Dentry(Pad(fname, MAX_FILE_NAME), e.fileType, e.inode)
      && CStrLen(d'.name) == CStrLen(e.name) && d'.name[..|fname|] == e.name[..|fname|])
  {
    if |fname| > MAX_FILE_NAME {
      return -1, d;
    }
    var i := 0;
    while i < MAX_FILES + 1
      invariant 0 <= i <= MAX_FILES + 1
      invariant LookupFrom(fs, fname, 0) == LookupFrom(fs, fname, i)
    {
      var e := EntryAt(fs, i);
      var len := CStrLen(e.name);
      if len == |fname| && e.name[..len] == fname {
        if |fname| < MAX_FILE_NAME {
          PadThenStrLen(fname, MAX_FILE_NAME);
        }
        return 0, Dentry(Pad(fname, MAX_FILE_NAME), e.fileType, e.inode);
      }
      i := i + 1;
    }
    return -1, d;
  }

  /** `read_dentry_by_index` as written: fails exactly for an index past 63;
      otherwise copies the name and then overwrites `file_type` with the
      entry's inode number, leaving the caller's `inode_number` as it was. */
  function ReadDentryByIndex(fs: FsImage, index: u32, d: Dentry): (res: (int, Dentry))
    requires fs.Valid()
    ensures res.0 == -1 <==> index > MAX_FILES
    ensures res.0 == -1 ==> res.1 == d
    ensures res.0 == 0 ==> res.1.name == StrNCpy(EntryAt(fs, index).name, MAX_FILE_NAME)
    ensures res.0 == 0 ==> res.1.fileType == EntryAt(fs, index).inode && res.1.inode == d.inode
  {
    if index > MAX_FILES then (-1, d)
    else
      var e := EntryAt(fs, index);
      (0, d.(name := StrNCpy(e.name, MAX_FILE_NAME), fileType := e.fileType).(fileType := e.inode))
  }

  /** The evidently intended `read_dentry_by_index`: type and inode both
      copied from the entry. */
  function ReadDentryByIndexCorrected(fs: FsImage, index: u32, d: Dentry): (res: (int, Dentry))
    requires fs.Valid()
    ensures res.0 == -1 <==> index > MAX_FILES
    ensures res.0 == -1 ==> res.1 == d
    ensures res.0 == 0 ==>
      res.1 == Dentry(StrNCpy(EntryAt(fs, index).name, MAX_FILE_NAME), EntryAt(fs, index).fileType, EntryAt(fs, index).inode)
  {
    if index > MAX_FILES then (-1, d)
    else
      var e := EntryAt(fs, index);
      (0, Dentry(StrNCpy(e.name, MAX_FILE_NAME), e.fileType, e.inode))
  }

  /** As written, an entry whose type differs from its inode number comes
      back with the wrong type, and the caller's inode field is kept. */
  lemma ByIndexLosesType(fs: FsImage, index: u32, d: Dentry)
    requires fs.Valid() && index <= MAX_FILES
    requires EntryAt(fs, index).fileType != EntryAt(fs, index).inode
    ensures ReadDentryByIndex(fs, index, d).1.fileType != EntryAt(fs, index).fileType
    ensures ReadDentryByIndex(fs, index, d).1.fileType != ReadDentryByIndexCorrected(fs, index, d).1.fileType
  {
  }

  /** Both versions agree on the status and the name, which is all that
      `directory_read` uses. */
  lemma ByIndexNamesAgree(fs: FsImage, index: u32, d: Dentry)
    requires fs.Valid()
    ensures ReadDentryByIndex(fs, index, d).0 == ReadDentryByIndexCorrected(fs, index, d).0
    ensures ReadDentryByIndex(fs, index, d).1.name == ReadDentryByIndexCorrected(fs, index, d).1.name
  {
  }

  /** The corrected lookup by index finds what the lookup by name finds,
      for a name that entry `index` spells and no earlier entry does. */
  lemma {:induction false} ByIndexMatchesByName(fs: FsImage, fname: seq<byte>, d: Dentry)
    requires fs.Valid() && NoNul(fname) && |fname| <= MAX_FILE_NAME && Lookup(fs, fname).Some?
    ensures
      var i := Lookup(fs, fname).value;
      var e := ReadDentryByIndexCorrected(fs, i as u32, d).1;
      e.fileType == EntryAt(fs, i).fileType && e.inode == EntryAt(fs, i).inode
      && CStrLen(e.name) == |fname| && e.name[..|fname|] == fname
  {
    var i := Lookup(fs, fname).value;
    var en := EntryAt(fs, i).name;
    var c := StrNCpy(en, MAX_FILE_NAME);
    assert c[..|fname|] == en[..|fname|];
    if |fname| < MAX_FILE_NAME {
      assert c[|fname|] == NUL;
    }
  }

  // ---- read_data ----

  /** The inode exists and `pos` lies inside its file. */
  predicate InFile(fs: FsImage, ino: nat, pos: nat) {
    fs.Valid() && ino < |fs.inodes| && pos < fs.inodes[ino].length
  }

  /** The block number that holds file byte `pos` names an existing block. */
  predicate BlockOk(fs: FsImage, ino: nat, pos: nat)
    requires InFile(fs, ino, pos)
  {
    fs.inodes[ino].blocks[pos / BLOCK_SIZE] < fs.dataBlockCount
  }

  /** File byte `pos`: byte `pos % 4096` of block `blocks[pos / 4096]`. */
  function FileByte(fs: FsImage, ino: nat, pos: nat): byte
    requires InFile(fs, ino, pos) && BlockOk(fs, ino, pos)
  {
    fs.dataBlocks[fs.inodes[ino].blocks[pos / BLOCK_SIZE]][pos % BLOCK_SIZE]
  }

  predicate AllBlocksOk(fs: FsImage, ino: nat, offset: nat, n: nat)
    requires fs.Valid() && ino < |fs.inodes| && offset + n <= fs.inodes[ino].length
  {
    forall p :: offset <= p < offset + n ==> BlockOk(fs, ino, p)
  }

  /** The `n` file bytes from `offset` on. */
  function FileBytes(fs: FsImage, ino: nat, offset: nat, n: nat): (b: seq<byte>)
    requires fs.Valid() && ino < |fs.inodes| && offset + n <= fs.inodes[ino].length
    requires AllBlocksOk(fs, ino, offset, n)
    ensures |b| == n
    ensures forall j :: 0 <= j < n ==> b[j] == FileByte(fs, ino, offset + j)
  {
    if n == 0 then [] else FileBytes(fs, ino, offset, n - 1) + [FileByte(fs, ino, offset + n - 1)]
  }

  /** How many bytes a read of `length` bytes at `offset` covers. */
  function ReadLen(fs: FsImage, ino: nat, offset: nat, length: nat): (n: nat)
    requires fs.Valid() && ino < |fs.inodes| && offset < fs.inodes[ino].length
    ensures n <= length && offset + n <= fs.inodes[ino].length
    ensures n == length || offset + n == fs.inodes[ino].length
  {
    Min(length, fs.inodes[ino].length - offset)
  }

  /** The first j in [from, n) whose block number is out of range. */
  function FirstBadFrom(fs: FsImage, ino: nat, offset: nat, n: nat, from: nat): (k: Option<nat>)
    requires fs.Valid() && ino < |fs.inodes| && offset + n <= fs.inodes[ino].length && from <= n
    ensures k.Some? ==> from <= k.value < n && !BlockOk(fs, ino, offset + k.value)
    ensures k.Some? ==> forall p :: offset + from <= p < offset + k.value ==> BlockOk(fs, ino, p)
    ensures k.None? ==> forall p :: offset + from <= p < offset + n ==> BlockOk(fs, ino, p)
    decreases n - from
  {
    if from == n then None
    else if !BlockOk(fs, ino, offset + from) then Some(from)
    else FirstBadFrom(fs, ino, offset, n, from + 1)
  }

  /** Block index and in-block offset kept side by side name file byte
      `x`. */
  lemma SplitPosition(blockIndex: int, byteOffset: int, x: int)
    requires blockIndex * BLOCK_SIZE + byteOffset == x && 0 <= byteOffset < BLOCK_SIZE
    ensures blockIndex == x / BLOCK_SIZE && byteOffset == x % BLOCK_SIZE
  {
  }

  /** Block index and in-block offset kept side by side locate file byte
      `pos`: its block number and, when that block exists, the byte. */
  lemma ByteAt(fs: FsImage, ino: nat, pos: nat, blockIndex: int, byteOffset: int)
    requires InFile(fs, ino, pos)
    requires blockIndex * BLOCK_SIZE + byteOffset == pos && 0 <= byteOffset < BLOCK_SIZE
    ensures 0 <= blockIndex < MAX_DATA_BLOCKS
    ensures BlockOk(fs, ino, pos) <==> fs.inodes[ino].blocks[blockIndex] < fs.dataBlockCount
    ensures BlockOk(fs, ino, pos) ==>
      FileByte(fs, ino, pos) == fs.dataBlocks[fs.inodes[ino].blocks[blockIndex]][byteOffset]
  {
    SplitPosition(blockIndex, byteOffset, pos);
  }

  /** With every block good between `from` and `i`, the search for a bad
      one may as well start at `i`. */
  lemma {:induction false} NoBadBefore(fs: FsImage, ino: nat, offset: nat, n: nat, from: nat, i: nat)
    requires fs.Valid() && ino < |fs.inodes| && offset + n <= fs.inodes[ino].length && from <= i <= n
    requires forall p :: offset + from <= p < offset + i ==> BlockOk(fs, ino, p)
    ensures FirstBadFrom(fs, ino, offset, n, from) == FirstBadFrom(fs, ino, offset, n, i)
    decreases i - from
  {
    if from < i {
      NoBadBefore(fs, ino, offset, n, from + 1, i);
    }
  }

  /** A buffer whose first `i` bytes are file bytes and whose other bytes
      are those of `before` holds `FileBytes` followed by the rest of
      `before`. */
  lemma PrefixIsFileBytes(fs: FsImage, ino: nat, offset: nat, s: seq<byte>, before: seq<byte>, i: nat)
    requires fs.Valid() && ino < |fs.inodes| && offset + i <= fs.inodes[ino].length && i <= |s| == |before|
    requires AllBlocksOk(fs, ino, offset, i)
    requires forall j :: 0 <= j < i ==> s[j] == FileByte(fs, ino, offset + j)
    requires forall j :: i <= j < |s| ==> s[j] == before[j]
    ensures s[..i] == FileBytes(fs, ino, offset, i) && s[i..] == before[i..]
  {
  }

  /** `read_data`: copies file bytes into `buf` one at a time, stepping the
      block index each time the in-block offset reaches 4096. */
  method ReadData(fs: FsImage, inode: u32, offset: u32, buf: array<byte>, length: u32) returns (r: int)
    requires fs.Valid() && buf.Length >= length
    modifies buf
    ensures inode >= fs.inodeCount ==> r == -1 && buf[..] == old(buf[..])
    ensures inode < fs.inodeCount && offset >= fs.inodes[inode].length ==> r == 0 && buf[..] == old(buf[..])
    ensures inode < fs.inodeCount && offset < fs.inodes[inode].length ==>
      var n := ReadLen(fs, inode, offset, length);
      match FirstBadFrom(fs, inode, offset, n, 0)
      case None =>
        r == n && buf[..n] == FileBytes(fs, inode, offset, n) && buf[n..] == old(buf[n..])
      case Some(k) =>
        r == -1 && buf[..k] == FileBytes(fs, inode, offset, k) && buf[k..] == old(buf[k..])
  {
    var blockIndex := offset / BLOCK_SIZE;
    var byteOffset := offset % BLOCK_SIZE;
    var count := 0;
    if inode >= fs.inodeCount {
      return -1;
    }
    var node := fs.inodes[inode];
    if offset >= node.length {
      return 0;
    }
    ghost var before := buf[..];
    ghost var n := ReadLen(fs, inode, offset, length);
    var i := 0;
    while i < length
      invariant 0 <= i <= n && count == i
      invariant blockIndex * BLOCK_SIZE + byteOffset == offset + i && 0 <= byteOffset <= BLOCK_SIZE
      invariant AllBlocksOk(fs, inode, offset, i)
      invariant forall j :: 0 <= j < i ==> buf[j] == FileByte(fs, inode, offset + j)
      invariant forall j :: i <= j < buf.Length ==> buf[j] == before[j]
    {
      if i + offset < node.length {
        if byteOffset >= BLOCK_SIZE {
          byteOffset := 0;
          blockIndex := blockIndex + 1;
        }
        ByteAt(fs, inode, offset + i, blockIndex, byteOffset);
        if fs.dataBlockCount <= node.blocks[blockIndex] {
          NoBadBefore(fs, inode, offset, n, 0, i);
          PrefixIsFileBytes(fs, inode, offset, buf[..], before, i);
          return -1;
        }
        buf[i] := fs.dataBlocks[node.blocks[blockIndex]][byteOffset];
        count := count + 1;
        byteOffset := byteOffset + 1;
        i := i + 1;
      } else {
        NoBadBefore(fs, inode, offset, n, 0, n);
        PrefixIsFileBytes(fs, inode, offset, buf[..], before, n);
        return count;
      }
    }
    NoBadBefore(fs, inode, offset, n, 0, n);
    PrefixIsFileBytes(fs, inode, offset, buf[..], before, n);
    return count;
  }

  /** Reading `a` bytes and then `b` more from where the first read ended
      yields the same bytes as one read of `a + b`. */
  lemma {:induction false} ConsecutiveBytes(fs: FsImage, ino: nat, offset: nat, a: nat, b: nat)
    requires fs.Valid() && ino < |fs.inodes| && offset + a + b <= fs.inodes[ino].length
    requires AllBlocksOk(fs, ino, offset, a + b)
    ensures AllBlocksOk(fs, ino, offset, a) && AllBlocksOk(fs, ino, offset + a, b)
    ensures FileBytes(fs, ino, offset, a) + FileBytes(fs, ino, offset + a, b) == FileBytes(fs, ino, offset, a + b)
  {
    var lhs := FileBytes(fs, ino, offset, a) + FileBytes(fs, ino, offset + a, b);
    var rhs := FileBytes(fs, ino, offset, a + b);
    forall j | 0 <= j < a + b
      ensures lhs[j] == rhs[j]
    {
      if j >= a {
        assert lhs[j] == FileBytes(fs, ino, offset + a, b)[j - a];
        assert offset + a + (j - a) == offset + j;
      }
    }
  }

  /** What `read_data` returns and leaves in a zero-filled buffer of `n`
      bytes: the file bytes it copied, zeros after them. */
  function ReadZeroed(fs: FsImage, inode: u32, offset: u32, n: u32): (res: (int, seq<byte>))
    requires fs.Valid()
    ensures |res.1| == n
    ensures res.0 == -1 || 0 <= res.0 <= n
    ensures inode >= fs.inodeCount ==> res == (-1, Zeros(n))
    ensures inode < fs.inodeCount && offset >= fs.inodes[inode].length ==> res == (0, Zeros(n))
    ensures res.0 > 0 ==> (inode < fs.inodeCount && offset + res.0 <= fs.inodes[inode].length
      && AllBlocksOk(fs, inode, offset, res.0) && res.1 == FileBytes(fs, inode, offset, res.0) + Zeros(n - res.0))
  {
    if inode >= fs.inodeCount then (-1, Zeros(n))
    else if offset >= fs.inodes[inode].length then (0, Zeros(n))
    else
      var k := ReadLen(fs, inode, offset, n);
      match FirstBadFrom(fs, inode, offset, k, 0)
      case Some(b) => (-1, FileBytes(fs, inode, offset, b) + Zeros(n - b))
      case None => (k, FileBytes(fs, inode, offset, k) + Zeros(n - k))
  }

  /** `read_data` into a freshly zeroed buffer, as `execute` uses it for the
      header and the entry point. */
  method ReadIntoZeroed(fs: FsImage, inode: u32, offset: u32, n: u32) returns (r: int, b: seq<byte>)
    requires fs.Valid()
    ensures (r, b) == ReadZeroed(fs, inode, offset, n)
  {
    var buf := new byte[n](_ => NUL);
    assert buf[..] == Zeros(n);
    r := ReadData(fs, inode, offset, buf, n);
    b := buf[..];
    ZeroedRead(fs, inode, offset, n, r, b);
  }

  /** `read_data`'s outcome on a zero-filled buffer is `ReadZeroed`. */
  lemma ZeroedRead(fs: FsImage, inode: u32, offset: u32, n: u32, r: int, b: seq<byte>)
    requires fs.Valid() && |b| == n
    requires inode >= fs.inodeCount ==> r == -1 && b == Zeros(n)
    requires inode < fs.inodeCount && offset >= fs.inodes[inode].length ==> r == 0 && b == Zeros(n)
    requires inode < fs.inodeCount && offset < fs.inodes[inode].length ==>
      var k := ReadLen(fs, inode, offset, n);
      match FirstBadFrom(fs, inode, offset, k, 0)
      case None => r == k && b[..k] == FileBytes(fs, inode, offset, k) && b[k..] == Zeros(n)[k..]
      case Some(j) => r == -1 && b[..j] == FileBytes(fs, inode, offset, j) && b[j..] == Zeros(n)[j..]
    ensures (r, b) == ReadZeroed(fs, inode, offset, n)
  {
    if inode < fs.inodeCount && offset < fs.inodes[inode].length {
      var k := ReadLen(fs, inode, offset, n);
      match FirstBadFrom(fs, inode, offset, k, 0)
      case Some(j) =>
        assert b[j..] == Zeros(n - j);
        assert b == b[..j] + b[j..];
      case None =>
        assert b[k..] == Zeros(n - k);
        assert b == b[..k] + b[k..];
    }
  }

  /** `file_read` on a descriptor with inode `inode` at `position`: the
      result of `read_data`, and the new position, advanced by exactly the
      count (unchanged on -1). */
  method FileRead(fs: FsImage, inode: u32, position: u32, buf: array<byte>, nbytes: u32)
    returns (r: int, position': int)
    requires fs.Valid() && buf.Length >= nbytes
    modifies buf
    ensures r >= 0 ==> position' == position + r
    ensures r < 0 ==> r == -1 && position' == position
    ensures inode >= fs.inodeCount ==> r == -1
    ensures inode < fs.inodeCount && position >= fs.inodes[inode].length ==> r == 0
    ensures inode < fs.inodeCount && position < fs.inodes[inode].length && r >= 0 ==>
      r == ReadLen(fs, inode, position, nbytes) && AllBlocksOk(fs, inode, position, r)
      && buf[..r] == FileBytes(fs, inode, position, r) && position' <= fs.inodes[inode].length
    ensures r >= 0 ==> buf[r..] == old(buf[r..])
    ensures r == ReadZeroed(fs, inode, position, nbytes).0
  {
    var bytesRead := ReadData(fs, inode, position, buf, nbytes);
    if bytesRead < 0 {
      return -1, position;
    }
    return bytesRead, position + bytesRead;
  }

  /** `directory_read` at directory position `position`: the next entry's
      name, 32 bytes of it whatever `nbytes` is, and the position moves on
      by one; past entry 63 it returns 0 and stays put. */
  method DirectoryRead(fs: FsImage, position: u32, buf: array<byte>) returns (r: int, position': int)
    requires fs.Valid() && buf.Length >= MAX_FILE_NAME
    modifies buf
    ensures position > MAX_FILES ==> r == 0 && position' == position && buf[..] == old(buf[..])
    ensures position <= MAX_FILES ==>
      r == CStrLen(EntryAt(fs, position).name) && position' == position + 1
      && buf[..MAX_FILE_NAME] == StrNCpy(EntryAt(fs, position).name, MAX_FILE_NAME)
      && buf[MAX_FILE_NAME..] == old(buf[MAX_FILE_NAME..])
    ensures 0 <= r <= MAX_FILE_NAME
  {
    var res := ReadDentryByIndexCorrected(fs, position, Dentry(Zeros(MAX_FILE_NAME), 0, 0));
    if res.0 == -1 {
      return 0, position;
    }
    var name := res.1.name;
    var len := CStrLen(name);
    if len > MAX_FILE_NAME {
      len := MAX_FILE_NAME;
    }
    StrNCpyStrLen(EntryAt(fs, position).name, MAX_FILE_NAME);
    forall k | 0 <= k < MAX_FILE_NAME {
      buf[k] := name[k];
    }
    return len, position + 1;
  }

  /** The buffer indices `directory_read`'s `strncpy` stores to, as
      written: all 32 of the name copy, whatever `nbytes` the caller asked
      for, so a request for fewer than 32 bytes is overrun. */
  method DirectoryReadStoresAsWritten(fs: FsImage, position: u32, nbytes: int) returns (stores: seq<nat>)
    requires fs.Valid()
    ensures position > MAX_FILES ==> stores == []
    ensures position <= MAX_FILES ==>
      |stores| == MAX_FILE_NAME && forall k :: 0 <= k < |stores| ==> stores[k] == k
    ensures (exists k :: 0 <= k < |stores| && stores[k] >= nbytes) <==>
      position <= MAX_FILES && nbytes < MAX_FILE_NAME
  {
    stores := [];
    if position > MAX_FILES {
      return;
    }
    var i := 0;
    while i < MAX_FILE_NAME
      invariant 0 <= i <= MAX_FILE_NAME && |stores| == i
      invariant forall k :: 0 <= k < i ==> stores[k] == k
    {
      stores := stores + [i];
      i := i + 1;
    }
    assert stores[MAX_FILE_NAME - 1] == MAX_FILE_NAME - 1;
  }

  /** `directory_read` as evidently intended: only the first `nbytes` bytes
      of the 32-byte name copy reach the buffer, and the count is the
      name's length capped by `nbytes`. For a request of 32 bytes or more
      it does what `DirectoryRead` does. */
  method DirectoryReadCorrected(fs: FsImage, position: u32, buf: array<byte>, nbytes: int)
    returns (r: int, position': int)
    requires fs.Valid() && 0 <= nbytes <= buf.Length
    modifies buf
    ensures position > MAX_FILES ==> r == 0 && position' == position && buf[..] == old(buf[..])
    ensures position <= MAX_FILES ==>
      var c := Min(nbytes, MAX_FILE_NAME);
      && r == Min(CStrLen(EntryAt(fs, position).name), nbytes) && position' == position + 1
      && buf[..c] == StrNCpy(EntryAt(fs, position).name, MAX_FILE_NAME)[..c]
      && buf[c..] == old(buf[c..])
    ensures 0 <= r <= Min(nbytes, MAX_FILE_NAME)
    ensures position <= MAX_FILES && nbytes >= MAX_FILE_NAME ==>
      r == CStrLen(EntryAt(fs, position).name)
      && buf[..MAX_FILE_NAME] == StrNCpy(EntryAt(fs, position).name, MAX_FILE_NAME)
  {
    var res := ReadDentryByIndexCorrected(fs, position, Dentry(Zeros(MAX_FILE_NAME), 0, 0));
    if res.0 == -1 {
      return 0, position;
    }
    var name := res.1.name;
    var len := CStrLen(name);
    if len > MAX_FILE_NAME {
      len := MAX_FILE_NAME;
    }
    StrNCpyStrLen(EntryAt(fs, position).name, MAX_FILE_NAME);
    var c := Min(nbytes, MAX_FILE_NAME);
    forall k | 0 <= k < c {
      buf[k] := name[k];
    }
    assert buf[..c] == name[..c];
    return Min(len, nbytes), position + 1;
  }

  /** A `strncpy` copy of a 32-byte name holds the same string. */
  lemma StrNCpyStrLen(s: seq<byte>, n: nat)
    requires |s| == n
    ensures CStrLen(StrNCpy(s, n)) == CStrLen(s)
  {
    var c := StrNCpy(s, n);
    var k := CStrLen(s);
    assert forall i :: 0 <= i < k ==> c[i] == s[i] && c[i] != NUL;
    if k < n {
      assert c[k] == NUL;
      assert c[..k] == s[..k];
    } else {
      assert c == s;
    }
  }

  /** The constant operations of the file and directory tables: opening and
      closing are done by the system-call layer, and the image is
      read-only. */
  function FileOpen(fname: seq<byte>): (r: int) ensures r == 0 { 0 }
  function FileClose(fd: int): (r: int) ensures r == 0 { 0 }
  function FileWrite(fd: int, nbytes: int): (r: int) ensures r == -1 { -1 }
  function DirectoryOpen(fname: seq<byte>): (r: int) ensures r == 0 { 0 }
  function DirectoryClose(fd: int): (r: int) ensures r == 0 { 0 }
  function DirectoryWrite(fd: int, nbytes: int): (r: int) ensures r == -1 { -1 }
}
