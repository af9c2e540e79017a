/** The segmented downloader: the byte ranges that a file is cut into, the callback that writes one
    block at a chunk's cursor while it holds the lock, and the runs of many chunks over one file.
    The source file, the blocks it arrives in, and how much of a block can be written are left to the
    environment. */
module Download {
  import opened Octets

  // ------------------------------------------------------------------- ranges

  const THREAD_COUNT: int := 4
  const MB2: real := 2.0 * 1024.0 * 1024.0
  const MB10: real := 10.0 * 1024.0 * 1024.0
  const MB50: real := 50.0 * 1024.0 * 1024.0

  function SplitDownloadCount(size: real): int {
    if size <= MB2 then 1
    else if size <= MB10 then (size / MB2).Floor
    else if size <= MB50 then THREAD_COUNT + 1
    else var count := (size / MB10).Floor; if count > 10 then 10 else count
  }

  /** One chunk up to 2 MB, then one for each 2 MB up to 10 MB, five up to 50 MB, and above that one for each
      10 MB, but ten at most. */
  lemma SplitCountAtThresholds(size: real)
    requires size >= 0.0
    ensures size <= 2097152.0 ==> SplitDownloadCount(size) == 1
    ensures 2097152.0 < size < 4194304.0 ==> SplitDownloadCount(size) == 1
    ensures 4194304.0 <= size < 6291456.0 ==> SplitDownloadCount(size) == 2
    ensures 6291456.0 <= size < 8388608.0 ==> SplitDownloadCount(size) == 3
    ensures 8388608.0 <= size < 10485760.0 ==> SplitDownloadCount(size) == 4
    ensures 10485760.0 <= size <= 52428800.0 ==> SplitDownloadCount(size) == 5
    ensures 52428800.0 < size < 62914560.0 ==> SplitDownloadCount(size) == 5
    ensures 62914560.0 <= size < 73400320.0 ==> SplitDownloadCount(size) == 6
    ensures 73400320.0 <= size < 83886080.0 ==> SplitDownloadCount(size) == 7
    ensures 83886080.0 <= size < 94371840.0 ==> SplitDownloadCount(size) == 8
    ensures 94371840.0 <= size < 104857600.0 ==> SplitDownloadCount(size) == 9
    ensures 104857600.0 <= size ==> SplitDownloadCount(size) == 10
  {
    if size > 52428800.0 {
      assert (size / MB10).Floor >= 10 || size < 104857600.0;
    }
  }

  /** First and last byte of a chunk.  The last chunk has end -1; a chunk that is the whole file, 0. */
  datatype Range = Range(start: nat, end: int)

  /** The chunks of a file of `total` bytes. */
  function Ranges(total: nat, count: int): (rs: seq<Range>)
    ensures |rs| == if count <= 1 then 1 else count
  {
    if count <= 1 then [Range(0, 0)]
    else
      var gap := total / count;
      seq(count, i requires 0 <= i < count => Range(i * gap, if i < count - 1 then i * gap + gap - 1 else -1))
  }

  lemma RangeAt(total: nat, count: int, i: nat)
    requires i < count && count > 1
    ensures var start := i * (total / count);
      0 <= start && Ranges(total, count)[i] == Range(start, if i < count - 1 then start + total / count - 1 else -1)
  {
  }

  lemma WholeFile(total: nat, count: int)
    requires count <= 1
    ensures Ranges(total, count) == [Range(0, 0)]
  {
  }

  /** The Range header of RFC 7233 that a chunk asks for. */
  datatype Request = Everything | Between(first: nat, last: nat) | From(first: nat)

  function RequestOf(r: Range): Request {
    if r.end != 0 then if r.end > 0 then Between(r.start, r.end) else From(r.start) else Everything
  }

  /** Where the bytes that a request selects begin and end in a file of `length` bytes. */
  function First(q: Request): nat { if q.Everything? then 0 else q.first }
  function Limit(q: Request, length: nat): nat { if q.Between? then q.last + 1 else length }

  /** Byte `p` of a file of `length` bytes is among those that range `r` asks for. */
  predicate Selects(r: Range, length: nat, p: nat) { First(RequestOf(r)) <= p < Limit(RequestOf(r), length) }

  lemma CountBoundsGap(size: real, count: int)
    requires 1 < count <= SplitDownloadCount(size)
    ensures count <= 10 && size.Floor / count >= 2
  {
    assert size > MB2;
    if size <= MB10 {
      assert size / MB2 <= 5.0;
    }
    assert size.Floor >= 2 * 1024 * 1024;
  }

  lemma Distribute(a: nat, b: nat, gap: nat)
    ensures (a + b) * gap == a * gap + b * gap
  {
  }

  lemma GapsGrow(gap: nat, i: nat, j: nat)
    requires i < j
    ensures i * gap + gap <= j * gap
  {
    Distribute(i, j - i, gap);
    Distribute(1, j - i - 1, gap);
  }

  lemma Quotient(p: nat, gap: nat)
    requires gap > 0
    ensures p / gap * gap <= p < p / gap * gap + gap
  {
  }

  /** The chunk whose part of the file byte `p` falls into. */
  function Owner(total: nat, count: int, p: nat): (i: nat)
    requires count > 1 ==> total / count > 0
    ensures i < |Ranges(total, count)|
  {
    if count <= 1 then 0 else var i := p / (total / count); if i < count then i else count - 1
  }

  /** A number of chunks that Perform can choose for a file of the given size. */
  predicate Chosen(size: real, count: int) {
    0.0 <= size && (count <= 1 || count <= SplitDownloadCount(size))
  }

  /** Every byte of a file at least as long as the probed size is asked for by exactly one chunk. */
  lemma OneChunkOwns(size: real, count: int, length: nat, p: nat, j: nat)
    requires Chosen(size, count) && size.Floor <= length && p < length && j < |Ranges(size.Floor, count)|
    ensures count > 1 ==> size.Floor / count > 0
    ensures Selects(Ranges(size.Floor, count)[j], length, p) <==> j == Owner(size.Floor, count, p)
  {
    if count > 1 {
      CountBoundsGap(size, count);
      var gap := size.Floor / count;
      var i := Owner(size.Floor, count, p);
      Quotient(p, gap);
      if i != p / gap {
        GapsGrow(gap, i, p / gap);
      }
      assert i * gap <= p && (i < count - 1 ==> p < i * gap + gap);
      if j < i {
        GapsGrow(gap, j, i);
      } else if i < j {
        GapsGrow(gap, i, j);
      }
    }
  }

  /** The chunks stand in order, each where the one before it ends, and no bounded chunk has one of the
      two ends that mean something else. */
  lemma RangesAreOrdered(size: real, count: int, i: nat)
    requires Chosen(size, count) && i + 1 < |Ranges(size.Floor, count)|
    ensures var rs := Ranges(size.Floor, count);
      0 < rs[i].end && rs[i].start < rs[i].end && rs[i + 1].start == rs[i].end + 1 && rs[i + 1].start < size.Floor
    ensures Ranges(size.Floor, count)[0].start == 0 && Ranges(size.Floor, count)[count - 1].end == -1
  {
    CountBoundsGap(size, count);
    var gap := size.Floor / count;
    Distribute(i, 1, gap);
    if i + 2 < count {
      GapsGrow(gap, i + 1, count - 1);
    }
    Quotient(size.Floor, count);
    GapsGrow(gap, count - 1, count);
  }

  // ----------------------------------------------------------------- one block

  /** A file after `block` was written at offset `at`; a hole before it reads as zeros. */
  function WriteAt(file: Bytes, at: nat, block: Bytes): Bytes {
    if block == [] then file
    else
      var reach := if at <= |file| then file else file + Repeat(0, at - |file|);
      reach[..at] + block + if at + |block| <= |reach| then reach[at + |block|..] else []
  }

  lemma WriteAtEffect(file: Bytes, at: nat, block: Bytes)
    requires block != []
    ensures var f := WriteAt(file, at, block);
      && |f| == (if |file| > at + |block| then |file| else at + |block|)
      && (forall k :: 0 <= k < |f| ==>
            f[k] == if at <= k < at + |block| then block[k - at] else if k < |file| then file[k] else 0)
  {
  }

  /** How much of a block of `size` bytes is passed on to the file: a bounded chunk keeps what lies up to
      its end, unless its cursor is past the end already. */
  function Accepted(cursor: nat, end: int, size: nat): (n: nat)
    ensures n <= size
  {
    if end > 0 && cursor <= end && cursor + size > end then end - cursor + 1 else size
  }

  /** What one callback leaves behind, and the byte count that it reports. */
  datatype Outcome = Outcome(file: Bytes, downloaded: nat, cursor: nat, written: nat)

  /** write_callback.  `seekOk` and `room` are up to the file system: whether the seek works, and how
      many bytes can be written. */
  function Callback(file: Bytes, downloaded: nat, cancelled: bool, cursor: nat, end: int,
                    block: Bytes, seekOk: bool, room: nat): Outcome
  {
    if cancelled then Outcome(file, downloaded, cursor, 0)
    else
      var n := Accepted(cursor, end, |block|);
      var written := if !seekOk then 0 else if n <= room then n else room;
      Outcome(WriteAt(file, cursor, block[..written]), downloaded + written, cursor + written, written)
  }

  /** A bounded chunk stays within its range if it enters the callback there, and only leaves it if it
      enters right behind the end and a byte can be written. */
  lemma BoundedChunkStaysInRange(file: Bytes, downloaded: nat, cancelled: bool, cursor: nat, end: int,
                                 block: Bytes, seekOk: bool, room: nat)
    requires end > 0 && cursor <= end + 1
    ensures Callback(file, downloaded, cancelled, cursor, end, block, seekOk, room).cursor <= end + 1
       <==> cursor <= end || cancelled || block == [] || !seekOk || room == 0
  {
  }

  // ------------------------------------------------------- objects of the source

  /** FILE, as its contents. */
  class File {
    var contents: Bytes

    constructor ()
      ensures contents == []
    {
      contents := [];
    }

    /** fseek followed by fwrite. */
    method Write(at: nat, ptr: Bytes, size: nat, room: nat) returns (written: nat)
      requires size <= |ptr|
      modifies this
      ensures written == (if size <= room then size else room) && contents == WriteAt(old(contents), at, ptr[..written])
    {
      written := if size <= room then size else room;
      contents := WriteAt(contents, at, ptr[..written]);
    }
  }

  class ThreadChunk {
    var fp: File
    var startidx: nat
    var endidx: int
    var download: DownloadHelper

    constructor (fp: File, download: DownloadHelper, startidx: nat, endidx: int)
      ensures this.fp == fp && this.download == download && this.startidx == startidx && this.endidx == endidx
    {
      this.fp, this.download, this.startidx, this.endidx := fp, download, startidx, endidx;
    }

    predicate Is(fp: File, download: DownloadHelper, r: Range)
      reads this
    {
      this.fp == fp && this.download == download && Range(startidx, endidx) == r
    }
  }

  class DownloadHelper {
    var totalSize: real
    var downloadedSize: nat
    var threadCount: int
    var multiDownload: bool
    var isCancel: bool

    constructor (totalSize: real, threadCount: int, multiDownload: bool)
      ensures this.totalSize == totalSize && this.threadCount == threadCount && this.multiDownload == multiDownload
      ensures downloadedSize == 0 && !isCancel
    {
      this.totalSize, this.threadCount, this.multiDownload := totalSize, threadCount, multiDownload;
      downloadedSize, isCancel := 0, false;
    }

    /** Perform, up to the start of the threads. */
    method CutIntoChunks(fp: File) returns (ok: bool, chunks: seq<ThreadChunk>)
      modifies this`threadCount
      ensures ok == (0.0 <= totalSize)
      ensures ok ==> Chosen(totalSize, threadCount)
      ensures ok ==> var count := SplitDownloadCount(totalSize);
        threadCount == if count > old(threadCount) then old(threadCount) else count
      ensures !ok ==> threadCount == old(threadCount) && chunks == []
      ensures ok ==>
        var rs := Ranges(totalSize.Floor, if multiDownload then threadCount else 1);
        |chunks| == |rs| && forall i :: 0 <= i < |rs| ==> fresh(chunks[i]) && chunks[i].Is(fp, this, rs[i])
    {
      hide SplitDownloadCount, Ranges;
      if totalSize < 0.0 { return false, []; }
      ok := true;
      var count := SplitDownloadCount(totalSize);
      threadCount := if count > threadCount then threadCount else count;
      chunks := [];
      if multiDownload && threadCount > 1 {
        var gap := totalSize.Floor / threadCount;
        ghost var n, rs := threadCount, Ranges(totalSize.Floor, threadCount);
        for i := 0 to threadCount
          invariant threadCount == n && |chunks| == i
          invariant forall j :: 0 <= j < i ==> fresh(chunks[j]) && chunks[j].Is(fp, this, rs[j])
        {
          RangeAt(totalSize.Floor, threadCount, i);
          var start := i * gap;
          var chunk := new ThreadChunk(fp, this, start, if i < threadCount - 1 then start + gap - 1 else -1);
          chunks := chunks + [chunk];
        }
      } else {
        WholeFile(totalSize.Floor, if multiDownload then threadCount else 1);
        var chunk := new ThreadChunk(fp, this, 0, 0);
        chunks := [chunk];
      }
    }

    static method WriteCallback(chunk: ThreadChunk, ptr: Bytes, seekOk: bool, room: nat) returns (written: nat)
      modifies chunk`startidx, chunk.download`downloadedSize, chunk.fp
      ensures Outcome(chunk.fp.contents, chunk.download.downloadedSize, chunk.startidx, written)
           == Callback(old(chunk.fp.contents), old(chunk.download.downloadedSize), chunk.download.isCancel,
                       old(chunk.startidx), chunk.endidx, ptr, seekOk, room)
      ensures chunk.download.isCancel || !seekOk ==>
        && written == 0 && chunk.fp.contents == old(chunk.fp.contents)
        && chunk.startidx == old(chunk.startidx) && chunk.download.downloadedSize == old(chunk.download.downloadedSize)
      ensures !chunk.download.isCancel && seekOk ==>
        var start, size := old(chunk.startidx), |ptr|;
        var n := if 0 < chunk.endidx && start <= chunk.endidx < start + size then chunk.endidx - start + 1 else size;
        && written == (if n <= room then n else room)
        && chunk.startidx == start + written
        && chunk.download.downloadedSize == old(chunk.download.downloadedSize) + written
        && chunk.fp.contents == WriteAt(old(chunk.fp.contents), start, ptr[..written])
    {
      if chunk.download.isCancel { return 0; }
      written := 0;
      var realSize := |ptr|;
      if chunk.endidx > 0 {
        if chunk.startidx <= chunk.endidx {
          if chunk.startidx + realSize > chunk.endidx {
            realSize := chunk.endidx - chunk.startidx + 1;
          }
        }
      }
      if seekOk {
        written := chunk.fp.Write(chunk.startidx, ptr, realSize, room);
      }
      chunk.download.downloadedSize := chunk.download.downloadedSize + written;
      chunk.startidx := chunk.startidx + written;
    }
  }
}
