/** Whole downloads: any number of chunks over one file, in any interleaving of callbacks and with any
    block sizes, short writes, failed seeks and cancellations. */
module Transfer {
  import opened Octets
  import opened Download

  /** A chunk with its cursor, how far its stream was delivered, and whether its transfer still runs. */
  datatype Chunk = Chunk(range: Range, cursor: nat, fed: nat, alive: bool)

  datatype State = State(file: Bytes, downloaded: nat, cancelled: bool, chunks: seq<Chunk>)

  datatype Event =
    | Deliver(chunk: nat, size: nat, seekOk: bool, room: nat)
    | Cancel
    | Retry(chunk: nat)

  function Fresh(r: Range): Chunk { Chunk(r, r.start, r.start, true) }

  function Start(ranges: seq<Range>): State {
    State([], 0, false, seq(|ranges|, i requires 0 <= i < |ranges| => Fresh(ranges[i])))
  }

  /** Events that the environment can produce: the server sends a running chunk the bytes of the source
      from where its request begins, in order, but it need not stop at the end of the range. */
  predicate Enabled(source: Bytes, s: State, e: Event) {
    match e
    case Deliver(i, size, _, _) => i < |s.chunks| && s.chunks[i].alive && s.chunks[i].fed + size <= |source|
    case Cancel => true
    case Retry(i) => i < |s.chunks|
  }

  function Delivered(source: Bytes, s: State, e: Event): Outcome
    requires e.Deliver? && Enabled(source, s, e)
  {
    var c := s.chunks[e.chunk];
    Callback(s.file, s.downloaded, s.cancelled, c.cursor, c.range.end, source[c.fed..c.fed + e.size], e.seekOk, e.room)
  }

  /** One callback is one step, since it runs under the lock.  A callback that reports another count than
      it was given ends its transfer.  A retry sends the first request of the chunk again. */
  function Step(source: Bytes, s: State, e: Event): State
    requires Enabled(source, s, e)
  {
    match e
    case Deliver(i, size, seekOk, room) =>
      var c, o := s.chunks[i], Delivered(source, s, e);
      s.(file := o.file, downloaded := o.downloaded,
         chunks := s.chunks[i := c.(cursor := o.cursor, fed := c.fed + size, alive := o.written == size)])
    case Cancel => s.(cancelled := true)
    case Retry(i) => s.(chunks := s.chunks[i := s.chunks[i].(fed := s.chunks[i].range.start, alive := true)])
  }

  predicate Possible(source: Bytes, s: State, run: seq<Event>)
    decreases run
  {
    run == [] || (Enabled(source, s, run[0]) && Possible(source, Step(source, s, run[0]), run[1..]))
  }

  function Run(source: Bytes, s: State, run: seq<Event>): State
    requires Possible(source, s, run)
    decreases run
  {
    if run == [] then s else Run(source, Step(source, s, run[0]), run[1..])
  }

  /** A retry is harmless for a chunk that has written nothing. */
  predicate Harmless(s: State, e: Event) {
    e.Retry? && e.chunk < |s.chunks| ==> s.chunks[e.chunk].cursor == s.chunks[e.chunk].range.start
  }

  predicate AllHarmless(source: Bytes, s: State, run: seq<Event>)
    requires Possible(source, s, run)
    decreases run
  {
    run == [] || (Harmless(s, run[0]) && AllHarmless(source, Step(source, s, run[0]), run[1..]))
  }

  // ------------------------------------------------------------- what is counted

  /** What all cursors together have advanced. */
  function Advanced(chunks: seq<Chunk>): int {
    if chunks == [] then 0 else chunks[0].cursor - chunks[0].range.start + Advanced(chunks[1..])
  }

  lemma {:induction false} AdvancedUpdate(chunks: seq<Chunk>, i: nat, c: Chunk)
    requires i < |chunks| && c.range == chunks[i].range
    ensures Advanced(chunks[i := c]) == Advanced(chunks) + c.cursor - chunks[i].cursor
  {
    if i > 0 {
      assert chunks[i := c][1..] == chunks[1..][i - 1 := c];
      AdvancedUpdate(chunks[1..], i - 1, c);
    } else {
      assert chunks[i := c][1..] == chunks[1..];
    }
  }

  lemma StepCounts(source: Bytes, s: State, e: Event)
    requires Enabled(source, s, e)
    ensures var t := Step(source, s, e);
      && t.downloaded - s.downloaded == Advanced(t.chunks) - Advanced(s.chunks)
      && |t.chunks| == |s.chunks|
      && forall i :: 0 <= i < |s.chunks| ==> t.chunks[i].range == s.chunks[i].range && s.chunks[i].cursor <= t.chunks[i].cursor
  {
    if !e.Cancel? {
      AdvancedUpdate(s.chunks, e.chunk, Step(source, s, e).chunks[e.chunk]);
    }
  }

  /** Whatever happens, retries included, the downloaded size grows by what the cursors advance. */
  lemma {:induction false} RunCounts(source: Bytes, s: State, run: seq<Event>)
    requires Possible(source, s, run)
    ensures var t := Run(source, s, run);
      && t.downloaded - s.downloaded == Advanced(t.chunks) - Advanced(s.chunks)
      && |t.chunks| == |s.chunks|
      && forall i :: 0 <= i < |s.chunks| ==> t.chunks[i].range == s.chunks[i].range && s.chunks[i].cursor <= t.chunks[i].cursor
    decreases run
  {
    if run != [] {
      StepCounts(source, s, run[0]);
      RunCounts(source, Step(source, s, run[0]), run[1..]);
    }
  }

  lemma {:induction false} NothingAdvanced(chunks: seq<Chunk>)
    requires forall i :: 0 <= i < |chunks| ==> chunks[i].cursor == chunks[i].range.start
    ensures Advanced(chunks) == 0
  {
    if chunks != [] {
      NothingAdvanced(chunks[1..]);
    }
  }

  /** Cursors that stand where the next chunk starts, the last one at `length`. */
  lemma {:induction false} AdvancedTelescopes(chunks: seq<Chunk>, length: nat)
    requires chunks != []
    requires forall i :: 0 <= i < |chunks| - 1 ==> chunks[i].cursor == chunks[i + 1].range.start
    requires chunks[|chunks| - 1].cursor == length
    ensures Advanced(chunks) == length - chunks[0].range.start
  {
    if |chunks| > 1 {
      var rest := chunks[1..];
      assert forall i :: 0 <= i < |rest| ==> rest[i] == chunks[i + 1];
      AdvancedTelescopes(rest, length);
    } else {
      assert chunks[1..] == [];
    }
  }

  // -------------------------------------------------------------- cancellation

  /** The same file, count and cursors. */
  predicate SameProgress(s: State, t: State) {
    && t.file == s.file && t.downloaded == s.downloaded && |t.chunks| == |s.chunks|
    && forall i :: 0 <= i < |s.chunks| ==> t.chunks[i].range == s.chunks[i].range && t.chunks[i].cursor == s.chunks[i].cursor
  }

  lemma {:induction false} RunOnCancelled(source: Bytes, s: State, run: seq<Event>)
    requires s.cancelled && Possible(source, s, run)
    ensures Run(source, s, run).cancelled && SameProgress(s, Run(source, s, run))
    decreases run
  {
    if run != [] {
      assert SameProgress(s, Step(source, s, run[0]));
      RunOnCancelled(source, Step(source, s, run[0]), run[1..]);
    }
  }

  /** Once a download is cancelled, no callback of any chunk changes the file, the count or a cursor again,
      retries included. */
  lemma NothingAfterCancel(source: Bytes, s: State, run: seq<Event>)
    requires Possible(source, Step(source, s, Cancel), run)
    ensures var t := Run(source, Step(source, s, Cancel), run); t.cancelled && SameProgress(s, t)
  {
    RunOnCancelled(source, Step(source, s, Cancel), run);
  }

  // ---------------------------------------------------------------- the contents

  /** The bytes from the chunk's start to its cursor are in the file, and a running transfer has
      delivered up to the cursor. */
  ghost predicate ChunkOk(source: Bytes, file: Bytes, c: Chunk) {
    && c.range.start <= c.cursor <= |source|
    && (c.alive ==> c.fed == c.cursor)
    && (c.range.start < c.cursor ==> c.cursor <= |file|)
    && (forall k :: c.range.start <= k < c.cursor ==> file[k] == source[k])
  }

  ghost predicate Inv(source: Bytes, s: State) {
    && |s.file| <= |source|
    && s.downloaded == Advanced(s.chunks)
    && forall i :: 0 <= i < |s.chunks| ==> ChunkOk(source, s.file, s.chunks[i])
  }

  /** A running chunk in step with its stream passes on the source bytes at its cursor. */
  lemma DeliveredAtCursor(source: Bytes, s: State, e: Event)
    requires Inv(source, s) && e.Deliver? && Enabled(source, s, e)
    ensures var c, o := s.chunks[e.chunk], Delivered(source, s, e);
      && o.written <= e.size && c.cursor + o.written <= |source|
      && o.cursor == c.cursor + o.written && o.downloaded == s.downloaded + o.written
      && o.file == WriteAt(s.file, c.cursor, source[c.cursor..c.cursor + o.written])
  {
    var c, o := s.chunks[e.chunk], Delivered(source, s, e);
    assert ChunkOk(source, s.file, c);
    assert source[c.fed..c.fed + e.size][..o.written] == source[c.cursor..c.cursor + o.written];
  }

  /** A retry keeps a chunk in step with its stream exactly if it had written nothing. */
  lemma RetryKeepsInv(source: Bytes, s: State, i: nat)
    requires Inv(source, s) && i < |s.chunks|
    ensures Inv(source, Step(source, s, Retry(i))) <==> s.chunks[i].cursor == s.chunks[i].range.start
  {
    hide Advanced;
    var t := Step(source, s, Retry(i));
    StepCounts(source, s, Retry(i));
    assert ChunkOk(source, s.file, s.chunks[i]);
    assert ChunkOk(source, t.file, t.chunks[i]) <==> s.chunks[i].cursor == s.chunks[i].range.start;
    forall j | 0 <= j < |s.chunks| && j != i ensures ChunkOk(source, t.file, t.chunks[j]) {
      assert ChunkOk(source, s.file, s.chunks[j]) && t.chunks[j] == s.chunks[j];
    }
  }

  /** The steps that keep the invariant are all except a retry of a chunk that has written something. */
  lemma StepKeepsInv(source: Bytes, s: State, e: Event)
    requires Inv(source, s) && Enabled(source, s, e)
    ensures Inv(source, Step(source, s, e)) <==> Harmless(s, e)
  {
    hide WriteAt, Delivered, Advanced;
    StepCounts(source, s, e);
    if e.Deliver? {
      var t, c := Step(source, s, e), s.chunks[e.chunk];
      DeliveredAtCursor(source, s, e);
      WriteKeepsSource(source, s.file, c.cursor, Delivered(source, s, e).written);
      assert ChunkOk(source, s.file, c);
      assert ChunkOk(source, t.file, t.chunks[e.chunk]);
      forall j | 0 <= j < |s.chunks| && j != e.chunk ensures ChunkOk(source, t.file, t.chunks[j]) {
        assert ChunkOk(source, s.file, s.chunks[j]) && t.chunks[j] == s.chunks[j];
      }
    } else if e.Retry? {
      RetryKeepsInv(source, s, e.chunk);
    }
  }

  /** Writing source bytes at their own offset spoils nothing. */
  lemma WriteKeepsSource(source: Bytes, file: Bytes, at: nat, n: nat)
    requires at + n <= |source| && |file| <= |source|
    ensures var f := WriteAt(file, at, source[at..at + n]);
      && |file| <= |f| <= |source|
      && (n > 0 ==> |f| >= at + n)
      && (forall k :: 0 <= k < |file| && file[k] == source[k] ==> f[k] == source[k])
      && (forall k :: at <= k < at + n ==> f[k] == source[k])
  {
    if n > 0 {
      WriteAtEffect(file, at, source[at..at + n]);
    }
  }

  lemma {:induction false} RunKeepsInv(source: Bytes, s: State, run: seq<Event>)
    requires Inv(source, s) && Possible(source, s, run) && AllHarmless(source, s, run)
    ensures Inv(source, Run(source, s, run))
    decreases run
  {
    if run != [] {
      StepKeepsInv(source, s, run[0]);
      RunKeepsInv(source, Step(source, s, run[0]), run[1..]);
    }
  }

  lemma StartInv(source: Bytes, size: real, count: int)
    requires Chosen(size, count) && size.Floor <= |source|
    ensures Inv(source, Start(Ranges(size.Floor, count)))
  {
    var rs := Ranges(size.Floor, count);
    var s := Start(rs);
    NothingAdvanced(s.chunks);
    forall i | 0 <= i < |rs| ensures rs[i].start <= |source| {
      if 0 < i {
        RangesAreOrdered(size, count, i - 1);
      } else if 1 < |rs| {
        RangesAreOrdered(size, count, 0);
      }
    }
  }

  /** Every chunk received all that its request selects, and no callback refused any of it. */
  predicate Complete(source: Bytes, s: State) {
    forall i :: 0 <= i < |s.chunks| ==> s.chunks[i].alive && s.chunks[i].fed == Limit(RequestOf(s.chunks[i].range), |source|)
  }

  lemma OwnerOf(source: Bytes, size: real, count: int, p: nat) returns (i: nat)
    requires Chosen(size, count) && size.Floor <= |source| && p < |source|
    ensures i < |Ranges(size.Floor, count)|
    ensures var r := Ranges(size.Floor, count)[i]; r.start <= p < Limit(RequestOf(r), |source|)
  {
    OneChunkOwns(size, count, |source|, p, 0);
    i := Owner(size.Floor, count, p);
    OneChunkOwns(size, count, |source|, p, i);
  }

  lemma CompleteIsSource(source: Bytes, size: real, count: int, t: State)
    requires Chosen(size, count) && size.Floor <= |source|
    requires Inv(source, t) && Complete(source, t)
    requires |t.chunks| == |Ranges(size.Floor, count)|
    requires forall i :: 0 <= i < |t.chunks| ==> t.chunks[i].range == Ranges(size.Floor, count)[i]
    ensures t.file == source && t.downloaded == |source|
  {
    hide Ranges, Advanced, SplitDownloadCount;
    var n := |t.chunks|;
    forall i | 0 <= i < n ensures t.chunks[i].cursor == Limit(RequestOf(t.chunks[i].range), |source|) {
      assert ChunkOk(source, t.file, t.chunks[i]);
    }
    if source != [] {
      var i := OwnerOf(source, size, count, |source| - 1);
      assert ChunkOk(source, t.file, t.chunks[i]);
    }
    forall p | 0 <= p < |source| ensures t.file[p] == source[p] {
      var i := OwnerOf(source, size, count, p);
      assert ChunkOk(source, t.file, t.chunks[i]);
    }
    forall i | 0 <= i < n - 1 ensures t.chunks[i].cursor == t.chunks[i + 1].range.start {
      RangesAreOrdered(size, count, i);
    }
    RangesEnd(size, count);
    AdvancedTelescopes(t.chunks, |source|);
  }

  lemma RangesEnd(size: real, count: int)
    requires Chosen(size, count)
    ensures var rs := Ranges(size.Floor, count); rs[0].start == 0 && rs[|rs| - 1].end <= 0
  {
    if count > 1 {
      RangesAreOrdered(size, count, 0);
    }
  }

  /** In every run whose retries are harmless the bytes behind all cursors are those of the source and are
      counted, and when all ranges are delivered the file is the source. */
  lemma AssemblesSource(source: Bytes, size: real, count: int, run: seq<Event>)
    requires Chosen(size, count) && size.Floor <= |source|
    requires Possible(source, Start(Ranges(size.Floor, count)), run)
    requires AllHarmless(source, Start(Ranges(size.Floor, count)), run)
    ensures var t := Run(source, Start(Ranges(size.Floor, count)), run);
      && Inv(source, t)
      && (Complete(source, t) ==> t.file == source && t.downloaded == |source|)
  {
    hide Ranges, Advanced, SplitDownloadCount;
    var s := Start(Ranges(size.Floor, count));
    var t := Run(source, s, run);
    StartInv(source, size, count);
    RunKeepsInv(source, s, run);
    RunCounts(source, s, run);
    if Complete(source, t) {
      CompleteIsSource(source, size, count, t);
    }
  }

  /** One block for each chunk that is still to be served, from chunk `k` on. */
  lemma {:induction false} ServeFrom(source: Bytes, s: State, k: nat) returns (run: seq<Event>)
    requires k <= |s.chunks| && !s.cancelled
    requires forall i :: 0 <= i < |s.chunks| ==>
      var r := s.chunks[i].range;
      r.start <= Limit(RequestOf(r), |source|) <= |source| && (r.end > 0 ==> r.start <= r.end)
    requires forall i :: 0 <= i < k ==> s.chunks[i].alive && s.chunks[i].fed == Limit(RequestOf(s.chunks[i].range), |source|)
    requires forall i :: k <= i < |s.chunks| ==> s.chunks[i] == Fresh(s.chunks[i].range)
    ensures Possible(source, s, run) && AllHarmless(source, s, run) && Complete(source, Run(source, s, run))
    decreases |s.chunks| - k
  {
    if k == |s.chunks| {
      run := [];
    } else {
      hide WriteAt;
      var r := s.chunks[k].range;
      var n := Limit(RequestOf(r), |source|) - r.start;
      var e := Deliver(k, n, true, n);
      assert Delivered(source, s, e).written == n;
      var t := Step(source, s, e);
      assert t.chunks[k].alive && t.chunks[k].range == r;
      run := ServeFrom(source, t, k + 1);
      assert ([e] + run)[1..] == run;
      run := [e] + run;
    }
  }

  /** Every download can be completed, and then its file is the source. */
  lemma DownloadCanComplete(source: Bytes, size: real, count: int) returns (run: seq<Event>)
    requires Chosen(size, count) && size.Floor <= |source|
    ensures Possible(source, Start(Ranges(size.Floor, count)), run)
    ensures var t := Run(source, Start(Ranges(size.Floor, count)), run);
      Complete(source, t) && t.file == source && t.downloaded == |source|
  {
    hide SplitDownloadCount;
    var rs := Ranges(size.Floor, count);
    forall i | 0 <= i < |rs|
      ensures rs[i].start <= Limit(RequestOf(rs[i]), |source|) <= |source| && (rs[i].end > 0 ==> rs[i].start <= rs[i].end)
    {
      RangeInSource(source, size, count, i);
    }
    run := ServeFrom(source, Start(rs), 0);
    AssemblesSource(source, size, count, run);
  }

  lemma RangeInSource(source: Bytes, size: real, count: int, i: nat)
    requires Chosen(size, count) && size.Floor <= |source| && i < |Ranges(size.Floor, count)|
    ensures var r := Ranges(size.Floor, count)[i];
      r.start <= Limit(RequestOf(r), |source|) <= |source| && (r.end > 0 ==> r.start <= r.end)
  {
    if i + 1 < |Ranges(size.Floor, count)| {
      RangesAreOrdered(size, count, i);
    } else if 0 < i {
      RangesAreOrdered(size, count, i - 1);
    }
  }

  // ---------------------------------------------------------- retries that harm

  /** The cursor is at least `d` past the chunk's start, and as far ahead of a running stream. */
  predicate Leads(c: Chunk, d: nat) { c.range.start + d <= c.cursor && (c.alive ==> c.fed + d <= c.cursor) }

  /** A lead is never lost, and a retry makes one of all that the chunk has written. */
  lemma StepLeads(source: Bytes, s: State, e: Event, i: nat, d: nat)
    requires Enabled(source, s, e) && i < |s.chunks| && Leads(s.chunks[i], d)
    ensures Leads(Step(source, s, e).chunks[i], d)
    ensures e == Retry(i) ==> Leads(Step(source, s, e).chunks[i], s.chunks[i].cursor - s.chunks[i].range.start)
  {
    hide WriteAt;
  }

  lemma {:induction false} RunLeads(source: Bytes, s: State, run: seq<Event>, i: nat, d: nat)
    requires Possible(source, s, run) && i < |s.chunks| && Leads(s.chunks[i], d)
    ensures i < |Run(source, s, run).chunks| && Leads(Run(source, s, run).chunks[i], d)
    decreases run
  {
    if run != [] {
      hide Step, Leads;
      StepCounts(source, s, run[0]);
      StepLeads(source, s, run[0], i, d);
      RunLeads(source, Step(source, s, run[0]), run[1..], i, d);
    }
  }

  /** A run with a harmful retry leaves some chunk ahead of its stream. */
  lemma {:induction false} RunDrifts(source: Bytes, s: State, run: seq<Event>) returns (i: nat)
    requires Possible(source, s, run) && (forall k :: 0 <= k < |s.chunks| ==> Leads(s.chunks[k], 0))
    requires !AllHarmless(source, s, run)
    ensures var t := Run(source, s, run);
      && |t.chunks| == |s.chunks| && i < |t.chunks| && Leads(t.chunks[i], 1)
      && forall k :: 0 <= k < |t.chunks| ==> Leads(t.chunks[k], 0)
    decreases run
  {
    var t := Step(source, s, run[0]);
    StepCounts(source, s, run[0]);
    if Harmless(s, run[0]) {
      hide Step, Leads;
      forall k | 0 <= k < |s.chunks| ensures Leads(t.chunks[k], 0) { StepLeads(source, s, run[0], k, 0); }
      i := RunDrifts(source, t, run[1..]);
    } else {
      i := run[0].chunk;
      StepLeads(source, s, run[0], i, 0);
      hide Step;
      RunLeads(source, t, run[1..], i, 1);
      RunCounts(source, t, run[1..]);
      forall k | 0 <= k < |s.chunks| ensures Leads(Run(source, s, run).chunks[k], 0) { RunLeads(source, s, run, k, 0); }
    }
  }

  /** Cursors that are all at least as far, and one of them farther. */
  lemma {:induction false} AdvancedGrows(a: seq<Chunk>, b: seq<Chunk>, i: nat)
    requires |a| == |b| && i <= |a|
    requires forall k :: 0 <= k < |a| ==> a[k].range == b[k].range && a[k].cursor <= b[k].cursor
    ensures Advanced(a) + (if i < |a| then b[i].cursor - a[i].cursor else 0) <= Advanced(b)
    decreases |a|
  {
    if a != [] {
      AdvancedGrows(a[1..], b[1..], if i == 0 then |a| - 1 else i - 1);
    }
  }

  /** Chunks whose cursors stand where their requests end. */
  function Served(source: Bytes, rs: seq<Range>): (chunks: seq<Chunk>)
    ensures |chunks| == |rs| && forall k :: 0 <= k < |rs| ==> chunks[k].range == rs[k]
  {
    seq(|rs|, k requires 0 <= k < |rs| => Chunk(rs[k], Limit(RequestOf(rs[k]), |source|), 0, true))
  }

  lemma ServedAdvance(source: Bytes, size: real, count: int)
    requires Chosen(size, count) && size.Floor <= |source|
    ensures Advanced(Served(source, Ranges(size.Floor, count))) == |source|
  {
    hide Advanced, SplitDownloadCount;
    var chunks := Served(source, Ranges(size.Floor, count));
    forall i | 0 <= i < |chunks| - 1 ensures chunks[i].cursor == chunks[i + 1].range.start {
      RangesAreOrdered(size, count, i);
    }
    RangesEnd(size, count);
    AdvancedTelescopes(chunks, |source|);
  }

  /** A complete download has counted exactly the bytes of the source if all its retries were harmless,
      and more than that if one was not. */
  lemma CountTellsHarm(source: Bytes, size: real, count: int, run: seq<Event>)
    requires Chosen(size, count) && size.Floor <= |source|
    requires Possible(source, Start(Ranges(size.Floor, count)), run)
    requires Complete(source, Run(source, Start(Ranges(size.Floor, count)), run))
    ensures var t := Run(source, Start(Ranges(size.Floor, count)), run);
      && t.downloaded >= |source|
      && (t.downloaded == |source| <==> AllHarmless(source, Start(Ranges(size.Floor, count)), run))
  {
    hide Advanced, SplitDownloadCount, Step;
    var rs := Ranges(size.Floor, count);
    var s := Start(rs);
    var t := Run(source, s, run);
    if AllHarmless(source, s, run) {
      AssemblesSource(source, size, count, run);
    } else {
      var i := RunDrifts(source, s, run);
      RunCounts(source, s, run);
      NothingAdvanced(s.chunks);
      ServedAdvance(source, size, count);
      AdvancedGrows(Served(source, rs), t.chunks, i);
    }
  }

  // ------------------------------------------------------------------ regions

  /** No bounded chunk has gone past its range, except perhaps chunk `but`. */
  predicate InRange(s: State, but: int := -1) {
    forall i :: 0 <= i < |s.chunks| && i != but && s.chunks[i].range.end > 0
      ==> s.chunks[i].cursor <= s.chunks[i].range.end + 1
  }

  /** A bounded chunk takes a block only while its cursor is within its range, except perhaps chunk `but`. */
  predicate EntersInRange(s: State, e: Event, but: int := -1) {
    e.Deliver? && e.chunk < |s.chunks| && e.chunk != but && s.chunks[e.chunk].range.end > 0 && e.size > 0
    ==> s.chunks[e.chunk].cursor <= s.chunks[e.chunk].range.end
  }

  predicate AllEnterInRange(source: Bytes, s: State, run: seq<Event>, but: int := -1)
    requires Possible(source, s, run)
    decreases run
  {
    run == [] || (EntersInRange(s, run[0], but) && AllEnterInRange(source, Step(source, s, run[0]), run[1..], but))
  }

  /** A server that stops at the end of the requested range never offers a byte to a chunk that is done. */
  lemma ObedientServerEntersInRange(source: Bytes, s: State, e: Event)
    requires Inv(source, s) && Enabled(source, s, e) && e.Deliver?
    requires s.chunks[e.chunk].fed + e.size <= Limit(RequestOf(s.chunks[e.chunk].range), |source|)
    ensures EntersInRange(s, e)
  {
    assert ChunkOk(source, s.file, s.chunks[e.chunk]);
  }

  lemma {:induction false} RunStaysInRange(source: Bytes, s: State, run: seq<Event>, but: int := -1)
    requires InRange(s, but) && Possible(source, s, run) && AllEnterInRange(source, s, run, but)
    ensures InRange(Run(source, s, run), but)
    decreases run
  {
    if run != [] {
      StepStaysInRange(source, s, run[0], but);
      RunStaysInRange(source, Step(source, s, run[0]), run[1..], but);
    }
  }

  lemma StepStaysInRange(source: Bytes, s: State, e: Event, but: int := -1)
    requires InRange(s, but) && Enabled(source, s, e) && EntersInRange(s, e, but)
    ensures InRange(Step(source, s, e), but)
  {
    if e.Deliver? && e.chunk != but && s.chunks[e.chunk].range.end > 0 {
      var c := s.chunks[e.chunk];
      BoundedChunkStaysInRange(s.file, s.downloaded, s.cancelled, c.cursor, c.range.end, source[c.fed..c.fed + e.size],
            e.seekOk, e.room);
    }
  }

  lemma {:induction false} StartsGrow(size: real, count: int, i: nat, j: nat)
    requires Chosen(size, count) && i < j < |Ranges(size.Floor, count)|
    ensures var rs := Ranges(size.Floor, count); 0 < rs[i].end && rs[i].end + 1 <= rs[j].start
    decreases j
  {
    RangesAreOrdered(size, count, j - 1);
    if i < j - 1 {
      StartsGrow(size, count, i, j - 1);
    }
  }

  lemma StartInRange(size: real, count: int)
    requires Chosen(size, count)
    ensures InRange(Start(Ranges(size.Floor, count)))
  {
    var s := Start(Ranges(size.Floor, count));
    forall k | 0 <= k < |s.chunks| && s.chunks[k].range.end > 0 ensures s.chunks[k].cursor <= s.chunks[k].range.end + 1 {
      if k + 1 < |s.chunks| {
        RangesAreOrdered(size, count, k);
      } else {
        RangesEnd(size, count);
      }
    }
  }

  /** In such runs, retries included, what one chunk has written ends before what the next one writes. */
  lemma RegionsStayDisjoint(source: Bytes, size: real, count: int, run: seq<Event>, i: nat, j: nat)
    requires Chosen(size, count) && i < j < |Ranges(size.Floor, count)|
    requires Possible(source, Start(Ranges(size.Floor, count)), run)
    requires AllEnterInRange(source, Start(Ranges(size.Floor, count)), run)
    ensures var t := Run(source, Start(Ranges(size.Floor, count)), run);
      |t.chunks| == |Ranges(size.Floor, count)| && t.chunks[i].cursor <= t.chunks[j].range.start <= t.chunks[j].cursor
  {
    var s := Start(Ranges(size.Floor, count));
    RunCounts(source, s, run);
    StartInRange(size, count);
    RunStaysInRange(source, s, run);
    StartsGrow(size, count, i, j);
  }

  // ---------------------------------------------------- what a retry leaves behind

  /** After any retry the first byte that the server sends is the one at the chunk's start, and it is
      written where the cursor stands. */
  lemma RetryMisplaces(source: Bytes, s: State, e: Event)
    requires e.Deliver? && e.chunk < |s.chunks| && Enabled(source, Step(source, s, Retry(e.chunk)), e)
    requires !s.cancelled && e.size > 0 && e.seekOk && e.room > 0
    ensures var c, t := s.chunks[e.chunk], Step(source, Step(source, s, Retry(e.chunk)), e);
      c.cursor < t.chunks[e.chunk].cursor && c.cursor < |t.file| && t.file[c.cursor] == source[c.range.start]
  {
    var c, r := s.chunks[e.chunk], Step(source, s, Retry(e.chunk));
    var o := Delivered(source, r, e);
    assert o.written > 0;
    WriteAtEffect(s.file, c.cursor, source[c.range.start..c.range.start + e.size][..o.written]);
  }

  /** Each bounded chunk ends before the later ones begin. */
  predicate Laid(chunks: seq<Chunk>) {
    forall i, j :: 0 <= i < j < |chunks| ==> EndsBefore(chunks[i].range, chunks[j].range)
  }

  predicate EndsBefore(r: Range, q: Range) { 0 < r.end < q.start }

  /** Where the part of the file that a chunk has written ends in its range. */
  function Reach(k: Chunk): nat { if 0 < k.range.end < k.cursor then k.range.end + 1 else k.cursor }

  /** What chunk `i` has written in its range, if it was retried when its cursor stood at `c`: the source's
      own bytes before `c`, and the bytes from the chunk's start again behind it. */
  ghost predicate Rewritten(source: Bytes, s: State, i: nat, c: nat) {
    i < |s.chunks| &&
    var k := s.chunks[i];
    var start := k.range.start;
    && start <= c <= k.cursor && start + k.cursor - c <= |source| && c <= |source|
    && (k.alive ==> k.fed == start + k.cursor - c)
    && (start < Reach(k) ==> Reach(k) <= |s.file|)
    && (forall p :: start <= p < Reach(k) && p < c ==> s.file[p] == source[p])
    && (forall p :: c <= p < Reach(k) ==> s.file[p] == source[start + p - c])
  }

  /** A callback writes between the old and the new cursor of its chunk, and nowhere else. */
  lemma CallbackFrame(source: Bytes, s: State, e: Event, p: nat)
    requires e.Deliver? && Enabled(source, s, e) && p < |s.file|
    requires p < s.chunks[e.chunk].cursor || Step(source, s, e).chunks[e.chunk].cursor <= p
    ensures p < |Step(source, s, e).file| && Step(source, s, e).file[p] == s.file[p]
  {
    var o := Delivered(source, s, e);
    var c := s.chunks[e.chunk];
    if o.written > 0 {
      WriteAtEffect(s.file, c.cursor, source[c.fed..c.fed + e.size][..o.written]);
    }
  }

  /** What a delivery to chunk `i` writes, and where it leaves the chunk. */
  lemma OwnWrite(source: Bytes, s: State, e: Event)
    requires e.Deliver? && Enabled(source, s, e)
    ensures var k, o, t := s.chunks[e.chunk], Delivered(source, s, e), Step(source, s, e);
      && o.written <= e.size && k.fed + e.size <= |source| && |t.chunks| == |s.chunks| && |s.file| <= |t.file|
      && t.chunks[e.chunk] == k.(cursor := k.cursor + o.written, fed := k.fed + e.size, alive := o.written == e.size)
      && (o.written > 0 ==> k.cursor + o.written <= |t.file|)
      && forall p :: k.cursor <= p < k.cursor + o.written ==> t.file[p] == source[k.fed + p - k.cursor]
  {
    var k, o, t := s.chunks[e.chunk], Delivered(source, s, e), Step(source, s, e);
    var block := source[k.fed..k.fed + e.size][..o.written];
    if o.written > 0 {
      WriteAtEffect(s.file, k.cursor, block);
    }
  }

  /** A callback of chunk `e.chunk` leaves alone what chunk `i` had written in its range. */
  ghost predicate Spares(s: State, t: State, i: nat) {
    i < |s.chunks| && |s.file| <= |t.file|
    && forall p :: s.chunks[i].range.start <= p < Reach(s.chunks[i]) && p < |s.file| ==> t.file[p] == s.file[p]
  }

  lemma OwnStepSpares(source: Bytes, s: State, e: Event, i: nat)
    requires e.Deliver? && e.chunk == i && Enabled(source, s, e)
    ensures Spares(s, Step(source, s, e), i)
  {
    var k, t := s.chunks[i], Step(source, s, e);
    OwnWrite(source, s, e);
    hide Step;
    forall p | k.range.start <= p < Reach(k) && p < |s.file| ensures p < |t.file| && t.file[p] == s.file[p] {
      CallbackFrame(source, s, e, p);
    }
  }

  lemma OtherStepSpares(source: Bytes, s: State, e: Event, i: nat)
    requires e.Deliver? && e.chunk != i && Enabled(source, s, e) && i < |s.chunks|
    requires Laid(s.chunks) && InRange(Step(source, s, e), i) && s.chunks[e.chunk].range.start <= s.chunks[e.chunk].cursor
    ensures Spares(s, Step(source, s, e), i)
  {
    var k, t, j := s.chunks[i], Step(source, s, e), e.chunk;
    StepCounts(source, s, e);
    OwnWrite(source, s, e);
    hide Step;
    assert t.chunks[j].range == s.chunks[j].range;
    assert if i < j then EndsBefore(k.range, s.chunks[j].range) else EndsBefore(s.chunks[j].range, k.range);
    forall p | k.range.start <= p < Reach(k) && p < |s.file| ensures p < |t.file| && t.file[p] == s.file[p] {
      CallbackFrame(source, s, e, p);
    }
  }

  lemma OwnStepRewrites(source: Bytes, s: State, e: Event, i: nat, c: nat)
    requires Rewritten(source, s, i, c) && e.Deliver? && e.chunk == i && Enabled(source, s, e)
    ensures Rewritten(source, Step(source, s, e), i, c)
  {
    hide Step, Delivered;
    OwnWrite(source, s, e);
    OwnStepSpares(source, s, e, i);
  }

  lemma OtherStepRewrites(source: Bytes, s: State, e: Event, i: nat, c: nat)
    requires Rewritten(source, s, i, c) && e.Deliver? && e.chunk != i && Enabled(source, s, e)
    requires Laid(s.chunks) && InRange(Step(source, s, e), i) && s.chunks[e.chunk].range.start <= s.chunks[e.chunk].cursor
    ensures Rewritten(source, Step(source, s, e), i, c)
  {
    assert Step(source, s, e).chunks[i] == s.chunks[i];
    OtherStepSpares(source, s, e, i);
    hide Step, Delivered, InRange, Laid;
  }

  predicate NoRetryOf(i: nat, run: seq<Event>) {
    forall j :: 0 <= j < |run| ==> run[j] != Retry(i)
  }

  lemma StepRewrites(source: Bytes, s: State, e: Event, i: nat, c: nat)
    requires Rewritten(source, s, i, c) && Laid(s.chunks) && InRange(s, i)
    requires forall j :: 0 <= j < |s.chunks| ==> s.chunks[j].range.start <= s.chunks[j].cursor
    requires Enabled(source, s, e) && EntersInRange(s, e, i) && e != Retry(i)
    ensures Rewritten(source, Step(source, s, e), i, c)
  {
    StepStaysInRange(source, s, e, i);
    if e.Deliver? {
      hide Step, Rewritten;
      if e.chunk == i { OwnStepRewrites(source, s, e, i, c); } else { OtherStepRewrites(source, s, e, i, c); }
    } else {
      var t := Step(source, s, e);
      assert t.file == s.file && t.chunks[i] == s.chunks[i];
    }
  }

  lemma SameRangesLaid(a: seq<Chunk>, b: seq<Chunk>)
    requires |a| == |b| && (forall i :: 0 <= i < |a| ==> a[i].range == b[i].range) && Laid(a)
    ensures Laid(b)
  {
    forall i, j | 0 <= i < j < |b| ensures EndsBefore(b[i].range, b[j].range) {
      assert EndsBefore(a[i].range, a[j].range);
    }
  }

  lemma {:induction false} RunRewrites(source: Bytes, s: State, run: seq<Event>, i: nat, c: nat)
    requires Rewritten(source, s, i, c) && Laid(s.chunks) && InRange(s, i)
    requires forall j :: 0 <= j < |s.chunks| ==> s.chunks[j].range.start <= s.chunks[j].cursor
    requires Possible(source, s, run) && AllEnterInRange(source, s, run, i) && NoRetryOf(i, run)
    ensures Rewritten(source, Run(source, s, run), i, c)
    decreases run
  {
    if run != [] {
      hide Step, Rewritten, Laid, Advanced;
      var t := Step(source, s, run[0]);
      StepCounts(source, s, run[0]);
      StepStaysInRange(source, s, run[0], i);
      StepRewrites(source, s, run[0], i, c);
      SameRangesLaid(s.chunks, t.chunks);
      RunRewrites(source, t, run[1..], i, c);
    }
  }

  /** What chunk `i` has written in its range is what the source has there. */
  ghost predicate RegionIsSource(source: Bytes, s: State, i: nat) {
    i < |s.chunks| && Reach(s.chunks[i]) <= |source| &&
    forall p :: s.chunks[i].range.start <= p < Reach(s.chunks[i]) ==> p < |s.file| && s.file[p] == source[p]
  }

  /** The source repeats, from `c` to `end`, what it has from `start` on. */
  predicate Repeats(source: Bytes, start: nat, c: nat, end: nat) {
    start <= c && end <= |source| && forall p :: c <= p < end ==> source[p] == source[start + p - c]
  }

  /** A chunk of any download that is retried when its cursor stands at `c`, whatever it does then and while
      the other chunks stay in their ranges: its part of the file is that of the source exactly if the
      source repeats there what it has from the chunk's start. */
  lemma RetriedRegion(source: Bytes, size: real, count: int, before: seq<Event>, i: nat, after: seq<Event>)
    requires Chosen(size, count) && size.Floor <= |source|
    requires Possible(source, Start(Ranges(size.Floor, count)), before)
    requires AllHarmless(source, Start(Ranges(size.Floor, count)), before)
    requires AllEnterInRange(source, Start(Ranges(size.Floor, count)), before, i)
    requires i < |Run(source, Start(Ranges(size.Floor, count)), before).chunks|
    requires var r := Step(source, Run(source, Start(Ranges(size.Floor, count)), before), Retry(i));
      Possible(source, r, after) && AllEnterInRange(source, r, after, i) && NoRetryOf(i, after)
    ensures var s := Run(source, Start(Ranges(size.Floor, count)), before);
      var t := Run(source, Step(source, s, Retry(i)), after);
      var c := s.chunks[i].cursor;
      && Rewritten(source, t, i, c)
      && (RegionIsSource(source, t, i) <==> Repeats(source, t.chunks[i].range.start, c, Reach(t.chunks[i])))
  {
    hide Ranges, Advanced, SplitDownloadCount, Step, Run;
    var s0 := Start(Ranges(size.Floor, count));
    var s := Run(source, s0, before);
    StartInv(source, size, count);
    RunKeepsInv(source, s0, before);
    StartInRange(size, count);
    RunStaysInRange(source, s0, before, i);
    RunCounts(source, s0, before);
    RangesAreLaid(source, size, count, s);
    AfterRetry(source, s, i, after);
  }

  lemma RangesAreLaid(source: Bytes, size: real, count: int, s: State)
    requires Chosen(size, count) && |s.chunks| == |Ranges(size.Floor, count)|
    requires forall i :: 0 <= i < |s.chunks| ==> s.chunks[i].range == Ranges(size.Floor, count)[i]
    ensures Laid(s.chunks)
  {
    forall i, j | 0 <= i < j < |s.chunks| ensures EndsBefore(s.chunks[i].range, s.chunks[j].range) {
      StartsGrow(size, count, i, j);
    }
  }

  lemma AfterRetry(source: Bytes, s: State, i: nat, run: seq<Event>)
    requires Inv(source, s) && InRange(s, i) && Laid(s.chunks) && i < |s.chunks|
    requires var r := Step(source, s, Retry(i));
      Possible(source, r, run) && AllEnterInRange(source, r, run, i) && NoRetryOf(i, run)
    ensures var t, c := Run(source, Step(source, s, Retry(i)), run), s.chunks[i].cursor;
      && Rewritten(source, t, i, c)
      && (RegionIsSource(source, t, i) <==> Repeats(source, t.chunks[i].range.start, c, Reach(t.chunks[i])))
  {
    var r, c := Step(source, s, Retry(i)), s.chunks[i].cursor;
    RetryRewrites(source, s, i);
    SameRangesLaid(s.chunks, r.chunks);
    RunRewrites(source, r, run, i, c);
    RewrittenRegion(source, Run(source, r, run), i, c);
  }

  lemma RetryRewrites(source: Bytes, s: State, i: nat)
    requires Inv(source, s) && InRange(s, i) && i < |s.chunks|
    ensures var r := Step(source, s, Retry(i));
      && Rewritten(source, r, i, s.chunks[i].cursor) && InRange(r, i) && |r.chunks| == |s.chunks|
      && forall j :: 0 <= j < |s.chunks|
            ==> r.chunks[j].range == s.chunks[j].range && r.chunks[j].range.start <= r.chunks[j].cursor
  {
    hide Advanced;
    var r := Step(source, s, Retry(i));
    assert ChunkOk(source, s.file, s.chunks[i]);
    forall j | 0 <= j < |s.chunks| ensures r.chunks[j].range.start <= r.chunks[j].cursor {
      assert ChunkOk(source, s.file, s.chunks[j]);
    }
  }

  /** A region written so is that of the source exactly if the source repeats itself. */
  lemma RewrittenRegion(source: Bytes, t: State, i: nat, c: nat)
    requires Rewritten(source, t, i, c)
    ensures RegionIsSource(source, t, i) <==> Repeats(source, t.chunks[i].range.start, c, Reach(t.chunks[i]))
  {
    var k := t.chunks[i];
    if Repeats(source, k.range.start, c, Reach(k)) {
      forall p | k.range.start <= p < Reach(k) ensures p < |t.file| && t.file[p] == source[p] {
        assert p >= c ==> t.file[p] == source[k.range.start + p - c];
      }
    }
    if RegionIsSource(source, t, i) {
      forall p | c <= p < Reach(k) ensures source[p] == source[k.range.start + p - c] {
        assert t.file[p] == source[p];
      }
    }
  }

  // -------------------------------------------------------------------- retry

  /** What a chunk has written lies in the file. */
  predicate Reached(s: State) {
    forall i :: 0 <= i < |s.chunks| && s.chunks[i].range.start < s.chunks[i].cursor ==> s.chunks[i].cursor <= |s.file|
  }

  lemma StepReaches(source: Bytes, s: State, e: Event)
    requires Reached(s) && Enabled(source, s, e)
    ensures Reached(Step(source, s, e))
  {
    if e.Deliver? {
      OwnWrite(source, s, e);
    }
  }

  lemma {:induction false} RunReaches(source: Bytes, s: State, run: seq<Event>)
    requires Reached(s) && Possible(source, s, run)
    ensures Reached(Run(source, s, run))
    decreases run
  {
    if run != [] {
      StepReaches(source, s, run[0]);
      RunReaches(source, Step(source, s, run[0]), run[1..]);
    }
  }

  /** A chunk of any download that is retried when its cursor stands at `c`: when all is delivered, whatever
      else happened, the chunk ends as far behind its range as it had come before, and the downloaded size is
      too large by at least as much. */
  lemma RetryOverruns(source: Bytes, size: real, count: int, before: seq<Event>, i: nat, after: seq<Event>)
    requires Chosen(size, count) && size.Floor <= |source|
    requires Possible(source, Start(Ranges(size.Floor, count)), before)
    requires i < |Run(source, Start(Ranges(size.Floor, count)), before).chunks|
    requires var r := Step(source, Run(source, Start(Ranges(size.Floor, count)), before), Retry(i));
      Possible(source, r, after) && Complete(source, Run(source, r, after))
    ensures var s := Run(source, Start(Ranges(size.Floor, count)), before);
      var t := Run(source, Step(source, s, Retry(i)), after);
      var written := s.chunks[i].cursor - s.chunks[i].range.start;
      && i < |t.chunks| && t.chunks[i].range == s.chunks[i].range
      && t.chunks[i].cursor >= Limit(RequestOf(t.chunks[i].range), |source|) + written
      && (written > 0 ==> |t.file| >= t.chunks[i].cursor)
      && t.downloaded >= |source| + written
  {
    hide Advanced, SplitDownloadCount, Step;
    var rs := Ranges(size.Floor, count);
    var s0 := Start(rs);
    var s := Run(source, s0, before);
    var r := Step(source, s, Retry(i));
    var t := Run(source, r, after);
    RunCounts(source, s0, before);
    StepCounts(source, s, Retry(i));
    RunCounts(source, r, after);
    RunReaches(source, s0, before);
    StepReaches(source, s, Retry(i));
    RunReaches(source, r, after);
    forall k | 0 <= k < |rs| ensures Leads(t.chunks[k], 0) {
      RunLeads(source, s0, before, k, 0);
      StepLeads(source, s, Retry(i), k, 0);
      RunLeads(source, r, after, k, 0);
    }
    RunLeads(source, s0, before, i, 0);
    StepLeads(source, s, Retry(i), i, 0);
    RunLeads(source, r, after, i, s.chunks[i].cursor - s.chunks[i].range.start);
    NothingAdvanced(s0.chunks);
    ServedAdvance(source, size, count);
    AdvancedGrows(Served(source, rs), t.chunks, i);
  }

  /** The last chunk of any download, which is the whole file in a download of one chunk, retried in a run
      whose other retries are harmless: when all is delivered, the file is the source if and only if the
      chunk had written nothing before, and otherwise longer by at least what it had. */
  lemma RetryIsSoundExactlyFromScratch(source: Bytes, size: real, count: int, before: seq<Event>, after: seq<Event>)
    requires Chosen(size, count) && size.Floor <= |source|
    requires Possible(source, Start(Ranges(size.Floor, count)), before)
    requires AllHarmless(source, Start(Ranges(size.Floor, count)), before)
    requires |Run(source, Start(Ranges(size.Floor, count)), before).chunks| == |Ranges(size.Floor, count)|
    requires var r := Step(source, Run(source, Start(Ranges(size.Floor, count)), before), Retry(|Ranges(size.Floor, count)| - 1));
      Possible(source, r, after) && AllHarmless(source, r, after) && Complete(source, Run(source, r, after))
    ensures var i := |Ranges(size.Floor, count)| - 1;
      var s := Run(source, Start(Ranges(size.Floor, count)), before);
      var t := Run(source, Step(source, s, Retry(i)), after);
      var written := s.chunks[i].cursor - s.chunks[i].range.start;
      && (written > 0 ==> |t.file| >= |source| + written)
      && (t.file == source <==> written == 0)
  {
    hide Ranges, Advanced, SplitDownloadCount, Step, Run;
    var i, s0 := |Ranges(size.Floor, count)| - 1, Start(Ranges(size.Floor, count));
    var s := Run(source, s0, before);
    var r := Step(source, s, Retry(i));
    RetryOverruns(source, size, count, before, i, after);
    RangesEnd(size, count);
    StartInv(source, size, count);
    RunKeepsInv(source, s0, before);
    StepKeepsInv(source, s, Retry(i));
    RunCounts(source, s0, before);
    StepCounts(source, s, Retry(i));
    RunCounts(source, r, after);
    if Harmless(s, Retry(i)) {
      RunKeepsInv(source, r, after);
      CompleteIsSource(source, size, count, Run(source, r, after));
    }
  }
}
