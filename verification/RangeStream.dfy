/** Serving a file as a stream (`getFileAsReadStream` of `src/client/storage/index.ts`):
    chunks are downloaded one at a time and pushed, with pauses, and a range request gets
    slices of them. */
module RangeStream {
  import opened Common
  import opened FileStorage

  /** What the stream is asked for: the file's chunks, its recorded size, and the first byte
      of the range if there is one. */
  datatype Request = Request(chunks: seq<Bytes>, size: nat, total: nat, range: Option<nat>)

  predicate WellFormed(q: Request) {
    q.size > 0
  }

  const MAX_RANGE := 1024 * 1024

  function Start(q: Request): nat {
    if q.range.Some? then q.range.value else 0
  }

  /** The last byte of the range. */
  function End(q: Request): nat {
    if q.range.Some? then Max(Start(q), Min(Start(q) + MAX_RANGE, q.total - 1)) else 0
  }

  function ContentLength(q: Request): nat {
    if q.range.Some? then End(q) - Start(q) + 1 else q.total
  }

  function First(q: Request): nat
    requires WellFormed(q)
  {
    if q.range.Some? then Start(q) / q.size else 0
  }

  /** Where in its first chunk the range starts. */
  function Offset(q: Request): nat
    requires WellFormed(q)
  {
    Start(q) % q.size
  }

  function Last(q: Request): int
    requires WellFormed(q)
  {
    if q.range.Some? then End(q) / q.size else |q.chunks| - 1
  }

  // ---------------------------------------------------------------------- the protocol

  /** The variables of the closure; the downloads being awaited; and, for the record, the
      chunks pushed, how often the end was signalled, and whether an error was emitted. */
  datatype State = State(downloading: bool, closed: bool, lastChunkIdx: int,
                         inflight: seq<nat>, pushed: seq<nat>, ends: nat, failed: bool)

  /** Downloads arrive in any order; `full` is what `push` answers. */
  datatype Step = Arrive(k: nat, full: bool) | Fail(k: nat) | Read | Close

  /** `downloadChunk` up to its await. */
  function Download(q: Request, s: State, idx: nat): State
    requires WellFormed(q)
  {
    if idx > Last(q) then s.(ends := s.ends + 1) else s.(inflight := s.inflight + [idx])
  }

  /** `pushChunk`. */
  function Pushed(s: State, idx: nat, full: bool): State {
    var s1 := s.(pushed := s.pushed + [idx]);
    if full then s1.(downloading := false, lastChunkIdx := idx) else s1
  }

  /** A chunk that the file does not have cannot arrive. */
  predicate Possible(q: Request, s: State, a: Step) {
    match a
    case Arrive(k, _) => k < |s.inflight| && s.inflight[k] < |q.chunks|
    case Fail(k) => k < |s.inflight|
    case Read => true
    case Close => true
  }

  /** The variable `lastChunkIdx` is never below -1, see `Inv`. */
  function Next(q: Request, s: State, a: Step): State
    requires WellFormed(q) && Possible(q, s, a)
  {
    match a
    case Arrive(k, full) =>
      var idx := s.inflight[k];
      var s1 := Pushed(s.(inflight := Without(s.inflight, k)), idx, full);
      if s1.downloading then Download(q, s1, idx + 1) else s1
    case Fail(k) => s.(inflight := Without(s.inflight, k), failed := true)
    case Read =>
      if !s.downloading && !s.closed && s.lastChunkIdx >= -1
      then Download(q, s.(downloading := true), s.lastChunkIdx + 1)
      else s
    case Close => s.(downloading := false, closed := true)
  }

  function Initial(q: Request): State
    requires WellFormed(q)
  {
    Download(q, State(true, false, -1, [], [], 0, false), First(q))
  }

  predicate IsRun(q: Request, s: State, run: seq<Step>)
    requires WellFormed(q)
    decreases |run|
  {
    run == [] || (Possible(q, s, run[0]) && IsRun(q, Next(q, s, run[0]), run[1..]))
  }

  function After(q: Request, s: State, run: seq<Step>): State
    requires WellFormed(q) && IsRun(q, s, run)
    decreases |run|
  {
    if run == [] then s else After(q, Next(q, s, run[0]), run[1..])
  }

  /** The chunk whose turn it is. */
  function Turn(q: Request, s: State): nat
    requires WellFormed(q)
  {
    First(q) + |s.pushed|
  }

  /** Chunks are pushed in index order, each once, at most one download is awaited, the end
      comes once and after all chunks, and a paused stream knows where to go on. */
  predicate Inv(q: Request, s: State)
    requires WellFormed(q)
  {
    && (forall i :: 0 <= i < |s.pushed| ==> s.pushed[i] == First(q) + i < |q.chunks|)
    && (s.pushed != [] ==> Turn(q, s) <= Last(q) + 1)
    && (s.inflight == [] || (s.inflight == [Turn(q, s)] && Turn(q, s) <= Last(q) && s.ends == 0 && !s.failed))
    && (s.ends == 0 || (s.ends == 1 && Turn(q, s) > Last(q) && !s.failed))
    && s.lastChunkIdx >= -1
    && (s.closed ==> !s.downloading)
    && (!s.downloading && !s.closed ==>
          s.inflight == [] && s.ends == 0 && !s.failed && s.pushed != [] && s.lastChunkIdx == Turn(q, s) - 1)
    && (s.downloading ==> s.inflight != [] || s.ends == 1 || s.failed)
  }

  lemma NextKeepsInv(q: Request, s: State, a: Step)
    requires WellFormed(q) && Inv(q, s) && Possible(q, s, a)
    ensures Inv(q, Next(q, s, a))
  {
  }

  /** However `push` answers and reads, arrivals, errors and the disconnect interleave. */
  lemma {:induction false} RunsKeepInv(q: Request, s: State, run: seq<Step>)
    requires WellFormed(q) && Inv(q, s) && IsRun(q, s, run)
    ensures Inv(q, After(q, s, run))
    decreases |run|
  {
    hide Inv, Next;
    if run == [] {
    } else {
      NextKeepsInv(q, s, run[0]);
      RunsKeepInv(q, Next(q, s, run[0]), run[1..]);
    }
  }

  lemma InitialInv(q: Request)
    requires WellFormed(q)
    ensures Inv(q, Initial(q))
  {
  }

  /** Over every run: no chunk twice or out of order, at most one end, and that after all. */
  lemma PushedOnceInOrder(q: Request, run: seq<Step>)
    requires WellFormed(q) && IsRun(q, Initial(q), run)
    ensures var s := After(q, Initial(q), run);
      && (forall i :: 0 <= i < |s.pushed| ==> s.pushed[i] == First(q) + i)
      && |s.inflight| <= 1 && s.ends <= 1
      && (s.ends == 1 ==> s.inflight == [] && First(q) + |s.pushed| == Max(First(q), Last(q) + 1))
  {
    hide *;
    InitialInv(q);
    RunsKeepInv(q, Initial(q), run);
    OrderOf(q, After(q, Initial(q), run));
  }

  lemma OrderOf(q: Request, s: State)
    requires WellFormed(q) && Inv(q, s)
    ensures forall i :: 0 <= i < |s.pushed| ==> s.pushed[i] == First(q) + i
    ensures |s.inflight| <= 1 && s.ends <= 1
    ensures s.ends == 1 ==> s.inflight == [] && First(q) + |s.pushed| == Max(First(q), Last(q) + 1)
  {
    hide First, Last;
    assert Turn(q, s) == First(q) + |s.pushed|;
    assert s.ends == 1 ==> Turn(q, s) > Last(q);
    assert s.pushed == [] || Turn(q, s) <= Last(q) + 1;
    assert s.pushed == [] ==> |s.pushed| == 0;
  }

  /** A stream that has neither ended nor failed nor lost its client is awaiting the chunk
      whose turn it is, or the next read asks for that chunk or ends the stream. */
  lemma NeverStalls(q: Request, run: seq<Step>)
    requires WellFormed(q) && IsRun(q, Initial(q), run)
    ensures var s := After(q, Initial(q), run);
      s.ends == 0 && !s.failed && !s.closed && s.inflight == [] ==>
        var s' := Next(q, s, Read);
        if Turn(q, s) <= Last(q) then s'.inflight == [Turn(q, s)] else s'.ends == 1
  {
    hide First, Last, IsRun, After;
    InitialInv(q);
    RunsKeepInv(q, Initial(q), run);
  }

  /** A push that is answered with a pause awaits nothing more until the next read; one that
      is not asks for the next chunk at once, or ends the stream. */
  lemma PauseOrGoOn(q: Request, s: State, full: bool)
    requires WellFormed(q) && Inv(q, s) && Possible(q, s, Arrive(0, full)) && !s.closed
    ensures var s' := Next(q, s, Arrive(0, full));
      && s'.pushed == s.pushed + [s.inflight[0]]
      && (full ==> s'.inflight == [] && s'.ends == 0 && !s'.downloading)
      && (!full && Turn(q, s) < Last(q) ==> s'.inflight == [Turn(q, s) + 1] && s'.ends == 0)
      && (!full && Turn(q, s) >= Last(q) ==> s'.inflight == [] && s'.ends == 1)
  {
    hide First, Last;
  }

  /** The client is gone: no further download starts, at most the chunk that is awaited is
      still pushed, and no end is signalled any more. */
  lemma ClosedStreamStops(q: Request, s: State, run: seq<Step>)
    requires WellFormed(q) && IsRun(q, Next(q, s, Close), run)
    ensures var s' := After(q, Next(q, s, Close), run);
      && s'.closed && s'.ends == s.ends && s.pushed <= s'.pushed
      && |s'.pushed| + |s'.inflight| <= |s.pushed| + |s.inflight|
  {
    ClosedStays(q, Next(q, s, Close), run);
  }

  lemma {:induction false} ClosedStays(q: Request, s: State, run: seq<Step>)
    requires WellFormed(q) && IsRun(q, s, run) && s.closed && !s.downloading
    ensures var s' := After(q, s, run);
      && s'.closed && s'.ends == s.ends && s.pushed <= s'.pushed
      && |s'.pushed| + |s'.inflight| <= |s.pushed| + |s.inflight|
    decreases |run|
  {
    hide First, Last;
    if run == [] {
    } else {
      ClosedStays(q, Next(q, s, run[0]), run[1..]);
    }
  }

  /** A failed download is the last: the stream neither pushes nor ends after it. */
  lemma FailedStreamStops(q: Request, s: State, run: seq<Step>)
    requires WellFormed(q) && Inv(q, s) && Possible(q, s, Fail(0)) && IsRun(q, Next(q, s, Fail(0)), run)
    ensures var s' := After(q, Next(q, s, Fail(0)), run); s'.failed && s'.pushed == s.pushed && s'.ends == 0
  {
    FailedStays(q, Next(q, s, Fail(0)), run);
  }

  lemma {:induction false} FailedStays(q: Request, s: State, run: seq<Step>)
    requires WellFormed(q) && IsRun(q, s, run) && s.failed && s.inflight == [] && (s.downloading || s.closed)
    ensures var s' := After(q, s, run); s'.failed && s'.pushed == s.pushed && s'.ends == s.ends
    decreases |run|
  {
    hide First, Last;
    if run == [] {
    } else {
      FailedStays(q, Next(q, s, run[0]), run[1..]);
    }
  }

  // ---------------------------------------------------------------------- the bytes

  /** What is announced: all bytes without a range, and with one those from its start on, at
      most 1 MB and one byte; from behind the end it is one byte. */
  lemma AnnouncedLength(q: Request)
    ensures q.range.None? ==> ContentLength(q) == q.total
    ensures forall a :: q.range == Some(a) && a < q.total ==> ContentLength(q) == Min(1048577, q.total - a)
    ensures forall a :: q.range == Some(a) && a >= q.total ==> ContentLength(q) == 1
  {
  }

  /** What is pushed for a chunk. */
  function Piece(q: Request, idx: nat): Bytes
    requires idx < |q.chunks|
  {
    if q.range.None? then q.chunks[idx]
    else Slice(q.chunks[idx], Start(q) - idx * q.size, End(q) - idx * q.size + 1)
  }

  function Body(q: Request, pushed: seq<nat>): Bytes
    requires forall i :: 0 <= i < |pushed| ==> pushed[i] < |q.chunks|
  {
    if pushed == [] then [] else Body(q, pushed[..|pushed| - 1]) + Piece(q, pushed[|pushed| - 1])
  }

  /** The request is for a file of several chunks as they were stored. */
  predicate IsFor(q: Request, data: Bytes) {
    q.size > 0 && |data| > q.size && q.chunks == Chunks(data, q.size) && q.total == |data|
  }

  /** The range can be served: it starts inside the file, and it starts on a chunk, or stays
      in one, or the file's end comes soon enough in the second. */
  predicate Servable(q: Request)
    requires WellFormed(q)
  {
    && Start(q) < q.total
    && (First(q) == Last(q) || Offset(q) == 0 || q.total + Offset(q) <= (First(q) + 2) * q.size)
  }

  lemma {:induction false} ChunkOf(data: Bytes, size: nat, n: nat, i: nat)
    requires size > 0 && i < n <= CeilDiv(|data|, size)
    ensures i * size < |data| && ChunksUpTo(data, size, n)[i] == ChunkAt(data, size, i)
  {
    hide CeilDiv, ChunkAt;
    ChunkStarts(|data|, size, i);
    if i == n - 1 {
    } else {
      ChunkOf(data, size, n - 1, i);
    }
  }

  /** Chunk `i` is the stretch of the file from `i * size`. */
  lemma ChunkIsStretch(q: Request, data: Bytes, i: nat)
    requires IsFor(q, data) && i < |q.chunks|
    ensures i * q.size < |data|
    ensures q.chunks[i] == data[i * q.size..Min(i * q.size + q.size, |data|)]
  {
    hide CeilDiv, ChunksUpTo;
    ManyChunksIffLong(data, q.size);
    ChunkOf(data, q.size, CeilDiv(|data|, q.size), i);
    MulNext(i, q.size);
  }

  lemma DivBounds(x: nat, d: nat)
    requires d > 0
    ensures x / d * d <= x < x / d * d + d && x == x / d * d + x % d
  {
  }

  /** Slicing the stretch of `data` from `at` to `hi` for the bytes from `from` up to `to`. */
  lemma SliceOfStretch(data: Bytes, at: nat, hi: nat, from: nat, to: nat)
    requires at <= hi <= |data| && at < to && from < to
    ensures var r, top := Slice(data[at..hi], from - at, to - at), Min(to, hi);
      && (at <= from < hi ==> r == data[from..top])
      && (from < at && hi - at <= at - from ==> r == data[at..top])
      && (from < at && hi - at > at - from ==> |r| < top - at)
  {
    if at <= from < hi {
      StretchOfStretch(data, at, hi, from - at, Min(to, hi) - at);
    }
  }

  lemma StretchOfStretch(data: Bytes, at: nat, hi: nat, x: nat, y: nat)
    requires at <= hi <= |data| && x <= y <= hi - at
    ensures data[at..hi][x..y] == data[at + x..at + y]
  {
    var s := data[at..hi];
    assert forall k :: 0 <= k < y - x ==> s[x..y][k] == data[at + x..at + y][k];
  }

  /** The slice of chunk `i`, as a slice of a stretch of the file. */
  lemma PieceIsSlice(q: Request, data: Bytes, i: nat)
    requires IsFor(q, data) && q.range.Some? && i < |q.chunks|
    ensures var at := i * q.size;
      && at < |data|
      && Piece(q, i) == Slice(data[at..Min(at + q.size, |data|)], Start(q) - at, End(q) + 1 - at)
  {
    hide Slice;
    ChunkIsStretch(q, data, i);
  }

  /** Where chunk `i` lies in the range. */
  lemma ChunkInRange(q: Request, i: nat)
    requires WellFormed(q) && q.range.Some? && First(q) <= i <= Last(q)
    ensures i * q.size <= End(q)
    ensures i == First(q) ==> i * q.size <= Start(q) < i * q.size + q.size
    ensures i > First(q) ==> Start(q) < i * q.size
    ensures i == First(q) + 1 ==>
      i * q.size - Start(q) == q.size - Offset(q) && (First(q) + 2) * q.size == i * q.size + q.size
    ensures i > First(q) + 1 ==> i * q.size - Start(q) >= q.size
  {
    hide End;
    DivBounds(Start(q), q.size);
    DivBounds(End(q), q.size);
    MulMonotone(i, Last(q), q.size);
    MulNext(First(q), q.size);
    MulNext(First(q) + 1, q.size);
    if i > First(q) + 1 {
      MulMonotone(First(q) + 2, i, q.size);
    }
  }

  lemma FirstPiece(q: Request, data: Bytes)
    requires IsFor(q, data) && q.range.Some? && First(q) < |q.chunks| && First(q) <= Last(q)
    requires Start(q) < |data|
    ensures var at := First(q) * q.size; Piece(q, First(q)) == data[Start(q)..Min(End(q) + 1, at + q.size)]
  {
    hide Slice, First, Last, Piece;
    var at := First(q) * q.size;
    EndInside(q, data);
    PieceIsSlice(q, data, First(q));
    ChunkInRange(q, First(q));
    SliceOfStretch(data, at, Min(at + q.size, |data|), Start(q), End(q) + 1);
  }

  lemma LaterPiece(q: Request, data: Bytes, i: nat)
    requires IsFor(q, data) && q.range.Some? && First(q) < i < |q.chunks| && i <= Last(q)
    requires Start(q) < |data| && (i == First(q) + 1 ==> Servable(q))
    ensures i * q.size <= End(q) && Piece(q, i) == data[i * q.size..Min(End(q) + 1, i * q.size + q.size)]
  {
    hide Slice, First, Last, Piece;
    var at := i * q.size;
    EndInside(q, data);
    PieceIsSlice(q, data, i);
    ChunkInRange(q, i);
    SliceOfStretch(data, at, Min(at + q.size, |data|), Start(q), End(q) + 1);
  }

  /** A range that is not servable loses bytes of its second chunk. */
  lemma ShortPiece(q: Request, data: Bytes)
    requires IsFor(q, data) && q.range.Some? && First(q) + 1 < |q.chunks| && First(q) < Last(q)
    requires Start(q) < |data| && !Servable(q)
    ensures var at := (First(q) + 1) * q.size;
      at <= End(q) && |Piece(q, First(q) + 1)| < Min(End(q) + 1, at + q.size) - at
  {
    hide Slice, First, Last, Piece, Servable, End, Offset;
    var at := (First(q) + 1) * q.size;
    NotServable(q, data);
    EndInside(q, data);
    PieceIsSlice(q, data, First(q) + 1);
    ChunkInRange(q, First(q) + 1);
    SliceOfStretch(data, at, Min(at + q.size, |data|), Start(q), End(q) + 1);
  }

  function Span(first: nat, n: nat): (r: seq<nat>)
    ensures |r| == n && forall i :: 0 <= i < n ==> r[i] == first + i
  {
    seq(n, i requires 0 <= i < n => first + i)
  }

  /** The end of what `n` chunks of a range cover. */
  function Covered(q: Request, n: nat): nat
    requires WellFormed(q)
  {
    Min(End(q) + 1, (First(q) + n) * q.size)
  }

  /** The body after `n` chunks of a servable range. */
  lemma {:induction false} ServedSoFar(q: Request, data: Bytes, n: nat)
    requires IsFor(q, data) && q.range.Some? && Servable(q)
    requires 0 < n && First(q) + n <= Last(q) + 1 && First(q) + n <= |q.chunks|
    ensures Start(q) <= Covered(q, n) <= |data| && Body(q, Span(First(q), n)) == data[Start(q)..Covered(q, n)]
  {
    hide First, Last, End, Piece, IsFor, Servable, Body;
    StartOf(q, data);
    EndInside(q, data);
    BodyGrows(q, n);
    var i := First(q) + n - 1;
    MulNext(i, q.size);
    ChunkInRange(q, i);
    if n == 1 {
      FirstPiece(q, data);
    } else {
      ServedSoFar(q, data, n - 1);
      LaterPiece(q, data, i);
      var at, hi := i * q.size, Covered(q, n);
      assert data[Start(q)..hi] == data[Start(q)..at] + data[at..hi];
    }
  }

  /** After the second chunk of a range that is not servable bytes are missing. */
  lemma {:induction false} MissingSoFar(q: Request, data: Bytes, n: nat)
    requires IsFor(q, data) && q.range.Some? && Start(q) < |data| && !Servable(q)
    requires 0 < n && First(q) + n <= Last(q) + 1 && First(q) + n <= |q.chunks|
    ensures Start(q) <= Covered(q, n)
    ensures |Body(q, Span(First(q), n))| <= Covered(q, n) - Start(q) - (if n == 1 then 0 else 1)
  {
    hide First, Last, End, Piece, IsFor, Servable, Body;
    EndInside(q, data);
    BodyGrows(q, n);
    var i := First(q) + n - 1;
    MulNext(i, q.size);
    ChunkInRange(q, i);
    if n == 1 {
      FirstPiece(q, data);
    } else {
      MissingSoFar(q, data, n - 1);
      if n == 2 {
        NotServable(q, data);
        ShortPiece(q, data);
      } else {
        LaterPiece(q, data, i);
      }
    }
  }

  lemma NotServable(q: Request, data: Bytes)
    requires IsFor(q, data) && !Servable(q) && Start(q) < |data|
    ensures First(q) != Last(q) && Offset(q) > 0 && |data| + Offset(q) > (First(q) + 2) * q.size
  {
  }

  lemma StartOf(q: Request, data: Bytes)
    requires IsFor(q, data) && Servable(q)
    ensures Start(q) < |data| && q.size > 0
  {
  }

  lemma EndInside(q: Request, data: Bytes)
    requires IsFor(q, data) && q.range.Some? && Start(q) < |data|
    ensures Start(q) <= End(q) < |data| && q.size > 0
  {
  }

  lemma BodyGrows(q: Request, n: nat)
    requires WellFormed(q) && 0 < n && First(q) + n <= |q.chunks|
    ensures Body(q, Span(First(q), n)) == Body(q, Span(First(q), n - 1)) + Piece(q, First(q) + n - 1)
    ensures Body(q, Span(First(q), 0)) == []
  {
    hide Piece, First;
    assert Span(First(q), n)[..n - 1] == Span(First(q), n - 1);
  }

  lemma {:induction false} BodyIsConcat(q: Request, n: nat)
    requires WellFormed(q) && q.range.None? && n <= |q.chunks|
    ensures Body(q, Span(0, n)) == Concat(q.chunks[..n])
  {
    if n == 0 {
    } else {
      BodyGrows(q, n);
      BodyIsConcat(q, n - 1);
      assert q.chunks[..n][..n - 1] == q.chunks[..n - 1];
    }
  }

  lemma ChunksConcat(data: Bytes, size: nat)
    requires size > 0 && |data| > size
    ensures Concat(Chunks(data, size)) == data
  {
    ManyChunksIffLong(data, size);
    CeilDivBounds(|data|, size);
    ChunksUpToConcat(data, size, CeilDiv(|data|, size));
  }

  lemma WholeFile(q: Request, data: Bytes)
    requires IsFor(q, data) && q.range.None?
    ensures Body(q, Span(First(q), |q.chunks|)) == data && Last(q) + 1 == |q.chunks|
  {
    ChunksConcat(data, q.size);
    BodyIsConcat(q, |q.chunks|);
    assert q.chunks[..|q.chunks|] == q.chunks;
  }

  lemma RangeGoesForward(q: Request)
    requires WellFormed(q) && q.range.Some?
    ensures First(q) <= Last(q) && End(q) < (Last(q) + 1) * q.size
    ensures Start(q) >= q.total ==> End(q) == Start(q) && First(q) == Last(q)
  {
    DivBounds(Start(q), q.size);
    DivBounds(End(q), q.size);
    MulNext(End(q) / q.size, q.size);
    if First(q) > Last(q) {
      MulMonotone(Last(q) + 1, First(q), q.size);
    }
  }

  /** A range that starts behind the last byte is announced with one byte and gets none. */
  lemma NothingBehindTheEnd(q: Request, data: Bytes)
    requires IsFor(q, data) && q.range.Some? && Start(q) >= |data| && First(q) < |q.chunks|
    ensures |Piece(q, First(q))| == 0 && ContentLength(q) == 1
  {
    hide First;
    PieceIsSlice(q, data, First(q));
  }

  /** What a finished range request sent. */
  lemma WholeRange(q: Request, data: Bytes, n: nat)
    requires IsFor(q, data) && q.range.Some?
    requires First(q) + n == Last(q) + 1 <= |q.chunks|
    ensures var body := Body(q, Span(First(q), n));
      && (|body| == ContentLength(q) <==> Servable(q))
      && (Servable(q) ==> Start(q) <= End(q) < |data| && body == data[Start(q)..End(q) + 1])
  {
    hide First, Last, End, Piece, Body, Servable;
    RangeGoesForward(q);
    ContentLengthOfRange(q);
    if IsBehind(q, data) {
      NothingBehindTheEnd(q, data);
      BodyGrows(q, n);
    } else {
      EndInside(q, data);
      CoveredAll(q, n);
      if Servable(q) {
        ServedSoFar(q, data, n);
      } else {
        NotServable(q, data);
        MissingSoFar(q, data, n);
      }
    }
  }

  predicate IsBehind(q: Request, data: Bytes)
    requires IsFor(q, data)
    ensures IsBehind(q, data) ==> !Servable(q) && Start(q) >= q.total
    ensures !IsBehind(q, data) ==> Start(q) < |data|
  {
    Start(q) >= |data|
  }

  lemma ContentLengthOfRange(q: Request)
    requires q.range.Some?
    ensures ContentLength(q) == End(q) - Start(q) + 1
  {
  }

  lemma CoveredAll(q: Request, n: nat)
    requires WellFormed(q) && q.range.Some? && First(q) + n == Last(q) + 1
    ensures Covered(q, n) == End(q) + 1
  {
  }

  /** Over every run: a stream that came to its end sent the whole file, or exactly the
      announced range if the range can be served, and otherwise fewer bytes than announced. */
  lemma FinishedStreamIsExact(q: Request, data: Bytes, run: seq<Step>)
    requires IsFor(q, data) && IsRun(q, Initial(q), run) && After(q, Initial(q), run).ends == 1
    ensures Inv(q, After(q, Initial(q), run))
    ensures var body := Body(q, After(q, Initial(q), run).pushed);
      && (q.range.None? ==> body == data && ContentLength(q) == |data|)
      && (q.range.Some? ==>
            && (|body| == ContentLength(q) <==> Servable(q))
            && (Servable(q) ==> Start(q) <= End(q) < |data| && body == data[Start(q)..End(q) + 1]))
  {
    hide First, Last, End, Piece, Body, Servable, IsRun, Next, After;
    InitialInv(q);
    RunsKeepInv(q, Initial(q), run);
    var s := After(q, Initial(q), run);
    assert s.pushed == Span(First(q), |s.pushed|);
    if q.range.None? {
      WholeFile(q, data);
      FirstOfWhole(q);
    } else {
      RangeGoesForward(q);
      assert s.pushed[|s.pushed| - 1] < |q.chunks|;
      WholeRange(q, data, |s.pushed|);
    }
  }

  /** A range that is not servable: of a file of five bytes in chunks of two, the bytes from
      the second on. The run in which every chunk arrives and `push` never asks for a pause
      comes to its end with three of the four announced bytes. */
  lemma UnservableRange(data: Bytes)
    requires |data| == 5
    ensures var q := Request(Chunks(data, 2), 2, 5, Some(1));
      var run := [Arrive(0, false), Arrive(0, false), Arrive(0, false)];
      && IsFor(q, data) && !Servable(q) && IsRun(q, Initial(q), run)
      && var s := After(q, Initial(q), run);
      && s.ends == 1 && s.pushed == [0, 1, 2] && |q.chunks| == 3
      && ContentLength(q) == 4 && Body(q, s.pushed) == [data[1], data[3], data[4]]
  {
    hide IsRun, After, Body, Chunks, CeilDiv;
    var q := Request(Chunks(data, 2), 2, 5, Some(1));
    ThreeChunks(data);
    var a := Arrive(0, false);
    var s0 := Initial(q);
    assert s0 == State(true, false, -1, [0], [], 0, false);
    var s1 := Next(q, s0, a);
    assert s1 == State(true, false, -1, [1], [0], 0, false);
    var s2 := Next(q, s1, a);
    assert s2 == State(true, false, -1, [2], [0, 1], 0, false);
    assert Next(q, s2, a) == State(true, false, -1, [], [0, 1, 2], 1, false);
    ThreeSteps(q, s0, a, a, a);
    ThreePieces(q, data[0..2], data[2..4], data[4..5]);
  }

  lemma AreThree(data: Bytes)
    requires |data| == 5
    ensures |Chunks(data, 2)| == 3
  {
    ManyChunksIffLong(data, 2);
  }

  lemma ThreeChunks(data: Bytes)
    requires |data| == 5
    ensures Chunks(data, 2) == [data[0..2], data[2..4], data[4..5]]
  {
    hide Chunks, ChunkAt;
    AreThree(data);
    var q := Request(Chunks(data, 2), 2, 5, None);
    ChunkIsStretch(q, data, 0);
    ChunkIsStretch(q, data, 1);
    ChunkIsStretch(q, data, 2);
  }

  lemma ThreeSteps(q: Request, s: State, a: Step, b: Step, c: Step)
    requires WellFormed(q) && Possible(q, s, a) && Possible(q, Next(q, s, a), b)
    requires Possible(q, Next(q, Next(q, s, a), b), c)
    ensures IsRun(q, s, [a, b, c]) && After(q, s, [a, b, c]) == Next(q, Next(q, Next(q, s, a), b), c)
  {
    hide Next, Possible;
    var s1 := Next(q, s, a);
    var s2 := Next(q, s1, b);
    assert [a, b, c][1..] == [b, c] && [b, c][1..] == [c] && [c][1..] == [];
    var s3 := Next(q, s2, c);
    assert IsRun(q, s3, []) && After(q, s3, []) == s3;
    assert IsRun(q, s2, [c]) && After(q, s2, [c]) == Next(q, s2, c);
    assert IsRun(q, s1, [b, c]) && After(q, s1, [b, c]) == Next(q, s2, c);
  }

  lemma ShortSlices(b: Bytes)
    ensures |b| == 2 ==> Slice(b, 1, 5) == [b[1]] && Slice(b, -1, 3) == [b[1]]
    ensures |b| == 1 ==> Slice(b, -3, 1) == [b[0]]
  {
  }

  lemma ThreePieces(q: Request, a: Bytes, b: Bytes, c: Bytes)
    requires q == Request([a, b, c], 2, 5, Some(1)) && |a| == 2 && |b| == 2 && |c| == 1
    ensures Body(q, [0, 1, 2]) == [a[1], b[1], c[0]]
  {
    hide Slice, Body;
    ShortSlices(a);
    ShortSlices(b);
    ShortSlices(c);
    assert Piece(q, 0) == [a[1]] && Piece(q, 1) == [b[1]] && Piece(q, 2) == [c[0]];
    assert Span(0, 0) == [] && Span(0, 1) == [0] && Span(0, 2) == [0, 1] && Span(0, 3) == [0, 1, 2];
    BodyGrows(q, 1);
    BodyGrows(q, 2);
    BodyGrows(q, 3);
  }

  lemma FirstOfWhole(q: Request)
    requires WellFormed(q) && q.range.None?
    ensures First(q) == 0
  {
  }

  // ---------------------------------------------------------------------- one chunk

  /** `serveReadableStreamWithFullData`, for a file of one chunk. */
  function FullBody(q: Request, data: Bytes): Bytes {
    if q.range.None? then data else Slice(data, Start(q), End(q) + 1)
  }

  /** With all data at hand every range that starts inside the file is served exactly, and
      no other range is. */
  lemma FullDataIsExact(q: Request, data: Bytes)
    requires q.total == |data|
    ensures q.range.None? ==> FullBody(q, data) == data && ContentLength(q) == |data|
    ensures q.range.Some? ==> (|FullBody(q, data)| == ContentLength(q) <==> Start(q) < |data|)
    ensures q.range.Some? && Start(q) < |data| ==>
      Start(q) <= End(q) < |data| && FullBody(q, data) == data[Start(q)..End(q) + 1]
  {
  }

  // ---------------------------------------------------------------------- in place

  lemma BodyAppend(q: Request, pushed: seq<nat>, idx: nat)
    requires idx < |q.chunks| && forall i :: 0 <= i < |pushed| ==> pushed[i] < |q.chunks|
    ensures Body(q, pushed + [idx]) == Body(q, pushed) + Piece(q, idx)
  {
  }

  lemma PieceOfChunk(q: Request, idx: nat)
    requires idx < |q.chunks|
    ensures q.range.None? ==> Piece(q, idx) == q.chunks[idx]
    ensures q.range.Some? ==> Piece(q, idx) == Slice(q.chunks[idx], Start(q) - idx * q.size, End(q) - idx * q.size + 1)
  {
  }

  /** The closure of `createReadableStream`. */
  class Stream {
    const q: Request
    var downloading: bool
    var closed: bool
    var lastChunkIdx: int
    var inflight: seq<nat>
    var sent: Bytes
    var ends: nat
    var failed: bool
    ghost var pushed: seq<nat>

    ghost function Now(): State
      reads this
    {
      State(downloading, closed, lastChunkIdx, inflight, pushed, ends, failed)
    }

    /** What was sent is the slices of what was pushed. */
    ghost predicate Valid()
      reads this
    {
      && WellFormed(q)
      && (forall i :: 0 <= i < |pushed| ==> pushed[i] < |q.chunks|)
      && sent == Body(q, pushed)
    }

    constructor (q: Request)
      requires WellFormed(q)
      ensures this.q == q && Valid() && Now() == Initial(q) && Inv(q, Now())
    {
      this.q := q;
      downloading, closed, lastChunkIdx := true, false, -1;
      inflight, sent, ends, failed, pushed := [], [], 0, false, [];
      new;
      DownloadChunk(First(q));
      InitialInv(q);
    }

    /** `downloadChunk` up to its await. */
    method DownloadChunk(idx: nat)
      requires Valid()
      modifies this`ends, this`inflight
      ensures Valid() && Now() == Download(q, old(Now()), idx)
    {
      if idx > Last(q) {
        ends := ends + 1;
        return;
      }
      inflight := inflight + [idx];
    }

    method PushChunk(idx: nat, chunk: Bytes, full: bool)
      requires Valid() && idx < |q.chunks| && chunk == q.chunks[idx]
      modifies this`sent, this`pushed, this`downloading, this`lastChunkIdx
      ensures Valid() && Now() == Pushed(old(Now()), idx, full)
    {
      hide Body, Slice, Start, End, Piece;
      BodyAppend(q, pushed, idx);
      PieceOfChunk(q, idx);
      var data := if q.range.None? then chunk else Slice(chunk, Start(q) - idx * q.size, End(q) - idx * q.size + 1);
      sent := sent + data;
      pushed := pushed + [idx];
      if full {
        downloading := false;
        lastChunkIdx := idx;
      }
    }

    /** The rest of `downloadChunk`, when a chunk arrives. */
    method ChunkArrives(k: nat, full: bool)
      requires Valid() && Inv(q, Now()) && Possible(q, Now(), Arrive(k, full))
      modifies this
      ensures Valid() && Now() == Next(q, old(Now()), Arrive(k, full)) && Inv(q, Now())
    {
      hide Body, Piece, First, Last, Inv;
      NextKeepsInv(q, Now(), Arrive(k, full));
      var idx := inflight[k];
      inflight := inflight[..k] + inflight[k + 1..];
      PushChunk(idx, q.chunks[idx], full);
      if downloading {
        DownloadChunk(idx + 1);
      }
    }

    method DownloadFails(k: nat)
      requires Valid() && Inv(q, Now()) && Possible(q, Now(), Fail(k))
      modifies this
      ensures Valid() && Now() == Next(q, old(Now()), Fail(k)) && Inv(q, Now())
    {
      hide Inv;
      NextKeepsInv(q, Now(), Fail(k));
      inflight := inflight[..k] + inflight[k + 1..];
      failed := true;
    }

    /** `read`: the consumer has room again. */
    method ReadMore()
      requires Valid() && Inv(q, Now())
      modifies this
      ensures Valid() && Now() == Next(q, old(Now()), Read) && Inv(q, Now())
    {
      hide Body, Piece, First, Last;
      NextKeepsInv(q, Now(), Read);
      if !downloading && !closed {
        downloading := true;
        DownloadChunk(lastChunkIdx + 1);
      }
    }

    method ClientCloses()
      requires Valid() && Inv(q, Now())
      modifies this
      ensures Valid() && Now() == Next(q, old(Now()), Close) && Inv(q, Now())
    {
      hide Inv;
      NextKeepsInv(q, Now(), Close);
      downloading := false;
      closed := true;
    }
  }
}
