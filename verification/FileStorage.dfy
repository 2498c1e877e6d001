/** Files in content-addressed chunks (`src/client/storage/index.ts` and
    `src/client/storage/chunk/upload.ts`): cutting a buffer up, the info chunk with its
    Merkle tree, and putting the buffer together again from its id. */
module FileStorage {
  import opened Common
  import opened Merkle

  datatype Result<+T> = Ok(value: T) | Err(error: Error)
  datatype Error = ChunkNotFound | BadJson | BadFileType | BadHashType | BadMerkle

  /** What the JSON of an info chunk says. */
  datatype Info = Info(fileType: string, chunks: seq<Bytes>, hashType: string, filesize: int, merkle: seq<Bytes>)

  /** `encode` and `decode` stand for the JSON text; an id is the hash it is the hex of. */
  datatype Env = Env(hash: Digest, encode: Info -> Bytes, decode: Bytes -> Option<Info>,
                     prologue: Bytes, chunkSize: nat)

  ghost predicate Lawful(env: Env) {
    env.chunkSize > 0 && forall i :: env.decode(env.encode(i)) == Some(i)
  }

  // -------------------------------------------------------------------- chunks

  function CeilDiv(n: nat, d: nat): nat
    requires d > 0
  {
    (n + d - 1) / d
  }

  function ChunkAt(buf: Bytes, size: nat, i: nat): Bytes
    requires i * size <= |buf|
  {
    buf[i * size..if (i + 1) * size <= |buf| then (i + 1) * size else |buf|]
  }

  /** The first `n` chunks of a buffer. */
  function ChunksUpTo(buf: Bytes, size: nat, n: nat): (r: seq<Bytes>)
    requires size > 0 && n <= CeilDiv(|buf|, size)
    ensures |r| == n
  {
    if n == 0 then []
    else
      ChunkStarts(|buf|, size, n - 1);
      ChunksUpTo(buf, size, n - 1) + [ChunkAt(buf, size, n - 1)]
  }

  lemma MulNext(i: nat, size: nat)
    ensures (i + 1) * size == i * size + size
  {
  }

  lemma MulMonotone(i: nat, j: nat, size: nat)
    requires i <= j
    ensures i * size <= j * size
  {
  }

  lemma CeilDivBounds(length: nat, size: nat)
    requires size > 0
    ensures var q := CeilDiv(length, size); length <= q * size < length + size
  {
  }

  lemma ChunkStarts(length: nat, size: nat, i: nat)
    requires size > 0 && i < CeilDiv(length, size)
    ensures i * size < length
  {
    CeilDivBounds(length, size);
    MulMonotone(i + 1, CeilDiv(length, size), size);
    MulNext(i, size);
  }

  function Chunks(buf: Bytes, size: nat): seq<Bytes>
    requires size > 0
  {
    var total := CeilDiv(|buf|, size);
    if total <= 1 then [buf] else ChunksUpTo(buf, size, total)
  }

  /** `chunkify`. */
  method Chunkify(buf: Bytes, size: nat) returns (chunks: seq<Bytes>)
    requires size > 0
    ensures chunks == Chunks(buf, size)
  {
    var total := CeilDiv(|buf|, size);
    if total <= 1 {
      return [buf];
    }
    chunks := [];
    for i := 0 to total
      invariant chunks == ChunksUpTo(buf, size, i)
    {
      ChunkStarts(|buf|, size, i);
      chunks := chunks + [ChunkAt(buf, size, i)];
    }
  }

  function Concat(bufs: seq<Bytes>): Bytes {
    if bufs == [] then [] else Concat(bufs[..|bufs| - 1]) + bufs[|bufs| - 1]
  }

  lemma {:induction false} ChunksUpToConcat(buf: Bytes, size: nat, n: nat)
    requires size > 0 && n <= CeilDiv(|buf|, size)
    ensures n * size <= |buf| ==> Concat(ChunksUpTo(buf, size, n)) == buf[..n * size]
    ensures n * size > |buf| ==> Concat(ChunksUpTo(buf, size, n)) == buf
  {
    hide CeilDiv, ChunkAt;
    if n == 0 {
    } else {
      ChunkStarts(|buf|, size, n - 1);
      ChunksUpToConcat(buf, size, n - 1);
      NextChunk(buf, size, n - 1);
      assert ChunksUpTo(buf, size, n)[..n - 1] == ChunksUpTo(buf, size, n - 1);
    }
  }

  lemma NextChunk(buf: Bytes, size: nat, i: nat)
    requires i * size < |buf|
    ensures (i + 1) * size <= |buf| ==> buf[..i * size] + ChunkAt(buf, size, i) == buf[..(i + 1) * size]
    ensures (i + 1) * size > |buf| ==> buf[..i * size] + ChunkAt(buf, size, i) == buf
  {
  }

  // ------------------------------------------------------------------ the store

  /** The chunk files. A chunk whose file exists is not written again; `collided` records
      that it was a different chunk. */
  datatype Store = Store(chunks: map<Bytes, Bytes>, collided: bool)

  function Put(env: Env, s: Store, c: Bytes): Store {
    var id := env.hash(c);
    if id in s.chunks then s.(collided := s.collided || s.chunks[id] != c)
    else s.(chunks := s.chunks[id := c])
  }

  function PutAll(env: Env, s: Store, cs: seq<Bytes>): Store {
    if cs == [] then s else Put(env, PutAll(env, s, cs[..|cs| - 1]), cs[|cs| - 1])
  }

  ghost predicate Extends(s: Store, s': Store) {
    (forall id :: id in s.chunks ==> id in s'.chunks && s'.chunks[id] == s.chunks[id]) && (s.collided ==> s'.collided)
  }

  /** Each of these chunks can be fetched by its hash. */
  predicate Stocked(env: Env, s: Store, cs: seq<Bytes>) {
    forall c :: c in cs ==> env.hash(c) in s.chunks && s.chunks[env.hash(c)] == c
  }

  /** Chunks that were put stay, whatever else is put; without a collision all of them can
      be fetched. */
  lemma {:induction false} PutAllStores(env: Env, s: Store, cs: seq<Bytes>)
    ensures var s' := PutAll(env, s, cs); Extends(s, s') && (!s'.collided ==> Stocked(env, s', cs))
  {
    if cs == [] {
    } else {
      PutAllStores(env, s, cs[..|cs| - 1]);
    }
  }

  // --------------------------------------------------------------------- upload

  function HashAll(env: Env, cs: seq<Bytes>): (r: seq<Bytes>)
    ensures |r| == |cs|
  {
    seq(|cs|, i requires 0 <= i < |cs| => env.hash(cs[i]))
  }

  /** `chunksToTotalLength`. */
  function TotalLength(cs: seq<Bytes>, size: nat): int
    requires cs != []
  {
    (|cs| - 1) * size + |cs[|cs| - 1]|
  }

  function InfoOf(env: Env, cs: seq<Bytes>): Info
    requires cs != []
  {
    Info("file", HashAll(env, cs), "keccak256", TotalLength(cs, env.chunkSize), Tree(HashAll(env, cs), env.hash))
  }

  /** `createChunkInfoChunk`. */
  function InfoChunk(env: Env, cs: seq<Bytes>): Bytes
    requires cs != []
  {
    env.prologue + env.encode(InfoOf(env, cs))
  }

  /** What is stored for a buffer: its chunks, and the info chunk if there are several. */
  function Stored(env: Env, buf: Bytes): seq<Bytes>
    requires env.chunkSize > 0
  {
    var cs := Chunks(buf, env.chunkSize);
    if |cs| <= 1 then cs else cs + [InfoChunk(env, cs)]
  }

  /** `uploadData`: the file id is the hash of the last chunk stored. */
  function FileId(env: Env, buf: Bytes): Bytes
    requires env.chunkSize > 0
  {
    var st := Stored(env, buf);
    env.hash(st[|st| - 1])
  }

  function Upload(env: Env, s: Store, buf: Bytes): Store
    requires env.chunkSize > 0
  {
    PutAll(env, s, Stored(env, buf))
  }

  // ------------------------------------------------------------------- download

  /** `parseChunkInfo`. */
  function ParseInfo(env: Env, chunk: Bytes): Result<Info>
    requires |chunk| >= |env.prologue|
  {
    match env.decode(chunk[|env.prologue|..])
    case None => Err(BadJson)
    case Some(i) =>
      if i.fileType != "file" then Err(BadFileType)
      else if i.hashType != "keccak256" then Err(BadHashType)
      else if Tree(i.chunks, env.hash) != i.merkle then Err(BadMerkle)
      else Ok(i)
  }

  function FetchAll(s: Store, ids: seq<Bytes>): Option<seq<Bytes>> {
    if ids == [] then Some([])
    else
      var front := FetchAll(s, ids[..|ids| - 1]);
      var last := ids[|ids| - 1];
      if front.None? || last !in s.chunks then None else Some(front.value + [s.chunks[last]])
  }

  /** The last chunk is cut to the recorded size. */
  function Reassemble(bufs: seq<Bytes>, filesize: int, size: nat): Bytes {
    if bufs == [] then []
    else
      var n := |bufs| - 1;
      Concat(bufs[..n]) + Slice(bufs[n], 0, filesize - n * size)
  }

  /** `getFile`, on what the chunk store holds. */
  function GetFile(env: Env, s: Store, id: Bytes): Result<Bytes> {
    if id !in s.chunks then Err(ChunkNotFound)
    else if !(env.prologue <= s.chunks[id]) then Ok(s.chunks[id])
    else
      match ParseInfo(env, s.chunks[id])
      case Err(e) => Err(e)
      case Ok(info) =>
        var bufs := FetchAll(s, info.chunks);
        if bufs.None? then Err(ChunkNotFound) else Ok(Reassemble(bufs.value, info.filesize, env.chunkSize))
  }

  // ------------------------------------------------------------------ round trip

  lemma {:induction false} FetchAllStored(env: Env, s: Store, cs: seq<Bytes>)
    requires Stocked(env, s, cs)
    ensures FetchAll(s, HashAll(env, cs)) == Some(cs)
  {
    var ids := HashAll(env, cs);
    if cs == [] {
    } else {
      var front := cs[..|cs| - 1];
      assert ids[..|ids| - 1] == HashAll(env, front);
      assert front + [cs[|cs| - 1]] == cs && ids[|ids| - 1] == env.hash(cs[|cs| - 1]);
      assert cs[|cs| - 1] in cs;
      FetchAllStored(env, s, front);
    }
  }

  lemma ParseOwnInfo(env: Env, cs: seq<Bytes>)
    requires Lawful(env) && cs != []
    ensures ParseInfo(env, InfoChunk(env, cs)) == Ok(InfoOf(env, cs))
  {
  }

  /** The recorded size is exact, and so is the cut of the last chunk. */
  lemma ChunksReassemble(buf: Bytes, size: nat)
    requires size > 0
    ensures var cs := Chunks(buf, size);
      cs != [] && TotalLength(cs, size) == |buf| && Reassemble(cs, TotalLength(cs, size), size) == buf
  {
    var cs, n := Chunks(buf, size), CeilDiv(|buf|, size);
    if n > 1 {
      LastChunk(buf, size, n);
      CutNothing(cs[n - 1], |cs[n - 1]|);
    } else {
      assert cs == [buf] && cs[..0] == [];
      assert Concat(cs[..0]) == [];
    }
  }

  lemma LastChunk(buf: Bytes, size: nat, n: nat)
    requires size > 0 && n == CeilDiv(|buf|, size) > 1
    ensures var cs := ChunksUpTo(buf, size, n);
      && |cs[n - 1]| == |buf| - (n - 1) * size
      && Concat(cs[..n - 1]) + cs[n - 1] == buf
  {
    CeilDivBounds(|buf|, size);
    ChunkStarts(|buf|, size, n - 1);
    MulNext(n - 1, size);
    ChunksUpToConcat(buf, size, n - 1);
    var cs, at := ChunksUpTo(buf, size, n), (n - 1) * size;
    assert cs[..n - 1] == ChunksUpTo(buf, size, n - 1);
    assert cs[n - 1] == buf[at..];
    assert buf[..at] + buf[at..] == buf;
  }

  lemma CutNothing(b: Bytes, n: int)
    requires n == |b|
    ensures Slice(b, 0, n) == b
  {
  }

  /** Any store that holds what was stored for a buffer gives it back. */
  lemma StoredReadsBack(env: Env, s: Store, buf: Bytes)
    requires Lawful(env) && Stocked(env, s, Stored(env, buf))
    requires |buf| <= env.chunkSize ==> !(env.prologue <= buf)
    ensures GetFile(env, s, FileId(env, buf)) == Ok(buf)
  {
    hide Tree, Chunks, CeilDiv;
    var cs, st := Chunks(buf, env.chunkSize), Stored(env, buf);
    ChunksReassemble(buf, env.chunkSize);
    ManyChunksIffLong(buf, env.chunkSize);
    assert st[|st| - 1] in st;
    if |cs| > 1 {
      ParseOwnInfo(env, cs);
      assert forall c :: c in cs ==> c in st;
      FetchAllStored(env, s, cs);
    }
  }

  /** File round trip, for every buffer and chunk size: what was uploaded is read back, the
      info chunk passes its checks, and the recorded size is exact; unless two chunks
      collide, or the buffer fits one chunk and starts like an info chunk. */
  lemma FileRoundTrip(env: Env, s: Store, buf: Bytes)
    requires Lawful(env) && !Upload(env, s, buf).collided
    requires |buf| <= env.chunkSize ==> !(env.prologue <= buf)
    ensures GetFile(env, Upload(env, s, buf), FileId(env, buf)) == Ok(buf)
    ensures var cs := Chunks(buf, env.chunkSize);
      |cs| > 1 ==> ParseInfo(env, InfoChunk(env, cs)) == Ok(InfoOf(env, cs)) && InfoOf(env, cs).filesize == |buf|
  {
    hide Tree, Put, PutAll, Chunks, CeilDiv, Stocked, GetFile, FileId;
    var cs := Chunks(buf, env.chunkSize);
    PutAllStores(env, s, Stored(env, buf));
    StoredReadsBack(env, Upload(env, s, buf), buf);
    ChunksReassemble(buf, env.chunkSize);
    ParseOwnInfo(env, cs);
  }

  /** What is stored for a buffer, field by field: the buffer itself if it fits one chunk;
      otherwise its chunks and an info chunk with their hashes, the length of the buffer and
      a tree over the hashes; and the file id is the hash of the one or of the other. */
  lemma StoredIs(env: Env, buf: Bytes)
    requires env.chunkSize > 0
    ensures |buf| <= env.chunkSize ==> Stored(env, buf) == [buf] && FileId(env, buf) == env.hash(buf)
    ensures |buf| > env.chunkSize ==>
      var cs, st := Chunks(buf, env.chunkSize), Stored(env, buf);
      && |cs| > 1 && |st| == |cs| + 1 && st[..|cs|] == cs && FileId(env, buf) == env.hash(st[|cs|])
      && var i := InfoOf(env, cs);
      && st[|cs|] == env.prologue + env.encode(i)
      && i.fileType == "file" && i.hashType == "keccak256" && i.filesize == |buf|
      && |i.chunks| == |cs| && (forall k :: 0 <= k < |cs| ==> i.chunks[k] == env.hash(cs[k]))
      && |i.merkle| > |cs| && i.merkle[..|cs|] == i.chunks && i.merkle[|i.merkle| - 1] == Root(i.chunks, env.hash)
  {
    hide Tree, Chunks, CeilDiv, Root;
    ManyChunksIffLong(buf, env.chunkSize);
    ChunksReassemble(buf, env.chunkSize);
    var cs := Chunks(buf, env.chunkSize);
    if |buf| > env.chunkSize {
      TreeEnds(HashAll(env, cs), env.hash);
    }
  }

  /** An info chunk is accepted only with the right types and a tree that begins with its
      chunk list and ends with the root over it. */
  lemma AcceptedInfo(env: Env, chunk: Bytes)
    requires |chunk| >= |env.prologue| && ParseInfo(env, chunk).Ok?
    ensures var i := ParseInfo(env, chunk).value;
      && env.decode(chunk[|env.prologue|..]) == Some(i)
      && i.fileType == "file" && i.hashType == "keccak256" && i.merkle == Tree(i.chunks, env.hash)
      && (i.chunks != [] ==>
            && |i.merkle| > |i.chunks| && i.merkle[..|i.chunks|] == i.chunks
            && i.merkle[|i.merkle| - 1] == Root(i.chunks, env.hash))
  {
    hide Tree, Root;
    var i := ParseInfo(env, chunk).value;
    if i.chunks != [] {
      TreeEnds(i.chunks, env.hash);
    }
  }

  /** A file whose info chunk has another root than its chunk list is rejected. */
  lemma WrongTreeIsRejected(env: Env, s: Store, id: Bytes, i: Info)
    requires id in s.chunks && s.chunks[id] == env.prologue + env.encode(i) && Lawful(env)
    requires i.fileType == "file" && i.hashType == "keccak256" && i.chunks != []
    requires i.merkle == [] || i.merkle[|i.merkle| - 1] != Root(i.chunks, env.hash)
    ensures GetFile(env, s, id) == Err(BadMerkle)
  {
    hide Tree, Root;
    TreeEnds(i.chunks, env.hash);
    assert s.chunks[id][|env.prologue|..] == env.encode(i);
  }

  lemma {:induction false} ConcatOfFull(bufs: seq<Bytes>, size: nat)
    requires forall i :: 0 <= i < |bufs| ==> |bufs[i]| == size
    ensures |Concat(bufs)| == |bufs| * size
  {
    if bufs == [] {
    } else {
      ConcatOfFull(bufs[..|bufs| - 1], size);
      MulNext(|bufs| - 1, size);
    }
  }

  /** `getFile` cuts what the chunks hold to the recorded size, if that ends in the last one. */
  lemma ReassembleCuts(bufs: seq<Bytes>, filesize: nat, size: nat)
    requires bufs != [] && (forall i :: 0 <= i < |bufs| - 1 ==> |bufs[i]| == size)
    requires (|bufs| - 1) * size <= filesize
    ensures var all := Concat(bufs);
      Reassemble(bufs, filesize, size) == if filesize <= |all| then all[..filesize] else all
  {
    var n := |bufs| - 1;
    ConcatOfFull(bufs[..n], size);
  }

  /** What `getFile` answers: a chunk that is no info chunk as it is, and for an accepted
      info chunk what its chunks hold, cut to size; an error if anything is not there. */
  lemma GetFileAnswers(env: Env, s: Store, id: Bytes)
    ensures id !in s.chunks ==> GetFile(env, s, id) == Err(ChunkNotFound)
    ensures id in s.chunks && !(env.prologue <= s.chunks[id]) ==> GetFile(env, s, id) == Ok(s.chunks[id])
    ensures id in s.chunks && env.prologue <= s.chunks[id] && ParseInfo(env, s.chunks[id]).Ok? ==>
      var i := ParseInfo(env, s.chunks[id]).value;
      && (GetFile(env, s, id).Ok? <==> forall c :: c in i.chunks ==> c in s.chunks)
      && (GetFile(env, s, id).Err? ==> GetFile(env, s, id) == Err(ChunkNotFound))
      && (i.chunks == [] ==> GetFile(env, s, id) == Ok([]))
      && (GetFile(env, s, id).Ok? && i.chunks != [] && 0 <= i.filesize && (|i.chunks| - 1) * env.chunkSize <= i.filesize
          && (forall k :: 0 <= k < |i.chunks| - 1 ==> |s.chunks[i.chunks[k]]| == env.chunkSize) ==>
            FetchAll(s, i.chunks).Some?
            && var all := Concat(FetchAll(s, i.chunks).value);
            GetFile(env, s, id) == Ok(if i.filesize <= |all| then all[..i.filesize] else all))
  {
    hide ParseInfo, Concat, Reassemble;
    if id in s.chunks && env.prologue <= s.chunks[id] && ParseInfo(env, s.chunks[id]).Ok? {
      var i := ParseInfo(env, s.chunks[id]).value;
      FetchAllMeans(s, i.chunks);
      EmptyFile(i.filesize, env.chunkSize);
      var bufs := FetchAll(s, i.chunks);
      if bufs.Some? && i.chunks != [] && 0 <= i.filesize && (|i.chunks| - 1) * env.chunkSize <= i.filesize
         && forall k :: 0 <= k < |i.chunks| - 1 ==> |s.chunks[i.chunks[k]]| == env.chunkSize {
        ReassembleCuts(bufs.value, i.filesize, env.chunkSize);
      }
    }
  }

  lemma EmptyFile(filesize: int, size: nat)
    ensures Reassemble([], filesize, size) == []
  {
  }

  lemma {:induction false} FetchAllMeans(s: Store, ids: seq<Bytes>)
    ensures FetchAll(s, ids).Some? <==> forall c :: c in ids ==> c in s.chunks
    ensures FetchAll(s, ids).Some? ==>
      var bufs := FetchAll(s, ids).value;
      |bufs| == |ids| && forall k :: 0 <= k < |ids| ==> ids[k] in s.chunks && bufs[k] == s.chunks[ids[k]]
  {
    if ids == [] {
    } else {
      var front, last := ids[..|ids| - 1], ids[|ids| - 1];
      assert ids == front + [last];
      FetchAllMeans(s, front);
    }
  }

  lemma ManyChunksIffLong(buf: Bytes, size: nat)
    requires size > 0
    ensures |Chunks(buf, size)| > 1 <==> |buf| > size
    ensures |Chunks(buf, size)| <= 1 ==> Chunks(buf, size) == [buf]
  {
    var n := CeilDiv(|buf|, size);
    CeilDivBounds(|buf|, size);
    if n <= 1 {
      MulMonotone(n, 1, size);
    } else {
      MulMonotone(2, n, size);
    }
  }

  /** The prologue hypothesis is needed: an info chunk that fits one chunk, uploaded as a
      file of its own, reads back as the file it describes. */
  lemma UploadedInfoChunkReadsAsItsFile(env: Env, s: Store, buf: Bytes)
    requires Lawful(env) && |buf| > env.chunkSize
    requires var info := InfoChunk(env, Chunks(buf, env.chunkSize));
      |info| <= env.chunkSize && !Upload(env, Upload(env, s, buf), info).collided
    ensures var info := InfoChunk(env, Chunks(buf, env.chunkSize));
      && info != buf
      && GetFile(env, Upload(env, Upload(env, s, buf), info), FileId(env, info)) == Ok(buf)
  {
    hide Tree, Put, Chunks, CeilDiv;
    var cs := Chunks(buf, env.chunkSize);
    ChunksReassemble(buf, env.chunkSize);
    var info := InfoChunk(env, cs);
    var s1 := Upload(env, s, buf);
    ManyChunksIffLong(buf, env.chunkSize);
    ManyChunksIffLong(info, env.chunkSize);
    PutAllStores(env, s, Stored(env, buf));
    PutAllStores(env, s1, Stored(env, info));
    assert info in Stored(env, buf) && forall c :: c in cs ==> c in Stored(env, buf);
    ParseOwnInfo(env, cs);
    FetchAllStored(env, Upload(env, s1, info), cs);
  }

  // ------------------------------------------------------------- in place

  /** The chunk directory of the node, and the functions that read and write it. */
  class ChunkDirectory {
    const env: Env
    var chunks: map<Bytes, Bytes>
    ghost var collided: bool

    ghost function Now(): Store
      reads this
    {
      Store(chunks, collided)
    }

    constructor (env: Env)
      ensures this.env == env && Now() == Store(map[], false)
    {
      this.env := env;
      chunks, collided := map[], false;
    }

    /** The loops of `enqueueChunksForUpload` that hash and write the chunks. */
    method EnqueueChunks(cs: seq<Bytes>)
      modifies this
      ensures Now() == PutAll(env, old(Now()), cs)
    {
      var ids := [];
      for i := 0 to |cs|
        invariant |ids| == i && forall j :: 0 <= j < i ==> ids[j] == env.hash(cs[j])
      {
        ids := ids + [env.hash(cs[i])];
      }
      for i := 0 to |cs|
        invariant Now() == PutAll(env, old(Now()), cs[..i])
      {
        assert cs[..i + 1][..i] == cs[..i];
        if ids[i] !in chunks {
          chunks := chunks[ids[i] := cs[i]];
        } else {
          collided := collided || chunks[ids[i]] != cs[i];
        }
      }
      assert cs[..|cs|] == cs;
    }

    /** `uploadData`. */
    method UploadData(buf: Bytes) returns (fileId: Bytes)
      requires env.chunkSize > 0
      modifies this
      ensures Now() == Upload(env, old(Now()), buf) && fileId == FileId(env, buf)
    {
      var cs := Chunkify(buf, env.chunkSize);
      if |cs| <= 1 {
        fileId := env.hash(buf);
      } else {
        var info := InfoChunk(env, cs);
        fileId := env.hash(info);
        cs := cs + [info];
      }
      EnqueueChunks(cs);
    }

    /** `getFile`: one chunk, or all that the info chunk lists, put together. */
    method ReadFile(id: Bytes) returns (r: Result<Bytes>)
      ensures r == GetFile(env, Now(), id)
    {
      if id !in chunks {
        return Err(ChunkNotFound);
      }
      var chunk := chunks[id];
      if !(env.prologue <= chunk) {
        return Ok(chunk);
      }
      var parsed := ParseInfo(env, chunk);
      if parsed.Err? {
        return Err(parsed.error);
      }
      var ids := parsed.value.chunks;
      var bufs := [];
      for i := 0 to |ids|
        invariant FetchAll(Now(), ids[..i]) == Some(bufs)
      {
        assert ids[..i + 1][..i] == ids[..i];
        if ids[i] !in chunks {
          MissingChunk(Now(), ids, i);
          return Err(ChunkNotFound);
        }
        bufs := bufs + [chunks[ids[i]]];
      }
      assert ids[..|ids|] == ids;
      r := Ok(Reassemble(bufs, parsed.value.filesize, env.chunkSize));
    }
  }

  lemma {:induction false} MissingChunk(s: Store, ids: seq<Bytes>, i: nat)
    requires i < |ids| && ids[i] !in s.chunks
    ensures FetchAll(s, ids).None?
  {
    if i == |ids| - 1 {
    } else {
      MissingChunk(s, ids[..|ids| - 1], i);
    }
  }
}
