/** Directory trees in content-addressed storage (`uploadDir` and `getFileIdByPath` of
    `src/client/storage/index.ts`): what was uploaded is found under its path. */
module Directory {
  import opened Common
  import opened FileStorage

  /** A directory tree; the entries of a directory are in the order in which their uploads
      complete. */
  datatype Node = File(bytes: Bytes) | Dir(entries: seq<Entry>)
  datatype Entry = Entry(name: string, node: Node)

  /** An entry of a directory's JSON. */
  datatype DirFile = DirFile(isDir: bool, name: string, size: nat, id: Bytes)

  datatype DirEnv = DirEnv(env: Env, encode: seq<DirFile> -> Bytes, decode: Bytes -> Option<seq<DirFile>>)

  /** JSON text is read back as it was written, and no directory's JSON starts like an
      info chunk. */
  ghost predicate Sane(e: DirEnv) {
    && Lawful(e.env)
    && (forall fs :: e.decode(e.encode(fs)) == Some(fs))
    && (forall fs :: !(e.env.prologue <= e.encode(fs)))
  }

  // ---------------------------------------------------------------------- upload

  /** `calculateDirSize`. */
  function Size(n: Node): nat {
    match n
    case File(b) => |b|
    case Dir(es) => SizeUpTo(n, |es|)
  }

  function SizeUpTo(n: Node, i: nat): nat
    requires n.Dir? && i <= |n.entries|
    decreases n, i
  {
    if i == 0 then 0 else SizeUpTo(n, i - 1) + Size(n.entries[i - 1].node)
  }

  lemma {:induction false} SizeOfPart(a: seq<Entry>, b: seq<Entry>, i: nat)
    requires i <= |b|
    ensures SizeUpTo(Dir(a + b), |a| + i) == SizeUpTo(Dir(a), |a|) + SizeUpTo(Dir(b), i)
    decreases |a| + i
  {
    if i > 0 {
      SizeOfPart(a, b, i - 1);
    } else if a != [] {
      var front, last := a[..|a| - 1], a[|a| - 1..];
      assert front + (last + b) == a + b && front + last == a;
      SizeOfPart(front, last + b, 0);
      SizeOfPart(front, last, 0);
    }
  }

  /** The size of a file is its number of bytes, and that of a directory the sum of the sizes
      of its entries. */
  lemma SizeLaws(f: Bytes, a: seq<Entry>, b: seq<Entry>, x: Entry)
    ensures Size(File(f)) == |f| && Size(Dir([])) == 0
    ensures Size(Dir([x])) == Size(x.node) && Size(Dir(a + b)) == Size(Dir(a)) + Size(Dir(b))
  {
    assert SizeUpTo(Dir([x]), 1) == SizeUpTo(Dir([x]), 0) + Size([x][0].node);
    SizeOfPart(a, b, |b|);
  }

  /** What is uploaded for a node: a file's bytes, a directory's JSON. */
  function Content(e: DirEnv, n: Node): Bytes
    requires e.env.chunkSize > 0
    decreases n, 1, 0
  {
    match n
    case File(b) => b
    case Dir(es) => e.encode(Listing(e, n, |es|))
  }

  /** The first `i` entries of a directory's JSON. */
  function Listing(e: DirEnv, n: Node, i: nat): (r: seq<DirFile>)
    requires e.env.chunkSize > 0 && n.Dir? && i <= |n.entries|
    ensures |r| == i
    decreases n, 0, i
  {
    if i == 0 then [] else Listing(e, n, i - 1) + [Line(e, n, i - 1)]
  }

  function Line(e: DirEnv, n: Node, i: nat): DirFile
    requires e.env.chunkSize > 0 && n.Dir? && i < |n.entries|
    decreases n, 0, 0
  {
    var x := n.entries[i];
    DirFile(x.node.Dir?, x.name, Size(x.node), FileId(e.env, Content(e, x.node)))
  }

  function Id(e: DirEnv, n: Node): Bytes
    requires e.env.chunkSize > 0
  {
    FileId(e.env, Content(e, n))
  }

  /** The chunks `uploadDir` puts: those of the entries, then those of its own JSON. */
  function TreeChunks(e: DirEnv, n: Node): seq<Bytes>
    requires e.env.chunkSize > 0
    decreases n, 1, 0
  {
    match n
    case File(b) => Stored(e.env, b)
    case Dir(es) => EntryChunks(e, n, |es|) + Stored(e.env, Content(e, n))
  }

  function EntryChunks(e: DirEnv, n: Node, i: nat): seq<Bytes>
    requires e.env.chunkSize > 0 && n.Dir? && i <= |n.entries|
    decreases n, 0, i
  {
    if i == 0 then [] else EntryChunks(e, n, i - 1) + TreeChunks(e, n.entries[i - 1].node)
  }

  lemma {:induction false} PutAllAppend(env: Env, s: Store, a: seq<Bytes>, b: seq<Bytes>)
    ensures PutAll(env, s, a + b) == PutAll(env, PutAll(env, s, a), b)
  {
    hide Put;
    if b == [] {
      assert a + b == a;
    } else {
      assert (a + b)[..|a + b| - 1] == a + b[..|b| - 1];
      PutAllAppend(env, s, a, b[..|b| - 1]);
    }
  }

  /** `uploadDir`, where the uploads of a directory's entries complete one after another. */
  method UploadDir(d: ChunkDirectory, e: DirEnv, n: Node) returns (id: Bytes)
    requires d.env == e.env && e.env.chunkSize > 0 && n.Dir?
    modifies d
    ensures d.Now() == PutAll(e.env, old(d.Now()), TreeChunks(e, n))
    ensures id == Id(e, n)
    decreases n
  {
    hide PutAll, Stored, FileId, Size, Content, TreeChunks, EntryChunks;
    ghost var s0 := d.Now();
    var files := [];
    EntryChunksEmpty(e, n, s0);
    for i := 0 to |n.entries|
      invariant files == Listing(e, n, i)
      invariant d.Now() == PutAll(e.env, s0, EntryChunks(e, n, i))
    {
      var x := n.entries[i];
      var xid;
      match x.node {
        case File(b) => xid := d.UploadData(b);
        case Dir(_) => xid := UploadDir(d, e, x.node);
      }
      NodeChunks(e, x.node);
      EntryChunksStep(e, n, i);
      PutAllAppend(e.env, s0, EntryChunks(e, n, i), TreeChunks(e, x.node));
      files := files + [DirFile(x.node.Dir?, x.name, Size(x.node), xid)];
    }
    id := d.UploadData(e.encode(files));
    NodeChunks(e, n);
    PutAllAppend(e.env, s0, EntryChunks(e, n, |n.entries|), Stored(e.env, Content(e, n)));
  }

  lemma EntryChunksEmpty(e: DirEnv, n: Node, s: Store)
    requires e.env.chunkSize > 0 && n.Dir?
    ensures PutAll(e.env, s, EntryChunks(e, n, 0)) == s
  {
  }

  lemma EntryChunksStep(e: DirEnv, n: Node, i: nat)
    requires e.env.chunkSize > 0 && n.Dir? && i < |n.entries|
    ensures EntryChunks(e, n, i + 1) == EntryChunks(e, n, i) + TreeChunks(e, n.entries[i].node)
  {
  }

  lemma NodeChunks(e: DirEnv, n: Node)
    requires e.env.chunkSize > 0
    ensures n.File? ==> Content(e, n) == n.bytes && TreeChunks(e, n) == Stored(e.env, Content(e, n))
    ensures n.Dir? ==> Content(e, n) == e.encode(Listing(e, n, |n.entries|))
    ensures n.Dir? ==> TreeChunks(e, n) == EntryChunks(e, n, |n.entries|) + Stored(e.env, Content(e, n))
  {
  }

  // ------------------------------------------------------------------ paths as text

  predicate IsSeparator(c: char) {
    c == '/' || c == '\\'
  }

  predicate IsWord(w: string) {
    w != "" && forall i :: 0 <= i < |w| ==> !IsSeparator(w[i])
  }

  predicate AreWords(ws: seq<string>) {
    forall i :: 0 <= i < |ws| ==> IsWord(ws[i])
  }

  /** `filePath.split(/[/\\]/).filter(s => s !== '')`. */
  function Segments(path: string): (r: seq<string>)
    ensures AreWords(r)
    ensures path != "" && !IsSeparator(path[|path| - 1]) ==> r != []
  {
    if path == "" then []
    else
      var front, c := path[..|path| - 1], path[|path| - 1];
      var r := Segments(front);
      if IsSeparator(c) then r
      else if front == "" || IsSeparator(front[|front| - 1]) then r + [[c]]
      else r[..|r| - 1] + [r[|r| - 1] + [c]]
  }

  /** The segments joined by slashes. */
  function Text(segs: seq<string>): string {
    if segs == [] then ""
    else if |segs| == 1 then segs[0]
    else Text(segs[..|segs| - 1]) + "/" + segs[|segs| - 1]
  }

  lemma {:induction false} SegmentsOfWord(a: string, w: string)
    requires IsWord(w) && (a == "" || IsSeparator(a[|a| - 1]))
    ensures Segments(a + w) == Segments(a) + [w]
  {
    var front := w[..|w| - 1];
    assert (a + w)[..|a + w| - 1] == a + front;
    if front == "" {
      assert a + front == a && w == [w[|w| - 1]];
    } else {
      SegmentsOfWord(a, front);
      assert (a + front)[|a + front| - 1] == front[|front| - 1];
      assert w == front + [w[|w| - 1]];
    }
  }

  /** Reading a joined path gives its segments. */
  lemma {:induction false} SegmentsOfText(segs: seq<string>)
    requires AreWords(segs)
    ensures Segments(Text(segs)) == segs
  {
    hide Segments;
    if segs == [] {
      SegmentsEmpty("");
    } else if |segs| == 1 {
      SegmentsEmpty("");
      SegmentsOfWord("", segs[0]);
      assert "" + segs[0] == segs[0];
    } else {
      var front, w := segs[..|segs| - 1], segs[|segs| - 1];
      SegmentsOfText(front);
      var a := Text(front) + "/";
      SegmentsEmpty(Text(front));
      SegmentsOfWord(a, w);
      assert front + [w] == segs;
    }
  }

  lemma SegmentsEmpty(s: string)
    ensures Segments("") == []
    ensures Segments(s + "/") == Segments(s)
  {
  }

  lemma SegmentsGrow(s: string, x: char)
    ensures var r := Segments(s);
      Segments(s + [x]) ==
        if x == '/' || x == '\\' then r
        else if s == "" || s[|s| - 1] == '/' || s[|s| - 1] == '\\' then r + [[x]]
        else r[..|r| - 1] + [r[|r| - 1] + [x]]
  {
    assert (s + [x])[..|s|] == s;
  }

  /** A slash or a backslash separates, and nothing else does. */
  lemma {:induction false} SegmentsCut(a: string, b: string, c: char)
    requires c == '/' || c == '\\'
    ensures Segments(a + [c] + b) == Segments(a) + Segments(b)
  {
    hide Segments;
    if b == "" {
      SegmentsGrow(a, c);
      SegmentsEmpty("");
      assert a + [c] + b == a + [c];
    } else {
      var front, x := b[..|b| - 1], b[|b| - 1];
      assert b == front + [x] && a + [c] + b == (a + [c] + front) + [x];
      SegmentsCut(a, front, c);
      SegmentsGrow(front, x);
      SegmentsGrow(a + [c] + front, x);
      if front == "" {
        SegmentsEmpty("");
        assert (a + [c] + front)[|a + [c] + front| - 1] == c;
      } else {
        assert (a + [c] + front)[|a + [c] + front| - 1] == front[|front| - 1];
        if front[|front| - 1] != '/' && front[|front| - 1] != '\\' {
          LastPart(Segments(a), Segments(front), x);
        }
      }
    }
  }

  lemma LastPart(p: seq<string>, q: seq<string>, x: char)
    requires q != []
    ensures (p + q)[..|p + q| - 1] + [(p + q)[|p + q| - 1] + [x]] == p + (q[..|q| - 1] + [q[|q| - 1] + [x]])
  {
  }

  lemma SegmentsOfPlain(w: string)
    requires '/' !in w && '\\' !in w
    ensures Segments(w) == if w == "" then [] else [w]
  {
    if w != "" {
      SegmentsOfWord("", w);
      assert "" + w == w;
    }
  }

  /** The segments of `path.join(...segments)`: `.` is dropped, `..` takes back the segment
      before it, and a path with nothing left is `.`. */
  function Normalize(segs: seq<string>): (r: seq<string>)
    ensures |r| <= |segs| && (AreWords(segs) ==> AreWords(r))
  {
    if segs == [] then []
    else
      var front, last := Normalize(segs[..|segs| - 1]), segs[|segs| - 1];
      if last == "." then front
      else if last == ".." && front != [] && front[|front| - 1] != ".." then front[..|front| - 1]
      else front + [last]
  }

  function Join(segs: seq<string>): (r: seq<string>)
    requires segs != []
    ensures 0 < |r| <= |segs| && (AreWords(segs) ==> AreWords(r))
  {
    if Normalize(segs) == [] then ["."] else Normalize(segs)
  }

  /** The path that is looked up: all after the first segment goes through `path.join`. */
  function Canonical(segs: seq<string>): seq<string> {
    if |segs| <= 1 then segs else [segs[0]] + Join(segs[1..])
  }

  predicate IsNormal(segs: seq<string>) {
    && (forall i :: 0 <= i < |segs| ==> segs[i] != ".")
    && (forall i :: 0 < i < |segs| && segs[i] == ".." ==> segs[i - 1] == "..")
  }

  lemma {:induction false} NormalizeIsNormal(segs: seq<string>)
    ensures IsNormal(Normalize(segs))
  {
    if segs == [] {
    } else {
      NormalizeIsNormal(segs[..|segs| - 1]);
    }
  }

  lemma {:induction false} NormalStays(segs: seq<string>)
    requires IsNormal(segs)
    ensures Normalize(segs) == segs
  {
    if segs == [] {
    } else {
      NormalStays(segs[..|segs| - 1]);
      assert segs[..|segs| - 1] + [segs[|segs| - 1]] == segs;
    }
  }

  /** Joining again on the way down changes nothing. */
  lemma JoinedIsCanonical(segs: seq<string>)
    requires segs != []
    ensures Canonical(Join(segs)) == Join(segs)
  {
    var j := Join(segs);
    NormalizeIsNormal(segs);
    if |j| > 1 {
      NormalStays(j[1..]);
      assert [j[0]] + j[1..] == j;
    }
  }

  // ------------------------------------------------------------------ path lookup

  datatype PathResult = Found(id: Bytes) | NotFound | NotADirectory | Unreadable

  /** `files.find(f => f.name === name)`. */
  function Find(fs: seq<DirFile>, name: string): (r: Option<nat>)
    ensures r.Some? ==> r.value < |fs| && fs[r.value].name == name
    ensures r.Some? ==> forall i :: 0 <= i < r.value ==> fs[i].name != name
    ensures r.None? ==> forall i :: 0 <= i < |fs| ==> fs[i].name != name
  {
    if fs == [] then None
    else if fs[0].name == name then Some(0)
    else match Find(fs[1..], name) { case None => None case Some(i) => Some(i + 1) }
  }

  /** `getFileIdByPath`. */
  function IdByPath(e: DirEnv, s: Store, dirId: Bytes, path: string): PathResult
    decreases |Segments(path)|
  {
    match GetFile(e.env, s, dirId)
    case Err(_) => Unreadable
    case Ok(bytes) =>
      match e.decode(bytes)
      case None => Unreadable
      case Some(fs) =>
        var segs := Segments(path);
        if segs == [] then NotFound
        else
          var i := Find(fs, segs[0]);
          if i.None? then NotFound
          else if |segs| == 1 then Found(fs[i.value].id)
          else if !fs[i.value].isDir then NotADirectory
          else
            SegmentsOfText(Join(segs[1..]));
            IdByPath(e, s, fs[i.value].id, Text(Join(segs[1..])))
  }

  // ------------------------------------------------------------------ what a path means

  predicate DistinctNames(n: Node) {
    n.Dir? ==>
      && (forall i, j :: 0 <= i < j < |n.entries| ==> n.entries[i].name != n.entries[j].name)
      && (forall i :: 0 <= i < |n.entries| ==> DistinctNames(n.entries[i].node))
  }

  /** No file that fits one chunk starts like an info chunk. */
  predicate NoInfoFiles(e: DirEnv, n: Node) {
    match n
    case File(b) => |b| <= e.env.chunkSize ==> !(e.env.prologue <= b)
    case Dir(es) => forall i :: 0 <= i < |es| ==> NoInfoFiles(e, es[i].node)
  }

  /** `found` is the node at `path` below `n`. */
  ghost predicate IsAt(n: Node, path: seq<string>, found: Node)
    decreases |path|
  {
    if path == [] then found == n
    else n.Dir? && exists i ::
      0 <= i < |n.entries| && n.entries[i].name == path[0] && IsAt(n.entries[i].node, path[1..], found)
  }

  /** The same tree with its directories listed in another order. */
  ghost predicate Reordered(n: Node, n': Node)
    decreases n, 1
  {
    match n
    case File(_) => n' == n
    case Dir(es) =>
      && n'.Dir?
      && |n'.entries| == |es|
      && (forall i :: 0 <= i < |es| ==> Moved(n, i, n'.entries))
      && (forall j :: 0 <= j < |es| ==> exists i :: 0 <= i < |es| && es[i].name == n'.entries[j].name)
  }

  ghost predicate Moved(n: Node, i: nat, es': seq<Entry>)
    requires n.Dir? && i < |n.entries|
    decreases n, 0
  {
    exists j :: 0 <= j < |es'| && n.entries[i].name == es'[j].name && Reordered(n.entries[i].node, es'[j].node)
  }

  ghost predicate HasPath(n: Node, path: seq<string>) {
    exists found :: IsAt(n, path, found)
  }

  /** Some part of the path before its end leads to a file. */
  ghost predicate MeetsFile(n: Node, path: seq<string>) {
    exists k, b :: 0 <= k < |path| && IsAt(n, path[..k], File(b))
  }

  // ------------------------------------------------------------------ reading back

  lemma {:induction false} EntryChunksHold(e: DirEnv, n: Node, i: nat, j: nat)
    requires e.env.chunkSize > 0 && n.Dir? && j < i <= |n.entries|
    ensures forall c :: c in TreeChunks(e, n.entries[j].node) ==> c in EntryChunks(e, n, i)
  {
    hide TreeChunks;
    if j == i - 1 {
    } else {
      EntryChunksHold(e, n, i - 1, j);
    }
  }

  /** A node whose chunks are stored reads back, and so do its entries. */
  lemma NodeReadsBack(e: DirEnv, s: Store, n: Node)
    requires Sane(e) && NoInfoFiles(e, n) && Stocked(e.env, s, TreeChunks(e, n))
    ensures GetFile(e.env, s, Id(e, n)) == Ok(Content(e, n))
    ensures n.Dir? ==> forall i :: 0 <= i < |n.entries| ==> Stocked(e.env, s, TreeChunks(e, n.entries[i].node))
  {
    hide Content, TreeChunks, EntryChunks, Stored, GetFile, FileId;
    NodeChunks(e, n);
    assert forall c :: c in Stored(e.env, Content(e, n)) ==> c in TreeChunks(e, n);
    StoredReadsBack(e.env, s, Content(e, n));
    if n.Dir? {
      forall i | 0 <= i < |n.entries| ensures Stocked(e.env, s, TreeChunks(e, n.entries[i].node)) {
        EntryChunksHold(e, n, |n.entries|, i);
      }
    }
  }

  lemma {:induction false} ListingAt(e: DirEnv, n: Node, i: nat, j: nat)
    requires e.env.chunkSize > 0 && n.Dir? && j < i <= |n.entries|
    ensures Listing(e, n, i)[j] == Line(e, n, j)
  {
    hide Line;
    if j == i - 1 {
    } else {
      ListingAt(e, n, i - 1, j);
    }
  }

  lemma ListingLines(e: DirEnv, n: Node)
    requires e.env.chunkSize > 0 && n.Dir?
    ensures var fs := Listing(e, n, |n.entries|);
      forall i :: 0 <= i < |n.entries| ==>
        fs[i] == DirFile(n.entries[i].node.Dir?, n.entries[i].name, Size(n.entries[i].node), Id(e, n.entries[i].node))
  {
    hide Listing, Content, FileId, Size;
    forall i | 0 <= i < |n.entries| ensures Listing(e, n, |n.entries|)[i] == Line(e, n, i) {
      ListingAt(e, n, |n.entries|, i);
    }
  }

  /** A stored directory reads as the list of its entries: of each whether it is a directory,
      its name, its size and its id. */
  lemma StoredListing(e: DirEnv, s: Store, n: Node)
    requires Sane(e) && NoInfoFiles(e, n) && Stocked(e.env, s, TreeChunks(e, n)) && n.Dir?
    ensures GetFile(e.env, s, Id(e, n)).Ok?
    ensures var fs := e.decode(GetFile(e.env, s, Id(e, n)).value);
      && fs.Some? && |fs.value| == |n.entries|
      && forall i :: 0 <= i < |n.entries| ==>
           var x := n.entries[i];
           fs.value[i] == DirFile(x.node.Dir?, x.name, Size(x.node), Id(e, x.node))
  {
    hide Content, TreeChunks, Stocked, GetFile, FileId, Listing, Size;
    NodeReadsBack(e, s, n);
    NodeChunks(e, n);
    ListingLines(e, n);
  }

  /** What the lookup of `path` amounts to in the uploaded tree: `found`, or nothing. */
  ghost predicate Answers(e: DirEnv, s: Store, n: Node, segs: seq<string>, r: PathResult, found: Option<Node>)
    requires e.env.chunkSize > 0
  {
    match found
    case None => (segs == [] || !HasPath(n, segs)) && r == if MeetsFile(n, segs) then NotADirectory else NotFound
    case Some(x) =>
      && segs != [] && IsAt(n, segs, x)
      && r == Found(Id(e, x))
      && NoInfoFiles(e, x) && Stocked(e.env, s, TreeChunks(e, x))
  }

  lemma {:induction false} LookupAnswers(e: DirEnv, s: Store, n: Node, path: string) returns (found: Option<Node>)
    requires Sane(e) && NoInfoFiles(e, n) && DistinctNames(n) && n.Dir?
    requires Stocked(e.env, s, TreeChunks(e, n))
    ensures Answers(e, s, n, Canonical(Segments(path)), IdByPath(e, s, Id(e, n), path), found)
    decreases |Segments(path)|
  {
    hide Content, TreeChunks, Stocked, GetFile, FileId, Listing, Segments, Text, Normalize, MeetsFile;
    var segs := Segments(path);
    var fs := Listing(e, n, |n.entries|);
    NodeReadsBack(e, s, n);
    NodeChunks(e, n);
    ListingLines(e, n);
    found := None;
    MeetsNoFile(n, Canonical(segs));
    if segs == [] {
    } else {
      var i := Find(fs, segs[0]);
      if i.Some? {
        var x := n.entries[i.value].node;
        if |segs| == 1 {
          found := Some(x);
          assert IsAt(x, segs[1..], x);
        } else if x.Dir? {
          var rest := Join(segs[1..]);
          SegmentsOfText(rest);
          JoinedIsCanonical(segs[1..]);
          found := LookupAnswers(e, s, x, Text(rest));
          OneStep(n, [segs[0]] + rest, i.value);
          MeetsFileBelow(n, [segs[0]] + rest, i.value);
        } else {
          OneStep(n, Canonical(segs), i.value);
          MeetsFileHere(n, Canonical(segs), i.value);
        }
      }
    }
  }

  /** In a directory with distinct names a path goes through one entry. */
  lemma OneStep(n: Node, path: seq<string>, i: nat)
    requires DistinctNames(n) && n.Dir? && path != [] && i < |n.entries| && n.entries[i].name == path[0]
    ensures forall x :: IsAt(n, path, x) <==> IsAt(n.entries[i].node, path[1..], x)
  {
  }

  /** No file is met on an empty path, nor where no entry has the first name. */
  lemma MeetsNoFile(n: Node, path: seq<string>)
    requires n.Dir?
    ensures path == [] || (forall i :: 0 <= i < |n.entries| ==> n.entries[i].name != path[0]) ==> !MeetsFile(n, path)
    ensures |path| == 1 ==> !MeetsFile(n, path)
  {
  }

  lemma MeetsFileHere(n: Node, path: seq<string>, i: nat)
    requires n.Dir? && |path| > 1 && i < |n.entries| && n.entries[i].name == path[0] && n.entries[i].node.File?
    ensures MeetsFile(n, path)
  {
    var x := n.entries[i].node;
    assert path[..1][0] == path[0] && path[..1][1..] == [] && IsAt(x, [], x);
    assert IsAt(n, path[..1], File(x.bytes));
  }

  lemma MeetsFileBelow(n: Node, path: seq<string>, i: nat)
    requires DistinctNames(n) && n.Dir? && path != [] && i < |n.entries| && n.entries[i].name == path[0]
    ensures MeetsFile(n, path) <==> MeetsFile(n.entries[i].node, path[1..])
  {
    hide IsAt, DistinctNames;
    var x, rest := n.entries[i].node, path[1..];
    if MeetsFile(n, path) {
      var k, b :| 0 <= k < |path| && IsAt(n, path[..k], File(b));
      if k == 0 {
        NoFileAtDir(n, path[..k], b);
      } else {
        OneStep(n, path[..k], i);
        assert path[..k][1..] == rest[..k - 1];
      }
    }
    if MeetsFile(x, rest) {
      var k, b :| 0 <= k < |rest| && IsAt(x, rest[..k], File(b));
      OneStep(n, path[..k + 1], i);
      assert path[..k + 1][1..] == rest[..k];
      assert IsAt(n, path[..k + 1], File(b));
    }
  }

  lemma NoFileAtDir(n: Node, path: seq<string>, b: Bytes)
    requires n.Dir? && path == []
    ensures !IsAt(n, path, File(b))
  {
  }

  // ------------------------------------------------------------------ completion orders

  lemma EntryMoved(n: Node, n': Node, i: nat) returns (j: nat)
    requires Reordered(n, n') && n.Dir? && i < |n.entries|
    ensures n'.Dir? && j < |n'.entries| && n'.entries[j].name == n.entries[i].name
    ensures Reordered(n.entries[i].node, n'.entries[j].node)
  {
    assert Moved(n, i, n'.entries);
    hide Reordered;
    j :| 0 <= j < |n'.entries| && n.entries[i].name == n'.entries[j].name
         && Reordered(n.entries[i].node, n'.entries[j].node);
  }

  lemma EntryCameFrom(n: Node, n': Node, j: nat) returns (i: nat)
    requires Reordered(n, n') && DistinctNames(n') && n'.Dir? && j < |n'.entries|
    ensures n.Dir? && i < |n.entries| && n'.entries[j].name == n.entries[i].name
    ensures Reordered(n.entries[i].node, n'.entries[j].node)
  {
    hide Reordered;
    i := NamedLike(n, n', j);
    var k := EntryMoved(n, n', i);
    assert k == j;
  }

  lemma NamedLike(n: Node, n': Node, j: nat) returns (i: nat)
    requires Reordered(n, n') && n'.Dir? && j < |n'.entries|
    ensures n.Dir? && i < |n.entries| && n'.entries[j].name == n.entries[i].name
  {
    i :| 0 <= i < |n.entries| && n.entries[i].name == n'.entries[j].name;
  }

  lemma WayDown(n: Node, path: seq<string>, x: Node) returns (i: nat)
    requires IsAt(n, path, x) && path != []
    ensures n.Dir? && i < |n.entries| && n.entries[i].name == path[0] && IsAt(n.entries[i].node, path[1..], x)
  {
    i :| 0 <= i < |n.entries| && n.entries[i].name == path[0] && IsAt(n.entries[i].node, path[1..], x);
  }

  lemma OneStepMore(n: Node, path: seq<string>, i: nat, x: Node)
    requires path != [] && n.Dir? && i < |n.entries| && n.entries[i].name == path[0]
    requires IsAt(n.entries[i].node, path[1..], x)
    ensures IsAt(n, path, x)
  {
  }

  lemma SameKind(n: Node, n': Node)
    requires Reordered(n, n')
    ensures n.File? ==> n' == n
    ensures n.Dir? ==> n'.Dir?
  {
  }

  lemma {:induction false} ReorderedNoInfo(e: DirEnv, n: Node, n': Node)
    requires Reordered(n, n') && NoInfoFiles(e, n) && DistinctNames(n')
    ensures NoInfoFiles(e, n')
  {
    hide Reordered;
    SameKind(n, n');
    if n.File? {
    } else {
      forall j | 0 <= j < |n'.entries| ensures NoInfoFiles(e, n'.entries[j].node) {
        var i := EntryCameFrom(n, n', j);
        ReorderedNoInfo(e, n.entries[i].node, n'.entries[j].node);
      }
    }
  }

  /** The order of the entries does not matter to what a path means. */
  lemma {:induction false} ReorderedThere(n: Node, n': Node, path: seq<string>, x: Node) returns (x': Node)
    requires Reordered(n, n') && IsAt(n, path, x)
    ensures IsAt(n', path, x') && Reordered(x, x')
    decreases |path|
  {
    hide Reordered;
    if path == [] {
      x' := n';
    } else {
      var i := WayDown(n, path, x);
      var j := EntryMoved(n, n', i);
      x' := ReorderedThere(n.entries[i].node, n'.entries[j].node, path[1..], x);
      OneStepMore(n', path, j, x');
    }
  }

  lemma {:induction false} ReorderedBack(n: Node, n': Node, path: seq<string>, x': Node) returns (x: Node)
    requires Reordered(n, n') && DistinctNames(n') && IsAt(n', path, x')
    ensures IsAt(n, path, x) && Reordered(x, x')
    decreases |path|
  {
    hide Reordered;
    if path == [] {
      x := n;
    } else {
      var j := WayDown(n', path, x');
      var i := EntryCameFrom(n, n', j);
      x := ReorderedBack(n.entries[i].node, n'.entries[j].node, path[1..], x');
      OneStepMore(n, path, i, x);
    }
  }

  lemma {:induction false} AtMostOne(n: Node, path: seq<string>, x: Node, y: Node)
    requires DistinctNames(n) && IsAt(n, path, x) && IsAt(n, path, y)
    ensures x == y
    decreases |path|
  {
    if path == [] {
    } else {
      var i :| 0 <= i < |n.entries| && n.entries[i].name == path[0] && IsAt(n.entries[i].node, path[1..], x);
      AtMostOne(n.entries[i].node, path[1..], x, y);
    }
  }

  /** Directory end to end, for every finite tree with distinct names. `n'` is the tree in
      the order in which the uploads complete, and `cs` any sequence of stored chunks in
      which those of the tree occur, so any interleaving of its uploads with each other and
      with other uploads. A path is found exactly if it leads somewhere in the tree, and the
      id found for a file's path reads as that file's bytes. */
  lemma DirectoryEndToEnd(e: DirEnv, s: Store, cs: seq<Bytes>, n: Node, n': Node, path: string)
    requires Sane(e) && NoInfoFiles(e, n) && n.Dir? && Reordered(n, n') && DistinctNames(n')
    requires forall c :: c in TreeChunks(e, n') ==> c in cs
    requires !PutAll(e.env, s, cs).collided
    ensures var s' := PutAll(e.env, s, cs);
      var segs := Canonical(Segments(path));
      var r := IdByPath(e, s', Id(e, n'), path);
      && (r.Found? <==> segs != [] && HasPath(n, segs))
      && (!r.Found? ==> r == if MeetsFile(n, segs) then NotADirectory else NotFound)
      && (forall b :: segs != [] && IsAt(n, segs, File(b)) ==> r.Found? && GetFile(e.env, s', r.id) == Ok(b))
  {
    hide TreeChunks, GetFile, IdByPath, Canonical, Segments, FileId, PutAll, NoInfoFiles;
    hide Stocked, Reordered, IsAt, HasPath, DistinctNames, Id, Content, Sane, MeetsFile;
    var s' := PutAll(e.env, s, cs);
    var segs := Canonical(Segments(path));
    SanePositive(e);
    PutAllStores(e.env, s, cs);
    StockedSubset(e.env, s', TreeChunks(e, n'), cs);
    ReorderedNoInfo(e, n, n');
    SameKind(n, n');
    var found := LookupAnswers(e, s', n', path);
    SamePaths(n, n', segs);
    SameFilesMet(n, n', segs);
    forall b | segs != [] && IsAt(n, segs, File(b))
      ensures found.Some?
      ensures GetFile(e.env, s', Id(e, found.value)) == Ok(b)
    {
      var x' := ReorderedThere(n, n', segs, File(b));
      SameKind(File(b), x');
      Reaches(n', segs, x');
      AtMostOne(n', segs, x', found.value);
      NodeReadsBack(e, s', x');
      NodeChunks(e, x');
    }
    if found.Some? {
      Reaches(n', segs, found.value);
    }
  }

  lemma SanePositive(e: DirEnv)
    requires Sane(e)
    ensures e.env.chunkSize > 0
  {
  }

  lemma StockedSubset(env: Env, s: Store, a: seq<Bytes>, cs: seq<Bytes>)
    requires Stocked(env, s, cs) && forall c :: c in a ==> c in cs
    ensures Stocked(env, s, a)
  {
  }

  lemma Reaches(n: Node, path: seq<string>, x: Node)
    requires IsAt(n, path, x)
    ensures HasPath(n, path)
  {
  }

  lemma SamePaths(n: Node, n': Node, path: seq<string>)
    requires Reordered(n, n') && DistinctNames(n')
    ensures HasPath(n, path) <==> HasPath(n', path)
  {
    hide Reordered, IsAt;
    if HasPath(n, path) {
      var x :| IsAt(n, path, x);
      var x' := ReorderedThere(n, n', path, x);
    }
    if HasPath(n', path) {
      var x' :| IsAt(n', path, x');
      var x := ReorderedBack(n, n', path, x');
    }
  }

  lemma SameFilesMet(n: Node, n': Node, path: seq<string>)
    requires Reordered(n, n') && DistinctNames(n')
    ensures MeetsFile(n, path) <==> MeetsFile(n', path)
  {
    hide Reordered, IsAt;
    if MeetsFile(n, path) {
      var k, b :| 0 <= k < |path| && IsAt(n, path[..k], File(b));
      var x' := ReorderedThere(n, n', path[..k], File(b));
      SameKind(File(b), x');
      assert IsAt(n', path[..k], File(b));
    }
    if MeetsFile(n', path) {
      var k, b :| 0 <= k < |path| && IsAt(n', path[..k], File(b));
      var x := ReorderedBack(n, n', path[..k], File(b));
      SameKind(x, File(b));
      assert IsAt(n, path[..k], File(b));
    }
  }

  /** For names joined by slashes the path means the names themselves. */
  lemma PlainPathMeansItsNames(names: seq<string>)
    requires AreWords(names) && "." !in names && ".." !in names
    ensures Canonical(Segments(Text(names))) == names
  {
    hide Segments, Text, Normalize;
    SegmentsOfText(names);
    if |names| > 1 {
      var rest := names[1..];
      assert forall i :: 0 <= i < |rest| ==> rest[i] in names;
      assert IsNormal(rest);
      NormalStays(rest);
      assert [names[0]] + rest == names;
    }
  }

  lemma NormalizeLast(segs: seq<string>, last: string)
    ensures var front := Normalize(segs);
      Normalize(segs + [last]) ==
        if last == "." then front
        else if last == ".." && front != [] && front[|front| - 1] != ".." then front[..|front| - 1]
        else front + [last]
  {
  }

  /** A path with nothing left is the name `.`, which no `path.join` gives otherwise. */
  lemma NothingLeft(segs: seq<string>, first: string)
    requires segs != []
    ensures Normalize([]) == [] && Canonical([]) == [] && Canonical([first]) == [first]
    ensures Normalize(segs) == [] ==> Canonical([first] + segs) == [first, "."]
    ensures Normalize(segs) != [] ==> Canonical([first] + segs) == [first] + Normalize(segs)
    ensures "." !in Normalize(segs)
  {
    NormalizeIsNormal(segs);
    assert ([first] + segs)[1..] == segs;
  }

  /** `..` takes back a later name, which need not exist, but not the first one: that is
      looked up before `path.join` sees the rest. */
  lemma DotDotTakesBackLaterNames(a: string, b: string, c: string)
    requires {a, b, c} !! {".", ".."}
    ensures Canonical([a, b, "..", c]) == [a, c]
    ensures Canonical([b, "..", c]) == [b, "..", c]
  {
    var segs := [b, "..", c];
    hide Normalize;
    assert [] + [b] == [b] && [b] + [".."] == [b, ".."] && [b, ".."] + [c] == segs;
    NormalStays([]);
    NormalizeLast([], b);
    NormalizeLast([b], "..");
    NormalizeLast([b, ".."], c);
    assert [a, b, "..", c][1..] == segs;
    assert segs[1..] == ["..", c];
    NormalStays(["..", c]);
  }
}
