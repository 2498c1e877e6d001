/** The Merkle tree of `src/util/merkle.ts`, and an answer to the question its first lines
    leave open: what two lists of hashes with the same root have in common. The digest is
    any function; every result is an equality or an explicit collision. */
module Merkle {
  import opened Common

  type Digest = Bytes -> Bytes

  const HASH_LENGTH := 32

  /** Two different inputs with the same digest. */
  predicate Collision(digest: Digest, x: Bytes, y: Bytes) {
    x != y && digest(x) == digest(y)
  }

  ghost predicate FixedLength(digest: Digest) {
    forall x :: |digest(x)| == HASH_LENGTH
  }

  predicate Hashes(values: seq<Bytes>) {
    forall v :: v in values ==> |v| == HASH_LENGTH
  }

  // --------------------------------------------------------------- one level

  /** The neighbour that a value is hashed with: itself, at the end of an odd level. */
  function RightOf(values: seq<Bytes>, i: nat): Bytes
    requires i < |values|
  {
    if i + 1 == |values| then values[i] else values[i + 1]
  }

  /** What is digested for one pair: the first level is told apart by a leading zero byte. */
  function PairData(left: Bytes, right: Bytes, initial: bool): Bytes {
    if initial then [0 as bv8] + left + right else left + right
  }

  function Half(n: nat): nat { (n + 1) / 2 }

  /** The next level: ceil(n / 2) digests. */
  function Derive(values: seq<Bytes>, digest: Digest, initial: bool): (r: seq<Bytes>)
    ensures |r| == Half(|values|)
  {
    seq(Half(|values|), i requires 0 <= i < Half(|values|) =>
      digest(PairData(values[2 * i], RightOf(values, 2 * i), initial)))
  }

  method DeriveLevel(values: seq<Bytes>, digest: Digest, initial: bool) returns (results: seq<Bytes>)
    ensures results == Derive(values, digest, initial)
  {
    results := [];
    var i := 0;
    while i < |values|
      invariant i == 2 * |results| <= |values| + 1
      invariant forall k :: 0 <= k < |results| ==>
        results[k] == digest(PairData(values[2 * k], RightOf(values, 2 * k), initial))
    {
      var left := values[i];
      var right := if i + 1 == |values| then left else values[i + 1];
      results := results + [digest(PairData(left, right, initial))];
      i := i + 2;
    }
  }

  // ---------------------------------------------------------------- all levels

  /** The levels above the leaves; the loop runs at least once. */
  function LevelsAbove(values: seq<Bytes>, digest: Digest, initial: bool): (r: seq<seq<Bytes>>)
    ensures |r| >= 1 && |r[|r| - 1]| <= 1
    decreases |values|
  {
    var level := Derive(values, digest, initial);
    if |level| > 1 then [level] + LevelsAbove(level, digest, false) else [level]
  }

  function Flatten(levels: seq<seq<Bytes>>): seq<Bytes> {
    if levels == [] then [] else Flatten(levels[..|levels| - 1]) + levels[|levels| - 1]
  }

  function Tree(values: seq<Bytes>, digest: Digest): seq<Bytes> {
    Flatten([values] + LevelsAbove(values, digest, true))
  }

  function Height(values: seq<Bytes>, digest: Digest): (h: nat)
    ensures h >= 1
  {
    |LevelsAbove(values, digest, true)|
  }

  function Root(values: seq<Bytes>, digest: Digest): Bytes
    requires values != []
  {
    LevelAtHeight(values, digest);
    Level(values, digest, Height(values, digest))[0]
  }

  /** The level at a height above the leaves. */
  function Level(values: seq<Bytes>, digest: Digest, h: nat): (r: seq<Bytes>)
    ensures values != [] ==> r != []
  {
    if h == 0 then values else Derive(Level(values, digest, h - 1), digest, h == 1)
  }

  lemma LevelNext(values: seq<Bytes>, digest: Digest, h: nat)
    ensures Level(values, digest, h + 1) == Derive(Level(values, digest, h), digest, h == 0)
  {
  }

  lemma LevelsAboveNext(values: seq<Bytes>, digest: Digest, initial: bool)
    ensures var level := Derive(values, digest, initial);
      LevelsAbove(values, digest, initial)
        == [level] + if |level| > 1 then LevelsAbove(level, digest, false) else []
  {
  }

  lemma {:induction false} LevelsAboveAreLevels(values: seq<Bytes>, digest: Digest, h: nat, i: nat)
    requires i < |LevelsAbove(Level(values, digest, h), digest, h == 0)|
    ensures LevelsAbove(Level(values, digest, h), digest, h == 0)[i] == Level(values, digest, h + 1 + i)
    decreases i
  {
    hide Derive, Level, LevelsAbove;
    LevelNext(values, digest, h);
    LevelsAboveNext(Level(values, digest, h), digest, h == 0);
    if i == 0 {
    } else {
      LevelsAboveAreLevels(values, digest, h + 1, i - 1);
    }
  }

  lemma LevelAtHeight(values: seq<Bytes>, digest: Digest)
    ensures |Level(values, digest, Height(values, digest))| <= 1
    ensures forall h :: 1 <= h <= Height(values, digest) ==>
      LevelsAbove(values, digest, true)[h - 1] == Level(values, digest, h)
  {
    forall h | 1 <= h <= Height(values, digest)
      ensures LevelsAbove(values, digest, true)[h - 1] == Level(values, digest, h)
    {
      LevelsAboveAreLevels(values, digest, 0, h - 1);
    }
  }

  /** The loop stops at the first level above the leaves that is a single hash. */
  lemma {:induction false} StopsAtOne(values: seq<Bytes>, digest: Digest, initial: bool)
    ensures var levels := LevelsAbove(values, digest, initial);
      && (values != [] ==> |levels[|levels| - 1]| == 1)
      && forall i :: 0 <= i < |levels| - 1 ==> |levels[i]| > 1
    decreases |values|
  {
    hide LevelsAbove;
    var level := Derive(values, digest, initial);
    LevelsAboveNext(values, digest, initial);
    if |level| <= 1 {
    } else {
      StopsAtOne(level, digest, false);
    }
  }

  lemma HeightIsFirstRoot(values: seq<Bytes>, digest: Digest)
    requires values != []
    ensures |Level(values, digest, Height(values, digest))| == 1
    ensures forall h :: 1 <= h < Height(values, digest) ==> |Level(values, digest, h)| > 1
  {
    hide Level, LevelsAbove;
    LevelAtHeight(values, digest);
    StopsAtOne(values, digest, true);
    var levels := LevelsAbove(values, digest, true);
    forall h | 1 <= h <= |levels| ensures levels[h - 1] == Level(values, digest, h) {
    }
  }

  // ------------------------------------------------------------- the flat list

  /** How many hashes there are below a height. */
  ghost function Below(values: seq<Bytes>, digest: Digest, h: nat): nat {
    if h == 0 then 0 else Below(values, digest, h - 1) + |Level(values, digest, h - 1)|
  }

  lemma {:induction false} FlattenStretch(levels: seq<seq<Bytes>>, i: nat)
    requires i < |levels|
    ensures var at := |Flatten(levels[..i])|;
      at + |levels[i]| <= |Flatten(levels)| && Flatten(levels)[at..at + |levels[i]|] == levels[i]
  {
    var front := levels[..|levels| - 1];
    if i == |levels| - 1 {
    } else {
      FlattenStretch(front, i);
      assert front[..i] == levels[..i];
      var at := |Flatten(levels[..i])|;
      assert Flatten(levels)[at..at + |levels[i]|] == Flatten(front)[at..at + |levels[i]|];
    }
  }

  lemma {:induction false} FlatSize(levels: seq<seq<Bytes>>, values: seq<Bytes>, digest: Digest, h: nat)
    requires h <= |levels| && forall i :: 0 <= i < h ==> levels[i] == Level(values, digest, i)
    ensures |Flatten(levels[..h])| == Below(values, digest, h)
  {
    hide Level;
    if h == 0 {
    } else {
      FlatSize(levels, values, digest, h - 1);
      assert levels[..h][..h - 1] == levels[..h - 1];
    }
  }

  /** The flat tree holds the levels one after another, from the leaves to the root, and
      nothing else. */
  lemma TreeHoldsLevels(values: seq<Bytes>, digest: Digest)
    ensures |Tree(values, digest)| == Below(values, digest, Height(values, digest) + 1)
    ensures forall h :: 0 <= h <= Height(values, digest) ==>
      var at := Below(values, digest, h);
      && at + |Level(values, digest, h)| <= |Tree(values, digest)|
      && Tree(values, digest)[at..at + |Level(values, digest, h)|] == Level(values, digest, h)
  {
    hide Level, LevelsAbove, Flatten, Below;
    var levels := [values] + LevelsAbove(values, digest, true);
    LevelSizes(values, digest, 0);
    LevelAtHeight(values, digest);
    assert forall i :: 0 <= i < |levels| ==> levels[i] == Level(values, digest, i);
    assert levels[..|levels|] == levels;
    FlatSize(levels, values, digest, |levels|);
    forall h | 0 <= h <= Height(values, digest)
      ensures var at := Below(values, digest, h);
        && at + |Level(values, digest, h)| <= |Tree(values, digest)|
        && Tree(values, digest)[at..at + |Level(values, digest, h)|] == Level(values, digest, h)
    {
      FlatSize(levels, values, digest, h);
      FlattenStretch(levels, h);
    }
  }

  /** It begins with the leaves and ends with the root. */
  lemma TreeEnds(values: seq<Bytes>, digest: Digest)
    requires values != []
    ensures var tree := Tree(values, digest);
      |tree| > |values| && tree[..|values|] == values && tree[|tree| - 1] == Root(values, digest)
  {
    hide Level, LevelsAbove, Tree;
    var tree, h := Tree(values, digest), Height(values, digest);
    TreeHoldsLevels(values, digest);
    HeightIsFirstRoot(values, digest);
    LevelSizes(values, digest, 0);
    assert Below(values, digest, 0) == 0;
    assert tree[0..|values|] == values;
    var at := Below(values, digest, h);
    assert |tree| == at + 1 && tree[at..at + 1] == Level(values, digest, h);
    assert tree[at] == tree[at..at + 1][0];
    LeavesBelow(values, digest, h);
  }

  lemma {:induction false} LeavesBelow(values: seq<Bytes>, digest: Digest, h: nat)
    requires h >= 1
    ensures Below(values, digest, h) >= |values|
  {
    if h == 1 {
      assert Below(values, digest, 0) == 0;
    } else {
      LeavesBelow(values, digest, h - 1);
    }
  }

  /** The trees of one, two and three hashes, written out. */
  lemma SmallTrees(digest: Digest, a: Bytes, b: Bytes, c: Bytes)
    ensures Tree([a], digest) == [a, digest([0] + a + a)]
    ensures Tree([a, b], digest) == [a, b, digest([0] + a + b)]
    ensures var ab, cc := digest([0] + a + b), digest([0] + c + c);
      Tree([a, b, c], digest) == [a, b, c, ab, cc, digest(ab + cc)]
  {
    hide LevelsAbove, Flatten;
    LevelsAboveNext([a], digest, true);
    LevelsAboveNext([a, b], digest, true);
    LevelsAboveNext([a, b, c], digest, true);
    var ab, cc := digest([0] + a + b), digest([0] + c + c);
    LevelsAboveNext([ab, cc], digest, false);
    DeriveOne(a, a, true, digest);
    DeriveOne(a, b, true, digest);
    DeriveOne(ab, cc, false, digest);
    DeriveThree(a, b, c, digest);
    OneLevelAbove([a], [digest([0] + a + a)], digest);
    OneLevelAbove([a, b], [ab], digest);
    assert LevelsAbove([a, b, c], digest, true) == [[ab, cc], [digest(ab + cc)]];
    assert [[a, b, c]] + [[ab, cc], [digest(ab + cc)]] == [[a, b, c], [ab, cc]] + [[digest(ab + cc)]];
    FlattenTwo([a, b, c], [ab, cc]);
    FlattenNext([[a, b, c], [ab, cc]], [digest(ab + cc)]);
  }

  lemma OneLevelAbove(values: seq<Bytes>, level: seq<Bytes>, digest: Digest)
    requires LevelsAbove(values, digest, true) == [level]
    ensures Tree(values, digest) == values + level
  {
    hide LevelsAbove, Flatten;
    assert [values] + [level] == [values, level];
    FlattenTwo(values, level);
  }

  lemma DeriveOne(a: Bytes, b: Bytes, initial: bool, digest: Digest)
    ensures var d := digest(if initial then [0] + a + b else a + b);
      Derive([a, b], digest, initial) == [d] && (a == b ==> Derive([a], digest, initial) == [d])
  {
    assert RightOf([a, b], 0) == b && RightOf([a], 0) == a;
    assert Derive([a, b], digest, initial)[0] == digest(PairData(a, b, initial));
    assert Derive([a], digest, initial)[0] == digest(PairData(a, a, initial));
  }

  lemma DeriveThree(a: Bytes, b: Bytes, c: Bytes, digest: Digest)
    ensures Derive([a, b, c], digest, true) == [digest([0] + a + b), digest([0] + c + c)]
  {
    var v := [a, b, c];
    assert RightOf(v, 0) == b && RightOf(v, 2) == c;
    assert Derive(v, digest, true)[0] == digest(PairData(a, b, true));
    assert Derive(v, digest, true)[1] == digest(PairData(c, c, true));
  }

  lemma FlattenNext(levels: seq<seq<Bytes>>, last: seq<Bytes>)
    ensures Flatten(levels + [last]) == Flatten(levels) + last
  {
    assert (levels + [last])[..|levels|] == levels;
  }

  lemma FlattenTwo(x: seq<Bytes>, y: seq<Bytes>)
    ensures Flatten([x, y]) == x + y
  {
    FlattenNext([], x);
    FlattenNext([x], y);
    assert [] + [x] == [x] && [x] + [y] == [x, y];
  }

  /** `merkle`: the do-while loop over the levels, then `flat`. It ends because a level of
      more than one value has a shorter one above it. */
  method ComputeMerkle(values: seq<Bytes>, digest: Digest) returns (tree: seq<Bytes>)
    ensures tree == Tree(values, digest)
    ensures values != [] ==>
      |tree| > |values| && tree[..|values|] == values && tree[|tree| - 1] == Root(values, digest)
  {
    hide Derive, Flatten, Root, LevelsAbove;
    LevelsAboveNext(values, digest, true);
    var levels := [values];
    var level := DeriveLevel(values, digest, true);
    levels := levels + [level];
    ghost var all := [values] + LevelsAbove(values, digest, true);
    while |level| > 1
      invariant all == levels + if |level| > 1 then LevelsAbove(level, digest, false) else []
      decreases |level|
    {
      LevelsAboveNext(level, digest, false);
      level := DeriveLevel(level, digest, false);
      ghost var above := if |level| > 1 then LevelsAbove(level, digest, false) else [];
      assert levels + ([level] + above) == (levels + [level]) + above;
      levels := levels + [level];
    }
    assert all == levels;
    tree := Flat(levels);
    assert tree == Tree(values, digest);
    hide Tree;
    if values != [] {
      TreeEnds(values, digest);
    }
  }

  /** `flat`. */
  method Flat(levels: seq<seq<Bytes>>) returns (tree: seq<Bytes>)
    ensures tree == Flatten(levels)
  {
    tree := [];
    for i := 0 to |levels|
      invariant tree == Flatten(levels[..i])
    {
      assert levels[..i + 1][..i] == levels[..i];
      tree := tree + levels[i];
    }
    assert levels[..|levels|] == levels;
  }

  // -------------------------------------------------------------------- binding

  lemma {:induction false} LevelsAreHashes(values: seq<Bytes>, digest: Digest, h: nat)
    requires Hashes(values) && FixedLength(digest)
    ensures Hashes(Level(values, digest, h))
  {
    hide Derive;
    if h == 0 {
    } else {
      LevelsAreHashes(values, digest, h - 1);
      DerivedAreHashes(Level(values, digest, h - 1), digest, h == 1);
    }
  }

  lemma DerivedAreHashes(values: seq<Bytes>, digest: Digest, initial: bool)
    requires FixedLength(digest)
    ensures Hashes(Derive(values, digest, initial))
  {
    var level := Derive(values, digest, initial);
    forall k | 0 <= k < |level| ensures |level[k]| == HASH_LENGTH {
      assert level[k] == digest(PairData(values[2 * k], RightOf(values, 2 * k), initial));
    }
  }

  /** The index of the right child in the level below. */
  function RightIndex(below: seq<Bytes>, i: nat): nat {
    if 2 * i + 1 < |below| then 2 * i + 1 else 2 * i
  }

  lemma LevelSizes(values: seq<Bytes>, digest: Digest, h: nat)
    ensures Level(values, digest, 0) == values
    ensures h > 0 ==> |Level(values, digest, h)| == Half(|Level(values, digest, h - 1)|)
  {
  }

  /** A node is the digest of its two children. */
  lemma NodeData(values: seq<Bytes>, digest: Digest, h: nat, i: nat)
    requires h > 0 && i < |Level(values, digest, h)|
    ensures var below := Level(values, digest, h - 1);
      && 2 * i < |below| && RightIndex(below, i) < |below|
      && Level(values, digest, h)[i] == digest(PairData(below[2 * i], below[RightIndex(below, i)], h == 1))
  {
    var below := Level(values, digest, h - 1);
    LevelNext(values, digest, h - 1);
    assert 2 * i < |below| && RightOf(below, 2 * i) == below[RightIndex(below, i)];
  }

  /** Which two are digested, and that the pairs of leaves are led by a zero byte. */
  lemma NodeFormula(values: seq<Bytes>, digest: Digest, h: nat, i: nat)
    requires h > 0 && i < |Level(values, digest, h)|
    ensures var below := Level(values, digest, h - 1);
      && 2 * i < |below|
      && var right := below[if 2 * i + 1 < |below| then 2 * i + 1 else 2 * i];
      Level(values, digest, h)[i] == digest((if h == 1 then [0] else []) + below[2 * i] + right)
  {
    hide Level;
    NodeData(values, digest, h, i);
    var below := Level(values, digest, h - 1);
    assert [] + below[2 * i] == below[2 * i];
  }

  /** Equal nodes on the same height have equal children, or their data collide. */
  lemma EqualNodes(a: seq<Bytes>, b: seq<Bytes>, digest: Digest, h: nat, i: nat, j: nat) returns (x: Bytes, y: Bytes)
    requires Hashes(a) && Hashes(b) && FixedLength(digest) && h > 0
    requires i < |Level(a, digest, h)| && j < |Level(b, digest, h)|
    requires Level(a, digest, h)[i] == Level(b, digest, h)[j]
    ensures var la, lb := Level(a, digest, h - 1), Level(b, digest, h - 1);
      && 2 * i < |la| && RightIndex(la, i) < |la| && 2 * j < |lb| && RightIndex(lb, j) < |lb|
      && (Collision(digest, x, y) || (la[2 * i] == lb[2 * j] && la[RightIndex(la, i)] == lb[RightIndex(lb, j)]))
  {
    hide Level;
    NodeData(a, digest, h, i);
    NodeData(b, digest, h, j);
    LevelsAreHashes(a, digest, h - 1);
    LevelsAreHashes(b, digest, h - 1);
    var la, lb := Level(a, digest, h - 1), Level(b, digest, h - 1);
    x := PairData(la[2 * i], la[RightIndex(la, i)], h == 1);
    y := PairData(lb[2 * j], lb[RightIndex(lb, j)], h == 1);
    if x == y {
      PairsSplit(la[2 * i], la[RightIndex(la, i)], lb[2 * j], lb[RightIndex(lb, j)], h == 1);
    }
  }

  lemma PairsSplit(l: Bytes, r: Bytes, l': Bytes, r': Bytes, initial: bool)
    requires |l| == |l'| == HASH_LENGTH && PairData(l, r, initial) == PairData(l', r', initial)
    ensures l == l' && r == r'
  {
    var skip := if initial then 1 else 0;
    var x := PairData(l, r, initial);
    assert l == x[skip..skip + HASH_LENGTH] && r == x[skip + HASH_LENGTH..];
    var y := PairData(l', r', initial);
    assert l' == y[skip..skip + HASH_LENGTH] && r' == y[skip + HASH_LENGTH..];
  }

  /** Down the left spine of both trees: equal roots at different heights end in a leaf pair
      of 65 bytes against an inner pair of 64, which the leading zero byte keeps apart. */
  lemma {:induction false} EqualRootsHaveEqualHeights(a: seq<Bytes>, b: seq<Bytes>, digest: Digest, ha: nat, hb: nat)
      returns (x: Bytes, y: Bytes)
    requires Hashes(a) && Hashes(b) && FixedLength(digest) && a != [] && b != [] && 1 <= ha <= hb
    requires Level(a, digest, ha)[0] == Level(b, digest, hb)[0]
    ensures ha == hb || Collision(digest, x, y)
    decreases ha
  {
    hide Level;
    NodeData(a, digest, ha, 0);
    NodeData(b, digest, hb, 0);
    LevelsAreHashes(a, digest, ha - 1);
    LevelsAreHashes(b, digest, hb - 1);
    var la, lb := Level(a, digest, ha - 1), Level(b, digest, hb - 1);
    x := PairData(la[0], la[RightIndex(la, 0)], ha == 1);
    y := PairData(lb[0], lb[RightIndex(lb, 0)], hb == 1);
    if ha == 1 || x != y {
    } else {
      PairsSplit(la[0], la[RightIndex(la, 0)], lb[0], lb[RightIndex(lb, 0)], false);
      x, y := EqualRootsHaveEqualHeights(a, b, digest, ha - 1, hb - 1);
    }
  }

  lemma {:induction false} LevelLengths(a: seq<Bytes>, b: seq<Bytes>, digest: Digest, h: nat)
    requires |a| == |b|
    ensures |Level(a, digest, h)| == |Level(b, digest, h)|
  {
    if h == 0 {
    } else {
      LevelLengths(a, b, digest, h - 1);
    }
  }

  /** From an equal level down to equal leaves. */
  lemma {:induction false} EqualLevelsBind(a: seq<Bytes>, b: seq<Bytes>, digest: Digest, h: nat)
      returns (x: Bytes, y: Bytes)
    requires Hashes(a) && Hashes(b) && FixedLength(digest) && |a| == |b|
    requires Level(a, digest, h) == Level(b, digest, h)
    ensures a == b || Collision(digest, x, y)
  {
    hide Level;
    LevelSizes(a, digest, h);
    LevelSizes(b, digest, h);
    x, y := [], [];
    if h == 0 {
    } else {
      LevelLengths(a, b, digest, h - 1);
      var la, lb := Level(a, digest, h - 1), Level(b, digest, h - 1);
      if k :| 0 <= k < |la| && la[k] != lb[k] {
        var i := k / 2;
        x, y := EqualNodes(a, b, digest, h, i, i);
        assert k == 2 * i || k == RightIndex(la, i);
      } else {
        assert la == lb;
        x, y := EqualLevelsBind(a, b, digest, h - 1);
      }
    }
  }

  /** Merkle binding: two lists of hashes with equal roots have trees of the same height,
      and are equal if they have the same length; otherwise two digest inputs collide, and
      here they are. */
  lemma MerkleBinding(a: seq<Bytes>, b: seq<Bytes>, digest: Digest) returns (x: Bytes, y: Bytes)
    requires Hashes(a) && Hashes(b) && FixedLength(digest) && a != [] && b != []
    requires Root(a, digest) == Root(b, digest)
    ensures Collision(digest, x, y) ||
      (Height(a, digest) == Height(b, digest) && (|a| == |b| ==> a == b))
  {
    hide Level, LevelsAbove;
    var ha, hb := Height(a, digest), Height(b, digest);
    LevelAtHeight(a, digest);
    LevelAtHeight(b, digest);
    if ha <= hb {
      x, y := EqualRootsHaveEqualHeights(a, b, digest, ha, hb);
    } else {
      x, y := EqualRootsHaveEqualHeights(b, a, digest, hb, ha);
    }
    if !Collision(digest, x, y) && |a| == |b| {
      assert Level(a, digest, ha) == Level(b, digest, ha);
      x, y := EqualLevelsBind(a, b, digest, ha);
    }
  }

  /** The same for the last elements of what `merkle` returns. */
  lemma TreesBind(a: seq<Bytes>, b: seq<Bytes>, digest: Digest) returns (x: Bytes, y: Bytes)
    requires Hashes(a) && Hashes(b) && FixedLength(digest) && a != [] && b != []
    requires var s, t := Tree(a, digest), Tree(b, digest); s != [] && t != [] && s[|s| - 1] == t[|t| - 1]
    ensures Collision(digest, x, y) ||
      (Height(a, digest) == Height(b, digest) && (|a| == |b| ==> a == b))
  {
    hide Tree, Root, Height;
    TreeEnds(a, digest);
    TreeEnds(b, digest);
    x, y := MerkleBinding(a, b, digest);
  }

  // ------------------------------------------------- lists of different lengths

  /** The leaves under a node, with the repetitions that odd levels bring in. */
  ghost function LeavesUnder(values: seq<Bytes>, digest: Digest, h: nat, i: nat): seq<Bytes>
    requires i < |Level(values, digest, h)|
    decreases h
  {
    if h == 0 then [values[i]]
    else
      NodeData(values, digest, h, i);
      var below := Level(values, digest, h - 1);
      LeavesUnder(values, digest, h - 1, 2 * i) + LeavesUnder(values, digest, h - 1, RightIndex(below, i))
  }

  lemma {:induction false} LeavesUnderLength(a: seq<Bytes>, b: seq<Bytes>, digest: Digest, h: nat, i: nat, j: nat)
    requires i < |Level(a, digest, h)| && j < |Level(b, digest, h)|
    ensures |LeavesUnder(a, digest, h, i)| == |LeavesUnder(b, digest, h, j)|
    decreases h
  {
    hide Level;
    if h == 0 {
    } else {
      NodeData(a, digest, h, i);
      NodeData(b, digest, h, j);
      LeavesUnderLength(a, b, digest, h - 1, 2 * i, 2 * j);
      LeavesUnderLength(a, b, digest, h - 1,
                        RightIndex(Level(a, digest, h - 1), i), RightIndex(Level(b, digest, h - 1), j));
    }
  }

  lemma {:induction false} EqualNodesHaveEqualLeaves(a: seq<Bytes>, b: seq<Bytes>, digest: Digest,
                                                     h: nat, i: nat, j: nat)
      returns (x: Bytes, y: Bytes)
    requires Hashes(a) && Hashes(b) && FixedLength(digest)
    requires i < |Level(a, digest, h)| && j < |Level(b, digest, h)|
    requires Level(a, digest, h)[i] == Level(b, digest, h)[j]
    ensures Collision(digest, x, y) || LeavesUnder(a, digest, h, i) == LeavesUnder(b, digest, h, j)
    decreases h
  {
    hide Level;
    LevelSizes(a, digest, h);
    LevelSizes(b, digest, h);
    x, y := [], [];
    if h == 0 {
    } else {
      x, y := EqualNodes(a, b, digest, h, i, j);
      var la, lb := Level(a, digest, h - 1), Level(b, digest, h - 1);
      if !Collision(digest, x, y) {
        x, y := EqualNodesHaveEqualLeaves(a, b, digest, h - 1, 2 * i, 2 * j);
      }
      if !Collision(digest, x, y) {
        x, y := EqualNodesHaveEqualLeaves(a, b, digest, h - 1, RightIndex(la, i), RightIndex(lb, j));
      }
    }
  }

  lemma {:induction false} EqualLeavesMakeEqualNodes(a: seq<Bytes>, b: seq<Bytes>, digest: Digest,
                                                     h: nat, i: nat, j: nat)
    requires i < |Level(a, digest, h)| && j < |Level(b, digest, h)|
    requires LeavesUnder(a, digest, h, i) == LeavesUnder(b, digest, h, j)
    ensures Level(a, digest, h)[i] == Level(b, digest, h)[j]
    decreases h
  {
    hide Level;
    LevelSizes(a, digest, h);
    LevelSizes(b, digest, h);
    if h == 0 {
    } else {
      NodeData(a, digest, h, i);
      NodeData(b, digest, h, j);
      var la, lb := Level(a, digest, h - 1), Level(b, digest, h - 1);
      var ra, rb := RightIndex(la, i), RightIndex(lb, j);
      LeavesUnderLength(a, b, digest, h - 1, 2 * i, 2 * j);
      SplitAtLength(LeavesUnder(a, digest, h - 1, 2 * i), LeavesUnder(a, digest, h - 1, ra),
                    LeavesUnder(b, digest, h - 1, 2 * j), LeavesUnder(b, digest, h - 1, rb));
      EqualLeavesMakeEqualNodes(a, b, digest, h - 1, 2 * i, 2 * j);
      EqualLeavesMakeEqualNodes(a, b, digest, h - 1, ra, rb);
    }
  }

  lemma SplitAtLength<T>(a: seq<T>, b: seq<T>, c: seq<T>, d: seq<T>)
    requires |a| == |c| && a + b == c + d
    ensures a == c && b == d
  {
    assert a == (a + b)[..|a|] && b == (a + b)[|a|..] && c == (c + d)[..|c|] && d == (c + d)[|c|..];
  }

  /** Exactly which lists share a root: those of the same height that are the same once
      the repetitions of odd levels are written out; or there is a collision. */
  lemma RootsAgreeIff(a: seq<Bytes>, b: seq<Bytes>, digest: Digest) returns (x: Bytes, y: Bytes)
    requires Hashes(a) && Hashes(b) && FixedLength(digest) && a != [] && b != []
    ensures |Level(a, digest, Height(a, digest))| == |Level(b, digest, Height(b, digest))| == 1
    ensures Collision(digest, x, y) ||
      (Root(a, digest) == Root(b, digest) <==>
         && Height(a, digest) == Height(b, digest)
         && LeavesUnder(a, digest, Height(a, digest), 0) == LeavesUnder(b, digest, Height(b, digest), 0))
  {
    hide Level, LevelsAbove, LeavesUnder;
    x, y := [], [];
    LevelAtHeight(a, digest);
    LevelAtHeight(b, digest);
    var ha, hb := Height(a, digest), Height(b, digest);
    if Root(a, digest) == Root(b, digest) {
      x, y := MerkleBinding(a, b, digest);
      if !Collision(digest, x, y) {
        x, y := EqualNodesHaveEqualLeaves(a, b, digest, ha, 0, 0);
      }
    } else if ha == hb && LeavesUnder(a, digest, ha, 0) == LeavesUnder(b, digest, hb, 0) {
      EqualLeavesMakeEqualNodes(a, b, digest, ha, 0, 0);
    }
  }

  /** So the root alone does not bind the length: writing the last of an odd number of
      hashes twice gives the same tree above the leaves, for every digest. */
  lemma DoubledLastHashSharesRoot(values: seq<Bytes>, v: Bytes, digest: Digest)
    requires |values| % 2 == 0
    ensures Root(values + [v], digest) == Root(values + [v, v], digest)
    ensures LevelsAbove(values + [v], digest, true) == LevelsAbove(values + [v, v], digest, true)
  {
    hide *;
    var a, b := values + [v], values + [v, v];
    DoubledLastHash(values, v, digest);
    LevelsAboveNext(a, digest, true);
    LevelsAboveNext(b, digest, true);
    RootIsOnTop(a, digest);
    RootIsOnTop(b, digest);
  }

  /** The root is the only hash of the topmost level. */
  lemma RootIsOnTop(values: seq<Bytes>, digest: Digest)
    requires values != []
    ensures var above := LevelsAbove(values, digest, true);
      |above[|above| - 1]| == 1 && Root(values, digest) == above[|above| - 1][0]
  {
    hide Derive, Level, LevelsAbove;
    LevelAtHeight(values, digest);
  }

  lemma DoubledLastHash(values: seq<Bytes>, v: Bytes, digest: Digest)
    requires |values| % 2 == 0
    ensures Derive(values + [v], digest, true) == Derive(values + [v, v], digest, true)
  {
    var a, b := values + [v], values + [v, v];
    forall k | 0 <= k < Half(|a|)
      ensures Derive(a, digest, true)[k] == Derive(b, digest, true)[k]
    {
      assert a[2 * k] == b[2 * k] && RightOf(a, 2 * k) == RightOf(b, 2 * k);
    }
  }
}
