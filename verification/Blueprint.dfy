/**
 The blueprint preview of core/internal/server/limbo_blueprints.go: the entries of a world with an id other than 0,
 their coordinates and their bounding box. Chunks are walked in an arbitrary order; coordinates are int32.
 */
module Blueprint {

  datatype Pos = Pos(x: int, z: int)

  datatype Section = Section(y: int, ids: seq<nat>)

  datatype Chunk = Chunk(x: int, z: int, sections: seq<Section>)

  datatype World = World(palette: seq<string>, chunks: map<Pos, Chunk>)

  datatype Block = Block(x: int, y: int, z: int, id: nat, name: string)

  datatype Bounds = Bounds(minX: int, maxX: int, minY: int, maxY: int, minZ: int, maxZ: int)

  const NO_BOUNDS := Bounds(0, 0, 0, 0, 0, 0)

  function Wrap32(v: int): int {
    (v + 0x8000_0000) % 0x1_0000_0000 - 0x8000_0000
  }

  /** One section entry: its chunk's key, its section and its index there. */
  datatype Origin = Origin(key: Pos, section: nat, index: nat)

  predicate InWorld(w: World, o: Origin) {
    && o.key in w.chunks && o.section < |w.chunks[o.key].sections|
    && o.index < |w.chunks[o.key].sections[o.section].ids|
    && w.chunks[o.key].sections[o.section].ids[o.index] != 0
  }

  function BlockAt(w: World, o: Origin): Block
    requires InWorld(w, o)
  {
    var c := w.chunks[o.key];
    var s := c.sections[o.section];
    var id := s.ids[o.index];
    Block(Wrap32(c.x * 16 + o.index % 16), Wrap32(s.y * 16 + o.index / 256 % 16), Wrap32(c.z * 16 + o.index / 16 % 16),
          id, if id < |w.palette| then w.palette[id] else "")
  }

  function Point(x: int, y: int, z: int): Bounds {
    Bounds(x, x, y, y, z, z)
  }

  function Least(a: int, b: int): int {
    if b < a then b else a
  }

  function Greatest(a: int, b: int): int {
    if b > a then b else a
  }

  function Widen(b: Bounds, x: int, y: int, z: int): Bounds {
    Bounds(Least(b.minX, x), Greatest(b.maxX, x), Least(b.minY, y), Greatest(b.maxY, y), Least(b.minZ, z), Greatest(b.maxZ, z))
  }

  // ------------------------------------------------------------------ the loops

  predicate Inside(b: Bounds, k: Block) {
    b.minX <= k.x <= b.maxX && b.minY <= k.y <= b.maxY && b.minZ <= k.z <= b.maxZ
  }

  /** The tightest box: every block inside, every side touched; all zero without blocks. */
  ghost predicate Tight(b: Bounds, blocks: seq<Block>) {
    if blocks == [] then b == NO_BOUNDS
    else
      && (forall k :: 0 <= k < |blocks| ==> Inside(b, blocks[k]))
      && (exists k :: 0 <= k < |blocks| && blocks[k].x == b.minX) && (exists k :: 0 <= k < |blocks| && blocks[k].x == b.maxX)
      && (exists k :: 0 <= k < |blocks| && blocks[k].y == b.minY) && (exists k :: 0 <= k < |blocks| && blocks[k].y == b.maxY)
      && (exists k :: 0 <= k < |blocks| && blocks[k].z == b.minZ) && (exists k :: 0 <= k < |blocks| && blocks[k].z == b.maxZ)
  }

  lemma TightGrows(b: Bounds, blocks: seq<Block>, n: Block)
    requires Tight(b, blocks)
    ensures Tight(Grown(b, blocks, n), blocks + [n])
  {
    var all := blocks + [n];
    assert all[|blocks|] == n;
    if blocks != [] {
      var i1 :| 0 <= i1 < |blocks| && blocks[i1].x == b.minX;
      var i2 :| 0 <= i2 < |blocks| && blocks[i2].x == b.maxX;
      var i3 :| 0 <= i3 < |blocks| && blocks[i3].y == b.minY;
      var i4 :| 0 <= i4 < |blocks| && blocks[i4].y == b.maxY;
      var i5 :| 0 <= i5 < |blocks| && blocks[i5].z == b.minZ;
      var i6 :| 0 <= i6 < |blocks| && blocks[i6].z == b.maxZ;
      assert all[i1] == blocks[i1] && all[i2] == blocks[i2] && all[i3] == blocks[i3];
      assert all[i4] == blocks[i4] && all[i5] == blocks[i5] && all[i6] == blocks[i6];
    }
  }

  /** The preview so far. */
  datatype Preview = Preview(bounds: Bounds, total: nat, blocks: seq<Block>)

  /** The preview lists the blocks of exactly these entries, each once, in this order. */
  ghost predicate Lists(w: World, p: Preview, origins: seq<Origin>) {
    && |p.blocks| == |origins| == p.total
    && Enumerates(w, p.blocks, origins)
    && Tight(p.bounds, p.blocks)
  }

  ghost predicate Enumerates(w: World, blocks: seq<Block>, origins: seq<Origin>)
    requires |blocks| == |origins|
  {
    && (forall k :: 0 <= k < |origins| ==> InWorld(w, origins[k]) && blocks[k] == BlockAt(w, origins[k]))
    && (forall a, b :: 0 <= a < b < |origins| ==> origins[a] != origins[b])
  }

  lemma EnumeratesOneMore(w: World, blocks: seq<Block>, origins: seq<Origin>, o: Origin, n: Block)
    requires |blocks| == |origins| && Enumerates(w, blocks, origins) && InWorld(w, o) && o !in origins && n == BlockAt(w, o)
    ensures Enumerates(w, blocks + [n], origins + [o])
  {
  }

  function Grown(b: Bounds, blocks: seq<Block>, n: Block): Bounds {
    if blocks == [] then Point(n.x, n.y, n.z) else Widen(b, n.x, n.y, n.z)
  }

  function WithBlock(p: Preview, n: Block): Preview {
    Preview(Grown(p.bounds, p.blocks, n), p.total + 1, p.blocks + [n])
  }

  lemma ListsOneMore(w: World, p: Preview, origins: seq<Origin>, o: Origin, n: Block)
    requires Lists(w, p, origins) && InWorld(w, o) && o !in origins && n == BlockAt(w, o)
    ensures Lists(w, WithBlock(p, n), origins + [o])
  {
    EnumeratesOneMore(w, p.blocks, origins, o, n);
    TightGrows(p.bounds, p.blocks, n);
  }

  /** `o` was passed when the walk of its chunk stands at section `section`, entry `index`. */
  predicate Before(o: Origin, section: nat, index: nat) {
    o.section < section || (o.section == section && o.index < index)
  }

  /** The entries listed: all of the chunks in `done`, and of chunk `key` those before the position. */
  ghost predicate Covers(w: World, origins: seq<Origin>, done: set<Pos>, key: Pos, section: nat, index: nat) {
    forall o :: o in origins <==> InWorld(w, o) && (o.key in done || (o.key == key && Before(o, section, index)))
  }

  /** The position steps over one entry. */
  lemma CoversZero(w: World, origins: seq<Origin>, done: set<Pos>, o: Origin)
    requires Covers(w, origins, done, o.key, o.section, o.index) && !InWorld(w, o)
    ensures Covers(w, origins, done, o.key, o.section, o.index + 1)
  {
  }

  method ScanEntry(w: World, ghost o: Origin, c: Chunk, s: Section, index: nat, p: Preview) returns (after: Preview)
    requires o.key in w.chunks && c == w.chunks[o.key] && o.section < |c.sections| && s == c.sections[o.section]
    requires o.index == index < |s.ids| && p.total == |p.blocks|
    ensures !InWorld(w, o) ==> after == p
    ensures InWorld(w, o) ==> after == WithBlock(p, BlockAt(w, o))
  {
    var id := s.ids[index];
    if id == 0 {
      return p;
    }
    var x := Wrap32(c.x * 16 + index % 16);
    var z := Wrap32(c.z * 16 + index / 16 % 16);
    var y := Wrap32(s.y * 16 + index / 256 % 16);
    var bounds := if p.total == 0 then Point(x, y, z) else Widen(p.bounds, x, y, z);
    var name := if id < |w.palette| then w.palette[id] else "";
    after := Preview(bounds, p.total + 1, p.blocks + [Block(x, y, z, id, name)]);
  }

  method ScanSection(w: World, key: Pos, section: nat, p: Preview, ghost origins: seq<Origin>, ghost done: set<Pos>)
    returns (after: Preview, ghost listed: seq<Origin>)
    requires key in w.chunks && section < |w.chunks[key].sections| && key !in done
    requires Lists(w, p, origins) && Covers(w, origins, done, key, section, 0)
    ensures Lists(w, after, listed) && Covers(w, listed, done, key, section + 1, 0)
  {
    after, listed := p, origins;
    var c := w.chunks[key];
    var s := c.sections[section];
    for index := 0 to |s.ids|
      invariant Lists(w, after, listed) && Covers(w, listed, done, key, section, index)
    {
      ghost var o := Origin(key, section, index);
      NotYetCovered(w, listed, done, o);
      if InWorld(w, o) {
        ListsOneMore(w, after, listed, o, BlockAt(w, o));
        CoversOneMore(w, listed, done, o);
        listed := listed + [o];
      } else {
        CoversZero(w, listed, done, o);
      }
      after := ScanEntry(w, o, c, s, index, after);
    }
    NextSection(w, listed, done, key, section);
  }

  lemma NotYetCovered(w: World, origins: seq<Origin>, done: set<Pos>, o: Origin)
    requires Covers(w, origins, done, o.key, o.section, o.index) && o.key !in done
    ensures o !in origins
  {
  }

  lemma NextSection(w: World, origins: seq<Origin>, done: set<Pos>, key: Pos, section: nat)
    requires key in w.chunks && section < |w.chunks[key].sections|
    requires Covers(w, origins, done, key, section, |w.chunks[key].sections[section].ids|)
    ensures Covers(w, origins, done, key, section + 1, 0)
  {
  }

  lemma CoversOneMore(w: World, origins: seq<Origin>, done: set<Pos>, o: Origin)
    requires Covers(w, origins, done, o.key, o.section, o.index) && InWorld(w, o)
    ensures Covers(w, origins + [o], done, o.key, o.section, o.index + 1)
  {
  }

  method ScanChunk(w: World, key: Pos, p: Preview, ghost origins: seq<Origin>, ghost done: set<Pos>)
    returns (after: Preview, ghost listed: seq<Origin>)
    requires key in w.chunks && key !in done
    requires Lists(w, p, origins) && Covers(w, origins, done, key, 0, 0)
    ensures Lists(w, after, listed) && Covers(w, listed, done + {key}, key, 0, 0)
  {
    after, listed := p, origins;
    var n := |w.chunks[key].sections|;
    for section := 0 to n
      invariant Lists(w, after, listed) && Covers(w, listed, done, key, section, 0)
    {
      after, listed := ScanSection(w, key, section, after, listed, done);
    }
  }

  /** The entries listed: all of the chunks in `done`. */
  ghost predicate CoversChunks(w: World, origins: seq<Origin>, done: set<Pos>) {
    forall o :: o in origins <==> InWorld(w, o) && o.key in done
  }

  lemma ChunkStarts(w: World, origins: seq<Origin>, done: set<Pos>, key: Pos)
    requires CoversChunks(w, origins, done)
    ensures Covers(w, origins, done, key, 0, 0)
  {
  }

  lemma ChunkEnds(w: World, origins: seq<Origin>, done: set<Pos>, key: Pos)
    requires Covers(w, origins, done, key, 0, 0)
    ensures CoversChunks(w, origins, done)
  {
  }

  /** The preview lists every block of the world, each once, in some order. */
  ghost predicate IsPreview(w: World, p: Preview) {
    exists origins: seq<Origin> :: ListsAll(w, p, origins)
  }

  ghost predicate ListsAll(w: World, p: Preview, origins: seq<Origin>) {
    Lists(w, p, origins) && forall o :: o in origins <==> InWorld(w, o)
  }

  /** `limboBlueprintPreview`: chunks come in an arbitrary order. */
  method MakePreview(w: World) returns (p: Preview)
    ensures IsPreview(w, p)
  {
    p := Preview(NO_BOUNDS, 0, []);
    ghost var origins: seq<Origin> := [];
    var left := w.chunks.Keys;
    ghost var done: set<Pos> := {};
    while left != {}
      invariant left <= w.chunks.Keys && done == w.chunks.Keys - left
      invariant Lists(w, p, origins) && CoversChunks(w, origins, done)
      decreases left
    {
      var key :| key in left;
      ChunkStarts(w, origins, done, key);
      p, origins := ScanChunk(w, key, p, origins, done);
      left, done := left - {key}, done + {key};
      ChunkEnds(w, origins, done, key);
    }
    assert done == w.chunks.Keys;
    assert ListsAll(w, p, origins);
  }

  // ------------------------------------------------------------------ coordinates

  const CHUNKS_AROUND := 0x1000_0000

  /** int32 block coordinates tell chunk coordinates apart modulo 2^28 only. */
  predicate SamePlace(a: Chunk, s: nat, b: Chunk, t: nat)
    requires s < |a.sections| && t < |b.sections|
  {
    && a.x % CHUNKS_AROUND == b.x % CHUNKS_AROUND && a.z % CHUNKS_AROUND == b.z % CHUNKS_AROUND
    && a.sections[s].y % CHUNKS_AROUND == b.sections[t].y % CHUNKS_AROUND
  }

  /** Sections hold at most 4096 entries and stand at different places. */
  ghost predicate WellPlaced(w: World) {
    && (forall k, s :: k in w.chunks && 0 <= s < |w.chunks[k].sections| ==> |w.chunks[k].sections[s].ids| <= 4096)
    && (forall k, s, k', s' ::
          (k in w.chunks && k' in w.chunks && 0 <= s < |w.chunks[k].sections| && 0 <= s' < |w.chunks[k'].sections|
           && SamePlace(w.chunks[k], s, w.chunks[k'], s')) ==> (k == k' && s == s'))
  }

  predicate SamePoint(j: Block, k: Block) {
    j.x == k.x && j.y == k.y && j.z == k.z
  }

  lemma DigitsDetermine(a: nat, b: nat)
    requires a < 4096 && b < 4096
    requires a % 16 == b % 16 && a / 16 % 16 == b / 16 % 16 && a / 256 % 16 == b / 256 % 16
    ensures a == b
  {
    DigitsOf(a);
    DigitsOf(b);
  }

  lemma DigitsOf(a: nat)
    requires a < 4096
    ensures a == a / 256 % 16 * 256 + a / 16 % 16 * 16 + a % 16
  {
  }

  lemma SameWrap(u: int, v: int)
    ensures Wrap32(u) == Wrap32(v) <==> (u - v) % 0x1_0000_0000 == 0
  {
  }

  lemma SameRemainder(a: int, b: int, m: int, q: int)
    requires m > 0 && a == b + q * m
    ensures a % m == b % m
  {
    var d := (a / m - b / m - q);
    assert d * m == b % m - a % m;
    TooFar(d, m);
  }

  lemma WrapSplits(a: int, i: int, b: int, j: int)
    requires 0 <= i < 16 && 0 <= j < 16
    ensures Wrap32(a * 16 + i) == Wrap32(b * 16 + j) <==> i == j && a % CHUNKS_AROUND == b % CHUNKS_AROUND
  {
    var u := a * 16 + i - b * 16 - j;
    SameWrap(a * 16 + i, b * 16 + j);
    if u % 0x1_0000_0000 == 0 {
      var q := u / 0x1_0000_0000;
      assert u == q * 0x1_0000_0000;
      assert i == j && a == b + q * CHUNKS_AROUND;
      SameRemainder(a, b, CHUNKS_AROUND, q);
    }
    if i == j && a % CHUNKS_AROUND == b % CHUNKS_AROUND {
      var q := a / CHUNKS_AROUND - b / CHUNKS_AROUND;
      assert a - b == q * CHUNKS_AROUND;
      assert u == q * 0x1_0000_0000;
      SameRemainder(u, 0, 0x1_0000_0000, q);
    }
  }

  lemma CoordinatesOf(w: World, o: Origin)
    requires InWorld(w, o)
    ensures BlockAt(w, o).x == Wrap32(w.chunks[o.key].x * 16 + o.index % 16)
    ensures BlockAt(w, o).y == Wrap32(w.chunks[o.key].sections[o.section].y * 16 + o.index / 256 % 16)
    ensures BlockAt(w, o).z == Wrap32(w.chunks[o.key].z * 16 + o.index / 16 % 16)
  {
  }

  /** Two entries of ordinary sections get the same coordinates exactly when index and place agree. */
  lemma CoordinatesCollideIff(w: World, a: Origin, b: Origin)
    requires InWorld(w, a) && InWorld(w, b) && a.index < 4096 && b.index < 4096
    ensures SamePoint(BlockAt(w, a), BlockAt(w, b)) <==>
            a.index == b.index && SamePlace(w.chunks[a.key], a.section, w.chunks[b.key], b.section)
  {
    CoordinatesOf(w, a);
    CoordinatesOf(w, b);
    var ca, cb := w.chunks[a.key], w.chunks[b.key];
    WrapSplits(ca.x, a.index % 16, cb.x, b.index % 16);
    WrapSplits(ca.z, a.index / 16 % 16, cb.z, b.index / 16 % 16);
    WrapSplits(ca.sections[a.section].y, a.index / 256 % 16, cb.sections[b.section].y, b.index / 256 % 16);
    if SamePoint(BlockAt(w, a), BlockAt(w, b)) {
      DigitsDetermine(a.index, b.index);
    }
  }

  // ------------------------------------------------------------------ counting

  function Width(b: Bounds): int {
    Wrap32(b.maxX - b.minX + 1)
  }

  function Height(b: Bounds): int {
    Wrap32(b.maxY - b.minY + 1)
  }

  function Length(b: Bounds): int {
    Wrap32(b.maxZ - b.minZ + 1)
  }

  lemma NatProduct(a: nat, b: nat)
    ensures a * b >= 0
  {
  }

  lemma MulLess(a: nat, n: nat, b: nat, m: nat)
    requires a < n && b < m
    ensures 0 <= a * m + b < n * m
  {
    NatProduct(n - a - 1, m);
    assert n * m == (n - a - 1) * m + a * m + m;
    NatProduct(a, m);
  }

  lemma MulInjective(a: nat, b: nat, c: nat, d: nat, m: nat)
    requires b < m && d < m && a * m + b == c * m + d
    ensures a == c && b == d
  {
    QuotientOf(a, b, m);
    QuotientOf(c, d, m);
  }

  lemma QuotientOf(a: nat, b: nat, m: nat)
    requires b < m
    ensures (a * m + b) / m == a
  {
    var q := (a * m + b) / m;
    var e := (a * m + b) % m;
    assert (q - a) * m == b - e;
    TooFar(q - a, m);
  }

  lemma TooFar(d: int, m: nat)
    requires m > 0
    ensures d >= 1 ==> d * m >= m
    ensures d <= -1 ==> d * m + m <= 0
  {
    if d >= 1 {
      assert d * m == m + (d - 1) * m;
    }
    if d <= -1 {
      assert d * m + m == (d + 1) * m;
    }
  }

  /** A block's number in the box, counted row by row. */
  function Rank(b: Bounds, k: Block): int {
    Place(k.x - b.minX, k.y - b.minY, k.z - b.minZ, b.maxY - b.minY + 1, b.maxZ - b.minZ + 1)
  }

  function Place(x: int, y: int, z: int, height: int, length: int): int {
    (x * height + y) * length + z
  }

  lemma PlaceIsInjective(x: nat, y: nat, z: nat, x': nat, y': nat, z': nat, height: nat, length: nat)
    requires y < height && y' < height && z < length && z' < length
    requires Place(x, y, z, height, length) == Place(x', y', z', height, length)
    ensures x == x' && y == y' && z == z'
  {
    MulInjective(x * height + y, z, x' * height + y', z', length);
    MulInjective(x, y, x', y', height);
  }

  lemma RankInBox(b: Bounds, k: Block)
    requires Inside(b, k)
    ensures 0 <= Rank(b, k) < (b.maxX - b.minX + 1) * (b.maxY - b.minY + 1) * (b.maxZ - b.minZ + 1)
  {
    var wd, h, l := b.maxX - b.minX + 1, b.maxY - b.minY + 1, b.maxZ - b.minZ + 1;
    MulLess(k.x - b.minX, wd, k.y - b.minY, h);
    MulLess((k.x - b.minX) * h + (k.y - b.minY), wd * h, k.z - b.minZ, l);
  }

  lemma RankIsInjective(b: Bounds, j: Block, k: Block)
    requires Inside(b, j) && Inside(b, k) && Rank(b, j) == Rank(b, k)
    ensures SamePoint(j, k)
  {
    PlaceIsInjective(j.x - b.minX, j.y - b.minY, j.z - b.minZ, k.x - b.minX, k.y - b.minY, k.z - b.minZ,
                     b.maxY - b.minY + 1, b.maxZ - b.minZ + 1);
  }

  /** Pairwise different numbers below `n` are at most `n`. */
  lemma {:induction false} DistinctBelow(s: seq<int>, n: nat)
    requires forall i :: 0 <= i < |s| ==> 0 <= s[i] < n
    requires forall i, j :: 0 <= i < j < |s| ==> s[i] != s[j]
    ensures |s| <= n
    decreases n
  {
    if s == [] {
      return;
    }
    assert s[0] < n;
    if i :| 0 <= i < |s| && s[i] == n - 1 {
      var t := s[..i] + s[i + 1..];
      assert forall k :: 0 <= k < |t| ==> t[k] == s[if k < i then k else k + 1];
      DistinctBelow(t, n - 1);
    } else {
      DistinctBelow(s, n - 1);
    }
  }

  /** Blocks at different places within a box of positive sides are at most as many as its places. */
  lemma BoxHolds(b: Bounds, blocks: seq<Block>)
    requires forall k :: 0 <= k < |blocks| ==> Inside(b, blocks[k])
    requires forall i, j :: 0 <= i < j < |blocks| ==> !SamePoint(blocks[i], blocks[j])
    requires blocks != []
    ensures |blocks| <= (b.maxX - b.minX + 1) * (b.maxY - b.minY + 1) * (b.maxZ - b.minZ + 1)
  {
    var places := (b.maxX - b.minX + 1) * (b.maxY - b.minY + 1) * (b.maxZ - b.minZ + 1);
    var ranks := seq(|blocks|, k requires 0 <= k < |blocks| => Rank(b, blocks[k]));
    forall k | 0 <= k < |ranks|
      ensures 0 <= ranks[k] < places
    {
      RankInBox(b, blocks[k]);
    }
    forall i, j | 0 <= i < j < |ranks|
      ensures ranks[i] != ranks[j]
    {
      RanksDiffer(b, blocks[i], blocks[j]);
    }
    RankInBox(b, blocks[0]);
    DistinctBelow(ranks, places);
  }

  lemma RanksDiffer(b: Bounds, j: Block, k: Block)
    requires Inside(b, j) && Inside(b, k) && !SamePoint(j, k)
    ensures Rank(b, j) != Rank(b, k)
  {
    if Rank(b, j) == Rank(b, k) {
      RankIsInjective(b, j, k);
    }
  }

  lemma EntriesDiffer(w: World, blocks: seq<Block>, origins: seq<Origin>, a: nat, b: nat)
    requires WellPlaced(w) && |blocks| == |origins| && Enumerates(w, blocks, origins) && a < b < |origins|
    ensures !SamePoint(blocks[a], blocks[b])
  {
    var o, o' := origins[a], origins[b];
    CoordinatesCollideIff(w, o, o');
  }

  lemma PlacesDiffer(w: World, p: Preview, origins: seq<Origin>)
    requires WellPlaced(w) && Lists(w, p, origins)
    ensures forall a, b :: 0 <= a < b < |p.blocks| ==> !SamePoint(p.blocks[a], p.blocks[b])
  {
    forall a, b | 0 <= a < b < |p.blocks|
      ensures !SamePoint(p.blocks[a], p.blocks[b])
    {
      EntriesDiffer(w, p.blocks, origins, a, b);
    }
  }

  /**
   The preview of a well-placed world: coordinates are pairwise different, and there are no more blocks than
   the box has places. The reported sides are that box's unless a side reaches 2^31.
   */
  lemma BlocksFitTheBox(w: World, p: Preview)
    requires WellPlaced(w) && IsPreview(w, p)
    ensures forall a, b :: 0 <= a < b < |p.blocks| ==> !SamePoint(p.blocks[a], p.blocks[b])
    ensures p.total == |p.blocks| <= Volume(p.bounds)
    ensures SidesAreShort(p.bounds) ==> p.total <= Width(p.bounds) * Height(p.bounds) * Length(p.bounds)
  {
    var origins :| ListsAll(w, p, origins);
    PlacesDiffer(w, p, origins);
    BoxCounts(p.bounds, p.blocks);
  }

  lemma BoxCounts(b: Bounds, blocks: seq<Block>)
    requires Tight(b, blocks)
    requires forall i, j :: 0 <= i < j < |blocks| ==> !SamePoint(blocks[i], blocks[j])
    ensures |blocks| <= Volume(b)
    ensures SidesAreShort(b) ==> |blocks| <= Width(b) * Height(b) * Length(b)
  {
    if blocks != [] {
      BoxHolds(b, blocks);
    }
    SidesAreOrdered(b, blocks);
    SidesAreReportedIff(b);
  }

  function Volume(b: Bounds): int {
    (b.maxX - b.minX + 1) * (b.maxY - b.minY + 1) * (b.maxZ - b.minZ + 1)
  }

  predicate SidesAreShort(b: Bounds) {
    b.maxX - b.minX < 0x7fff_ffff && b.maxY - b.minY < 0x7fff_ffff && b.maxZ - b.minZ < 0x7fff_ffff
  }

  lemma SidesAreOrdered(b: Bounds, blocks: seq<Block>)
    requires Tight(b, blocks)
    ensures b.minX <= b.maxX && b.minY <= b.maxY && b.minZ <= b.maxZ
  {
    if blocks != [] {
      assert Inside(b, blocks[0]);
    }
  }

  lemma SideIsReportedIff(span: nat)
    ensures Wrap32(span + 1) == span + 1 <==> span < 0x7fff_ffff
  {
  }

  lemma SidesAreReportedIff(b: Bounds)
    requires b.minX <= b.maxX && b.minY <= b.maxY && b.minZ <= b.maxZ
    ensures (Width(b) == b.maxX - b.minX + 1 && Height(b) == b.maxY - b.minY + 1 && Length(b) == b.maxZ - b.minZ + 1)
            <==> SidesAreShort(b)
  {
    SideIsReportedIff(b.maxX - b.minX);
    SideIsReportedIff(b.maxY - b.minY);
    SideIsReportedIff(b.maxZ - b.minZ);
  }

  const WEST := Pos(-0x800_0000, 0)
  const EAST := Pos(0x7ff_ffff, 0)

  /** Two blocks at the two ends of the int32 range. */
  const WIDE_WORLD := World(["minecraft:air", "minecraft:stone"], map[WEST := Chunk(-0x800_0000, 0, [Section(0, [1])]),
                                                  EAST := Chunk(0x7ff_ffff, 0, [Section(0, [1])])])

  /** Every preview of the wide world counts two blocks in a box reported as holding fewer than none. */
  lemma WideWorldOverflows(p: Preview)
    requires IsPreview(WIDE_WORLD, p)
    ensures p.total >= 2 && Width(p.bounds) * Height(p.bounds) * Length(p.bounds) < 0
  {
    var origins :| ListsAll(WIDE_WORLD, p, origins);
    var west, east := Origin(WEST, 0, 0), Origin(EAST, 0, 0);
    WideWorldHasBoth();
    OnlyTwoPlaces(west);
    OnlyTwoPlaces(east);
    AllAtAnEnd(p, origins);
    BothEnds(WIDE_WORLD, p, origins, west, east);
  }

  lemma BothEnds(w: World, p: Preview, origins: seq<Origin>, west: Origin, east: Origin)
    requires Lists(w, p, origins) && west in origins && east in origins && InWorld(w, west) && InWorld(w, east)
    requires BlockAt(w, west).x == -0x8000_0000 && BlockAt(w, east).x == 0x7fff_fff0
    requires forall k :: 0 <= k < |p.blocks| ==> AtAnEnd(p.blocks[k])
    ensures p.total >= 2 && Width(p.bounds) * Height(p.bounds) * Length(p.bounds) < 0
  {
    var i := ListedAt(w, p, origins, west);
    var j := ListedAt(w, p, origins, east);
    WideBounds(p.bounds, p.blocks, i, j);
  }

  lemma AllAtAnEnd(p: Preview, origins: seq<Origin>)
    requires Lists(WIDE_WORLD, p, origins)
    ensures forall k :: 0 <= k < |p.blocks| ==> AtAnEnd(p.blocks[k])
  {
    forall k | 0 <= k < |p.blocks|
      ensures AtAnEnd(p.blocks[k])
    {
      OnlyTwoPlaces(origins[k]);
    }
  }

  lemma WideWorldHasBoth()
    ensures InWorld(WIDE_WORLD, Origin(WEST, 0, 0)) && InWorld(WIDE_WORLD, Origin(EAST, 0, 0)) && WEST != EAST
  {
  }

  lemma ListedAt(w: World, p: Preview, origins: seq<Origin>, o: Origin) returns (i: nat)
    requires Lists(w, p, origins) && o in origins && InWorld(w, o)
    ensures i < |p.blocks| && p.blocks[i] == BlockAt(w, o)
  {
    i :| 0 <= i < |origins| && origins[i] == o;
  }

  predicate AtAnEnd(b: Block) {
    b.y == 0 && b.z == 0 && (b.x == -0x8000_0000 || b.x == 0x7fff_fff0)
  }

  lemma WideBounds(b: Bounds, blocks: seq<Block>, i: nat, j: nat)
    requires Tight(b, blocks) && i < |blocks| && j < |blocks| && blocks[i].x == -0x8000_0000 && blocks[j].x == 0x7fff_fff0
    requires forall k :: 0 <= k < |blocks| ==> AtAnEnd(blocks[k])
    ensures |blocks| >= 2 && Width(b) * Height(b) * Length(b) < 0
  {
    assert Inside(b, blocks[i]) && Inside(b, blocks[j]);
    assert b.minX == -0x8000_0000 && b.maxX == 0x7fff_fff0;
    assert b.minY == b.maxY && b.minZ == b.maxZ;
    assert Width(b) == -15 && Height(b) == 1 && Length(b) == 1;
  }

  lemma OnlyTwoPlaces(o: Origin)
    requires InWorld(WIDE_WORLD, o)
    ensures AtAnEnd(BlockAt(WIDE_WORLD, o))
    ensures BlockAt(WIDE_WORLD, o).x == if o.key == WEST then -0x8000_0000 else 0x7fff_fff0
    ensures o.section == 0 && o.index == 0 && o.key in {WEST, EAST}
  {
  }

  /** Two walks of one world list the same blocks within the same bounds, whatever the order of its chunks. */
  lemma OrderDoesNotMatter(w: World, p: Preview, q: Preview)
    requires IsPreview(w, p) && IsPreview(w, q)
    ensures forall b :: b in p.blocks <==> b in q.blocks
    ensures p.bounds == q.bounds && p.total == q.total
  {
    var po :| ListsAll(w, p, po);
    var qo :| ListsAll(w, q, qo);
    SameBlocks(w, p, po, q, qo);
    SameBlocks(w, q, qo, p, po);
    SameLength(po, qo);
    TightestIsUnique(p.bounds, p.blocks, q.bounds, q.blocks);
  }

  lemma SameBlocks(w: World, p: Preview, po: seq<Origin>, q: Preview, qo: seq<Origin>)
    requires Lists(w, p, po) && Lists(w, q, qo) && forall o :: o in po ==> o in qo
    ensures forall b :: b in p.blocks ==> b in q.blocks
  {
    forall b | b in p.blocks
      ensures b in q.blocks
    {
      var k :| 0 <= k < |p.blocks| && p.blocks[k] == b;
      assert po[k] in po;
      var j :| 0 <= j < |qo| && qo[j] == po[k];
      assert q.blocks[j] == b;
    }
  }

  ghost function Elements(s: seq<Origin>): set<Origin> {
    set o | o in s
  }

  lemma {:induction false} DistinctCount(s: seq<Origin>)
    requires forall a, b :: 0 <= a < b < |s| ==> s[a] != s[b]
    ensures |Elements(s)| == |s|
    decreases |s|
  {
    if s != [] {
      var n := |s| - 1;
      DistinctCount(s[..n]);
      assert s == s[..n] + [s[n]];
      assert Elements(s) == Elements(s[..n]) + {s[n]};
    }
  }

  lemma SameLength(a: seq<Origin>, b: seq<Origin>)
    requires forall i, j :: 0 <= i < j < |a| ==> a[i] != a[j]
    requires forall i, j :: 0 <= i < j < |b| ==> b[i] != b[j]
    requires forall o :: o in a <==> o in b
    ensures |a| == |b|
  {
    DistinctCount(a);
    DistinctCount(b);
    assert Elements(a) == Elements(b);
  }

  lemma TightestIsUnique(a: Bounds, bs: seq<Block>, c: Bounds, ds: seq<Block>)
    requires Tight(a, bs) && Tight(c, ds) && forall b :: b in bs <==> b in ds
    ensures a == c
  {
    assert bs == [] <==> ds == [] by {
      assert bs != [] ==> bs[0] in bs;
      assert ds != [] ==> ds[0] in ds;
    }
    if bs != [] {
      assert bs[0] in bs;
      forall b | b in bs
        ensures Inside(a, b) && Inside(c, b)
      {
      }
      TouchesSides(a, bs);
      TouchesSides(c, ds);
    }
  }

  lemma TouchesSides(b: Bounds, blocks: seq<Block>)
    requires Tight(b, blocks) && blocks != []
    ensures (exists k :: k in blocks && k.x == b.minX) && (exists k :: k in blocks && k.x == b.maxX)
    ensures (exists k :: k in blocks && k.y == b.minY) && (exists k :: k in blocks && k.y == b.maxY)
    ensures (exists k :: k in blocks && k.z == b.minZ) && (exists k :: k in blocks && k.z == b.maxZ)
  {
    var i1 :| 0 <= i1 < |blocks| && blocks[i1].x == b.minX;
    var i2 :| 0 <= i2 < |blocks| && blocks[i2].x == b.maxX;
    var i3 :| 0 <= i3 < |blocks| && blocks[i3].y == b.minY;
    var i4 :| 0 <= i4 < |blocks| && blocks[i4].y == b.maxY;
    var i5 :| 0 <= i5 < |blocks| && blocks[i5].z == b.minZ;
    var i6 :| 0 <= i6 < |blocks| && blocks[i6].z == b.maxZ;
    assert blocks[i1] in blocks && blocks[i2] in blocks && blocks[i3] in blocks;
    assert blocks[i4] in blocks && blocks[i5] in blocks && blocks[i6] in blocks;
  }
}
