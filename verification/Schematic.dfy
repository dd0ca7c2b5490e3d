/**
 The loader of limbo/world/schematic/load.go. Every world that is previewed comes from it. Sides are int16; indexes into
 the block ids are int32.
 */
module Schematic {
  import opened Blueprint
  import opened SchematicData
  import opened Wrappers

  const MAX_SIDE := 0x7fff
  const CELLS := 4096

  type Chunks = map<Pos, Chunk>

  /** The block ids of a new section. */
  function Zeros(): (ids: seq<nat>)
    ensures |ids| == CELLS && forall i :: 0 <= i < CELLS ==> ids[i] == 0
  {
    seq(CELLS, _ => 0)
  }

  /** `sectionIndexInChunk` of a block's place in its section. */
  function CellOf(x: int, y: int, z: int): (i: nat)
    ensures i < CELLS
  {
    (y % 16 * 16 + z % 16) * 16 + x % 16
  }

  function PosOf(x: int, z: int): Pos {
    Pos(x / 16, z / 16)
  }

  // ------------------------------------------------------------------ sections

  /** The id in the section at height `y`; no section reads as 0. */
  function IdAt(ss: seq<Section>, y: int, i: nat): nat {
    if ss == [] then 0
    else if ss[0].y == y then (if i < |ss[0].ids| then ss[0].ids[i] else 0)
    else IdAt(ss[1..], y, i)
  }

  /** Sections are ordered by height and whole; heights and chunks are those of int16 sides. */
  predicate Ordered(ss: seq<Section>) {
    && (forall i, j :: 0 <= i < j < |ss| ==> ss[i].y < ss[j].y)
    && (forall i :: 0 <= i < |ss| ==> 0 <= ss[i].y < 2048 && |ss[i].ids| == CELLS)
  }

  /** Appending a section and sorting by height. */
  function Insert(ss: seq<Section>, s: Section): seq<Section> {
    if ss == [] || s.y < ss[0].y then [s] + ss else [ss[0]] + Insert(ss[1..], s)
  }

  lemma {:induction false} InsertKeeps(ss: seq<Section>, s: Section)
    requires Ordered(ss) && 0 <= s.y < 2048 && |s.ids| == CELLS && forall i :: 0 <= i < |ss| ==> ss[i].y != s.y
    ensures Ordered(Insert(ss, s)) && |Insert(ss, s)| == |ss| + 1
    ensures forall t :: t in Insert(ss, s) <==> t == s || t in ss
    decreases |ss|
  {
    if ss != [] && s.y >= ss[0].y {
      InsertKeeps(ss[1..], s);
      var rest := Insert(ss[1..], s);
      assert forall t :: t in rest ==> ss[0].y < t.y;
    }
  }

  lemma {:induction false} InsertZerosReads(ss: seq<Section>, y: int, y': int, i: nat)
    requires Ordered(ss) && forall k :: 0 <= k < |ss| ==> ss[k].y != y
    ensures IdAt(Insert(ss, Section(y, Zeros())), y', i) == IdAt(ss, y', i)
    decreases |ss|
  {
    var s := Section(y, Zeros());
    if ss == [] || y < ss[0].y {
      assert ([s] + ss)[1..] == ss;
      if y' == y {
        AbsentReads(ss, y, i);
      }
    } else {
      InsertZerosReads(ss[1..], y, y', i);
      assert ([ss[0]] + Insert(ss[1..], s))[1..] == Insert(ss[1..], s);
    }
  }

  lemma {:induction false} AbsentReads(ss: seq<Section>, y: int, i: nat)
    requires forall k :: 0 <= k < |ss| ==> ss[k].y != y
    ensures IdAt(ss, y, i) == 0
    decreases |ss|
  {
    if ss != [] {
      AbsentReads(ss[1..], y, i);
    }
  }

  lemma {:induction false} SectionReads(ss: seq<Section>, k: nat, i: nat)
    requires Ordered(ss) && k < |ss| && i < CELLS
    ensures IdAt(ss, ss[k].y, i) == ss[k].ids[i]
    decreases |ss|
  {
    if k > 0 {
      SectionReads(ss[1..], k - 1, i);
    }
  }

  function Put(ss: seq<Section>, k: nat, i: nat, id: nat): seq<Section>
    requires k < |ss| && i < |ss[k].ids|
  {
    ss[k := ss[k].(ids := ss[k].ids[i := id])]
  }

  lemma {:induction false} PutReads(ss: seq<Section>, k: nat, i: nat, id: nat, y': int, i': nat)
    requires Ordered(ss) && k < |ss| && i < CELLS && i' < CELLS
    ensures Ordered(Put(ss, k, i, id))
    ensures IdAt(Put(ss, k, i, id), y', i') == if y' == ss[k].y && i' == i then id else IdAt(ss, y', i')
    decreases |ss|
  {
    if k > 0 {
      PutReads(ss[1..], k - 1, i, id, y', i');
      assert Put(ss, k, i, id)[1..] == Put(ss[1..], k - 1, i, id);
    } else {
      assert Put(ss, k, i, id)[1..] == ss[1..];
    }
  }

  method FindSection(ss: seq<Section>, y: int) returns (k: nat)
    ensures k <= |ss| && (k < |ss| ==> ss[k].y == y) && forall i :: 0 <= i < k ==> ss[i].y != y
  {
    k := 0;
    while k < |ss| && ss[k].y != y
      invariant k <= |ss| && forall i :: 0 <= i < k ==> ss[i].y != y
    {
      k := k + 1;
    }
  }

  // ------------------------------------------------------------------ blocks

  predicate Loaded(chunks: Chunks) {
    forall pos :: pos in chunks ==>
      && chunks[pos].x == pos.x && chunks[pos].z == pos.z && 0 <= pos.x < 2048 && 0 <= pos.z < 2048
      && Ordered(chunks[pos].sections)
  }

  /** The block id at a place of the world. */
  function Read(chunks: Chunks, x: int, y: int, z: int): nat {
    if PosOf(x, z) in chunks then IdAt(chunks[PosOf(x, z)].sections, y / 16, CellOf(x, y, z)) else 0
  }

  predicate HasHeight(ss: seq<Section>, y: int) {
    exists k :: 0 <= k < |ss| && ss[k].y == y
  }

  /** The world has the section around a place. */
  predicate HasSection(chunks: Chunks, x: int, y: int, z: int) {
    PosOf(x, z) in chunks && HasHeight(chunks[PosOf(x, z)].sections, y / 16)
  }

  predicate SameSection(x: int, y: int, z: int, x': int, y': int, z': int) {
    PosOf(x, z) == PosOf(x', z') && y / 16 == y' / 16
  }

  lemma SameDigits(a: int, b: int)
    ensures a / 16 == b / 16 && a % 16 == b % 16 ==> a == b
  {
  }

  lemma CellDigits(x: int, y: int, z: int)
    ensures CellOf(x, y, z) % 16 == x % 16 && CellOf(x, y, z) / 16 % 16 == z % 16 && CellOf(x, y, z) / 256 % 16 == y % 16
  {
  }

  lemma PlacesAgree(x: int, y: int, z: int, x': int, y': int, z': int)
    ensures PosOf(x, z) == PosOf(x', z') && y / 16 == y' / 16 && CellOf(x, y, z) == CellOf(x', y', z')
       <==> x == x' && y == y' && z == z'
  {
    CellDigits(x, y, z);
    CellDigits(x', y', z');
    SameDigits(x, x');
    SameDigits(y, y');
    SameDigits(z, z');
  }

  predicate InRange(v: int) {
    0 <= v <= MAX_SIDE
  }

  /** `setBlock` changes the block at its place and no other. */
  method SetBlock(chunks: Chunks, x: int, y: int, z: int, id: nat) returns (after: Chunks)
    requires Loaded(chunks) && InRange(x) && InRange(y) && InRange(z)
    ensures Loaded(after)
    ensures forall x', y', z' ::
              Read(after, x', y', z') == if x' == x && y' == y && z' == z then id else Read(chunks, x', y', z')
    ensures forall x', y', z' ::
              HasSection(after, x', y', z') <==> HasSection(chunks, x', y', z') || SameSection(x, y, z, x', y', z')
  {
    var pos := PosOf(x, z);
    var sections: seq<Section> := if pos in chunks then chunks[pos].sections else [];
    var k := FindSection(sections, y / 16);
    var placed := sections;
    if k == |sections| {
      placed := Insert(sections, Section(y / 16, Zeros()));
      InsertKeeps(sections, Section(y / 16, Zeros()));
      assert Section(y / 16, Zeros()) in placed;
      k := FindSection(placed, y / 16);
    }
    after := chunks[pos := Chunk(pos.x, pos.z, Put(placed, k, CellOf(x, y, z), id))];
    PutReads(placed, k, CellOf(x, y, z), id, 0, 0);
    forall x', y', z'
      ensures Read(after, x', y', z') == if x' == x && y' == y && z' == z then id else Read(chunks, x', y', z')
    {
      PlacesAgree(x, y, z, x', y', z');
      PutReads(placed, k, CellOf(x, y, z), id, y' / 16, CellOf(x', y', z'));
      if placed != sections {
        InsertZerosReads(sections, y / 16, y' / 16, CellOf(x', y', z'));
      }
    }
    SectionsAfter(chunks, sections, placed, k, x, y, z, id);
  }

  lemma SectionsAfter(chunks: Chunks, sections: seq<Section>, placed: seq<Section>, k: nat, x: int, y: int, z: int, id: nat)
    requires sections == (if PosOf(x, z) in chunks then chunks[PosOf(x, z)].sections else [])
    requires placed == sections || forall t :: t in placed <==> t == Section(y / 16, Zeros()) || t in sections
    requires k < |placed| && placed[k].y == y / 16 && |placed[k].ids| == CELLS
    ensures var pos := PosOf(x, z);
            var after := chunks[pos := Chunk(pos.x, pos.z, Put(placed, k, CellOf(x, y, z), id))];
            forall x', y', z' ::
              HasSection(after, x', y', z') <==> HasSection(chunks, x', y', z') || SameSection(x, y, z, x', y', z')
  {
    var pos := PosOf(x, z);
    var after := chunks[pos := Chunk(pos.x, pos.z, Put(placed, k, CellOf(x, y, z), id))];
    forall x', y', z'
      ensures HasSection(after, x', y', z') <==> HasSection(chunks, x', y', z') || SameSection(x, y, z, x', y', z')
    {
      PutHeights(placed, k, CellOf(x, y, z), id, y' / 16);
      InsertedHeights(sections, placed, Section(y / 16, Zeros()), k, y' / 16);
    }
  }

  lemma PutHeights(ss: seq<Section>, k: nat, i: nat, id: nat, y: int)
    requires k < |ss| && i < |ss[k].ids|
    ensures HasHeight(Put(ss, k, i, id), y) <==> HasHeight(ss, y)
  {
    var after := Put(ss, k, i, id);
    assert forall j :: 0 <= j < |ss| ==> after[j].y == ss[j].y;
  }

  /** A section list that has the section's height, by itself or by insertion. */
  lemma InsertedHeights(ss: seq<Section>, placed: seq<Section>, s: Section, k: nat, y: int)
    requires placed == ss || forall t :: t in placed <==> t == s || t in ss
    requires k < |placed| && placed[k].y == s.y
    ensures HasHeight(placed, y) <==> HasHeight(ss, y) || y == s.y
  {
    if placed != ss {
      if j :| 0 <= j < |placed| && placed[j].y == y {
        assert placed[j] in placed;
      }
      if j :| 0 <= j < |ss| && ss[j].y == y {
        assert ss[j] in placed;
      }
    }
  }

  // ------------------------------------------------------------------ the loops

  datatype Sides = Sides(width: int, height: int, length: int) {
    predicate Valid() {
      0 < width <= MAX_SIDE && 0 < height <= MAX_SIDE && 0 < length <= MAX_SIDE
    }

    function Volume(): int {
      width * height * length
    }

    predicate Contains(x: int, y: int, z: int) {
      0 <= x < width && 0 <= y < height && 0 <= z < length
    }

    /** Some block lies in the section around a place. */
    predicate Reaches(x: int, y: int, z: int) {
      0 <= x / 16 * 16 < width && 0 <= y / 16 * 16 < height && 0 <= z / 16 * 16 < length
    }

    /** The number of a block, row by row and layer by layer. */
    function Number(x: int, y: int, z: int): int {
      (y * length + z) * width + x
    }
  }

  /** `blockIndex`, in int32. */
  function BlockIndex(s: Sides, x: int, y: int, z: int): int {
    Wrap32(s.Number(x, y, z))
  }

  lemma NumberFits(s: Sides, x: int, y: int, z: int)
    requires s.Valid() && s.Contains(x, y, z)
    ensures 0 <= s.Number(x, y, z) < s.Volume()
  {
    MulLess(y, s.height, z, s.length);
    MulLess(y * s.length + z, s.height * s.length, x, s.width);
    assert s.height * s.length * s.width == s.Volume();
  }

  lemma RowEnds(s: Sides, y: int, z: int)
    ensures s.Number(s.width, y, z) == s.Number(0, y, z + 1)
  {
    assert (y * s.length + z + 1) * s.width == (y * s.length + z) * s.width + s.width;
  }

  lemma LayerEnds(s: Sides, y: int)
    ensures s.Number(0, y, s.length) == s.Number(0, y + 1, 0)
  {
    assert (y + 1) * s.length == y * s.length + s.length;
  }

  lemma LastLayerEnds(s: Sides)
    ensures s.Number(0, s.height, 0) == s.Volume()
  {
    assert s.height * s.length * s.width == s.Volume();
  }

  /** What the loops have come to: the chunks so far, an error, or a run-time panic. */
  datatype Loading = Going(chunks: Chunks) | Rejected | Crashed

  /** The first `n` ids are in the palette, and their indexes fit int32. */
  predicate OkUpTo(ids: seq<nat>, palette: nat, n: int) {
    n <= |ids| && n <= INT32_LIMIT && forall k :: 0 <= k < n ==> ids[k] < palette
  }

  /** Exactly when loading stops, and how. */
  predicate StopsRight(ids: seq<nat>, palette: nat, r: Loading) {
    match r
    case Going(_) => true
    case Rejected => exists k :: 0 <= k < INT32_LIMIT && k < |ids| && OkUpTo(ids, palette, k) && ids[k] >= palette
    case Crashed => |ids| > INT32_LIMIT && OkUpTo(ids, palette, INT32_LIMIT)
  }

  function IdOf(ids: seq<nat>, n: int): nat {
    if 0 <= n < |ids| then ids[n] else 0
  }

  /** The place `(a, b, c)` comes before `(x, y, z)`. */
  predicate ComesBefore(a: int, b: int, c: int, x: int, y: int, z: int) {
    b < y || (b == y && (c < z || (c == z && a < x)))
  }

  /** The world shows the ids of the places before `(x, y, z)`, and nothing else. */
  ghost predicate ShowsUpTo(chunks: Chunks, s: Sides, ids: seq<nat>, x: int, y: int, z: int) {
    forall a, b, c ::
      Read(chunks, a, b, c) == if s.Contains(a, b, c) && ComesBefore(a, b, c, x, y, z) then IdOf(ids, s.Number(a, b, c)) else 0
  }

  /** The sections are those of the places before `(x, y, z)`: each is there, and every one reaches into the sides. */
  ghost predicate SectionsUpTo(chunks: Chunks, s: Sides, x: int, y: int, z: int) {
    && (forall a, b, c :: s.Contains(a, b, c) && ComesBefore(a, b, c, x, y, z) ==> HasSection(chunks, a, b, c))
    && (forall a, b, c :: HasSection(chunks, a, b, c) ==> s.Reaches(a, b, c))
  }

  lemma SectionsNext(chunks: Chunks, after: Chunks, s: Sides, x: int, y: int, z: int)
    requires SectionsUpTo(chunks, s, x, y, z) && s.Contains(x, y, z)
    requires forall a, b, c :: HasSection(after, a, b, c) <==> HasSection(chunks, a, b, c) || SameSection(x, y, z, a, b, c)
    ensures SectionsUpTo(after, s, x + 1, y, z)
  {
    forall a, b, c | s.Contains(a, b, c) && ComesBefore(a, b, c, x + 1, y, z)
      ensures HasSection(after, a, b, c)
    {
      assert ComesBefore(a, b, c, x, y, z) || SameSection(x, y, z, a, b, c);
    }
    forall a, b, c | HasSection(after, a, b, c)
      ensures s.Reaches(a, b, c)
    {
      assert !HasSection(chunks, a, b, c) ==> s.Reaches(x, y, z) && PosOf(x, z) == PosOf(a, c);
    }
  }

  lemma ShowsNext(chunks: Chunks, after: Chunks, s: Sides, ids: seq<nat>, x: int, y: int, z: int)
    requires ShowsUpTo(chunks, s, ids, x, y, z) && s.Contains(x, y, z)
    requires forall a, b, c :: Read(after, a, b, c)
               == if a == x && b == y && c == z then IdOf(ids, s.Number(x, y, z)) else Read(chunks, a, b, c)
    ensures ShowsUpTo(after, s, ids, x + 1, y, z)
  {
    forall a, b, c
      ensures Read(after, a, b, c)
           == if s.Contains(a, b, c) && ComesBefore(a, b, c, x + 1, y, z) then IdOf(ids, s.Number(a, b, c)) else 0
    {
      assert ComesBefore(a, b, c, x + 1, y, z) <==> ComesBefore(a, b, c, x, y, z) || (a == x && b == y && c == z);
    }
  }

  lemma ShowsRow(chunks: Chunks, s: Sides, ids: seq<nat>, y: int, z: int)
    requires ShowsUpTo(chunks, s, ids, s.width, y, z) && SectionsUpTo(chunks, s, s.width, y, z)
    ensures ShowsUpTo(chunks, s, ids, 0, y, z + 1) && SectionsUpTo(chunks, s, 0, y, z + 1)
  {
    assert forall a, b, c :: s.Contains(a, b, c) && ComesBefore(a, b, c, 0, y, z + 1) ==> ComesBefore(a, b, c, s.width, y, z);
    forall a, b, c
      ensures Read(chunks, a, b, c)
           == if s.Contains(a, b, c) && ComesBefore(a, b, c, 0, y, z + 1) then IdOf(ids, s.Number(a, b, c)) else 0
    {
      assert s.Contains(a, b, c) ==> (ComesBefore(a, b, c, 0, y, z + 1) <==> ComesBefore(a, b, c, s.width, y, z));
    }
  }

  lemma ShowsLayer(chunks: Chunks, s: Sides, ids: seq<nat>, y: int)
    requires ShowsUpTo(chunks, s, ids, 0, y, s.length) && SectionsUpTo(chunks, s, 0, y, s.length)
    ensures ShowsUpTo(chunks, s, ids, 0, y + 1, 0) && SectionsUpTo(chunks, s, 0, y + 1, 0)
  {
    assert forall a, b, c :: s.Contains(a, b, c) && ComesBefore(a, b, c, 0, y + 1, 0) ==> ComesBefore(a, b, c, 0, y, s.length);
    forall a, b, c
      ensures Read(chunks, a, b, c)
           == if s.Contains(a, b, c) && ComesBefore(a, b, c, 0, y + 1, 0) then IdOf(ids, s.Number(a, b, c)) else 0
    {
      assert s.Contains(a, b, c) ==> (ComesBefore(a, b, c, 0, y + 1, 0) <==> ComesBefore(a, b, c, 0, y, s.length));
    }
  }

  /** The loops stand at `(x, y, z)`, and everything before went well. */
  ghost predicate At(s: Sides, palette: nat, ids: seq<nat>, chunks: Chunks, x: int, y: int, z: int) {
    && s.Valid() && |ids| == s.Volume()
    && Loaded(chunks) && ShowsUpTo(chunks, s, ids, x, y, z) && SectionsUpTo(chunks, s, x, y, z)
    && OkUpTo(ids, palette, s.Number(x, y, z))
  }

  method LoadBlock(s: Sides, palette: nat, ids: seq<nat>, chunks: Chunks, x: int, y: int, z: int) returns (r: Loading)
    requires At(s, palette, ids, chunks, x, y, z) && s.Contains(x, y, z)
    ensures r.Going? ==> At(s, palette, ids, r.chunks, x + 1, y, z)
    ensures StopsRight(ids, palette, r)
  {
    ghost var n := s.Number(x, y, z);
    NumberFits(s, x, y, z);
    var i := BlockIndex(s, x, y, z);
    assert n < INT32_LIMIT ==> i == n;
    assert n == INT32_LIMIT ==> i < 0;
    if i < 0 || i >= |ids| {
      return Crashed;
    }
    if ids[i] >= palette {
      return Rejected;
    }
    var after := SetBlock(chunks, x, y, z, ids[i]);
    ShowsNext(chunks, after, s, ids, x, y, z);
    SectionsNext(chunks, after, s, x, y, z);
    r := Going(after);
  }

  method LoadRow(s: Sides, palette: nat, ids: seq<nat>, chunks: Chunks, y: int, z: int) returns (r: Loading)
    requires At(s, palette, ids, chunks, 0, y, z) && 0 <= y < s.height && 0 <= z < s.length
    ensures r.Going? ==> At(s, palette, ids, r.chunks, 0, y, z + 1)
    ensures StopsRight(ids, palette, r)
  {
    r := Going(chunks);
    for x := 0 to s.width
      invariant r.Going? && At(s, palette, ids, r.chunks, x, y, z)
    {
      r := LoadBlock(s, palette, ids, r.chunks, x, y, z);
      if !r.Going? {
        return;
      }
    }
    RowEnds(s, y, z);
    ShowsRow(r.chunks, s, ids, y, z);
  }

  method LoadLayer(s: Sides, palette: nat, ids: seq<nat>, chunks: Chunks, y: int) returns (r: Loading)
    requires At(s, palette, ids, chunks, 0, y, 0) && 0 <= y < s.height
    ensures r.Going? ==> At(s, palette, ids, r.chunks, 0, y + 1, 0)
    ensures StopsRight(ids, palette, r)
  {
    r := Going(chunks);
    for z := 0 to s.length
      invariant r.Going? && At(s, palette, ids, r.chunks, 0, y, z)
    {
      r := LoadRow(s, palette, ids, r.chunks, y, z);
      if !r.Going? {
        return;
      }
    }
    LayerEnds(s, y);
    ShowsLayer(r.chunks, s, ids, y);
  }

  /** The chunks hold the schematic's ids, each at its place, and 0 everywhere else. */
  ghost predicate Shows(chunks: Chunks, s: Sides, ids: seq<nat>) {
    && Loaded(chunks)
    && forall x, y, z :: Read(chunks, x, y, z) == if s.Contains(x, y, z) then IdOf(ids, s.Number(x, y, z)) else 0
  }

  /** The sections are exactly those that reach into the sides. */
  ghost predicate HasItsSections(chunks: Chunks, s: Sides) {
    forall x, y, z :: HasSection(chunks, x, y, z) <==> s.Reaches(x, y, z)
  }

  /** The loops of `buildWorld`, for any list of ids. */
  method FillWorld(s: Sides, palette: nat, ids: seq<nat>) returns (r: Loading)
    requires s.Valid() && |ids| == s.Volume()
    ensures r.Going? <==> OkUpTo(ids, palette, |ids|)
    ensures r.Crashed? <==> |ids| > INT32_LIMIT && OkUpTo(ids, palette, INT32_LIMIT)
    ensures r.Going? ==> Shows(r.chunks, s, ids) && HasItsSections(r.chunks, s)
  {
    r := Going(map[]);
    assert At(s, palette, ids, r.chunks, 0, 0, 0);
    for y := 0 to s.height
      invariant r.Going? && At(s, palette, ids, r.chunks, 0, y, 0)
    {
      r := LoadLayer(s, palette, ids, r.chunks, y);
      if !r.Going? {
        return;
      }
    }
    LastLayerEnds(s);
    AllShown(r.chunks, s, ids);
    AllSections(r.chunks, s);
  }

  lemma AllShown(chunks: Chunks, s: Sides, ids: seq<nat>)
    requires Loaded(chunks) && ShowsUpTo(chunks, s, ids, 0, s.height, 0)
    ensures Shows(chunks, s, ids)
  {
    forall a, b, c
      ensures Read(chunks, a, b, c) == if s.Contains(a, b, c) then IdOf(ids, s.Number(a, b, c)) else 0
    {
      assert s.Contains(a, b, c) ==> ComesBefore(a, b, c, 0, s.height, 0);
    }
  }

  lemma AllSections(chunks: Chunks, s: Sides)
    requires SectionsUpTo(chunks, s, 0, s.height, 0)
    ensures HasItsSections(chunks, s)
  {
    forall x, y, z | s.Reaches(x, y, z)
      ensures HasSection(chunks, x, y, z)
    {
      var a, b, c := x / 16 * 16, y / 16 * 16, z / 16 * 16;
      assert s.Contains(a, b, c) && ComesBefore(a, b, c, 0, s.height, 0);
      assert HasSection(chunks, a, b, c) && SameSection(a, b, c, x, y, z);
    }
  }

  // ------------------------------------------------------------------ the loader

  /** A schematic whose NBT was read. */
  datatype SpongeSchematic = SpongeSchematic(sides: Sides, palette: RawPalette, blockData: seq<byte>) {
    /** What NBT can hold: sides are int16, palette ids int32, and so is the length of a byte array. */
    predicate Decoded() {
      && sides.width <= MAX_SIDE && sides.height <= MAX_SIDE && sides.length <= MAX_SIDE
      && (forall raw :: raw in palette ==> palette[raw] < INT32_LIMIT)
      && |blockData| < INT32_LIMIT
    }

    /** Sides are positive, palette ids complete, and the data has one known id for every block. */
    ghost predicate Valid() {
      && sides.Valid() && palette != map[] && IsFull(palette)
      && DecodeIds(blockData).Some? && |Ids()| == sides.Volume()
      && forall k :: 0 <= k < |Ids()| ==> HasId(palette, Ids()[k])
    }

    function Ids(): seq<nat> {
      if DecodeIds(blockData).Some? then DecodeIds(blockData).value else []
    }
  }

  ghost predicate IsWorldOf(w: World, d: SpongeSchematic) {
    && IsPalette(d.palette, w.palette)
    && Shows(w.chunks, d.sides, d.Ids()) && HasItsSections(w.chunks, d.sides)
  }

  lemma IdIsGivenIff(input: RawPalette, names: seq<string>, id: nat)
    requires IsPalette(input, names)
    ensures HasId(input, id) <==> id < |names|
  {
    if id < |names| {
      assert NamedBy(input, names, id);
    }
  }

  lemma IdsAreGivenIff(input: RawPalette, names: seq<string>, ids: seq<nat>)
    requires IsPalette(input, names) && |ids| < INT32_LIMIT
    ensures OkUpTo(ids, |names|, |ids|) <==> forall k :: 0 <= k < |ids| ==> HasId(input, ids[k])
  {
    forall k | 0 <= k < |ids|
      ensures HasId(input, ids[k]) <==> ids[k] < |names|
    {
      IdIsGivenIff(input, names, ids[k]);
    }
  }

  /** `buildWorld`: the loops never panic for data that NBT can hold; making the palette does for the last int32 id. */
  method BuildWorld(d: SpongeSchematic) returns (r: Outcome<Option<World>>)
    requires d.Decoded()
    ensures r.Panicked? <==> d.sides.Valid() && !HasNegative(d.palette) && HasLastId(d.palette)
    ensures r.Done? && r.value.Some? <==> d.Valid()
    ensures r.Done? && r.value.Some? ==> IsWorldOf(r.value.value, d)
  {
    if d.sides.width <= 0 || d.sides.height <= 0 || d.sides.length <= 0 || d.palette == map[] {
      return Done(None);
    }
    var palette :- DecodePalette(d.palette);
    if palette.None? {
      return Done(None);
    }
    var ids := DecodeBlockData(d.blockData, d.sides.Volume());
    if ids.None? {
      return Done(None);
    }
    DecodedFit(d.blockData);
    IdsAreGivenIff(d.palette, palette.value, ids.value);
    var filled := FillWorld(d.sides, |palette.value|, ids.value);
    r := if filled.Going? then Done(Some(World(palette.value, filled.chunks))) else Done(None);
  }

  /** One block, whose palette entry has the largest int32 id. */
  const LAST_ID := SpongeSchematic(Sides(1, 1, 1), map["minecraft:stone" := 0x7fff_ffff], [0])

  /** That schematic is one for which `BuildWorld` panics. */
  lemma LastIdPanics()
    ensures LAST_ID.Decoded() && LAST_ID.sides.Valid() && !HasNegative(LAST_ID.palette) && HasLastId(LAST_ID.palette)
  {
    assert "minecraft:stone" in LAST_ID.palette;
  }

  // ------------------------------------------------------------------ what the preview shows

  /** The worlds of the loader never collide: sections stand at different places. */
  lemma LoadedIsWellPlaced(w: World)
    requires Loaded(w.chunks)
    ensures WellPlaced(w)
  {
    forall k, i, k', i' | k in w.chunks && k' in w.chunks && 0 <= i < |w.chunks[k].sections| && 0 <= i' < |w.chunks[k'].sections|
                          && SamePlace(w.chunks[k], i, w.chunks[k'], i')
      ensures k == k' && i == i'
    {
      assert k == k';
      assert w.chunks[k].sections[i].y == w.chunks[k].sections[i'].y;
    }
  }

  lemma SmallWrap(a: int, d: int)
    requires 0 <= a < 2048 && 0 <= d < 16
    ensures Wrap32(a * 16 + d) == a * 16 + d && (a * 16 + d) / 16 == a && (a * 16 + d) % 16 == d
  {
  }

  lemma CellOfDigits(i: nat, x: int, y: int, z: int)
    requires i < CELLS && x % 16 == i % 16 && z % 16 == i / 16 % 16 && y % 16 == i / 256 % 16
    ensures CellOf(x, y, z) == i
  {
    DigitsOf(i);
  }

  /** A listed block is what the world shows at its coordinates. */
  lemma EntryReads(w: World, o: Origin)
    requires Loaded(w.chunks) && InWorld(w, o)
    ensures var b := BlockAt(w, o); Read(w.chunks, b.x, b.y, b.z) == b.id && b.id != 0
  {
    var c := w.chunks[o.key];
    var b := BlockAt(w, o);
    SmallWrap(c.x, o.index % 16);
    SmallWrap(c.z, o.index / 16 % 16);
    SmallWrap(c.sections[o.section].y, o.index / 256 % 16);
    CellOfDigits(o.index, b.x, b.y, b.z);
    SectionReads(c.sections, o.section, o.index);
  }

  lemma {:induction false} SectionOf(ss: seq<Section>, y: int, i: nat) returns (k: nat)
    requires IdAt(ss, y, i) != 0
    ensures k < |ss| && ss[k].y == y && i < |ss[k].ids| && ss[k].ids[i] == IdAt(ss, y, i)
    decreases |ss|
  {
    if ss[0].y == y {
      k := 0;
    } else {
      var j := SectionOf(ss[1..], y, i);
      k := j + 1;
    }
  }

  /** Conversely, what the world shows is an entry with those coordinates. */
  lemma ShownHasEntry(w: World, x: int, y: int, z: int) returns (o: Origin)
    requires Loaded(w.chunks) && Read(w.chunks, x, y, z) != 0
    ensures InWorld(w, o)
    ensures var b := BlockAt(w, o); b.x == x && b.y == y && b.z == z && b.id == Read(w.chunks, x, y, z)
  {
    var pos, i := PosOf(x, z), CellOf(x, y, z);
    var k := SectionOf(w.chunks[pos].sections, y / 16, i);
    o := Origin(pos, k, i);
    CellDigits(x, y, z);
    SmallWrap(x / 16, x % 16);
    SmallWrap(y / 16, y % 16);
    SmallWrap(z / 16, z % 16);
  }

  /** The preview lists the block at a place. */
  ghost predicate ListsBlock(p: Preview, x: int, y: int, z: int, id: nat) {
    exists k :: 0 <= k < |p.blocks| && p.blocks[k].x == x && p.blocks[k].y == y && p.blocks[k].z == z && p.blocks[k].id == id
  }

  /** The preview of a loaded schematic lists exactly its blocks with an id other than 0, where they are. */
  lemma PreviewShowsTheSchematic(w: World, p: Preview, s: Sides, ids: seq<nat>, x: int, y: int, z: int, id: nat)
    requires Shows(w.chunks, s, ids) && IsPreview(w, p)
    ensures ListsBlock(p, x, y, z, id) <==> s.Contains(x, y, z) && id == IdOf(ids, s.Number(x, y, z)) != 0
  {
    var origins :| ListsAll(w, p, origins);
    if ListsBlock(p, x, y, z, id) {
      var k :| 0 <= k < |p.blocks| && p.blocks[k].x == x && p.blocks[k].y == y && p.blocks[k].z == z && p.blocks[k].id == id;
      EntryReads(w, origins[k]);
    }
    if s.Contains(x, y, z) && id == IdOf(ids, s.Number(x, y, z)) && id != 0 {
      var o := ShownHasEntry(w, x, y, z);
      assert o in origins;
      var k :| 0 <= k < |origins| && origins[k] == o;
      assert p.blocks[k] == BlockAt(w, o);
    }
  }

  lemma ListedIsShown(w: World, p: Preview, s: Sides, ids: seq<nat>, k: nat)
    requires Shows(w.chunks, s, ids) && IsPreview(w, p) && k < |p.blocks|
    ensures var b := p.blocks[k]; s.Contains(b.x, b.y, b.z) && b.id == IdOf(ids, s.Number(b.x, b.y, b.z)) && b.id != 0
  {
    var b := p.blocks[k];
    assert ListsBlock(p, b.x, b.y, b.z, b.id);
    PreviewShowsTheSchematic(w, p, s, ids, b.x, b.y, b.z, b.id);
  }

  // ------------------------------------------------------------------ ids and names

  function NameOf(palette: seq<string>, id: nat): string {
    if id < |palette| then palette[id] else ""
  }

  /** The preview lists a block of this name at a place. */
  ghost predicate ListsNamed(p: Preview, x: int, y: int, z: int, name: string) {
    exists k :: 0 <= k < |p.blocks| && p.blocks[k].x == x && p.blocks[k].y == y && p.blocks[k].z == z && p.blocks[k].name == name
  }

  /** The preview lists exactly the blocks of the schematic that are not named air. */
  ghost predicate ListsAllButAir(p: Preview, s: Sides, palette: seq<string>, ids: seq<nat>) {
    forall x, y, z, name ::
      ListsNamed(p, x, y, z, name)
      <==> s.Contains(x, y, z) && name == NameOf(palette, IdOf(ids, s.Number(x, y, z))) && name != AIR
  }

  /** Among the ids in use, 0 stands for air and no other id does. */
  predicate ZeroIsAir(palette: seq<string>, ids: seq<nat>) {
    forall k :: 0 <= k < |ids| ==> (ids[k] == 0 <==> NameOf(palette, ids[k]) == AIR)
  }

  lemma ListedNames(w: World, p: Preview, s: Sides, ids: seq<nat>, x: int, y: int, z: int, name: string)
    requires Shows(w.chunks, s, ids) && IsPreview(w, p)
    ensures ListsNamed(p, x, y, z, name)
       <==> s.Contains(x, y, z) && IdOf(ids, s.Number(x, y, z)) != 0 && name == NameOf(w.palette, IdOf(ids, s.Number(x, y, z)))
  {
    var id := IdOf(ids, s.Number(x, y, z));
    PreviewShowsTheSchematic(w, p, s, ids, x, y, z, id);
    if ListsNamed(p, x, y, z, name) {
      var k :| 0 <= k < |p.blocks| && p.blocks[k].x == x && p.blocks[k].y == y && p.blocks[k].z == z && p.blocks[k].name == name;
      var b := p.blocks[k];
      PreviewShowsTheSchematic(w, p, s, ids, x, y, z, b.id);
      assert ListsBlock(p, x, y, z, b.id);
      ListedName(w, p, k);
    }
    if ListsBlock(p, x, y, z, id) {
      var k :| 0 <= k < |p.blocks| && p.blocks[k].x == x && p.blocks[k].y == y && p.blocks[k].z == z && p.blocks[k].id == id;
      ListedName(w, p, k);
    }
  }

  lemma ListedName(w: World, p: Preview, k: nat)
    requires IsPreview(w, p) && k < |p.blocks|
    ensures p.blocks[k].name == NameOf(w.palette, p.blocks[k].id)
  {
    var origins :| ListsAll(w, p, origins);
    assert p.blocks[k] == BlockAt(w, origins[k]);
  }

  lemma RowOf(k: nat, m: nat, n: nat)
    requires m > 0
    ensures k / m * m + k % m == k && 0 <= k % m < m
    ensures k < n * m ==> 0 <= k / m < n
  {
    var row := k / m;
    if row >= n {
      NatProduct(row - n, m);
      assert row * m == n * m + (row - n) * m;
    }
  }

  lemma VolumeByRows(s: Sides)
    ensures s.Volume() == s.height * s.length * s.width
  {
  }

  /** Every number of a block has a place. */
  lemma PlaceOfNumber(s: Sides, k: nat) returns (x: int, y: int, z: int)
    requires s.Valid() && k < s.Volume()
    ensures s.Contains(x, y, z) && s.Number(x, y, z) == k
  {
    VolumeByRows(s);
    NatProduct(s.height, s.length);
    x, y, z := RowAndColumn(k, s.width, s.height, s.length);
  }

  lemma RowAndColumn(k: nat, width: nat, height: nat, length: nat) returns (x: int, y: int, z: int)
    requires width > 0 && length > 0
    ensures 0 <= x < width && 0 <= z < length && 0 <= y && (y * length + z) * width + x == k
    ensures k < height * length * width ==> y < height
  {
    NatProduct(height, length);
    RowOf(k, width, height * length);
    var row := k / width;
    RowOf(row, length, height);
    x, z, y := k % width, row % length, row / length;
  }

  /**
   The preview skips id 0, whatever its name. It lists exactly the blocks that are not named air if and only if among the
   ids in use 0 stands for air and no other id does.
   */
  lemma PreviewIsRightIff(d: SpongeSchematic, w: World, p: Preview)
    requires d.Valid() && IsWorldOf(w, d) && IsPreview(w, p)
    ensures ListsAllButAir(p, d.sides, w.palette, d.Ids()) <==> ZeroIsAir(w.palette, d.Ids())
  {
    var s, ids := d.sides, d.Ids();
    if ZeroIsAir(w.palette, ids) {
      forall x, y, z, name
        ensures ListsNamed(p, x, y, z, name)
           <==> s.Contains(x, y, z) && name == NameOf(w.palette, IdOf(ids, s.Number(x, y, z))) && name != AIR
      {
        ListedNames(w, p, s, ids, x, y, z, name);
        if s.Contains(x, y, z) {
          NumberFits(s, x, y, z);
        }
      }
    }
    if ListsAllButAir(p, s, w.palette, ids) {
      forall k | 0 <= k < |ids|
        ensures ids[k] == 0 <==> NameOf(w.palette, ids[k]) == AIR
      {
        var x, y, z := PlaceOfNumber(s, k);
        ListedNames(w, p, s, ids, x, y, z, NameOf(w.palette, ids[k]));
      }
    }
  }

  /** What the limbo sends for a place of a section: the palette entry of its id. */
  function SentName(w: World, x: int, y: int, z: int): string {
    NameOf(w.palette, Read(w.chunks, x, y, z))
  }

  predicate FillsItsSections(s: Sides) {
    s.width % 16 == 0 && s.height % 16 == 0 && s.length % 16 == 0
  }

  /**
   Outside the schematic its sections repeat palette entry 0: they are air there if and only if that entry is, unless the
   schematic fills its sections.
   */
  lemma OutsideIsAirIff(d: SpongeSchematic, w: World)
    requires d.Valid() && IsWorldOf(w, d)
    ensures (forall x, y, z :: HasSection(w.chunks, x, y, z) && !d.sides.Contains(x, y, z) ==> SentName(w, x, y, z) == AIR)
       <==> w.palette[0] == AIR || FillsItsSections(d.sides)
  {
    var s := d.sides;
    if FillsItsSections(s) {
      forall x, y, z | HasSection(w.chunks, x, y, z)
        ensures s.Contains(x, y, z)
      {
        assert s.Reaches(x, y, z);
        FillsUp(x, s.width);
        FillsUp(y, s.height);
        FillsUp(z, s.length);
      }
    } else {
      var x, y := if s.width % 16 != 0 then s.width else 0, if s.height % 16 != 0 then s.height else 0;
      var z := if s.length % 16 != 0 then s.length else 0;
      LeavesRoom(s.width);
      LeavesRoom(s.height);
      LeavesRoom(s.length);
      assert s.Reaches(x, y, z) && !s.Contains(x, y, z);
      assert HasSection(w.chunks, x, y, z);
      assert SentName(w, x, y, z) == w.palette[0];
    }
  }

  lemma FillsUp(v: int, side: int)
    requires 0 <= v / 16 * 16 < side && side % 16 == 0
    ensures 0 <= v < side
  {
  }

  lemma LeavesRoom(side: int)
    ensures side > 0 && side % 16 != 0 ==> 0 <= side / 16 * 16 < side
  {
  }

  /** Stone and air, with stone first in the palette. */
  const STONE_FIRST := SpongeSchematic(Sides(2, 1, 1), map["minecraft:stone" := 0, "minecraft:air" := 1], [0, 1])

  const STONE := "minecraft:stone"

  lemma StoneFirstIsValid()
    ensures STONE_FIRST.Decoded() && STONE_FIRST.Valid() && STONE_FIRST.Ids() == [0, 1]
  {
    StoneFirstIds();
    var input := STONE_FIRST.palette;
    assert STONE in input && input[STONE] == 0 && AIR in input && input[AIR] == 1;
    assert HasId(input, 0) && HasId(input, 1);
  }

  lemma StoneFirstIds()
    ensures DecodeIds([0, 1]) == Some([0, 1])
  {
    var ids: seq<nat> := [0, 1];
    DecodeInvertsPrint(ids);
    assert ids[1..] == [1] && ids[1..][1..] == [];
    assert PrintIds(ids[1..]) == [1] + [];
    assert PrintIds(ids) == [0] + [1];
  }

  /** The one block that the preview of that schematic lists, counts and boxes is the air. */
  lemma StoneIsDropped(w: World, p: Preview)
    requires IsWorldOf(w, STONE_FIRST) && IsPreview(w, p)
    ensures STONE_FIRST.Valid() && w.palette == [STONE, AIR]
    ensures p == Preview(Point(1, 0, 0), 1, [Block(1, 0, 0, 1, AIR)])
  {
    StoneFirstIsValid();
    StoneFirstPalette(w.palette);
    OnlyAirIsListed(w, p);
  }

  lemma StoneFirstEntry(id: int)
    ensures HasId(STONE_FIRST.palette, id) <==> id == 0 || id == 1
  {
    var input := STONE_FIRST.palette;
    assert STONE in input && input[STONE] == 0 && AIR in input && input[AIR] == 1;
  }

  lemma StoneFirstPalette(names: seq<string>)
    requires IsPalette(STONE_FIRST.palette, names)
    ensures names == [STONE, AIR]
  {
    assert STONE[9] == ':' && AIR[9] == ':';
    PlainName(STONE);
    PlainName(AIR);
    IdIsGivenIff(STONE_FIRST.palette, names, 1);
    IdIsGivenIff(STONE_FIRST.palette, names, 2);
    StoneFirstEntry(1);
    StoneFirstEntry(2);
    assert NamedBy(STONE_FIRST.palette, names, 0) && NamedBy(STONE_FIRST.palette, names, 1);
  }

  lemma OnlyAirIsListed(w: World, p: Preview)
    requires STONE_FIRST.Ids() == [0, 1] && w.palette == [STONE, AIR]
    requires Shows(w.chunks, STONE_FIRST.sides, [0, 1]) && IsPreview(w, p)
    ensures p == Preview(Point(1, 0, 0), 1, [Block(1, 0, 0, 1, AIR)])
  {
    AirIsListed(w, p);
    forall k | 0 <= k < |p.blocks|
      ensures p.blocks[k] == Block(1, 0, 0, 1, AIR)
    {
      ListedIsAir(w, p, k);
    }
    OneBlock(p, Block(1, 0, 0, 1, AIR));
  }

  lemma AirIsListed(w: World, p: Preview)
    requires Shows(w.chunks, STONE_FIRST.sides, [0, 1]) && IsPreview(w, p)
    ensures Tight(p.bounds, p.blocks) && p.total == |p.blocks| > 0
    ensures forall i, j :: 0 <= i < j < |p.blocks| ==> !SamePoint(p.blocks[i], p.blocks[j])
  {
    LoadedIsWellPlaced(w);
    BlocksFitTheBox(w, p);
    SecondIsOne();
    SomethingIsListed(w, p, STONE_FIRST.sides, [0, 1], 1, 0, 0);
    PreviewIsTight(w, p);
  }

  lemma SecondIsOne()
    ensures STONE_FIRST.sides.Contains(1, 0, 0) && IdOf([0, 1], STONE_FIRST.sides.Number(1, 0, 0)) == 1
  {
  }

  lemma SomethingIsListed(w: World, p: Preview, s: Sides, ids: seq<nat>, x: int, y: int, z: int)
    requires Shows(w.chunks, s, ids) && IsPreview(w, p) && s.Contains(x, y, z) && IdOf(ids, s.Number(x, y, z)) != 0
    ensures p.blocks != []
  {
    PreviewShowsTheSchematic(w, p, s, ids, x, y, z, IdOf(ids, s.Number(x, y, z)));
  }

  lemma PreviewIsTight(w: World, p: Preview)
    requires IsPreview(w, p)
    ensures Tight(p.bounds, p.blocks)
  {
    var origins :| ListsAll(w, p, origins);
  }

  lemma ListedIsAir(w: World, p: Preview, k: nat)
    requires w.palette == [STONE, AIR] && Shows(w.chunks, STONE_FIRST.sides, [0, 1]) && IsPreview(w, p) && k < |p.blocks|
    ensures p.blocks[k] == Block(1, 0, 0, 1, AIR)
  {
    var b := p.blocks[k];
    ListedIsShown(w, p, STONE_FIRST.sides, [0, 1], k);
    ListedName(w, p, k);
    SecondOfTwo(b.x, b.y, b.z, b.id);
  }

  lemma SecondOfTwo(x: int, y: int, z: int, id: nat)
    ensures Sides(2, 1, 1).Contains(x, y, z) && id == IdOf([0, 1], Sides(2, 1, 1).Number(x, y, z)) && id != 0 ==>
              x == 1 && y == 0 && z == 0 && id == 1
  {
  }

  /** A preview that lists one block again and again, but no place twice. */
  lemma OneBlock(p: Preview, b: Block)
    requires Tight(p.bounds, p.blocks) && p.total == |p.blocks| > 0 && forall k :: 0 <= k < |p.blocks| ==> p.blocks[k] == b
    requires forall i, j :: 0 <= i < j < |p.blocks| ==> !SamePoint(p.blocks[i], p.blocks[j])
    ensures p == Preview(Point(b.x, b.y, b.z), 1, [b])
  {
    assert |p.blocks| > 1 ==> SamePoint(p.blocks[0], p.blocks[1]);
    assert p.blocks[0] == b;
  }

  lemma BoundsAreInside(b: Bounds, blocks: seq<Block>, s: Sides)
    requires s.Valid() && Tight(b, blocks) && forall k :: 0 <= k < |blocks| ==> s.Contains(blocks[k].x, blocks[k].y, blocks[k].z)
    ensures SidesAreShort(b)
    ensures b.maxX - b.minX < s.width && b.maxY - b.minY < s.height && b.maxZ - b.minZ < s.length
  {
  }

  /**
   What the numbers of a preview of a loaded schematic mean: the reported sides are those of the box, no longer than the
   schematic's, and hold at least the reported number of blocks.
   */
  lemma ReportedNumbersFit(w: World, p: Preview, s: Sides, ids: seq<nat>)
    requires s.Valid() && Shows(w.chunks, s, ids) && IsPreview(w, p)
    ensures p.total == |p.blocks| <= Width(p.bounds) * Height(p.bounds) * Length(p.bounds)
    ensures 1 <= Width(p.bounds) <= s.width && 1 <= Height(p.bounds) <= s.height && 1 <= Length(p.bounds) <= s.length
    ensures forall i, j :: 0 <= i < j < |p.blocks| ==> !SamePoint(p.blocks[i], p.blocks[j])
  {
    LoadedIsWellPlaced(w);
    BlocksFitTheBox(w, p);
    forall k | 0 <= k < |p.blocks|
      ensures s.Contains(p.blocks[k].x, p.blocks[k].y, p.blocks[k].z)
    {
      ListedIsShown(w, p, s, ids, k);
    }
    var origins :| ListsAll(w, p, origins);
    BoundsAreInside(p.bounds, p.blocks, s);
    SidesAreOrdered(p.bounds, p.blocks);
    SidesAreReportedIff(p.bounds);
  }
}
