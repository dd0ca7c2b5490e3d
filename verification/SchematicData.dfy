/**
 The decoders of limbo/world/schematic/load.go: the palette and the variable-length block ids of a schematic whose NBT
 was read. Palette ids are int32, block ids uint32; the palette is a Go map and comes in an arbitrary order.
 */
module SchematicData {
  import opened Wrappers
  import opened Strings

  const INT32_LIMIT := 0x8000_0000
  const UINT32_LIMIT := 0x1_0000_0000

  // ------------------------------------------------------------------ block state names

  const MINECRAFT := "minecraft:"
  const AIR := "minecraft:air"

  /** The text before the first `c`; all of it when there is none. */
  function UpTo(s: string, c: char): (r: string)
    ensures r <= s && c !in r && (c in s ==> |r| < |s| && s[|r|] == c)
  {
    if s == "" || s[0] == c then "" else [s[0]] + UpTo(s[1..], c)
  }

  function WithoutProperties(raw: string): string {
    if '[' in raw && HasSuffix(raw, "]") then UpTo(raw, '[') else raw
  }

  /** The `Name` of `parseBlockState`. */
  function BlockName(raw: string): string {
    var name := WithoutProperties(raw);
    if ':' in name then name else MINECRAFT + name
  }

  lemma NameHasNamespace(raw: string)
    ensures ':' in BlockName(raw) && BlockName(raw) != ""
  {
    assert MINECRAFT[9] == ':';
    assert (MINECRAFT + WithoutProperties(raw))[9] == ':';
  }

  /** What is air, whatever properties it carries. */
  lemma AirIsNamedIff(raw: string)
    ensures BlockName(raw) == AIR <==> WithoutProperties(raw) == "air" || WithoutProperties(raw) == AIR
  {
    var name := WithoutProperties(raw);
    assert AIR == MINECRAFT + "air" && AIR[9] == ':';
    if ':' !in name && MINECRAFT + name == AIR {
      assert (MINECRAFT + name)[10..] == name && AIR[10..] == "air";
    }
  }

  lemma PlainName(raw: string)
    requires ':' in raw && '[' !in raw
    ensures BlockName(raw) == raw
  {
  }

  lemma NoPropertiesLeft(raw: string)
    ensures !('[' in BlockName(raw) && HasSuffix(BlockName(raw), "]"))
  {
    var name, full := WithoutProperties(raw), BlockName(raw);
    if '[' in name {
      assert name == raw && raw[|raw| - 1..] != "]";
      assert full[|full| - 1] == raw[|raw| - 1];
    }
    assert '[' !in MINECRAFT;
  }

  /** Names are what names are parsed to. */
  lemma NamesAreStable(raw: string)
    ensures BlockName(BlockName(raw)) == BlockName(raw)
  {
    NoPropertiesLeft(raw);
    NameHasNamespace(raw);
  }

  // ------------------------------------------------------------------ the palette

  type RawPalette = map<string, int>

  predicate HasNegative(input: RawPalette) {
    exists raw :: raw in input && input[raw] < 0
  }

  /** An id of which `maxID+1` is negative in int32. */
  predicate HasLastId(input: RawPalette) {
    exists raw :: raw in input && input[raw] == INT32_LIMIT - 1
  }

  ghost predicate HasId(input: RawPalette, id: int) {
    exists raw :: raw in input && input[raw] == id
  }

  /** Some entry has an id that none of its predecessors leaves out. */
  ghost predicate HasGap(input: RawPalette) {
    exists raw, id :: raw in input && 0 <= id < input[raw] && !HasId(input, id)
  }

  /** A palette in which every id below the largest is given. */
  ghost predicate IsFull(input: RawPalette) {
    !HasNegative(input) && !HasLastId(input) && !HasGap(input)
  }

  /** Entry `id` is named by some state with that id. */
  ghost predicate NamedBy(input: RawPalette, names: seq<string>, id: int)
    requires 0 <= id < |names|
  {
    exists raw :: raw in input && input[raw] == id && names[id] == BlockName(raw)
  }

  /** The list of names of a full palette. */
  ghost predicate IsPalette(input: RawPalette, names: seq<string>) {
    && (forall raw :: raw in input ==> 0 <= input[raw] < |names|)
    && (forall id :: 0 <= id < |names| ==> NamedBy(input, names, id))
  }

  /** `maxID` over the entries in `seen`. */
  ghost predicate IsLargest(input: RawPalette, seen: set<string>, m: int) {
    && (forall raw :: raw in seen && raw in input ==> 0 <= input[raw] <= m)
    && (m == -1 || exists raw :: raw in seen && raw in input && input[raw] == m)
  }

  method LargestId(input: RawPalette) returns (m: Option<int>)
    ensures m.None? <==> HasNegative(input)
    ensures m.Some? ==> IsLargest(input, input.Keys, m.value)
  {
    var max := -1;
    var left := input.Keys;
    while left != {}
      invariant left <= input.Keys && max >= -1 && IsLargest(input, input.Keys - left, max)
      decreases left
    {
      var raw :| raw in left;
      if input[raw] < 0 {
        return None;
      }
      max := if input[raw] > max then input[raw] else max;
      left := left - {raw};
      assert raw in input.Keys - left;
    }
    assert input.Keys - left == input.Keys;
    return Some(max);
  }

  /** The names filled in so far come from the entries in `seen`, and every entry there has its name filled in. */
  ghost predicate Filled(input: RawPalette, seen: set<string>, names: seq<string>) {
    && (forall raw :: raw in input ==> 0 <= input[raw] < |names|)
    && (forall raw :: raw in seen && raw in input && 0 <= input[raw] < |names| ==> names[input[raw]] != "")
    && (forall id :: 0 <= id < |names| && names[id] != "" ==> NamedBy(input, names, id))
  }

  lemma FillOne(input: RawPalette, seen: set<string>, names: seq<string>, raw: string)
    requires raw in input && Filled(input, seen, names)
    ensures Filled(input, seen + {raw}, names[input[raw] := BlockName(raw)])
  {
    var after := names[input[raw] := BlockName(raw)];
    NameHasNamespace(raw);
    forall r | r in seen + {raw} && r in input
      ensures after[input[r]] != ""
    {
      assert r != raw ==> names[input[r]] != "";
    }
    forall id | 0 <= id < |after| && after[id] != ""
      ensures NamedBy(input, after, id)
    {
      NamedStill(input, names, raw, id);
    }
  }

  lemma NamedStill(input: RawPalette, names: seq<string>, raw: string, id: int)
    requires raw in input && 0 <= input[raw] < |names| && 0 <= id < |names|
    requires id == input[raw] || NamedBy(input, names, id)
    ensures NamedBy(input, names[input[raw] := BlockName(raw)], id)
  {
    var after := names[input[raw] := BlockName(raw)];
    if id == input[raw] {
      assert after[id] == BlockName(raw);
    } else {
      var r :| r in input && input[r] == id && names[id] == BlockName(r);
      assert after[id] == BlockName(r);
    }
  }

  method FillNames(input: RawPalette, count: nat) returns (palette: array<string>)
    requires forall raw :: raw in input ==> 0 <= input[raw] < count
    ensures fresh(palette) && palette.Length == count && Filled(input, input.Keys, palette[..])
  {
    palette := new string[count](_ => "");
    var left := input.Keys;
    while left != {}
      invariant left <= input.Keys && Filled(input, input.Keys - left, palette[..])
      decreases left
    {
      var raw :| raw in left;
      FillOne(input, input.Keys - left, palette[..], raw);
      palette[input[raw]] := BlockName(raw);
      assert input.Keys - (left - {raw}) == input.Keys - left + {raw};
      left := left - {raw};
    }
    assert input.Keys - left == input.Keys;
  }

  lemma FullIff(input: RawPalette, m: int, names: seq<string>)
    requires IsLargest(input, input.Keys, m) && |names| == m + 1 && Filled(input, input.Keys, names)
    ensures (forall id :: 0 <= id < |names| ==> names[id] != "") <==> !HasGap(input)
    ensures (forall id :: 0 <= id < |names| ==> names[id] != "") ==> IsPalette(input, names)
  {
    if HasGap(input) {
      var raw, id :| raw in input && 0 <= id < input[raw] && !HasId(input, id);
      assert names[id] != "" ==> NamedBy(input, names, id);
      assert names[id] == "";
    } else {
      forall id | 0 <= id < |names|
        ensures names[id] != ""
      {
        GivenIsNamed(input, m, names, id);
      }
    }
  }

  lemma GivenIsNamed(input: RawPalette, m: int, names: seq<string>, id: int)
    requires IsLargest(input, input.Keys, m) && |names| == m + 1 && Filled(input, input.Keys, names) && !HasGap(input)
    requires 0 <= id < |names|
    ensures names[id] != ""
  {
    var top :| top in input && input[top] == m;
    assert HasId(input, id);
    var raw :| raw in input && input[raw] == id;
    assert raw in input.Keys;
  }

  /** `decodePalette`: `Done(None)` is an error; a length that wrapped to a negative number makes `make` panic. */
  method DecodePalette(input: RawPalette) returns (r: Outcome<Option<seq<string>>>)
    requires forall raw :: raw in input ==> input[raw] < INT32_LIMIT
    ensures r.Panicked? <==> !HasNegative(input) && HasLastId(input)
    ensures r.Done? && r.value.Some? <==> IsFull(input)
    ensures r.Done? && r.value.Some? ==> IsPalette(input, r.value.value)
  {
    var largest := LargestId(input);
    if largest.None? {
      return Done(None);
    }
    var m := largest.value;
    LastIdIff(input, m);
    if m == INT32_LIMIT - 1 {
      return Panicked;
    }
    var palette := FillNames(input, m + 1);
    var names := palette[..];
    FullIff(input, m, names);
    var missing := FindMissing(names);
    return if missing < |names| then Done(None) else Done(Some(names));
  }

  method FindMissing(names: seq<string>) returns (i: nat)
    ensures i <= |names| && (i < |names| ==> names[i] == "")
    ensures forall j :: 0 <= j < i ==> names[j] != ""
  {
    i := 0;
    while i < |names| && names[i] != ""
      invariant i <= |names| && forall j :: 0 <= j < i ==> names[j] != ""
    {
      i := i + 1;
    }
  }

  lemma LastIdIff(input: RawPalette, m: int)
    requires IsLargest(input, input.Keys, m) && forall raw :: raw in input ==> input[raw] < INT32_LIMIT
    ensures HasLastId(input) <==> m == INT32_LIMIT - 1
  {
    if HasLastId(input) {
      var raw :| raw in input && input[raw] == INT32_LIMIT - 1;
      assert raw in input.Keys;
    }
  }

  /** Two states share an id but not a name. */
  ghost predicate IsAmbiguous(input: RawPalette) {
    exists raw, other :: raw in input && other in input && input[raw] == input[other] && BlockName(raw) != BlockName(other)
  }

  /** The names of a full palette do not depend on the order of the map exactly when no two of them compete for an id. */
  lemma PaletteIsUniqueIff(input: RawPalette, names: seq<string>)
    requires IsPalette(input, names)
    ensures (forall others :: IsPalette(input, others) ==> others == names) <==> !IsAmbiguous(input)
  {
    if IsAmbiguous(input) {
      var raw, other :| raw in input && other in input && input[raw] == input[other] && BlockName(raw) != BlockName(other);
      var winner := if names[input[raw]] == BlockName(raw) then other else raw;
      OtherWinner(input, names, winner);
    } else {
      forall others | IsPalette(input, others)
        ensures others == names
      {
        SamePalette(input, names, others);
      }
    }
  }

  /** Stone and dirt that both claim id 0. */
  const TWO_STATES := map["minecraft:stone" := 0, "minecraft:dirt" := 0]

  lemma TwoStatesOneId()
    ensures IsFull(TWO_STATES) && IsPalette(TWO_STATES, ["minecraft:stone"]) && IsPalette(TWO_STATES, ["minecraft:dirt"])
  {
    var stone, dirt := "minecraft:stone", "minecraft:dirt";
    assert stone[9] == ':' && dirt[9] == ':';
    EitherState(stone);
    EitherState(dirt);
  }

  lemma EitherState(raw: string)
    requires raw in TWO_STATES && ':' in raw && '[' !in raw
    ensures IsPalette(TWO_STATES, [raw])
  {
    PlainName(raw);
    assert NamedBy(TWO_STATES, [raw], 0);
  }

  lemma OtherWinner(input: RawPalette, names: seq<string>, raw: string)
    requires IsPalette(input, names) && raw in input
    ensures IsPalette(input, names[input[raw] := BlockName(raw)])
  {
    var others := names[input[raw] := BlockName(raw)];
    forall id | 0 <= id < |others|
      ensures NamedBy(input, others, id)
    {
      assert NamedBy(input, names, id);
      NamedStill(input, names, raw, id);
    }
  }

  lemma SamePalette(input: RawPalette, names: seq<string>, others: seq<string>)
    requires IsPalette(input, names) && IsPalette(input, others) && !IsAmbiguous(input)
    ensures others == names
  {
    SameSize(input, names, others);
    SameSize(input, others, names);
    forall id | 0 <= id < |names|
      ensures others[id] == names[id]
    {
      assert NamedBy(input, names, id) && NamedBy(input, others, id);
    }
  }

  lemma SameSize(input: RawPalette, names: seq<string>, others: seq<string>)
    requires IsPalette(input, names) && IsPalette(input, others)
    ensures |names| <= |others|
  {
    if names != [] {
      assert NamedBy(input, names, |names| - 1);
    }
  }

  // ------------------------------------------------------------------ block ids

  /** The weight of digit `i`: two to the power of seven times `i`. */
  function Weight(i: nat): nat {
    match i
    case 0 => 1
    case 1 => 128
    case 2 => 0x4000
    case 3 => 0x20_0000
    case _ => 0x1000_0000
  }

  /** Digit `i` shifted into a uint32. */
  function Shifted(b: byte, i: nat): nat {
    b % 128 * Weight(i) % UINT32_LIMIT
  }

  /** The number whose digits from `i` on start the data, and how many there are. Digits never overlap, so `|` is a sum. */
  function ReadVarInt(data: seq<byte>, i: nat): Option<(nat, nat)>
    decreases 5 - i
  {
    if i >= 5 || data == [] then None
    else if data[0] < 128 then Some((Shifted(data[0], i), 1))
    else
      var rest := ReadVarInt(data[1..], i + 1);
      if rest.None? then None else Some((Shifted(data[0], i) + rest.value.0, 1 + rest.value.1))
  }

  lemma ShiftedFits(b: byte, i: nat)
    requires i < 5
    ensures Shifted(b, i) <= UINT32_LIMIT - Weight(i)
    ensures i < 4 ==> Shifted(b, i) + Weight(i) <= Weight(i + 1)
  {
  }

  lemma {:induction false} VarIntBounds(data: seq<byte>, i: nat)
    requires i < 5 && ReadVarInt(data, i).Some?
    ensures var (v, n) := ReadVarInt(data, i).value;
            v <= UINT32_LIMIT - Weight(i) && 1 <= n <= |data| && n <= 5 - i
    decreases 5 - i
  {
    ShiftedFits(data[0], i);
    if data[0] >= 128 {
      assert i < 4;
      VarIntBounds(data[1..], i + 1);
    }
  }

  /** What a number reads as when its digits before `i` make `value` and `rest` comes of the remaining bytes. */
  function Above(value: nat, i: nat, rest: Option<(nat, nat)>): Option<(nat, nat)> {
    if rest.None? then None else Some((value + rest.value.0, i + rest.value.1))
  }

  lemma NextDigit(data: seq<byte>, offset: nat, value: nat, i: nat)
    requires offset < |data| && i < 5
    ensures var b, rest := data[offset], ReadVarInt(data[offset..], i);
            Above(value, i, rest) ==
            if b < 128 then Some((value + Shifted(b, i), i + 1))
            else Above(value + Shifted(b, i), i + 1, ReadVarInt(data[offset + 1..], i + 1))
  {
    assert data[offset..][1..] == data[offset + 1..];
  }

  method ReadSchematicVarInt(data: seq<byte>, start: nat) returns (r: Option<(nat, nat)>)
    requires start <= |data|
    ensures r == match ReadVarInt(data[start..], 0)
                 case None => None
                 case Some(p) => Some((p.0, start + p.1))
  {
    var value: nat, offset := 0, start;
    ghost var whole := ReadVarInt(data[start..], 0);
    for i := 0 to 5
      invariant start <= offset <= |data| && offset == start + i
      invariant whole == Above(value, i, ReadVarInt(data[offset..], i))
    {
      if offset >= |data| {
        return None;
      }
      NextDigit(data, offset, value, i);
      var b := data[offset];
      offset := offset + 1;
      value := value + Shifted(b, i);
      if b < 128 {
        return Some((value, offset));
      }
    }
    return None;
  }

  function DecodeIds(data: seq<byte>): Option<seq<nat>> {
    if data == [] then Some([])
    else
      var first := ReadVarInt(data, 0);
      if first.None? then None
      else
        VarIntBounds(data, 0);
        var rest := DecodeIds(data[first.value.1..]);
        if rest.None? then None else Some([first.value.0] + rest.value)
  }

  /** `decodeBlockData`. */
  method DecodeBlockData(data: seq<byte>, expected: int) returns (r: Option<seq<nat>>)
    ensures r == if DecodeIds(data).Some? && |DecodeIds(data).value| == expected then DecodeIds(data) else None
  {
    var ids: seq<nat> := [];
    var offset := 0;
    BehindNothing(data);
    while offset < |data|
      invariant 0 <= offset <= |data| && DecodeIds(data) == Behind(ids, DecodeIds(data[offset..]))
      decreases |data| - offset
    {
      var read := ReadSchematicVarInt(data, offset);
      NextId(data, offset, ids);
      if read.None? {
        return None;
      }
      ids, offset := ids + [read.value.0], read.value.1;
    }
    NothingLeft(data, ids);
    return if |ids| == expected then Some(ids) else None;
  }

  /** What decoding gives when `ids` were read and `rest` comes of the remaining bytes. */
  function Behind(ids: seq<nat>, rest: Option<seq<nat>>): Option<seq<nat>> {
    if rest.None? then None else Some(ids + rest.value)
  }

  lemma BehindNothing(data: seq<byte>)
    ensures DecodeIds(data) == Behind([], DecodeIds(data[0..]))
  {
    assert data[0..] == data;
    if DecodeIds(data).Some? {
      assert [] + DecodeIds(data).value == DecodeIds(data).value;
    }
  }

  lemma NothingLeft(data: seq<byte>, ids: seq<nat>)
    ensures Behind(ids, DecodeIds(data[|data|..])) == Some(ids)
  {
    assert data[|data|..] == [] && ids + [] == ids;
  }

  lemma NextId(data: seq<byte>, offset: nat, ids: seq<nat>)
    requires offset < |data|
    ensures var first, all := ReadVarInt(data[offset..], 0), Behind(ids, DecodeIds(data[offset..]));
            && (first.None? ==> all.None?)
            && (first.Some? ==>
                  && 1 <= first.value.1 <= |data| - offset
                  && all == Behind(ids + [first.value.0], DecodeIds(data[offset + first.value.1..])))
  {
    var first := ReadVarInt(data[offset..], 0);
    if first.Some? {
      VarIntBounds(data[offset..], 0);
      var (v, n) := first.value;
      assert data[offset..][n..] == data[offset + n..];
      var rest := DecodeIds(data[offset + n..]);
      if rest.Some? {
        assert ids + ([v] + rest.value) == ids + [v] + rest.value;
      }
    }
  }

  /** Every id takes one to five bytes and is a uint32. */
  lemma {:induction false} DecodedFit(data: seq<byte>)
    requires DecodeIds(data).Some?
    ensures var ids := DecodeIds(data).value;
            |ids| <= |data| <= 5 * |ids| && forall k :: 0 <= k < |ids| ==> ids[k] < UINT32_LIMIT
    decreases |data|
  {
    if data != [] {
      VarIntBounds(data, 0);
      DecodedFit(data[ReadVarInt(data, 0).value.1..]);
    }
  }

  // ------------------------------------------------------------------ round trip

  /** The shortest spelling of a number. */
  function PrintVarInt(v: nat): seq<byte> {
    if v < 128 then [v] else [v % 128 + 128] + PrintVarInt(v / 128)
  }

  function PrintIds(ids: seq<nat>): seq<byte> {
    if ids == [] then [] else PrintVarInt(ids[0]) + PrintIds(ids[1..])
  }

  /** The largest number whose digits from `i` on fit a uint32. */
  function Most(i: nat): nat {
    match i
    case 0 => 0xffff_ffff
    case 1 => 0x1ff_ffff
    case 2 => 0x3_ffff
    case 3 => 0x7ff
    case _ => 15
  }

  lemma {:induction false} VarIntRoundTrip(v: nat, i: nat, rest: seq<byte>)
    requires i < 5 && v <= Most(i)
    ensures ReadVarInt(PrintVarInt(v) + rest, i) == Some((v * Weight(i), |PrintVarInt(v)|))
    decreases v
  {
    if v < 128 {
      LastDigit(v, i);
      assert (PrintVarInt(v) + rest)[0] == v;
    } else {
      DigitSplits(v, i);
      VarIntRoundTrip(v / 128, i + 1, rest);
      var tail := PrintVarInt(v / 128);
      assert [v % 128 + 128] + tail + rest == [v % 128 + 128] + (tail + rest);
      ReadGoesOn(v % 128 + 128, tail + rest, i);
    }
  }

  lemma ReadGoesOn(b: byte, tail: seq<byte>, i: nat)
    requires i < 4 && b >= 128 && ReadVarInt(tail, i + 1).Some?
    ensures var (v, n) := ReadVarInt(tail, i + 1).value; ReadVarInt([b] + tail, i) == Some((Shifted(b, i) + v, 1 + n))
  {
    assert ([b] + tail)[1..] == tail;
  }

  lemma LastDigit(v: byte, i: nat)
    requires v < 128 && i < 5 && v <= Most(i)
    ensures Shifted(v, i) == v * Weight(i)
  {
  }

  lemma DigitSplits(v: nat, i: nat)
    requires v >= 128 && i < 5 && v <= Most(i)
    ensures i < 4 && v / 128 <= Most(i + 1)
    ensures Shifted(v % 128 + 128, i) + v / 128 * Weight(i + 1) == v * Weight(i)
  {
  }

  /** Decoding undoes printing for every list of uint32 ids. */
  lemma {:induction false} DecodeInvertsPrint(ids: seq<nat>)
    requires forall k :: 0 <= k < |ids| ==> ids[k] < UINT32_LIMIT
    ensures DecodeIds(PrintIds(ids)) == Some(ids)
    decreases |ids|
  {
    if ids != [] {
      var rest := PrintIds(ids[1..]);
      VarIntRoundTrip(ids[0], 0, rest);
      DecodeInvertsPrint(ids[1..]);
      assert (PrintVarInt(ids[0]) + rest)[|PrintVarInt(ids[0])|..] == rest;
      assert [ids[0]] + ids[1..] == ids;
    }
  }

  // ------------------------------------------------------------------ what is decodable

  predicate FiveContinue(data: seq<byte>, k: nat) {
    k + 5 <= |data| && forall j :: k <= j < k + 5 ==> data[j] >= 128
  }

  /** The last byte ends a number, and no number has five bytes that go on. */
  ghost predicate EndsItsNumbers(data: seq<byte>) {
    (data != [] ==> data[|data| - 1] < 128) && forall k: nat :: !FiveContinue(data, k)
  }

  lemma {:induction false} ReadableIff(data: seq<byte>, i: nat)
    requires i <= 5
    ensures ReadVarInt(data, i).Some? <==> exists n: nat :: i + n < 5 && n < |data| && data[n] < 128
    decreases 5 - i
  {
    if i < 5 && data != [] {
      var tail := data[1..];
      ReadableIff(tail, i + 1);
      if n: nat :| i + n < 5 && n < |data| && data[n] < 128 {
        assert n > 0 ==> tail[n - 1] == data[n];
      }
      if n: nat :| i + 1 + n < 5 && n < |tail| && tail[n] < 128 {
        assert data[n + 1] == tail[n];
      }
    }
  }

  /** A number that is read ends at its first byte that does not go on. */
  lemma {:induction false} ReadEnds(data: seq<byte>, i: nat)
    requires i <= 5 && ReadVarInt(data, i).Some?
    ensures var n := ReadVarInt(data, i).value.1;
            1 <= n <= |data| && n <= 5 - i && data[n - 1] < 128 && forall j :: 0 <= j < n - 1 ==> data[j] >= 128
    decreases 5 - i
  {
    if data[0] >= 128 {
      ReadEnds(data[1..], i + 1);
    }
  }

  /** Block data is decoded exactly when it ends its numbers. */
  lemma {:induction false} DecodableIff(data: seq<byte>)
    ensures DecodeIds(data).Some? <==> EndsItsNumbers(data)
    decreases |data|
  {
    ReadableIff(data, 0);
    if data == [] {
    } else if ReadVarInt(data, 0).None? {
      NotReadable(data);
    } else {
      ReadEnds(data, 0);
      var n := ReadVarInt(data, 0).value.1;
      DecodableIff(data[n..]);
      RestEnds(data, n);
    }
  }

  lemma NotReadable(data: seq<byte>)
    requires data != [] && forall n: nat :: n < 5 && n < |data| ==> data[n] >= 128
    ensures !EndsItsNumbers(data)
  {
    if |data| >= 5 {
      assert FiveContinue(data, 0);
    }
  }

  lemma RestEnds(data: seq<byte>, n: nat)
    requires 1 <= n <= |data| && n <= 5 && data[n - 1] < 128 && forall j :: 0 <= j < n - 1 ==> data[j] >= 128
    ensures EndsItsNumbers(data) <==> EndsItsNumbers(data[n..])
  {
    var rest := data[n..];
    assert forall k: nat :: k < |rest| ==> rest[k] == data[n + k];
    if k: nat :| FiveContinue(rest, k) {
      assert FiveContinue(data, n + k);
    }
    if k: nat :| FiveContinue(data, k) {
      assert k >= n;
      assert FiveContinue(rest, k - n);
    }
  }
}
