/**
 The loops of `renderNodes`, `renderTag`, `renderText` and `visibleRunes`
 (limbo/minimessage/minimessage.go), which share one mutable colour index, proved equal to the
 functions of `Renderer`.
 */
module Transforms {
  import opened Wrappers
  import opened Parser
  import opened Colors
  import opened Renderer

  /** The source's `transform`; its `index` advances as runes are painted. */
  class Transform {
    const total: nat
    const paint: Paint
    var index: nat

    constructor (total: nat, paint: Paint)
      ensures this.total == total && this.paint == paint && index == 0
    {
      this.total, this.paint, this.index := total, paint, 0;
    }
  }

  function BrushOf(tx: Transform?): Option<Brush> {
    if tx == null then None else Some(Brush(tx.total, tx.paint))
  }

  function IndexOf(tx: Transform?): nat
    reads tx
  {
    if tx == null then 0 else tx.index
  }

  function Footprint(tx: Transform?): set<object> {
    if tx == null then {} else {tx}
  }

  method CountVisible(nodes: seq<Node>) returns (total: nat)
    ensures total == VisibleRunes(nodes)
    decreases nodes
  {
    total := 0;
    for i := 0 to |nodes|
      invariant SumVisible(nodes) == total + SumVisible(nodes[i..])
    {
      assert nodes[i..][1..] == nodes[i + 1..];
      match nodes[i] {
        case Text(t) =>
          total := total + |t|;
        case Element(_, children) =>
          var inner := CountVisible(children);
          total := total + inner;
      }
    }
    if total == 0 {
      total := 1;
    }
  }

  method EmitText(value: string, style: Style, tx: Transform?) returns (out: seq<Component>)
    modifies Footprint(tx)
    ensures Rendered(out, style, IndexOf(tx)) == RenderText(value, style, BrushOf(tx), old(IndexOf(tx)))
  {
    if value == "" {
      return [];
    }
    if tx == null || tx.total <= 1 {
      return [TextWithStyle(value, style)];
    }
    out := [];
    ghost var brush := BrushOf(tx).value;
    ghost var start := tx.index;
    assert value[0..] == value;
    for i := 0 to |value|
      invariant tx.index == start + i
      invariant PaintRunes(value, style, brush, start) == out + PaintRunes(value[i..], style, brush, start + i)
    {
      var next := style.(color := Some(PaintAt(tx.paint, tx.index, tx.total)));
      assert value[i..][0] == value[i] && value[i..][1..] == value[i + 1..];
      tx.index := tx.index + 1;
      out := out + [TextWithStyle([value[i]], next)];
    }
  }

  /** `rest` after `out`, as `renderNodes` joins them. */
  function After(out: seq<Component>, rest: Outcome<Rendered>): Outcome<Rendered> {
    match rest
    case Done(r) => Done(Rendered(out + r.out, r.style, r.index))
    case Panicked => Panicked
  }

  lemma AfterAgain(a: seq<Component>, b: seq<Component>, rest: Outcome<Rendered>)
    ensures After(a, After(b, rest)) == After(a + b, rest)
  {
    if rest.Done? {
      assert a + (b + rest.value.out) == a + b + rest.value.out;
    }
  }

  method EmitNodes(lib: Library, nodes: seq<Node>, style: Style, tx: Transform?)
    returns (r: Outcome<(seq<Component>, Style)>)
    modifies Footprint(tx)
    ensures r.Panicked? <==> RenderNodes(lib, nodes, style, BrushOf(tx), old(IndexOf(tx))).Panicked?
    ensures r.Done? ==> RenderNodes(lib, nodes, style, BrushOf(tx), old(IndexOf(tx)))
                        == Done(Rendered(r.value.0, r.value.1, IndexOf(tx)))
    decreases Budget(nodes), 1, nodes, 0
  {
    var out: seq<Component> := [];
    var current := style;
    ghost var brush := BrushOf(tx);
    ghost var goal := RenderNodes(lib, nodes, style, brush, IndexOf(tx));
    assert goal.Done? ==> [] + goal.value.out == goal.value.out;
    assert nodes[0..] == nodes;
    var i := 0;
    while i < |nodes|
      invariant 0 <= i <= |nodes|
      invariant goal == After(out, RenderNodes(lib, nodes[i..], current, brush, IndexOf(tx)))
      invariant Budget(nodes[i..]) <= Budget(nodes)
      decreases |nodes| - i
    {
      ghost var rest := nodes[i..];
      ghost var here := IndexOf(tx);
      assert rest[0] == nodes[i] && rest[1..] == nodes[i + 1..];
      match nodes[i] {
        case Text(t) =>
          var part := EmitText(t, current, tx);
          AfterAgain(out, part, RenderNodes(lib, rest[1..], current, brush, IndexOf(tx)));
          out := out + part;
        case Element(tag, children) =>
          if tag.name == "reset" {
            AfterAgain(out, [], RenderNodes(lib, rest[1..], PLAIN, brush, IndexOf(tx)));
            assert out + [] == out;
            current := PLAIN;
          } else {
            var part := EmitTag(lib, tag, children, current, tx);
            if part.Panicked? {
              return Panicked;
            }
            AfterAgain(out, part.value, RenderNodes(lib, rest[1..], current, brush, IndexOf(tx)));
            out := out + part.value;
          }
      }
      i := i + 1;
    }
    assert nodes[i..] == [];
    return Done((out, current));
  }

  method EmitTag(lib: Library, t: Tag, children: seq<Node>, style: Style, tx: Transform?)
    returns (r: Outcome<seq<Component>>)
    modifies Footprint(tx)
    ensures r.Panicked? <==> RenderTag(lib, t, children, style, BrushOf(tx), old(IndexOf(tx))).Panicked?
    ensures r.Done? ==> RenderTag(lib, t, children, style, BrushOf(tx), old(IndexOf(tx)))
                        == Done(Rendered(r.value, style, IndexOf(tx)))
    decreases Larger(TagBudget(t), Budget(children)), 1, children, 1
  {
    match KindOf(lib, t)
    case LineBreak =>
      var out := EmitText("\n", style, tx);
      return Done(out);
    case Translated =>
      var c :- RenderTranslation(lib, t, style);
      return Done([c]);
    case AlwaysLiteral =>
      var out := EmitText("<" + t.literal + ">", style, tx);
      return Done(out);
    case Painted(paint) =>
      var total := CountVisible(children);
      var local := new Transform(total, paint);
      var inner :- EmitNodes(lib, children, style, local);
      return Done(inner.0);
    case Transitioned =>
      var inner :- EmitNodes(lib, children, TransitionStyle(lib, t, style), tx);
      return Done(inner.0);
    case Styled =>
      var applied :- ApplyStyleTag(lib, t, style);
      if applied.None? {
        var out := EmitText("<" + t.literal + ">", style, tx);
        return Done(out);
      }
      var inner :- EmitNodes(lib, children, applied.value, tx);
      return Done(inner.0);
  }
}
