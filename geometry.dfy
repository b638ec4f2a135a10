/** The coordinate helpers of the SI-family generators: the path
    `inverse_wrapper` draws around a question's wrapper (ngen.py:827-843), the
    crop box of a wrapper (`get_qwrapper_img`, ngen.py:1294-1300), the box
    around several wrappers (`get_surrounding_rect_from_sub_rects`,
    ngen.py:1809-1814) and the integer paste offset of a question image
    (ngen.py:1291). Coordinates are `float`s in the source and `real`s here;
    they are only added, subtracted and compared. */
module Geometry {
  import opened Wrappers
  import opened Text
  import opened Svg

  datatype Point = Point(x: real, y: real)

  function Add(p: Point, d: Point): Point {
    Point(p.x + d.x, p.y + d.y)
  }

  /** A box by its edges, as PIL's crop areas are given:
      `(left, top, right, bottom)`. */
  datatype Box = Box(left: real, top: real, right: real, bottom: real)

  /** The position and size an SVG `rect` is drawn with. */
  datatype Rect = Rect(x: real, y: real, w: real, h: real)

  function BoxOf(r: Rect): Box {
    Box(r.x, r.y, r.x + r.w, r.y + r.h)
  }

  predicate Inside(r: Rect, b: Box) {
    b.left <= r.x && b.top <= r.y && r.x + r.w <= b.right && r.y + r.h <= b.bottom
  }

  // ---------------------------------------------------------------- inverse_wrapper

  /** The points a relative path visits from the origin: the start, then the
      end of each move in turn. */
  function Trace(moves: seq<Point>): (t: seq<Point>)
    ensures |t| == |moves| + 1
  {
    if moves == [] then [Point(0.0, 0.0)]
    else
      var t := Trace(moves[..|moves| - 1]);
      t + [Add(Last(t), Last(moves))]
  }

  /** The relative moves of `path_d` after its initial `m0,0`: round the
      canvas, down its left edge to the wrapper's top, across to the hole and
      round the hole, and back, before `z` closes the path. `rw`, `rh` are
      the canvas size and `wx`, `wy`, `ww`, `wh` the wrapper's rectangle. */
  function InverseMoves(rw: real, rh: real, wx: real, wy: real, ww: real, wh: real): seq<Point> {
    [ Point(rw, 0.0), Point(0.0, rh), Point(-rw, 0.0), Point(0.0, -(rh - wy)),
      Point(wx - 5.0, 0.0), Point(0.0, wh + 5.0), Point(ww + 10.0, 0.0), Point(0.0, -(wh + 10.0)),
      Point(-(ww + 10.0), 0.0), Point(0.0, 5.0), Point(-(wx - 5.0), 0.0) ]
  }

  /** The element `inverse_wrapper` returns: a `path` with id
      `inversed_wrapper`, the given fill and the moves above. How Python
      prints the floats into the `d` string is not modelled. */
  datatype InversePath = InversePath(moves: seq<Point>, fill: string)

  /** `inverse_wrapper(wrapper_elm, root_elm, fill_col)`: a wrapper that is
      not a `rect` gives `None`. Otherwise the canvas height and width and the
      wrapper's x, y, height and width are read in that order, and a missing
      or unreadable one raises. */
  function InverseWrapper(wrapper: Node, root: Node, fill: string): (r: Result<Option<InversePath>>)
    ensures TagOf(wrapper) != "rect" ==> r == Ok(None)
    ensures r.Ok? && r.value.Some? ==> r.value.value.fill == fill && |r.value.value.moves| == 11
  {
    if TagOf(wrapper) != "rect" then Ok(None)
    else
      match FloatAttr(root, "height")
      case Err(e) => Err(e)
      case Ok(rh) =>
        match FloatAttr(root, "width")
        case Err(e) => Err(e)
        case Ok(rw) =>
          match RectOf(wrapper)
          case Err(e) => Err(e)
          case Ok(w) => Ok(Some(InversePath(InverseMoves(rw, rh, w.x, w.y, w.w, w.h), fill)))
  }

  /** The rectangle of an element, reading `x`, `y`, `height` and `width` in
      the order `inverse_wrapper` does. */
  function RectOf(n: Node): Result<Rect> {
    match FloatAttr(n, "x")
    case Err(e) => Err(e)
    case Ok(x) =>
      match FloatAttr(n, "y")
      case Err(e) => Err(e)
      case Ok(y) =>
        match FloatAttr(n, "height")
        case Err(e) => Err(e)
        case Ok(h) =>
          match FloatAttr(n, "width")
          case Err(e) => Err(e)
          case Ok(w) => Ok(Rect(x, y, w, h))
  }

  /** The path first runs round the whole canvas, then down to the
      wrapper's top edge; round the hole it visits the four corners of the
      wrapper grown by 5 on every side, and it comes back along the same
      line to the canvas edge, where `z` closes it. */
  lemma InverseHole(rw: real, rh: real, wx: real, wy: real, ww: real, wh: real)
    ensures var t := Trace(InverseMoves(rw, rh, wx, wy, ww, wh));
      && t[0] == Point(0.0, 0.0) && t[1] == Point(rw, 0.0) && t[2] == Point(rw, rh) && t[3] == Point(0.0, rh)
      && t[4] == Point(0.0, wy) && t[5] == Point(wx - 5.0, wy)
      && t[6] == Point(wx - 5.0, wy + wh + 5.0)
      && t[7] == Point(wx + ww + 5.0, wy + wh + 5.0)
      && t[8] == Point(wx + ww + 5.0, wy - 5.0)
      && t[9] == Point(wx - 5.0, wy - 5.0)
      && t[10] == Point(wx - 5.0, wy) && t[11] == Point(0.0, wy)
  {
    var ms := InverseMoves(rw, rh, wx, wy, ww, wh);
    assert ms[..0] == [];
    TraceStep(ms, 0); TraceStep(ms, 1); TraceStep(ms, 2); TraceStep(ms, 3);
    TraceStep(ms, 4); TraceStep(ms, 5); TraceStep(ms, 6); TraceStep(ms, 7);
    TraceStep(ms, 8); TraceStep(ms, 9); TraceStep(ms, 10);
    assert ms[..11] == ms;
  }

  /** One more move adds one more point, the last one moved by it. */
  lemma TraceStep(ms: seq<Point>, k: nat)
    requires k < |ms|
    ensures Trace(ms[..k + 1]) == Trace(ms[..k]) + [Add(Last(Trace(ms[..k])), ms[k])]
  {
    assert ms[..k + 1][..k] == ms[..k];
  }

  /** The hole of an inverse wrapper, as a box: the wrapper's rectangle grown
      by 5 on every side. */
  lemma InverseWrapperHole(wrapper: Node, root: Node, fill: string)
    requires InverseWrapper(wrapper, root, fill).Ok? && InverseWrapper(wrapper, root, fill).value.Some?
    ensures TagOf(wrapper) == "rect" && RectOf(wrapper).Ok?
    ensures var w := RectOf(wrapper).value;
      var t := Trace(InverseWrapper(wrapper, root, fill).value.value.moves);
      var hole := Box(w.x - 5.0, w.y - 5.0, w.x + w.w + 5.0, w.y + w.h + 5.0);
      && t[6] == Point(hole.left, hole.bottom) && t[7] == Point(hole.right, hole.bottom)
      && t[8] == Point(hole.right, hole.top) && t[9] == Point(hole.left, hole.top)
  {
    var rh := FloatAttr(root, "height").value;
    var rw := FloatAttr(root, "width").value;
    var w := RectOf(wrapper).value;
    InverseHole(rw, rh, w.x, w.y, w.w, w.h);
  }

  // ---------------------------------------------------------------- crop boxes

  /** `get_qwrapper_img`'s crop area: the wrapper's `x`, `y`, `width` and
      `height`, read in that order, as edges. */
  function QwrapperBox(q: Node): Result<Box> {
    match FloatAttr(q, "x")
    case Err(e) => Err(e)
    case Ok(x) =>
      match FloatAttr(q, "y")
      case Err(e) => Err(e)
      case Ok(y) =>
        match FloatAttr(q, "width")
        case Err(e) => Err(e)
        case Ok(w) =>
          match FloatAttr(q, "height")
          case Err(e) => Err(e)
          case Ok(h) => Ok(Box(x, y, x + w, y + h))
  }

  /** The crop area is the wrapper's own rectangle: it is found exactly when
      the rectangle can be read, and it has the wrapper's size. */
  lemma QwrapperBoxIsRect(q: Node)
    ensures QwrapperBox(q).Ok? <==> RectOf(q).Ok?
    ensures QwrapperBox(q).Ok? ==> QwrapperBox(q).value == BoxOf(RectOf(q).value)
  {
  }

  /** One attribute of each element, left to right, as a list comprehension
      reads them: the first element that lacks it raises. */
  function ReadAll(nodes: seq<Node>, k: string): (r: Result<seq<real>>)
    ensures r.Ok? <==> forall i :: 0 <= i < |nodes| ==> FloatAttr(nodes[i], k).Ok?
    ensures r.Ok? ==> |r.value| == |nodes| && forall i :: 0 <= i < |nodes| ==> FloatAttr(nodes[i], k) == Ok(r.value[i])
  {
    if nodes == [] then Ok([])
    else
      match FloatAttr(nodes[0], k)
      case Err(e) => Err(e)
      case Ok(v) =>
        match ReadAll(nodes[1..], k)
        case Err(e) => Err(e)
        case Ok(vs) => Ok([v] + vs)
  }

  /** `sorted(xs)[0]`, the smallest value. */
  function Min(xs: seq<real>): (m: real)
    requires |xs| > 0
    ensures forall i :: 0 <= i < |xs| ==> m <= xs[i]
    ensures exists i :: 0 <= i < |xs| && m == xs[i]
  {
    if |xs| == 1 then xs[0]
    else
      var m := Min(xs[1..]);
      assert forall i :: 1 <= i < |xs| ==> xs[i] == xs[1..][i - 1];
      if xs[0] <= m then xs[0] else m
  }

  /** `sorted(xs)[-1]`, the largest value. */
  function Max(xs: seq<real>): (m: real)
    requires |xs| > 0
    ensures forall i :: 0 <= i < |xs| ==> xs[i] <= m
    ensures exists i :: 0 <= i < |xs| && m == xs[i]
  {
    if |xs| == 1 then xs[0]
    else
      var m := Max(xs[1..]);
      assert forall i :: 1 <= i < |xs| ==> xs[i] == xs[1..][i - 1];
      if m <= xs[0] then xs[0] else m
  }

  function Sums(xs: seq<real>, ws: seq<real>): (r: seq<real>)
    requires |xs| == |ws|
    ensures |r| == |xs| && forall i :: 0 <= i < |xs| ==> r[i] == xs[i] + ws[i]
  {
    seq(|xs|, i requires 0 <= i < |xs| => xs[i] + ws[i])
  }

  /** `get_surrounding_rect_from_sub_rects(sub_rects_svg)`: the four
      comprehensions read every `x`, then every `y`, then every `width`
      (beside `x`), then every `height`; an empty list makes `sorted(...)[0]`
      raise an IndexError. */
  function SurroundingRect(nodes: seq<Node>): Result<Box> {
    match ReadAll(nodes, "x")
    case Err(e) => Err(e)
    case Ok(xs) =>
      match ReadAll(nodes, "y")
      case Err(e) => Err(e)
      case Ok(ys) =>
        match ReadAll(nodes, "width")
        case Err(e) => Err(e)
        case Ok(ws) =>
          match ReadAll(nodes, "height")
          case Err(e) => Err(e)
          case Ok(hs) =>
            if |nodes| == 0 then Err(IndexOutOfRange)
            else Ok(Box(Min(xs), Min(ys), Max(Sums(xs, ws)), Max(Sums(ys, hs))))
  }

  /** With every coordinate read, the rectangle of each element is the one
      the four comprehensions saw. */
  lemma ReadAllRects(nodes: seq<Node>, i: nat)
    requires i < |nodes|
    requires ReadAll(nodes, "x").Ok? && ReadAll(nodes, "y").Ok?
    requires ReadAll(nodes, "width").Ok? && ReadAll(nodes, "height").Ok?
    ensures RectOf(nodes[i]) == Ok(Rect(ReadAll(nodes, "x").value[i], ReadAll(nodes, "y").value[i],
                                        ReadAll(nodes, "width").value[i], ReadAll(nodes, "height").value[i]))
  {
  }

  /** The surrounding box exists exactly when there is a sub-rectangle and
      every one can be read. */
  lemma SurroundingRectOk(nodes: seq<Node>)
    ensures SurroundingRect(nodes).Ok? <==> |nodes| > 0 && forall i :: 0 <= i < |nodes| ==> RectOf(nodes[i]).Ok?
  {
    if |nodes| > 0 && forall i :: 0 <= i < |nodes| ==> RectOf(nodes[i]).Ok? {
      assert forall i :: 0 <= i < |nodes| ==>
        FloatAttr(nodes[i], "x").Ok? && FloatAttr(nodes[i], "y").Ok? && FloatAttr(nodes[i], "width").Ok? && FloatAttr(nodes[i], "height").Ok?;
    }
    if SurroundingRect(nodes).Ok? {
      forall i | 0 <= i < |nodes| ensures RectOf(nodes[i]).Ok? {
        ReadAllRects(nodes, i);
      }
    }
  }

  /** Every sub-rectangle lies inside the surrounding box. */
  lemma SurroundingRectContains(nodes: seq<Node>, i: nat)
    requires SurroundingRect(nodes).Ok? && i < |nodes|
    ensures RectOf(nodes[i]).Ok? && Inside(RectOf(nodes[i]).value, SurroundingRect(nodes).value)
  {
    ReadAllRects(nodes, i);
  }

  /** `e` is one of the four edges of the element's rectangle: 0 left, 1
      top, 2 right, 3 bottom. */
  predicate IsEdge(n: Node, side: nat, e: real) {
    && RectOf(n).Ok?
    && var r := RectOf(n).value;
       if side == 0 then e == r.x
       else if side == 1 then e == r.y
       else if side == 2 then e == r.x + r.w
       else e == r.y + r.h
  }

  /** The surrounding box is the tightest one: each of its edges is the edge
      of some sub-rectangle. */
  lemma SurroundingRectTight(nodes: seq<Node>)
    requires SurroundingRect(nodes).Ok?
    ensures var b := SurroundingRect(nodes).value;
      && (exists i :: 0 <= i < |nodes| && IsEdge(nodes[i], 0, b.left))
      && (exists i :: 0 <= i < |nodes| && IsEdge(nodes[i], 1, b.top))
      && (exists i :: 0 <= i < |nodes| && IsEdge(nodes[i], 2, b.right))
      && (exists i :: 0 <= i < |nodes| && IsEdge(nodes[i], 3, b.bottom))
  {
    LeftEdgeAttained(nodes);
    TopEdgeAttained(nodes);
    RightEdgeAttained(nodes);
    BottomEdgeAttained(nodes);
  }

  lemma LeftEdgeAttained(nodes: seq<Node>)
    requires SurroundingRect(nodes).Ok?
    ensures exists i :: 0 <= i < |nodes| && IsEdge(nodes[i], 0, SurroundingRect(nodes).value.left)
  {
    SurroundingRectParts(nodes);
    var xs := ReadAll(nodes, "x").value;
    var i := MinIndex(xs);
    ReadAllRects(nodes, i);
    assert IsEdge(nodes[i], 0, xs[i]);
  }

  lemma TopEdgeAttained(nodes: seq<Node>)
    requires SurroundingRect(nodes).Ok?
    ensures exists i :: 0 <= i < |nodes| && IsEdge(nodes[i], 1, SurroundingRect(nodes).value.top)
  {
    SurroundingRectParts(nodes);
    var ys := ReadAll(nodes, "y").value;
    var i := MinIndex(ys);
    ReadAllRects(nodes, i);
    assert IsEdge(nodes[i], 1, ys[i]);
  }

  lemma RightEdgeAttained(nodes: seq<Node>)
    requires SurroundingRect(nodes).Ok?
    ensures exists i :: 0 <= i < |nodes| && IsEdge(nodes[i], 2, SurroundingRect(nodes).value.right)
  {
    SurroundingRectParts(nodes);
    var s := Sums(ReadAll(nodes, "x").value, ReadAll(nodes, "width").value);
    var i := MaxIndex(s);
    ReadAllRects(nodes, i);
    assert IsEdge(nodes[i], 2, s[i]);
  }

  lemma BottomEdgeAttained(nodes: seq<Node>)
    requires SurroundingRect(nodes).Ok?
    ensures exists i :: 0 <= i < |nodes| && IsEdge(nodes[i], 3, SurroundingRect(nodes).value.bottom)
  {
    SurroundingRectParts(nodes);
    var s := Sums(ReadAll(nodes, "y").value, ReadAll(nodes, "height").value);
    var i := MaxIndex(s);
    ReadAllRects(nodes, i);
    assert IsEdge(nodes[i], 3, s[i]);
  }

  /** The four reads behind a surrounding box, and the box they make. */
  lemma SurroundingRectParts(nodes: seq<Node>)
    requires SurroundingRect(nodes).Ok?
    ensures |nodes| > 0
    ensures ReadAll(nodes, "x").Ok? && ReadAll(nodes, "y").Ok? && ReadAll(nodes, "width").Ok? && ReadAll(nodes, "height").Ok?
    ensures var xs := ReadAll(nodes, "x").value;
      var ys := ReadAll(nodes, "y").value;
      SurroundingRect(nodes).value ==
        Box(Min(xs), Min(ys), Max(Sums(xs, ReadAll(nodes, "width").value)), Max(Sums(ys, ReadAll(nodes, "height").value)))
  {
  }

  /** A position at which the smallest (largest) value is found. */
  lemma MinIndex(xs: seq<real>) returns (i: nat)
    requires |xs| > 0
    ensures i < |xs| && Min(xs) == xs[i]
  {
    i :| 0 <= i < |xs| && Min(xs) == xs[i];
  }

  lemma MaxIndex(xs: seq<real>) returns (i: nat)
    requires |xs| > 0
    ensures i < |xs| && Max(xs) == xs[i]
  {
    i :| 0 <= i < |xs| && Max(xs) == xs[i];
  }

  /** Around a single wrapper the surrounding box is that wrapper's own crop
      area. */
  lemma SurroundingRectSingle(q: Node)
    ensures SurroundingRect([q]) == QwrapperBox(q)
  {
    ReadAllSingle(q, "x");
    ReadAllSingle(q, "y");
    ReadAllSingle(q, "width");
    ReadAllSingle(q, "height");
  }

  lemma ReadAllSingle(q: Node, k: string)
    ensures ReadAll([q], k) == if FloatAttr(q, k).Ok? then Ok([FloatAttr(q, k).value]) else Err(FloatAttr(q, k).error)
  {
    assert [q][1..] == [];
    assert ReadAll([], k) == Ok([]);
    if FloatAttr(q, k).Ok? {
      assert [FloatAttr(q, k).value] + [] == [FloatAttr(q, k).value];
    }
  }

  // ---------------------------------------------------------------- paste offsets

  /** Python's `int(r)` on a float: truncation toward zero. */
  function Trunc(r: real): (n: int)
    ensures r >= 0.0 ==> n as real <= r < n as real + 1.0
    ensures r < 0.0 ==> n as real - 1.0 < r <= n as real
  {
    if r >= 0.0 then r.Floor else -((-r).Floor)
  }

  /** The offset at which `create_mask_img` pastes a question's mask into its
      wrapper's image (ngen.py:1291): `int(qe_x - qw_x) + 1`. */
  function PasteOffset(qe: real, qw: real): int {
    Trunc(qe - qw) + 1
  }

  /** A question inside its wrapper is pasted at least one pixel in, and no
      more than one pixel beyond its exact distance from the wrapper's edge;
      one outside it, to the left, truncates toward the wrapper. */
  lemma PasteOffsetBounds(qe: real, qw: real)
    ensures qe >= qw ==> 1 <= PasteOffset(qe, qw) && (PasteOffset(qe, qw) - 1) as real <= qe - qw < PasteOffset(qe, qw) as real
    ensures qe < qw ==> qe - qw <= (PasteOffset(qe, qw) - 1) as real < qe - qw + 1.0
  {
  }
}
