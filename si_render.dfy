/** The masks of the SI generator (`_generateMaskSVGsForRegular` and
    `_generateMaskSVGsForReverse`, ngen.py:862-1075): for each question a
    copy of the document in which everything is hidden except the first
    three layers, their titles and the question's own shapes, with an
    inverted frame round the question's wrapper.

    The source tells elements apart by identity (`elm in
    preserved_shapes_all`); here an element is its path from the root. Each
    loop over `svg_node.iter()` touches every element on its own, so it is a
    `Sweep` over the tree. ElementTree keeps no text nodes among the
    children, so every child is one of `findall('*')`. */
module SiRender {
  import opened Wrappers
  import opened Svg
  import opened NoteIds
  import opened SiIds
  import opened Geometry
  import opened Text

  const HiderCol := "#FFFFFF"             // hider_col
  const RegularInverseFill := "#2b2c2e"   // regular_inverse_fill
  const ReverseInverseFill := "#414c61"   // reverse_inverse_fill

  function Get(a: map<string, string>, k: string): Option<string> {
    if k in a then Some(a[k]) else None
  }

  /** `elm.get('fill')` is truthy: there is a fill and it is not empty. */
  predicate HasFill(a: map<string, string>) { "fill" in a && a["fill"] != "" }

  /** What one pass over the tree does to an element it touches. */
  datatype Op =
    | Hide                                                   // `set('opacity', '0')`
    | Unhide                                                 // `del attrib['opacity']`
    | SetClass(cls: string)                                  // `set('class', cls)`
    | Paint(cls: string, colour: string)                     // the question element
    | PaintShape(cls: string, colour: string, hiders: bool)  // a shape inside a `g` question
    | Mark(reverse: bool, side: MaskType)                    // a preserved question shape

  function Touch(op: Op, a: map<string, string>): map<string, string> {
    match op
    case Hide => a["opacity" := "0"]
    case Unhide => a - {"opacity"}
    case SetClass(cls) => a["class" := cls]
    case Paint(cls, colour) => if HasFill(a) then a["class" := cls]["fill" := colour] else a["class" := cls]
    case PaintShape(cls, colour, hiders) =>
      if hiders && Get(a, "fill") == Some("none") then a["fill" := HiderCol]["class" := "hider"]
      else a["class" := cls]["fill" := colour]
    case Mark(reverse, side) =>
      if reverse && Get(a, "fill") == Some("none") then a["opacity" := "1"]["fill" := HiderCol]["class" := "hider"]
      else a["opacity" := MarkedOpacity(reverse, side, a)]
  }

  /** The opacity of a preserved question shape: `1` on the question side;
      on the answer side `0.3`, except a regular hider, which stays `1`. */
  function MarkedOpacity(reverse: bool, side: MaskType, a: map<string, string>): string {
    if side != A then "1"
    else if !reverse && Get(a, "class") == Some("hider") then "1"
    else "0.3"
  }

  /** One `for elm in svg_node.iter()` loop: every element whose path is in
      `s`, or every element when `all`, is touched. `here` is the path of
      `n` itself. */
  function Sweep(n: Node, here: Path, s: set<Path>, all: bool, op: Op): Node
    decreases n
  {
    match n
    case Text(_) => n
    case Element(tag, attrs, cs) =>
      Element(tag, if all || here in s then Touch(op, attrs) else attrs,
              seq(|cs|, i requires 0 <= i < |cs| => Sweep(cs[i], here + [i], s, all, op)))
  }

  /** A sweep keeps the tree's shape. */
  lemma {:induction false} SweepValid(n: Node, here: Path, s: set<Path>, all: bool, op: Op, p: Path)
    ensures ValidPath(Sweep(n, here, s, all, op), p) <==> ValidPath(n, p)
    decreases p
  {
    if |p| > 0 && n.Element? && p[0] < |n.children| {
      SweepValid(n.children[p[0]], here + [p[0]], s, all, op, p[1..]);
    }
  }

  lemma SweepShape(n: Node, here: Path, s: set<Path>, all: bool, op: Op)
    ensures forall p :: ValidPath(Sweep(n, here, s, all, op), p) <==> ValidPath(n, p)
  {
    forall p ensures ValidPath(Sweep(n, here, s, all, op), p) <==> ValidPath(n, p) {
      SweepValid(n, here, s, all, op, p);
    }
  }

  /** At every position the element keeps its tag and its children's count,
      and its attributes are touched exactly when its path is swept. */
  lemma {:induction false} SweepAt(n: Node, here: Path, s: set<Path>, all: bool, op: Op, p: Path)
    requires ValidPath(n, p)
    ensures ValidPath(Sweep(n, here, s, all, op), p)
    ensures var r := At(Sweep(n, here, s, all, op), p);
      var o := At(n, p);
      && r.Element? == o.Element?
      && TagOf(r) == TagOf(o)
      && |Kids(r)| == |Kids(o)|
      && AttrsOf(r) == (if o.Element? && (all || here + p in s) then Touch(op, AttrsOf(o)) else AttrsOf(o))
    decreases p
  {
    SweepValid(n, here, s, all, op, p);
    if |p| > 0 {
      SweepAt(n.children[p[0]], here + [p[0]], s, all, op, p[1..]);
      assert here + [p[0]] + p[1..] == here + p;
    } else {
      assert here + p == here;
    }
  }

  // ---------------------------------------------------------------- finding by class

  /** `find` of the first element below `n` whose class is `cls` (an
      XPath `.//` search), and the same search over
      `n`'s children from the `i`-th on: the first element in document
      order, by its path from `n`. */
  function FindIn(n: Node, cls: string): Option<Path>
    decreases n, |Kids(n)| + 1
  {
    if GetAttr(n, "class") == Some(cls) then Some([]) else FindAmong(n, 0, cls)
  }

  function FindAmong(n: Node, i: nat, cls: string): Option<Path>
    decreases n, |Kids(n)| - i
  {
    if n.Text? || i >= |n.children| then None
    else
      match FindIn(n.children[i], cls)
      case Some(p) => Some([i] + p)
      case None => FindAmong(n, i + 1, cls)
  }

  /** `a` comes before `b` in document order (`iter()` order). */
  predicate Before(a: Path, b: Path) {
    (|a| < |b| && a == b[..|a|])
    || exists k :: 0 <= k < |a| && k < |b| && a[..k] == b[..k] && a[k] < b[k]
  }

  /** The search finds an element with the class, and one the search
      covers. */
  lemma {:induction false} FindInSound(n: Node, cls: string)
    ensures FindIn(n, cls).Some? ==>
      ValidPath(n, FindIn(n, cls).value) && GetAttr(At(n, FindIn(n, cls).value), "class") == Some(cls)
    decreases n, |Kids(n)| + 1
  {
    if GetAttr(n, "class") != Some(cls) {
      FindAmongSound(n, 0, cls);
    }
  }

  lemma {:induction false} FindAmongSound(n: Node, i: nat, cls: string)
    ensures FindAmong(n, i, cls).Some? ==>
      var p := FindAmong(n, i, cls).value;
      |p| > 0 && i <= p[0] && ValidPath(n, p) && GetAttr(At(n, p), "class") == Some(cls)
    decreases n, |Kids(n)| - i
  {
    if n.Element? && i < |n.children| {
      FindInSound(n.children[i], cls);
      match FindIn(n.children[i], cls)
      case Some(q) =>
        assert ([i] + q)[1..] == q;
      case None =>
        FindAmongSound(n, i + 1, cls);
    }
  }

  /** Nothing with the class comes before what the search finds: any
      element with the class is the one found or comes after it. */
  lemma {:induction false} FindInFirst(n: Node, cls: string, q: Path)
    requires ValidPath(n, q) && GetAttr(At(n, q), "class") == Some(cls)
    ensures FindIn(n, cls).Some?
    ensures FindIn(n, cls).value == q || Before(FindIn(n, cls).value, q)
    decreases n, |Kids(n)| + 1
  {
    if GetAttr(n, "class") == Some(cls) {
      if q != [] {
        assert q[..0] == [];
      }
    } else {
      assert |q| > 0;
      FindAmongFirst(n, 0, cls, q);
    }
  }

  lemma {:induction false} FindAmongFirst(n: Node, i: nat, cls: string, q: Path)
    requires |q| > 0 && i <= q[0] && ValidPath(n, q) && GetAttr(At(n, q), "class") == Some(cls)
    ensures FindAmong(n, i, cls).Some?
    ensures FindAmong(n, i, cls).value == q || Before(FindAmong(n, i, cls).value, q)
    decreases n, |Kids(n)| - i
  {
    var c := n.children[i];
    if i == q[0] {
      FindInFirst(c, cls, q[1..]);
      var f := FindIn(c, cls).value;
      var r := [i] + f;
      assert r[1..] == f && r[0] == q[0];
      if f == q[1..] {
        assert r == q;
      } else if |f| < |q[1..]| && f == q[1..][..|f|] {
        assert r == q[..|r|];
      } else {
        var k :| 0 <= k < |f| && k < |q[1..]| && f[..k] == q[1..][..k] && f[k] < q[1..][k];
        assert r[..k + 1] == q[..k + 1] by {
          assert r[..k + 1] == [i] + f[..k];
          assert q[..k + 1] == [q[0]] + q[1..][..k];
        }
        assert r[k + 1] < q[k + 1];
      }
    } else {
      match FindIn(c, cls)
      case Some(f) =>
        var r := [i] + f;
        assert r[..0] == q[..0] && r[0] < q[0];
      case None =>
        FindAmongFirst(n, i + 1, cls, q);
    }
  }

  // ---------------------------------------------------------------- what stays visible

  /** A child of the element at `p` is at `p + [j]`. */
  lemma {:induction false} ChildPath(n: Node, p: Path, j: nat)
    requires ValidPath(n, p) && j < |Kids(At(n, p))|
    ensures ValidPath(n, p + [j]) && At(n, p + [j]) == Kids(At(n, p))[j]
    decreases p
  {
    if |p| == 0 {
      assert p + [j] == [j] && [j][1..] == [];
    } else {
      ChildPath(n.children[p[0]], p[1..], j);
      assert (p + [j])[1..] == p[1..] + [j];
    }
  }

  /** Child `j` of the root's child `l` is at `[l, j]`. */
  lemma LayerChild(doc: Node, l: nat, j: nat)
    requires doc.Element? && l < |doc.children| && j < |Kids(doc.children[l])|
    ensures ValidPath(doc, [l, j]) && At(doc, [l, j]) == Kids(doc.children[l])[j]
  {
    var c := doc.children[l];
    assert [l, j][1..] == [j] && [j][1..] == [];
    assert ValidPath(c, [j]);
    assert At(c, [j]) == c.children[j];
  }

  /** `elm.findall('*')` of the element at `p`, by path. */
  function ChildPaths(n: Node, p: Path): set<Path>
    requires ValidPath(n, p)
  {
    set j | 0 <= j < |Kids(At(n, p))| :: p + [j]
  }

  /** The children of the element at `p` whose fill is `none`. */
  function HidersOf(n: Node, p: Path): set<Path>
    requires ValidPath(n, p)
  {
    set j | 0 <= j < |Kids(At(n, p))| && IsHider(Kids(At(n, p))[j]) :: p + [j]
  }

  /** The start of `preserved_shapes_all`: the root, its first three
      children and the first child of each (the layers and their titles);
      a missing one is an IndexError. */
  function Fixed(doc: Node): Result<set<Path>> {
    if ValidPath(doc, [0, 0]) && ValidPath(doc, [1, 0]) && ValidPath(doc, [2, 0]) then Ok(FixedPaths)
    else Err(IndexOutOfRange)
  }

  const FixedPaths: set<Path> := {[], [0], [0, 0], [1], [1, 0], [2], [2, 0]}

  /** `preserved_shapes_all` and `preserved_shapes_ques`, by path. */
  datatype Keep = Keep(all: set<Path>, ques: set<Path>)

  /** A mask: the document as it is serialised, and the inverted frame
      appended to it. */
  datatype Mask = Mask(doc: Node, frame: InversePath)

  /** The class a regular question's shapes get: `qshape` on the question
      side, `ashape` on the answer side. */
  function QClass(side: MaskType): string { if side == A then "ashape" else "qshape" }

  /** The colour a question is painted with on `side`. */
  function Colour(side: MaskType, qfill: string, afill: string): string { if side == A then afill else qfill }

  /** Child `i` of the top layer (`layer_nodes[-1]`) and of the one below it
      (`layer_nodes[-2]`). */
  function TopPath(doc: Node, i: nat): Path
    requires doc.Element? && |doc.children| >= 1
  {
    [|doc.children| - 1, i]
  }

  function SecondPath(doc: Node, i: nat): Path
    requires doc.Element? && |doc.children| >= 2
  {
    [|doc.children| - 2, i]
  }

  /** The last two passes: the preserved elements lose the opacity the first
      pass gave them, then the preserved question shapes are marked. */
  function Marked(d: Node, keep: Keep, reverse: bool, side: MaskType): (r: Node)
    ensures forall p :: ValidPath(r, p) <==> ValidPath(d, p)
  {
    SweepShape(d, [], keep.all, false, Unhide);
    var d1 := Sweep(d, [], keep.all, false, Unhide);
    SweepShape(d1, [], keep.ques, false, Mark(reverse, side));
    Sweep(d1, [], keep.ques, false, Mark(reverse, side))
  }

  /** `inverse_wrapper` on the wrapper at `wp`, then `svg_node.append`: a
      `None` frame cannot be appended (a TypeError). */
  function Framed(d: Node, wp: Path, fill: string): (r: Result<Mask>)
    requires ValidPath(d, wp)
    ensures TagOf(At(d, wp)) != "rect" ==> r == Err(NoWrapperPath)
    ensures r.Ok? ==> r.value.doc == d && r.value.frame.fill == fill && |r.value.frame.moves| == 11
  {
    match InverseWrapper(At(d, wp), d, fill)
    case Err(e) => Err(e)
    case Ok(None) => Err(NoWrapperPath)
    case Ok(Some(frame)) => Ok(Mask(d, frame))
  }

  // ---------------------------------------------------------------- regular masks (ngen.py:862-965)

  /** Everything hidden, then the question at `qp` painted: its class,
      its colour if it has a fill of its own, and otherwise the colour on each
      shape inside it, hider shapes (`fill="none"`) turned white. */
  function RegularPainted(doc: Node, qp: Path, cls: string, colour: string): (r: Node)
    requires ValidPath(doc, qp)
    ensures forall p :: ValidPath(r, p) <==> ValidPath(doc, p)
  {
    SweepShape(doc, [], {}, true, Hide);
    var d1 := Sweep(doc, [], {}, true, Hide);
    SweepShape(d1, [], {qp}, false, Paint(cls, colour));
    var d2 := Sweep(d1, [], {qp}, false, Paint(cls, colour));
    if HasFill(AttrsOf(At(doc, qp))) then d2
    else
      SweepShape(d2, [], ChildPaths(doc, qp), false, PaintShape(cls, colour, true));
      Sweep(d2, [], ChildPaths(doc, qp), false, PaintShape(cls, colour, true))
  }

  /** The preserved elements of a regular mask. A `g` question keeps the
      children of the first element in the document with the question's
      class. Any other question shape leaves `preserved_shapes_ques`
      unbound on the first question (an UnboundLocalError); on a later one
      the list still holds elements of an earlier copy of the document,
      which match nothing in this one. */
  function RegularKeep(d: Node, qp: Path, cls: string, stale: bool): Result<Keep>
    requires ValidPath(d, qp)
  {
    match Fixed(d)
    case Err(e) => Err(e)
    case Ok(fixed) =>
      var tag := TagOf(At(d, qp));
      if tag == "rect" then Ok(Keep(fixed + {qp}, {qp}))
      else if tag == "g" then
        match FindAmong(d, 0, cls)
        case None => Err(NotFound)
        case Some(f) =>
          FindAmongSound(d, 0, cls);
          var ques := ChildPaths(d, f);
          Ok(Keep(fixed + {qp} + ques, ques))
      else if stale then Ok(Keep(fixed, {}))
      else Err(UnsupportedShape(tag))
  }

  /** A document the layer check accepts is an element with `n` children. */
  lemma LayersAccepted(doc: Node)
    requires LayerCheck(doc).Ok?
    ensures doc.Element? && LayerCheck(doc).value == |doc.children| >= 3
  {
  }

  /** The mask of the regular question at index `idx` of the top layer, on
      `side`; `stale` says whether an earlier question of the same loop has
      been drawn. */
  function RegularMask(doc: Node, idx: nat, side: MaskType, qfill: string, afill: string, stale: bool): (r: Result<Mask>)
    requires side != O
  {
    match LayerCheck(doc)
    case Err(e) => Err(e)
    case Ok(n) =>
      LayersAccepted(doc);
      RegularMaskIn(doc, n - 1, idx, side, Colour(side, qfill, afill), stale)
  }

  /** The same, once the layers are found: the top one is child `l`. */
  function RegularMaskIn(doc: Node, l: nat, idx: nat, side: MaskType, colour: string, stale: bool): (r: Result<Mask>)
    requires doc.Element? && l < |doc.children|
  {
    var layer := doc.children[l];
    if idx >= |Kids(layer)| then Err(IndexOutOfRange)
    else
      var qp := [l, idx];
      LayerChild(doc, l, idx);
      var cls := QClass(side);
      var d := RegularPainted(doc, qp, cls, colour);
      match RegularKeep(d, qp, cls, stale)
      case Err(e) => Err(e)
      case Ok(keep) =>
        if idx + 1 >= |Kids(layer)| then Err(IndexOutOfRange)
        else
          LayerChild(doc, l, idx + 1);
          Framed(Marked(d, keep, false, side), [l, idx + 1], RegularInverseFill)
  }

  // ---------------------------------------------------------------- reverse masks (ngen.py:967-1075)

  /** Everything hidden, the question set at `sp` marked `qset`, then its
      question at `qp` painted `qshape`: its colour if it has a fill of its
      own, and otherwise the colour on every shape inside it (a reverse
      question has no hiders of its own). */
  function ReversePainted(doc: Node, sp: Path, qp: Path, colour: string): (r: Node)
    requires ValidPath(doc, sp) && ValidPath(doc, qp)
    ensures forall p :: ValidPath(r, p) <==> ValidPath(doc, p)
  {
    SweepShape(doc, [], {}, true, Hide);
    var d1 := Sweep(doc, [], {}, true, Hide);
    SweepShape(d1, [], {sp}, false, SetClass("qset"));
    var d2 := Sweep(d1, [], {sp}, false, SetClass("qset"));
    SweepShape(d2, [], {qp}, false, Paint("qshape", colour));
    var d3 := Sweep(d2, [], {qp}, false, Paint("qshape", colour));
    if HasFill(AttrsOf(At(doc, qp))) then d3
    else
      SweepShape(d3, [], ChildPaths(doc, qp), false, PaintShape("qshape", colour, false));
      Sweep(d3, [], ChildPaths(doc, qp), false, PaintShape("qshape", colour, false))
  }

  /** The preserved elements of a reverse mask: the question set always,
      the question as for a regular one, and, added to the question shapes,
      the set's own hiders as the painted copy has them. A shape that is
      neither `rect` nor `g` leaves the list unbound on the first question;
      on a later one the stale list gains this set's hiders and its old
      elements match nothing. */
  function ReverseKeep(d: Node, sp: Path, qp: Path, stale: bool): Result<Keep>
    requires ValidPath(d, sp) && ValidPath(d, qp)
  {
    match Fixed(d)
    case Err(e) => Err(e)
    case Ok(fixed) =>
      var tag := TagOf(At(d, qp));
      var hiders := HidersOf(d, sp);
      if tag == "rect" then Ok(Keep(fixed + {sp} + ({qp} + hiders), {qp} + hiders))
      else if tag == "g" then Ok(Keep(fixed + {sp} + {qp} + (ChildPaths(d, qp) + hiders), ChildPaths(d, qp) + hiders))
      else if stale then Ok(Keep(fixed + {sp} + hiders, hiders))
      else Err(UnsupportedShape(tag))
  }

  /** The mask of question `qi` of the question set at index `gi` of the
      second layer from the top, on `side`. */
  function ReverseMask(doc: Node, gi: nat, qi: nat, side: MaskType, qfill: string, afill: string, stale: bool): (r: Result<Mask>)
    requires side != O
  {
    match LayerCheck(doc)
    case Err(e) => Err(e)
    case Ok(n) =>
      LayersAccepted(doc);
      ReverseMaskIn(doc, n - 2, gi, qi, side, Colour(side, qfill, afill), stale)
  }

  /** The frame of a reverse mask is dark blue on the answer side. */
  function ReverseFrameFill(side: MaskType): string {
    if side == A then ReverseInverseFill else RegularInverseFill
  }

  function ReverseMaskIn(doc: Node, l: nat, gi: nat, qi: nat, side: MaskType, colour: string, stale: bool): (r: Result<Mask>)
    requires doc.Element? && l < |doc.children|
  {
    var layer := doc.children[l];
    if gi >= |Kids(layer)| then Err(IndexOutOfRange)
    else
      var sp := [l, gi];
      LayerChild(doc, l, gi);
      if qi >= |Kids(At(doc, sp))| then Err(IndexOutOfRange)
      else
        ChildPath(doc, sp, qi);
        var qp := sp + [qi];
        var d := ReversePainted(doc, sp, qp, colour);
        match ReverseKeep(d, sp, qp, stale)
        case Err(e) => Err(e)
        case Ok(keep) =>
          if gi + 1 >= |Kids(layer)| then Err(IndexOutOfRange)
          else
            LayerChild(doc, l, gi + 1);
            Framed(Marked(d, keep, true, side), [l, gi + 1], ReverseFrameFill(side))
  }

  // ---------------------------------------------------------------- the mask lists

  /** `_generateMaskSVGsForRegular(side)`: one mask per recorded regular
      question, in insertion order; the first failure ends the loop. Only
      the first question of the loop finds the question list unbound. */
  function RegularMasks(doc: Node, es: seq<Entry>, side: MaskType, qfill: string, afill: string): (r: Result<seq<Mask>>)
    ensures r.Ok? ==> |r.value| == (if side == O then 0 else |es|)
    decreases |es|
  {
    if side == O || es == [] then Ok([])
    else
      match RegularMasks(doc, es[..|es| - 1], side, qfill, afill)
      case Err(e) => Err(e)
      case Ok(ms) =>
        match RegularMask(doc, Last(es).index, side, qfill, afill, |es| > 1)
        case Err(e) => Err(e)
        case Ok(m) => Ok(ms + [m])
  }

  /** The questions of the reverse loop in the order the two nested loops
      visit them: (set index, question index). */
  datatype Spot = Spot(qset: nat, item: nat)

  function ReverseOrder(qsets: seq<Qset>): (r: seq<Spot>)
    ensures |r| == |Flatten(qsets)|
    decreases |qsets|
  {
    if qsets == [] then []
    else ReverseOrder(qsets[..|qsets| - 1]) + seq(|Last(qsets).items|, j requires 0 <= j < |Last(qsets).items| => Spot(Last(qsets).index, Last(qsets).items[j].index))
  }

  /** `_generateMaskSVGsForReverse(side)` over the questions in that order;
      the question list stays bound from one question set to the next. */
  function ReverseMasks(doc: Node, order: seq<Spot>, side: MaskType, qfill: string, afill: string): (r: Result<seq<Mask>>)
    ensures r.Ok? ==> |r.value| == (if side == O then 0 else |order|)
    decreases |order|
  {
    if side == O || order == [] then Ok([])
    else
      match ReverseMasks(doc, order[..|order| - 1], side, qfill, afill)
      case Err(e) => Err(e)
      case Ok(ms) =>
        var spot := order[|order| - 1];
        match ReverseMask(doc, spot.qset, spot.item, side, qfill, afill, |order| > 1)
        case Err(e) => Err(e)
        case Ok(m) => Ok(ms + [m])
  }

  // ---------------------------------------------------------------- what a mask shows

  /** The opacity the element at `p` is drawn with (`None`: fully). */
  function Opacity(n: Node, p: Path): Option<string>
    requires ValidPath(n, p)
  {
    Get(AttrsOf(At(n, p)), "opacity")
  }

  /** No element of the drawing carries the class `cls` before painting. */
  ghost predicate NoClass(doc: Node, cls: string) {
    forall p :: ValidPath(doc, p) ==> GetAttr(At(doc, p), "class") != Some(cls)
  }

  /** The last two passes at one element: a preserved element loses its
      opacity, a preserved question shape is then marked. */
  lemma MarkedAt(d: Node, keep: Keep, reverse: bool, side: MaskType, p: Path)
    requires ValidPath(d, p)
    ensures ValidPath(Marked(d, keep, reverse, side), p)
    ensures var r := At(Marked(d, keep, reverse, side), p);
      var o := At(d, p);
      var u := if o.Element? && p in keep.all then AttrsOf(o) - {"opacity"} else AttrsOf(o);
      && r.Element? == o.Element? && TagOf(r) == TagOf(o) && |Kids(r)| == |Kids(o)|
      && AttrsOf(r) == (if o.Element? && p in keep.ques then Touch(Mark(reverse, side), u) else u)
  {
    SweepAt(d, [], keep.all, false, Unhide, p);
    var d1 := Sweep(d, [], keep.all, false, Unhide);
    SweepAt(d1, [], keep.ques, false, Mark(reverse, side), p);
    assert [] + p == p;
  }

  /** The attribute names the passes set are distinct. */
  lemma DistinctKeys()
    ensures "opacity" != "class" && "opacity" != "fill" && "class" != "fill"
  {
    assert "opacity"[0] != "class"[0] && "opacity"[0] != "fill"[0] && "class"[0] != "fill"[0];
  }

  /** The three passes of a regular mask's painting at one element, in
      order. */
  lemma RegularPaintedSteps(doc: Node, qp: Path, cls: string, colour: string, p: Path)
    requires ValidPath(doc, qp) && ValidPath(doc, p)
    ensures ValidPath(RegularPainted(doc, qp, cls, colour), p)
    ensures var r := At(RegularPainted(doc, qp, cls, colour), p);
      var o := At(doc, p);
      var h1 := if o.Element? then AttrsOf(o)["opacity" := "0"] else AttrsOf(o);
      var h2 := if o.Element? && p == qp then Touch(Paint(cls, colour), h1) else h1;
      var inside := !HasFill(AttrsOf(At(doc, qp))) && p in ChildPaths(doc, qp);
      && r.Element? == o.Element? && TagOf(r) == TagOf(o) && |Kids(r)| == |Kids(o)|
      && AttrsOf(r) == (if o.Element? && inside then Touch(PaintShape(cls, colour, true), h2) else h2)
  {
    SweepAt(doc, [], {}, true, Hide, p);
    var d1 := Sweep(doc, [], {}, true, Hide);
    SweepAt(d1, [], {qp}, false, Paint(cls, colour), p);
    var d2 := Sweep(d1, [], {qp}, false, Paint(cls, colour));
    assert [] + p == p;
    if !HasFill(AttrsOf(At(doc, qp))) {
      SweepAt(d2, [], ChildPaths(doc, qp), false, PaintShape(cls, colour, true), p);
    }
  }

  /** The painted copy of a regular mask at one element: everything is at
      opacity 0; the question has the class, and the colour if it has a fill
      of its own; otherwise each shape inside it has the class and the colour,
      or, when its fill is `none`, is a white `hider`. Nothing else changes. */
  lemma RegularPaintedAt(doc: Node, qp: Path, cls: string, colour: string, p: Path)
    requires ValidPath(doc, qp) && ValidPath(doc, p)
    ensures ValidPath(RegularPainted(doc, qp, cls, colour), p)
    ensures var r := At(RegularPainted(doc, qp, cls, colour), p);
      var o := At(doc, p);
      && r.Element? == o.Element? && TagOf(r) == TagOf(o) && |Kids(r)| == |Kids(o)|
    ensures var r := At(RegularPainted(doc, qp, cls, colour), p);
      var o := At(doc, p);
      var q := AttrsOf(At(doc, qp));
      var inside := !HasFill(q) && p in ChildPaths(doc, qp);
      o.Element? ==>
        && Get(AttrsOf(r), "opacity") == Some("0")
        && GetAttr(r, "class") ==
             (if p == qp || (inside && !IsHider(o)) then Some(cls)
              else if inside then Some("hider")
              else GetAttr(o, "class"))
        && GetAttr(r, "fill") ==
             (if (p == qp && HasFill(q)) || (inside && !IsHider(o)) then Some(colour)
              else if inside then Some(HiderCol)
              else GetAttr(o, "fill"))
  {
    RegularPaintedSteps(doc, qp, cls, colour, p);
    if p == qp {
      assert p !in ChildPaths(doc, qp);
    }
    RegularTouches(AttrsOf(At(doc, p)), p == qp, !HasFill(AttrsOf(At(doc, qp))) && p in ChildPaths(doc, qp), cls, colour);
  }

  /** The painting passes of a regular mask on one attribute map. */
  lemma RegularTouches(o: map<string, string>, atQuestion: bool, inside: bool, cls: string, colour: string)
    requires !(atQuestion && inside)
    ensures var h1 := o["opacity" := "0"];
      var h2 := if atQuestion then Touch(Paint(cls, colour), h1) else h1;
      var h3 := if inside then Touch(PaintShape(cls, colour, true), h2) else h2;
      var hider := Get(o, "fill") == Some("none");
      && Get(h3, "opacity") == Some("0")
      && Get(h3, "class") == (if atQuestion || (inside && !hider) then Some(cls) else if inside then Some("hider") else Get(o, "class"))
      && Get(h3, "fill") == (if (atQuestion && HasFill(o)) || (inside && !hider) then Some(colour) else if inside then Some(HiderCol) else Get(o, "fill"))
  {
    DistinctKeys();
  }

  /** When nothing in the drawing carries the question's class before
      painting, the search for it finds the question itself, so a `g`
      question keeps its own shapes. */
  lemma RegularKeepFound(doc: Node, qp: Path, cls: string, colour: string, stale: bool)
    requires ValidPath(doc, qp) && |qp| > 0 && NoClass(doc, cls) && cls != "hider"
    ensures var tag := TagOf(At(doc, qp));
      RegularKeep(RegularPainted(doc, qp, cls, colour), qp, cls, stale) ==
        if Fixed(doc).Err? then Err(IndexOutOfRange)
        else if tag == "rect" then Ok(Keep(FixedPaths + {qp}, {qp}))
        else if tag == "g" then Ok(Keep(FixedPaths + {qp} + ChildPaths(doc, qp), ChildPaths(doc, qp)))
        else if stale then Ok(Keep(FixedPaths, {}))
        else Err(UnsupportedShape(tag))
  {
    var d := RegularPainted(doc, qp, cls, colour);
    assert Fixed(d) == Fixed(doc);
    RegularPaintedAt(doc, qp, cls, colour, qp);
    if Fixed(doc).Ok? && TagOf(At(doc, qp)) == "g" {
      FindAmongFirst(d, 0, cls, qp);
      FindAmongSound(d, 0, cls);
      var f := FindAmong(d, 0, cls).value;
      RegularPaintedAt(doc, qp, cls, colour, f);
      assert f == qp;
      assert ChildPaths(d, qp) == ChildPaths(doc, qp);
    }
  }

  /** A regular mask that is drawn is the painted copy with the preserved
      elements marked, the wrapper after the question being in the layer. */
  lemma RegularMaskInParts(doc: Node, l: nat, idx: nat, side: MaskType, colour: string, stale: bool, qp: Path)
    requires doc.Element? && l < |doc.children| && RegularMaskIn(doc, l, idx, side, colour, stale).Ok?
    requires qp == [l, idx]
    ensures idx + 1 < |Kids(doc.children[l])|
    ensures ValidPath(doc, qp)
    ensures var f := RegularMaskIn(doc, l, idx, side, colour, stale).value.frame; f.fill == RegularInverseFill && |f.moves| == 11
    ensures var d := RegularPainted(doc, qp, QClass(side), colour);
      && RegularKeep(d, qp, QClass(side), stale).Ok?
      && RegularMaskIn(doc, l, idx, side, colour, stale).value.doc == Marked(d, RegularKeep(d, qp, QClass(side), stale).value, false, side)
  {
    LayerChild(doc, l, idx);
  }

  /** A mask drawn means the layers were accepted. */
  lemma RegularMaskLayers(doc: Node, idx: nat, side: MaskType, qfill: string, afill: string, stale: bool)
    requires side != O && RegularMask(doc, idx, side, qfill, afill, stale).Ok?
    ensures doc.Element? && |doc.children| >= 3
  {
    LayersAccepted(doc);
  }

  lemma ReverseMaskLayers(doc: Node, gi: nat, qi: nat, side: MaskType, qfill: string, afill: string, stale: bool)
    requires side != O && ReverseMask(doc, gi, qi, side, qfill, afill, stale).Ok?
    ensures doc.Element? && |doc.children| >= 3
  {
    LayersAccepted(doc);
  }

  /** Once the layers are accepted, a mask is the one drawn in the top layer
      `l` (regular) or in layer `l` below it (reverse). */
  lemma RegularMaskLayer(doc: Node, idx: nat, side: MaskType, qfill: string, afill: string, stale: bool, l: nat)
    requires side != O && RegularMask(doc, idx, side, qfill, afill, stale).Ok?
    requires doc.Element? && l + 1 == |doc.children|
    ensures RegularMask(doc, idx, side, qfill, afill, stale) == RegularMaskIn(doc, l, idx, side, Colour(side, qfill, afill), stale)
  {
    LayersAccepted(doc);
  }

  lemma ReverseMaskLayer(doc: Node, gi: nat, qi: nat, side: MaskType, qfill: string, afill: string, stale: bool, l: nat)
    requires side != O && ReverseMask(doc, gi, qi, side, qfill, afill, stale).Ok?
    requires doc.Element? && l + 2 == |doc.children|
    ensures ReverseMask(doc, gi, qi, side, qfill, afill, stale) == ReverseMaskIn(doc, l, gi, qi, side, Colour(side, qfill, afill), stale)
  {
    LayersAccepted(doc);
  }

  /** The frame of a regular mask is dark grey, that of a reverse mask dark
      blue on the answer side; each is an 11-move path. */
  lemma RegularMaskFrame(doc: Node, idx: nat, side: MaskType, qfill: string, afill: string, stale: bool)
    requires side != O && RegularMask(doc, idx, side, qfill, afill, stale).Ok?
    ensures var f := RegularMask(doc, idx, side, qfill, afill, stale).value.frame; f.fill == RegularInverseFill && |f.moves| == 11
  {
    RegularMaskLayers(doc, idx, side, qfill, afill, stale);
    var l := |doc.children| - 1;
    RegularMaskLayer(doc, idx, side, qfill, afill, stale, l);
    RegularMaskInParts(doc, l, idx, side, Colour(side, qfill, afill), stale, TopPath(doc, idx));
  }

  lemma ReverseMaskFrame(doc: Node, gi: nat, qi: nat, side: MaskType, qfill: string, afill: string, stale: bool)
    requires side != O && ReverseMask(doc, gi, qi, side, qfill, afill, stale).Ok?
    ensures var f := ReverseMask(doc, gi, qi, side, qfill, afill, stale).value.frame; f.fill == ReverseFrameFill(side) && |f.moves| == 11
  {
    ReverseMaskLayers(doc, gi, qi, side, qfill, afill, stale);
    var l := |doc.children| - 2;
    ReverseMaskLayer(doc, gi, qi, side, qfill, afill, stale, l);
    ReverseMaskInParts(doc, l, gi, qi, side, Colour(side, qfill, afill), stale, SecondPath(doc, gi));
  }

  /** In a regular mask an element hidden by the painting ends at opacity 0,
      fully visible when it is preserved, and marked when it is a preserved
      question shape. */
  lemma MarkedRegularOpacity(d: Node, keep: Keep, side: MaskType, p: Path)
    requires ValidPath(d, p) && At(d, p).Element? && Opacity(d, p) == Some("0")
    ensures ValidPath(Marked(d, keep, false, side), p)
    ensures Opacity(Marked(d, keep, false, side), p) ==
      if p in keep.ques then Some(if side == A && GetAttr(At(d, p), "class") != Some("hider") then "0.3" else "1")
      else if p in keep.all then None
      else Some("0")
    ensures GetAttr(At(Marked(d, keep, false, side), p), "class") == GetAttr(At(d, p), "class")
    ensures GetAttr(At(Marked(d, keep, false, side), p), "fill") == GetAttr(At(d, p), "fill")
  {
    MarkedAt(d, keep, false, side, p);
    DistinctKeys();
  }

  /** What a regular mask shows, when nothing in the drawing carries the
      question's class beforehand: the root, the three layers and their
      titles at full opacity; a `rect` question at opacity 1 on the question
      side and 0.3 on the answer side; a `g` question at full opacity with
      its shapes at 1, or on the answer side at 0.3 except its hiders; and
      everything else at opacity 0. */
  lemma RegularMaskOpacity(doc: Node, idx: nat, side: MaskType, qfill: string, afill: string, stale: bool, p: Path)
    requires side != O && RegularMask(doc, idx, side, qfill, afill, stale).Ok?
    requires NoClass(doc, QClass(side))
    requires ValidPath(doc, p) && At(doc, p).Element?
    ensures doc.Element? && |doc.children| >= 3 && ValidPath(doc, TopPath(doc, idx))
    ensures ValidPath(RegularMask(doc, idx, side, qfill, afill, stale).value.doc, p)
    ensures Opacity(RegularMask(doc, idx, side, qfill, afill, stale).value.doc, p) == RegularShown(doc, TopPath(doc, idx), side, p)
  {
    RegularMaskLayers(doc, idx, side, qfill, afill, stale);
    var l := |doc.children| - 1;
    RegularMaskLayer(doc, idx, side, qfill, afill, stale, l);
    RegularMaskInParts(doc, l, idx, side, Colour(side, qfill, afill), stale, TopPath(doc, idx));
    RegularOpacityOf(doc, TopPath(doc, idx), side, Colour(side, qfill, afill), stale, p);
  }

  /** The opacity the element at `p` should have in the regular mask of the
      question at `qp`. */
  function RegularShown(doc: Node, qp: Path, side: MaskType, p: Path): Option<string>
    requires ValidPath(doc, qp) && ValidPath(doc, p)
  {
    var q := At(doc, qp);
    var hider := if HasFill(AttrsOf(q)) then GetAttr(At(doc, p), "class") == Some("hider") else IsHider(At(doc, p));
    if TagOf(q) == "rect" && p == qp then Some(if side == A then "0.3" else "1")
    else if TagOf(q) == "g" && p in ChildPaths(doc, qp) then Some(if side == A && !hider then "0.3" else "1")
    else if p in FixedPaths || (TagOf(q) == "g" && p == qp) then None
    else Some("0")
  }

  lemma RegularOpacityOf(doc: Node, qp: Path, side: MaskType, colour: string, stale: bool, p: Path)
    requires ValidPath(doc, qp) && |qp| > 0 && NoClass(doc, QClass(side))
    requires ValidPath(doc, p) && At(doc, p).Element?
    requires RegularKeep(RegularPainted(doc, qp, QClass(side), colour), qp, QClass(side), stale).Ok?
    ensures var d := RegularPainted(doc, qp, QClass(side), colour);
      var keep := RegularKeep(d, qp, QClass(side), stale).value;
      ValidPath(Marked(d, keep, false, side), p) && Opacity(Marked(d, keep, false, side), p) == RegularShown(doc, qp, side, p)
  {
    var cls := QClass(side);
    var d := RegularPainted(doc, qp, cls, colour);
    RegularKeepFound(doc, qp, cls, colour, stale);
    var keep := RegularKeep(d, qp, cls, stale).value;
    RegularPaintedAt(doc, qp, cls, colour, p);
    MarkedRegularOpacity(d, keep, side, p);
  }

  /** The four passes of a reverse mask's painting at one element, in
      order. */
  lemma ReversePaintedSteps(doc: Node, sp: Path, qp: Path, colour: string, p: Path)
    requires ValidPath(doc, sp) && ValidPath(doc, qp) && ValidPath(doc, p)
    ensures ValidPath(ReversePainted(doc, sp, qp, colour), p)
    ensures var r := At(ReversePainted(doc, sp, qp, colour), p);
      var o := At(doc, p);
      var h1 := if o.Element? then AttrsOf(o)["opacity" := "0"] else AttrsOf(o);
      var h2 := if o.Element? && p == sp then Touch(SetClass("qset"), h1) else h1;
      var h3 := if o.Element? && p == qp then Touch(Paint("qshape", colour), h2) else h2;
      var inside := !HasFill(AttrsOf(At(doc, qp))) && p in ChildPaths(doc, qp);
      && r.Element? == o.Element? && TagOf(r) == TagOf(o) && |Kids(r)| == |Kids(o)|
      && AttrsOf(r) == (if o.Element? && inside then Touch(PaintShape("qshape", colour, false), h3) else h3)
  {
    SweepAt(doc, [], {}, true, Hide, p);
    var d1 := Sweep(doc, [], {}, true, Hide);
    SweepAt(d1, [], {sp}, false, SetClass("qset"), p);
    var d2 := Sweep(d1, [], {sp}, false, SetClass("qset"));
    SweepAt(d2, [], {qp}, false, Paint("qshape", colour), p);
    var d3 := Sweep(d2, [], {qp}, false, Paint("qshape", colour));
    assert [] + p == p;
    if !HasFill(AttrsOf(At(doc, qp))) {
      SweepAt(d3, [], ChildPaths(doc, qp), false, PaintShape("qshape", colour, false), p);
    }
  }

  /** The painted copy of a reverse mask at one element: everything is at
      opacity 0; the set is a `qset`; the question is a `qshape` with the
      colour if it has a fill of its own, and otherwise every shape inside it
      is. Nothing else changes. */
  lemma ReversePaintedAt(doc: Node, sp: Path, qp: Path, colour: string, p: Path)
    requires ValidPath(doc, sp) && ValidPath(doc, qp) && |qp| == |sp| + 1 && ValidPath(doc, p)
    ensures ValidPath(ReversePainted(doc, sp, qp, colour), p)
    ensures var r := At(ReversePainted(doc, sp, qp, colour), p);
      var o := At(doc, p);
      && r.Element? == o.Element? && TagOf(r) == TagOf(o) && |Kids(r)| == |Kids(o)|
    ensures var r := At(ReversePainted(doc, sp, qp, colour), p);
      var o := At(doc, p);
      var q := AttrsOf(At(doc, qp));
      var inside := !HasFill(q) && p in ChildPaths(doc, qp);
      o.Element? ==>
        && Get(AttrsOf(r), "opacity") == Some("0")
        && GetAttr(r, "class") ==
             (if p == qp || inside then Some("qshape")
              else if p == sp then Some("qset")
              else GetAttr(o, "class"))
        && GetAttr(r, "fill") ==
             (if (p == qp && HasFill(q)) || inside then Some(colour)
              else GetAttr(o, "fill"))
  {
    ReversePaintedSteps(doc, sp, qp, colour, p);
    if p == qp || p == sp {
      assert p !in ChildPaths(doc, qp);
    }
    ReverseTouches(AttrsOf(At(doc, p)), p == sp, p == qp, !HasFill(AttrsOf(At(doc, qp))) && p in ChildPaths(doc, qp), colour);
  }

  /** The painting passes of a reverse mask on one attribute map. */
  lemma ReverseTouches(o: map<string, string>, atSet: bool, atQuestion: bool, inside: bool, colour: string)
    requires !(atSet && atQuestion) && !(atSet && inside) && !(atQuestion && inside)
    ensures var h1 := o["opacity" := "0"];
      var h2 := if atSet then Touch(SetClass("qset"), h1) else h1;
      var h3 := if atQuestion then Touch(Paint("qshape", colour), h2) else h2;
      var h4 := if inside then Touch(PaintShape("qshape", colour, false), h3) else h3;
      && Get(h4, "opacity") == Some("0")
      && Get(h4, "class") == (if atQuestion || inside then Some("qshape") else if atSet then Some("qset") else Get(o, "class"))
      && Get(h4, "fill") == (if (atQuestion && HasFill(o)) || inside then Some(colour) else Get(o, "fill"))
  {
    DistinctKeys();
  }

  /** The hiders of the set, as the painted copy has them: the set's own
      hiders except the question, whose fill the painting replaces. */
  lemma ReverseHiders(doc: Node, sp: Path, qi: nat, colour: string)
    requires ValidPath(doc, sp) && qi < |Kids(At(doc, sp))| && colour != "none"
    ensures ValidPath(doc, sp + [qi])
    ensures HidersOf(ReversePainted(doc, sp, sp + [qi], colour), sp) == HidersOf(doc, sp) - {sp + [qi]}
  {
    ChildPath(doc, sp, qi);
    var qp := sp + [qi];
    var d := ReversePainted(doc, sp, qp, colour);
    ReversePaintedAt(doc, sp, qp, colour, sp);
    forall j | 0 <= j < |Kids(At(doc, sp))|
      ensures IsHider(Kids(At(d, sp))[j]) <==> IsHider(Kids(At(doc, sp))[j]) && j != qi
    {
      ReverseChildHider(doc, sp, qi, colour, j);
    }
    HidersLessOne(doc, d, sp, qi);
  }

  /** Two trees whose children at `sp` are hiders alike except child `qi`,
      which is not one in `b`. */
  lemma HidersLessOne(a: Node, b: Node, sp: Path, qi: nat)
    requires ValidPath(a, sp) && ValidPath(b, sp) && |Kids(At(a, sp))| == |Kids(At(b, sp))|
    requires forall j :: 0 <= j < |Kids(At(a, sp))| ==> (IsHider(Kids(At(b, sp))[j]) <==> IsHider(Kids(At(a, sp))[j]) && j != qi)
    ensures HidersOf(b, sp) == HidersOf(a, sp) - {sp + [qi]}
  {
    forall x | x in HidersOf(b, sp) ensures x in HidersOf(a, sp) - {sp + [qi]} {
      var j :| 0 <= j < |Kids(At(b, sp))| && IsHider(Kids(At(b, sp))[j]) && x == sp + [j];
      assert x[|sp|] == j && (sp + [qi])[|sp|] == qi;
    }
  }

  lemma ReverseChildHider(doc: Node, sp: Path, qi: nat, colour: string, j: nat)
    requires ValidPath(doc, sp) && qi < |Kids(At(doc, sp))| && j < |Kids(At(doc, sp))| && colour != "none"
    ensures ValidPath(doc, sp + [qi])
    ensures var d := ReversePainted(doc, sp, sp + [qi], colour);
      ValidPath(d, sp) && j < |Kids(At(d, sp))| &&
      (IsHider(Kids(At(d, sp))[j]) <==> IsHider(Kids(At(doc, sp))[j]) && j != qi)
  {
    ChildPath(doc, sp, qi);
    var qp := sp + [qi];
    var d := ReversePainted(doc, sp, qp, colour);
    ReversePaintedAt(doc, sp, qp, colour, sp);
    ChildPath(doc, sp, j);
    ChildPath(d, sp, j);
    ReversePaintedAt(doc, sp, qp, colour, sp + [j]);
    assert sp + [j] !in ChildPaths(doc, qp);
    assert (sp + [j])[|sp|] == j && qp[|sp|] == qi;
  }

  /** In a reverse mask an element hidden by the painting ends at opacity 0,
      fully visible when it is preserved; a preserved question shape is at
      opacity 1 on the question side and 0.3 on the answer side, and one
      whose fill is `none` becomes a white hider at opacity 1. */
  lemma MarkedReverseAt(d: Node, keep: Keep, side: MaskType, p: Path)
    requires ValidPath(d, p) && At(d, p).Element? && Opacity(d, p) == Some("0")
    ensures ValidPath(Marked(d, keep, true, side), p)
    ensures var r := At(Marked(d, keep, true, side), p);
      var hider := p in keep.ques && GetAttr(At(d, p), "fill") == Some("none");
      && Opacity(Marked(d, keep, true, side), p) ==
           (if hider then Some("1")
            else if p in keep.ques then Some(if side == A then "0.3" else "1")
            else if p in keep.all then None
            else Some("0"))
      && GetAttr(r, "class") == (if hider then Some("hider") else GetAttr(At(d, p), "class"))
      && GetAttr(r, "fill") == (if hider then Some(HiderCol) else GetAttr(At(d, p), "fill"))
  {
    MarkedAt(d, keep, true, side, p);
    DistinctKeys();
  }

  /** The preserved elements of a reverse mask, in terms of the drawing
      before painting. */
  lemma ReverseKeepOf(doc: Node, sp: Path, qi: nat, colour: string, stale: bool)
    requires ValidPath(doc, sp) && qi < |Kids(At(doc, sp))| && colour != "none"
    ensures ValidPath(doc, sp + [qi])
    ensures var qp := sp + [qi];
      var hiders := HidersOf(doc, sp) - {qp};
      var tag := TagOf(At(doc, qp));
      ReverseKeep(ReversePainted(doc, sp, qp, colour), sp, qp, stale) ==
        if Fixed(doc).Err? then Err(IndexOutOfRange)
        else if tag == "rect" then Ok(Keep(FixedPaths + {sp} + ({qp} + hiders), {qp} + hiders))
        else if tag == "g" then Ok(Keep(FixedPaths + {sp} + {qp} + (ChildPaths(doc, qp) + hiders), ChildPaths(doc, qp) + hiders))
        else if stale then Ok(Keep(FixedPaths + {sp} + hiders, hiders))
        else Err(UnsupportedShape(tag))
  {
    ReverseHiders(doc, sp, qi, colour);
    var qp := sp + [qi];
    var d := ReversePainted(doc, sp, qp, colour);
    assert Fixed(d) == Fixed(doc);
    ReversePaintedAt(doc, sp, qp, colour, qp);
    assert ChildPaths(d, qp) == ChildPaths(doc, qp);
  }

  /** The opacity the element at `p` should have in the reverse mask of the
      question at `qp` of the set at `sp`. */
  function ReverseShown(doc: Node, sp: Path, qi: nat, side: MaskType, p: Path): Option<string>
    requires ValidPath(doc, sp) && ValidPath(doc, sp + [qi]) && ValidPath(doc, p)
  {
    var qp := sp + [qi];
    var q := At(doc, qp);
    var tag := TagOf(q);
    if tag == "rect" && p == qp then Some(if side == A then "0.3" else "1")
    else if tag == "g" && p in ChildPaths(doc, qp) then
      Some(if side == A && !(HasFill(AttrsOf(q)) && IsHider(At(doc, p))) then "0.3" else "1")
    else if p in HidersOf(doc, sp) && p != qp then Some("1")
    else if p in FixedPaths || p == sp || (tag == "g" && p == qp) then None
    else Some("0")
  }

  /** Membership of one path in the preserved sets of a reverse mask. */
  lemma ReverseKeepMembers(doc: Node, sp: Path, qi: nat, colour: string, stale: bool, p: Path)
    requires ValidPath(doc, sp) && qi < |Kids(At(doc, sp))| && colour != "none"
    requires ValidPath(doc, sp + [qi])
    requires ReverseKeep(ReversePainted(doc, sp, sp + [qi], colour), sp, sp + [qi], stale).Ok?
    ensures var qp := sp + [qi];
      var keep := ReverseKeep(ReversePainted(doc, sp, qp, colour), sp, qp, stale).value;
      var tag := TagOf(At(doc, qp));
      var ques := (tag == "rect" && p == qp) || (tag == "g" && p in ChildPaths(doc, qp)) || (p in HidersOf(doc, sp) && p != qp);
      && (p in keep.ques <==> ques)
      && (p in keep.all <==> ques || p in FixedPaths || p == sp || (tag == "g" && p == qp))
  {
    ReverseKeepOf(doc, sp, qi, colour, stale);
    var qp := sp + [qi];
    ReverseKeepSets(ReverseKeep(ReversePainted(doc, sp, qp, colour), sp, qp, stale), sp, qp,
      ChildPaths(doc, qp), HidersOf(doc, sp), TagOf(At(doc, qp)), Fixed(doc).Err?, stale, p);
  }

  /** Membership in the preserved sets of a reverse mask, on the sets alone. */
  lemma ReverseKeepSets(k: Result<Keep>, sp: Path, qp: Path, cs: set<Path>, hs: set<Path>, tag: string, bad: bool, stale: bool, p: Path)
    requires k.Ok?
    requires var hiders := hs - {qp};
      k == if bad then Err(IndexOutOfRange)
        else if tag == "rect" then Ok(Keep(FixedPaths + {sp} + ({qp} + hiders), {qp} + hiders))
        else if tag == "g" then Ok(Keep(FixedPaths + {sp} + {qp} + (cs + hiders), cs + hiders))
        else if stale then Ok(Keep(FixedPaths + {sp} + hiders, hiders))
        else Err(UnsupportedShape(tag))
    ensures var ques := (tag == "rect" && p == qp) || (tag == "g" && p in cs) || (p in hs && p != qp);
      && (p in k.value.ques <==> ques)
      && (p in k.value.all <==> ques || p in FixedPaths || p == sp || (tag == "g" && p == qp))
  {
  }

  /** The reference opacity of a reverse mask, from which preserved set
      the element is in and whether its painted fill is `none`. */
  lemma ReverseShownCases(doc: Node, sp: Path, qi: nat, side: MaskType, p: Path, inQues: bool, inAll: bool, fillNone: bool)
    requires ValidPath(doc, sp) && |sp| == 2 && ValidPath(doc, sp + [qi]) && ValidPath(doc, p)
    requires var qp := sp + [qi];
      var q := At(doc, qp);
      var inside := TagOf(q) == "g" && p in ChildPaths(doc, qp);
      && (inQues <==> (TagOf(q) == "rect" && p == qp) || inside || (p in HidersOf(doc, sp) && p != qp))
      && (inAll <==> inQues || p in FixedPaths || p == sp || (TagOf(q) == "g" && p == qp))
      && (fillNone <==> !((p == qp && HasFill(AttrsOf(q))) || (!HasFill(AttrsOf(q)) && p in ChildPaths(doc, qp))) && IsHider(At(doc, p)))
    ensures ReverseShown(doc, sp, qi, side, p) ==
      if inQues && fillNone then Some("1")
      else if inQues then Some(if side == A then "0.3" else "1")
      else if inAll then None
      else Some("0")
  {
    var qp := sp + [qi];
    if p in HidersOf(doc, sp) {
      var j :| 0 <= j < |Kids(At(doc, sp))| && IsHider(Kids(At(doc, sp))[j]) && p == sp + [j];
      ChildPath(doc, sp, j);
      assert p !in ChildPaths(doc, qp);
    }
    if p in ChildPaths(doc, qp) {
      assert p != qp && p != sp && p !in FixedPaths && p !in HidersOf(doc, sp);
    }
  }

  lemma ReverseOpacityOf(doc: Node, sp: Path, qi: nat, side: MaskType, colour: string, stale: bool, p: Path)
    requires ValidPath(doc, sp) && |sp| == 2 && qi < |Kids(At(doc, sp))| && colour != "none"
    requires ValidPath(doc, p) && At(doc, p).Element?
    requires ValidPath(doc, sp + [qi])
    requires ReverseKeep(ReversePainted(doc, sp, sp + [qi], colour), sp, sp + [qi], stale).Ok?
    ensures var d := ReversePainted(doc, sp, sp + [qi], colour);
      var keep := ReverseKeep(d, sp, sp + [qi], stale).value;
      ValidPath(Marked(d, keep, true, side), p) && Opacity(Marked(d, keep, true, side), p) == ReverseShown(doc, sp, qi, side, p)
  {
    var qp := sp + [qi];
    var d := ReversePainted(doc, sp, qp, colour);
    ReverseKeepMembers(doc, sp, qi, colour, stale, p);
    var keep := ReverseKeep(d, sp, qp, stale).value;
    ReversePaintedAt(doc, sp, qp, colour, p);
    MarkedReverseAt(d, keep, side, p);
    ReverseShownCases(doc, sp, qi, side, p, p in keep.ques, p in keep.all, GetAttr(At(d, p), "fill") == Some("none"));
  }

  /** A reverse mask that is drawn is the painted copy with the preserved
      elements marked, the wrapper after the set being in the layer. */
  lemma ReverseMaskInParts(doc: Node, l: nat, gi: nat, qi: nat, side: MaskType, colour: string, stale: bool, sp: Path)
    requires doc.Element? && l < |doc.children| && ReverseMaskIn(doc, l, gi, qi, side, colour, stale).Ok?
    requires sp == [l, gi]
    ensures gi + 1 < |Kids(doc.children[l])|
    ensures ValidPath(doc, sp) && qi < |Kids(At(doc, sp))| && ValidPath(doc, sp + [qi])
    ensures var f := ReverseMaskIn(doc, l, gi, qi, side, colour, stale).value.frame; f.fill == ReverseFrameFill(side) && |f.moves| == 11
    ensures var d := ReversePainted(doc, sp, sp + [qi], colour);
      && ReverseKeep(d, sp, sp + [qi], stale).Ok?
      && ReverseMaskIn(doc, l, gi, qi, side, colour, stale).value.doc == Marked(d, ReverseKeep(d, sp, sp + [qi], stale).value, true, side)
  {
    LayerChild(doc, l, gi);
    ChildPath(doc, sp, qi);
  }

  /** What a reverse mask shows, for fill colours other than `none`: the
      root, the three layers, their titles and the question set at full
      opacity; the set's hiders as white hiders at opacity 1; a `rect`
      question at opacity 1 on the question side and 0.3 on the answer side;
      a `g` question at full opacity with its shapes likewise; and everything
      else at opacity 0. */
  lemma ReverseMaskOpacity(doc: Node, gi: nat, qi: nat, side: MaskType, qfill: string, afill: string, stale: bool, p: Path)
    requires side != O && ReverseMask(doc, gi, qi, side, qfill, afill, stale).Ok?
    requires qfill != "none" && afill != "none"
    requires ValidPath(doc, p) && At(doc, p).Element?
    ensures doc.Element? && |doc.children| >= 3 && ValidPath(doc, SecondPath(doc, gi)) && ValidPath(doc, SecondPath(doc, gi) + [qi])
    ensures ValidPath(ReverseMask(doc, gi, qi, side, qfill, afill, stale).value.doc, p)
    ensures Opacity(ReverseMask(doc, gi, qi, side, qfill, afill, stale).value.doc, p) == ReverseShown(doc, SecondPath(doc, gi), qi, side, p)
  {
    ReverseMaskLayers(doc, gi, qi, side, qfill, afill, stale);
    var l := |doc.children| - 2;
    ReverseMaskLayer(doc, gi, qi, side, qfill, afill, stale, l);
    ReverseMaskInParts(doc, l, gi, qi, side, Colour(side, qfill, afill), stale, SecondPath(doc, gi));
    ReverseOpacityOf(doc, SecondPath(doc, gi), qi, side, Colour(side, qfill, afill), stale, p);
  }

  // ---------------------------------------------------------------- the lists, mask by mask

  /** A list of regular masks that is drawn is the list for all but the
      last question, then the last question's mask. */
  lemma RegularMasksSnoc(doc: Node, es: seq<Entry>, side: MaskType, qfill: string, afill: string)
    requires side != O && RegularMasks(doc, es, side, qfill, afill).Ok? && |es| > 0
    ensures var last := RegularMask(doc, es[|es| - 1].index, side, qfill, afill, |es| > 1);
      && RegularMasks(doc, es[..|es| - 1], side, qfill, afill).Ok? && last.Ok?
      && RegularMasks(doc, es, side, qfill, afill).value == RegularMasks(doc, es[..|es| - 1], side, qfill, afill).value + [last.value]
  {
  }

  /** A list of regular masks that is drawn holds, at each position, the
      mask of that question, stale from the second question on. */
  lemma {:induction false} RegularMasksAt(doc: Node, es: seq<Entry>, side: MaskType, qfill: string, afill: string, t: nat)
    requires side != O && RegularMasks(doc, es, side, qfill, afill).Ok? && t < |es|
    ensures RegularMask(doc, es[t].index, side, qfill, afill, t > 0) == Ok(RegularMasks(doc, es, side, qfill, afill).value[t])
    decreases |es|
  {
    var init := es[..|es| - 1];
    RegularMasksSnoc(doc, es, side, qfill, afill);
    var ms := RegularMasks(doc, es, side, qfill, afill).value;
    if t < |init| {
      assert es[t] == init[t];
      RegularMasksAt(doc, init, side, qfill, afill, t);
      assert ms[t] == RegularMasks(doc, init, side, qfill, afill).value[t];
    } else {
      assert t == |es| - 1;
    }
  }

  /** The loop stops at the first question whose mask fails, with that
      question's error. */
  lemma {:induction false} RegularMasksFail(doc: Node, es: seq<Entry>, side: MaskType, qfill: string, afill: string, t: nat)
    requires side != O && t < |es|
    requires RegularMask(doc, es[t].index, side, qfill, afill, t > 0).Err?
    requires forall u :: 0 <= u < t ==> RegularMask(doc, es[u].index, side, qfill, afill, u > 0).Ok?
    ensures RegularMasks(doc, es, side, qfill, afill) == Err(RegularMask(doc, es[t].index, side, qfill, afill, t > 0).error)
    decreases |es|
  {
    var init := es[..|es| - 1];
    var e := RegularMask(doc, es[t].index, side, qfill, afill, t > 0).error;
    if t < |es| - 1 {
      forall u | 0 <= u <= t ensures init[u] == es[u] { }
      RegularMasksFail(doc, init, side, qfill, afill, t);
      assert RegularMasks(doc, init, side, qfill, afill) == Err(e);
    } else {
      RegularMasksOk(doc, init, side, qfill, afill);
      assert Last(es) == es[t] && (|es| > 1) == (t > 0);
      assert RegularMask(doc, Last(es).index, side, qfill, afill, |es| > 1) == Err(e);
    }
  }

  /** Every question's mask drawn makes the whole list drawn. */
  lemma {:induction false} RegularMasksOk(doc: Node, es: seq<Entry>, side: MaskType, qfill: string, afill: string)
    requires side != O
    requires forall u :: 0 <= u < |es| ==> RegularMask(doc, es[u].index, side, qfill, afill, u > 0).Ok?
    ensures RegularMasks(doc, es, side, qfill, afill).Ok?
    decreases |es|
  {
    if es != [] {
      var init := es[..|es| - 1];
      forall u | 0 <= u < |init| ensures init[u] == es[u] { }
      RegularMasksOk(doc, init, side, qfill, afill);
    }
  }

  /** The reverse loop visits, at each position, the question recorded there
      in the flattened question sets. */
  lemma {:induction false} ReverseOrderItems(qsets: seq<Qset>)
    ensures forall k :: 0 <= k < |ReverseOrder(qsets)| ==> ReverseOrder(qsets)[k].item == Flatten(qsets)[k].index
    decreases |qsets|
  {
    if qsets != [] {
      ReverseOrderItems(qsets[..|qsets| - 1]);
    }
  }

  /** A list of reverse masks that is drawn is the list for all but the
      last question, then the last question's mask. */
  lemma ReverseMasksSnoc(doc: Node, order: seq<Spot>, side: MaskType, qfill: string, afill: string)
    requires side != O && ReverseMasks(doc, order, side, qfill, afill).Ok? && |order| > 0
    ensures var spot := order[|order| - 1];
      var last := ReverseMask(doc, spot.qset, spot.item, side, qfill, afill, |order| > 1);
      && ReverseMasks(doc, order[..|order| - 1], side, qfill, afill).Ok? && last.Ok?
      && ReverseMasks(doc, order, side, qfill, afill).value == ReverseMasks(doc, order[..|order| - 1], side, qfill, afill).value + [last.value]
  {
  }

  /** A list of reverse masks that is drawn holds, at each position, the
      mask of that question, stale from the second question on, across
      question sets. */
  lemma {:induction false} ReverseMasksAt(doc: Node, order: seq<Spot>, side: MaskType, qfill: string, afill: string, t: nat)
    requires side != O && ReverseMasks(doc, order, side, qfill, afill).Ok? && t < |order|
    ensures ReverseMask(doc, order[t].qset, order[t].item, side, qfill, afill, t > 0) == Ok(ReverseMasks(doc, order, side, qfill, afill).value[t])
    decreases |order|
  {
    var init := order[..|order| - 1];
    ReverseMasksSnoc(doc, order, side, qfill, afill);
    var ms := ReverseMasks(doc, order, side, qfill, afill).value;
    if t < |init| {
      assert order[t] == init[t];
      ReverseMasksAt(doc, init, side, qfill, afill, t);
      assert ms[t] == ReverseMasks(doc, init, side, qfill, afill).value[t];
    } else {
      assert t == |order| - 1;
    }
  }

  // ---------------------------------------------------------------- how the question is drawn

  /** The class and the fill the element at `p` should have in the regular
      mask of the question at `qp`: the question carries the side's class,
      and its colour if it has a fill of its own; otherwise each shape inside
      it has the class and colour, or, when its fill is `none`, is a white
      `hider`. Every other element keeps its class and fill. */
  function RegularStyle(doc: Node, qp: Path, cls: string, colour: string, p: Path): (Option<string>, Option<string>)
    requires ValidPath(doc, qp) && ValidPath(doc, p)
  {
    var q := AttrsOf(At(doc, qp));
    var o := At(doc, p);
    var inside := !HasFill(q) && p in ChildPaths(doc, qp);
    (if p == qp || (inside && !IsHider(o)) then Some(cls)
     else if inside then Some("hider")
     else GetAttr(o, "class"),
     if (p == qp && HasFill(q)) || (inside && !IsHider(o)) then Some(colour)
     else if inside then Some(HiderCol)
     else GetAttr(o, "fill"))
  }

  lemma RegularMaskStyle(doc: Node, idx: nat, side: MaskType, qfill: string, afill: string, stale: bool, p: Path)
    requires side != O && RegularMask(doc, idx, side, qfill, afill, stale).Ok?
    requires ValidPath(doc, p) && At(doc, p).Element?
    ensures doc.Element? && |doc.children| >= 3 && ValidPath(doc, TopPath(doc, idx))
    ensures ValidPath(RegularMask(doc, idx, side, qfill, afill, stale).value.doc, p)
    ensures var r := At(RegularMask(doc, idx, side, qfill, afill, stale).value.doc, p);
      (GetAttr(r, "class"), GetAttr(r, "fill")) == RegularStyle(doc, TopPath(doc, idx), QClass(side), Colour(side, qfill, afill), p)
  {
    RegularMaskLayers(doc, idx, side, qfill, afill, stale);
    var l := |doc.children| - 1;
    RegularMaskLayer(doc, idx, side, qfill, afill, stale, l);
    RegularMaskInParts(doc, l, idx, side, Colour(side, qfill, afill), stale, TopPath(doc, idx));
    RegularStyleOf(doc, TopPath(doc, idx), side, Colour(side, qfill, afill), stale, p);
  }

  lemma RegularStyleOf(doc: Node, qp: Path, side: MaskType, colour: string, stale: bool, p: Path)
    requires ValidPath(doc, qp) && ValidPath(doc, p) && At(doc, p).Element?
    requires RegularKeep(RegularPainted(doc, qp, QClass(side), colour), qp, QClass(side), stale).Ok?
    ensures var d := RegularPainted(doc, qp, QClass(side), colour);
      var m := Marked(d, RegularKeep(d, qp, QClass(side), stale).value, false, side);
      && ValidPath(m, p)
      && (GetAttr(At(m, p), "class"), GetAttr(At(m, p), "fill")) == RegularStyle(doc, qp, QClass(side), colour, p)
  {
    var d := RegularPainted(doc, qp, QClass(side), colour);
    RegularPaintedAt(doc, qp, QClass(side), colour, p);
    MarkedRegularOpacity(d, RegularKeep(d, qp, QClass(side), stale).value, side, p);
  }

  /** The class and the fill the element at `p` should have in the reverse
      mask of question `qi` of the set at `sp`: the set is a `qset`; the
      question is a `qshape` with the colour if it has a fill of its own, and
      otherwise every shape inside it is; the set's other shapes whose fill
      is `none`, and those inside a `g` question that kept its own fill, are
      white hiders. Every other element keeps its class and fill. */
  function ReverseStyle(doc: Node, sp: Path, qi: nat, colour: string, p: Path): (Option<string>, Option<string>)
    requires ValidPath(doc, sp) && ValidPath(doc, sp + [qi]) && ValidPath(doc, p)
  {
    var qp := sp + [qi];
    var q := AttrsOf(At(doc, qp));
    var o := At(doc, p);
    var inside := !HasFill(q) && p in ChildPaths(doc, qp);
    var hider := (p in HidersOf(doc, sp) && p != qp)
      || (TagOf(At(doc, qp)) == "g" && HasFill(q) && p in ChildPaths(doc, qp) && IsHider(o));
    (if p == qp || inside then Some("qshape")
     else if p == sp then Some("qset")
     else if hider then Some("hider")
     else GetAttr(o, "class"),
     if (p == qp && HasFill(q)) || inside then Some(colour)
     else if hider then Some(HiderCol)
     else GetAttr(o, "fill"))
  }

  /** In a reverse mask, for fill colours other than `none`, every element
      is styled as `ReverseStyle` says. */
  lemma ReverseMaskStyle(doc: Node, gi: nat, qi: nat, side: MaskType, qfill: string, afill: string, stale: bool, p: Path)
    requires side != O && ReverseMask(doc, gi, qi, side, qfill, afill, stale).Ok?
    requires qfill != "none" && afill != "none"
    requires ValidPath(doc, p) && At(doc, p).Element?
    ensures doc.Element? && |doc.children| >= 3 && ValidPath(doc, SecondPath(doc, gi)) && ValidPath(doc, SecondPath(doc, gi) + [qi])
    ensures ValidPath(ReverseMask(doc, gi, qi, side, qfill, afill, stale).value.doc, p)
    ensures var r := At(ReverseMask(doc, gi, qi, side, qfill, afill, stale).value.doc, p);
      (GetAttr(r, "class"), GetAttr(r, "fill")) == ReverseStyle(doc, SecondPath(doc, gi), qi, Colour(side, qfill, afill), p)
  {
    ReverseMaskLayers(doc, gi, qi, side, qfill, afill, stale);
    var l := |doc.children| - 2;
    ReverseMaskLayer(doc, gi, qi, side, qfill, afill, stale, l);
    ReverseMaskInParts(doc, l, gi, qi, side, Colour(side, qfill, afill), stale, SecondPath(doc, gi));
    ReverseStyleOf(doc, SecondPath(doc, gi), qi, side, Colour(side, qfill, afill), stale, p);
  }

  lemma ReverseStyleOf(doc: Node, sp: Path, qi: nat, side: MaskType, colour: string, stale: bool, p: Path)
    requires ValidPath(doc, sp) && |sp| == 2 && qi < |Kids(At(doc, sp))| && colour != "none"
    requires ValidPath(doc, p) && At(doc, p).Element?
    requires ValidPath(doc, sp + [qi])
    requires ReverseKeep(ReversePainted(doc, sp, sp + [qi], colour), sp, sp + [qi], stale).Ok?
    ensures var d := ReversePainted(doc, sp, sp + [qi], colour);
      var m := Marked(d, ReverseKeep(d, sp, sp + [qi], stale).value, true, side);
      && ValidPath(m, p)
      && (GetAttr(At(m, p), "class"), GetAttr(At(m, p), "fill")) == ReverseStyle(doc, sp, qi, colour, p)
  {
    var qp := sp + [qi];
    var d := ReversePainted(doc, sp, qp, colour);
    ReverseKeepMembers(doc, sp, qi, colour, stale, p);
    var keep := ReverseKeep(d, sp, qp, stale).value;
    ReversePaintedAt(doc, sp, qp, colour, p);
    MarkedReverseAt(d, keep, side, p);
    ReverseStyleCases(doc, sp, qi, colour, p, p in keep.ques, GetAttr(At(d, p), "class"), GetAttr(At(d, p), "fill"));
  }

  /** The reference style of a reverse mask, from whether the element is a
      preserved question shape and what the painting left on it. */
  lemma ReverseStyleCases(doc: Node, sp: Path, qi: nat, colour: string, p: Path, inQues: bool, pc: Option<string>, pf: Option<string>)
    requires ValidPath(doc, sp) && |sp| == 2 && ValidPath(doc, sp + [qi]) && ValidPath(doc, p) && colour != "none"
    requires var qp := sp + [qi];
      var q := AttrsOf(At(doc, qp));
      var o := At(doc, p);
      var inside := !HasFill(q) && p in ChildPaths(doc, qp);
      && (inQues <==> (TagOf(At(doc, qp)) == "rect" && p == qp) || (TagOf(At(doc, qp)) == "g" && p in ChildPaths(doc, qp)) || (p in HidersOf(doc, sp) && p != qp))
      && pc == (if p == qp || inside then Some("qshape") else if p == sp then Some("qset") else GetAttr(o, "class"))
      && pf == (if (p == qp && HasFill(q)) || inside then Some(colour) else GetAttr(o, "fill"))
    ensures var hider := inQues && pf == Some("none");
      (if hider then Some("hider") else pc, if hider then Some(HiderCol) else pf) == ReverseStyle(doc, sp, qi, colour, p)
  {
    var qp := sp + [qi];
    if p in HidersOf(doc, sp) {
      var j :| 0 <= j < |Kids(At(doc, sp))| && IsHider(Kids(At(doc, sp))[j]) && p == sp + [j];
      ChildPath(doc, sp, j);
      assert p !in ChildPaths(doc, qp);
    }
    if p in ChildPaths(doc, qp) {
      assert p != sp && p !in HidersOf(doc, sp);
    }
  }

}
