/** `ImgOccNoteGenerator._getMnodesAndSetIds` (ngen.py:202-248): the mask
    layer of the basic (AO/OA) generators, canonicalised. In create mode
    microscopic rectangles are dropped and the remaining mask nodes are
    numbered `{occl_id}-1`, `{occl_id}-2`, ... in document order; in edit
    mode their `id` attributes are read back. Every mask node loses the
    opacity attributes, and the members of a group lose their ids.

    The layer is processed child by child, as the source does; the function
    here is the specification the loop of `Generator.NoteGenerator` is
    proved against. */
module Canon {
  import opened Wrappers
  import opened Text
  import opened Svg
  import opened NoteIds
  import opened Numbering

  /** `stripattr` of the basic generators (ngen.py:66). */
  const BaseStripAttr: set<string> := {"opacity", "stroke-opacity", "fill-opacity"}

  /** A child of the mask layer that is a mask node: an element other than
      `title` (whitespace text nodes and titles are skipped). */
  predicate IsMaskNode(c: Node) {
    c.Element? && c.tag != "title"
  }

  // ---------------------------------------------------------------- _layerNodesFrom

  /** The position of the last element child, if any. */
  function LastElement(cs: seq<Node>): (r: Option<nat>)
    ensures r.Some? ==> r.value < |cs| && cs[r.value].Element?
    ensures r.Some? ==> forall j :: r.value < j < |cs| ==> cs[j].Text?
    ensures r.None? ==> forall j :: 0 <= j < |cs| ==> cs[j].Text?
  {
    if |cs| == 0 then None
    else if cs[|cs| - 1].Element? then Some(|cs| - 1)
    else LastElement(cs[..|cs| - 1])
  }

  /** `_layerNodesFrom(svg_node)[-1]` (ngen.py:192-200): the position, among
      the root's children, of the topmost layer, which must be a group under
      an `svg` root; a failed assertion is `BadLayers`. */
  function MaskLayerPos(doc: Node): (r: Result<nat>)
    ensures r.Ok? ==> doc.Element? && doc.tag == "svg"
    ensures r.Ok? ==> r.value < |doc.children| && doc.children[r.value].Element? && doc.children[r.value].tag == "g"
    ensures r.Ok? ==> forall j :: r.value < j < |doc.children| ==> doc.children[j].Text?
    ensures r.Err? ==> r.error == BadLayers
  {
    if !(doc.Element? && doc.tag == "svg") then Err(BadLayers)
    else match LastElement(doc.children)
      case None => Err(BadLayers)
      case Some(i) => if doc.children[i].tag == "g" then Ok(i) else Err(BadLayers)
  }

  // ---------------------------------------------------------------- the microscopic-shape filter

  /** The rectangle side read at ngen.py:223-228: `0` when the attribute is
      missing, else its value as a float. */
  function RectDim(c: Node, k: string): Result<real> {
    match GetAttr(c, k)
    case None => Ok(0.0)
    case Some(v) =>
      match ParseReal(v)
      case None => Err(NotANumber(v))
      case Some(x) => Ok(x)
  }

  /** Whether create mode drops `c` as accidentally drawn (ngen.py:221-234):
      only a `rect` can be dropped, and it is dropped when a side is missing
      or zero, or when it covers at most 0.01 percent of the canvas. Both
      sides are read before the test; the division by a zero canvas area
      raises. */
  function IsMicro(c: Node, carea: real): Result<bool> {
    if !(IsMaskNode(c) && c.tag == "rect") then Ok(false)
    else
      match RectDim(c, "height")
      case Err(e) => Err(e)
      case Ok(h) =>
        match RectDim(c, "width")
        case Err(e) => Err(e)
        case Ok(w) =>
          if h == 0.0 || w == 0.0 then Ok(true)
          else if carea == 0.0 then Err(ZeroCanvas)
          else Ok(Tiny(h, w, carea))
  }

  /** `100 * h * w / canvas_area <= 0.01`, the area at most 0.01 percent of
      the canvas. */
  predicate Tiny(h: real, w: real, carea: real)
    requires carea != 0.0
  {
    100.0 * (h * w) / carea <= 0.01
  }

  /** Only rectangles are ever dropped: other shapes, groups, titles and text
      nodes are kept whatever their size. */
  lemma OnlyRectsAreDropped(c: Node, carea: real)
    requires !(c.Element? && c.tag == "rect")
    ensures IsMicro(c, carea) == Ok(false)
  {
  }

  /** A rectangle that lacks its height (and has a readable or missing
      width) is always dropped, whatever the canvas. */
  lemma MissingHeightIsDropped(c: Node, carea: real)
    requires c.Element? && c.tag == "rect" && "height" !in c.attrs
    requires "width" in c.attrs ==> ParseReal(c.attrs["width"]).Some?
    ensures IsMicro(c, carea) == Ok(true)
  {
  }

  /** For a positive canvas, "at most 0.01 percent of the canvas" is
      "at most a ten-thousandth of its area". */
  lemma RatioTest(h: real, w: real, a: real)
    requires a > 0.0
    ensures Tiny(h, w, a) <==> h * w <= a / 10000.0
  {
    var x := h * w;
    var q := 100.0 * x / a;
    assert q * a == 100.0 * x;
    if q <= 0.01 {
      assert (0.01 - q) * a >= 0.0;
    } else {
      assert (q - 0.01) * a > 0.0;
    }
  }

  /** A rectangle of positive size on a positive canvas is kept exactly when
      its area exceeds a ten-thousandth of the canvas area. */
  lemma LargeRectIsKept(c: Node, carea: real, h: real, w: real)
    requires c.Element? && c.tag == "rect"
    requires "height" in c.attrs && ParseReal(c.attrs["height"]) == Some(h)
    requires "width" in c.attrs && ParseReal(c.attrs["width"]) == Some(w)
    requires h > 0.0 && w > 0.0 && carea > 0.0
    ensures IsMicro(c, carea) == Ok(h * w <= carea / 10000.0)
  {
    MicroRect(c, carea, h, w);
    RatioTest(h, w, carea);
  }

  /** The size test of a rectangle whose sides are both read and non-zero. */
  lemma MicroRect(c: Node, carea: real, h: real, w: real)
    requires c.Element? && c.tag == "rect" && RectDim(c, "height") == Ok(h) && RectDim(c, "width") == Ok(w)
    requires h != 0.0 && w != 0.0 && carea != 0.0
    ensures IsMicro(c, carea) == Ok(Tiny(h, w, carea))
  {
  }

  // ---------------------------------------------------------------- one mask node

  /** The attribute clean-up every kept mask node receives (ngen.py:236-240):
      the opacity attributes go from the node and all its descendants, and
      the ids go from the members of a group. */
  function Prepare(c: Node): Node {
    var s := RemoveAttribs(c, BaseStripAttr);
    if s.Element? && s.tag == "g" then
      s.(children := seq(|s.children|, i requires 0 <= i < |s.children| => RemoveAttribs(s.children[i], {"id"})))
    else s
  }

  /** Clean-up keeps the node's kind and tag, and its own attributes lose
      exactly the opacity attributes. */
  lemma PrepareKeeps(c: Node)
    ensures Prepare(c).Element? == c.Element?
    ensures TagOf(Prepare(c)) == TagOf(c)
    ensures AttrsOf(Prepare(c)) == AttrsOf(c) - BaseStripAttr
  {
    RemoveAttribsAt(c, BaseStripAttr, []);
  }

  /** The mask layer as far as it has been processed: its new children, the
      positions of the mask nodes among them (`mnode_indexes`), and the id
      of each (`mnode_ids`, in the same order). */
  datatype Layer = Layer(children: seq<Node>, indexes: seq<nat>, ids: seq<string>)

  /** One iteration of the loop at ngen.py:215-246 (with the index the loop
      evidently intends: the node's position in the filtered layer). */
  function Step(o: Layer, c: Node, edit: bool, carea: real, occlId: string): Result<Layer> {
    if !IsMaskNode(c) then Ok(o.(children := o.children + [c]))
    else
      var micro := if edit then Ok(false) else IsMicro(c, carea);
      if micro.Err? then Err(micro.error)
      else if micro.value then Ok(o)
      else
        var m := Prepare(c);
        if !edit then
          var id := BaseNoteId(occlId, NatToString(|o.indexes| + 1));
          Ok(Layer(o.children + [SetAttr(m, "id", id)], o.indexes + [|o.children|], o.ids + [id]))
        else
          match GetAttr(m, "id")
          case None => Err(MissingAttribute("id"))
          case Some(id) => Ok(Layer(o.children + [m], o.indexes + [|o.children|], o.ids + [id]))
  }

  /** The mask layer after the loop has seen every child in `cs`. */
  function CanonLayer(cs: seq<Node>, edit: bool, carea: real, occlId: string): (r: Result<Layer>)
    ensures r.Ok? ==> |r.value.ids| == |r.value.indexes|
  {
    if cs == [] then Ok(Layer([], [], []))
    else
      match CanonLayer(cs[..|cs| - 1], edit, carea, occlId)
      case Err(e) => Err(e)
      case Ok(o) => Step(o, cs[|cs| - 1], edit, carea, occlId)
  }

  /** `carea = height * width` (ngen.py:210). */
  function Area(h: real, w: real): real {
    h * w
  }

  /** The whole of `_getMnodesAndSetIds`: read the canvas size, find the mask
      layer and canonicalise it; the result is the new document and the
      layer's mask nodes. */
  function GetMnodesAndSetIds(doc: Node, edit: bool, occlId: string): (r: Result<(Node, Layer)>)
    ensures r.Ok? ==> |r.value.1.ids| == |r.value.1.indexes|
  {
    match FloatAttr(doc, "height")
    case Err(e) => Err(e)
    case Ok(ch) =>
      match FloatAttr(doc, "width")
      case Err(e) => Err(e)
      case Ok(cw) =>
        match MaskLayerPos(doc)
        case Err(e) => Err(e)
        case Ok(pos) =>
          var layer := doc.children[pos];
          match CanonLayer(layer.children, edit, Area(ch, cw), occlId)
          case Err(e) => Err(e)
          case Ok(l) => Ok((doc.(children := doc.children[pos := layer.(children := l.children)]), l))
  }

  // ---------------------------------------------------------------- properties

  /** `mnode_indexes` point, in increasing order, at exactly the mask nodes
      of the new layer, and each of them carries the id recorded for it. */
  ghost predicate WellFormed(l: Layer) {
    && |l.ids| == |l.indexes|
    && (forall j :: 0 <= j < |l.indexes| ==> l.indexes[j] < |l.children| && IsMaskNode(l.children[l.indexes[j]]))
    && Ascending(l.indexes)
    && (forall i :: 0 <= i < |l.children| && IsMaskNode(l.children[i]) ==>
          exists j :: 0 <= j < |l.indexes| && l.indexes[j] == i)
    && (forall j :: 0 <= j < |l.indexes| ==> GetAttr(l.children[l.indexes[j]], "id") == Some(l.ids[j]))
  }

  /** Appending a child that is not a mask node keeps the layer well formed. */
  lemma AppendOtherWellFormed(o: Layer, c: Node)
    requires WellFormed(o) && !IsMaskNode(c)
    ensures WellFormed(o.(children := o.children + [c]))
  {
    var l := o.(children := o.children + [c]);
    forall i | 0 <= i < |l.children| && IsMaskNode(l.children[i])
      ensures exists j :: 0 <= j < |l.indexes| && l.indexes[j] == i
    {
      assert o.children[i] == l.children[i];
    }
  }

  /** Appending a mask node that carries its id keeps the layer well formed. */
  lemma AppendMaskWellFormed(o: Layer, m: Node, id: string)
    requires WellFormed(o) && IsMaskNode(m) && GetAttr(m, "id") == Some(id)
    ensures WellFormed(Layer(o.children + [m], o.indexes + [|o.children|], o.ids + [id]))
  {
    var l := Layer(o.children + [m], o.indexes + [|o.children|], o.ids + [id]);
    var n := |o.children|;
    AscendingAppend(o.indexes, n);
    forall i | 0 <= i < |l.children| && IsMaskNode(l.children[i])
      ensures exists j :: 0 <= j < |l.indexes| && l.indexes[j] == i
    {
      if i == n {
        assert l.indexes[|o.indexes|] == i;
      } else {
        assert o.children[i] == l.children[i];
        var j :| 0 <= j < |o.indexes| && o.indexes[j] == i;
        assert l.indexes[j] == i;
      }
    }
    forall j | 0 <= j < |l.indexes|
      ensures GetAttr(l.children[l.indexes[j]], "id") == Some(l.ids[j])
    {
      if j < |o.indexes| {
        assert l.children[o.indexes[j]] == o.children[o.indexes[j]];
      }
    }
  }

  /** One step keeps the layer well formed. */
  lemma StepWellFormed(o: Layer, c: Node, edit: bool, carea: real, occlId: string)
    requires WellFormed(o)
    ensures Step(o, c, edit, carea, occlId).Ok? ==> WellFormed(Step(o, c, edit, carea, occlId).value)
  {
    PrepareKeeps(c);
    if !IsMaskNode(c) {
      AppendOtherWellFormed(o, c);
    } else if !edit {
      var id := BaseNoteId(occlId, NatToString(|o.indexes| + 1));
      AppendMaskWellFormed(o, SetAttr(Prepare(c), "id", id), id);
    } else if GetAttr(Prepare(c), "id").Some? {
      AppendMaskWellFormed(o, Prepare(c), GetAttr(Prepare(c), "id").value);
    }
  }

  lemma {:induction false} CanonLayerWellFormed(cs: seq<Node>, edit: bool, carea: real, occlId: string)
    ensures CanonLayer(cs, edit, carea, occlId).Ok? ==> WellFormed(CanonLayer(cs, edit, carea, occlId).value)
  {
    if cs != [] {
      CanonLayerWellFormed(cs[..|cs| - 1], edit, carea, occlId);
      var r := CanonLayer(cs[..|cs| - 1], edit, carea, occlId);
      if r.Ok? {
        StepWellFormed(r.value, cs[|cs| - 1], edit, carea, occlId);
      }
    }
  }

  /** Create mode numbers the kept mask nodes densely: the j-th (from 0) is
      `{occl_id}-{j+1}`, and the number reads back out of the id. */
  lemma {:induction false} CreateIdsDense(cs: seq<Node>, carea: real, occlId: string)
    ensures CanonLayer(cs, false, carea, occlId).Ok? ==>
      var l := CanonLayer(cs, false, carea, occlId).value;
      && |l.ids| == |l.indexes|
      && forall j :: 0 <= j < |l.ids| ==>
           l.ids[j] == BaseNoteId(occlId, NatToString(j + 1)) && BaseNoteNr(l.ids[j]) == Some(j + 1)
  {
    if cs != [] {
      var init := cs[..|cs| - 1];
      CreateIdsDense(init, carea, occlId);
      var r := CanonLayer(cs, false, carea, occlId);
      if r.Ok? {
        var o := CanonLayer(init, false, carea, occlId).value;
        var l := r.value;
        CreateStepIds(o, cs[|cs| - 1], carea, occlId);
        forall j | 0 <= j < |l.ids|
          ensures l.ids[j] == BaseNoteId(occlId, NatToString(j + 1)) && BaseNoteNr(l.ids[j]) == Some(j + 1)
        {
          if j < |o.ids| {
            assert l.ids[j] == o.ids[j];
          }
          BaseNoteNrRoundTrip(occlId, j + 1);
        }
      }
    }
  }

  /** In create mode a step adds no id, or the next one in sequence. */
  lemma CreateStepIds(o: Layer, c: Node, carea: real, occlId: string)
    requires |o.ids| == |o.indexes| && Step(o, c, false, carea, occlId).Ok?
    ensures var l := Step(o, c, false, carea, occlId).value;
      |l.ids| == |l.indexes| && (l.ids == o.ids || l.ids == o.ids + [BaseNoteId(occlId, NatToString(|o.ids| + 1))])
  {
  }

  /** The children create mode keeps: everything except the rectangles the
      filter drops. */
  ghost function Survivors(cs: seq<Node>, carea: real): seq<Node> {
    if cs == [] then []
    else Survivors(cs[..|cs| - 1], carea) + (if IsMicro(cs[|cs| - 1], carea) == Ok(true) then [] else [cs[|cs| - 1]])
  }

  /** Filter, then number: the create-mode layer is the surviving children in
      their order, the mask nodes among them cleaned up and given their ids,
      everything else untouched. */
  lemma {:induction false} CreateKeepsSurvivors(cs: seq<Node>, carea: real, occlId: string)
    ensures CanonLayer(cs, false, carea, occlId).Ok? ==>
      var l := CanonLayer(cs, false, carea, occlId).value;
      var f := Survivors(cs, carea);
      && |l.children| == |f|
      && (forall i :: 0 <= i < |f| ==> IsMaskNode(l.children[i]) == IsMaskNode(f[i]))
      && (forall i :: 0 <= i < |f| && !IsMaskNode(f[i]) ==> l.children[i] == f[i])
      && (forall j :: 0 <= j < |l.indexes| && j < |l.ids| && l.indexes[j] < |f| ==>
            l.children[l.indexes[j]] == SetAttr(Prepare(f[l.indexes[j]]), "id", l.ids[j]))
  {
    if cs != [] {
      var init := cs[..|cs| - 1];
      CreateKeepsSurvivors(init, carea, occlId);
      CanonLayerWellFormed(init, false, carea, occlId);
      PrepareKeeps(cs[|cs| - 1]);
    }
  }

  /** Edit mode drops nothing and takes every mask node's id verbatim. */
  lemma {:induction false} EditKeepsIds(cs: seq<Node>, carea: real, occlId: string)
    ensures CanonLayer(cs, true, carea, occlId).Ok? ==>
      var l := CanonLayer(cs, true, carea, occlId).value;
      && |l.children| == |cs|
      && (forall i :: 0 <= i < |cs| ==> l.children[i] == if IsMaskNode(cs[i]) then Prepare(cs[i]) else cs[i])
      && (forall j :: 0 <= j < |l.indexes| && j < |l.ids| ==>
            l.indexes[j] < |cs| && GetAttr(cs[l.indexes[j]], "id") == Some(l.ids[j]))
  {
    if cs != [] {
      var init := cs[..|cs| - 1];
      var c := cs[|cs| - 1];
      EditKeepsIds(init, carea, occlId);
      CanonLayerWellFormed(init, true, carea, occlId);
      var r := CanonLayer(cs, true, carea, occlId);
      if r.Ok? {
        var o := CanonLayer(init, true, carea, occlId).value;
        var l := r.value;
        PrepareKeeps(c);
        assert l.children == o.children + [if IsMaskNode(c) then Prepare(c) else c];
        forall i | 0 <= i < |cs|
          ensures l.children[i] == if IsMaskNode(cs[i]) then Prepare(cs[i]) else cs[i]
        {
          if i < |init| { assert cs[i] == init[i]; }
        }
        forall j | 0 <= j < |l.indexes| && j < |l.ids|
          ensures l.indexes[j] < |cs| && GetAttr(cs[l.indexes[j]], "id") == Some(l.ids[j])
        {
          if j < |o.indexes| {
            assert l.indexes[j] == o.indexes[j] && l.ids[j] == o.ids[j];
            assert cs[o.indexes[j]] == init[o.indexes[j]];
          }
        }
      }
    }
  }

  /** Edit mode fails exactly when some mask node has no id. */
  lemma {:induction false} EditFailsIffIdMissing(cs: seq<Node>, carea: real, occlId: string)
    ensures CanonLayer(cs, true, carea, occlId).Err? <==>
      exists i :: 0 <= i < |cs| && IsMaskNode(cs[i]) && "id" !in cs[i].attrs
  {
    if cs != [] {
      var init := cs[..|cs| - 1];
      var c := cs[|cs| - 1];
      EditFailsIffIdMissing(init, carea, occlId);
      PrepareKeeps(c);
      if exists i :: 0 <= i < |init| && IsMaskNode(init[i]) && "id" !in init[i].attrs {
        var i :| 0 <= i < |init| && IsMaskNode(init[i]) && "id" !in init[i].attrs;
        assert cs[i] == init[i];
      }
      if exists i :: 0 <= i < |cs| && IsMaskNode(cs[i]) && "id" !in cs[i].attrs {
        var i :| 0 <= i < |cs| && IsMaskNode(cs[i]) && "id" !in cs[i].attrs;
        if i < |init| { assert init[i] == cs[i]; }
      }
    }
  }
}
