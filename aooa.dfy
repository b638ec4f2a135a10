/** The question and answer masks of the two basic occlusion types
    (`_createMaskAtLayernode` of `IoGenAO` and `IoGenOA`, ngen.py:492-497 and
    512-519), on the children of the mask layer.

    AO ("hide all, guess one"): the question mask restyles the one target
    node as a question; the answer mask removes it, so the others stay
    hidden. OA ("hide one, guess one"): the question mask removes every
    mask node but the target, which is restyled; the answer mask removes
    them all. */
module AoOa {
  import opened Wrappers
  import opened Svg
  import opened NoteIds
  import opened Numbering
  import opened Canon

  // ---------------------------------------------------------------- what a layer holds

  /** The children of a layer that are not mask nodes, in order. */
  function NonMask(cs: seq<Node>): (r: seq<Node>)
    ensures |r| <= |cs|
  {
    if cs == [] then []
    else (if IsMaskNode(cs[0]) then [] else [cs[0]]) + NonMask(cs[1..])
  }

  /** The number of mask nodes among the children of a layer. */
  function MaskCount(cs: seq<Node>): (n: nat)
    ensures n + |NonMask(cs)| == |cs|
  {
    if cs == [] then 0
    else (if IsMaskNode(cs[0]) then 1 else 0) + MaskCount(cs[1..])
  }

  lemma {:induction false} NonMaskAppend(a: seq<Node>, b: seq<Node>)
    ensures NonMask(a + b) == NonMask(a) + NonMask(b)
    ensures MaskCount(a + b) == MaskCount(a) + MaskCount(b)
  {
    if a != [] {
      assert (a + b)[0] == a[0];
      assert (a + b)[1..] == a[1..] + b;
      NonMaskAppend(a[1..], b);
    } else {
      assert a + b == b;
    }
  }

  /** The mask nodes of a layer sit exactly at the positions in `s`, as
      `mnode_indexes` records them. */
  ghost predicate MaskPositions(cs: seq<Node>, s: set<nat>) {
    forall p: nat :: p in s <==> p < |cs| && IsMaskNode(cs[p])
  }

  /** `_setQuestionAttribs` keeps a mask node a mask node. */
  lemma StyledIsMaskNode(c: Node, qfill: string)
    requires IsMaskNode(c)
    ensures IsMaskNode(SetQuestionAttribs(c, qfill))
    ensures IsMaskNode(SetAttr(SetQuestionAttribs(c, qfill), "class", "qshape"))
  {
    SetQuestionAttribsAt(c, qfill, []);
  }

  // ---------------------------------------------------------------- AO

  /** `IoGenAO._createMaskAtLayernode`: `childNodes[idx]` raises IndexError
      past the end; "Q" restyles the node, "A" removes it, any other side
      leaves the layer alone. */
  function AoMaskLayer(cs: seq<Node>, side: MaskType, idx: nat, qfill: string): (r: Result<seq<Node>>)
    ensures r.Err? <==> idx >= |cs|
  {
    if idx >= |cs| then Err(IndexOutOfRange)
    else
      match side
      case Q => Ok(cs[idx := SetQuestionAttribs(cs[idx], qfill)])
      case A => Ok(cs[..idx] + cs[idx + 1..])
      case O => Ok(cs)
  }

  /** The AO question mask restyles the target and nothing else: every
      other child, mask node or not, is unchanged and in place. */
  lemma AoQuestionRestylesOnlyTarget(cs: seq<Node>, idx: nat, qfill: string)
    requires idx < |cs| && IsMaskNode(cs[idx])
    ensures var r := AoMaskLayer(cs, Q, idx, qfill).value;
      && |r| == |cs|
      && r[idx] == SetQuestionAttribs(cs[idx], qfill)
      && (forall k :: 0 <= k < |cs| && k != idx ==> r[k] == cs[k])
      && MaskCount(r) == MaskCount(cs)
      && NonMask(r) == NonMask(cs)
  {
    var r := AoMaskLayer(cs, Q, idx, qfill).value;
    StyledIsMaskNode(cs[idx], qfill);
    assert cs == cs[..idx] + [cs[idx]] + cs[idx + 1..];
    assert r == cs[..idx] + [r[idx]] + cs[idx + 1..];
    NonMaskAppend(cs[..idx] + [cs[idx]], cs[idx + 1..]);
    NonMaskAppend(cs[..idx], [cs[idx]]);
    NonMaskAppend(cs[..idx] + [r[idx]], cs[idx + 1..]);
    NonMaskAppend(cs[..idx], [r[idx]]);
  }

  /** The AO answer mask removes exactly the target: one mask node fewer,
      every other child kept in order. */
  lemma AoAnswerRemovesTarget(cs: seq<Node>, idx: nat, qfill: string)
    requires idx < |cs| && IsMaskNode(cs[idx])
    ensures var r := AoMaskLayer(cs, A, idx, qfill).value;
      && |r| == |cs| - 1
      && (forall k :: 0 <= k < idx ==> r[k] == cs[k])
      && (forall k :: idx <= k < |r| ==> r[k] == cs[k + 1])
      && MaskCount(r) == MaskCount(cs) - 1
      && NonMask(r) == NonMask(cs)
  {
    var a, b := cs[..idx], cs[idx + 1..];
    assert cs == a + [cs[idx]] + b;
    assert AoMaskLayer(cs, A, idx, qfill).value == a + b;
    DropMaskNode(a, cs[idx], b);
  }

  /** Dropping one mask node from between `a` and `b` keeps every other
      child and leaves one mask node fewer. */
  lemma DropMaskNode(a: seq<Node>, x: Node, b: seq<Node>)
    requires IsMaskNode(x)
    ensures NonMask(a + [x] + b) == NonMask(a + b)
    ensures MaskCount(a + b) == MaskCount(a + [x] + b) - 1
  {
    NonMaskAppend(a + [x], b);
    NonMaskAppend(a, [x]);
    assert NonMask([x]) == [];
    NonMaskAppend(a, b);
  }

  // ---------------------------------------------------------------- OA

  /** The question styling OA gives its target: `_setQuestionAttribs`, then
      `class="qshape"` once more (which also reaches a `text` target). */
  function OaStyle(c: Node, qfill: string): Node {
    SetAttr(SetQuestionAttribs(c, qfill), "class", "qshape")
  }

  /** What becomes of child `p` in the OA mask: a mask node is removed,
      unless it is the target of a question mask; other children stay. */
  function OaEmit(cs: seq<Node>, s: set<nat>, target: nat, side: MaskType, qfill: string, p: nat): seq<Node>
    requires p < |cs|
  {
    if p !in s then [cs[p]]
    else if p == target && side == Q then [OaStyle(cs[p], qfill)]
    else []
  }

  /** The OA mask layer from child `p` on: the specification the reversed
      removal loop is proved against. */
  function OaOut(cs: seq<Node>, s: set<nat>, target: nat, side: MaskType, qfill: string, p: nat): seq<Node>
    decreases |cs| - p
  {
    if p >= |cs| then [] else OaEmit(cs, s, target, side, qfill, p) + OaOut(cs, s, target, side, qfill, p + 1)
  }

  /** A stretch without mask positions passes into the mask unchanged. */
  lemma {:induction false} OaOutSkip(cs: seq<Node>, s: set<nat>, target: nat, side: MaskType, qfill: string, a: nat, b: nat)
    requires a <= b <= |cs|
    requires forall p :: a <= p < b ==> p !in s
    ensures OaOut(cs, s, target, side, qfill, a) == cs[a..b] + OaOut(cs, s, target, side, qfill, b)
    decreases b - a
  {
    if a < b {
      OaOutSkip(cs, s, target, side, qfill, a + 1, b);
      assert OaEmit(cs, s, target, side, qfill, a) == [cs[a]];
      assert OaOut(cs, s, target, side, qfill, a) == [cs[a]] + OaOut(cs, s, target, side, qfill, a + 1);
      assert cs[a..b] == [cs[a]] + cs[a + 1..b];
    }
  }

  /** One step of the reversed loop: handling position `i`, the last
      recorded one below `lo`, extends the finished suffix down to `i`. */
  lemma OaStep(cs: seq<Node>, s: set<nat>, target: nat, side: MaskType, qfill: string, i: nat, lo: nat)
    requires i < lo <= |cs| && i in s
    requires forall p :: i < p < lo ==> p !in s
    ensures var cur := cs[..lo] + OaOut(cs, s, target, side, qfill, lo);
      (if i == target && side == Q then cur[i := OaStyle(cur[i], qfill)] else cur[..i] + cur[i + 1..])
        == cs[..i] + OaOut(cs, s, target, side, qfill, i)
  {
    var x := OaOut(cs, s, target, side, qfill, lo);
    var a := cs[..lo];
    OaOutSkip(cs, s, target, side, qfill, i + 1, lo);
    var e := OaEmit(cs, s, target, side, qfill, i);
    assert e == if i == target && side == Q then [OaStyle(cs[i], qfill)] else [];
    assert OaOut(cs, s, target, side, qfill, i) == e + (cs[i + 1..lo] + x);
    assert a[..i] == cs[..i] && a[i + 1..] == cs[i + 1..lo] && a[i] == cs[i];
    SpliceAt(a, x, i, e);
  }

  /** Replacing element `i` of `a + x`, for `i` inside `a`, by zero or one
      elements. */
  lemma SpliceAt(a: seq<Node>, x: seq<Node>, i: nat, e: seq<Node>)
    requires i < |a| && |e| <= 1
    ensures var cur := a + x;
      (if |e| == 1 then cur[i := e[0]] else cur[..i] + cur[i + 1..]) == a[..i] + (e + (a[i + 1..] + x))
  {
    var cur := a + x;
    assert cur[..i] == a[..i];
    assert cur[i + 1..] == a[i + 1..] + x;
    if |e| == 1 {
      assert cur[i := e[0]] == cur[..i] + e + cur[i + 1..];
    } else {
      assert e == [];
    }
  }

  /** `IoGenOA._createMaskAtLayernode`: walks `mnode_indexes` from the last
      to the first, restyling the target of a question mask and removing
      every other mask node; going backwards, each removal leaves the
      positions still to be visited where they were. An index past the
      layer's end raises IndexError on the first step. */
  method OaMaskLayer(cs: seq<Node>, indexes: seq<nat>, target: nat, side: MaskType, qfill: string)
    returns (r: Result<seq<Node>>)
    requires Ascending(indexes)
    ensures r.Err? <==> |indexes| > 0 && indexes[|indexes| - 1] >= |cs|
    ensures r.Err? ==> r.error == IndexOutOfRange
    ensures r.Ok? ==> r.value == OaOut(cs, Positions(indexes), target, side, qfill, 0)
  {
    ghost var s := Positions(indexes);
    var cur := cs;
    var t := |indexes|;
    ghost var lo := |cs|;
    while t > 0
      invariant 0 <= t <= |indexes| && lo <= |cs|
      invariant t < |indexes| ==> lo == indexes[t]
      invariant t == |indexes| ==> lo == |cs|
      invariant t < |indexes| ==> indexes[|indexes| - 1] < |cs|
      invariant cur == cs[..lo] + OaOut(cs, s, target, side, qfill, lo)
    {
      var i := indexes[t - 1];
      if t < |indexes| {
        AscendingAt(indexes, t - 1, t);
      }
      if i >= |cur| {
        return Err(IndexOutOfRange);
      }
      forall p | i < p < lo ensures p !in s {
        AscendingGap(indexes, t, p);
      }
      OaStep(cs, s, target, side, qfill, i, lo);
      if i == target && side == Q {
        cur := cur[i := OaStyle(cur[i], qfill)];
      } else {
        cur := cur[..i] + cur[i + 1..];
      }
      t := t - 1;
      lo := i;
    }
    forall p | 0 <= p < lo ensures p !in s {
      if 0 < |indexes| {
        AscendingFirst(indexes, p);
      }
    }
    OaOutSkip(cs, s, target, side, qfill, 0, lo);
    return Ok(cur);
  }

  /** The OA answer mask keeps no mask node at all, and every other child
      in order. */
  lemma {:induction false} OaAnswerRemovesAll(cs: seq<Node>, s: set<nat>, target: nat, qfill: string, p: nat)
    requires MaskPositions(cs, s) && p <= |cs|
    ensures OaOut(cs, s, target, A, qfill, p) == NonMask(cs[p..])
    ensures MaskCount(OaOut(cs, s, target, A, qfill, p)) == 0
    decreases |cs| - p
  {
    if p < |cs| {
      OaAnswerRemovesAll(cs, s, target, qfill, p + 1);
      assert cs[p..][1..] == cs[p + 1..];
    }
    NoMaskInNonMask(cs[p..]);
  }

  lemma {:induction false} NoMaskInNonMask(cs: seq<Node>)
    ensures MaskCount(NonMask(cs)) == 0
  {
    if cs != [] {
      NoMaskInNonMask(cs[1..]);
      NonMaskAppend(if IsMaskNode(cs[0]) then [] else [cs[0]], NonMask(cs[1..]));
    }
  }

  /** The OA question mask keeps every child that is not a mask node, in
      order, and exactly one mask node: the restyled target. */
  lemma {:induction false} OaQuestionKeepsTarget(cs: seq<Node>, s: set<nat>, target: nat, qfill: string, p: nat)
    requires MaskPositions(cs, s) && target in s && p <= |cs|
    ensures NonMask(OaOut(cs, s, target, Q, qfill, p)) == NonMask(cs[p..])
    ensures MaskCount(OaOut(cs, s, target, Q, qfill, p)) == if p <= target then 1 else 0
    ensures p <= target ==> OaStyle(cs[target], qfill) in OaOut(cs, s, target, Q, qfill, p)
    decreases |cs| - p
  {
    if p < |cs| {
      OaQuestionKeepsTarget(cs, s, target, qfill, p + 1);
      assert cs[p..] == [cs[p]] + cs[p + 1..];
      NonMaskAppend([cs[p]], cs[p + 1..]);
      var e := OaEmit(cs, s, target, Q, qfill, p);
      NonMaskAppend(e, OaOut(cs, s, target, Q, qfill, p + 1));
      if p == target {
        StyledIsMaskNode(cs[p], qfill);
      }
    }
  }
}
