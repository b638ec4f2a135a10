/** The basic note generator (`ImgOccNoteGenerator` with its `IoGenAO` and
    `IoGenOA` subclasses, ngen.py:64-519) as an object whose methods update
    its fields the way the source's do: `mnode_indexes`, `mnode_ids`,
    `nids`, `uniq_id`, `occl_id` and `new_svg`.

    Each method is proved against the specification functions of `Canon`
    (the mask layer), `Reconcile` (notes to delete and new numbers) and
    `AoOa` (the masks). The collection's note search, the clock, the user's
    confirmation and the original mask file are parameters. */
module Generator {
  import opened Wrappers
  import opened Text
  import opened Svg
  import opened NoteIds
  import opened Numbering
  import opened Canon
  import opened Reconcile
  import opened AoOa
  import opened Dispatch

  // ---------------------------------------------------------------- `mnode_ids`

  /** `mnode_ids` as the loops fill it: the position of each mask node in
      the layer maps to its id. */
  function IdMap(indexes: seq<nat>, vals: seq<string>): (m: map<nat, string>)
    requires |indexes| == |vals|
    ensures m.Keys == Positions(indexes)
  {
    if indexes == [] then map[]
    else
      var n := |indexes| - 1;
      assert Positions(indexes) == Positions(indexes[..n]) + {indexes[n]} by {
        assert indexes == indexes[..n] + [indexes[n]];
      }
      IdMap(indexes[..n], vals[..n])[indexes[n] := vals[n]]
  }

  /** `[mnode_ids[idx] for idx in mnode_indexes]`. */
  function ValuesAt(m: map<nat, string>, indexes: seq<nat>): (r: seq<string>)
    requires forall t :: 0 <= t < |indexes| ==> indexes[t] in m
    ensures |r| == |indexes|
  {
    seq(|indexes|, t requires 0 <= t < |indexes| => m[indexes[t]])
  }

  /** Each position finds the id recorded with it. */
  lemma {:induction false} IdMapAt(indexes: seq<nat>, vals: seq<string>, j: nat)
    requires |indexes| == |vals| && Ascending(indexes) && j < |indexes|
    ensures IdMap(indexes, vals)[indexes[j]] == vals[j]
  {
    var n := |indexes| - 1;
    if j < n {
      AscendingPrefix(indexes, n);
      IdMapAt(indexes[..n], vals[..n], j);
      AscendingAt(indexes, j, n);
    }
  }

  /** Reading `mnode_ids` back along `mnode_indexes` gives the ids in order. */
  lemma {:induction false} IdMapValues(indexes: seq<nat>, vals: seq<string>)
    requires |indexes| == |vals| && Ascending(indexes)
    ensures ValuesAt(IdMap(indexes, vals), indexes) == vals
  {
    forall t | 0 <= t < |indexes| ensures IdMap(indexes, vals)[indexes[t]] == vals[t] {
      IdMapAt(indexes, vals, t);
    }
  }

  /** A map keyed by exactly the positions is rebuilt from its values
      read along them. */
  lemma {:induction false} IdMapOfValues(m: map<nat, string>, indexes: seq<nat>)
    requires Ascending(indexes) && m.Keys == Positions(indexes)
    ensures IdMap(indexes, ValuesAt(m, indexes)) == m
  {
    var vals := ValuesAt(m, indexes);
    forall x | x in m.Keys ensures IdMap(indexes, vals)[x] == m[x] {
      var t :| 0 <= t < |indexes| && indexes[t] == x;
      IdMapAt(indexes, vals, t);
    }
  }

  /** `mnode_ids[idx] = v` for the `j`-th index. */
  lemma {:induction false} IdMapUpdate(indexes: seq<nat>, vals: seq<string>, j: nat, v: string)
    requires |indexes| == |vals| && Ascending(indexes) && j < |indexes|
    ensures IdMap(indexes, vals[j := v]) == IdMap(indexes, vals)[indexes[j] := v]
  {
    var a, b := IdMap(indexes, vals[j := v]), IdMap(indexes, vals)[indexes[j] := v];
    forall x | x in a.Keys ensures a[x] == b[x] {
      var t :| 0 <= t < |indexes| && indexes[t] == x;
      IdMapAt(indexes, vals[j := v], t);
      IdMapAt(indexes, vals, t);
      if t != j {
        AscendingDistinct(indexes, t, j);
      }
    }
  }

  // ---------------------------------------------------------------- the layer after the loop

  /** Once a child has failed the loop, the whole layer fails the same way. */
  lemma {:induction false} CanonLayerErrSticks(cs: seq<Node>, edit: bool, carea: real, occlId: string, i: nat)
    requires i <= |cs| && CanonLayer(cs[..i], edit, carea, occlId).Err?
    ensures CanonLayer(cs, edit, carea, occlId) == CanonLayer(cs[..i], edit, carea, occlId)
    decreases |cs| - i
  {
    if i < |cs| {
      assert cs[..i + 1][..i] == cs[..i];
      CanonLayerErrSticks(cs, edit, carea, occlId, i + 1);
    } else {
      assert cs[..i] == cs;
    }
  }

  /** The document with the children of its layer `pos` replaced. */
  function WithLayer(doc: Node, pos: nat, cs: seq<Node>): Node
    requires doc.Element? && pos < |doc.children| && doc.children[pos].Element?
  {
    doc.(children := doc.children[pos := doc.children[pos].(children := cs)])
  }

  /** `mnode.setAttribute("id", ids[t])` for the first `j` recorded nodes. */
  function SetIds(cs: seq<Node>, indexes: seq<nat>, ids: seq<string>, j: nat): (r: seq<Node>)
    requires j <= |ids| && j <= |indexes|
    requires forall t :: 0 <= t < |indexes| ==> indexes[t] < |cs|
    ensures |r| == |cs|
  {
    if j == 0 then cs
    else
      var r := SetIds(cs, indexes, ids, j - 1);
      r[indexes[j - 1] := SetAttr(r[indexes[j - 1]], "id", ids[j - 1])]
  }

  /** After `SetIds`, each of the first `j` recorded nodes carries its new
      id; every other attribute and every other child is unchanged. */
  lemma {:induction false} SetIdsAt(cs: seq<Node>, indexes: seq<nat>, ids: seq<string>, j: nat, p: nat)
    requires |indexes| == |ids| && j <= |indexes| && Ascending(indexes)
    requires forall t :: 0 <= t < |indexes| ==> indexes[t] < |cs|
    requires p < |cs|
    ensures var r := SetIds(cs, indexes, ids, j);
      && r[p].Element? == cs[p].Element?
      && TagOf(r[p]) == TagOf(cs[p])
      && (forall t :: 0 <= t < j && indexes[t] == p ==> cs[p].Element? ==> r[p] == cs[p].(attrs := cs[p].attrs["id" := ids[t]]))
      && ((forall t :: 0 <= t < j ==> indexes[t] != p) ==> r[p] == cs[p])
  {
    if j > 0 {
      SetIdsAt(cs, indexes, ids, j - 1, p);
      forall t | 0 <= t < j - 1 ensures indexes[t] != indexes[j - 1] {
        AscendingAt(indexes, t, j - 1);
      }
    }
  }

  /** Renumbering keeps the layer well formed: the recorded positions still
      point at exactly its mask nodes, and each now carries its new id. */
  lemma {:induction false} SetIdsWellFormed(l: Layer, ids: seq<string>)
    requires Canon.WellFormed(l) && |ids| == |l.indexes|
    ensures Canon.WellFormed(Layer(SetIds(l.children, l.indexes, ids, |ids|), l.indexes, ids))
  {
    var r := SetIds(l.children, l.indexes, ids, |ids|);
    forall p | 0 <= p < |r|
      ensures IsMaskNode(r[p]) == IsMaskNode(l.children[p])
    {
      SetIdsAt(l.children, l.indexes, ids, |ids|, p);
    }
    forall j | 0 <= j < |l.indexes| ensures GetAttr(r[l.indexes[j]], "id") == Some(ids[j]) {
      SetIdsAt(l.children, l.indexes, ids, |ids|, l.indexes[j]);
    }
  }

  /** Once the canvas size and the layer are read, `Canon.GetMnodesAndSetIds`
      is the loop over the layer's children. */
  lemma {:induction false} GetMnodesAndSetIdsLayer(doc: Node, edit: bool, occlId: string, ch: real, cw: real, pos: nat)
    requires FloatAttr(doc, "height") == Ok(ch) && FloatAttr(doc, "width") == Ok(cw) && MaskLayerPos(doc) == Ok(pos)
    ensures var l := CanonLayer(doc.children[pos].children, edit, Area(ch, cw), occlId);
      && (l.Err? ==> Canon.GetMnodesAndSetIds(doc, edit, occlId) == Err(l.error))
      && (l.Ok? ==> Canon.GetMnodesAndSetIds(doc, edit, occlId) == Ok((WithLayer(doc, pos, l.value.children), l.value)))
  {
  }

  /** The first `j` renumberings read only the first `j` new ids. */
  lemma {:induction false} SetIdsPrefix(cs: seq<Node>, indexes: seq<nat>, a: seq<string>, b: seq<string>, j: nat)
    requires j <= |a| && j <= |b| && j <= |indexes| && a[..j] == b[..j]
    requires forall t :: 0 <= t < |indexes| ==> indexes[t] < |cs|
    ensures SetIds(cs, indexes, a, j) == SetIds(cs, indexes, b, j)
  {
    if j > 0 {
      assert a[..j - 1] == a[..j][..j - 1] && b[..j - 1] == b[..j][..j - 1];
      assert a[j - 1] == a[..j][j - 1] && b[j - 1] == b[..j][j - 1];
      SetIdsPrefix(cs, indexes, a, b, j - 1);
    }
  }

  // ---------------------------------------------------------------- the renumbering loop

  /** The state of the loop of `_deleteAndIdNotes` after some shapes: their
      new ids, the number counter, `new_count` and `nids`. */
  datatype Renumbered = Renumbered(ids: seq<string>, counter: Counter, newCount: nat, nids: NidMap)

  /** One iteration for the shape with id `mnodeId` (ngen.py:322-346). */
  function RenumberStep(st: Renumbered, mnodeId: string, ex: seq<string>, occlId: string): (r: Result<Renumbered>)
    ensures r.Ok? ==> |r.value.ids| == |st.ids| + 1
    ensures r.Ok? ==> r.value.newCount <= st.newCount + 1
  {
    if mnodeId !in ex then
      var next := Take(st.counter);
      var newId := BaseNoteId(occlId, NatToString(next.0));
      Ok(Renumbered(st.ids + [newId], next.1, st.newCount + 1, st.nids[newId := None]))
    else
      var newId := BaseNoteId(occlId, BaseNrText(mnodeId));
      if mnodeId in st.nids then Ok(Renumbered(st.ids + [newId], st.counter, st.newCount, (st.nids - {mnodeId})[newId := st.nids[mnodeId]]))
      else Err(MissingKey(mnodeId))
  }

  /** The loop over the first `k` shapes, from counter `c0` and `nids`. */
  function RenumberLoop(ms: seq<string>, ex: seq<string>, occlId: string, c0: Counter, nids: NidMap, k: nat): (r: Result<Renumbered>)
    requires k <= |ms|
    ensures r.Ok? ==> |r.value.ids| == k
    ensures r.Ok? ==> r.value.newCount <= k
  {
    if k == 0 then Ok(Renumbered([], c0, 0, nids))
    else
      match RenumberLoop(ms, ex, occlId, c0, nids, k - 1)
      case Err(e) => Err(e)
      case Ok(st) => RenumberStep(st, ms[k - 1], ex, occlId)
  }

  /** Once a shape has lost its note, the whole loop fails the same way. */
  lemma {:induction false} RenumberLoopErrSticks(ms: seq<string>, ex: seq<string>, occlId: string, c0: Counter, nids: NidMap, k: nat)
    requires k <= |ms| && RenumberLoop(ms, ex, occlId, c0, nids, k).Err?
    ensures RenumberLoop(ms, ex, occlId, c0, nids, |ms|) == RenumberLoop(ms, ex, occlId, c0, nids, k)
    decreases |ms| - k
  {
    if k < |ms| {
      RenumberLoopErrSticks(ms, ex, occlId, c0, nids, k + 1);
    }
  }

  /** `_deleteAndIdNotes` as the generator computes it: the numbers of the
      existing shapes, then `RenumberLoop` from their counter, then the
      gate. */
  function DeleteAndIdNotesByLoop(ms: seq<string>, uniq: string, occlId: string, nids: NidMap, confirm: bool): (r: Result<Reconciled>)
    ensures r.Ok? ==> |r.value.ids| == |ms|
    ensures r.Ok? && r.value.decision.Applied? ==> r.value.decision.newCount <= |ms|
  {
    var ex := Existing(ms, uniq, nids);
    match BaseNumbers(ex)
    case Err(e) => Err(e)
    case Ok(nrs) =>
      match RenumberLoop(ms, ex, occlId, Start(nrs), nids, |ms|)
      case Err(e) => Err(e)
      case Ok(run) => Ok(Reconciled(run.ids, run.nids, BaseGate(ms, uniq, nids, run.newCount, confirm)))
  }

  /** `DeleteAndIdNotesByLoop` when the existing numbers are read and the
      loop has run: its renumbered ids and `nids`, and the gate's decision. */
  lemma {:induction false} ByLoopOk(ms: seq<string>, uniq: string, occlId: string, nids: NidMap, confirm: bool, nrs: seq<nat>, run: Renumbered)
    requires BaseNumbers(Existing(ms, uniq, nids)) == Ok(nrs)
    requires RenumberLoop(ms, Existing(ms, uniq, nids), occlId, Start(nrs), nids, |ms|) == Ok(run)
    ensures DeleteAndIdNotesByLoop(ms, uniq, occlId, nids, confirm)
        == Ok(Reconciled(run.ids, run.nids, BaseGate(ms, uniq, nids, run.newCount, confirm)))
  {
  }

  /** The loop computes exactly what `Reconcile.BaseDeleteAndIdNotes` states
      for the whole sequence of shapes. */
  lemma {:induction false} DeleteAndIdNotesByLoopIsBase(ms: seq<string>, uniq: string, occlId: string, nids: NidMap, confirm: bool)
    ensures DeleteAndIdNotesByLoop(ms, uniq, occlId, nids, confirm) == BaseDeleteAndIdNotes(ms, uniq, occlId, nids, confirm)
  {
    var ex := Existing(ms, uniq, nids);
    match BaseNumbers(ex)
    case Err(_) =>
    case Ok(nrs) =>
      RenumberLoopIsBase(ms, ex, occlId, nrs, nids);
  }

  /** The rule for the new id of shape `t`: it is new exactly when its id
      is not among the existing ones; a new shape gets the number of its
      rank among the new shapes, an existing one keeps its number text. */
  ghost predicate NewIdRule(ms: seq<string>, ex: seq<string>, occlId: string, c0: Counter, isNew: seq<bool>, ids: seq<string>, t: nat)
    requires t < |ms| && |isNew| == |ids| == |ms|
  {
    && (isNew[t] <==> ms[t] !in ex)
    && (isNew[t] ==> ids[t] == BaseNoteId(occlId, NatToString(NthFree(c0, NewBefore(isNew, t)))))
    && (!isNew[t] ==> ids[t] == BaseNoteId(occlId, BaseNrText(ms[t])))
  }

  /** The loop computes, shape by shape, what `Reconcile` states for the
      whole sequence, for any new flags and new ids that follow its rules:
      the same moves of `nids`, the same ids, and as many numbers taken
      from the counter as there are new shapes. */
  lemma {:induction false} RenumberLoopMoves(ms: seq<string>, ex: seq<string>, occlId: string, c0: Counter, nids: NidMap,
                                             isNew: seq<bool>, ids: seq<string>, k: nat)
    requires |isNew| == |ids| == |ms| && k <= |ms|
    requires forall t :: 0 <= t < |ms| ==> NewIdRule(ms, ex, occlId, c0, isNew, ids, t)
    ensures LoopMatches(ms, ex, occlId, c0, nids, isNew, ids, k)
  {
    if k > 0 {
      RenumberLoopMoves(ms, ex, occlId, c0, nids, isNew, ids, k - 1);
      assert NewIdRule(ms, ex, occlId, c0, isNew, ids, k - 1);
      LoopMatchesNext(ms, ex, occlId, c0, nids, isNew, ids, k);
    }
  }

  /** After `k` shapes the loop agrees with `MoveNids`: it fails exactly
      when `MoveNids` does, with the same error, and otherwise has given
      the first `k` shapes their ids, taken one number per new shape, and
      moved the same notes. */
  ghost predicate LoopMatches(ms: seq<string>, ex: seq<string>, occlId: string, c0: Counter, nids: NidMap,
                              isNew: seq<bool>, ids: seq<string>, k: nat)
    requires |isNew| == |ids| == |ms| && k <= |ms|
  {
    var spec := MoveNids(nids, ms, ids, isNew, k);
    var r := RenumberLoop(ms, ex, occlId, c0, nids, k);
    && (r.Err? <==> spec.Err?)
    && (r.Err? ==> r.error == spec.error)
    && (r.Ok? ==>
          && (forall t :: 0 <= t < k ==> r.value.ids[t] == ids[t])
          && r.value.counter == After(c0, NewBefore(isNew, k))
          && r.value.newCount == NewBefore(isNew, k)
          && r.value.nids == spec.value)
  }

  /** The induction step of `RenumberLoopMoves`. */
  lemma {:induction false} LoopMatchesNext(ms: seq<string>, ex: seq<string>, occlId: string, c0: Counter, nids: NidMap,
                        isNew: seq<bool>, ids: seq<string>, k: nat)
    requires |isNew| == |ids| == |ms| && 0 < k <= |ms|
    requires NewIdRule(ms, ex, occlId, c0, isNew, ids, k - 1)
    requires LoopMatches(ms, ex, occlId, c0, nids, isNew, ids, k - 1)
    ensures LoopMatches(ms, ex, occlId, c0, nids, isNew, ids, k)
  {
    var prev := RenumberLoop(ms, ex, occlId, c0, nids, k - 1);
    if prev.Ok? {
      var spec := MoveNids(nids, ms, ids, isNew, k - 1);
      assert MoveNids(nids, ms, ids, isNew, k) == MoveOne(spec.value, ms[k - 1], ids[k - 1], isNew[k - 1]);
      assert RenumberLoop(ms, ex, occlId, c0, nids, k) == RenumberStep(prev.value, ms[k - 1], ex, occlId);
      RenumberStepMoves(prev.value, ms[k - 1], ex, occlId, c0, NewBefore(isNew, k - 1), isNew[k - 1], ids[k - 1]);
    }
  }

  /** One shape of the loop is one `MoveOne`, and takes a number from the
      counter exactly when it is new. */
  lemma {:induction false} RenumberStepMoves(st: Renumbered, mnodeId: string, ex: seq<string>, occlId: string, c0: Counter, n: nat,
                          isNew: bool, newId: string)
    requires st.counter == After(c0, n) && st.newCount == n
    requires isNew <==> mnodeId !in ex
    requires isNew ==> newId == BaseNoteId(occlId, NatToString(NthFree(c0, n)))
    requires !isNew ==> newId == BaseNoteId(occlId, BaseNrText(mnodeId))
    ensures var r := RenumberStep(st, mnodeId, ex, occlId);
      var spec := MoveOne(st.nids, mnodeId, newId, isNew);
      var n' := n + if isNew then 1 else 0;
      && (r.Err? <==> spec.Err?)
      && (r.Err? ==> r.error == spec.error)
      && (r.Ok? ==> r.value == Renumbered(st.ids + [newId], After(c0, n'), n', spec.value))
  {
    TakeAfter(c0, n);
  }

  /** For the flags and ids `Reconcile.BaseDeleteAndIdNotes` computes, the
      whole loop yields exactly its ids, its `nids` and `CountNew` new
      shapes. */
  lemma {:induction false} RenumberLoopIsBase(ms: seq<string>, ex: seq<string>, occlId: string, nrs: seq<nat>, nids: NidMap)
    ensures var isNew := NewFlags(ms, ex);
      var ids := BaseNewIds(ms, occlId, nrs, isNew);
      var spec := MoveNids(nids, ms, ids, isNew, |ms|);
      var r := RenumberLoop(ms, ex, occlId, Start(nrs), nids, |ms|);
      && (r.Err? <==> spec.Err?)
      && (r.Err? ==> r.error == spec.error)
      && (r.Ok? ==> r.value.ids == ids && r.value.newCount == CountNew(isNew) && r.value.nids == spec.value)
  {
    var isNew := NewFlags(ms, ex);
    var ids := BaseNewIds(ms, occlId, nrs, isNew);
    forall t | 0 <= t < |ms| ensures NewIdRule(ms, ex, occlId, Start(nrs), isNew, ids, t) {
    }
    RenumberLoopMoves(ms, ex, occlId, Start(nrs), nids, isNew, ids, |ms|);
  }

  /** The invariant of the renumbering loop before shape `j`: the first `j`
      shapes are done as `RenumberLoop` states, `mnode_ids` holds their new
      ids and the old ids of the rest, and the layer carries the new ids. */
  ghost predicate RenumberInv(cs0: seq<Node>, indexes: seq<nat>, ms: seq<string>, ex: seq<string>, occlId: string,
                              c0: Counter, m0: NidMap, j: nat, done: seq<string>, counter: Counter, newCount: nat,
                              m: NidMap, idm: map<nat, string>, cs: seq<Node>, vals: seq<string>)
  {
    && Ascending(indexes)
    && (forall t :: 0 <= t < |indexes| ==> indexes[t] < |cs0|)
    && j <= |indexes| == |ms| == |vals|
    && |done| == j
    && (forall t :: 0 <= t < j ==> vals[t] == done[t])
    && (forall t :: j <= t < |ms| ==> vals[t] == ms[t])
    && RenumberLoop(ms, ex, occlId, c0, m0, j) == Ok(Renumbered(done, counter, newCount, m))
    && idm == IdMap(indexes, vals)
    && cs == SetIds(cs0, indexes, done, j)
  }

  /** At the end of the loop every shape is done. */
  lemma {:induction false} RenumberInvDone(cs0: seq<Node>, indexes: seq<nat>, ms: seq<string>, ex: seq<string>, occlId: string,
                        c0: Counter, m0: NidMap, j: nat, done: seq<string>, counter: Counter, newCount: nat,
                        m: NidMap, idm: map<nat, string>, cs: seq<Node>, vals: seq<string>)
    requires RenumberInv(cs0, indexes, ms, ex, occlId, c0, m0, j, done, counter, newCount, m, idm, cs, vals)
    requires j >= |indexes|
    ensures RenumberLoop(ms, ex, occlId, c0, m0, |ms|) == Ok(Renumbered(done, counter, newCount, m))
    ensures idm == IdMap(indexes, done) && cs == SetIds(cs0, indexes, done, |ms|)
  {
    assert vals == done;
  }

  /** The bookkeeping of the renumbering loop before visiting shape `j`:
      `mnode_ids` still holds its old id, and the layer is long enough. */
  lemma {:induction false} LoopLookup(cs0: seq<Node>, indexes: seq<nat>, ms: seq<string>, vals: seq<string>, done: seq<string>,
                   j: nat, cs: seq<Node>, idm: map<nat, string>)
    requires Ascending(indexes) && j < |indexes| == |ms| == |vals| && |done| == j
    requires forall t :: 0 <= t < |indexes| ==> indexes[t] < |cs0|
    requires forall t :: j <= t < |ms| ==> vals[t] == ms[t]
    requires idm == IdMap(indexes, vals) && cs == SetIds(cs0, indexes, done, j)
    ensures indexes[j] in idm && idm[indexes[j]] == ms[j] && indexes[j] < |cs|
  {
    IdMapAt(indexes, vals, j);
  }

  /** The bookkeeping after shape `j` got `newId`: in `mnode_ids` and in
      the layer it replaces the old id, and the recorded ids grow by one. */
  lemma {:induction false} LoopStep(cs0: seq<Node>, indexes: seq<nat>, ms: seq<string>, vals: seq<string>, done: seq<string>,
                 j: nat, cs: seq<Node>, idm: map<nat, string>, newId: string)
    requires Ascending(indexes) && j < |indexes| == |ms| == |vals| && |done| == j
    requires forall t :: 0 <= t < |indexes| ==> indexes[t] < |cs0|
    requires forall t :: 0 <= t < j ==> vals[t] == done[t]
    requires forall t :: j <= t < |ms| ==> vals[t] == ms[t]
    requires idm == IdMap(indexes, vals) && cs == SetIds(cs0, indexes, done, j)
    ensures var vals', done' := vals[j := newId], done + [newId];
      && (forall t :: 0 <= t < j + 1 ==> vals'[t] == done'[t])
      && (forall t :: j + 1 <= t < |ms| ==> vals'[t] == ms[t])
      && idm[indexes[j] := newId] == IdMap(indexes, vals')
      && cs[indexes[j] := SetAttr(cs[indexes[j]], "id", newId)] == SetIds(cs0, indexes, done', j + 1)
  {
    IdMapUpdate(indexes, vals, j, newId);
    SetIdsPrefix(cs0, indexes, done, done + [newId], j);
  }

  /** The invariant carries over one iteration that performs `RenumberStep`
      for shape `j` and writes its new id to `mnode_ids` and the layer. */
  lemma {:induction false} RenumberInvNext(cs0: seq<Node>, indexes: seq<nat>, ms: seq<string>, ex: seq<string>, occlId: string,
                        c0: Counter, m0: NidMap, j: nat, done: seq<string>, counter: Counter, newCount: nat,
                        m: NidMap, idm: map<nat, string>, cs: seq<Node>, vals: seq<string>,
                        newId: string, counter': Counter, newCount': nat, m': NidMap)
    requires RenumberInv(cs0, indexes, ms, ex, occlId, c0, m0, j, done, counter, newCount, m, idm, cs, vals)
    requires j < |indexes|
    requires RenumberStep(Renumbered(done, counter, newCount, m), ms[j], ex, occlId)
      == Ok(Renumbered(done + [newId], counter', newCount', m'))
    ensures indexes[j] < |cs|
    ensures RenumberInv(cs0, indexes, ms, ex, occlId, c0, m0, j + 1, done + [newId], counter', newCount', m',
                        idm[indexes[j] := newId], cs[indexes[j] := SetAttr(cs[indexes[j]], "id", newId)], vals[j := newId])
  {
    LoopLookup(cs0, indexes, ms, vals, done, j, cs, idm);
    LoopStep(cs0, indexes, ms, vals, done, j, cs, idm, newId);
    RenumberLoopNext(ms, ex, occlId, c0, m0, j);
  }

  /** An iteration whose `RenumberStep` fails ends the loop with that error. */
  lemma {:induction false} RenumberInvFails(cs0: seq<Node>, indexes: seq<nat>, ms: seq<string>, ex: seq<string>, occlId: string,
                         c0: Counter, m0: NidMap, j: nat, done: seq<string>, counter: Counter, newCount: nat,
                         m: NidMap, idm: map<nat, string>, cs: seq<Node>, vals: seq<string>)
    requires RenumberInv(cs0, indexes, ms, ex, occlId, c0, m0, j, done, counter, newCount, m, idm, cs, vals)
    requires j < |indexes|
    requires RenumberStep(Renumbered(done, counter, newCount, m), ms[j], ex, occlId).Err?
    ensures RenumberLoop(ms, ex, occlId, c0, m0, |ms|) == RenumberStep(Renumbered(done, counter, newCount, m), ms[j], ex, occlId)
  {
    RenumberLoopNext(ms, ex, occlId, c0, m0, j);
    RenumberLoopErrSticks(ms, ex, occlId, c0, m0, j + 1);
  }

  /** One more iteration of the loop is one more `RenumberStep`. */
  lemma {:induction false} RenumberLoopNext(ms: seq<string>, ex: seq<string>, occlId: string, c0: Counter, nids: NidMap, j: nat)
    requires j < |ms| && RenumberLoop(ms, ex, occlId, c0, nids, j).Ok?
    ensures RenumberLoop(ms, ex, occlId, c0, nids, j + 1) == RenumberStep(RenumberLoop(ms, ex, occlId, c0, nids, j).value, ms[j], ex, occlId)
  {
  }

  // ---------------------------------------------------------------- masks

  /** `_createMask(side, idx)`: the mask of one node, from a fresh copy of
      the document; the subclass decides what happens to its layer. */
  function CreateMaskSpec(doc: Node, kind: Generator, side: MaskType, idx: nat, indexes: seq<nat>, qfill: string): Result<Node> {
    match MaskLayerPos(doc)
    case Err(e) => Err(e)
    case Ok(pos) =>
      var cs := doc.children[pos].children;
      var layer :=
        if kind == OaGen then
          if |indexes| > 0 && indexes[|indexes| - 1] >= |cs| then Err(IndexOutOfRange)
          else Ok(OaOut(cs, Positions(indexes), idx, side, qfill, 0))
        else AoMaskLayer(cs, side, idx, qfill);
      match layer
      case Err(e) => Err(e)
      case Ok(l) => Ok(WithLayer(doc, pos, l))
  }

  /** `_generateMaskSVGsFor(side)` over the first `k` shapes: one mask per
      entry of `mnode_indexes`, in order; the first failure aborts the list. */
  function MasksFor(doc: Node, kind: Generator, side: MaskType, indexes: seq<nat>, qfill: string, k: nat): (r: Result<seq<Node>>)
    requires k <= |indexes|
    ensures r.Ok? ==> |r.value| == k
  {
    if k == 0 then Ok([])
    else
      match MasksFor(doc, kind, side, indexes, qfill, k - 1)
      case Err(e) => Err(e)
      case Ok(ms) =>
        match CreateMaskSpec(doc, kind, side, indexes[k - 1], indexes, qfill)
        case Err(e) => Err(e)
        case Ok(m) => Ok(ms + [m])
  }

  /** Once one mask has failed, the whole list fails the same way. */
  lemma {:induction false} MasksForErrSticks(doc: Node, kind: Generator, side: MaskType, indexes: seq<nat>, qfill: string, k: nat)
    requires k <= |indexes| && MasksFor(doc, kind, side, indexes, qfill, k).Err?
    ensures MasksFor(doc, kind, side, indexes, qfill, |indexes|) == MasksFor(doc, kind, side, indexes, qfill, k)
    decreases |indexes| - k
  {
    if k < |indexes| {
      MasksForErrSticks(doc, kind, side, indexes, qfill, k + 1);
    }
  }

  /** The `t`-th mask of the list is the mask of the `t`-th shape. */
  lemma {:induction false} MasksForAt(doc: Node, kind: Generator, side: MaskType, indexes: seq<nat>, qfill: string, k: nat, t: nat)
    requires t < k <= |indexes| && MasksFor(doc, kind, side, indexes, qfill, k).Ok?
    ensures CreateMaskSpec(doc, kind, side, indexes[t], indexes, qfill) == Ok(MasksFor(doc, kind, side, indexes, qfill, k).value[t])
  {
    if t < k - 1 {
      MasksForAt(doc, kind, side, indexes, qfill, k - 1, t);
    }
  }

  /** The list fails only where some shape's mask fails. */
  lemma {:induction false} MasksForSucceed(doc: Node, kind: Generator, side: MaskType, indexes: seq<nat>, qfill: string, k: nat)
    requires k <= |indexes|
    requires forall t :: 0 <= t < k ==> CreateMaskSpec(doc, kind, side, indexes[t], indexes, qfill).Ok?
    ensures MasksFor(doc, kind, side, indexes, qfill, k).Ok?
  {
    if k > 0 {
      MasksForSucceed(doc, kind, side, indexes, qfill, k - 1);
    }
  }

  /** The last element child found again at `i`. */
  lemma {:induction false} LastElementAt(cs: seq<Node>, i: nat)
    requires i < |cs| && cs[i].Element?
    requires forall j :: i < j < |cs| ==> cs[j].Text?
    ensures LastElement(cs) == Some(i)
    decreases |cs|
  {
    if i < |cs| - 1 {
      LastElementAt(cs[..|cs| - 1], i);
    }
  }

  /** Replacing the children of the mask layer keeps it the mask layer. */
  lemma MaskLayerPosWithLayer(doc: Node, pos: nat, cs: seq<Node>)
    requires MaskLayerPos(doc) == Ok(pos)
    ensures MaskLayerPos(WithLayer(doc, pos, cs)) == Ok(pos)
  {
    LastElementAt(WithLayer(doc, pos, cs).children, pos);
  }

  /** A well-formed layer has its mask nodes exactly at `mnode_indexes`. */
  lemma WellFormedMaskPositions(l: Layer)
    requires Canon.WellFormed(l)
    ensures MaskPositions(l.children, Positions(l.indexes))
  {
  }

  /** The mask nodes sit at the positions of `s`: there are `|s|` of them. */
  lemma {:induction false} MaskCountPositions(cs: seq<Node>, s: set<nat>)
    requires MaskPositions(cs, s)
    ensures MaskCount(cs) == |s|
    decreases |cs|
  {
    if cs == [] {
      assert forall p :: p !in s;
      assert s == {};
    } else {
      var n := |cs| - 1;
      var a := cs[..n];
      assert cs == a + [cs[n]];
      NonMaskAppend(a, [cs[n]]);
      MaskPositionsPrefix(cs, s);
      MaskCountPositions(a, s - {n});
      if n in s {
        assert s == (s - {n}) + {n};
      } else {
        assert s == s - {n};
      }
    }
  }

  /** Without its last child, a layer has its mask nodes at the same
      positions but the last. */
  lemma MaskPositionsPrefix(cs: seq<Node>, s: set<nat>)
    requires MaskPositions(cs, s) && |cs| > 0
    ensures MaskPositions(cs[..|cs| - 1], s - {|cs| - 1})
  {
    var a := cs[..|cs| - 1];
    forall p: nat ensures p in s - {|cs| - 1} <==> p < |a| && IsMaskNode(a[p]) {
      if p < |a| { assert a[p] == cs[p]; }
    }
  }

  /** Ascending positions are as many as the distinct positions. */
  lemma {:induction false} AscendingCard(indexes: seq<nat>)
    requires Ascending(indexes)
    ensures |Positions(indexes)| == |indexes|
  {
    if indexes != [] {
      var n := |indexes| - 1;
      AscendingPrefix(indexes, n);
      AscendingCard(indexes[..n]);
      assert Positions(indexes) == Positions(indexes[..n]) + {indexes[n]} by {
        assert indexes == indexes[..n] + [indexes[n]];
      }
      forall t | 0 <= t < n ensures indexes[..n][t] != indexes[n] {
        AscendingAt(indexes, t, n);
      }
    }
  }

  /** A well-formed layer holds one mask node per shape. */
  lemma WellFormedMaskCount(l: Layer)
    requires Canon.WellFormed(l)
    ensures MaskCount(l.children) == |l.indexes|
  {
    WellFormedMaskPositions(l);
    MaskCountPositions(l.children, Positions(l.indexes));
    AscendingCard(l.indexes);
  }

  /** A layer without mask nodes is its own non-mask part. */
  lemma {:induction false} NoMaskIsNonMask(cs: seq<Node>)
    requires MaskCount(cs) == 0
    ensures NonMask(cs) == cs
  {
    if cs != [] {
      NoMaskIsNonMask(cs[1..]);
    }
  }

  /** The masks of a shape of a well-formed layer: the document with only
      its mask layer changed; every child that is not a mask node kept, in
      order; and the mask nodes the note type leaves. AO keeps all shapes in
      the question and drops the target from the answer; OA keeps only the
      target in the question and no shape in the answer. The question mask
      shows the target restyled as a question. */
  lemma MaskShape(doc: Node, pos: nat, l: Layer, kind: Generator, side: MaskType, t: nat, qfill: string)
    requires MaskLayerPos(doc) == Ok(pos) && doc.children[pos].children == l.children && Canon.WellFormed(l)
    requires kind == AoGen || kind == OaGen
    requires side == Q || side == A
    requires t < |l.indexes|
    ensures var r := CreateMaskSpec(doc, kind, side, l.indexes[t], l.indexes, qfill);
      && r.Ok?
      && var ml := r.value.children[pos].children;
      && r.value == WithLayer(doc, pos, ml)
      && MaskLayerPos(r.value) == Ok(pos)
      && NonMask(ml) == NonMask(l.children)
      && MaskCount(ml) == (if kind == AoGen then (if side == Q then |l.indexes| else |l.indexes| - 1)
                           else (if side == Q then 1 else 0))
      && (side == Q && kind == AoGen ==> ml[l.indexes[t]] == SetQuestionAttribs(l.children[l.indexes[t]], qfill))
      && (side == Q && kind == OaGen ==> OaStyle(l.children[l.indexes[t]], qfill) in ml)
  {
    var cs := l.children;
    var idx := l.indexes[t];
    var s := Positions(l.indexes);
    WellFormedMaskCount(l);
    WellFormedMaskPositions(l);
    var ml;
    if kind == OaGen {
      ml := OaOut(cs, s, idx, side, qfill, 0);
      assert cs[0..] == cs;
      if side == Q {
        OaQuestionKeepsTarget(cs, s, idx, qfill, 0);
      } else {
        OaAnswerRemovesAll(cs, s, idx, qfill, 0);
        NoMaskInNonMask(cs);
        NoMaskIsNonMask(NonMask(cs));
      }
    } else {
      ml := AoMaskLayer(cs, side, idx, qfill).value;
      if side == Q {
        AoQuestionRestylesOnlyTarget(cs, idx, qfill);
      } else {
        AoAnswerRemovesTarget(cs, idx, qfill);
      }
    }
    assert CreateMaskSpec(doc, kind, side, idx, l.indexes, qfill) == Ok(WithLayer(doc, pos, ml));
    MaskLayerPosWithLayer(doc, pos, ml);
  }

  /** Every shape of a well-formed layer has both its masks, so the lists
      of question and answer masks are complete. */
  lemma MasksForWellFormed(doc: Node, pos: nat, l: Layer, kind: Generator, side: MaskType, qfill: string)
    requires MaskLayerPos(doc) == Ok(pos) && doc.children[pos].children == l.children && Canon.WellFormed(l)
    requires kind == AoGen || kind == OaGen
    requires side == Q || side == A
    ensures MasksFor(doc, kind, side, l.indexes, qfill, |l.indexes|).Ok?
  {
    forall t | 0 <= t < |l.indexes| ensures CreateMaskSpec(doc, kind, side, l.indexes[t], l.indexes, qfill).Ok? {
      MaskShape(doc, pos, l, kind, side, t, qfill);
    }
    MasksForSucceed(doc, kind, side, l.indexes, qfill, |l.indexes|);
  }

  /** The outcome of `generateNotes`: nothing to generate, a failure, or the
      new notes, each with its id and its question and answer masks; the
      tooltip reports how many were added. */
  datatype NewNote = NewNote(noteId: string, qmask: Node, amask: Node)

  datatype GenerateOutcome =
    | NoCards
    | GenerateFailed(error: Error)
    | Generated(omask: Node, notes: seq<NewNote>, tooltip: string)

  /** A note `updateNotes` writes: its id, its Anki note id when it already
      exists, and its masks when they were regenerated. */
  datatype NoteUpdate = NoteUpdate(noteId: string, nid: Option<Nid>, masks: Option<(Node, Node)>)

  /** The outcome of `updateNotes`: no shapes left (nothing is deleted),
      the confirmation declined, a failure, or the notes written with the
      reconciliation's counts and the notes removed from the collection. */
  datatype UpdateOutcome =
    | NoShapesLeft
    | NotConfirmed
    | UpdateFailed(error: Error)
    | Updated(reset: bool, omask: Option<Node>, notes: seq<NoteUpdate>, removed: set<Option<Nid>>,
              delCount: nat, newCount: nat, tooltip: string)

  // ---------------------------------------------------------------- generateNotes

  /** `occl_id = '%s-%s' % (uniq_id, occl_tp)`. */
  function OcclId(uniq: string, kind: Generator): string {
    uniq + "-" + ShortName(kind)
  }

  /** The notes of the loop at ngen.py:106-109, one per shape in
      `mnode_indexes` order: its note id with its question and answer mask. */
  function NewNotes(ids: seq<string>, qm: seq<Node>, am: seq<Node>): (r: seq<NewNote>)
    requires |qm| == |ids| && |am| == |ids|
    ensures |r| == |ids|
  {
    seq(|ids|, t requires 0 <= t < |ids| => NewNote(ids[t], qm[t], am[t]))
  }

  /** `generateNotes` (ngen.py:87-112) on the document `svg`, with
      `int(time.time())` read as `epochSecs`: the layer is canonicalised in
      create mode; no shape means no cards; otherwise the canonical document
      is the O mask and every shape gets a note with its masks. */
  function GenerateNotesSpec(svg: Node, kind: Generator, qfill: string, epochSecs: nat): GenerateOutcome {
    var occl := OcclId(NatToString(epochSecs), kind);
    match Canon.GetMnodesAndSetIds(svg, false, occl)
    case Err(e) => GenerateFailed(e)
    case Ok(g) =>
      var doc, l := g.0, g.1;
      if |l.indexes| == 0 then NoCards
      else MaskedNotes(doc, kind, qfill, l.indexes, l.ids)
  }

  /** The second half of `generateNotes` (ngen.py:98-111), once `new_svg`
      is the canonical document `doc`: both lists of masks, then the notes. */
  function MaskedNotes(doc: Node, kind: Generator, qfill: string, indexes: seq<nat>, ids: seq<string>): GenerateOutcome
    requires |ids| == |indexes|
  {
    match MasksFor(doc, kind, Q, indexes, qfill, |indexes|)
    case Err(e) => GenerateFailed(e)
    case Ok(qm) =>
      match MasksFor(doc, kind, A, indexes, qfill, |indexes|)
      case Err(e) => GenerateFailed(e)
      case Ok(am) => Generated(doc, NewNotes(ids, qm, am), AddedLine(|qm|))
  }

  /** `generateNotes` once the layer is canonicalised to `doc` and `l`. */
  lemma GenerateNotesSpecOk(svg: Node, kind: Generator, qfill: string, epochSecs: nat, doc: Node, l: Layer)
    requires Canon.GetMnodesAndSetIds(svg, false, OcclId(NatToString(epochSecs), kind)) == Ok((doc, l))
    ensures GenerateNotesSpec(svg, kind, qfill, epochSecs)
         == if |l.indexes| == 0 then NoCards else MaskedNotes(doc, kind, qfill, l.indexes, l.ids)
  {
  }

  /** `not self.mnode_ids` exactly when no shape was recorded. */
  lemma IdMapEmpty(indexes: seq<nat>, vals: seq<string>)
    requires |indexes| == |vals|
    ensures |IdMap(indexes, vals)| == 0 <==> |indexes| == 0
  {
    if |indexes| > 0 {
      assert indexes[0] in IdMap(indexes, vals).Keys;
    }
  }

  /** The canonical document keeps its mask layer where it was, holding
      exactly the canonical layer, which is well formed. */
  lemma CanonDocLayer(doc: Node, edit: bool, occlId: string)
    ensures var g := Canon.GetMnodesAndSetIds(doc, edit, occlId);
      g.Ok? ==>
        && MaskLayerPos(doc).Ok?
        && MaskLayerPos(g.value.0) == MaskLayerPos(doc)
        && g.value.0.children[MaskLayerPos(doc).value].children == g.value.1.children
        && Canon.WellFormed(g.value.1)
  {
    var g := Canon.GetMnodesAndSetIds(doc, edit, occlId);
    if g.Ok? {
      var ch, cw, pos := FloatAttr(doc, "height").value, FloatAttr(doc, "width").value, MaskLayerPos(doc).value;
      GetMnodesAndSetIdsLayer(doc, edit, occlId, ch, cw, pos);
      CanonLayerWellFormed(doc.children[pos].children, edit, Area(ch, cw), occlId);
      MaskLayerPosWithLayer(doc, pos, g.value.1.children);
    }
  }

  /** `generateNotes` fails only where the mask layer cannot be read, and
      finds no cards exactly when the layer has no shape; otherwise it adds
      one note per shape, numbered densely from 1 under the new `occl_id`,
      and its tooltip counts them. */
  lemma {:induction false} GenerateNotesOutcome(svg: Node, kind: Generator, qfill: string, epochSecs: nat)
    requires kind == AoGen || kind == OaGen
    ensures var occl := OcclId(NatToString(epochSecs), kind);
      var g := Canon.GetMnodesAndSetIds(svg, false, occl);
      var r := GenerateNotesSpec(svg, kind, qfill, epochSecs);
      && (r.GenerateFailed? <==> g.Err?)
      && (r.NoCards? <==> g.Ok? && |g.value.1.indexes| == 0)
      && (r.Generated? ==>
            && r.omask == g.value.0
            && |r.notes| == |g.value.1.indexes| > 0
            && r.tooltip == AddedLine(|r.notes|)
            && forall t :: 0 <= t < |r.notes| ==> r.notes[t].noteId == BaseNoteId(occl, NatToString(t + 1)))
  {
    var occl := OcclId(NatToString(epochSecs), kind);
    var g := Canon.GetMnodesAndSetIds(svg, false, occl);
    if g.Ok? && |g.value.1.indexes| > 0 {
      CanonDocLayer(svg, false, occl);
      var pos := MaskLayerPos(svg).value;
      MasksForWellFormed(g.value.0, pos, g.value.1, kind, Q, qfill);
      MasksForWellFormed(g.value.0, pos, g.value.1, kind, A, qfill);
      var ch, cw := FloatAttr(svg, "height").value, FloatAttr(svg, "width").value;
      GetMnodesAndSetIdsLayer(svg, false, occl, ch, cw, pos);
      CreateIdsDense(svg.children[pos].children, Area(ch, cw), occl);
    }
  }

  /** A mask of the document `omask`: only its mask layer `pos` differs,
      every child of that layer that is not a mask node is kept in order,
      and `count` mask nodes remain. */
  ghost predicate MaskOf(omask: Node, pos: nat, mask: Node, count: nat) {
    && MaskLayerPos(omask) == Ok(pos)
    && MaskLayerPos(mask) == Ok(pos)
    && mask == WithLayer(omask, pos, mask.children[pos].children)
    && NonMask(mask.children[pos].children) == NonMask(omask.children[pos].children)
    && MaskCount(mask.children[pos].children) == count
  }

  /** The masks of every generated note, against the O mask with its `n`
      shapes: an AO question mask keeps all `n` and its answer mask `n - 1`;
      an OA question mask keeps one and its answer mask none. */
  lemma GeneratedMasks(svg: Node, kind: Generator, qfill: string, epochSecs: nat, t: nat)
    requires kind == AoGen || kind == OaGen
    requires GenerateNotesSpec(svg, kind, qfill, epochSecs).Generated?
    requires t < |GenerateNotesSpec(svg, kind, qfill, epochSecs).notes|
    ensures var r := GenerateNotesSpec(svg, kind, qfill, epochSecs);
      var n := |r.notes|;
      && MaskLayerPos(r.omask).Ok?
      && MaskCount(r.omask.children[MaskLayerPos(r.omask).value].children) == n
      && MaskOf(r.omask, MaskLayerPos(r.omask).value, r.notes[t].qmask, if kind == AoGen then n else 1)
      && MaskOf(r.omask, MaskLayerPos(r.omask).value, r.notes[t].amask, if kind == AoGen then n - 1 else 0)
  {
    var occl := OcclId(NatToString(epochSecs), kind);
    var g := Canon.GetMnodesAndSetIds(svg, false, occl);
    var doc, l := g.value.0, g.value.1;
    CanonDocLayer(svg, false, occl);
    var pos := MaskLayerPos(svg).value;
    WellFormedMaskCount(l);
    var qm := MasksFor(doc, kind, Q, l.indexes, qfill, |l.indexes|).value;
    var am := MasksFor(doc, kind, A, l.indexes, qfill, |l.indexes|).value;
    MasksForAt(doc, kind, Q, l.indexes, qfill, |l.indexes|, t);
    MasksForAt(doc, kind, A, l.indexes, qfill, |l.indexes|, t);
    MaskShape(doc, pos, l, kind, Q, t, qfill);
    MaskShape(doc, pos, l, kind, A, t, qfill);
  }

  // ---------------------------------------------------------------- updateNotes

  /** The canonical document keeps its mask layer where it was, holding the
      canonical layer, whose recorded positions all lie inside it. */
  lemma CanonDocBounds(doc: Node, edit: bool, occlId: string)
    ensures var g := Canon.GetMnodesAndSetIds(doc, edit, occlId);
      g.Ok? ==>
        && MaskLayerPos(doc).Ok?
        && MaskLayerPos(g.value.0) == MaskLayerPos(doc)
        && g.value.0.children[MaskLayerPos(doc).value].children == g.value.1.children
        && forall t :: 0 <= t < |g.value.1.indexes| ==> g.value.1.indexes[t] < |g.value.1.children|
  {
    CanonDocLayer(doc, edit, occlId);
  }

  /** The document after `_deleteAndIdNotes` has written the new ids into
      the layer `_getMnodesAndSetIds` returned (ngen.py:344-345);
      `mlayer_node.childNodes[idx]` raises IndexError past its end. */
  function RenumberedDoc(doc: Node, indexes: seq<nat>, ids: seq<string>): Result<Node>
    requires |ids| == |indexes|
  {
    match MaskLayerPos(doc)
    case Err(e) => Err(e)
    case Ok(pos) =>
      var cs := doc.children[pos].children;
      if forall t :: 0 <= t < |indexes| ==> indexes[t] < |cs| then Ok(WithLayer(doc, pos, SetIds(cs, indexes, ids, |ids|)))
      else Err(IndexOutOfRange)
  }

  /** No masks for any of `n` notes: the note is saved with `None` masks. */
  function NoMasks(n: nat): (r: seq<Option<(Node, Node)>>)
    ensures |r| == n
  {
    seq(n, t => None)
  }

  /** The question and answer mask of each note, side by side. */
  function MaskPairs(qm: seq<Node>, am: seq<Node>): (r: seq<Option<(Node, Node)>>)
    requires |am| == |qm|
    ensures |r| == |qm|
  {
    seq(|qm|, t requires 0 <= t < |qm| => Some((qm[t], am[t])))
  }

  /** The masks `updateNotes` passes on (ngen.py:138-143): regenerated for
      every shape on a reset, none otherwise. */
  function ResetMasks(doc: Node, kind: Generator, qfill: string, indexes: seq<nat>, reset: bool): (r: Result<seq<Option<(Node, Node)>>>)
    ensures r.Ok? ==> |r.value| == |indexes|
  {
    if !reset then Ok(NoMasks(|indexes|))
    else
      match MasksFor(doc, kind, Q, indexes, qfill, |indexes|)
      case Err(e) => Err(e)
      case Ok(qm) =>
        match MasksFor(doc, kind, A, indexes, qfill, |indexes|)
        case Err(e) => Err(e)
        case Ok(am) => Ok(MaskPairs(qm, am))
  }

  /** The loop of `updateNotes` over the first `k` shapes
      (ngen.py:148-162): every note keeps the id `mnode_ids` holds for it
      and takes its `nid` from `nids`, a KeyError when it is not there. */
  function NoteUpdates(ids: seq<string>, m: NidMap, masks: seq<Option<(Node, Node)>>, k: nat): (r: Result<seq<NoteUpdate>>)
    requires k <= |ids| && |masks| == |ids|
    ensures r.Ok? ==> |r.value| == k
  {
    if k == 0 then Ok([])
    else
      match NoteUpdates(ids, m, masks, k - 1)
      case Err(e) => Err(e)
      case Ok(us) =>
        if ids[k - 1] in m then Ok(us + [NoteUpdate(ids[k - 1], m[ids[k - 1]], masks[k - 1])])
        else Err(MissingKey(ids[k - 1]))
  }

  /** Once a lookup has failed, the whole loop fails the same way. */
  lemma {:induction false} NoteUpdatesErrSticks(ids: seq<string>, m: NidMap, masks: seq<Option<(Node, Node)>>, k: nat)
    requires k <= |ids| && |masks| == |ids| && NoteUpdates(ids, m, masks, k).Err?
    ensures NoteUpdates(ids, m, masks, |ids|) == NoteUpdates(ids, m, masks, k)
    decreases |ids| - k
  {
    if k < |ids| {
      NoteUpdatesErrSticks(ids, m, masks, k + 1);
    }
  }

  /** When every id has an entry, no lookup fails and each note carries its
      id, its `nid` and its masks. */
  lemma {:induction false} NoteUpdatesAt(ids: seq<string>, m: NidMap, masks: seq<Option<(Node, Node)>>, k: nat)
    requires k <= |ids| && |masks| == |ids|
    requires forall t :: 0 <= t < k ==> ids[t] in m
    ensures NoteUpdates(ids, m, masks, k).Ok?
    ensures forall t :: 0 <= t < k ==> NoteUpdates(ids, m, masks, k).value[t] == NoteUpdate(ids[t], m[ids[t]], masks[t])
  {
    if k > 0 {
      NoteUpdatesAt(ids, m, masks, k - 1);
    }
  }

  /** The second half of `updateNotes` (ngen.py:137-163) once the gate has
      let `_deleteAndIdNotes` go ahead and `new_svg` is the renumbered
      document `doc`: the masks on a reset, the notes, and the tooltip. */
  function UpdatedNotes(doc: Node, kind: Generator, qfill: string, indexes: seq<nat>, ids: seq<string>, m: NidMap,
                        reset: bool, delCount: nat, newCount: nat, removed: set<Option<Nid>>): UpdateOutcome
    requires |ids| == |indexes|
  {
    match ResetMasks(doc, kind, qfill, indexes, reset)
    case Err(e) => UpdateFailed(e)
    case Ok(masks) => WrittenNotes(doc, |indexes|, ids, m, reset, masks, delCount, newCount, removed)
  }

  /** The notes written with the masks `masks` (ngen.py:146-163), for `n`
      shapes, and the tooltip. */
  function WrittenNotes(doc: Node, n: nat, ids: seq<string>, m: NidMap, reset: bool, masks: seq<Option<(Node, Node)>>,
                        delCount: nat, newCount: nat, removed: set<Option<Nid>>): UpdateOutcome
    requires |masks| == |ids|
  {
    match NoteUpdates(ids, m, masks, |ids|)
    case Err(e) => UpdateFailed(e)
    case Ok(notes) =>
      Updated(reset, if reset then Some(doc) else None, notes, removed, delCount, newCount,
              Tooltip(UpdatedCountAsWritten(n, delCount, newCount), delCount, newCount))
  }

  /** What `updateNotes` does once `_deleteAndIdNotes` has reconciled the
      layer `indexes` of `doc` to `rec` (ngen.py:129-163): a failure, the
      declined dialog, or the notes rewritten, with new masks when the
      renumbered document differs from `original` or the type changed. */
  function AfterReconcile(doc: Node, kind: Generator, qfill: string, indexes: seq<nat>, rec: Result<Reconciled>,
                          original: Node, oldOcclTp: string): UpdateOutcome
    requires rec.Ok? ==> |rec.value.ids| == |indexes|
  {
    match rec
    case Err(e) => UpdateFailed(e)
    case Ok(rc) =>
      match RenumberedDoc(doc, indexes, rc.ids)
      case Err(e) => UpdateFailed(e)
      case Ok(doc') =>
        match rc.decision
        case Declined => NotConfirmed
        case Applied(delCount, newCount, removed) =>
          UpdatedNotes(doc', kind, qfill, indexes, rc.ids, rc.nids,
                       doc' != original || ShortName(kind) != oldOcclTp, delCount, newCount, removed)
  }

  /** `updateNotes` (ngen.py:114-167) on the document `svg` of the editor:
      `uniq` and `oldOcclTp` are the stored `uniq_id` and `occl_tp`, `found`
      the notes `_findAllNotes` finds, `confirm` the user's answer and
      `original` the stored O mask. The layer is read in edit mode; no shape
      left stops before anything changes; otherwise the notes are reconciled
      as `Reconcile.BaseDeleteAndIdNotes` states. */
  function UpdateNotesSpec(svg: Node, kind: Generator, qfill: string, uniq: string, oldOcclTp: string,
                           found: NidMap, confirm: bool, original: Node): UpdateOutcome
  {
    var occl := OcclId(uniq, kind);
    match Canon.GetMnodesAndSetIds(svg, true, occl)
    case Err(e) => UpdateFailed(e)
    case Ok(g) =>
      if |g.1.indexes| == 0 then NoShapesLeft
      else AfterReconcile(g.0, kind, qfill, g.1.indexes, BaseDeleteAndIdNotes(g.1.ids, uniq, occl, found, confirm), original, oldOcclTp)
  }

  /** `updateNotes` with the reconciliation the generator's loop computes. */
  function UpdateNotesByLoop(svg: Node, kind: Generator, qfill: string, uniq: string, oldOcclTp: string,
                             found: NidMap, confirm: bool, original: Node): UpdateOutcome
  {
    var occl := OcclId(uniq, kind);
    match Canon.GetMnodesAndSetIds(svg, true, occl)
    case Err(e) => UpdateFailed(e)
    case Ok(g) =>
      if |g.1.indexes| == 0 then NoShapesLeft
      else AfterReconcile(g.0, kind, qfill, g.1.indexes, DeleteAndIdNotesByLoop(g.1.ids, uniq, occl, found, confirm), original, oldOcclTp)
  }

  /** The two agree, because the loop computes the reconciliation. */
  lemma UpdateNotesByLoopIsSpec(svg: Node, kind: Generator, qfill: string, uniq: string, oldOcclTp: string,
                                found: NidMap, confirm: bool, original: Node)
    ensures UpdateNotesByLoop(svg, kind, qfill, uniq, oldOcclTp, found, confirm, original)
         == UpdateNotesSpec(svg, kind, qfill, uniq, oldOcclTp, found, confirm, original)
  {
    var g := Canon.GetMnodesAndSetIds(svg, true, OcclId(uniq, kind));
    if g.Ok? {
      DeleteAndIdNotesByLoopIsBase(g.value.1.ids, uniq, OcclId(uniq, kind), found, confirm);
    }
  }

  /** `UpdateNotesByLoop` once the layer is canonicalised to `doc` and `l`. */
  lemma UpdateNotesByLoopOk(svg: Node, kind: Generator, qfill: string, uniq: string, oldOcclTp: string,
                            found: NidMap, confirm: bool, original: Node, doc: Node, l: Layer)
    requires Canon.GetMnodesAndSetIds(svg, true, OcclId(uniq, kind)) == Ok((doc, l))
    ensures UpdateNotesByLoop(svg, kind, qfill, uniq, oldOcclTp, found, confirm, original)
         == if |l.indexes| == 0 then NoShapesLeft
            else AfterReconcile(doc, kind, qfill, l.indexes, DeleteAndIdNotesByLoop(l.ids, uniq, OcclId(uniq, kind), found, confirm), original, oldOcclTp)
  {
  }

  /** `AfterReconcile` of a successful reconciliation on a layer it can
      renumber. */
  lemma AfterReconcileOk(doc: Node, kind: Generator, qfill: string, indexes: seq<nat>, rc: Reconciled,
                         original: Node, oldOcclTp: string, doc': Node)
    requires |rc.ids| == |indexes|
    requires rc.decision.Applied? ==> rc.decision.newCount <= |indexes|
    requires RenumberedDoc(doc, indexes, rc.ids) == Ok(doc')
    ensures rc.decision.Declined? ==> AfterReconcile(doc, kind, qfill, indexes, Ok(rc), original, oldOcclTp) == NotConfirmed
    ensures rc.decision.Applied? ==>
      AfterReconcile(doc, kind, qfill, indexes, Ok(rc), original, oldOcclTp)
        == UpdatedNotes(doc', kind, qfill, indexes, rc.ids, rc.nids, doc' != original || ShortName(kind) != oldOcclTp,
                        rc.decision.delCount, rc.decision.newCount, rc.decision.removed)
  {
  }

  /** Renumbering the canonical layer with any ids, one per shape, succeeds
      and leaves a document whose mask layer is still at its place and
      well formed, the shapes now carrying the new ids. */
  lemma RenumberedCanon(svg: Node, occl: string, ids: seq<string>)
    requires Canon.GetMnodesAndSetIds(svg, true, occl).Ok?
    requires |ids| == |Canon.GetMnodesAndSetIds(svg, true, occl).value.1.indexes|
    ensures var g := Canon.GetMnodesAndSetIds(svg, true, occl);
      var doc, l := g.value.0, g.value.1;
      && MaskLayerPos(svg).Ok?
      && var pos := MaskLayerPos(svg).value;
      && (forall t :: 0 <= t < |l.indexes| ==> l.indexes[t] < |l.children|)
      && var l' := Layer(SetIds(l.children, l.indexes, ids, |ids|), l.indexes, ids);
      && doc.Element? && pos < |doc.children| && doc.children[pos].Element?
      && RenumberedDoc(doc, l.indexes, ids) == Ok(WithLayer(doc, pos, l'.children))
      && MaskLayerPos(WithLayer(doc, pos, l'.children)) == Ok(pos)
      && Canon.WellFormed(l')
  {
    var g := Canon.GetMnodesAndSetIds(svg, true, occl);
    var doc, l := g.value.0, g.value.1;
    CanonDocLayer(svg, true, occl);
    var pos := MaskLayerPos(svg).value;
    SetIdsWellFormed(l, ids);
    MaskLayerPosWithLayer(doc, pos, SetIds(l.children, l.indexes, ids, |ids|));
  }

  /** The notes `updateNotes` writes, against the shapes' ids `ms` before
      the edit and the reconciliation `rc`: the gate's counts and removed
      notes; one note per shape, under its new id and with the note id the
      reconciliation left for it, none for a shape that had no note; masks
      and the O mask `doc'` exactly on a reset; and the tooltip with the
      count of notes edited in place as `_showUpdateTooltip` computes it. */
  ghost predicate UpdatedAsReconciled(r: UpdateOutcome, ms: seq<string>, uniq: string, found: NidMap, rc: Reconciled,
                                      doc': Node, reset: bool)
  {
    && r.Updated?
    && rc.decision == Applied(r.delCount, r.newCount, r.removed)
    && |r.notes| == |ms| == |rc.ids| && r.newCount <= |ms|
    && r.tooltip == Tooltip(UpdatedCountAsWritten(|ms|, r.delCount, r.newCount), r.delCount, r.newCount)
    && r.reset == reset && r.omask == (if reset then Some(doc') else None)
    && forall t :: 0 <= t < |r.notes| ==>
         && r.notes[t].noteId == rc.ids[t]
         && rc.ids[t] in rc.nids && r.notes[t].nid == rc.nids[rc.ids[t]]
         && (!(ms[t] in found && StartsWith(ms[t], uniq)) ==> r.notes[t].nid == None)
         && (r.notes[t].masks.Some? <==> reset)
  }

  /** Every shape's new id has an entry in the reconciled `nids`, `None`
      for a shape that had no note. */
  ghost predicate ReconciledNids(ms: seq<string>, uniq: string, found: NidMap, rc: Reconciled)
    requires |rc.ids| == |ms|
  {
    forall k :: 0 <= k < |ms| ==>
      rc.ids[k] in rc.nids && (!(ms[k] in found && StartsWith(ms[k], uniq)) ==> rc.nids[rc.ids[k]] == None)
  }

  lemma BaseReconciledNids(ms: seq<string>, uniq: string, occl: string, found: NidMap, confirm: bool)
    requires BaseDeleteAndIdNotes(ms, uniq, occl, found, confirm).Ok?
    ensures ReconciledNids(ms, uniq, found, BaseDeleteAndIdNotes(ms, uniq, occl, found, confirm).value)
  {
    BaseFinalIdsHaveNids(ms, uniq, occl, found, confirm);
  }

  /** The count `updateNotes` evidently means to report: the notes it edits
      in place are exactly the shapes whose id is an existing note with the
      prefix, however many other notes were deleted. (The tooltip as written
      subtracts the deleted notes as well: `Dispatch.UpdatedCountUndercounts`.) */
  lemma EditedInPlaceIsKept(ms: seq<string>, uniq: string, occl: string, found: NidMap, confirm: bool)
    requires BaseDeleteAndIdNotes(ms, uniq, occl, found, confirm).Ok?
    requires BaseDeleteAndIdNotes(ms, uniq, occl, found, confirm).value.decision.Applied?
    ensures var d := BaseDeleteAndIdNotes(ms, uniq, occl, found, confirm).value.decision;
      d.newCount <= |ms| &&
      EditedInPlace(|ms|, d.newCount) == |set t | 0 <= t < |ms| && ms[t] in found && StartsWith(ms[t], uniq)|
  {
    var ex := Existing(ms, uniq, found);
    var isNew := NewFlags(ms, ex);
    assert BaseDeleteAndIdNotes(ms, uniq, occl, found, confirm).value.decision.newCount == CountNew(isNew);
    KeptBefore(isNew, |ms|);
    forall t | 0 <= t < |ms|
      ensures !isNew[t] <==> ms[t] in found && StartsWith(ms[t], uniq)
    {
      ExistingIff(ms, uniq, found, ms[t]);
    }
    assert (set t | 0 <= t < |ms| && !isNew[t]) == (set t | 0 <= t < |ms| && ms[t] in found && StartsWith(ms[t], uniq));
  }

  /** With an entry for every new id, no lookup fails: the update goes
      through with one note per shape, each under its new id with the `nid`
      the reconciliation left and the masks given for it. */
  lemma WrittenNotesOk(doc: Node, ms: seq<string>, uniq: string, found: NidMap, rc: Reconciled, reset: bool,
                       masks: seq<Option<(Node, Node)>>)
    requires rc.decision.Applied? && |ms| == |rc.ids| == |masks| && rc.decision.newCount <= |ms|
    requires ReconciledNids(ms, uniq, found, rc)
    requires forall t :: 0 <= t < |masks| ==> (masks[t].Some? <==> reset)
    ensures UpdatedAsReconciled(WrittenNotes(doc, |ms|, rc.ids, rc.nids, reset, masks,
                                             rc.decision.delCount, rc.decision.newCount, rc.decision.removed),
                                ms, uniq, found, rc, doc, reset)
    ensures var r := WrittenNotes(doc, |ms|, rc.ids, rc.nids, reset, masks,
                                  rc.decision.delCount, rc.decision.newCount, rc.decision.removed);
      r.Updated? && forall t :: 0 <= t < |r.notes| ==> r.notes[t].masks == masks[t]
  {
    NoteUpdatesAt(rc.ids, rc.nids, masks, |rc.ids|);
  }

  /** On a well-formed layer the masks of a reset never fail: every note
      gets its pair of masks on a reset and none otherwise. */
  lemma ResetMasksWellFormed(doc: Node, pos: nat, l: Layer, kind: Generator, qfill: string, reset: bool)
    requires MaskLayerPos(doc) == Ok(pos) && doc.children[pos].children == l.children && Canon.WellFormed(l)
    requires kind == AoGen || kind == OaGen
    ensures var r := ResetMasks(doc, kind, qfill, l.indexes, reset);
      r.Ok? && forall t :: 0 <= t < |r.value| ==> (r.value[t].Some? <==> reset)
  {
    if reset {
      MasksForWellFormed(doc, pos, l, kind, Q, qfill);
      MasksForWellFormed(doc, pos, l, kind, A, qfill);
    }
  }

  /** An applied reconciliation of the canonical layer always goes through:
      the renumbered document is well formed, so no mask and no lookup
      fails. */
  lemma AppliedOutcome(svg: Node, kind: Generator, qfill: string, uniq: string, oldOcclTp: string,
                       found: NidMap, confirm: bool, original: Node, doc: Node, l: Layer, rc: Reconciled)
    requires kind == AoGen || kind == OaGen
    requires Canon.GetMnodesAndSetIds(svg, true, OcclId(uniq, kind)) == Ok((doc, l))
    requires |rc.ids| == |l.ids| && rc.decision.Applied? && rc.decision.newCount <= |l.indexes|
    requires ReconciledNids(l.ids, uniq, found, rc)
    ensures |rc.ids| == |l.indexes|
    ensures RenumberedDoc(doc, l.indexes, rc.ids).Ok?
    ensures var doc' := RenumberedDoc(doc, l.indexes, rc.ids).value;
      UpdatedAsReconciled(AfterReconcile(doc, kind, qfill, l.indexes, Ok(rc), original, oldOcclTp),
                          l.ids, uniq, found, rc, doc', doc' != original || ShortName(kind) != oldOcclTp)
  {
    var occl := OcclId(uniq, kind);
    RenumberedCanon(svg, occl, rc.ids);
    var pos := MaskLayerPos(svg).value;
    var l' := Layer(SetIds(l.children, l.indexes, rc.ids, |rc.ids|), l.indexes, rc.ids);
    var doc' := WithLayer(doc, pos, l'.children);
    var reset := doc' != original || ShortName(kind) != oldOcclTp;
    AfterReconcileOk(doc, kind, qfill, l.indexes, rc, original, oldOcclTp, doc');
    ResetMasksWellFormed(doc', pos, l', kind, qfill, reset);
    var masks := ResetMasks(doc', kind, qfill, l.indexes, reset).value;
    WrittenNotesOk(doc', l.ids, uniq, found, rc, reset, masks);
  }

  /** The masks of a reset on a well-formed layer, shape by shape: the
      question and answer mask of shape `t`, against the document with its
      `n` mask nodes, keep `n` and `n - 1` of them for AO, one and none for
      OA. */
  lemma ResetMaskShapes(doc: Node, pos: nat, l: Layer, kind: Generator, qfill: string, t: nat)
    requires MaskLayerPos(doc) == Ok(pos) && doc.children[pos].children == l.children && Canon.WellFormed(l)
    requires kind == AoGen || kind == OaGen
    requires t < |l.indexes|
    ensures var ms := ResetMasks(doc, kind, qfill, l.indexes, true);
      var n := |l.indexes|;
      && ms.Ok? && ms.value[t].Some?
      && MaskCount(doc.children[pos].children) == n
      && MaskOf(doc, pos, ms.value[t].value.0, if kind == AoGen then n else 1)
      && MaskOf(doc, pos, ms.value[t].value.1, if kind == AoGen then n - 1 else 0)
  {
    var n := |l.indexes|;
    MasksForWellFormed(doc, pos, l, kind, Q, qfill);
    MasksForWellFormed(doc, pos, l, kind, A, qfill);
    MasksForAt(doc, kind, Q, l.indexes, qfill, n, t);
    MasksForAt(doc, kind, A, l.indexes, qfill, n, t);
    MaskShape(doc, pos, l, kind, Q, t, qfill);
    MaskShape(doc, pos, l, kind, A, t, qfill);
    WellFormedMaskCount(l);
  }

  /** The masks `updateNotes` writes on a reset, against the renumbered O
      mask with its `n` shapes: as for new notes, an AO question mask keeps
      all `n` and its answer mask `n - 1`; an OA question mask keeps one
      and its answer mask none. */
  lemma UpdatedMasks(svg: Node, kind: Generator, qfill: string, uniq: string, oldOcclTp: string,
                     found: NidMap, confirm: bool, original: Node, t: nat)
    requires kind == AoGen || kind == OaGen
    requires var r := UpdateNotesSpec(svg, kind, qfill, uniq, oldOcclTp, found, confirm, original);
      r.Updated? && r.reset && t < |r.notes|
    ensures var r := UpdateNotesSpec(svg, kind, qfill, uniq, oldOcclTp, found, confirm, original);
      var n := |r.notes|;
      && r.omask.Some? && MaskLayerPos(r.omask.value).Ok?
      && var pos := MaskLayerPos(r.omask.value).value;
      && MaskCount(r.omask.value.children[pos].children) == n
      && r.notes[t].masks.Some?
      && MaskOf(r.omask.value, pos, r.notes[t].masks.value.0, if kind == AoGen then n else 1)
      && MaskOf(r.omask.value, pos, r.notes[t].masks.value.1, if kind == AoGen then n - 1 else 0)
  {
    var occl := OcclId(uniq, kind);
    var g := Canon.GetMnodesAndSetIds(svg, true, occl);
    var doc, l := g.value.0, g.value.1;
    var rc := BaseDeleteAndIdNotes(l.ids, uniq, occl, found, confirm).value;
    UpdateNotesUpdated(svg, kind, qfill, uniq, oldOcclTp, found, confirm, original);
    BaseReconciledNids(l.ids, uniq, occl, found, confirm);
    RenumberedCanon(svg, occl, rc.ids);
    var pos := MaskLayerPos(svg).value;
    var l' := Layer(SetIds(l.children, l.indexes, rc.ids, |rc.ids|), l.indexes, rc.ids);
    var doc' := WithLayer(doc, pos, l'.children);
    AfterReconcileOk(doc, kind, qfill, l.indexes, rc, original, oldOcclTp, doc');
    ResetMasksWellFormed(doc', pos, l', kind, qfill, true);
    var masks := ResetMasks(doc', kind, qfill, l.indexes, true).value;
    WrittenNotesOk(doc', l.ids, uniq, found, rc, true, masks);
    ResetMaskShapes(doc', pos, l', kind, qfill, t);
  }

  /** `updateNotes` stops with no shapes left exactly when the edited layer
      has none; fails exactly where the layer cannot be read or the
      reconciliation fails; and is declined exactly when the gate declines.
      Every other run updates the notes. */
  lemma UpdateNotesOutcome(svg: Node, kind: Generator, qfill: string, uniq: string, oldOcclTp: string,
                           found: NidMap, confirm: bool, original: Node)
    requires kind == AoGen || kind == OaGen
    ensures var occl := OcclId(uniq, kind);
      var g := Canon.GetMnodesAndSetIds(svg, true, occl);
      var r := UpdateNotesSpec(svg, kind, qfill, uniq, oldOcclTp, found, confirm, original);
      && (r.NoShapesLeft? <==> g.Ok? && |g.value.1.indexes| == 0)
      && (r.UpdateFailed? <==>
            g.Err? || (|g.value.1.indexes| > 0 && BaseDeleteAndIdNotes(g.value.1.ids, uniq, occl, found, confirm).Err?))
      && (r.NotConfirmed? <==>
            && g.Ok? && |g.value.1.indexes| > 0
            && BaseDeleteAndIdNotes(g.value.1.ids, uniq, occl, found, confirm).Ok?
            && BaseDeleteAndIdNotes(g.value.1.ids, uniq, occl, found, confirm).value.decision.Declined?)
  {
    var occl := OcclId(uniq, kind);
    var g := Canon.GetMnodesAndSetIds(svg, true, occl);
    if g.Ok? && |g.value.1.indexes| > 0 {
      var doc, l := g.value.0, g.value.1;
      var rec := BaseDeleteAndIdNotes(l.ids, uniq, occl, found, confirm);
      if rec.Ok? {
        if rec.value.decision.Applied? {
          BaseReconciledNids(l.ids, uniq, occl, found, confirm);
          AppliedOutcome(svg, kind, qfill, uniq, oldOcclTp, found, confirm, original, doc, l, rec.value);
        } else {
          RenumberedCanon(svg, occl, rec.value.ids);
        }
      }
    }
  }

  /** When `updateNotes` updates, it does so as the reconciliation of the
      edited layer says. */
  lemma UpdateNotesUpdated(svg: Node, kind: Generator, qfill: string, uniq: string, oldOcclTp: string,
                           found: NidMap, confirm: bool, original: Node)
    requires kind == AoGen || kind == OaGen
    requires UpdateNotesSpec(svg, kind, qfill, uniq, oldOcclTp, found, confirm, original).Updated?
    ensures var occl := OcclId(uniq, kind);
      var g := Canon.GetMnodesAndSetIds(svg, true, occl);
      && g.Ok? && |g.value.1.indexes| > 0
      && var l := g.value.1;
      && BaseDeleteAndIdNotes(l.ids, uniq, occl, found, confirm).Ok?
      && var rc := BaseDeleteAndIdNotes(l.ids, uniq, occl, found, confirm).value;
      && RenumberedDoc(g.value.0, l.indexes, rc.ids).Ok?
      && var doc' := RenumberedDoc(g.value.0, l.indexes, rc.ids).value;
      UpdatedAsReconciled(UpdateNotesSpec(svg, kind, qfill, uniq, oldOcclTp, found, confirm, original),
                          l.ids, uniq, found, rc, doc', doc' != original || ShortName(kind) != oldOcclTp)
  {
    var occl := OcclId(uniq, kind);
    var g := Canon.GetMnodesAndSetIds(svg, true, occl);
    var doc, l := g.value.0, g.value.1;
    var rc := BaseDeleteAndIdNotes(l.ids, uniq, occl, found, confirm).value;
    BaseReconciledNids(l.ids, uniq, occl, found, confirm);
    AppliedOutcome(svg, kind, qfill, uniq, oldOcclTp, found, confirm, original, doc, l, rc);
  }

  class NoteGenerator {
    const kind: Generator
    const qfill: string
    var newSvg: Node
    var uniqId: string
    var occlId: string
    var mnodeIndexes: seq<nat>
    var mnodeIds: map<nat, string>
    var nids: NidMap

    /** `mnode_indexes` ascend and are exactly the keys of `mnode_ids`. */
    ghost predicate Valid()
      reads this
    {
      && (kind == AoGen || kind == OaGen)
      && Ascending(mnodeIndexes)
      && mnodeIds.Keys == Positions(mnodeIndexes)
    }

    constructor(kind: Generator, svg: Node, qfill: string)
      requires kind == AoGen || kind == OaGen
      ensures this.kind == kind && this.qfill == qfill && newSvg == svg
      ensures mnodeIndexes == [] && mnodeIds == map[] && nids == map[]
      ensures Valid()
    {
      this.kind := kind;
      this.qfill := qfill;
      newSvg := svg;
      uniqId, occlId := "", "";
      mnodeIndexes, mnodeIds, nids := [], map[], map[];
    }

    /** `_getMnodesAndSetIds(edit)` (ngen.py:202-248): returns the prepared
        document and the position of its mask layer, and fills
        `mnode_indexes` and `mnode_ids`, exactly as `Canon` specifies. */
    method GetMnodesAndSetIds(edit: bool) returns (r: Result<(Node, nat)>)
      requires kind == AoGen || kind == OaGen
      modifies this
      ensures newSvg == old(newSvg) && uniqId == old(uniqId) && occlId == old(occlId) && nids == old(nids)
      ensures var spec := Canon.GetMnodesAndSetIds(newSvg, edit, occlId);
        && (r.Err? <==> spec.Err?)
        && (r.Err? ==> r.error == spec.error)
        && (r.Ok? ==>
              && r.value.0 == spec.value.0
              && MaskLayerPos(newSvg) == Ok(r.value.1)
              && mnodeIndexes == spec.value.1.indexes
              && mnodeIds == IdMap(spec.value.1.indexes, spec.value.1.ids)
              && Valid())
    {
      mnodeIndexes := [];
      mnodeIds := map[];
      var doc := newSvg;
      var ch := FloatAttr(doc, "height");
      if ch.Err? { return Err(ch.error); }
      var cw := FloatAttr(doc, "width");
      if cw.Err? { return Err(cw.error); }
      var carea := Area(ch.value, cw.value);
      var posR := MaskLayerPos(doc);
      if posR.Err? { return Err(posR.error); }
      var pos := posR.value;
      var cs := doc.children[pos].children;
      var children := MaskLayerLoop(cs, edit, carea);
      GetMnodesAndSetIdsLayer(doc, edit, occlId, ch.value, cw.value, pos);
      if children.Err? { return Err(children.error); }
      CanonLayerWellFormed(cs, edit, carea, occlId);
      return Ok((WithLayer(doc, pos, children.value), pos));
    }

    /** The loop of `_getMnodesAndSetIds` over the children of the mask
        layer (ngen.py:215-246). */
    method MaskLayerLoop(cs: seq<Node>, edit: bool, carea: real) returns (r: Result<seq<Node>>)
      requires mnodeIndexes == [] && mnodeIds == map[]
      modifies this
      ensures newSvg == old(newSvg) && uniqId == old(uniqId) && occlId == old(occlId) && nids == old(nids)
      ensures var spec := CanonLayer(cs, edit, carea, occlId);
        && (r.Err? <==> spec.Err?)
        && (r.Err? ==> r.error == spec.error)
        && (r.Ok? ==> && r.value == spec.value.children && mnodeIndexes == spec.value.indexes
                      && |spec.value.ids| == |spec.value.indexes|
                      && mnodeIds == IdMap(spec.value.indexes, spec.value.ids))
    {
      var children: seq<Node> := [];
      ghost var ids: seq<string> := [];
      var i := 0;
      while i < |cs|
        invariant 0 <= i <= |cs|
        invariant |ids| == |mnodeIndexes|
        invariant CanonLayer(cs[..i], edit, carea, occlId) == Ok(Layer(children, mnodeIndexes, ids))
        invariant mnodeIds == IdMap(mnodeIndexes, ids)
        invariant newSvg == old(newSvg) && uniqId == old(uniqId) && occlId == old(occlId) && nids == old(nids)
      {
        assert cs[..i + 1][..i] == cs[..i];
        var res;
        res, ids := VisitChild(children, cs[i], edit, carea, ids);
        if res.Err? {
          CanonLayerErrSticks(cs, edit, carea, occlId, i + 1);
          return Err(res.error);
        }
        children := res.value;
        i := i + 1;
      }
      assert cs[..|cs|] == cs;
      return Ok(children);
    }

    /** One iteration of that loop: a mask node is kept or dropped, cleaned
        and recorded in `mnode_indexes` and `mnode_ids`, in create mode
        under the next dense number; any other child is kept as it is. */
    method VisitChild(children: seq<Node>, c: Node, edit: bool, carea: real, ghost ids: seq<string>)
      returns (res: Result<seq<Node>>, ghost ids': seq<string>)
      requires |ids| == |mnodeIndexes| && mnodeIds == IdMap(mnodeIndexes, ids)
      modifies this
      ensures newSvg == old(newSvg) && uniqId == old(uniqId) && occlId == old(occlId) && nids == old(nids)
      ensures var spec := Step(Layer(children, old(mnodeIndexes), ids), c, edit, carea, occlId);
        && (res.Err? <==> spec.Err?)
        && (res.Err? ==> res.error == spec.error)
        && (res.Ok? ==> && |ids'| == |mnodeIndexes|
                        && spec.value == Layer(res.value, mnodeIndexes, ids')
                        && mnodeIds == IdMap(mnodeIndexes, ids'))
    {
      ids' := ids;
      if !(c.Element? && c.tag != "title") {
        return Ok(children + [c]), ids';
      }
      var drop := false;
      if !edit && c.tag == "rect" {
        var micro := IsMicro(c, carea);
        if micro.Err? {
          return Err(micro.error), ids';
        }
        drop := micro.value;
      }
      if !edit && c.tag != "rect" {
        OnlyRectsAreDropped(c, carea);
      }
      if drop {
        return Ok(children), ids';
      }
      var m := Prepare(c);
      var k := |children|;
      if !edit {
        mnodeIndexes := mnodeIndexes + [k];
        var id := BaseNoteId(occlId, NatToString(|mnodeIndexes|));
        mnodeIds := mnodeIds[k := id];
        ids' := ids + [id];
        return Ok(children + [SetAttr(m, "id", id)]), ids';
      }
      var a := GetAttr(m, "id");
      if a.None? {
        return Err(MissingAttribute("id")), ids';
      }
      mnodeIndexes := mnodeIndexes + [k];
      mnodeIds := mnodeIds[k := a.value];
      ids' := ids + [a.value];
      return Ok(children + [m]), ids';
    }

    /** `_deleteAndIdNotes(mlayer_node)` (ngen.py:269-370) on the layer `pos`
        of `doc`: every shape gets its new id, in the layer, in `mnode_ids`
        and in `nids`, exactly as `DeleteAndIdNotesByLoop` specifies (which
        `DeleteAndIdNotesByLoopIsBase` proves equal to
        `Reconcile.BaseDeleteAndIdNotes`); the result is the gate's decision. */
    method DeleteAndIdNotes(doc: Node, pos: nat, uniq: string, confirm: bool) returns (doc': Node, r: Result<Decision>)
      requires Valid()
      requires doc.Element? && pos < |doc.children| && doc.children[pos].Element?
      requires forall t :: 0 <= t < |mnodeIndexes| ==> mnodeIndexes[t] < |doc.children[pos].children|
      modifies this
      ensures newSvg == old(newSvg) && uniqId == old(uniqId) && occlId == old(occlId)
      ensures mnodeIndexes == old(mnodeIndexes)
      ensures var ms := ValuesAt(old(mnodeIds), mnodeIndexes);
        var spec := DeleteAndIdNotesByLoop(ms, uniq, occlId, old(nids), confirm);
        && (r.Err? <==> spec.Err?)
        && (r.Err? ==> r.error == spec.error)
        && (r.Ok? ==>
              && r.value == spec.value.decision
              && nids == spec.value.nids
              && |spec.value.ids| == |mnodeIndexes|
              && mnodeIds == IdMap(mnodeIndexes, spec.value.ids)
              && doc' == WithLayer(doc, pos, SetIds(doc.children[pos].children, mnodeIndexes, spec.value.ids, |mnodeIndexes|))
              && Valid())
    {
      var res := RenumberAndGate(doc, pos, mnodeIndexes, mnodeIds, nids, uniq, confirm);
      if res.Err? {
        return doc, Err(res.error);
      }
      var decision;
      doc', decision, nids, mnodeIds := res.value.0, res.value.1, res.value.2, res.value.3;
      return doc', Ok(decision);
    }

    /** The body of `_deleteAndIdNotes` on the values of `mnode_indexes`,
        `mnode_ids` and `nids`: returns the renumbered document, the gate's
        decision and the new `nids` and `mnode_ids`. */
    method RenumberAndGate(doc: Node, pos: nat, indexes: seq<nat>, idm: map<nat, string>, m: NidMap, uniq: string, confirm: bool)
      returns (r: Result<(Node, Decision, NidMap, map<nat, string>)>)
      requires Ascending(indexes) && idm.Keys == Positions(indexes)
      requires doc.Element? && pos < |doc.children| && doc.children[pos].Element?
      requires forall t :: 0 <= t < |indexes| ==> indexes[t] < |doc.children[pos].children|
      ensures var spec := DeleteAndIdNotesByLoop(ValuesAt(idm, indexes), uniq, occlId, m, confirm);
        && (r.Err? <==> spec.Err?)
        && (r.Err? ==> r.error == spec.error)
        && (r.Ok? ==>
              && |spec.value.ids| == |indexes|
              && r.value == (WithLayer(doc, pos, SetIds(doc.children[pos].children, indexes, spec.value.ids, |indexes|)),
                             spec.value.decision, spec.value.nids, IdMap(indexes, spec.value.ids)))
    {
      var ms := ValuesAt(idm, indexes);
      IdMapOfValues(idm, indexes);
      var validM := Prefixed(ms, uniq);
      var validN := ValidNoteIds(m, uniq);
      var ex := Within(validM, validN);
      var nrs := BaseNumbers(ex);
      if nrs.Err? { return Err(nrs.error); }
      var deleted := BaseDeleted(ms, uniq, m);
      var delCount := |deleted|;
      var deletedNids := NidsOf(m, deleted);
      var shapes := IdShapes(doc.children[pos].children, indexes, idm, m, ex, Start(nrs.value), ms);
      if shapes.Err? { return Err(shapes.error); }
      var (cs, newCount, m', idm') := shapes.value;
      ByLoopOk(ms, uniq, occlId, m, confirm, nrs.value, RenumberLoop(ms, ex, occlId, Start(nrs.value), m, |ms|).value);
      var doc' := WithLayer(doc, pos, cs);
      if (delCount > 0 || newCount > 0) && !confirm {
        return Ok((doc', Declined, m', idm'));
      }
      return Ok((doc', Applied(delCount, newCount, deletedNids), m', idm'));
    }

    /** The loop of `_deleteAndIdNotes` over `mnode_indexes`
        (ngen.py:320-346): a shape without a note takes the next free number
        and is entered in `nids` with no note; a shape with one keeps its
        number under the current `occl_id` and its note moves to the new id
        (a KeyError when it is gone). Returns the renumbered layer and
        `new_count`, exactly as `RenumberLoop` specifies. */
    method IdShapes(cs0: seq<Node>, indexes: seq<nat>, idm0: map<nat, string>, m0: NidMap,
                    ex: seq<string>, c0: Counter, ghost ms: seq<string>)
      returns (r: Result<(seq<Node>, nat, NidMap, map<nat, string>)>)
      requires Ascending(indexes) && |ms| == |indexes| && idm0 == IdMap(indexes, ms)
      requires forall t :: 0 <= t < |indexes| ==> indexes[t] < |cs0|
      ensures var spec := RenumberLoop(ms, ex, occlId, c0, m0, |ms|);
        && (r.Err? <==> spec.Err?)
        && (r.Err? ==> r.error == spec.error)
        && (r.Ok? ==>
              && |spec.value.ids| == |ms|
              && r.value == (SetIds(cs0, indexes, spec.value.ids, |ms|), spec.value.newCount,
                             spec.value.nids, IdMap(indexes, spec.value.ids)))
    {
      var m := m0;
      var idm := idm0;
      var counter := c0;
      var cs := cs0;
      var newCount := 0;
      var j := 0;
      ghost var done: seq<string> := [];
      ghost var vals := ms;
      while j < |indexes|
        invariant RenumberInv(cs0, indexes, ms, ex, occlId, c0, m0, j, done, counter, newCount, m, idm, cs, vals)
      {
        var one := VisitShape(cs0, indexes, ms, ex, c0, m0, j, done, counter, newCount, m, idm, cs, vals);
        if one.Err? {
          return Err(one.error);
        }
        var newId;
        newId, counter, newCount, m, idm, cs := one.value.0, one.value.1, one.value.2, one.value.3, one.value.4, one.value.5;
        vals := vals[j := newId];
        done := done + [newId];
        j := j + 1;
      }
      RenumberInvDone(cs0, indexes, ms, ex, occlId, c0, m0, j, done, counter, newCount, m, idm, cs, vals);
      return Ok((cs, newCount, m, idm));
    }

    /** One iteration of that loop, for shape `j`: reads its id from
        `mnode_ids`, gives it its new id (or fails on a shape whose note is
        gone), and writes the new id to the layer and to `mnode_ids`. */
    method VisitShape(cs0: seq<Node>, indexes: seq<nat>, ghost ms: seq<string>, ex: seq<string>, ghost c0: Counter,
                      ghost m0: NidMap, j: nat, ghost done: seq<string>, counter: Counter, newCount: nat, m: NidMap,
                      idm: map<nat, string>, cs: seq<Node>, ghost vals: seq<string>)
      returns (r: Result<(string, Counter, nat, NidMap, map<nat, string>, seq<Node>)>)
      requires j < |indexes|
      requires RenumberInv(cs0, indexes, ms, ex, occlId, c0, m0, j, done, counter, newCount, m, idm, cs, vals)
      ensures r.Err? ==> RenumberLoop(ms, ex, occlId, c0, m0, |ms|) == Err(r.error)
      ensures r.Ok? ==>
        var (newId, counter', newCount', m', idm', cs') := r.value;
        RenumberInv(cs0, indexes, ms, ex, occlId, c0, m0, j + 1, done + [newId], counter', newCount', m', idm', cs', vals[j := newId])
    {
      var idx := indexes[j];
      LoopLookup(cs0, indexes, ms, vals, done, j, cs, idm);
      var mnodeId := idm[idx];
      ghost var st := Renumbered(done, counter, newCount, m);
      if mnodeId in ex && mnodeId !in m {
        // `nids.pop(mnode_id)` raises a KeyError before anything else changes
        RenumberInvFails(cs0, indexes, ms, ex, occlId, c0, m0, j, done, counter, newCount, m, idm, cs, vals);
        return Err(MissingKey(mnodeId));
      }
      var newId, counter', newCount', m';
      if mnodeId !in ex {
        var next := Take(counter);
        newId := BaseNoteId(occlId, NatToString(next.0));
        counter', newCount' := next.1, newCount + 1;
        m' := m[newId := None];
      } else {
        newId := BaseNoteId(occlId, BaseNrText(mnodeId));
        counter', newCount' := counter, newCount;
        m' := (m - {mnodeId})[newId := m[mnodeId]];
      }
      assert RenumberStep(st, ms[j], ex, occlId) == Ok(Renumbered(done + [newId], counter', newCount', m'));
      RenumberInvNext(cs0, indexes, ms, ex, occlId, c0, m0, j, done, counter, newCount, m, idm, cs, vals,
                      newId, counter', newCount', m');
      return Ok((newId, counter', newCount', m', idm[idx := newId], cs[idx := SetAttr(cs[idx], "id", newId)]));
    }

    /** `_createMask(side, mask_node_index)` (ngen.py:378-387 with the
        subclasses' `_createMaskAtLayernode`, ngen.py:487-519) on a fresh
        parse of `new_svg`. */
    method CreateMask(side: MaskType, idx: nat) returns (r: Result<Node>)
      requires Valid()
      ensures r == CreateMaskSpec(newSvg, kind, side, idx, mnodeIndexes, qfill)
    {
      var posR := MaskLayerPos(newSvg);
      if posR.Err? {
        return Err(posR.error);
      }
      var pos := posR.value;
      var cs := newSvg.children[pos].children;
      var layer;
      if kind == OaGen {
        layer := OaMaskLayer(cs, mnodeIndexes, idx, side, qfill);
      } else {
        layer := AoMaskLayer(cs, side, idx, qfill);
      }
      if layer.Err? {
        return Err(layer.error);
      }
      return Ok(WithLayer(newSvg, pos, layer.value));
    }

    /** `_generateMaskSVGsFor(side)` (ngen.py:372-376): the masks of all
        shapes, in `mnode_indexes` order. */
    method GenerateMasksFor(side: MaskType) returns (r: Result<seq<Node>>)
      requires Valid()
      ensures r == MasksFor(newSvg, kind, side, mnodeIndexes, qfill, |mnodeIndexes|)
    {
      var masks: seq<Node> := [];
      var t := 0;
      while t < |mnodeIndexes|
        invariant t <= |mnodeIndexes|
        invariant MasksFor(newSvg, kind, side, mnodeIndexes, qfill, t) == Ok(masks)
      {
        var m := CreateMask(side, mnodeIndexes[t]);
        if m.Err? {
          MasksForErrSticks(newSvg, kind, side, mnodeIndexes, qfill, t + 1);
          return Err(m.error);
        }
        masks := masks + [m.value];
        t := t + 1;
      }
      return Ok(masks);
    }

    /** The loop of `generateNotes` over `enumerate(mnode_indexes)`
        (ngen.py:106-109): the note of each shape, with the id `mnode_ids`
        holds for it and its masks. */
    method CollectNewNotes(qm: seq<Node>, am: seq<Node>) returns (notes: seq<NewNote>)
      requires Valid() && |qm| == |mnodeIndexes| && |am| == |mnodeIndexes|
      ensures notes == NewNotes(ValuesAt(mnodeIds, mnodeIndexes), qm, am)
    {
      notes := [];
      var nr := 0;
      while nr < |mnodeIndexes|
        invariant nr <= |mnodeIndexes| && |notes| == nr
        invariant forall t :: 0 <= t < nr ==> notes[t] == NewNote(mnodeIds[mnodeIndexes[t]], qm[t], am[t])
      {
        var noteId := mnodeIds[mnodeIndexes[nr]];
        notes := notes + [NewNote(noteId, qm[nr], am[nr])];
        nr := nr + 1;
      }
    }

    /** `generateNotes()` (ngen.py:87-112), with `int(time.time())` read
        as `epochSecs`: exactly `GenerateNotesSpec` of the document the
        generator was made with. On success `new_svg` is the O mask. */
    method GenerateNotes(epochSecs: nat) returns (r: GenerateOutcome)
      requires Valid()
      modifies this
      ensures r == GenerateNotesSpec(old(newSvg), kind, qfill, epochSecs)
      ensures uniqId == NatToString(epochSecs) && occlId == OcclId(uniqId, kind)
      ensures r.Generated? ==> newSvg == r.omask && Valid()
    {
      uniqId := NatToString(epochSecs);
      occlId := OcclId(uniqId, kind);
      var g := GetMnodesAndSetIds(false);
      if g.Err? {
        return GenerateFailed(g.error);
      }
      ghost var svg := newSvg;
      ghost var l := Canon.GetMnodesAndSetIds(svg, false, occlId).value.1;
      GenerateNotesSpecOk(svg, kind, qfill, epochSecs, g.value.0, l);
      IdMapEmpty(l.indexes, l.ids);
      if |mnodeIds| == 0 {
        return NoCards;
      }
      newSvg := g.value.0;
      r := MakeNotes();
      IdMapValues(l.indexes, l.ids);
    }

    /** The second half of `generateNotes` on the canonical `new_svg`:
        exactly `MaskedNotes` of the shapes and their ids. */
    method MakeNotes() returns (r: GenerateOutcome)
      requires Valid()
      ensures r == MaskedNotes(newSvg, kind, qfill, mnodeIndexes, ValuesAt(mnodeIds, mnodeIndexes))
      ensures r.Generated? ==> r.omask == newSvg
    {
      var qm := GenerateMasksFor(Q);
      if qm.Err? {
        return GenerateFailed(qm.error);
      }
      var am := GenerateMasksFor(A);
      if am.Err? {
        return GenerateFailed(am.error);
      }
      var notes := CollectNewNotes(qm.value, am.value);
      return Generated(newSvg, notes, AddedLine(|qm.value|));
    }

    /** `updateNotes()` (ngen.py:114-167): `uniq` and `oldOcclTp` are the
        stored `uniq_id` and `occl_tp`, `found` what `_findAllNotes` puts
        in `nids`, `confirm` the user's answer to the dialog and `original`
        the stored O mask. Exactly `UpdateNotesSpec` of the editor's
        document; once the notes are rewritten `new_svg` is the renumbered
        document. */
    method UpdateNotes(uniq: string, oldOcclTp: string, found: NidMap, confirm: bool, original: Node) returns (r: UpdateOutcome)
      requires Valid()
      modifies this
      ensures r == UpdateNotesByLoop(old(newSvg), kind, qfill, uniq, oldOcclTp, found, confirm, original)
      ensures uniqId == uniq && occlId == OcclId(uniq, kind)
      ensures r.Updated? ==> (r.reset ==> r.omask == Some(newSvg)) && Valid()
    {
      uniqId := uniq;
      occlId := OcclId(uniq, kind);
      nids := found;
      var g := GetMnodesAndSetIds(true);
      if g.Err? {
        return UpdateFailed(g.error);
      }
      ghost var svg := newSvg;
      assert svg == old(newSvg);
      ghost var l := Canon.GetMnodesAndSetIds(svg, true, occlId).value.1;
      var doc, pos := g.value.0, g.value.1;
      UpdateNotesByLoopOk(svg, kind, qfill, uniq, oldOcclTp, found, confirm, original, doc, l);
      IdMapEmpty(l.indexes, l.ids);
      if |mnodeIds| == 0 {
        return NoShapesLeft;
      }
      CanonDocBounds(svg, true, occlId);
      IdMapValues(l.indexes, l.ids);
      ghost var rcR := DeleteAndIdNotesByLoop(l.ids, uniq, occlId, found, confirm);
      r := ReconcileAndRewrite(doc, pos, uniq, oldOcclTp, confirm, original, rcR);
    }

    /** `updateNotes` from `_deleteAndIdNotes` on (ngen.py:128-163), on
        the prepared document `doc` with its mask layer at `pos`: exactly
        `AfterReconcile` of what the loop reconciles. */
    method ReconcileAndRewrite(doc: Node, pos: nat, uniq: string, oldOcclTp: string, confirm: bool, original: Node,
                               ghost rcR: Result<Reconciled>)
      returns (r: UpdateOutcome)
      requires Valid()
      requires MaskLayerPos(doc) == Ok(pos)
      requires forall t :: 0 <= t < |mnodeIndexes| ==> mnodeIndexes[t] < |doc.children[pos].children|
      requires rcR == DeleteAndIdNotesByLoop(ValuesAt(mnodeIds, mnodeIndexes), uniq, occlId, nids, confirm)
      modifies this
      ensures rcR.Ok? ==> |rcR.value.ids| == |old(mnodeIndexes)|
      ensures rcR.Ok? && rcR.value.decision.Applied? ==> rcR.value.decision.newCount <= |old(mnodeIndexes)|
      ensures r == AfterReconcile(doc, kind, qfill, old(mnodeIndexes), rcR, original, oldOcclTp)
      ensures uniqId == old(uniqId) && occlId == old(occlId) && mnodeIndexes == old(mnodeIndexes)
      ensures r.Updated? ==> (r.reset ==> r.omask == Some(newSvg)) && Valid()
    {
      var doc', d := DeleteAndIdNotes(doc, pos, uniq, confirm);
      if d.Err? {
        return UpdateFailed(d.error);
      }
      ghost var rc := rcR.value;
      assert RenumberedDoc(doc, mnodeIndexes, rc.ids) == Ok(doc');
      AfterReconcileOk(doc, kind, qfill, mnodeIndexes, rc, original, oldOcclTp, doc');
      r := ApplyDecision(d.value, doc', original, oldOcclTp, rc);
    }

    /** `updateNotes` once the gate has decided (ngen.py:131-163): a
        declined edit changes nothing more; an applied one writes the
        renumbered document back as `new_svg` and finishes the update. */
    method ApplyDecision(dec: Decision, doc': Node, original: Node, oldOcclTp: string, ghost rc: Reconciled)
      returns (r: UpdateOutcome)
      requires Valid()
      requires dec == rc.decision && nids == rc.nids
      requires |rc.ids| == |mnodeIndexes| && mnodeIds == IdMap(mnodeIndexes, rc.ids)
      requires dec.Applied? ==> dec.newCount <= |mnodeIndexes|
      modifies this
      ensures dec.Declined? ==> r == NotConfirmed
      ensures dec.Applied? ==>
        r == UpdatedNotes(doc', kind, qfill, old(mnodeIndexes), rc.ids, rc.nids, doc' != original || ShortName(kind) != oldOcclTp,
                          dec.delCount, dec.newCount, dec.removed)
      ensures uniqId == old(uniqId) && occlId == old(occlId) && mnodeIndexes == old(mnodeIndexes)
      ensures r.Updated? ==> (r.reset ==> r.omask == Some(newSvg)) && Valid()
    {
      if dec.Declined? {
        return NotConfirmed;
      }
      newSvg := doc';
      IdMapValues(mnodeIndexes, rc.ids);
      var reset := doc' != original || ShortName(kind) != oldOcclTp;
      r := FinishUpdate(reset, dec.delCount, dec.newCount, dec.removed);
    }

    /** The second half of `updateNotes` on the renumbered `new_svg`:
        exactly `UpdatedNotes` of the shapes, their ids and `nids`. */
    method FinishUpdate(reset: bool, delCount: nat, newCount: nat, removed: set<Option<Nid>>) returns (r: UpdateOutcome)
      requires Valid()
      ensures r == UpdatedNotes(newSvg, kind, qfill, mnodeIndexes, ValuesAt(mnodeIds, mnodeIndexes), nids,
                                reset, delCount, newCount, removed)
      ensures r.Updated? && r.reset ==> r.omask == Some(newSvg)
    {
      var masks := NoMasks(|mnodeIndexes|);
      if reset {
        var qm := GenerateMasksFor(Q);
        if qm.Err? {
          return UpdateFailed(qm.error);
        }
        var am := GenerateMasksFor(A);
        if am.Err? {
          return UpdateFailed(am.error);
        }
        masks := MaskPairs(qm.value, am.value);
      }
      var notes := CollectNoteUpdates(masks);
      if notes.Err? {
        return UpdateFailed(notes.error);
      }
      var omask := if reset then Some(newSvg) else None;
      return Updated(reset, omask, notes.value, removed, delCount, newCount,
                     Tooltip(UpdatedCountAsWritten(|mnodeIndexes|, delCount, newCount), delCount, newCount));
    }

    /** The loop of `updateNotes` over `enumerate(mnode_indexes)`
        (ngen.py:148-162): the id of each shape from `mnode_ids`, its
        `nid` from `nids` (a KeyError when missing) and its masks. */
    method CollectNoteUpdates(masks: seq<Option<(Node, Node)>>) returns (r: Result<seq<NoteUpdate>>)
      requires Valid() && |masks| == |mnodeIndexes|
      ensures r == NoteUpdates(ValuesAt(mnodeIds, mnodeIndexes), nids, masks, |mnodeIndexes|)
    {
      ghost var ids := ValuesAt(mnodeIds, mnodeIndexes);
      var updates: seq<NoteUpdate> := [];
      var nr := 0;
      while nr < |mnodeIndexes|
        invariant nr <= |mnodeIndexes|
        invariant NoteUpdates(ids, nids, masks, nr) == Ok(updates)
      {
        var noteId := mnodeIds[mnodeIndexes[nr]];
        if noteId !in nids {
          NoteUpdatesErrSticks(ids, nids, masks, nr + 1);
          return Err(MissingKey(noteId));
        }
        var nid := nids[noteId];
        updates := updates + [NoteUpdate(noteId, nid, masks[nr])];
        nr := nr + 1;
      }
      return Ok(updates);
    }
  }
}
