/** The renumbering of the SI generator's `_deleteAndIdNotes`
    (ngen.py:556-738), one shape at a time over the three layers, and the
    lemmas that tie the loops of `SiGenerator.SiNoteGenerator` to the
    specifications of `SiIds` and `Reconcile`. */
module SiGen {
  import opened Wrappers
  import opened Text
  import opened Svg
  import opened NoteIds
  import opened Numbering
  import opened SiIds
  import opened Reconcile

  // ---------------------------------------------------------------- the shapes in loop order

  /** The entries of one dict as the shapes of layer `kind`. */
  function EntryShapes(es: seq<Entry>, kind: Kind): (r: seq<Shape>)
    ensures |r| == |es| && forall t :: 0 <= t < |es| ==> r[t] == Shape(kind, es[t].id)
  {
    seq(|es|, t requires 0 <= t < |es| => Shape(kind, es[t].id))
  }

  lemma EntryShapesAppend(a: seq<Entry>, b: seq<Entry>, kind: Kind)
    ensures EntryShapes(a + b, kind) == EntryShapes(a, kind) + EntryShapes(b, kind)
  {
  }

  /** Every shape the three loops of `_deleteAndIdNotes` visit, in their
      order: `mnode_ids`, the inner dicts of `rnode_ids`, `bnode_ids`. */
  function ShapesOf(ids: Ids): (r: seq<Shape>)
    ensures |r| == |ids.regular| + |Flatten(ids.reverse)| + |ids.blank|
  {
    EntryShapes(ids.regular, Regular) + EntryShapes(Flatten(ids.reverse), Reverse) + EntryShapes(ids.blank, Blank)
  }

  // ---------------------------------------------------------------- the renumbering, shape by shape

  /** The state the loops of `_deleteAndIdNotes` carry: the ids given so
      far, `available_nrs` with `note_nr_max`, `new_count` and `nids`. */
  datatype Run = Run(ids: seq<string>, counter: Counter, newCount: nat, nids: NidMap)

  /** `mnode_id not in exstg_tnode_note_ids`: a shape without an id, or
      whose id has no note, is new. */
  predicate IsNew(id: Option<string>, ex: seq<string>) { id.None? || id.value !in ex }

  /** One shape (ngen.py:622-637): a new one takes the next number and is
      entered in `nids` without a note; an existing one keeps its id. */
  function RunStep(st: Run, s: Shape, ex: seq<string>, occlId: string): Run {
    if IsNew(s.id, ex) then
      var next := Take(st.counter);
      var newId := SiEditId(occlId, s.kind, next.0);
      Run(st.ids + [newId], next.1, st.newCount + 1, st.nids[newId := None])
    else Run(st.ids + [s.id.value], st.counter, st.newCount, st.nids)
  }

  /** The steps over `ss`, one after the other. */
  function Steps(st: Run, ss: seq<Shape>, ex: seq<string>, occlId: string): Run
    decreases |ss|
  {
    if ss == [] then st else RunStep(Steps(st, ss[..|ss| - 1], ex, occlId), Last(ss), ex, occlId)
  }

  /** Running over `a` and then `b` is running over `a + b`: the three
      loops together are one pass over all the shapes. */
  lemma {:induction false} StepsAppend(st: Run, a: seq<Shape>, b: seq<Shape>, ex: seq<string>, occlId: string)
    ensures Steps(st, a + b, ex, occlId) == Steps(Steps(st, a, ex, occlId), b, ex, occlId)
    decreases |b|
  {
    if b == [] {
      assert a + b == a;
    } else {
      assert (a + b)[..|a + b| - 1] == a + b[..|b| - 1];
      assert Last(a + b) == Last(b);
      StepsAppend(st, a, b[..|b| - 1], ex, occlId);
    }
  }

  /** One more entry of a dict is one more step. */
  lemma StepsNext(st: Run, es: seq<Entry>, kind: Kind, ex: seq<string>, occlId: string, t: nat)
    requires t < |es|
    ensures Steps(st, EntryShapes(es[..t + 1], kind), ex, occlId)
         == RunStep(Steps(st, EntryShapes(es[..t], kind), ex, occlId), Shape(kind, es[t].id), ex, occlId)
  {
    assert EntryShapes(es[..t + 1], kind)[..t] == EntryShapes(es[..t], kind);
  }

  /** The state `Reconcile.SiDeleteAndIdNotes` implies after the first `k`
      shapes: their new ids, the counter past the numbers handed out so far,
      the count of new shapes among them and their entries in `nids`. */
  function SpecRun(shapes: seq<Shape>, ex: seq<string>, occlId: string, nrs: seq<nat>, nids: NidMap, k: nat): Run
    requires k <= |shapes|
  {
    var isNew := SiNewFlags(shapes, ex);
    var ids := SiNewIds(shapes, occlId, nrs, isNew);
    Run(ids[..k], After(Start(nrs), NewBefore(isNew, k)), NewBefore(isNew, k), EnterNew(nids, ids, isNew, k))
  }

  /** The pass over the first `k` shapes from the starting counter agrees
      with `Reconcile.SiDeleteAndIdNotes`: the same ids, numbers handed out
      to the new shapes only, and the same entries in `nids`. */
  lemma {:induction false} StepsIsSpec(shapes: seq<Shape>, ex: seq<string>, occlId: string, nrs: seq<nat>, nids: NidMap, k: nat)
    requires k <= |shapes|
    ensures Steps(Run([], Start(nrs), 0, nids), shapes[..k], ex, occlId) == SpecRun(shapes, ex, occlId, nrs, nids, k)
  {
    if k > 0 {
      var st := Run([], Start(nrs), 0, nids);
      var before := Steps(st, shapes[..k - 1], ex, occlId);
      StepsIsSpec(shapes, ex, occlId, nrs, nids, k - 1);
      assert before == SpecRun(shapes, ex, occlId, nrs, nids, k - 1);
      StepsPrefix(st, shapes, ex, occlId, k);
      assert Steps(st, shapes[..k], ex, occlId) == RunStep(before, shapes[k - 1], ex, occlId);
      SpecStep(shapes, ex, occlId, nrs, nids, k);
    } else {
      assert SpecRun(shapes, ex, occlId, nrs, nids, 0) == Run([], Start(nrs), 0, nids);
    }
  }

  /** The steps over a prefix one longer are one more step. */
  lemma StepsPrefix(st: Run, ss: seq<Shape>, ex: seq<string>, occlId: string, k: nat)
    requires 0 < k <= |ss|
    ensures Steps(st, ss[..k], ex, occlId) == RunStep(Steps(st, ss[..k - 1], ex, occlId), ss[k - 1], ex, occlId)
  {
    assert ss[..k][..k - 1] == ss[..k - 1];
  }

  /** The `k`-th shape takes the spec's `k`-th id and, when new, the next
      free number. */
  lemma SpecStep(shapes: seq<Shape>, ex: seq<string>, occlId: string, nrs: seq<nat>, nids: NidMap, k: nat)
    requires 0 < k <= |shapes|
    ensures RunStep(SpecRun(shapes, ex, occlId, nrs, nids, k - 1), shapes[k - 1], ex, occlId)
         == SpecRun(shapes, ex, occlId, nrs, nids, k)
  {
    var isNew := SiNewFlags(shapes, ex);
    var ids := SiNewIds(shapes, occlId, nrs, isNew);
    var j := NewBefore(isNew, k - 1);
    var m := EnterNew(nids, ids, isNew, k - 1);
    var s := shapes[k - 1];
    var prev := SpecRun(shapes, ex, occlId, nrs, nids, k - 1);
    assert prev == Run(ids[..k - 1], After(Start(nrs), j), j, m);
    assert ids[..k] == ids[..k - 1] + [ids[k - 1]];
    assert IsNew(s.id, ex) == isNew[k - 1];
    var next := SpecRun(shapes, ex, occlId, nrs, nids, k);
    assert next == Run(ids[..k], After(Start(nrs), NewBefore(isNew, k)), NewBefore(isNew, k), EnterNew(nids, ids, isNew, k));
    if isNew[k - 1] {
      TakeAfter(Start(nrs), j);
      var newId := SiEditId(occlId, s.kind, NthFree(Start(nrs), j));
      assert ids[k - 1] == newId;
      assert NewBefore(isNew, k) == j + 1 && EnterNew(nids, ids, isNew, k) == m[newId := None];
      assert RunStep(prev, s, ex, occlId) == Run(ids[..k - 1] + [newId], After(Start(nrs), j + 1), j + 1, m[newId := None]);
    } else {
      assert ids[k - 1] == s.id.value;
      assert NewBefore(isNew, k) == j && EnterNew(nids, ids, isNew, k) == m;
      assert RunStep(prev, s, ex, occlId) == Run(ids[..k - 1] + [s.id.value], After(Start(nrs), j), j, m);
    }
  }

  // ---------------------------------------------------------------- the dicts and the layers after renumbering

  /** A dict whose entries now hold the ids `ids`, in order. */
  function Relabel(es: seq<Entry>, ids: seq<string>): (r: seq<Entry>)
    requires |ids| == |es|
    ensures |r| == |es| && forall t :: 0 <= t < |es| ==> r[t] == Entry(es[t].index, Some(ids[t]))
  {
    seq(|es|, t requires 0 <= t < |es| => Entry(es[t].index, Some(ids[t])))
  }

  /** `rnode_ids` whose inner dicts, one after the other, hold `ids`. */
  function RelabelQsets(qs: seq<Qset>, ids: seq<string>): (r: seq<Qset>)
    requires |ids| == |Flatten(qs)|
    ensures |r| == |qs|
    decreases |qs|
  {
    if qs == [] then []
    else
      var n := |Flatten(qs[..|qs| - 1])|;
      RelabelQsets(qs[..|qs| - 1], ids[..n]) + [Qset(Last(qs).index, Relabel(Last(qs).items, ids[n..]))]
  }

  /** All three dicts after `_deleteAndIdNotes` gave the shapes `ids`. */
  function RelabelIds(ids0: Ids, ids: seq<string>): Ids
    requires |ids| == |ShapesOf(ids0)|
  {
    var a, b := |ids0.regular|, |Flatten(ids0.reverse)|;
    Ids(Relabel(ids0.regular, ids[..a]), RelabelQsets(ids0.reverse, ids[a..a + b]), Relabel(ids0.blank, ids[a + b..]))
  }

  /** Every entry points at a child of `cs`. */
  ghost predicate EntriesIn(cs: seq<Node>, es: seq<Entry>) {
    forall t :: 0 <= t < |es| ==> es[t].index < |cs|
  }

  /** Every question set points at a child of `cs`, and its items at
      children of that child. */
  ghost predicate QsetsIn(cs: seq<Node>, qs: seq<Qset>) {
    forall s :: 0 <= s < |qs| ==> qs[s].index < |cs| && EntriesIn(Kids(cs[qs[s].index]), qs[s].items)
  }

  /** The dicts point into the three layers of `doc`. */
  ghost predicate InLayers(doc: Node, ids: Ids) {
    && LayerCheck(doc).Ok?
    && EntriesIn(Kids(RegularLayer(doc)), ids.regular)
    && QsetsIn(Kids(ReverseLayer(doc)), ids.reverse)
    && EntriesIn(Kids(BlankLayer(doc)), ids.blank)
  }

  /** `node.set("id", new_id)` on the child of each new entry. */
  function SetNewIds(cs: seq<Node>, es: seq<Entry>, ids: seq<string>, ex: seq<string>): (r: seq<Node>)
    requires |ids| == |es| && EntriesIn(cs, es)
    ensures |r| == |cs| && forall i :: 0 <= i < |cs| ==> Kids(r[i]) == Kids(cs[i])
    decreases |es|
  {
    if es == [] then cs
    else
      var n := |es| - 1;
      var prev := SetNewIds(cs, es[..n], ids[..n], ex);
      if IsNew(es[n].id, ex) then prev[es[n].index := SetAttr(prev[es[n].index], "id", ids[n])] else prev
  }

  /** The same inside every question set of the reverse layer. */
  function SetNewQsets(cs: seq<Node>, qs: seq<Qset>, ids: seq<string>, ex: seq<string>): (r: seq<Node>)
    requires |ids| == |Flatten(qs)| && QsetsIn(cs, qs)
    ensures |r| == |cs| && forall i :: 0 <= i < |cs| ==> |Kids(r[i])| == |Kids(cs[i])|
    decreases |qs|
  {
    if qs == [] then cs
    else
      var init := qs[..|qs| - 1];
      var q := Last(qs);
      var n := |Flatten(init)|;
      assert QsetsIn(cs, init) by {
        forall s | 0 <= s < |init| ensures init[s] == qs[s] { }
      }
      var prev := SetNewQsets(cs, init, ids[..n], ex);
      prev[q.index := WithKids(prev[q.index], SetNewIds(Kids(prev[q.index]), q.items, ids[n..], ex))]
  }

  /** The document with the renumbered layers put back. */
  function RenumberedSi(doc: Node, ids0: Ids, ids: seq<string>, ex: seq<string>): Node
    requires InLayers(doc, ids0) && |ids| == |ShapesOf(ids0)|
  {
    var n := |doc.children|;
    var a, b := |ids0.regular|, |Flatten(ids0.reverse)|;
    doc.(children := doc.children
      [n - 1 := WithKids(doc.children[n - 1], SetNewIds(Kids(doc.children[n - 1]), ids0.regular, ids[..a], ex))]
      [n - 2 := WithKids(doc.children[n - 2], SetNewQsets(Kids(doc.children[n - 2]), ids0.reverse, ids[a..a + b], ex))]
      [n - 3 := WithKids(doc.children[n - 3], SetNewIds(Kids(doc.children[n - 3]), ids0.blank, ids[a + b..], ex))])
  }

  lemma SetNewIdsNext(cs: seq<Node>, es: seq<Entry>, ids: seq<string>, id: string, ex: seq<string>, t: nat)
    requires t < |es| && |ids| == t && EntriesIn(cs, es)
    ensures EntriesIn(cs, es[..t]) && EntriesIn(cs, es[..t + 1])
    ensures var prev := SetNewIds(cs, es[..t], ids, ex);
      SetNewIds(cs, es[..t + 1], ids + [id], ex)
        == if IsNew(es[t].id, ex) then prev[es[t].index := SetAttr(prev[es[t].index], "id", id)] else prev
  {
    assert es[..t + 1][..t] == es[..t];
    assert (ids + [id])[..t] == ids;
  }

  lemma SetNewIdsIn(cs: seq<Node>, es: seq<Entry>, ids: seq<string>, ex: seq<string>, t: nat)
    requires t < |es| && |ids| == t && EntriesIn(cs, es)
    ensures es[t].index < |SetNewIds(cs, es[..t], ids, ex)|
  {
    assert EntriesIn(cs, es[..t]);
  }

  /** The invariants of the loop over one dict hold one entry further on. */
  lemma RenumberNext(kind: Kind, cs: seq<Node>, es: seq<Entry>, ex: seq<string>, occlId: string, start: Run, done: seq<string>,
                     ids: seq<string>, t: nat, c: Counter, k: nat, ns: NidMap, pcs: seq<Node>,
                     id: string, c': Counter, k': nat, ns': NidMap, pcs': seq<Node>)
    requires t < |es| && |ids| == t && EntriesIn(cs, es)
    requires pcs == SetNewIds(cs, es[..t], ids, ex)
    requires Run(done + ids, c, k, ns) == Steps(start, EntryShapes(es[..t], kind), ex, occlId)
    requires Run(done + ids + [id], c', k', ns') == RunStep(Run(done + ids, c, k, ns), Shape(kind, es[t].id), ex, occlId)
    requires es[t].index < |pcs|
    requires pcs' == if IsNew(es[t].id, ex) then pcs[es[t].index := SetAttr(pcs[es[t].index], "id", id)] else pcs
    ensures pcs' == SetNewIds(cs, es[..t + 1], ids + [id], ex)
    ensures Run(done + (ids + [id]), c', k', ns') == Steps(start, EntryShapes(es[..t + 1], kind), ex, occlId)
  {
    SetNewIdsNext(cs, es, ids, id, ex, t);
    StepsNext(start, es, kind, ex, occlId, t);
    assert done + (ids + [id]) == done + ids + [id];
  }

  /** The entries of the dict hold their new ids one entry further on. */
  lemma RelabelNext(es: seq<Entry>, ids: seq<string>, t: nat, id: string, ex: seq<string>, pes: seq<Entry>, pes': seq<Entry>)
    requires t < |es| && |ids| == t && |pes| == |es|
    requires forall j :: 0 <= j < t ==> pes[j] == Entry(es[j].index, Some(ids[j]))
    requires forall j :: t <= j < |es| ==> pes[j] == es[j]
    requires !IsNew(es[t].id, ex) ==> es[t].id == Some(id)
    requires pes' == if IsNew(es[t].id, ex) then pes[t := Entry(es[t].index, Some(id))] else pes
    ensures |pes'| == |es|
    ensures forall j :: 0 <= j < t + 1 ==> pes'[j] == Entry(es[j].index, Some((ids + [id])[j]))
    ensures forall j :: t + 1 <= j < |es| ==> pes'[j] == es[j]
  {
  }

  /** The run over the shapes of the reverse layer holds one question set
      further on. */
  lemma RenumberQsetsNext(qs: seq<Qset>, ex: seq<string>, occlId: string, start: Run, done: seq<string>,
                          ids: seq<string>, g: nat, st: Run, more: seq<string>, c': Counter, k': nat, ns': NidMap)
    requires g < |qs|
    requires st.ids == done + ids && st == Steps(start, EntryShapes(Flatten(qs[..g]), Reverse), ex, occlId)
    requires Run(done + ids + more, c', k', ns') == Steps(st, EntryShapes(qs[g].items, Reverse), ex, occlId)
    ensures Run(done + (ids + more), c', k', ns') == Steps(start, EntryShapes(Flatten(qs[..g + 1]), Reverse), ex, occlId)
  {
    assert qs[..g + 1][..g] == qs[..g];
    assert Flatten(qs[..g + 1]) == Flatten(qs[..g]) + qs[g].items;
    EntryShapesAppend(Flatten(qs[..g]), qs[g].items, Reverse);
    StepsAppend(start, EntryShapes(Flatten(qs[..g]), Reverse), EntryShapes(qs[g].items, Reverse), ex, occlId);
    assert done + (ids + more) == done + ids + more;
  }

  lemma SetNewQsetsNext(cs: seq<Node>, qs: seq<Qset>, ids: seq<string>, more: seq<string>, ex: seq<string>, g: nat)
    requires g < |qs| && QsetsIn(cs, qs) && |ids| == |Flatten(qs[..g])| && |more| == |qs[g].items|
    ensures QsetsIn(cs, qs[..g]) && QsetsIn(cs, qs[..g + 1])
    ensures Flatten(qs[..g + 1]) == Flatten(qs[..g]) + qs[g].items
    ensures var prev := SetNewQsets(cs, qs[..g], ids, ex);
      var q := qs[g];
      SetNewQsets(cs, qs[..g + 1], ids + more, ex)
        == prev[q.index := WithKids(prev[q.index], SetNewIds(Kids(prev[q.index]), q.items, more, ex))]
    ensures RelabelQsets(qs[..g + 1], ids + more) == RelabelQsets(qs[..g], ids) + [Qset(qs[g].index, Relabel(qs[g].items, more))]
  {
    assert qs[..g + 1][..g] == qs[..g];
    assert Last(qs[..g + 1]) == qs[g];
    assert (ids + more)[..|ids|] == ids && (ids + more)[|ids|..] == more;
    forall s | 0 <= s < g + 1 ensures qs[..g + 1][s] == qs[s] { }
  }

  // ---------------------------------------------------------------- one child more

  lemma RegularPassNext(cs: seq<Node>, edit: bool, occl: string, i: nat)
    requires i < |cs|
    ensures RegularPass(cs[..i + 1], edit, occl) == RegularStep(RegularPass(cs[..i], edit, occl), cs[i], edit, occl)
  {
    assert cs[..i + 1][..i] == cs[..i];
  }

  lemma ReversePassNext(cs: seq<Node>, edit: bool, occl: string, ques: nat, card: nat, i: nat)
    requires i < |cs|
    ensures ReversePass(cs[..i + 1], edit, occl, ques, card) == ReverseStep(ReversePass(cs[..i], edit, occl, ques, card), cs[i], edit, occl, ques)
  {
    assert cs[..i + 1][..i] == cs[..i];
  }

  lemma ItemsPassNext(qs: seq<Node>, edit: bool, occl: string, ques: nat, card: nat, j: nat)
    requires j < |qs|
    ensures ItemsPass(qs[..j + 1], edit, occl, ques, card) == ItemStep(ItemsPass(qs[..j], edit, occl, ques, card), qs[j], edit, occl, ques)
  {
    assert qs[..j + 1][..j] == qs[..j];
  }

  lemma BlankPassNext(cs: seq<Node>, edit: bool, occl: string, ques: nat, card: nat, i: nat)
    requires i < |cs|
    ensures BlankPass(cs[..i + 1], edit, occl, ques, card) == BlankStep(BlankPass(cs[..i], edit, occl, ques, card), cs[i], edit, occl)
  {
    assert cs[..i + 1][..i] == cs[..i];
  }

  // ---------------------------------------------------------------- the three loops together

  /** The runs over the three dicts, one after the other, are the numbering
      `Reconcile.SiDeleteAndIdNotes` states for all the shapes. */
  lemma RunsAreSpec(ids0: Ids, ex: seq<string>, occlId: string, nrs: seq<nat>, nids: NidMap, r1: Run, r2: Run, r3: Run)
    requires r1 == Steps(Run([], Start(nrs), 0, nids), EntryShapes(ids0.regular, Regular), ex, occlId)
    requires r2 == Steps(r1, EntryShapes(Flatten(ids0.reverse), Reverse), ex, occlId)
    requires r3 == Steps(r2, EntryShapes(ids0.blank, Blank), ex, occlId)
    ensures var shapes := ShapesOf(ids0);
      var isNew := SiNewFlags(shapes, ex);
      var ids := SiNewIds(shapes, occlId, nrs, isNew);
      r3 == Run(ids, After(Start(nrs), CountNew(isNew)), CountNew(isNew), EnterNew(nids, ids, isNew, |shapes|))
  {
    var start := Run([], Start(nrs), 0, nids);
    var s1, s2, s3 := EntryShapes(ids0.regular, Regular), EntryShapes(Flatten(ids0.reverse), Reverse), EntryShapes(ids0.blank, Blank);
    StepsThen(start, s1, s2, ex, occlId, r1, r2);
    StepsThen(start, s1 + s2, s3, ex, occlId, r2, r3);
    assert ShapesOf(ids0) == s1 + s2 + s3;
    StepsAll(ShapesOf(ids0), ex, occlId, nrs, nids);
  }

  lemma StepsThen(st: Run, a: seq<Shape>, b: seq<Shape>, ex: seq<string>, occlId: string, ra: Run, rb: Run)
    requires ra == Steps(st, a, ex, occlId) && rb == Steps(ra, b, ex, occlId)
    ensures rb == Steps(st, a + b, ex, occlId)
  {
    StepsAppend(st, a, b, ex, occlId);
  }

  /** `StepsIsSpec` over all the shapes. */
  lemma StepsAll(shapes: seq<Shape>, ex: seq<string>, occlId: string, nrs: seq<nat>, nids: NidMap)
    ensures var isNew := SiNewFlags(shapes, ex);
      var ids := SiNewIds(shapes, occlId, nrs, isNew);
      Steps(Run([], Start(nrs), 0, nids), shapes, ex, occlId)
        == Run(ids, After(Start(nrs), CountNew(isNew)), CountNew(isNew), EnterNew(nids, ids, isNew, |shapes|))
  {
    StepsIsSpec(shapes, ex, occlId, nrs, nids, |shapes|);
    assert shapes[..|shapes|] == shapes;
    var ids := SiNewIds(shapes, occlId, nrs, SiNewFlags(shapes, ex));
    assert ids[..|shapes|] == ids;
    assert SpecRun(shapes, ex, occlId, nrs, nids, |shapes|)
        == Run(ids, After(Start(nrs), CountNew(SiNewFlags(shapes, ex))), CountNew(SiNewFlags(shapes, ex)), EnterNew(nids, ids, SiNewFlags(shapes, ex), |shapes|));
  }

  /** The layers and dicts rebuilt from the three loops are the ones
      `RenumberedSi` and `RelabelIds` describe for the ids of all shapes. */
  lemma LayersAreSpec(doc: Node, ids0: Ids, ids1: seq<string>, ids2: seq<string>, ids3: seq<string>, ex: seq<string>,
                      mcs: seq<Node>, rcs: seq<Node>, bcs: seq<Node>)
    requires InLayers(doc, ids0)
    requires |ids1| == |ids0.regular| && |ids2| == |Flatten(ids0.reverse)| && |ids3| == |ids0.blank|
    requires var n := |doc.children|;
      && mcs == SetNewIds(Kids(doc.children[n - 1]), ids0.regular, ids1, ex)
      && rcs == SetNewQsets(Kids(doc.children[n - 2]), ids0.reverse, ids2, ex)
      && bcs == SetNewIds(Kids(doc.children[n - 3]), ids0.blank, ids3, ex)
    ensures |ids1 + ids2 + ids3| == |ShapesOf(ids0)|
    ensures var n := |doc.children|;
      doc.(children := doc.children[n - 1 := WithKids(doc.children[n - 1], mcs)]
                                   [n - 2 := WithKids(doc.children[n - 2], rcs)]
                                   [n - 3 := WithKids(doc.children[n - 3], bcs)])
        == RenumberedSi(doc, ids0, ids1 + ids2 + ids3, ex)
    ensures Ids(Relabel(ids0.regular, ids1), RelabelQsets(ids0.reverse, ids2), Relabel(ids0.blank, ids3))
         == RelabelIds(ids0, ids1 + ids2 + ids3)
  {
    var ids := ids1 + ids2 + ids3;
    var a, b := |ids1|, |ids2|;
    assert ids[..a] == ids1 && ids[a..a + b] == ids2 && ids[a + b..] == ids3;
  }

  /** `Reconcile.SiDeleteAndIdNotes` once its lookups succeed: the ids and
      `nids` of the numbering, and the gate on the counts. */
  lemma SiDeleteAndIdNotesOk(shapes: seq<Shape>, uniq: string, occlId: string, nids: NidMap, confirm: bool,
                             ex: seq<string>, nrs: seq<nat>, ids: seq<string>, ns: NidMap, newCount: nat)
    requires SiExisting(shapes, uniq, nids) == Ok(ex) && SiNumbers(ex) == Ok(nrs)
    requires var isNew := SiNewFlags(shapes, ex);
      && ids == SiNewIds(shapes, occlId, nrs, isNew)
      && ns == EnterNew(nids, ids, isNew, |shapes|)
      && newCount == CountNew(isNew)
    ensures var deleted := SiDeleted(shapes, uniq, nids);
      deleted <= nids.Keys &&
      SiDeleteAndIdNotes(shapes, uniq, occlId, nids, confirm)
        == Ok(Reconciled(ids, ns, Gate(|deleted|, newCount, NidsOf(nids, deleted), confirm)))
  {
  }

  /** What `DeleteAndIdNotesFrom` computes is the spec's outcome: the
      decision of the gate, the new `nids`, the relabelled dicts and the
      renumbered layers. */
  lemma FromIsSpec(doc: Node, ids0: Ids, nids: NidMap, occlId: string, uniq: string, confirm: bool,
                   ex: seq<string>, nrs: seq<nat>, doc': Node, ids': Ids, ns: NidMap, newCount: nat, decision: Decision)
    requires InLayers(doc, ids0)
    requires SiExisting(ShapesOf(ids0), uniq, nids) == Ok(ex) && SiNumbers(ex) == Ok(nrs)
    requires var shapes := ShapesOf(ids0);
      var isNew := SiNewFlags(shapes, ex);
      var ids := SiNewIds(shapes, occlId, nrs, isNew);
      && newCount == CountNew(isNew)
      && ns == EnterNew(nids, ids, isNew, |shapes|)
      && ids' == RelabelIds(ids0, ids)
      && doc' == RenumberedSi(doc, ids0, ids, ex)
    requires var deleted := SiDeleted(ShapesOf(ids0), uniq, nids);
      decision == if (|deleted| > 0 || newCount > 0) && !confirm then Declined else Applied(|deleted|, newCount, NidsOf(nids, deleted))
    ensures var shapes := ShapesOf(ids0);
      var spec := SiDeleteAndIdNotes(shapes, uniq, occlId, nids, confirm);
      && spec.Ok?
      && decision == spec.value.decision
      && ns == spec.value.nids
      && |spec.value.ids| == |shapes|
      && ids' == RelabelIds(ids0, spec.value.ids)
      && doc' == RenumberedSi(doc, ids0, spec.value.ids, ex)
  {
    var shapes := ShapesOf(ids0);
    SiDeleteAndIdNotesOk(shapes, uniq, occlId, nids, confirm, ex, nrs, SiNewIds(shapes, occlId, nrs, SiNewFlags(shapes, ex)), ns, newCount);
  }

  /** `SiIds.GetMnodesAndSetIds` from the three passes, each starting
      where the one before stopped. */
  lemma GetMnodesOk(doc: Node, edit: bool, occl: string, m: Pass, rv: RPass, b: Pass)
    requires LayerCheck(doc).Ok?
    requires m == RegularPass(Kids(RegularLayer(doc)), edit, occl)
    requires rv == ReversePass(Kids(ReverseLayer(doc)), edit, occl, m.ques, m.card)
    requires b == BlankPass(Kids(BlankLayer(doc)), edit, occl, m.ques, rv.card)
    ensures var n := |doc.children|;
      SiIds.GetMnodesAndSetIds(doc, edit, occl)
        == Ok((doc.(children := doc.children[n - 1 := WithKids(doc.children[n - 1], m.children)]
                                            [n - 2 := WithKids(doc.children[n - 2], rv.children)]
                                            [n - 3 := WithKids(doc.children[n - 3], b.children)]),
               Ids(m.entries, rv.qsets, b.entries)))
  {
    assert SiRegular(doc, edit, occl) == m;
    assert SiReverse(doc, edit, occl) == rv;
    assert SiBlank(doc, edit, occl) == b;
    var n := |doc.children|;
    assert RegularLayer(doc) == doc.children[n - 1] && ReverseLayer(doc) == doc.children[n - 2] && BlankLayer(doc) == doc.children[n - 3];
  }
}
