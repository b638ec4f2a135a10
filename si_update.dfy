/** What the SI generator (`IoGenSI`) does once its dicts are filled:
    `generateNotes` (ngen.py:1175-1212) and `updateNotes` (ngen.py:740-826),
    up to the notes they hand to `_saveMaskAndReturnNote`. The collection,
    the dialogs and the clock are parameters: `found` is what
    `_findAllNotes` finds, `stored` the note ids `findNotes` answers for,
    `confirm` the user's answer, `original` the stored O mask and
    `epochSecs` the value of `int(time.time())`. */
module SiUpdate {
  import opened Wrappers
  import opened Text
  import opened Svg
  import opened NoteIds
  import opened SiIds
  import opened Reconcile
  import opened SiGen
  import opened SiRender
  import Dispatch

  /** `stripattr` of the SI generator (ngen.py:541). */
  const SiStripAttr: set<string> := {"stroke-opacity", "fill-opacity", "stroke-linecap", "stroke-linejoin", "stroke-dasharray"}

  /** `occl_id = '%s-%s' % (uniq_id, occl_tp)` with `occl_tp` `si`. */
  function SiOcclId(uniq: string): string {
    uniq + "-" + Dispatch.ShortName(Dispatch.SiGen)
  }

  /** A note handed to `_saveMaskAndReturnNote`: its id, the Anki note it
      rewrites (`None`: a new note) and its question and answer masks when
      they were generated. */
  datatype SiNote = SiNote(noteId: string, nid: Option<Nid>, masks: Option<(Mask, Mask)>)

  /** The outcome of `generateNotes`: nothing to generate, a failure, or the
      O mask with one new note per question and the tooltip. */
  datatype GenerateOutcome =
    | NoCards
    | GenerateFailed(error: Error)
    | Generated(omask: Node, notes: seq<SiNote>, tooltip: string)

  /** The outcome of `updateNotes`: no shapes left (nothing is deleted),
      the confirmation declined, a failure, or `new_svg` with the notes
      written, the reconciliation's counts, the notes removed and the count
      the tooltip reports as edited in place. */
  datatype UpdateOutcome =
    | NoShapesLeft
    | NotConfirmed
    | UpdateFailed(error: Error)
    | Updated(newSvg: Node, reset: bool, notes: seq<SiNote>, removed: set<Option<Nid>>,
              delCount: nat, newCount: nat, shown: nat)

  /** The tooltip of an update (ngen.py:546-554, shown at ngen.py:824). */
  function UpdateTooltip(r: UpdateOutcome): string
    requires r.Updated?
  {
    Dispatch.Tooltip(r.shown, r.delCount, r.newCount)
  }

  // ---------------------------------------------------------------- the questions that get notes

  /** `not (self.mnode_ids or self.rnode_ids)`: blank questions alone do
      not count. */
  predicate NoQuestions(ids: Ids) {
    ids.regular == [] && ids.reverse == []
  }

  /** The notes the two loops write: one per regular and per reverse
      question; blank questions get none. */
  function NoteCount(ids: Ids): nat {
    |ids.regular| + |Flatten(ids.reverse)|
  }

  /** Every regular and reverse question has an id. */
  ghost predicate Named(ids: Ids) {
    && (forall t :: 0 <= t < |ids.regular| ==> ids.regular[t].id.Some?)
    && (forall t :: 0 <= t < |Flatten(ids.reverse)| ==> Flatten(ids.reverse)[t].id.Some?)
  }

  /** The ids the two loops read, regular questions first, then the
      reverse ones set by set. */
  function QuestionIds(ids: Ids): (r: seq<string>)
    requires Named(ids)
    ensures |r| == NoteCount(ids)
  {
    var f := Flatten(ids.reverse);
    seq(|ids.regular|, t requires 0 <= t < |ids.regular| => ids.regular[t].id.value)
      + seq(|f|, t requires 0 <= t < |f| => f[t].id.value)
  }

  /** The dicts hold no question exactly when the regular layer has no
      question child and the reverse layer no question set, in either
      mode. */
  lemma NoQuestionsIff(doc: Node, edit: bool, occl: string)
    requires SiIds.GetMnodesAndSetIds(doc, edit, occl).Ok?
    ensures NoQuestions(SiIds.GetMnodesAndSetIds(doc, edit, occl).value.1) <==>
      Picked(Kids(RegularLayer(doc)), PickQuestion) == [] && Picked(Kids(ReverseLayer(doc)), PickQset) == []
  {
    var m := SiRegular(doc, edit, occl);
    RegularPassIndexes(Kids(RegularLayer(doc)), edit, occl);
    ReversePassIndexes(Kids(ReverseLayer(doc)), edit, occl, m.ques, m.card);
  }

  /** In edit mode the dicts point into the layers of the document they
      were read from, which comes back unchanged. */
  lemma SiEditInLayers(doc: Node, occl: string)
    ensures var r := SiIds.GetMnodesAndSetIds(doc, true, occl);
      r.Ok? ==> r.value.0 == doc && InLayers(doc, r.value.1)
  {
    SiEditLeavesDocument(doc, occl);
    if LayerCheck(doc).Ok? {
      var m := RegularPass(Kids(RegularLayer(doc)), true, occl);
      var rv := ReversePass(Kids(ReverseLayer(doc)), true, occl, m.ques, m.card);
      var b := BlankPass(Kids(BlankLayer(doc)), true, occl, m.ques, rv.card);
      assert SiIds.GetMnodesAndSetIds(doc, true, occl).value.1 == Ids(m.entries, rv.qsets, b.entries);
      RegularIn(Kids(RegularLayer(doc)), occl);
      ReverseInLayer(Kids(ReverseLayer(doc)), occl, m.ques, m.card);
      BlankIn(Kids(BlankLayer(doc)), occl, m.ques, rv.card);
    }
  }

  /** The questions recorded in edit mode are children of the regular
      layer. */
  lemma RegularIn(cs: seq<Node>, occl: string)
    ensures EntriesIn(cs, RegularPass(cs, true, occl).entries)
  {
    RegularPassIds(cs, true, occl);
  }

  /** The questions recorded in edit mode are children of the blank
      layer. */
  lemma BlankIn(cs: seq<Node>, occl: string, ques: nat, card: nat)
    ensures EntriesIn(cs, BlankPass(cs, true, occl, ques, card).entries)
  {
    BlankPassIds(cs, true, occl, ques, card);
  }

  /** In edit mode each question set points at a child of the reverse
      layer, and its items at children of that child. */
  lemma ReverseInLayer(rcs: seq<Node>, occl: string, ques: nat, card: nat)
    ensures QsetsIn(rcs, ReversePass(rcs, true, occl, ques, card).qsets)
  {
    var rv := ReversePass(rcs, true, occl, ques, card);
    forall s | 0 <= s < |rv.qsets|
      ensures rv.qsets[s].index < |rcs| && EntriesIn(Kids(rcs[rv.qsets[s].index]), rv.qsets[s].items)
    {
      QsetItems(rcs, occl, ques, card, s);
      var idx := rv.qsets[s].index;
      ItemsIn(Kids(rcs[idx]), occl, ques, ReverseCounter(rcs[..idx], true, card));
    }
  }

  /** Question set `s` of the edit pass is the pass over the items of its
      child. */
  lemma QsetItems(rcs: seq<Node>, occl: string, ques: nat, card: nat, s: nat)
    requires s < |ReversePass(rcs, true, occl, ques, card).qsets|
    ensures var rv := ReversePass(rcs, true, occl, ques, card);
      && rv.qsets[s].index < |rcs|
      && rv.qsets[s].items == ItemsPass(Kids(rcs[rv.qsets[s].index]), true, occl, ques, ReverseCounter(rcs[..rv.qsets[s].index], true, card)).entries
  {
    ReversePassItems(rcs, true, occl, ques, card);
  }

  /** The items recorded in edit mode are children of the set. */
  lemma ItemsIn(qs: seq<Node>, occl: string, ques: nat, card: nat)
    ensures EntriesIn(qs, ItemsPass(qs, true, occl, ques, card).entries)
  {
    ItemsPassIds(qs, true, occl, ques, card);
  }

  /** At create time every regular and reverse question is given its id. */
  lemma SiCreateNamed(doc: Node, occl: string)
    ensures var r := SiIds.GetMnodesAndSetIds(doc, false, occl);
      r.Ok? ==> Named(r.value.1)
  {
    SiRegularIds(doc, occl);
    SiReverseCards(doc, occl);
  }

  /** Relabelling the regular and reverse questions with `ids`, one after
      the other, is relabelling their concatenation. */
  lemma {:induction false} FlattenRelabel(qs: seq<Qset>, ids: seq<string>)
    requires |ids| == |Flatten(qs)|
    ensures Flatten(RelabelQsets(qs, ids)) == Relabel(Flatten(qs), ids)
    decreases |qs|
  {
    if qs != [] {
      var init := qs[..|qs| - 1];
      var q := Last(qs);
      var n := |Flatten(init)|;
      assert qs == init + [q];
      FlattenPush(init, q);
      FlattenRelabel(init, ids[..n]);
      var q' := Qset(q.index, Relabel(q.items, ids[n..]));
      FlattenPush(RelabelQsets(init, ids[..n]), q');
    }
  }

  /** After `_deleteAndIdNotes` the dicts name every question by its new
      id, in the order of the shapes, and keep their positions. */
  lemma RelabelNamed(ids0: Ids, ids: seq<string>)
    requires |ids| == |ShapesOf(ids0)|
    ensures var ids1 := RelabelIds(ids0, ids);
      && Named(ids1)
      && NoteCount(ids1) == NoteCount(ids0)
      && QuestionIds(ids1) == ids[..NoteCount(ids0)]
      && IndexesOf(ids1.regular) == IndexesOf(ids0.regular)
      && ids1.blank == Relabel(ids0.blank, ids[NoteCount(ids0)..])
  {
    var a, b := |ids0.regular|, |Flatten(ids0.reverse)|;
    FlattenRelabel(ids0.reverse, ids[a..a + b]);
    var ids1 := RelabelIds(ids0, ids);
    assert QuestionIds(ids1) == ids[..a] + ids[a..a + b];
    assert ids[..a] + ids[a..a + b] == ids[..a + b];
  }

  // ---------------------------------------------------------------- the masks

  /** Each question mask with its answer mask. */
  function Pairs(qm: seq<Mask>, am: seq<Mask>): (r: seq<Option<(Mask, Mask)>>)
    requires |am| == |qm|
    ensures |r| == |qm| && forall t :: 0 <= t < |qm| ==> r[t] == Some((qm[t], am[t]))
  {
    seq(|qm|, t requires 0 <= t < |qm| => Some((qm[t], am[t])))
  }

  /** No masks for any of `n` notes. */
  function Unmasked(n: nat): (r: seq<Option<(Mask, Mask)>>)
    ensures |r| == n && forall t :: 0 <= t < n ==> r[t].None?
  {
    seq(n, t => None)
  }

  /** `masks` is a run of mask lists for the notes of `ids`: when it
      succeeds, one pair of masks per note. */
  predicate MasksFor(masks: Result<seq<Option<(Mask, Mask)>>>, ids: Ids) {
    masks.Ok? ==> |masks.value| == NoteCount(ids) && forall t :: 0 <= t < |masks.value| ==> masks.value[t].Some?
  }

  /** The four mask lists (ngen.py:771-774 and 1199-1202), built in that
      order: regular Q, regular A, reverse Q, reverse A; the first failure
      ends the run. One pair per note, in the order of `QuestionIds`. */
  function NoteMasks(doc: Node, ids: Ids, qfill: string, afill: string): (r: Result<seq<Option<(Mask, Mask)>>>)
    ensures MasksFor(r, ids)
  {
    var order := ReverseOrder(ids.reverse);
    match RegularMasks(doc, ids.regular, Q, qfill, afill)
    case Err(e) => Err(e)
    case Ok(rq) =>
      match RegularMasks(doc, ids.regular, A, qfill, afill)
      case Err(e) => Err(e)
      case Ok(ra) =>
        match ReverseMasks(doc, order, Q, qfill, afill)
        case Err(e) => Err(e)
        case Ok(vq) =>
          match ReverseMasks(doc, order, A, qfill, afill)
          case Err(e) => Err(e)
          case Ok(va) => Ok(Pairs(rq, ra) + Pairs(vq, va))
  }

  /** Note `t` gets the question and answer mask of its own question: the
      regular mask of its shape for a regular question, the reverse mask of
      its set and item for a reverse one. */
  lemma NoteMasksAt(doc: Node, ids: Ids, qfill: string, afill: string, t: nat)
    requires NoteMasks(doc, ids, qfill, afill).Ok? && t < NoteCount(ids)
    ensures var p := NoteMasks(doc, ids, qfill, afill).value[t];
      var a := |ids.regular|;
      var order := ReverseOrder(ids.reverse);
      && p.Some?
      && (t < a ==>
            && RegularMask(doc, ids.regular[t].index, Q, qfill, afill, t > 0) == Ok(p.value.0)
            && RegularMask(doc, ids.regular[t].index, A, qfill, afill, t > 0) == Ok(p.value.1))
      && (t >= a ==>
            && ReverseMask(doc, order[t - a].qset, order[t - a].item, Q, qfill, afill, t - a > 0) == Ok(p.value.0)
            && ReverseMask(doc, order[t - a].qset, order[t - a].item, A, qfill, afill, t - a > 0) == Ok(p.value.1))
  {
    var a := |ids.regular|;
    var order := ReverseOrder(ids.reverse);
    if t < a {
      RegularMasksAt(doc, ids.regular, Q, qfill, afill, t);
      RegularMasksAt(doc, ids.regular, A, qfill, afill, t);
    } else {
      ReverseMasksAt(doc, order, Q, qfill, afill, t - a);
      ReverseMasksAt(doc, order, A, qfill, afill, t - a);
    }
  }

  // ---------------------------------------------------------------- generateNotes

  /** The tooltip of `generateNotes` (ngen.py:1211): the total, then the
      regular and the reverse count. */
  function AddedTooltip(regular: nat, reverse: nat): string {
    NatToString(regular + reverse) + " cards <b>added</b><br>regular: " + NatToString(regular)
      + "<br>reverse: " + NatToString(reverse)
  }

  /** The total reads back from the head of that tooltip. */
  lemma AddedTooltipReadsBack(regular: nat, reverse: nat)
    ensures ParseNat(Split(AddedTooltip(regular, reverse), ' ')[0]) == Some(regular + reverse)
  {
    var n := NatToString(regular + reverse);
    var rest := "cards <b>added</b><br>regular: " + NatToString(regular) + "<br>reverse: " + NatToString(reverse);
    assert AddedTooltip(regular, reverse) == n + [' '] + rest;
    assert ' ' !in n;
    Dispatch.SplitFirst(n, ' ', rest);
    ParseNatToString(regular + reverse);
  }

  /** The notes of the two loops at ngen.py:1205-1210: every one new, with
      its masks. */
  function NewNotes(names: seq<string>, masks: seq<Option<(Mask, Mask)>>): (r: seq<SiNote>)
    requires |masks| == |names|
    ensures |r| == |names|
  {
    seq(|names|, t requires 0 <= t < |names| => SiNote(names[t], None, masks[t]))
  }

  /** `generateNotes`: the dicts are read in create mode; without a regular
      or reverse question there are no cards; otherwise the stripped
      document is the O mask, and every question gets a new note with its
      masks. */
  function GenerateNotesSpec(svg: Node, qfill: string, afill: string, epochSecs: nat): GenerateOutcome {
    var occl := SiOcclId(NatToString(epochSecs));
    match SiIds.GetMnodesAndSetIds(svg, false, occl)
    case Err(e) => GenerateFailed(e)
    case Ok(g) =>
      var ids := g.1;
      if NoQuestions(ids) then NoCards
      else
        SiCreateNamed(svg, occl);
        var omask := StripAttr(g.0, SiStripAttr);
        GeneratedFrom(omask, ids, NoteMasks(omask, ids, qfill, afill))
  }

  /** The rest of `generateNotes` once the dicts are `ids`, the stripped
      document is `omask` and `masks` is the run of the four mask lists:
      `omask` is the O mask, and every question gets a new note with its
      masks. */
  function GeneratedFrom(omask: Node, ids: Ids, masks: Result<seq<Option<(Mask, Mask)>>>): GenerateOutcome
    requires Named(ids) && MasksFor(masks, ids)
  {
    match masks
    case Err(e) => GenerateFailed(e)
    case Ok(ms) => Generated(omask, NewNotes(QuestionIds(ids), ms), AddedTooltip(|ids.regular|, |Flatten(ids.reverse)|))
  }

  /** `generateNotes` has no cards exactly when the regular layer has no
      question and the reverse layer no question set, and fails exactly
      where the layers cannot be read or a mask cannot be drawn. */
  lemma GenerateNotesOutcome(svg: Node, qfill: string, afill: string, epochSecs: nat)
    ensures var occl := SiOcclId(NatToString(epochSecs));
      var g := SiIds.GetMnodesAndSetIds(svg, false, occl);
      var r := GenerateNotesSpec(svg, qfill, afill, epochSecs);
      && (r.NoCards? <==>
            g.Ok? && Picked(Kids(RegularLayer(svg)), PickQuestion) == [] && Picked(Kids(ReverseLayer(svg)), PickQset) == [])
      && (r.GenerateFailed? <==>
            g.Err? || (!NoQuestions(g.value.1) && NoteMasks(StripAttr(g.value.0, SiStripAttr), g.value.1, qfill, afill).Err?))
  {
    var occl := SiOcclId(NatToString(epochSecs));
    if SiIds.GetMnodesAndSetIds(svg, false, occl).Ok? {
      NoQuestionsIff(svg, false, occl);
    }
  }

  /** When `generateNotes` generates, the dicts were read in create mode,
      hold a question, name every question by the id of its card (regular
      questions one past the wrappers before them, reverse questions on
      consecutive cards after the regular ones) and the outcome is
      `GeneratedFrom` on the stripped document and its masks, whose notes
      `NewNotesIds` states. */
  lemma GenerateNotesGenerated(svg: Node, qfill: string, afill: string, epochSecs: nat)
    requires GenerateNotesSpec(svg, qfill, afill, epochSecs).Generated?
    ensures var occl := SiOcclId(NatToString(epochSecs));
      var g := SiIds.GetMnodesAndSetIds(svg, false, occl);
      && g.Ok? && !NoQuestions(g.value.1) && Named(g.value.1)
      && var ids := g.value.1;
      && var cs := Kids(RegularLayer(svg));
      && (forall t :: 0 <= t < |ids.regular| ==>
            ids.regular[t].index < |cs| && ids.regular[t].id == Some(RegularId(occl, 1 + WrapperCount(cs[..ids.regular[t].index]))))
      && OnCards(Flatten(ids.reverse), occl, 1 + WrapperCount(cs), 1 + WrapperCount(cs))
      && var omask := StripAttr(g.value.0, SiStripAttr);
      && GenerateNotesSpec(svg, qfill, afill, epochSecs) == GeneratedFrom(omask, ids, NoteMasks(omask, ids, qfill, afill))
  {
    var occl := SiOcclId(NatToString(epochSecs));
    var g := SiIds.GetMnodesAndSetIds(svg, false, occl).value;
    var ids := g.1;
    var cs := Kids(RegularLayer(svg));
    var omask := StripAttr(g.0, SiStripAttr);
    SiCreateNamed(svg, occl);
    assert GenerateNotesSpec(svg, qfill, afill, epochSecs) == GeneratedFrom(omask, ids, NoteMasks(omask, ids, qfill, afill));
    SiRegularIds(svg, occl);
    SiReverseCards(svg, occl);
  }

  /** The notes of `NewNotes` on the question ids follow the dicts:
      regular questions first, then the reverse questions set by set; each
      note is new, with its question's id and masks. */
  lemma NewNotesIds(ids: Ids, masks: seq<Option<(Mask, Mask)>>)
    requires Named(ids) && |masks| == NoteCount(ids)
    ensures var notes := NewNotes(QuestionIds(ids), masks);
      var a := |ids.regular|;
      var f := Flatten(ids.reverse);
      && |notes| == a + |f|
      && (forall t :: 0 <= t < a ==> notes[t] == SiNote(ids.regular[t].id.value, None, masks[t]))
      && (forall p :: 0 <= p < |f| ==> notes[a + p] == SiNote(f[p].id.value, None, masks[a + p]))
  {
    var a := |ids.regular|;
    var qids := QuestionIds(ids);
    assert forall t :: 0 <= t < a ==> qids[t] == ids.regular[t].id.value;
    assert forall p :: 0 <= p < |Flatten(ids.reverse)| ==> qids[a + p] == Flatten(ids.reverse)[p].id.value;
  }

  // ---------------------------------------------------------------- updateNotes

  /** The two loops of `updateNotes` that write the notes (ngen.py:785-824)
      over the first `k` question ids: each id's `nid` is looked up first,
      a KeyError when it is missing; with new masks only a note the
      collection does not hold yet is written, as a new note; without, every
      note is rewritten in place. */
  function UpdateWrites(ids: seq<string>, m: NidMap, stored: set<string>, masks: seq<Option<(Mask, Mask)>>, k: nat): (r: Result<seq<SiNote>>)
    requires k <= |ids| && |masks| == |ids|
    decreases k
  {
    if k == 0 then Ok([])
    else
      match UpdateWrites(ids, m, stored, masks, k - 1)
      case Err(e) => Err(e)
      case Ok(ns) =>
        var id := ids[k - 1];
        if id !in m then Err(MissingKey(id))
        else if masks[k - 1].None? then Ok(ns + [SiNote(id, m[id], None)])
        else if id in stored then Ok(ns)
        else Ok(ns + [SiNote(id, None, masks[k - 1])])
  }

  /** Once a lookup has failed, the loops fail the same way. */
  lemma {:induction false} UpdateWritesErrSticks(ids: seq<string>, m: NidMap, stored: set<string>, masks: seq<Option<(Mask, Mask)>>, k: nat)
    requires k <= |ids| && |masks| == |ids| && UpdateWrites(ids, m, stored, masks, k).Err?
    ensures UpdateWrites(ids, m, stored, masks, |ids|) == UpdateWrites(ids, m, stored, masks, k)
    decreases |ids| - k
  {
    if k < |ids| {
      UpdateWritesErrSticks(ids, m, stored, masks, k + 1);
    }
  }

  /** Without new masks, and with every id in `m`, each note is rewritten
      in place: one per question, in order, with its `nid`. */
  lemma {:induction false} UpdateWritesRefresh(ids: seq<string>, m: NidMap, stored: set<string>, masks: seq<Option<(Mask, Mask)>>, k: nat)
    requires k <= |ids| && |masks| == |ids|
    requires forall t :: 0 <= t < k ==> ids[t] in m && masks[t].None?
    ensures UpdateWrites(ids, m, stored, masks, k).Ok?
    ensures var ns := UpdateWrites(ids, m, stored, masks, k).value;
      |ns| == k && forall t :: 0 <= t < k ==> ns[t] == SiNote(ids[t], m[ids[t]], None)
  {
    if k > 0 {
      UpdateWritesRefresh(ids, m, stored, masks, k - 1);
    }
  }

  /** With new masks, and with every id in `m`, exactly the notes the
      collection does not hold yet are written, as new notes with their
      masks; the others are left as they are. */
  lemma {:induction false} UpdateWritesReset(ids: seq<string>, m: NidMap, stored: set<string>, masks: seq<Option<(Mask, Mask)>>, k: nat)
    requires k <= |ids| && |masks| == |ids|
    requires forall t :: 0 <= t < k ==> ids[t] in m && masks[t].Some?
    ensures UpdateWrites(ids, m, stored, masks, k).Ok?
    ensures var ns := UpdateWrites(ids, m, stored, masks, k).value;
      && |ns| <= k
      && (forall j :: 0 <= j < |ns| ==> ns[j].noteId !in stored && ns[j].nid.None? && ns[j].masks.Some?)
      && (forall t :: 0 <= t < k && ids[t] !in stored ==> SiNote(ids[t], None, masks[t]) in ns)
  {
    if k > 0 {
      UpdateWritesReset(ids, m, stored, masks, k - 1);
    }
  }

  /** `new_svg` after an applied update: the renumbered document, stripped
      (ngen.py:762-763). */
  function SiNewSvg(doc: Node, ids0: Ids, ids: seq<string>, ex: seq<string>): Node
    requires InLayers(doc, ids0) && |ids| == |ShapesOf(ids0)|
  {
    StripAttr(RenumberedSi(doc, ids0, ids, ex), SiStripAttr)
  }

  /** The rest of `updateNotes` (ngen.py:765-825) once `new_svg` is `doc`,
      the dicts are `ids1` and `newMasks` is the run of the four mask lists on
      `doc`: new masks when `doc` differs from the stored O mask, the notes,
      and the tooltip, which counts `mnode_ids` only. */
  function UpdatedSi(doc: Node, ids1: Ids, m: NidMap, original: Node, stored: set<string>,
                     newMasks: Result<seq<Option<(Mask, Mask)>>>,
                     delCount: nat, newCount: nat, removed: set<Option<Nid>>): (r: UpdateOutcome)
    requires Named(ids1) && MasksFor(newMasks, ids1)
    ensures r.Updated? || r.UpdateFailed?
    ensures r.Updated? ==> r.newSvg == doc
  {
    var reset := doc != original;
    var k := NoteCount(ids1);
    var masks := if reset then newMasks else Ok(Unmasked(k));
    match masks
    case Err(e) => UpdateFailed(e)
    case Ok(ms) =>
      match UpdateWrites(QuestionIds(ids1), m, stored, ms, k)
      case Err(e) => UpdateFailed(e)
      case Ok(notes) =>
        Updated(doc, reset, notes, removed, delCount, newCount, Dispatch.UpdatedCountAsWritten(|ids1.regular|, delCount, newCount))
  }

  /** `updateNotes` on the document `svg` of the editor, for the stored
      `uniq_id`: the dicts are read in edit mode; without a regular or
      reverse question it stops before anything is deleted; otherwise the
      shapes of all three layers are reconciled as
      `Reconcile.SiDeleteAndIdNotes` states, and an applied reconciliation
      rewrites the notes. */
  function UpdateNotesSpec(svg: Node, uniq: string, found: NidMap, confirm: bool, original: Node,
                           stored: set<string>, qfill: string, afill: string): UpdateOutcome
  {
    var occl := SiOcclId(uniq);
    match SiIds.GetMnodesAndSetIds(svg, true, occl)
    case Err(e) => UpdateFailed(e)
    case Ok(g) =>
      var ids0 := g.1;
      if NoQuestions(ids0) then NoShapesLeft
      else
        SiEditInLayers(svg, occl);
        var shapes := ShapesOf(ids0);
        match SiDeleteAndIdNotes(shapes, uniq, occl, found, confirm)
        case Err(e) => UpdateFailed(e)
        case Ok(rc) =>
          match rc.decision
          case Declined => NotConfirmed
          case Applied(delCount, newCount, removed) =>
            RelabelNamed(ids0, rc.ids);
            var doc := SiNewSvg(g.0, ids0, rc.ids, SiExisting(shapes, uniq, found).value);
            var ids1 := RelabelIds(ids0, rc.ids);
            UpdatedSi(doc, ids1, rc.nids, original, stored, NoteMasks(doc, ids1, qfill, afill), delCount, newCount, removed)
  }

  /** When `updateNotes` gets past the confirmation with the dicts `g.1` of
      the edit pass and the reconciliation `rc`, the dicts point into the
      unchanged document and the outcome is `UpdatedSi` on the renumbered,
      stripped document and the dicts relabelled with the new ids. */
  lemma UpdateNotesApplied(svg: Node, uniq: string, found: NidMap, confirm: bool, original: Node,
                           stored: set<string>, qfill: string, afill: string, g: (Node, Ids), rc: Reconciled)
    requires SiIds.GetMnodesAndSetIds(svg, true, SiOcclId(uniq)) == Ok(g) && !NoQuestions(g.1)
    requires SiDeleteAndIdNotes(ShapesOf(g.1), uniq, SiOcclId(uniq), found, confirm) == Ok(rc)
    requires rc.decision.Applied?
    ensures g.0 == svg && InLayers(svg, g.1)
    ensures SiExisting(ShapesOf(g.1), uniq, found).Ok? && |rc.ids| == |ShapesOf(g.1)|
    ensures Named(RelabelIds(g.1, rc.ids))
    ensures var doc := SiNewSvg(svg, g.1, rc.ids, SiExisting(ShapesOf(g.1), uniq, found).value);
      var ids1 := RelabelIds(g.1, rc.ids);
      UpdateNotesSpec(svg, uniq, found, confirm, original, stored, qfill, afill)
      == UpdatedSi(doc, ids1, rc.nids, original, stored, NoteMasks(doc, ids1, qfill, afill),
                   rc.decision.delCount, rc.decision.newCount, rc.decision.removed)
  {
    SiEditInLayers(svg, SiOcclId(uniq));
    RelabelNamed(g.1, rc.ids);
  }

  /** An applied reconciliation deletes exactly the notes of `SiDeleted`,
      and removes their `nid`s. */
  lemma AppliedDeletes(shapes: seq<Shape>, uniq: string, occl: string, found: NidMap, confirm: bool, rc: Reconciled)
    requires SiDeleteAndIdNotes(shapes, uniq, occl, found, confirm) == Ok(rc) && rc.decision.Applied?
    ensures SiDeleted(shapes, uniq, found) <= found.Keys
    ensures rc.decision.delCount == |SiDeleted(shapes, uniq, found)|
    ensures rc.decision.removed == NidsOf(found, SiDeleted(shapes, uniq, found))
  {
  }

  /** `UpdatedSi` when every question id has its `nid`: it fails exactly
      when a reset's masks fail, with their error; unchanged masks rewrite
      every question's note in place with its `nid`; new masks write exactly
      the notes the collection does not hold yet, as new notes with the
      masks of their question. Blank questions never get a note, and the
      tooltip reports `Dispatch.UpdatedCountAsWritten` of `mnode_ids`
      alone. */
  lemma UpdatedSiNotes(doc: Node, ids1: Ids, m: NidMap, original: Node, stored: set<string>,
                       newMasks: Result<seq<Option<(Mask, Mask)>>>,
                       delCount: nat, newCount: nat, removed: set<Option<Nid>>)
    requires Named(ids1) && MasksFor(newMasks, ids1)
    requires forall t :: 0 <= t < NoteCount(ids1) ==> QuestionIds(ids1)[t] in m
    ensures var r := UpdatedSi(doc, ids1, m, original, stored, newMasks, delCount, newCount, removed);
      var k := NoteCount(ids1);
      var qids := QuestionIds(ids1);
      && (r.UpdateFailed? <==> doc != original && newMasks.Err?)
      && (r.UpdateFailed? ==> r.error == newMasks.error)
      && (r.Updated? ==>
            && r.newSvg == doc && r.reset == (doc != original)
            && r.delCount == delCount && r.newCount == newCount && r.removed == removed
            && |r.notes| <= k
            && (!r.reset ==> |r.notes| == k && forall t :: 0 <= t < k ==> r.notes[t] == SiNote(qids[t], m[qids[t]], None))
            && (r.reset ==>
                  && newMasks.Ok?
                  && (forall j :: 0 <= j < |r.notes| ==> r.notes[j].noteId !in stored && r.notes[j].nid.None? && r.notes[j].masks.Some?)
                  && (forall t :: 0 <= t < k && qids[t] !in stored ==> SiNote(qids[t], None, newMasks.value[t]) in r.notes))
            && r.shown == Dispatch.UpdatedCountAsWritten(|ids1.regular|, delCount, newCount))
  {
    var k := NoteCount(ids1);
    var qids := QuestionIds(ids1);
    if doc != original {
      if newMasks.Ok? {
        UpdateWritesReset(qids, m, stored, newMasks.value, k);
      }
    } else {
      UpdateWritesRefresh(qids, m, stored, Unmasked(k), k);
    }
  }

  /** `updateNotes` stops with no shapes left exactly when the regular
      layer has no question and the reverse layer no question set; it is
      declined exactly when the gate declines; it fails where the layers
      cannot be read or the reconciliation fails, and otherwise only after
      an applied reconciliation, as `UpdateNotesApplied` and
      `UpdatedSiNotes` state. */
  lemma UpdateNotesOutcome(svg: Node, uniq: string, found: NidMap, confirm: bool, original: Node,
                           stored: set<string>, qfill: string, afill: string)
    ensures var occl := SiOcclId(uniq);
      var g := SiIds.GetMnodesAndSetIds(svg, true, occl);
      var r := UpdateNotesSpec(svg, uniq, found, confirm, original, stored, qfill, afill);
      && (r.NoShapesLeft? <==>
            g.Ok? && Picked(Kids(RegularLayer(svg)), PickQuestion) == [] && Picked(Kids(ReverseLayer(svg)), PickQset) == [])
      && (g.Ok? ==> (r.NoShapesLeft? <==> NoQuestions(g.value.1)))
      && (r.NotConfirmed? <==>
            && g.Ok? && !NoQuestions(g.value.1)
            && SiDeleteAndIdNotes(ShapesOf(g.value.1), uniq, occl, found, confirm).Ok?
            && SiDeleteAndIdNotes(ShapesOf(g.value.1), uniq, occl, found, confirm).value.decision.Declined?)
      && (g.Err? ==> r == UpdateFailed(g.error))
      && (g.Ok? && !NoQuestions(g.value.1) && SiDeleteAndIdNotes(ShapesOf(g.value.1), uniq, occl, found, confirm).Err? ==>
            r == UpdateFailed(SiDeleteAndIdNotes(ShapesOf(g.value.1), uniq, occl, found, confirm).error))
  {
    var occl := SiOcclId(uniq);
    var g := SiIds.GetMnodesAndSetIds(svg, true, occl);
    var r := UpdateNotesSpec(svg, uniq, found, confirm, original, stored, qfill, afill);
    if g.Ok? {
      NoQuestionsIff(svg, true, occl);
      if !NoQuestions(g.value.1) {
        var rec := SiDeleteAndIdNotes(ShapesOf(g.value.1), uniq, occl, found, confirm);
        if rec.Ok? && rec.value.decision.Applied? {
          UpdateNotesApplied(svg, uniq, found, confirm, original, stored, qfill, afill, g.value, rec.value);
          assert r.Updated? || r.UpdateFailed?;
        }
      }
    }
  }

  /** After the reconciliation each question of the dicts is named by the
      id the shape got, and every such id has its entry in `nids`. */
  lemma ReconciledNamesHaveNids(shapes: seq<Shape>, ids0: Ids, uniq: string, occl: string, found: NidMap, confirm: bool)
    requires shapes == ShapesOf(ids0) && SiDeleteAndIdNotes(shapes, uniq, occl, found, confirm).Ok?
    ensures var rc := SiDeleteAndIdNotes(shapes, uniq, occl, found, confirm).value;
      var ids1 := RelabelIds(ids0, rc.ids);
      && Named(ids1)
      && NoteCount(ids1) == NoteCount(ids0)
      && (forall t :: 0 <= t < NoteCount(ids1) ==> QuestionIds(ids1)[t] == rc.ids[t] && QuestionIds(ids1)[t] in rc.nids)
  {
    var rc := SiDeleteAndIdNotes(shapes, uniq, occl, found, confirm).value;
    RelabelNamed(ids0, rc.ids);
    SiFinalIdsHaveNids(shapes, uniq, occl, found, confirm);
  }
}
