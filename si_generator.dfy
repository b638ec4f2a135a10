/** The SI generator (`IoGenSI`, ngen.py:526-1218) as an object: its
    `_getMnodesAndSetIds` and `_deleteAndIdNotes` walk the three layers with
    counters and fill the dicts `mnode_ids`, `rnode_ids`, `bnode_ids` and
    `nids` in place; `generateNotes` and `updateNotes` drive them and write
    the notes. The loops are proved against `SiIds`, `Reconcile` and
    `SiUpdate`. */
module SiGenerator {
  import opened Wrappers
  import opened Text
  import opened Svg
  import opened NoteIds
  import opened Numbering
  import opened SiIds
  import opened Reconcile
  import opened SiGen
  import opened SiRender
  import opened SiUpdate
  import Dispatch

  /** The exits of `SiNoteGenerator.UpdateNotes` before the notes are
      written, read off `UpdateNotesSpec`. */
  lemma GetFailedIsSpec(svg: Node, uniq: string, found: NidMap, confirm: bool, original: Node,
                        stored: set<string>, qfill: string, afill: string, e: Error)
    requires SiIds.GetMnodesAndSetIds(svg, true, SiOcclId(uniq)) == Err(e)
    ensures UpdateNotesSpec(svg, uniq, found, confirm, original, stored, qfill, afill) == UpdateFailed(e)
  {
  }

  lemma NoShapesIsSpec(svg: Node, uniq: string, found: NidMap, confirm: bool, original: Node,
                       stored: set<string>, qfill: string, afill: string, g: (Node, Ids))
    requires SiIds.GetMnodesAndSetIds(svg, true, SiOcclId(uniq)) == Ok(g)
    requires g.1.regular == [] && g.1.reverse == []
    ensures UpdateNotesSpec(svg, uniq, found, confirm, original, stored, qfill, afill) == NoShapesLeft
  {
    NoQuestionsIff(svg, true, SiOcclId(uniq));
  }

  lemma ReconcileFailedIsSpec(svg: Node, uniq: string, found: NidMap, confirm: bool, original: Node,
                              stored: set<string>, qfill: string, afill: string, g: (Node, Ids), e: Error)
    requires SiIds.GetMnodesAndSetIds(svg, true, SiOcclId(uniq)) == Ok(g) && !NoQuestions(g.1)
    requires SiDeleteAndIdNotes(ShapesOf(g.1), uniq, SiOcclId(uniq), found, confirm) == Err(e)
    ensures UpdateNotesSpec(svg, uniq, found, confirm, original, stored, qfill, afill) == UpdateFailed(e)
  {
  }

  lemma DeclinedIsSpec(svg: Node, uniq: string, found: NidMap, confirm: bool, original: Node,
                       stored: set<string>, qfill: string, afill: string, g: (Node, Ids))
    requires SiIds.GetMnodesAndSetIds(svg, true, SiOcclId(uniq)) == Ok(g) && !NoQuestions(g.1)
    requires SiDeleteAndIdNotes(ShapesOf(g.1), uniq, SiOcclId(uniq), found, confirm).Ok?
    requires SiDeleteAndIdNotes(ShapesOf(g.1), uniq, SiOcclId(uniq), found, confirm).value.decision.Declined?
    ensures UpdateNotesSpec(svg, uniq, found, confirm, original, stored, qfill, afill) == NotConfirmed
  {
  }

  /** The applied path of `SiNoteGenerator.UpdateNotes`: with the
      renumbered document `doc'`, the relabelled dicts `ids1` and the
      reconciled `nids` that `DeleteAndIdNotes` leaves, `UpdateNotesSpec`
      is `UpdatedSi` on the stripped `doc'`. */
  lemma AppliedIsSpec(svg: Node, uniq: string, found: NidMap, confirm: bool, original: Node,
                      stored: set<string>, qfill: string, afill: string, g: (Node, Ids), rc: Reconciled,
                      doc': Node, ids1: Ids, nids: NidMap)
    requires SiIds.GetMnodesAndSetIds(svg, true, SiOcclId(uniq)) == Ok(g) && !NoQuestions(g.1)
    requires SiDeleteAndIdNotes(ShapesOf(g.1), uniq, SiOcclId(uniq), found, confirm) == Ok(rc)
    requires rc.decision.Applied? && InLayers(g.0, g.1)
    requires ids1 == RelabelIds(g.1, rc.ids) && nids == rc.nids
    requires doc' == RenumberedSi(g.0, g.1, rc.ids, SiExisting(ShapesOf(g.1), uniq, found).value)
    ensures Named(ids1)
    ensures UpdateNotesSpec(svg, uniq, found, confirm, original, stored, qfill, afill)
      == UpdatedSi(StripAttr(doc', SiStripAttr), ids1, nids, original, stored, NoteMasks(StripAttr(doc', SiStripAttr), ids1, qfill, afill),
                   rc.decision.delCount, rc.decision.newCount, rc.decision.removed)
  {
    UpdateNotesApplied(svg, uniq, found, confirm, original, stored, qfill, afill, g, rc);
  }

  class SiNoteGenerator {
    var newSvg: Node
    var occlId: string
    var mnodeIds: seq<Entry>
    var rnodeIds: seq<Qset>
    var bnodeIds: seq<Entry>
    var nids: NidMap

    /** `IoGenSI.__init__` (ngen.py:534-540): the three dicts start empty. */
    constructor(svg: Node, occlId: string, nids: NidMap)
      ensures newSvg == svg && this.occlId == occlId && this.nids == nids
      ensures mnodeIds == [] && rnodeIds == [] && bnodeIds == []
    {
      newSvg := svg;
      this.occlId := occlId;
      this.nids := nids;
      mnodeIds, rnodeIds, bnodeIds := [], [], [];
    }

    // ------------------------------------------------------------ _getMnodesAndSetIds

    /** `_getMnodesAndSetIds(edit)` (ngen.py:1105-1173) on `new_svg`: the
        document with its ids set and the three dicts, exactly as
        `SiIds.GetMnodesAndSetIds` states, every dict indexing into
        the layers of that document. */
    method GetMnodesAndSetIds(edit: bool) returns (r: Result<Node>)
      requires mnodeIds == [] && rnodeIds == [] && bnodeIds == []
      modifies this
      ensures newSvg == old(newSvg) && occlId == old(occlId) && nids == old(nids)
      ensures var spec := SiIds.GetMnodesAndSetIds(old(newSvg), edit, old(occlId));
        && (r.Err? <==> spec.Err?)
        && (r.Err? ==> r.error == spec.error)
        && (r.Ok? ==> r.value == spec.value.0 && Ids(mnodeIds, rnodeIds, bnodeIds) == spec.value.1)
    {
      var doc := newSvg;
      var check := LayerCheck(doc);
      if check.Err? {
        return Err(check.error);
      }
      var n := check.value;
      var mcs, ques, card := RegularLoop(Kids(doc.children[n - 1]), edit);
      ghost var m := Pass(mcs, mnodeIds, ques, card);
      var rcs, card', g := ReverseLoop(Kids(doc.children[n - 2]), edit, ques, card);
      ghost var rv := RPass(rcs, rnodeIds, card', g);
      var bcs, ques', card'' := BlankLoop(Kids(doc.children[n - 3]), edit, ques, card');
      ghost var b := Pass(bcs, bnodeIds, ques', card'');
      GetMnodesOk(doc, edit, occlId, m, rv, b);
      var layers := doc.children[n - 1 := WithKids(doc.children[n - 1], mcs)]
                                [n - 2 := WithKids(doc.children[n - 2], rcs)]
                                [n - 3 := WithKids(doc.children[n - 3], bcs)];
      return Ok(doc.(children := layers));
    }

    /** The loop over the regular layer (ngen.py:1116-1133): odd children
        are questions, recorded in `mnode_ids`; at create time even ones are
        wrappers and advance `count_ques` and `count_card`. */
    method RegularLoop(cs: seq<Node>, edit: bool) returns (children: seq<Node>, ques: nat, card: nat)
      requires mnodeIds == []
      modifies this
      ensures newSvg == old(newSvg) && occlId == old(occlId) && nids == old(nids)
      ensures rnodeIds == old(rnodeIds) && bnodeIds == old(bnodeIds)
      ensures Pass(children, mnodeIds, ques, card) == RegularPass(cs, edit, old(occlId))
    {
      var occl := occlId;
      children, ques, card := [], 1, 1;
      var i := 0;
      while i < |cs|
        invariant i <= |cs|
        invariant Pass(children, mnodeIds, ques, card) == RegularPass(cs[..i], edit, occl)
        invariant newSvg == old(newSvg) && occlId == occl && nids == old(nids)
        invariant rnodeIds == old(rnodeIds) && bnodeIds == old(bnodeIds)
      {
        RegularPassNext(cs, edit, occl, i);
        ghost var st := Pass(children, mnodeIds, ques, card);
        var c := cs[i];
        if !IsTitle(c) {
          if i % 2 == 1 {
            if !edit {
              var id := SiNoteId(occl, ZFill(NatToString(card), 3), RegularRole(ques));
              mnodeIds := mnodeIds + [Entry(i, Some(id))];
              c := SetAttr(c, "id", id);
            } else {
              mnodeIds := mnodeIds + [Entry(i, GetAttr(c, "id"))];
            }
          } else if !edit {
            c := MarkWrapper(c, QwrapperId(occl, ques));
            ques, card := ques + 1, card + 1;
          }
        }
        children := children + [c];
        assert Pass(children, mnodeIds, ques, card) == RegularStep(st, cs[i], edit, occl);
        i := i + 1;
      }
      assert cs[..i] == cs;
    }

    /** The loop over the reverse layer (ngen.py:1136-1159): each odd group
        is a question set whose items are recorded in an inner dict of
        `rnode_ids`; at create time the even children are wrappers and
        advance `count_g`. */
    method ReverseLoop(cs: seq<Node>, edit: bool, ques: nat, card: nat) returns (children: seq<Node>, card': nat, g: nat)
      requires rnodeIds == []
      modifies this
      ensures newSvg == old(newSvg) && occlId == old(occlId) && nids == old(nids)
      ensures mnodeIds == old(mnodeIds) && bnodeIds == old(bnodeIds)
      ensures RPass(children, rnodeIds, card', g) == ReversePass(cs, edit, old(occlId), ques, card)
    {
      var occl := occlId;
      children, card', g := [], card, 1;
      var i := 0;
      while i < |cs|
        invariant i <= |cs|
        invariant RPass(children, rnodeIds, card', g) == ReversePass(cs[..i], edit, occl, ques, card)
        invariant newSvg == old(newSvg) && occlId == occl && nids == old(nids)
        invariant mnodeIds == old(mnodeIds) && bnodeIds == old(bnodeIds)
      {
        ReversePassNext(cs, edit, occl, ques, card, i);
        ghost var st := RPass(children, rnodeIds, card', g);
        var c, rec, next, g' := ReverseChild(occl, cs[i], i, edit, ques, card', g);
        rnodeIds := rnodeIds + rec;
        children := children + [c];
        card', g := next, g';
        assert RPass(children, rnodeIds, card', g) == ReverseStep(st, cs[i], edit, occl, ques);
        i := i + 1;
      }
      assert cs[..i] == cs;
    }

    /** One child of the reverse layer (ngen.py:1137-1160): what it becomes,
        the inner dict it adds to `rnode_ids`, and the card counter and
        `count_g` after it. */
    static method ReverseChild(occl: string, c: Node, i: nat, edit: bool, ques: nat, card: nat, g: nat)
      returns (c': Node, rec: seq<Qset>, card': nat, g': nat)
      ensures c' == ReverseNode(c, i, edit, occl, ques, card, g)
      ensures rec == ReverseRecord(c, i, edit, occl, ques, card)
      ensures card' == ReverseCardAfter(c, i, edit, occl, ques, card)
      ensures g' == g + (if !edit && IsWrapper(c, i) then 1 else 0)
    {
      c', rec, card', g' := c, [], card, g;
      if !IsTitle(c) {
        if i % 2 == 1 && TagOf(c) == "g" {
          var qset := c;
          if !edit {
            qset := SetAttr(c, "id", QsetId(occl, g));
          }
          var items, entries, next := ItemsLoop(occl, Kids(c), edit, ques, card);
          rec := [Qset(i, entries)];
          c' := WithKids(qset, items);
          card' := next;
        } else if i % 2 == 0 && !edit {
          c' := MarkWrapper(c, QwrapperId(occl, g));
          g' := g + 1;
        }
      }
    }

    /** The loop over the items of one question set (ngen.py:1143-1152):
        every item but a hider is a question and, at create time, takes
        the next card number. */
    static method ItemsLoop(occl: string, qs: seq<Node>, edit: bool, ques: nat, card: nat) returns (children: seq<Node>, entries: seq<Entry>, card': nat)
      ensures Items(children, entries, card') == ItemsPass(qs, edit, occl, ques, card)
    {
      children, entries, card' := [], [], card;
      var j := 0;
      while j < |qs|
        invariant j <= |qs|
        invariant Items(children, entries, card') == ItemsPass(qs[..j], edit, occl, ques, card)
      {
        ItemsPassNext(qs, edit, occl, ques, card, j);
        ghost var st := Items(children, entries, card');
        var q := qs[j];
        if !IsHider(q) {
          if !edit {
            var id := ReverseId(occl, card', ques, j + 1);
            q := SetAttr(q, "id", id);
            entries := entries + [Entry(j, Some(id))];
            card' := card' + 1;
          } else {
            entries := entries + [Entry(j, GetAttr(q, "id"))];
          }
        }
        children := children + [q];
        assert Items(children, entries, card') == ItemStep(st, qs[j], edit, occl, ques);
        j := j + 1;
      }
      assert qs[..j] == qs;
    }

    /** The loop over the blank layer (ngen.py:1162-1171): every child but
        a title is a question and advances both counters, in either mode. */
    method BlankLoop(cs: seq<Node>, edit: bool, ques: nat, card: nat) returns (children: seq<Node>, ques': nat, card': nat)
      requires bnodeIds == []
      modifies this
      ensures newSvg == old(newSvg) && occlId == old(occlId) && nids == old(nids)
      ensures mnodeIds == old(mnodeIds) && rnodeIds == old(rnodeIds)
      ensures Pass(children, bnodeIds, ques', card') == BlankPass(cs, edit, old(occlId), ques, card)
    {
      var occl := occlId;
      children, ques', card' := [], ques, card;
      var i := 0;
      while i < |cs|
        invariant i <= |cs|
        invariant Pass(children, bnodeIds, ques', card') == BlankPass(cs[..i], edit, occl, ques, card)
        invariant newSvg == old(newSvg) && occlId == occl && nids == old(nids)
        invariant mnodeIds == old(mnodeIds) && rnodeIds == old(rnodeIds)
      {
        BlankPassNext(cs, edit, occl, ques, card, i);
        ghost var st := Pass(children, bnodeIds, ques', card');
        var c := cs[i];
        if !IsTitle(c) {
          if !edit {
            var id := BlankId(occl, card', ques');
            bnodeIds := bnodeIds + [Entry(i, Some(id))];
            c := SetAttr(c, "id", id);
          } else {
            bnodeIds := bnodeIds + [Entry(i, GetAttr(c, "id"))];
          }
          ques', card' := ques' + 1, card' + 1;
        }
        children := children + [c];
        assert Pass(children, bnodeIds, ques', card') == BlankStep(st, cs[i], edit, occl);
        i := i + 1;
      }
      assert cs[..i] == cs;
    }

    // ------------------------------------------------------------ _deleteAndIdNotes

    /** `_deleteAndIdNotes(mlayer_node, rlayer_node, blayer_node)`
        (ngen.py:556-738) on the layers of `doc`: exactly what
        `Reconcile.SiDeleteAndIdNotes` states for the shapes of the three
        dicts. On success the dicts hold the new ids, `nids` has an entry
        for every new shape, the new shapes carry their ids in the layers,
        and the result is the gate's decision. */
    method DeleteAndIdNotes(doc: Node, uniq: string, confirm: bool) returns (doc': Node, r: Result<Decision>)
      requires InLayers(doc, Ids(mnodeIds, rnodeIds, bnodeIds))
      modifies this
      ensures newSvg == old(newSvg) && occlId == old(occlId)
      ensures var ids0 := old(Ids(mnodeIds, rnodeIds, bnodeIds));
        var shapes := ShapesOf(ids0);
        var spec := SiDeleteAndIdNotes(shapes, uniq, old(occlId), old(nids), confirm);
        && (r.Err? <==> spec.Err?)
        && (r.Err? ==> r.error == spec.error && doc' == doc && Ids(mnodeIds, rnodeIds, bnodeIds) == ids0 && nids == old(nids))
        && (r.Ok? ==>
              && r.value == spec.value.decision
              && nids == spec.value.nids
              && |spec.value.ids| == |shapes|
              && Ids(mnodeIds, rnodeIds, bnodeIds) == RelabelIds(ids0, spec.value.ids)
              && doc' == RenumberedSi(doc, ids0, spec.value.ids, SiExisting(shapes, uniq, old(nids)).value))
    {
      var ids', ns;
      doc', r, ids', ns := DeleteAndIdNotesOn(doc, Ids(mnodeIds, rnodeIds, bnodeIds), nids, occlId, uniq, confirm);
      mnodeIds, rnodeIds, bnodeIds, nids := ids'.regular, ids'.reverse, ids'.blank, ns;
    }

    static method DeleteAndIdNotesOn(doc: Node, ids0: Ids, nids: NidMap, occlId: string, uniq: string, confirm: bool)
      returns (doc': Node, r: Result<Decision>, ids': Ids, ns: NidMap)
      requires InLayers(doc, ids0)
      ensures var shapes := ShapesOf(ids0);
        var spec := SiDeleteAndIdNotes(shapes, uniq, occlId, nids, confirm);
        && (r.Err? <==> spec.Err?)
        && (r.Err? ==> r.error == spec.error && doc' == doc && ids' == ids0 && ns == nids)
        && (r.Ok? ==>
              && r.value == spec.value.decision
              && ns == spec.value.nids
              && |spec.value.ids| == |shapes|
              && ids' == RelabelIds(ids0, spec.value.ids)
              && doc' == RenumberedSi(doc, ids0, spec.value.ids, SiExisting(shapes, uniq, nids).value))
    {
      var shapes := ShapesOf(ids0);
      var exR := SiExisting(shapes, uniq, nids);
      if exR.Err? {
        return doc, Err(exR.error), ids0, nids;
      }
      var ex := exR.value;
      var nrsR := SiNumbers(ex);
      if nrsR.Err? {
        return doc, Err(nrsR.error), ids0, nids;
      }
      doc', r, ids', ns := DeleteAndIdNotesFrom(doc, ids0, nids, occlId, uniq, confirm, ex, nrsR.value);
    }

    /** `_deleteAndIdNotes` once the existing ids and their card numbers
        are known: renumber the layers, then ask for confirmation when
        anything is deleted or new. */
    static method DeleteAndIdNotesFrom(doc: Node, ids0: Ids, nids: NidMap, occlId: string, uniq: string, confirm: bool,
                                       ex: seq<string>, nrs: seq<nat>)
      returns (doc': Node, r: Result<Decision>, ids': Ids, ns: NidMap)
      requires InLayers(doc, ids0)
      requires SiExisting(ShapesOf(ids0), uniq, nids) == Ok(ex) && SiNumbers(ex) == Ok(nrs)
      ensures var shapes := ShapesOf(ids0);
        var spec := SiDeleteAndIdNotes(shapes, uniq, occlId, nids, confirm);
        && spec.Ok? && r.Ok?
        && r.value == spec.value.decision
        && ns == spec.value.nids
        && |spec.value.ids| == |shapes|
        && ids' == RelabelIds(ids0, spec.value.ids)
        && doc' == RenumberedSi(doc, ids0, spec.value.ids, ex)
    {
      var shapes := ShapesOf(ids0);
      var deleted := SiDeleted(shapes, uniq, nids);
      var removed := NidsOf(nids, deleted);
      var delCount := |deleted|;
      var newCount;
      doc', ids', ns, newCount := RenumberLayers(doc, ids0, nids, occlId, ex, nrs);
      var decision := Applied(delCount, newCount, removed);
      if delCount > 0 || newCount > 0 {
        if !confirm {
          decision := Declined;
        }
      }
      FromIsSpec(doc, ids0, nids, occlId, uniq, confirm, ex, nrs, doc', ids', ns, newCount, decision);
      r := Ok(decision);
    }

    /** The three loops of `_deleteAndIdNotes` (ngen.py:617-712) one
        after the other, sharing `available_nrs`, `note_nr_max`,
        `new_count` and `nids`: the numbering, dicts and layers of
        `Reconcile.SiDeleteAndIdNotes` for the shapes of the dicts. */
    static method RenumberLayers(doc: Node, ids0: Ids, nids: NidMap, occlId: string, ex: seq<string>, nrs: seq<nat>)
      returns (doc': Node, ids': Ids, ns: NidMap, newCount: nat)
      requires InLayers(doc, ids0)
      ensures var shapes := ShapesOf(ids0);
        var isNew := SiNewFlags(shapes, ex);
        var ids := SiNewIds(shapes, occlId, nrs, isNew);
        && newCount == CountNew(isNew)
        && ns == EnterNew(nids, ids, isNew, |shapes|)
        && ids' == RelabelIds(ids0, ids)
        && doc' == RenumberedSi(doc, ids0, ids, ex)
    {
      var n := |doc.children|;
      var m', r', b';
      var mcs, c1, k1, ns1, rcs, c2, k2, ns2, bcs, c3;
      ghost var ids1, ids2, ids3;
      mcs, m', c1, k1, ns1, ids1 := RenumberEntries(occlId, Regular, Kids(doc.children[n - 1]), ids0.regular, ex, Start(nrs), 0, nids, []);
      rcs, r', c2, k2, ns2, ids2 := RenumberQsets(occlId, Kids(doc.children[n - 2]), ids0.reverse, ex, c1, k1, ns1, ids1);
      bcs, b', c3, newCount, ns, ids3 := RenumberEntries(occlId, Blank, Kids(doc.children[n - 3]), ids0.blank, ex, c2, k2, ns2, ids1 + ids2);
      doc' := doc.(children := doc.children[n - 1 := WithKids(doc.children[n - 1], mcs)]
                                           [n - 2 := WithKids(doc.children[n - 2], rcs)]
                                           [n - 3 := WithKids(doc.children[n - 3], bcs)]);
      assert [] + ids1 == ids1;
      RunsAreSpec(ids0, ex, occlId, nrs, nids, Run(ids1, c1, k1, ns1), Run(ids1 + ids2, c2, k2, ns2), Run(ids1 + ids2 + ids3, c3, newCount, ns));
      LayersAreSpec(doc, ids0, ids1, ids2, ids3, ex, mcs, rcs, bcs);
      ids' := Ids(m', r', b');
    }

    /** The loop over one dict of entries pointing into `cs` (the regular
        loop, ngen.py:617-646, the inner reverse loop, 650-680, the blank
        loop, 683-712): a new shape takes `available_nrs.pop(0)` or the
        next number past `note_nr_max`, gets its edit-time id in the dict,
        in `nids` and on its element; the rest are left as they are. */
    static method RenumberEntries(occlId: string, kind: Kind, cs: seq<Node>, es: seq<Entry>, ex: seq<string>, c: Counter, k: nat, ns: NidMap, ghost done: seq<string>)
      returns (cs': seq<Node>, es': seq<Entry>, c': Counter, k': nat, ns': NidMap, ghost ids: seq<string>)
      requires EntriesIn(cs, es)
      ensures |ids| == |es|
      ensures cs' == SetNewIds(cs, es, ids, ex) && es' == Relabel(es, ids)
      ensures Run(done + ids, c', k', ns') == Steps(Run(done, c, k, ns), EntryShapes(es, kind), ex, occlId)
    {
      cs', es', c', k', ns', ids := cs, es, c, k, ns, [];
      var t := 0;
      while t < |es|
        invariant t <= |es| && |ids| == t && |es'| == |es|
        invariant cs' == SetNewIds(cs, es[..t], ids, ex)
        invariant forall j :: 0 <= j < t ==> es'[j] == Entry(es[j].index, Some(ids[j]))
        invariant forall j :: t <= j < |es| ==> es'[j] == es[j]
        invariant Run(done + ids, c', k', ns') == Steps(Run(done, c, k, ns), EntryShapes(es[..t], kind), ex, occlId)
      {
        var e := es'[t];
        SetNewIdsIn(cs, es, ids, ex, t);
        var cs1, c1, k1, ns1, id := RenumberOne(occlId, kind, cs', e, ex, c', k', ns', done + ids);
        ghost var pes := es';
        if IsNew(e.id, ex) {
          es' := es'[t := Entry(e.index, Some(id))];
        }
        RenumberNext(kind, cs, es, ex, occlId, Run(done, c, k, ns), done, ids, t, c', k', ns', cs', id, c1, k1, ns1, cs1);
        RelabelNext(es, ids, t, id, ex, pes, es');
        cs', c', k', ns' := cs1, c1, k1, ns1;
        ids := ids + [id];
        t := t + 1;
      }
      assert es[..t] == es;
    }

    /** `available_nrs.pop(0)` when a number is free, else
        `note_nr_max + 1`, which becomes the new maximum. */
    static method NextNr(c: Counter) returns (nr: nat, c': Counter)
      ensures (nr, c') == Take(c)
    {
      if |c.pool| > 0 {
        nr := c.pool[0];
        c' := Counter(c.pool[1..], c.max);
      } else {
        nr := c.max + 1;
        c' := Counter([], nr);
      }
    }

    /** One entry of that loop (ngen.py:622-637): `available_nrs.pop(0)`
        when a number is free, else `note_nr_max + 1`, for a new shape; an
        existing one keeps its id. Exactly one `RunStep`. */
    static method RenumberOne(occlId: string, kind: Kind, cs: seq<Node>, e: Entry, ex: seq<string>, c: Counter, k: nat, ns: NidMap, ghost before: seq<string>)
      returns (cs': seq<Node>, c': Counter, k': nat, ns': NidMap, id: string)
      requires e.index < |cs|
      ensures Run(before + [id], c', k', ns') == RunStep(Run(before, c, k, ns), Shape(kind, e.id), ex, occlId)
      ensures cs' == if IsNew(e.id, ex) then cs[e.index := SetAttr(cs[e.index], "id", id)] else cs
      ensures !IsNew(e.id, ex) ==> e.id == Some(id)
    {
      if IsNew(e.id, ex) {
        var nr;
        nr, c' := NextNr(c);
        id := SiEditId(occlId, kind, nr);
        k' := k + 1;
        ns' := ns[id := None];
        cs' := cs[e.index := SetAttr(cs[e.index], "id", id)];
      } else {
        id := e.id.value;
        cs', c', k', ns' := cs, c, k, ns;
      }
    }

    /** The outer loop over `rnode_ids` (ngen.py:649-680): the items of each
        question set are renumbered inside the set's element. */
    static method RenumberQsets(occlId: string, cs: seq<Node>, qs: seq<Qset>, ex: seq<string>, c: Counter, k: nat, ns: NidMap, ghost done: seq<string>)
      returns (cs': seq<Node>, qs': seq<Qset>, c': Counter, k': nat, ns': NidMap, ghost ids: seq<string>)
      requires QsetsIn(cs, qs)
      ensures |ids| == |Flatten(qs)|
      ensures cs' == SetNewQsets(cs, qs, ids, ex) && qs' == RelabelQsets(qs, ids)
      ensures Run(done + ids, c', k', ns') == Steps(Run(done, c, k, ns), EntryShapes(Flatten(qs), Reverse), ex, occlId)
    {
      cs', qs', c', k', ns', ids := cs, [], c, k, ns, [];
      var g := 0;
      while g < |qs|
        invariant g <= |qs| && |ids| == |Flatten(qs[..g])|
        invariant QsetsIn(cs, qs[..g])
        invariant cs' == SetNewQsets(cs, qs[..g], ids, ex) && qs' == RelabelQsets(qs[..g], ids)
        invariant Run(done + ids, c', k', ns') == Steps(Run(done, c, k, ns), EntryShapes(Flatten(qs[..g]), Reverse), ex, occlId)
      {
        var q := qs[g];
        assert EntriesIn(Kids(cs'[q.index]), q.items);
        var kids, items, c1, k1, ns1, more := RenumberEntries(occlId, Reverse, Kids(cs'[q.index]), q.items, ex, c', k', ns', done + ids);
        SetNewQsetsNext(cs, qs, ids, more, ex, g);
        RenumberQsetsNext(qs, ex, occlId, Run(done, c, k, ns), done, ids, g, Run(done + ids, c', k', ns'), more, c1, k1, ns1);
        cs' := cs'[q.index := WithKids(cs'[q.index], kids)];
        qs' := qs' + [Qset(q.index, items)];
        c', k', ns' := c1, k1, ns1;
        ids := ids + more;
        g := g + 1;
      }
      assert qs[..g] == qs;
    }

    // ------------------------------------------------------------ generateNotes and updateNotes

    /** `generateNotes` (ngen.py:1175-1212) on `new_svg`, with
        `int(time.time())` read as `epochSecs`: exactly
        `SiUpdate.GenerateNotesSpec`; once the cards are generated `new_svg`
        is the O mask. */
    method GenerateNotes(epochSecs: nat, qfill: string, afill: string) returns (r: GenerateOutcome)
      requires mnodeIds == [] && rnodeIds == [] && bnodeIds == []
      modifies this
      ensures r == GenerateNotesSpec(old(newSvg), qfill, afill, epochSecs)
      ensures occlId == SiOcclId(NatToString(epochSecs))
      ensures r.Generated? ==> newSvg == r.omask
    {
      occlId := SiOcclId(NatToString(epochSecs));
      ghost var svg := newSvg;
      var g := GetMnodesAndSetIds(false);
      if g.Err? {
        return GenerateFailed(g.error);
      }
      if mnodeIds == [] && rnodeIds == [] {
        return NoCards;
      }
      SiCreateNamed(svg, occlId);
      newSvg := StripAttr(g.value, SiStripAttr);
      var ids := Ids(mnodeIds, rnodeIds, bnodeIds);
      var masks := NoteMasks(newSvg, ids, qfill, afill);
      if masks.Err? {
        return GenerateFailed(masks.error);
      }
      var names := QuestionNames(ids);
      var notes := NewNotesLoop(names, masks.value);
      return Generated(newSvg, notes, AddedTooltip(|mnodeIds|, |Flatten(rnodeIds)|));
    }

    /** The loops over `mnode_ids` and the inner dicts of `rnode_ids`
        (ngen.py:1205-1210): one new note per question with its masks. */
    static method NewNotesLoop(names: seq<string>, masks: seq<Option<(Mask, Mask)>>) returns (notes: seq<SiNote>)
      requires |masks| == |names|
      ensures notes == NewNotes(names, masks)
    {
      notes := [];
      var nr := 0;
      while nr < |names|
        invariant nr <= |names|
        invariant notes == NewNotes(names[..nr], masks[..nr])
      {
        notes := notes + [SiNote(names[nr], None, masks[nr])];
        nr := nr + 1;
      }
      assert names[..nr] == names && masks[..nr] == masks;
    }

    /** The note ids of the two loops, read from the dicts. */
    static method QuestionNames(ids: Ids) returns (names: seq<string>)
      requires Named(ids)
      ensures names == QuestionIds(ids)
    {
      names := [];
      var t := 0;
      while t < |ids.regular|
        invariant t <= |ids.regular|
        invariant names == QuestionIds(ids)[..t]
      {
        names := names + [ids.regular[t].id.value];
        t := t + 1;
      }
      var f := Flatten(ids.reverse);
      var p := 0;
      while p < |f|
        invariant p <= |f|
        invariant names == QuestionIds(ids)[..t + p]
      {
        names := names + [f[p].id.value];
        p := p + 1;
      }
      assert QuestionIds(ids)[..t + p] == QuestionIds(ids);
    }

    /** `updateNotes` (ngen.py:740-826) on `new_svg` for the stored
        `uniq_id` `uniq`, with `found` for `_findAllNotes`: exactly
        `SiUpdate.UpdateNotesSpec`; once the notes are written `new_svg` is
        the renumbered, stripped document. */
    method UpdateNotes(uniq: string, found: NidMap, confirm: bool, original: Node, stored: set<string>,
                       qfill: string, afill: string)
      returns (r: UpdateOutcome)
      requires mnodeIds == [] && rnodeIds == [] && bnodeIds == []
      modifies this
      ensures r == UpdateNotesSpec(old(newSvg), uniq, found, confirm, original, stored, qfill, afill)
      ensures occlId == SiOcclId(uniq)
      ensures r.Updated? ==> newSvg == r.newSvg
    {
      ghost var svg := newSvg;
      occlId := SiOcclId(uniq);
      nids := found;
      var g := GetMnodesAndSetIds(true);
      if g.Err? {
        GetFailedIsSpec(svg, uniq, found, confirm, original, stored, qfill, afill, g.error);
        return UpdateFailed(g.error);
      }
      ghost var gv := (g.value, Ids(mnodeIds, rnodeIds, bnodeIds));
      if mnodeIds == [] && rnodeIds == [] {
        NoShapesIsSpec(svg, uniq, found, confirm, original, stored, qfill, afill, gv);
        return NoShapesLeft;
      }
      r := ApplyEdits(svg, g.value, uniq, found, confirm, original, stored, qfill, afill);
    }

    /** `updateNotes` (ngen.py:756-825) once the dicts of the edit pass
        hold a question: the reconciliation, the confirmation and the
        writing of the notes. */
    method ApplyEdits(ghost svg: Node, doc: Node, uniq: string, found: NidMap, confirm: bool, original: Node,
                      stored: set<string>, qfill: string, afill: string)
      returns (r: UpdateOutcome)
      requires SiIds.GetMnodesAndSetIds(svg, true, SiOcclId(uniq)) == Ok((doc, Ids(mnodeIds, rnodeIds, bnodeIds)))
      requires !NoQuestions(Ids(mnodeIds, rnodeIds, bnodeIds))
      requires occlId == SiOcclId(uniq) && nids == found
      modifies this
      ensures r == UpdateNotesSpec(svg, uniq, found, confirm, original, stored, qfill, afill)
      ensures occlId == old(occlId)
      ensures r.Updated? ==> newSvg == r.newSvg
    {
      ghost var gv := (doc, Ids(mnodeIds, rnodeIds, bnodeIds));
      SiEditInLayers(svg, occlId);
      var doc', d := DeleteAndIdNotes(doc, uniq, confirm);
      ghost var rec := SiDeleteAndIdNotes(ShapesOf(gv.1), uniq, occlId, found, confirm);
      if d.Err? {
        ReconcileFailedIsSpec(svg, uniq, found, confirm, original, stored, qfill, afill, gv, d.error);
        return UpdateFailed(d.error);
      }
      if d.value.Declined? {
        DeclinedIsSpec(svg, uniq, found, confirm, original, stored, qfill, afill, gv);
        return NotConfirmed;
      }
      AppliedIsSpec(svg, uniq, found, confirm, original, stored, qfill, afill, gv, rec.value,
                    doc', Ids(mnodeIds, rnodeIds, bnodeIds), nids);
      r := WriteApplied(svg, doc', d.value, uniq, found, confirm, original, stored, qfill, afill);
    }

    /** `updateNotes` (ngen.py:778-825) after the confirmation: `new_svg`
        becomes the renumbered document `doc'` without the SI attributes
        and the notes are written from it. */
    method WriteApplied(ghost svg: Node, doc': Node, d: Decision, uniq: string, found: NidMap, confirm: bool,
                        original: Node, stored: set<string>, qfill: string, afill: string)
      returns (r: UpdateOutcome)
      requires d.Applied? && Named(Ids(mnodeIds, rnodeIds, bnodeIds))
      requires UpdateNotesSpec(svg, uniq, found, confirm, original, stored, qfill, afill)
        == UpdatedSi(StripAttr(doc', SiStripAttr), Ids(mnodeIds, rnodeIds, bnodeIds), nids, original, stored,
                     NoteMasks(StripAttr(doc', SiStripAttr), Ids(mnodeIds, rnodeIds, bnodeIds), qfill, afill),
                     d.delCount, d.newCount, d.removed)
      modifies this
      ensures r == UpdateNotesSpec(svg, uniq, found, confirm, original, stored, qfill, afill)
      ensures occlId == old(occlId)
      ensures r.Updated? ==> newSvg == r.newSvg
    {
      newSvg := StripAttr(doc', SiStripAttr);
      r := WriteNotes(original, stored, qfill, afill, d.delCount, d.newCount, d.removed);
    }

    /** The rest of `updateNotes` (ngen.py:765-825) on the renumbered
        `new_svg` and the dicts: exactly `SiUpdate.UpdatedSi`. */
    method WriteNotes(original: Node, stored: set<string>, qfill: string, afill: string,
                      delCount: nat, newCount: nat, removed: set<Option<Nid>>)
      returns (r: UpdateOutcome)
      requires Named(Ids(mnodeIds, rnodeIds, bnodeIds))
      ensures r == UpdatedSi(newSvg, Ids(mnodeIds, rnodeIds, bnodeIds), nids, original, stored,
                             NoteMasks(newSvg, Ids(mnodeIds, rnodeIds, bnodeIds), qfill, afill), delCount, newCount, removed)
    {
      var ids := Ids(mnodeIds, rnodeIds, bnodeIds);
      var reset := newSvg != original;
      var masks := Unmasked(NoteCount(ids));
      if reset {
        var ms := NoteMasks(newSvg, ids, qfill, afill);
        if ms.Err? {
          return UpdateFailed(ms.error);
        }
        masks := ms.value;
      }
      var names := QuestionNames(ids);
      var notes := UpdateWritesLoop(names, nids, stored, masks);
      if notes.Err? {
        return UpdateFailed(notes.error);
      }
      return Updated(newSvg, reset, notes.value, removed, delCount, newCount,
                     Dispatch.UpdatedCountAsWritten(|mnodeIds|, delCount, newCount));
    }

    /** The two loops that write the notes (ngen.py:785-824): each id's
        `nid` from `nids` (a KeyError when missing), then a new note with
        its masks when the collection does not hold it yet, or the note
        rewritten in place when there are no new masks. */
    static method UpdateWritesLoop(names: seq<string>, m: NidMap, stored: set<string>, masks: seq<Option<(Mask, Mask)>>)
      returns (r: Result<seq<SiNote>>)
      requires |masks| == |names|
      ensures r == UpdateWrites(names, m, stored, masks, |names|)
    {
      var notes: seq<SiNote> := [];
      var nr := 0;
      while nr < |names|
        invariant nr <= |names|
        invariant UpdateWrites(names, m, stored, masks, nr) == Ok(notes)
      {
        var noteId := names[nr];
        if noteId !in m {
          UpdateWritesErrSticks(names, m, stored, masks, nr + 1);
          return Err(MissingKey(noteId));
        }
        var nid := m[noteId];
        if masks[nr].None? {
          notes := notes + [SiNote(noteId, nid, None)];
        } else if noteId !in stored {
          notes := notes + [SiNote(noteId, None, masks[nr])];
        }
        nr := nr + 1;
      }
      return Ok(notes);
    }
  }
}
