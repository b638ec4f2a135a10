/** `_deleteAndIdNotes` (ngen.py:269-370 for AO/OA, 556-738 for SI/LI/SLI):
    reconcile the mask nodes of an edited document with the notes already in
    the collection. Notes whose id no longer occurs are deleted; shapes
    without a note are numbered from the gaps left by deleted notes, then
    past the largest number; and the whole change is gated on a yes/no
    confirmation whenever something is deleted or created.

    The functions here are the specifications the loops of the generator
    classes are proved against. The collection's answer to the note search
    (`nids`) and the user's answer to the confirmation are inputs. */
module Reconcile {
  import opened Wrappers
  import opened Text
  import opened NoteIds
  import opened Numbering

  /** An Anki note id. */
  type Nid = int

  /** `nids`: note id → Anki note id; shapes numbered during the edit are
      entered with `None` (ngen.py:336, 637). */
  type NidMap = map<string, Option<Nid>>

  // ---------------------------------------------------------------- filters shared by both versions

  /** `[x for x in xs if x.startswith(uniq_id)]`. */
  function Prefixed(xs: seq<string>, uniq: string): (r: seq<string>)
    ensures forall x :: x in r <==> x in xs && StartsWith(x, uniq)
  {
    if xs == [] then []
    else Prefixed(xs[..|xs| - 1], uniq) + (if StartsWith(xs[|xs| - 1], uniq) then [xs[|xs| - 1]] else [])
  }

  /** `valid_nid_note_ids`: the note ids of the collection with the prefix. */
  function ValidNoteIds(nids: NidMap, uniq: string): set<string> {
    set k | k in nids && StartsWith(k, uniq)
  }

  /** `[x for x in xs if x in xs']`. */
  function Within(xs: seq<string>, keep: set<string>): (r: seq<string>)
    ensures forall x :: x in r <==> x in xs && x in keep
  {
    if xs == [] then []
    else Within(xs[..|xs| - 1], keep) + (if xs[|xs| - 1] in keep then [xs[|xs| - 1]] else [])
  }

  /** Whether the confirmation dialog is shown (ngen.py:358, 726). */
  predicate Asks(delCount: nat, newCount: nat) {
    delCount > 0 || newCount > 0
  }

  /** What the gate at the end of `_deleteAndIdNotes` decides: `False`
      (declined, nothing is removed from the collection), or the pair
      `(del_count, new_count)` after `remNotes` has removed `removed`. */
  datatype Decision =
    | Declined
    | Applied(delCount: nat, newCount: nat, removed: set<Option<Nid>>)

  /** ngen.py:358-370 and 726-738. */
  function Gate(delCount: nat, newCount: nat, removed: set<Option<Nid>>, confirm: bool): Decision {
    if Asks(delCount, newCount) && !confirm then Declined
    else Applied(delCount, newCount, removed)
  }

  /** `[nids[x] for x in deleted_note_ids]`, as the collection `remNotes`
      receives it. */
  function NidsOf(nids: NidMap, ids: set<string>): set<Option<Nid>>
    requires ids <= nids.Keys
  {
    set x | x in ids :: nids[x]
  }

  /** The result of a successful reconciliation: the new id of every shape,
      in loop order, the edited `nids`, and the gate's decision. */
  datatype Reconciled = Reconciled(ids: seq<string>, nids: NidMap, decision: Decision)

  // ---------------------------------------------------------------- AO / OA (ngen.py:269-370)

  /** `exstg_mnode_note_ids`: the shapes' ids that have the prefix and a note. */
  function Existing(ms: seq<string>, uniq: string, nids: NidMap): seq<string> {
    Within(Prefixed(ms, uniq), ValidNoteIds(nids, uniq))
  }

  lemma ExistingIff(ms: seq<string>, uniq: string, nids: NidMap, x: string)
    ensures x in Existing(ms, uniq, nids) <==> x in ms && StartsWith(x, uniq) && x in nids
  {
  }

  /** `int(i.split('-')[-1])` for every existing id (ngen.py:287-288). */
  function BaseNumbers(xs: seq<string>): (r: Result<seq<nat>>)
    ensures r.Ok? ==> |r.value| == |xs| && forall i :: 0 <= i < |xs| ==> BaseNoteNr(xs[i]) == Some(r.value[i])
    ensures r.Err? <==> exists i :: 0 <= i < |xs| && BaseNoteNr(xs[i]).None?
  {
    if xs == [] then Ok([])
    else
      match BaseNumbers(xs[..|xs| - 1])
      case Err(e) => Err(e)
      case Ok(ns) =>
        match BaseNoteNr(xs[|xs| - 1])
        case None => Err(NotANumber(BaseNrText(xs[|xs| - 1])))
        case Some(n) =>
          assert forall i :: 0 <= i < |xs| - 1 ==> xs[..|xs| - 1][i] == xs[i];
          Ok(ns + [n])
  }

  /** Which shapes get a new number (`mnode_id not in exstg_mnode_note_ids`). */
  function NewFlags(ms: seq<string>, ex: seq<string>): (r: seq<bool>)
    ensures |r| == |ms| && forall k :: 0 <= k < |ms| ==> (r[k] <==> ms[k] !in ex)
  {
    seq(|ms|, k requires 0 <= k < |ms| => ms[k] !in ex)
  }

  /** The number handed to shape `k`, if it is new. */
  function NewNr(nrs: seq<nat>, isNew: seq<bool>, k: nat): nat
    requires k <= |isNew|
  {
    NthFree(Start(nrs), NewBefore(isNew, k))
  }

  /** The new id of every shape: a new shape gets `{occl_id}-{nr}` with its
      gap-filling number; an existing one keeps its number text
      (`split('-')[-1]`, not reparsed) under the current occl_id. */
  function BaseNewIds(ms: seq<string>, occlId: string, nrs: seq<nat>, isNew: seq<bool>): (r: seq<string>)
    requires |isNew| == |ms|
    ensures |r| == |ms|
  {
    seq(|ms|, k requires 0 <= k < |ms| =>
      if isNew[k] then BaseNoteId(occlId, NatToString(NewNr(nrs, isNew, k)))
      else BaseNoteId(occlId, BaseNrText(ms[k])))
  }

  /** One shape's effect on `nids`: a new shape's id is entered with
      `None`; an existing shape's entry moves to its new id
      (`nids[new] = nids.pop(old)`), a KeyError if it is gone. */
  function MoveOne(m: NidMap, oldId: string, newId: string, isNew: bool): (r: Result<NidMap>)
    ensures r.Ok? ==> newId in r.value
  {
    if isNew then Ok(m[newId := None])
    else if oldId in m then Ok((m - {oldId})[newId := m[oldId]])
    else Err(MissingKey(oldId))
  }

  /** `nids` after the loop has handled the first `k` shapes. */
  function MoveNids(nids: NidMap, ms: seq<string>, newIds: seq<string>, isNew: seq<bool>, k: nat): Result<NidMap>
    requires |ms| == |newIds| == |isNew| && k <= |ms|
  {
    if k == 0 then Ok(nids)
    else
      match MoveNids(nids, ms, newIds, isNew, k - 1)
      case Err(e) => Err(e)
      case Ok(m) => MoveOne(m, ms[k - 1], newIds[k - 1], isNew[k - 1])
  }

  /** `deleted_note_ids`: notes with the prefix whose id no shape carries. */
  function BaseDeleted(ms: seq<string>, uniq: string, nids: NidMap): set<string> {
    ValidNoteIds(nids, uniq) - set x | x in Prefixed(ms, uniq)
  }

  /** The gate of the basic `_deleteAndIdNotes` once `new_count` is known:
      the notes of `BaseDeleted` are counted and their nids collected. */
  function BaseGate(ms: seq<string>, uniq: string, nids: NidMap, newCount: nat, confirm: bool): Decision {
    var deleted := BaseDeleted(ms, uniq, nids);
    Gate(|deleted|, newCount, NidsOf(nids, deleted), confirm)
  }

  /** The whole of the basic `_deleteAndIdNotes`, on the shapes' ids `ms` in
      `mnode_indexes` order. */
  function BaseDeleteAndIdNotes(ms: seq<string>, uniq: string, occlId: string, nids: NidMap, confirm: bool): (r: Result<Reconciled>)
    ensures r.Ok? ==> |r.value.ids| == |ms|
    ensures r.Ok? && r.value.decision.Applied? ==> r.value.decision.newCount <= |ms|
  {
    var ex := Existing(ms, uniq, nids);
    match BaseNumbers(ex)
    case Err(e) => Err(e)
    case Ok(nrs) =>
      var deleted := BaseDeleted(ms, uniq, nids);
      var isNew := NewFlags(ms, ex);
      var ids := BaseNewIds(ms, occlId, nrs, isNew);
      match MoveNids(nids, ms, ids, isNew, |ms|)
      case Err(e) => Err(e)
      case Ok(m) => Ok(Reconciled(ids, m, BaseGate(ms, uniq, nids, CountNew(isNew), confirm)))
  }

  /** A note is deleted exactly when it has the prefix and no shape carries
      its id any more. */
  lemma BaseDeletedIff(ms: seq<string>, uniq: string, nids: NidMap, x: string)
    ensures x in BaseDeleted(ms, uniq, nids) <==> x in nids && StartsWith(x, uniq) && x !in ms
  {
  }

  /** The gate of the basic `_deleteAndIdNotes` (ngen.py:358-370), against
      the shapes: declined exactly when a note is deleted or a shape is new
      and the user says no, in which case nothing is removed; going ahead,
      it reports the deleted notes and removes the `nid` of every note with
      the prefix that no shape carries any more; and a confirmed dialog
      always goes ahead. */
  lemma BaseGateDecides(ms: seq<string>, uniq: string, occlId: string, nids: NidMap, confirm: bool)
    requires BaseDeleteAndIdNotes(ms, uniq, occlId, nids, confirm).Ok?
    ensures var d := BaseDeleteAndIdNotes(ms, uniq, occlId, nids, confirm).value.decision;
      var deleted := BaseDeleted(ms, uniq, nids);
      var newCount := CountNew(NewFlags(ms, Existing(ms, uniq, nids)));
      && (d.Declined? <==> (|deleted| > 0 || newCount > 0) && !confirm)
      && (d.Applied? ==>
            && d.delCount == |deleted| && d.newCount == newCount
            && d.removed == set x | x in nids && StartsWith(x, uniq) && x !in ms :: nids[x])
  {
    var d := BaseDeleteAndIdNotes(ms, uniq, occlId, nids, confirm).value.decision;
    if d.Applied? {
      forall x ensures x in BaseDeleted(ms, uniq, nids) <==> x in nids && StartsWith(x, uniq) && x !in ms {
        BaseDeletedIff(ms, uniq, nids, x);
      }
    }
  }

  /** Numbering a new shape: its id is `{occl_id}-{nr}`, the number reads
      back, is positive, is kept by no existing shape and is given to no
      other new shape; an existing shape keeps its number. */
  lemma BaseNewIdsNumbering(ms: seq<string>, occlId: string, nrs: seq<nat>, isNew: seq<bool>, k: nat, k2: nat)
    requires |isNew| == |ms| && k < |ms| && k2 < |ms|
    ensures isNew[k] ==>
      var n := NewNr(nrs, isNew, k);
      && BaseNoteNr(BaseNewIds(ms, occlId, nrs, isNew)[k]) == Some(n)
      && 1 <= n && n !in nrs
    ensures isNew[k] && isNew[k2] && k != k2 ==>
      BaseNewIds(ms, occlId, nrs, isNew)[k] != BaseNewIds(ms, occlId, nrs, isNew)[k2]
    ensures !isNew[k] ==> BaseNrText(BaseNewIds(ms, occlId, nrs, isNew)[k]) == BaseNrText(ms[k])
  {
    var ids := BaseNewIds(ms, occlId, nrs, isNew);
    NatToStringNoDash(NewNr(nrs, isNew, k));
    BaseNoteNrRoundTrip(occlId, NewNr(nrs, isNew, k));
    NthFreeIsFree(nrs, NewBefore(isNew, k));
    if isNew[k] && isNew[k2] && k != k2 {
      StartWellFormed(nrs);
      if k < k2 { NewBeforeGrows(isNew, k, k2); } else { NewBeforeGrows(isNew, k2, k); }
      NthFreeInjective(Start(nrs), NewBefore(isNew, k), NewBefore(isNew, k2));
      BaseNoteNrRoundTrip(occlId, NewNr(nrs, isNew, k2));
    }
    if !isNew[k] {
      LastSplitHasNoDash(ms[k]);
      BaseNrTextOfId(occlId, BaseNrText(ms[k]));
    }
  }

  lemma LastSplitHasNoDash(s: string)
    ensures '-' !in BaseNrText(s)
  {
    SplitPartsHaveNoSeparator(s, '-');
  }

  /** Every part `split` returns is free of the separator. */
  lemma {:induction false} SplitPartsHaveNoSeparator(s: string, c: char)
    ensures forall i :: 0 <= i < |Split(s, c)| ==> c !in Split(s, c)[i]
  {
    if |s| > 0 {
      SplitPartsHaveNoSeparator(s[..|s| - 1], c);
    }
  }

  /** An id that reads `{occl_id}-{n}` for a number `n` outside `nrs` is not
      the new id of a shape that keeps a number from `nrs`. */
  lemma NewIdIsNotAnOldId(ms: seq<string>, occlId: string, nrs: seq<nat>, isNew: seq<bool>, k: nat, j: nat)
    requires |isNew| == |ms| && k < |ms| && j < |ms|
    requires isNew[k] && !isNew[j]
    requires BaseNoteNr(ms[j]).Some? && BaseNoteNr(ms[j]).value in nrs
    ensures BaseNewIds(ms, occlId, nrs, isNew)[k] != BaseNewIds(ms, occlId, nrs, isNew)[j]
    ensures BaseNewIds(ms, occlId, nrs, isNew)[k] != ms[j]
  {
    BaseNewIdsNumbering(ms, occlId, nrs, isNew, k, k);
    BaseNewIdsNumbering(ms, occlId, nrs, isNew, j, j);
  }

  ghost predicate Distinct(xs: seq<string>) {
    forall i, j :: 0 <= i < j < |xs| ==> xs[i] != xs[j]
  }

  /** The notes found in the collection for this image, as `nids` holds them
      after `_findAllNotes` (ngen.py:257-264): every entry has a note. */
  ghost predicate AllFound(nids: NidMap) {
    forall x :: x in nids ==> nids[x].Some?
  }

  /** Every shape that keeps its note keeps a number of the pool's
      existing numbers. */
  lemma ExistingHaveNumbers(ms: seq<string>, uniq: string, nids: NidMap, nrs: seq<nat>, j: nat)
    requires BaseNumbers(Existing(ms, uniq, nids)) == Ok(nrs)
    requires j < |ms| && ms[j] in Existing(ms, uniq, nids)
    ensures BaseNoteNr(ms[j]).Some? && BaseNoteNr(ms[j]).value in nrs
  {
    var ex := Existing(ms, uniq, nids);
    var e :| 0 <= e < |ex| && ex[e] == ms[j];
    assert BaseNoteNr(ms[j]) == Some(nrs[e]);
  }

  /** What the loop keeps true of `nids` while it moves entries: every id
      handed out before shape `j` has an entry, and a new shape's entry has
      no note. */
  ghost predicate IdsEntered(m: NidMap, ids: seq<string>, isNew: seq<bool>, j: nat)
    requires |ids| == |isNew| && j <= |ids|
  {
    forall i :: 0 <= i < j ==> ids[i] in m && (isNew[i] ==> m[ids[i]] == None)
  }

  /** Popping an existing shape's old id never removes an id handed out
      earlier, unless that earlier id is the one put back. */
  lemma PopSparesEarlierIds(ms: seq<string>, occlId: string, nrs: seq<nat>, isNew: seq<bool>, i: nat, j: nat)
    requires |isNew| == |ms| && i < j < |ms| && !isNew[j]
    requires BaseNoteNr(ms[j]).Some? && BaseNoteNr(ms[j]).value in nrs
    ensures var ids := BaseNewIds(ms, occlId, nrs, isNew);
      (ids[i] == ms[j] ==> ids[i] == ids[j]) && (isNew[i] ==> ids[i] != ms[j] && ids[i] != ids[j])
  {
    var ids := BaseNewIds(ms, occlId, nrs, isNew);
    if isNew[i] {
      NewIdIsNotAnOldId(ms, occlId, nrs, isNew, i, j);
    } else if ids[i] == ms[j] {
      LastSplitHasNoDash(ms[i]);
      BaseNrTextOfId(occlId, BaseNrText(ms[i]));
      assert BaseNrText(ms[j]) == BaseNrText(ms[i]);
    }
  }

  /** What makes one pop harmless for the ids handed out before shape `j`. */
  ghost predicate PopSafe(ms: seq<string>, ids: seq<string>, isNew: seq<bool>, j: nat)
    requires |isNew| == |ms| == |ids| && j < |ms|
  {
    !isNew[j] ==> forall i :: 0 <= i < j ==>
      (ids[i] == ms[j] ==> ids[i] == ids[j]) && (isNew[i] ==> ids[i] != ms[j] && ids[i] != ids[j])
  }

  lemma MoveOneKeepsIds(m: NidMap, ms: seq<string>, ids: seq<string>, isNew: seq<bool>, j: nat)
    requires |isNew| == |ms| == |ids| && j < |ms|
    requires PopSafe(ms, ids, isNew, j)
    requires IdsEntered(m, ids, isNew, j)
    ensures MoveOne(m, ms[j], ids[j], isNew[j]).Ok? ==> IdsEntered(MoveOne(m, ms[j], ids[j], isNew[j]).value, ids, isNew, j + 1)
  {
  }

  lemma {:induction false} MoveNidsKeepsIdsGen(nids: NidMap, ms: seq<string>, ids: seq<string>, isNew: seq<bool>, k: nat)
    requires |isNew| == |ms| == |ids| && k <= |ms|
    requires forall j :: 0 <= j < |ms| ==> PopSafe(ms, ids, isNew, j)
    ensures MoveNids(nids, ms, ids, isNew, k).Ok? ==> IdsEntered(MoveNids(nids, ms, ids, isNew, k).value, ids, isNew, k)
  {
    if k > 0 && MoveNids(nids, ms, ids, isNew, k - 1).Ok? {
      MoveNidsKeepsIdsGen(nids, ms, ids, isNew, k - 1);
      MoveOneKeepsIds(MoveNids(nids, ms, ids, isNew, k - 1).value, ms, ids, isNew, k - 1);
    }
  }

  lemma AllPopsSafe(ms: seq<string>, uniq: string, occlId: string, nids: NidMap, nrs: seq<nat>)
    requires BaseNumbers(Existing(ms, uniq, nids)) == Ok(nrs)
    ensures var isNew := NewFlags(ms, Existing(ms, uniq, nids));
      forall j :: 0 <= j < |ms| ==> PopSafe(ms, BaseNewIds(ms, occlId, nrs, isNew), isNew, j)
  {
    var isNew := NewFlags(ms, Existing(ms, uniq, nids));
    var ids := BaseNewIds(ms, occlId, nrs, isNew);
    forall j | 0 <= j < |ms| ensures PopSafe(ms, ids, isNew, j) {
      if !isNew[j] {
        ExistingHaveNumbers(ms, uniq, nids, nrs, j);
        forall i | 0 <= i < j
          ensures (ids[i] == ms[j] ==> ids[i] == ids[j]) && (isNew[i] ==> ids[i] != ms[j] && ids[i] != ids[j])
        {
          PopSparesEarlierIds(ms, occlId, nrs, isNew, i, j);
        }
      }
    }
  }

  /** After a successful reconciliation every shape's new id has an entry in
      `nids`, so the lookups `self.nids[note_id]` that `updateNotes` makes
      next (ngen.py:152) cannot fail; the shapes numbered now have no note. */
  lemma BaseFinalIdsHaveNids(ms: seq<string>, uniq: string, occlId: string, nids: NidMap, confirm: bool)
    ensures BaseDeleteAndIdNotes(ms, uniq, occlId, nids, confirm).Ok? ==>
      var r := BaseDeleteAndIdNotes(ms, uniq, occlId, nids, confirm).value;
      && |r.ids| == |ms|
      && forall k :: 0 <= k < |ms| ==>
           r.ids[k] in r.nids && (!(ms[k] in nids && StartsWith(ms[k], uniq)) ==> r.nids[r.ids[k]] == None)
  {
    var ex := Existing(ms, uniq, nids);
    if BaseDeleteAndIdNotes(ms, uniq, occlId, nids, confirm).Ok? {
      var nrs := BaseNumbers(ex).value;
      var isNew := NewFlags(ms, ex);
      var ids := BaseNewIds(ms, occlId, nrs, isNew);
      AllPopsSafe(ms, uniq, occlId, nids, nrs);
      MoveNidsKeepsIdsGen(nids, ms, ids, isNew, |ms|);
      assert IdsEntered(MoveNids(nids, ms, ids, isNew, |ms|).value, ids, isNew, |ms|);
      forall k | 0 <= k < |ms| ensures ms[k] in ex <==> ms[k] in nids && StartsWith(ms[k], uniq) {
        ExistingIff(ms, uniq, nids, ms[k]);
      }
    }
  }

  /** The old ids of the existing shapes from `k` on are still in `m`. */
  ghost predicate OldIdsPresent(m: NidMap, ms: seq<string>, isNew: seq<bool>, k: nat)
    requires |isNew| == |ms|
  {
    forall j :: k <= j < |ms| && !isNew[j] ==> ms[j] in m
  }

  lemma MoveOneSucceeds(m: NidMap, ms: seq<string>, ids: seq<string>, isNew: seq<bool>, k: nat)
    requires |isNew| == |ms| == |ids| && k < |ms| && Distinct(ms)
    requires OldIdsPresent(m, ms, isNew, k)
    ensures MoveOne(m, ms[k], ids[k], isNew[k]).Ok?
    ensures OldIdsPresent(MoveOne(m, ms[k], ids[k], isNew[k]).value, ms, isNew, k + 1)
  {
    var m' := MoveOne(m, ms[k], ids[k], isNew[k]).value;
    forall j | k + 1 <= j < |ms| && !isNew[j] ensures ms[j] in m' {
      assert ms[j] != ms[k];
    }
  }

  lemma {:induction false} MoveNidsSucceedsGen(nids: NidMap, ms: seq<string>, ids: seq<string>, isNew: seq<bool>, k: nat)
    requires |isNew| == |ms| == |ids| && k <= |ms| && Distinct(ms)
    requires OldIdsPresent(nids, ms, isNew, 0)
    ensures MoveNids(nids, ms, ids, isNew, k).Ok?
    ensures OldIdsPresent(MoveNids(nids, ms, ids, isNew, k).value, ms, isNew, k)
  {
    if k > 0 {
      MoveNidsSucceedsGen(nids, ms, ids, isNew, k - 1);
      MoveOneSucceeds(MoveNids(nids, ms, ids, isNew, k - 1).value, ms, ids, isNew, k - 1);
    }
  }

  /** With distinct shape ids no pop fails: the KeyError at ngen.py:342
      needs a duplicated id. */
  lemma BaseDistinctIdsSucceed(ms: seq<string>, uniq: string, occlId: string, nids: NidMap, confirm: bool)
    requires Distinct(ms)
    requires BaseNumbers(Existing(ms, uniq, nids)).Ok?
    ensures BaseDeleteAndIdNotes(ms, uniq, occlId, nids, confirm).Ok?
  {
    var ex := Existing(ms, uniq, nids);
    var nrs := BaseNumbers(ex).value;
    var isNew := NewFlags(ms, ex);
    var ids := BaseNewIds(ms, occlId, nrs, isNew);
    forall j | 0 <= j < |ms| && !isNew[j] ensures ms[j] in nids {
      ExistingIff(ms, uniq, nids, ms[j]);
    }
    MoveNidsSucceedsGen(nids, ms, ids, isNew, |ms|);
  }

  /** Reconciling a document in which every shape still has its note and no
      note has lost its shape creates and deletes nothing and asks nothing. */
  lemma BaseUnchangedAsksNothing(ms: seq<string>, uniq: string, occlId: string, nids: NidMap, confirm: bool)
    requires forall k :: 0 <= k < |ms| ==> ms[k] in nids && StartsWith(ms[k], uniq)
    requires forall x :: x in nids && StartsWith(x, uniq) ==> x in ms
    ensures BaseDeleteAndIdNotes(ms, uniq, occlId, nids, confirm).Ok? ==>
      BaseDeleteAndIdNotes(ms, uniq, occlId, nids, confirm).value.decision == Applied(0, 0, {})
  {
    var ex := Existing(ms, uniq, nids);
    var isNew := NewFlags(ms, ex);
    forall k | 0 <= k < |ms| ensures !isNew[k] {
      ExistingIff(ms, uniq, nids, ms[k]);
    }
    NothingNewAssignsNothing(Start([]), isNew);
    assert BaseDeleted(ms, uniq, nids) == {};
    assert NidsOf(nids, {}) == {};
    assert BaseGate(ms, uniq, nids, CountNew(isNew), confirm) == Applied(0, 0, {});
  }

  // ---------------------------------------------------------------- SI / LI / SLI (ngen.py:556-738)

  /** The three layers whose shapes are numbered from one shared pool. */
  datatype Kind = Regular | Reverse | Blank

  /** A shape as `mnode_ids`, `rnode_ids` and `bnode_ids` record it: its layer
      and the id read from the document, `None` when it has none. */
  datatype Shape = Shape(kind: Kind, id: Option<string>)

  /** `exstg_tnode_note_ids` (ngen.py:566-578): regular and blank ids are
      filtered by the prefix, where a missing id is `None.startswith`
      (an AttributeError); reverse ids are taken as they are, and a missing
      reverse id never matches a note. */
  function SiExisting(shapes: seq<Shape>, uniq: string, nids: NidMap): (r: Result<seq<string>>)
    ensures r.Ok? ==> forall x :: x in r.value <==>
      x in nids && StartsWith(x, uniq) && exists k :: 0 <= k < |shapes| && shapes[k].id == Some(x)
  {
    if shapes == [] then Ok([])
    else
      var init := shapes[..|shapes| - 1];
      var s := shapes[|shapes| - 1];
      match SiExisting(init, uniq, nids)
      case Err(e) => Err(e)
      case Ok(ex) =>
        assert forall k :: 0 <= k < |init| ==> init[k] == shapes[k];
        if s.id.None? then (if s.kind == Reverse then Ok(ex) else Err(NoId))
        else if s.id.value in nids && StartsWith(s.id.value, uniq) then Ok(ex + [s.id.value])
        else Ok(ex)
  }

  /** The SI version fails before numbering exactly when a regular or blank
      shape has no id. */
  lemma {:induction false} SiExistingFailsIffNoId(shapes: seq<Shape>, uniq: string, nids: NidMap)
    ensures SiExisting(shapes, uniq, nids).Err? <==>
      exists k :: 0 <= k < |shapes| && shapes[k].kind != Reverse && shapes[k].id.None?
  {
    if shapes != [] {
      var init := shapes[..|shapes| - 1];
      SiExistingFailsIffNoId(init, uniq, nids);
      if exists k :: 0 <= k < |init| && init[k].kind != Reverse && init[k].id.None? {
        var k :| 0 <= k < |init| && init[k].kind != Reverse && init[k].id.None?;
        assert shapes[k] == init[k];
      }
      if exists k :: 0 <= k < |shapes| && shapes[k].kind != Reverse && shapes[k].id.None? {
        var k :| 0 <= k < |shapes| && shapes[k].kind != Reverse && shapes[k].id.None?;
        if k < |init| { assert init[k] == shapes[k]; }
      }
    }
  }

  /** `int(i.split('-')[-2].split('_')[-1])` for every existing id (ngen.py:579). */
  function SiNumbers(xs: seq<string>): (r: Result<seq<nat>>)
    ensures r.Ok? ==> |r.value| == |xs| && forall i :: 0 <= i < |xs| ==> SiCardNr(xs[i]) == Some(r.value[i])
  {
    if xs == [] then Ok([])
    else
      match SiNumbers(xs[..|xs| - 1])
      case Err(e) => Err(e)
      case Ok(ns) =>
        match SiCardNr(xs[|xs| - 1])
        case None => Err(NotANumber(xs[|xs| - 1]))
        case Some(n) =>
          assert forall i :: 0 <= i < |xs| - 1 ==> xs[..|xs| - 1][i] == xs[i];
          Ok(ns + [n])
  }

  /** Which shapes get a new number (`rnode_id not in exstg_tnode_note_ids`). */
  function SiNewFlags(shapes: seq<Shape>, ex: seq<string>): (r: seq<bool>)
    ensures |r| == |shapes| && forall k :: 0 <= k < |shapes| ==> (r[k] <==> shapes[k].id.None? || shapes[k].id.value !in ex)
  {
    seq(|shapes| , k requires 0 <= k < |shapes| => shapes[k].id.None? || shapes[k].id.value !in ex)
  }

  /** The id given to a shape numbered while editing (ngen.py:636, 670, 704):
      only the regular layer pads the card number to three digits. */
  function SiEditId(occlId: string, kind: Kind, nr: nat): string {
    match kind
    case Regular => SiNoteId(occlId, ZFill(NatToString(nr), 3), RegularEditRole)
    case Reverse => SiNoteId(occlId, NatToString(nr), ReverseEditRole)
    case Blank => SiNoteId(occlId, NatToString(nr), BlankEditRole)
  }

  /** Every edit-time id reads its card number back, padded or not. */
  lemma SiEditIdRoundTrip(occlId: string, kind: Kind, nr: nat)
    ensures SiCardNr(SiEditId(occlId, kind, nr)) == Some(nr)
  {
    RolesHaveNoDash(0, 0, 0);
    var w := if kind == Regular then 3 else 0;
    assert ZFill(NatToString(nr), 0) == NatToString(nr);
    match kind
    case Regular => SiCardNrRoundTrip(occlId, nr, 3, RegularEditRole);
    case Reverse => SiCardNrRoundTrip(occlId, nr, 0, ReverseEditRole);
    case Blank => SiCardNrRoundTrip(occlId, nr, 0, BlankEditRole);
  }

  /** The new id of every shape: existing ids are left exactly as they are. */
  function SiNewIds(shapes: seq<Shape>, occlId: string, nrs: seq<nat>, isNew: seq<bool>): (r: seq<string>)
    requires |isNew| == |shapes|
    requires forall k :: 0 <= k < |shapes| && !isNew[k] ==> shapes[k].id.Some?
    ensures |r| == |shapes|
  {
    seq(|shapes|, k requires 0 <= k < |shapes| =>
      if isNew[k] then SiEditId(occlId, shapes[k].kind, NewNr(nrs, isNew, k)) else shapes[k].id.value)
  }

  /** `nids[new_id] = None` for every shape numbered among the first `k`. */
  function EnterNew(nids: NidMap, ids: seq<string>, isNew: seq<bool>, k: nat): NidMap
    requires |ids| == |isNew| && k <= |ids|
  {
    if k == 0 then nids
    else
      var m := EnterNew(nids, ids, isNew, k - 1);
      if isNew[k - 1] then m[ids[k - 1] := None] else m
  }

  /** `deleted_tnote_ids`: notes with the prefix whose id no shape carries. */
  function SiDeleted(shapes: seq<Shape>, uniq: string, nids: NidMap): set<string> {
    ValidNoteIds(nids, uniq) - set k | 0 <= k < |shapes| && shapes[k].id.Some? :: shapes[k].id.value
  }

  /** The whole of the SI `_deleteAndIdNotes`, on the regular, reverse and
      blank shapes in loop order. */
  function SiDeleteAndIdNotes(shapes: seq<Shape>, uniq: string, occlId: string, nids: NidMap, confirm: bool): (r: Result<Reconciled>)
    ensures r.Ok? ==> |r.value.ids| == |shapes|
  {
    match SiExisting(shapes, uniq, nids)
    case Err(e) => Err(e)
    case Ok(ex) =>
      match SiNumbers(ex)
      case Err(e) => Err(e)
      case Ok(nrs) =>
        var deleted := SiDeleted(shapes, uniq, nids);
        var isNew := SiNewFlags(shapes, ex);
        var ids := SiNewIds(shapes, occlId, nrs, isNew);
        Ok(Reconciled(ids, EnterNew(nids, ids, isNew, |shapes|),
                      Gate(|deleted|, CountNew(isNew), NidsOf(nids, deleted), confirm)))
  }

  /** A note is deleted exactly when it has the prefix and no shape of any
      layer carries its id any more. */
  lemma SiDeletedIff(shapes: seq<Shape>, uniq: string, nids: NidMap, x: string)
    ensures x in SiDeleted(shapes, uniq, nids) <==>
      x in nids && StartsWith(x, uniq) && forall k :: 0 <= k < |shapes| ==> shapes[k].id != Some(x)
  {
    if x in nids && StartsWith(x, uniq) && x !in SiDeleted(shapes, uniq, nids) {
      var k :| 0 <= k < |shapes| && shapes[k].id.Some? && shapes[k].id.value == x;
    }
  }

  /** Numbering in the SI version: one pool for all three layers, so a new
      shape's card number is fresh and distinct from every other new
      shape's, whatever their layers, and reads back out of its id; an
      existing shape keeps its id unchanged. */
  lemma SiNewIdsNumbering(shapes: seq<Shape>, occlId: string, nrs: seq<nat>, isNew: seq<bool>, k: nat, k2: nat)
    requires |isNew| == |shapes| && k < |shapes| && k2 < |shapes|
    requires forall k :: 0 <= k < |shapes| && !isNew[k] ==> shapes[k].id.Some?
    ensures isNew[k] ==>
      var n := NewNr(nrs, isNew, k);
      SiCardNr(SiNewIds(shapes, occlId, nrs, isNew)[k]) == Some(n) && 1 <= n && n !in nrs
    ensures isNew[k] && isNew[k2] && k != k2 ==>
      SiCardNr(SiNewIds(shapes, occlId, nrs, isNew)[k]) != SiCardNr(SiNewIds(shapes, occlId, nrs, isNew)[k2])
    ensures !isNew[k] ==> SiNewIds(shapes, occlId, nrs, isNew)[k] == shapes[k].id.value
  {
    SiEditIdRoundTrip(occlId, shapes[k].kind, NewNr(nrs, isNew, k));
    SiEditIdRoundTrip(occlId, shapes[k2].kind, NewNr(nrs, isNew, k2));
    NthFreeIsFree(nrs, NewBefore(isNew, k));
    if isNew[k] && isNew[k2] && k != k2 {
      StartWellFormed(nrs);
      if k < k2 { NewBeforeGrows(isNew, k, k2); } else { NewBeforeGrows(isNew, k2, k); }
      NthFreeInjective(Start(nrs), NewBefore(isNew, k), NewBefore(isNew, k2));
    }
  }

  lemma {:induction false} EnterNewKeeps(nids: NidMap, ids: seq<string>, isNew: seq<bool>, k: nat)
    requires |ids| == |isNew| && k <= |ids|
    ensures nids.Keys <= EnterNew(nids, ids, isNew, k).Keys
    ensures forall i :: 0 <= i < k ==> ids[i] in EnterNew(nids, ids, isNew, k) || !isNew[i]
    ensures forall i :: 0 <= i < k && isNew[i] ==> ids[i] in EnterNew(nids, ids, isNew, k) && EnterNew(nids, ids, isNew, k)[ids[i]] == None
    ensures forall x :: x in nids && (forall i :: 0 <= i < k && isNew[i] ==> ids[i] != x) ==>
      EnterNew(nids, ids, isNew, k)[x] == nids[x]
  {
    if k > 0 { EnterNewKeeps(nids, ids, isNew, k - 1); }
  }

  lemma SiExistingInNids(shapes: seq<Shape>, uniq: string, nids: NidMap, ex: seq<string>, x: string)
    requires SiExisting(shapes, uniq, nids) == Ok(ex) && x in ex
    ensures x in nids
  {
  }

  /** After the SI reconciliation every shape's id has an entry in `nids`,
      and the shapes numbered now have no note yet. */
  lemma SiFinalIdsHaveNids(shapes: seq<Shape>, uniq: string, occlId: string, nids: NidMap, confirm: bool)
    ensures SiDeleteAndIdNotes(shapes, uniq, occlId, nids, confirm).Ok? ==>
      var r := SiDeleteAndIdNotes(shapes, uniq, occlId, nids, confirm).value;
      && |r.ids| == |shapes|
      && forall k :: 0 <= k < |shapes| ==> r.ids[k] in r.nids
  {
    var sx := SiExisting(shapes, uniq, nids);
    if SiDeleteAndIdNotes(shapes, uniq, occlId, nids, confirm).Ok? {
      var ex := sx.value;
      var nrs := SiNumbers(ex).value;
      var isNew := SiNewFlags(shapes, ex);
      var ids := SiNewIds(shapes, occlId, nrs, isNew);
      var m := EnterNew(nids, ids, isNew, |shapes|);
      EnterNewKeeps(nids, ids, isNew, |shapes|);
      forall k | 0 <= k < |shapes| ensures ids[k] in m {
        if !isNew[k] {
          SiExistingInNids(shapes, uniq, nids, ex, shapes[k].id.value);
        }
      }
    }
  }
}
