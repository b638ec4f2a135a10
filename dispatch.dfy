/** Choosing a note generator (`genByKey`, ngen.py:48-63) and the counts
    reported to the user after an edit (`_cardS` and `_showUpdateTooltip`,
    ngen.py:169-183 and 546-554). */
module Dispatch {
  import opened Wrappers
  import opened Text

  /** The generator classes: `IoGenAO`, `IoGenOA`, `IoGenSI`, `IoGenLI`,
      `IoGenSLI`. */
  datatype Generator = AoGen | OaGen | SiGen | LiGen | SliGen

  /** Each class's `occl_tp` (ngen.py:485, 505, 532, 1225, 1753), the second
      part of every note id it writes. */
  function ShortName(g: Generator): string {
    match g
    case AoGen => "ao"
    case OaGen => "oa"
    case SiGen => "si"
    case LiGen => "li"
    case SliGen => "sli"
  }

  /** `genByKey(key, note_tp, old_occl_tp)`: the class is chosen by
      `note_tp` alone. The "Don't Change" branch calls `genByKey` again
      without its `note_tp` argument, which raises a TypeError in Python. */
  function GenByKey(noteTp: string): (r: Result<Generator>)
    ensures r.Err? ==> r.error == BrokenDispatch
  {
    if noteTp == "Don't Change" then Err(BrokenDispatch)
    else if noteTp == "ao" || noteTp == "Hide All, Guess One" then Ok(AoGen)
    else if noteTp == "oa" || noteTp == "Hide One, Guess One" then Ok(OaGen)
    else if noteTp == "si" then Ok(SiGen)
    else if noteTp == "li" then Ok(LiGen)
    else if noteTp == "sli" then Ok(SliGen)
    else Ok(AoGen)
  }

  /** Every class is found again by its own `occl_tp`, so notes of a stored
      type reopen with the generator that wrote them. */
  lemma GenByKeyShortName(g: Generator)
    ensures GenByKey(ShortName(g)) == Ok(g)
  {
  }

  /** Both long labels of the editor's type menu name the same class as
      their short codes. */
  lemma GenByKeyLabels()
    ensures GenByKey("Hide All, Guess One") == GenByKey(ShortName(AoGen))
    ensures GenByKey("Hide One, Guess One") == GenByKey(ShortName(OaGen))
  {
  }

  /** Dispatch fails only on "Don't Change"; any key the dispatch does not
      know falls back to the AO generator. */
  lemma GenByKeyTotal(noteTp: string)
    ensures GenByKey(noteTp).Err? <==> noteTp == "Don't Change"
    ensures noteTp !in {"Don't Change", "ao", "Hide All, Guess One", "oa", "Hide One, Guess One", "si", "li", "sli"}
      ==> GenByKey(noteTp) == Ok(AoGen)
  {
  }

  // ---------------------------------------------------------------- counts

  /** `_cardS(cnt)`: the count and "card" or "cards". */
  function CardS(cnt: int): (r: (int, string))
    ensures r.0 == cnt
    ensures r.1 == "card" || r.1 == "cards"
  {
    (cnt, if cnt > 1 || cnt == 0 then "cards" else "card")
  }

  /** For the counts the tooltip shows, never negative, the singular is
      used for exactly one card. */
  lemma CardSSingular(cnt: nat)
    ensures CardS(cnt).1 == "card" <==> cnt == 1
  {
  }

  /** One line of the tooltip: `"%s {adj} %s {verb}" % _cardS(cnt)`. */
  function CountLine(cnt: nat, adj: string, verb: string): string {
    NatToString(cnt) + " " + adj + " " + CardS(cnt).1 + " " + verb
  }

  /** The tooltip after `generateNotes` (ngen.py:111):
      `"%s %s <b>added</b>" % _cardS(cnt)`. */
  function AddedLine(cnt: nat): string {
    NatToString(cnt) + " " + CardS(cnt).1 + " <b>added</b>"
  }

  /** The count reads back from the head of that tooltip, in the singular
      exactly for one card. */
  lemma AddedLineReadsBack(cnt: nat)
    ensures ParseNat(Split(AddedLine(cnt), ' ')[0]) == Some(cnt)
    ensures (CardS(cnt).1 == "card") <==> cnt == 1
  {
    var n := NatToString(cnt);
    var rest := CardS(cnt).1 + " <b>added</b>";
    assert AddedLine(cnt) == n + [' '] + rest;
    assert ' ' !in n;
    SplitFirst(n, ' ', rest);
    ParseNatToString(cnt);
  }

  /** The lines of the update tooltip, given the count of notes edited in
      place: the deleted and created lines appear only for positive counts. */
  function TooltipLines(upd: nat, delCount: nat, newCount: nat): seq<string> {
    [CountLine(upd, "old", "<b>edited in place</b>")]
      + (if delCount > 0 then [CountLine(delCount, "existing", "<b>deleted</b>")] else [])
      + (if newCount > 0 then [CountLine(newCount, "new", "<b>created</b>")] else [])
  }

  /** The tooltip text: its lines joined by `<br>`. */
  function Tooltip(upd: nat, delCount: nat, newCount: nat): string {
    Join("<br>", TooltipLines(upd, delCount, newCount))
  }

  /** The tooltip always has its first line, plus one line for each
      positive count; each line opens with its count, which reads back. */
  lemma TooltipLinesCounts(upd: nat, delCount: nat, newCount: nat)
    ensures var ls := TooltipLines(upd, delCount, newCount);
      && |ls| == 1 + (if delCount > 0 then 1 else 0) + (if newCount > 0 then 1 else 0)
      && ParseNat(Split(ls[0], ' ')[0]) == Some(upd)
      && (delCount > 0 ==> ParseNat(Split(ls[1], ' ')[0]) == Some(delCount))
      && (newCount > 0 ==> ParseNat(Split(ls[|ls| - 1], ' ')[0]) == Some(newCount))
  {
    CountLineReadsBack(upd, "old", "<b>edited in place</b>");
    CountLineReadsBack(delCount, "existing", "<b>deleted</b>");
    CountLineReadsBack(newCount, "new", "<b>created</b>");
  }

  lemma CountLineReadsBack(cnt: nat, adj: string, verb: string)
    ensures ParseNat(Split(CountLine(cnt, adj, verb), ' ')[0]) == Some(cnt)
  {
    var n := NatToString(cnt);
    var rest := adj + " " + CardS(cnt).1 + " " + verb;
    assert CountLine(cnt, adj, verb) == n + [' '] + rest;
    assert ' ' !in n;
    SplitFirst(n, ' ', rest);
    ParseNatToString(cnt);
  }

  /** The first part `split` returns is everything before the first
      separator. */
  lemma {:induction false} SplitFirst(p: string, c: char, d: string)
    requires c !in p
    ensures |Split(p + [c] + d, c)| >= 2 && Split(p + [c] + d, c)[0] == p
  {
    var s := p + [c] + d;
    if d == [] {
      assert s[..|s| - 1] == p;
      SplitNoSeparator(p, c);
    } else {
      var d' := d[..|d| - 1];
      assert s[..|s| - 1] == p + [c] + d';
      SplitFirst(p, c, d');
    }
  }

  // ---------------------------------------------------------------- the count of notes edited in place

  /** `upd_count` as `_showUpdateTooltip` computes it (ngen.py:176):
      `max(0, len(mnode_indexes) - del_count - new_count)`. */
  function UpdatedCountAsWritten(shapes: nat, delCount: nat, newCount: nat): nat {
    if shapes - delCount - newCount > 0 then shapes - delCount - newCount else 0
  }

  /** The notes `updateNotes` edits in place: one for every remaining shape
      that already had a note (ngen.py:146-162). Deleted notes have no shape
      left, so they are not among `mnode_indexes` and are not subtracted. */
  function EditedInPlace(shapes: nat, newCount: nat): nat
    requires newCount <= shapes
  {
    shapes - newCount
  }

  /** With three shapes left, all of them kept, and one note deleted, the
      tooltip as written reports two cards edited in place while three are. */
  lemma UpdatedCountUndercounts()
    ensures UpdatedCountAsWritten(3, 1, 0) == 2
    ensures EditedInPlace(3, 0) == 3
  {
  }

  /** As written, the count is short by exactly the number of deleted notes
      whenever that does not drive it below zero. */
  lemma UpdatedCountAsWrittenShortByDeleted(shapes: nat, delCount: nat, newCount: nat)
    requires newCount + delCount <= shapes
    ensures UpdatedCountAsWritten(shapes, delCount, newCount) + delCount == EditedInPlace(shapes, newCount)
  {
  }
}
