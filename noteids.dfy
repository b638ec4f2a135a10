/** The note-id strings written into the first field of every occlusion note,
    the number read back out of them, and the names of the mask files.

    An `occl_id` is `{uniq_id}-{occl_tp}`, shared by all notes of one
    session. The basic generators (AO/OA) name note k `{occl_id}-{k}`; the
    SI family names a card `{occl_id}-card_{nnn}-{role}`. */
module NoteIds {
  import opened Wrappers
  import opened Text

  // ---------------------------------------------------------------- AO / OA

  /** `"%s-%i" % (occl_id, k)` (ngen.py:242) and `occl_id + '-' + nr`
      (ngen.py:334, 340), with `nr` already text. */
  function BaseNoteId(occlId: string, nr: string): string {
    occlId + "-" + nr
  }

  /** `note_id.split('-')[-1]`: the numeric part of a basic note id, as text. */
  function BaseNrText(noteId: string): string {
    Last(Split(noteId, '-'))
  }

  /** `int(note_id.split('-')[-1])` (ngen.py:288). */
  function BaseNoteNr(noteId: string): Option<nat> {
    ParseNat(BaseNrText(noteId))
  }

  /** Any suffix without a dash is exactly what `split('-')[-1]` returns. */
  lemma BaseNrTextOfId(occlId: string, nr: string)
    requires '-' !in nr
    ensures BaseNrText(BaseNoteId(occlId, nr)) == nr
  {
    SplitAppend(occlId, '-', nr);
    assert BaseNoteId(occlId, nr) == occlId + ['-'] + nr;
  }

  /** The number written by `"%s-%i"` reads back unchanged, whatever dashes
      the occl_id itself contains. */
  lemma BaseNoteNrRoundTrip(occlId: string, k: nat)
    ensures BaseNoteNr(BaseNoteId(occlId, NatToString(k))) == Some(k)
  {
    BaseNrTextOfId(occlId, NatToString(k));
    ParseNatToString(k);
  }

  // ---------------------------------------------------------------- SI / LI / SLI

  /** `{occl_id}-card_{nr}-{role}` (ngen.py:1121, 1147, 1166, 636, 670, 704). */
  function SiNoteId(occlId: string, nr: string, role: string): string {
    occlId + "-card_" + nr + "-" + role
  }

  /** Role of a regular question made at create time: `regularq_q{k}`. */
  function RegularRole(q: nat): string { "regularq_q" + NatToString(q) }

  /** Role of a reverse question made at create time:
      `revereseq_qset{k}_q{j}` (the misspelling is the source's). */
  function ReverseRole(qset: nat, item: nat): string {
    "revereseq_qset" + NatToString(qset) + "_q" + NatToString(item)
  }

  /** Role of a blank question made at create time: `blankq_q{k}`. */
  function BlankRole(q: nat): string { "blankq_q" + NatToString(q) }

  /** Roles of shapes numbered while editing (ngen.py:636, 670, 704). */
  const RegularEditRole: string := "regularq_qedt"
  const ReverseEditRole: string := "reverseq_qsetedt"
  const BlankEditRole: string := "blankq_qedt"

  /** `int(note_id.split('-')[-2].split('_')[-1])` (ngen.py:584); an id with
      fewer than two dash-separated parts raises IndexError, a non-numeric
      part ValueError: both are `None`. */
  function SiCardNr(noteId: string): Option<nat> {
    var parts := Split(noteId, '-');
    if |parts| < 2 then None
    else ParseNat(Last(Split(parts[|parts| - 2], '_')))
  }

  lemma DigitsHaveNoSeparators(s: string)
    requires AllDigits(s)
    ensures '-' !in s && '_' !in s
  {
  }

  /** The dash-separated parts of an SI id end in the card segment and the role. */
  lemma SiNoteIdParts(occlId: string, nr: string, role: string)
    requires '-' !in nr && '-' !in role
    ensures Split(SiNoteId(occlId, nr, role), '-') == Split(occlId, '-') + ["card_" + nr, role]
  {
    var seg := "card_" + nr;
    assert SiNoteId(occlId, nr, role) == (occlId + ['-'] + seg) + ['-'] + role;
    SplitAppend(occlId + ['-'] + seg, '-', role);
    SplitAppend(occlId, '-', seg);
  }

  /** `('card_' + nr).split('_')[-1] == nr` for an `nr` without underscores. */
  lemma CardSegmentNumber(nr: string)
    requires '_' !in nr
    ensures Last(Split("card_" + nr, '_')) == nr
  {
    assert "card_" + nr == "card" + ['_'] + nr;
    SplitAppend("card", '_', nr);
  }

  /** The card number of an SI id reads back, whether it was zero-padded
      (`zfill(3)` in the regular layer) or not (`w == 0`), for every role
      without a dash. */
  lemma SiCardNrRoundTrip(occlId: string, k: nat, w: nat, role: string)
    requires '-' !in role
    ensures SiCardNr(SiNoteId(occlId, ZFill(NatToString(k), w), role)) == Some(k)
  {
    var nr := ZFill(NatToString(k), w);
    ParseZFill(k, w);
    DigitsHaveNoSeparators(nr);
    SiNoteIdParts(occlId, nr, role);
    CardSegmentNumber(nr);
  }

  lemma NatToStringNoDash(n: nat)
    ensures '-' !in NatToString(n) && '_' !in NatToString(n)
  {
    DigitsHaveNoSeparators(NatToString(n));
  }

  /** Every role the source writes is free of dashes, so every SI id it
      writes reads back its card number. */
  lemma RolesHaveNoDash(q: nat, qset: nat, item: nat)
    ensures '-' !in RegularRole(q) && '-' !in ReverseRole(qset, item) && '-' !in BlankRole(q)
    ensures '-' !in RegularEditRole && '-' !in ReverseEditRole && '-' !in BlankEditRole
  {
    NatToStringNoDash(q);
    NatToStringNoDash(qset);
    NatToStringNoDash(item);
    var r := RegularRole(q);
    assert forall i :: 0 <= i < |r| ==> r[i] != '-' by {
      forall i | 0 <= i < |r| ensures r[i] != '-' {
        if i >= 10 { assert r[i] == NatToString(q)[i - 10]; }
      }
    }
    var b := BlankRole(q);
    assert forall i :: 0 <= i < |b| ==> b[i] != '-' by {
      forall i | 0 <= i < |b| ensures b[i] != '-' {
        if i >= 8 { assert b[i] == NatToString(q)[i - 8]; }
      }
    }
    var s1, s2 := NatToString(qset), NatToString(item);
    var v := ReverseRole(qset, item);
    assert forall i :: 0 <= i < |v| ==> v[i] != '-' by {
      forall i | 0 <= i < |v| ensures v[i] != '-' {
        if 14 <= i < 14 + |s1| { assert v[i] == s1[i - 14]; }
        if 16 + |s1| <= i { assert v[i] == s2[i - 16 - |s1|]; }
      }
    }
  }

  // ---------------------------------------------------------------- file names

  /** The three kinds of mask file: original, question, answer. */
  datatype MaskType = O | Q | A

  function MaskTypeLetter(t: MaskType): char {
    match t
    case O => 'O'
    case Q => 'Q'
    case A => 'A'
  }

  /** `'%s-%s.svg' % (note_id, mtype)` (ngen.py:414). */
  function MaskFileName(noteId: string, t: MaskType): string {
    noteId + "-" + [MaskTypeLetter(t)] + ".svg"
  }

  /** `'%s-%s.png' % (note_id, mtype)` (ngen.py:424). */
  function ImageFileName(noteId: string, t: MaskType): string {
    noteId + "-" + [MaskTypeLetter(t)] + ".png"
  }

  /** Reads an svg mask file name back into its note id and type. */
  function ParseMaskFileName(name: string): (r: Option<(string, MaskType)>)
    ensures r.Some? ==> MaskFileName(r.value.0, r.value.1) == name
  {
    if |name| < 6 || name[|name| - 4..] != ".svg" || name[|name| - 6] != '-' then None
    else
      var c := name[|name| - 5];
      var id := name[..|name| - 6];
      if c == 'O' then Some((id, O))
      else if c == 'Q' then Some((id, Q))
      else if c == 'A' then Some((id, A))
      else None
  }

  /** Mask file names determine their note id and type: two masks of
      different notes, or of different sides, never share a file. */
  lemma MaskFileNameRoundTrip(noteId: string, t: MaskType)
    ensures ParseMaskFileName(MaskFileName(noteId, t)) == Some((noteId, t))
  {
    var name := MaskFileName(noteId, t);
    assert name[|name| - 4..] == ".svg";
    assert name[..|name| - 6] == noteId;
  }

  /** Question and answer images of one note never share a name with each
      other, nor with that note's svg masks. */
  lemma ImageFileNamesDistinct(noteId: string, t: MaskType, u: MaskType)
    ensures ImageFileName(noteId, t) != MaskFileName(noteId, u)
    ensures t != u ==> ImageFileName(noteId, t) != ImageFileName(noteId, u)
  {
    var a, b := ImageFileName(noteId, t), MaskFileName(noteId, u);
    assert a[|a| - 2] == 'n' && b[|b| - 2] == 'v';
    if t != u {
      var c := ImageFileName(noteId, u);
      assert a[|noteId| + 1] == MaskTypeLetter(t) && c[|noteId| + 1] == MaskTypeLetter(u);
    }
  }
}
