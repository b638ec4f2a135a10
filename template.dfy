/** The note type of the add-on and its upgrade rule (template.py:815-899):
    `add_io_model` builds a fresh note type from a model map, and
    `update_template` appends to the card formats every addition introduced
    after the installed version. The HTML, CSS and script constants of
    template.py are parameters here; only the way they are chosen and
    concatenated is modelled. */
module Template {
  import opened Wrappers
  import opened Text

  // ---------------------------------------------------------------- additions by version

  /** One entry of `additions_by_version`: the version it was introduced in
      and its three components, for the front format, the back format and
      the css. */
  datatype Addition = Addition(version: real, qfmt: string, afmt: string, css: string)

  /** The table the add-on ships (template.py:818-823): version 1.30 adds the
      overlay script to both sides and the css that hides the original. */
  function AdditionsByVersion(overlayOnload: string, cssOriginalHide: string): seq<Addition> {
    [Addition(1.30, overlayOnload, overlayOnload, cssOriginalHide)]
  }

  /** The entries `update_template` keeps: those whose version is newer than
      the installed one, in table order. */
  function Collected(table: seq<Addition>, oldVersion: real): (r: seq<Addition>)
    ensures |r| <= |table|
    ensures forall e :: e in r ==> e in table && e.version > oldVersion
  {
    if table == [] then []
    else
      var kept := if Last(table).version > oldVersion then [Last(table)] else [];
      Collected(table[..|table| - 1], oldVersion) + kept
  }

  /** Collecting distributes over concatenation: the entries kept from a
      table are those kept from its first part followed by those kept from
      the rest, so the table's order is preserved. */
  lemma {:induction false} CollectedAppend(t1: seq<Addition>, t2: seq<Addition>, oldVersion: real)
    ensures Collected(t1 + t2, oldVersion) == Collected(t1, oldVersion) + Collected(t2, oldVersion)
  {
    if t2 == [] {
      assert t1 + t2 == t1;
    } else {
      var t2' := t2[..|t2| - 1];
      assert (t1 + t2)[..|t1 + t2| - 1] == t1 + t2';
      assert Last(t1 + t2) == Last(t2);
      CollectedAppend(t1, t2', oldVersion);
    }
  }

  /** An entry is collected exactly when it is in the table and newer than
      the installed version. */
  lemma {:induction false} CollectedIff(table: seq<Addition>, oldVersion: real, e: Addition)
    ensures e in Collected(table, oldVersion) <==> e in table && e.version > oldVersion
  {
    if table != [] {
      var t' := table[..|table| - 1];
      assert table == t' + [Last(table)];
      CollectedIff(t', oldVersion, e);
    }
  }

  /** Collecting one more entry of the table. */
  lemma CollectedStep(table: seq<Addition>, i: nat, oldVersion: real)
    requires i < |table|
    ensures Collected(table[..i + 1], oldVersion)
      == Collected(table[..i], oldVersion) + if table[i].version > oldVersion then [table[i]] else []
  {
    assert table[..i + 1][..i] == table[..i];
  }

  /** A single entry is kept if and only if it is newer: with
      `CollectedAppend` this determines `Collected` on every table. */
  lemma CollectedSingle(e: Addition, oldVersion: real)
    ensures Collected([e], oldVersion) == if e.version > oldVersion then [e] else []
  {
    assert [e][..0] == [];
  }

  // ---------------------------------------------------------------- card formats

  /** The three strings `update_template` extends: the first card template's
      `qfmt` and `afmt` and the note type's `css`. */
  datatype Formats = Formats(qfmt: string, afmt: string, css: string)

  function QfmtParts(adds: seq<Addition>): (r: seq<string>)
    ensures |r| == |adds| && forall i :: 0 <= i < |adds| ==> r[i] == adds[i].qfmt
  {
    seq(|adds|, i requires 0 <= i < |adds| => adds[i].qfmt)
  }

  function AfmtParts(adds: seq<Addition>): (r: seq<string>)
    ensures |r| == |adds| && forall i :: 0 <= i < |adds| ==> r[i] == adds[i].afmt
  {
    seq(|adds|, i requires 0 <= i < |adds| => adds[i].afmt)
  }

  function CssParts(adds: seq<Addition>): (r: seq<string>)
    ensures |r| == |adds| && forall i :: 0 <= i < |adds| ==> r[i] == adds[i].css
  {
    seq(|adds|, i requires 0 <= i < |adds| => adds[i].css)
  }

  /** One more collected entry adds one component of each kind. */
  lemma PartsSnoc(adds: seq<Addition>, e: Addition)
    ensures QfmtParts(adds + [e]) == QfmtParts(adds) + [e.qfmt]
    ensures AfmtParts(adds + [e]) == AfmtParts(adds) + [e.afmt]
    ensures CssParts(adds + [e]) == CssParts(adds) + [e.css]
  {
  }

  /** Each format followed directly by its components of the collected
      additions, joined by newlines (template.py:895-897). */
  function Extended(f: Formats, adds: seq<Addition>): Formats {
    Formats(f.qfmt + Join("\n", QfmtParts(adds)),
            f.afmt + Join("\n", AfmtParts(adds)),
            f.css + Join("\n", CssParts(adds)))
  }

  /** When no entry is newer than the installed version, the formats are
      left as they are. */
  lemma UpToDateUnchanged(f: Formats, table: seq<Addition>, oldVersion: real)
    requires forall i :: 0 <= i < |table| ==> table[i].version <= oldVersion
    ensures Collected(table, oldVersion) == []
    ensures Extended(f, Collected(table, oldVersion)) == f
  {
    assert f.qfmt + "" == f.qfmt;
    assert f.afmt + "" == f.afmt;
    assert f.css + "" == f.css;
  }

  /** The shipped table: a note type installed before 1.30 gets exactly the
      overlay script on both sides and the hiding css; one at 1.30 or later
      is unchanged. */
  lemma ShippedUpgrade(f: Formats, overlayOnload: string, cssOriginalHide: string, oldVersion: real)
    ensures var r := Extended(f, Collected(AdditionsByVersion(overlayOnload, cssOriginalHide), oldVersion));
      if oldVersion < 1.30 then r == Formats(f.qfmt + overlayOnload, f.afmt + overlayOnload, f.css + cssOriginalHide)
      else r == f
  {
    var t := AdditionsByVersion(overlayOnload, cssOriginalHide);
    CollectedSingle(t[0], oldVersion);
    assert f.qfmt + "" == f.qfmt;
    assert f.afmt + "" == f.afmt;
    assert f.css + "" == f.css;
  }

  // ---------------------------------------------------------------- the note type

  /** A field of the note type; `size` is `Some(0)` where `add_io_model` sets
      it and `None` where Anki's default is left in place. */
  datatype Field = Field(name: string, size: Option<nat>)

  /** A card template: its name and its front and back formats. */
  datatype CardTemplate = CardTemplate(name: string, qfmt: string, afmt: string)

  /** The parts of a model map `add_io_model` reads: the note type's name,
      the field keys in order, the field names by key, the card's name and
      the short name that picks the templates. */
  datatype ModelMap = ModelMap(name: string, fldIds: seq<string>, flds: map<string, string>,
                               card1Name: string, shortName: string)

  /** The template constants of template.py, one set (front, back, css) per
      short name that has its own. */
  datatype Library = Library(ao: Formats, oa: Formats, si: Formats, li: Formats)

  /** The templates `add_io_model` installs for a short name: `ao`, `oa`,
      `si` and `li` have their own; any other name (`sli`, say) leaves the
      fresh template empty. */
  function BuiltIn(lib: Library, shortName: string): (r: Option<Formats>)
    ensures r.Some? <==> shortName in {"ao", "oa", "si", "li"}
  {
    if shortName == "ao" then Some(lib.ao)
    else if shortName == "oa" then Some(lib.oa)
    else if shortName == "si" then Some(lib.si)
    else if shortName == "li" then Some(lib.li)
    else None
  }

  /** Each of the four short names selects its own template set, and the four
      are told apart by their names alone. */
  lemma BuiltInOwn(lib: Library)
    ensures BuiltIn(lib, "ao") == Some(lib.ao) && BuiltIn(lib, "oa") == Some(lib.oa)
    ensures BuiltIn(lib, "si") == Some(lib.si) && BuiltIn(lib, "li") == Some(lib.li)
    ensures BuiltIn(lib, "sli") == None
  {
  }

  /** The field `add_io_model` creates for the key `i`: named after
      `flds[i]`, and with size 0 for the `note_id` key only. */
  function FieldFor(mm: ModelMap, i: string): (f: Field)
    requires i in mm.flds
    ensures f.name == mm.flds[i]
    ensures f.size.Some? <==> i == "note_id"
  {
    Field(mm.flds[i], if i == "note_id" then Some(0) else None)
  }

  class IoModel {
    var name: string
    var fields: seq<Field>
    var tmpls: seq<CardTemplate>
    var css: string
    var sortf: nat

    /** `models.new(name)`: no fields, no templates, Anki's default css and
        sort field 0. */
    constructor New(name: string, defaultCss: string)
      ensures this.name == name && fields == [] && tmpls == []
      ensures css == defaultCss && sortf == 0
    {
      this.name := name;
      fields := [];
      tmpls := [];
      css := defaultCss;
      sortf := 0;
    }

    /** The formats `update_template` extends; it reads the first template. */
    function FormatsOf(): Formats
      reads this
      requires |tmpls| > 0
    {
      Formats(tmpls[0].qfmt, tmpls[0].afmt, css)
    }

    /** `models.addField(io_model, fld)`. */
    method AddField(f: Field)
      modifies this
      ensures fields == old(fields) + [f]
      ensures name == old(name) && tmpls == old(tmpls) && css == old(css) && sortf == old(sortf)
    {
      fields := fields + [f];
    }

    /** `models.addTemplate(io_model, template)`. */
    method AddTemplate(t: CardTemplate)
      modifies this
      ensures tmpls == old(tmpls) + [t]
      ensures name == old(name) && fields == old(fields) && css == old(css) && sortf == old(sortf)
    {
      tmpls := tmpls + [t];
    }
  }

  /** What `add_io_model` builds from a model map: one field per key in
      order, one template named after the card, and for a short name with
      templates of its own, those formats, that css and sort field 1. */
  ghost predicate IsNewModel(m: IoModel, mm: ModelMap, lib: Library, defaultCss: string)
    reads m
  {
    && m.name == mm.name
    && |m.fields| == |mm.fldIds|
    && (forall k :: 0 <= k < |mm.fldIds| ==> mm.fldIds[k] in mm.flds && m.fields[k] == FieldFor(mm, mm.fldIds[k]))
    && match BuiltIn(lib, mm.shortName)
       case Some(f) =>
         m.tmpls == [CardTemplate(mm.card1Name, f.qfmt, f.afmt)] && m.css == f.css && m.sortf == 1
       case None =>
         m.tmpls == [CardTemplate(mm.card1Name, "", "")] && m.css == defaultCss && m.sortf == 0
  }

  /** `add_io_model(col, model_map)`: a key of `fld_ids` missing from `flds`
      raises a KeyError before the note type is added to the collection. */
  method AddIoModel(mm: ModelMap, lib: Library, defaultCss: string) returns (r: Result<IoModel>)
    ensures r.Err? <==> exists k :: 0 <= k < |mm.fldIds| && mm.fldIds[k] !in mm.flds
    ensures r.Err? ==> r.error.MissingKey?
    ensures r.Ok? ==> fresh(r.value) && IsNewModel(r.value, mm, lib, defaultCss)
  {
    var m := new IoModel.New(mm.name, defaultCss);
    var k := 0;
    while k < |mm.fldIds|
      invariant 0 <= k <= |mm.fldIds|
      invariant |m.fields| == k
      invariant forall j :: 0 <= j < k ==> mm.fldIds[j] in mm.flds && m.fields[j] == FieldFor(mm, mm.fldIds[j])
      invariant m.name == mm.name && m.tmpls == [] && m.css == defaultCss && m.sortf == 0
    {
      var i := mm.fldIds[k];
      if i !in mm.flds {
        return Err(MissingKey(i));
      }
      var fld := Field(mm.flds[i], None);
      if i == "note_id" {
        fld := fld.(size := Some(0));
      }
      m.AddField(fld);
      k := k + 1;
    }
    var template := CardTemplate(mm.card1Name, "", "");
    if mm.shortName == "ao" {
      template := template.(qfmt := lib.ao.qfmt, afmt := lib.ao.afmt);
      m.css := lib.ao.css;
      m.sortf := 1;
    } else if mm.shortName == "oa" {
      template := template.(qfmt := lib.oa.qfmt, afmt := lib.oa.afmt);
      m.css := lib.oa.css;
      m.sortf := 1;
    } else if mm.shortName == "si" {
      template := template.(qfmt := lib.si.qfmt, afmt := lib.si.afmt);
      m.css := lib.si.css;
      m.sortf := 1;
    } else if mm.shortName == "li" {
      template := template.(qfmt := lib.li.qfmt, afmt := lib.li.afmt);
      m.css := lib.li.css;
      m.sortf := 1;
    }
    m.AddTemplate(template);
    r := Ok(m);
  }

  /** The three lists of components `update_template` gathers in its nested
      loop (template.py:881-887): one component of each kind per collected
      entry, in lock-step. */
  method CollectAdditions(table: seq<Addition>, oldVersion: real)
    returns (qs: seq<string>, fs: seq<string>, cs: seq<string>)
    ensures qs == QfmtParts(Collected(table, oldVersion))
    ensures fs == AfmtParts(Collected(table, oldVersion))
    ensures cs == CssParts(Collected(table, oldVersion))
  {
    qs, fs, cs := [], [], [];
    for i := 0 to |table|
      invariant qs == QfmtParts(Collected(table[..i], oldVersion))
      invariant fs == AfmtParts(Collected(table[..i], oldVersion))
      invariant cs == CssParts(Collected(table[..i], oldVersion))
    {
      CollectedStep(table, i, oldVersion);
      if oldVersion >= table[i].version {
        continue;
      }
      PartsSnoc(Collected(table[..i], oldVersion), table[i]);
      qs := qs + [table[i].qfmt];
      fs := fs + [table[i].afmt];
      cs := cs + [table[i].css];
    }
    assert table[..|table|] == table;
  }

  /** `update_template(col, old_version, model_map)`, with the collection's
      `byName` lookup given as `existing` (null when no note type of that
      name exists): a missing note type is built afresh; otherwise the first
      template's formats and the css are extended by the collected
      additions, and nothing else changes. A note type without templates
      raises an IndexError. */
  method UpdateTemplate(existing: IoModel?, oldVersion: real, mm: ModelMap, table: seq<Addition>,
                        lib: Library, defaultCss: string)
    returns (r: Result<IoModel>)
    modifies existing
    ensures existing == null ==>
      && (r.Err? <==> exists k :: 0 <= k < |mm.fldIds| && mm.fldIds[k] !in mm.flds)
      && (r.Ok? ==> fresh(r.value) && IsNewModel(r.value, mm, lib, defaultCss))
    ensures existing != null && old(existing.tmpls) == [] ==>
      r == Err(IndexOutOfRange) && existing.tmpls == []
    ensures existing != null && old(existing.tmpls) != [] ==>
      && r == Ok(existing)
      && |existing.tmpls| == |old(existing.tmpls)|
      && existing.FormatsOf() == Extended(old(existing.FormatsOf()), Collected(table, oldVersion))
      && existing.tmpls[0].name == old(existing.tmpls[0].name)
      && existing.tmpls[1..] == old(existing.tmpls[1..])
    ensures existing != null ==>
      existing.name == old(existing.name) && existing.fields == old(existing.fields)
      && existing.sortf == old(existing.sortf)
  {
    var qs, fs, cs := CollectAdditions(table, oldVersion);
    if existing == null {
      r := AddIoModel(mm, lib, defaultCss);
      return;
    }
    if |existing.tmpls| == 0 {
      return Err(IndexOutOfRange);
    }
    var template := existing.tmpls[0];
    template := template.(qfmt := template.qfmt + Join("\n", qs));
    template := template.(afmt := template.afmt + Join("\n", fs));
    existing.tmpls := existing.tmpls[0 := template];
    existing.css := existing.css + Join("\n", cs);
    r := Ok(existing);
  }
}
