# Image Occlusion note generation, modelled in Dafny

This project models the core of the Image Occlusion Enhanced add-on for
Anki. The add-on turns an SVG drawing of masks over an image into one
note per mask. It writes an "O" mask with all shapes, and a question
mask and an answer mask for every note. When the user edits the
drawing, it reconciles the edited shapes with the notes already in the
collection. It deletes the notes whose shape is gone, numbers the new
shapes from the gaps left among the old numbers, and asks for
confirmation before anything is deleted or created. It also upgrades
the card templates of its note types.

The model covers these parts:

- `genByKey`, the choice of a generator class.
- The update tooltip and its card counts.
- The basic generators (`IoGenAO`, `IoGenOA`):
  - shape canonicalisation and id assignment (`_getMnodesAndSetIds`);
  - reconciliation with gap-filling renumbering and the confirmation gate (`_deleteAndIdNotes`);
  - `generateNotes` and `updateNotes`;
  - AO and OA mask rendering.
- The SI generator (`IoGenSI`):
  - its three-layer id assignment and its reconciliation;
  - its regular and reverse mask rendering;
  - `strip_attr`, `generateNotes` and `updateNotes`.
- Helpers:
  - `inverse_wrapper`, `get_qwrapper_img`'s crop box, `get_surrounding_rect_from_sub_rects` and the paste offset of a question image;
  - `remove_namespace`;
  - the mask file names.
- From `template.py`: `update_template` and `add_io_model`.

How the code is modelled:

- An SVG document is a tree: `Svg.Node` is an element (tag, attribute map, children) or a text node.
- Python exceptions (KeyError, IndexError, ValueError) become `Err` results.
- The Anki collection appears only through parameters:
  - `found`: the notes `_findAllNotes` finds;
  - `stored`: the note ids the collection holds;
  - `confirm`: the user's answer to the confirmation dialog;
  - `original`: the stored O mask;
  - `epochSecs`: the clock.
- The generators are classes whose methods update the same fields the Python objects do: `new_svg`, `occl_id`, `mnode_indexes`, `mnode_ids`, `rnode_ids`, `bnode_ids` and `nids`.
- Each method is proved to compute exactly a specification function. The properties the add-on promises are proved about those functions as lemmas.

Modules, in dependency order:

- `Wrappers`: `Option`, `Result` and the error kinds.
- `Text`: decimal text, `split`, `zfill` and `float`.
- `Svg`: the tree and the attribute passes.
- `NoteIds`: id and file-name formats.
- `Numbering`: the pool of free numbers.
- `Canon`: the basic `_getMnodesAndSetIds`.
- `Reconcile`: both versions of `_deleteAndIdNotes`.
- `AoOa`: AO and OA masks.
- `Dispatch`: `genByKey` and the tooltips.
- `Generator`: the basic generator class.
- `Geometry`: the helpers above.
- `SiIds`: the SI `_getMnodesAndSetIds`.
- `SiRender`: the SI masks.
- `SiUpdate`: the SI `generateNotes` and `updateNotes`.
- `SiGen`: the loop lemmas of the SI class.
- `SiGenerator`: the SI generator class.
- `Template`: the template upgrade.

## Model

| member | source | states |
|---|---|---|
| Dispatch.GenByKey | ngen.py:48-63 | The class is chosen by the note type alone. The only failure is the "Don't Change" branch, which raises. |
| Dispatch.GenByKeyShortName | ngen.py:48-63 | Every generator is found again under its own `occl_tp`, so a stored note reopens with the class that made it. |
| Dispatch.GenByKeyLabels | ngen.py:48-63 | The two long menu labels select the same classes as the codes `ao` and `oa`. |
| Dispatch.GenByKeyTotal | ngen.py:48-63 | Dispatch fails if and only if the type is "Don't Change". Any unknown key falls back to the AO generator. |
| Dispatch.CardS | ngen.py:169-173 | Returns the count itself, and "card" or "cards". |
| Dispatch.CardSSingular | ngen.py:169-173 | For a count that is not negative, the singular is used exactly when the count is one. |
| Dispatch.AddedLineReadsBack | ngen.py:114 | The count at the head of the "added" tooltip parses back to the number of cards, in the singular exactly for one card. |
| Dispatch.TooltipLinesCounts | ngen.py:175-183 | The update tooltip always has its "edited in place" line. It has one more line for each positive count of deleted and of created notes, and every line's leading number parses back to its count. |
| Dispatch.UpdatedCountUndercounts | ngen.py:176 | Counterexample: 3 shapes left, all kept, 1 note deleted. As written the count is 2, but 3 notes are edited in place. |
| Dispatch.UpdatedCountAsWrittenShortByDeleted | ngen.py:176 | Whenever the count as written is not cut off at zero, it falls short of the notes edited in place by exactly the number of deleted notes. |
| Text.NatToString | ngen.py:242 | `str(n)` is a non-empty string of decimal digits. |
| Text.ParseNat | ngen.py:288 | `int(s)` succeeds exactly when `s` is a non-empty string of digits. This is narrower than Python's `int`; see "Left out". |
| Text.ParseNatToString | ngen.py:288 | `int(str(n)) == n`. |
| Text.ZFill | ngen.py:636 | `zfill(w)` pads on the left with zeros to width `w`, keeps the text as its suffix, and never shortens the text. |
| Text.ParseZFill | ngen.py:584 | Leading zeros do not change the number read back: `int(str(n).zfill(w)) == n`. |
| Text.SplitAppend | ngen.py:288 | Splitting `p + sep + d`, where `d` has no separator, gives the parts of `p` followed by `d`, so `[-1]` picks the last segment. |
| Text.ParseRealOfNat | ngen.py:208-209 | `float` reads a decimal integer, with or without a minus sign, as its value. |
| NoteIds.BaseNrTextOfId | ngen.py:339 | `split('-')[-1]` of `occl_id + '-' + nr` is `nr` when `nr` has no dash. |
| NoteIds.BaseNoteNrRoundTrip | ngen.py:288 | The number of a basic id `"{occl_id}-{k}"` parses back to `k`, whatever `occl_id` is. |
| NoteIds.SiNoteIdParts | ngen.py:1121 | An SI id splits on `-` into the parts of `occl_id`, then `card_{nr}`, then the role. |
| NoteIds.SiCardNrRoundTrip | ngen.py:584 | `int(id.split('-')[-2].split('_')[-1])` of an SI id built with `str(k).zfill(w)` is `k`, for every role the generator writes. |
| NoteIds.ParseMaskFileName | ngen.py:414 | A mask file name that parses, parses into the note id and mask type that format back to it. |
| NoteIds.MaskFileNameRoundTrip | ngen.py:414 | `'%s-%s.svg' % (note_id, mtype)` parses back to the same note id and mask type. |
| NoteIds.ImageFileNamesDistinct | ngen.py:420-426 | A PNG name never equals an SVG mask name of the same note, and two mask types give two PNG names. |
| Numbering.MaxNr | ngen.py:290-299 | The largest existing number, or 0 when there is none. It bounds every number and, when there is one, is one of them. |
| Numbering.Gaps | ngen.py:290-299 | The ascending list of the numbers between the bounds that are not taken: each one is in range and free, and every free number in range is listed. |
| Numbering.PoolIsFreeNumbers | ngen.py:287-299 | `available_nrs` holds exactly the numbers from 1 to the maximum that no existing note uses, in ascending order. |
| Numbering.NthFreeIsFree | ngen.py:320-344 | Every number handed out is at least 1 and is not an existing number. |
| Numbering.NthFreeInjective | ngen.py:320-344 | Two new shapes never get the same number. |
| Numbering.NthFreeIsSmallest | ngen.py:320-344 | Numbers are handed out smallest first: a free number below the `j`-th number handed out went to an earlier new shape. |
| Numbering.DenseAfterPool | ngen.py:327-333 | Once the pool is used up, numbering grows past the maximum without leaving a gap. Every number up to max + (count − pool size) is existing or handed out. |
| Numbering.AssignDistinct | ngen.py:320-344 | Two new shapes at different positions get different numbers, and neither is an existing number. |
| Numbering.NothingNewAssignsNothing | ngen.py:320-344 | Without new shapes nothing is counted as new and no number is handed out. |
| Canon.MaskLayerPos | ngen.py:191-200 | The mask layer is the last element child of the `svg` root, and it is a `g` with only text nodes after it. Anything else is a layer error. |
| Canon.OnlyRectsAreDropped | ngen.py:221-234 | A mask node that is not a `rect` is never dropped as a micro shape. |
| Canon.MissingHeightIsDropped | ngen.py:221-234 | A `rect` without a height is dropped, provided that its width, if it has one, can be read. |
| Canon.RatioTest | ngen.py:231 | The test `100*h*w/carea <= 0.01` holds exactly when the rectangle covers at most a ten-thousandth of the canvas. |
| Canon.LargeRectIsKept | ngen.py:221-234 | A `rect` with a positive height and width is dropped exactly when its area is at most a ten-thousandth of the canvas. |
| Canon.MicroRect | ngen.py:221-234 | A `rect` with non-zero sides, on a canvas of non-zero area, is dropped exactly when the ratio test says it is tiny. |
| Canon.PrepareKeeps | ngen.py:236-240 | Cleaning a kept mask node changes only its attributes, and only by removing the listed keys. |
| Canon.GetMnodesAndSetIds | ngen.py:202-248 | `mnode_ids` has one id per entry of `mnode_indexes`. |
| Canon.CanonLayerWellFormed | ngen.py:215-246 | The canonical layer is well formed. The recorded positions ascend, point at exactly its mask nodes, and each mask node carries the id recorded for it. |
| Canon.CreateIdsDense | ngen.py:241-246 | In create mode the kept shapes are numbered `"{occl_id}-1"` to `"{occl_id}-n"` in document order, and each number reads back. |
| Canon.CreateKeepsSurvivors | ngen.py:215-246 | In create mode the layer holds exactly the children that survive the micro-shape filter, in order. Children that are not masks are untouched, and each kept mask is the cleaned node with its new id. |
| Canon.EditKeepsIds | ngen.py:241-246 | In edit mode no child is dropped, non-masks are untouched, and each recorded id is the node's existing `id`, taken verbatim. |
| Canon.EditFailsIffIdMissing | ngen.py:241-246 | In edit mode the pass fails exactly when some mask node has no `id`. |
| Reconcile.Prefixed | ngen.py:280-283 | Keeps exactly the ids that start with `uniq_id`. |
| Reconcile.ExistingIff | ngen.py:285-286 | An id is existing exactly when it is a current shape's id, has the prefix and still has a note. |
| Reconcile.BaseNumbers | ngen.py:287-288 | Reads every existing id's number. It fails exactly when some id's last dash segment is not a number. |
| Reconcile.NewFlags | ngen.py:326 | A shape is new exactly when its id is not an existing one. |
| Reconcile.BaseDeleteAndIdNotes | ngen.py:269-370 | One new id per shape. An applied decision counts at most one new note per shape. |
| Reconcile.BaseDeletedIff | ngen.py:301-303 | A note is deleted exactly when it has the prefix, is in the collection and no current shape carries its id. |
| Reconcile.BaseGateDecides | ngen.py:358-370 | The edit is declined exactly when something is deleted or new and `confirm` is false. An applied decision reports `del_count`, `new_count` and exactly the `nid`s of the deleted notes for removal. |
| Reconcile.BaseNewIdsNumbering | ngen.py:326-340 | A new shape's id carries its gap-filled number, which is at least 1 and not existing. Two new shapes get different ids. An old shape keeps its number text under the new prefix. |
| Reconcile.NewIdIsNotAnOldId | ngen.py:326-344 | A new shape's id is never the id, old or new, of a shape that keeps its note. |
| Reconcile.BaseFinalIdsHaveNids | ngen.py:326-341 | After reconciliation every shape's new id is in `nids`, and a shape that had no note is entered with `None`. |
| Reconcile.BaseDistinctIdsSucceed | ngen.py:337-341 | With distinct shape ids whose numbers read, the reconciliation never fails on a missing entry. |
| Reconcile.BaseUnchangedAsksNothing | ngen.py:358 | When every shape has its note and every note its shape, nothing is deleted or created and no confirmation is asked. |
| Reconcile.SiExisting | ngen.py:570-583 | The existing SI ids are exactly the shape ids with the prefix that still have a note. |
| Reconcile.SiExistingFailsIffNoId | ngen.py:570-576 | Collecting them fails exactly when some regular or blank shape has no `id`. |
| Reconcile.SiNumbers | ngen.py:584 | Reads every existing id's card number with `split('-')[-2].split('_')[-1]`. |
| Reconcile.SiNewFlags | ngen.py:617-710 | An SI shape is new exactly when it has no id or its id is not an existing one. |
| Reconcile.SiEditIdRoundTrip | ngen.py:636 | Every edit-time SI id reads back its card number. |
| Reconcile.SiDeleteAndIdNotes | ngen.py:556-738 | One new id per shape across the three layers. |
| Reconcile.SiDeletedIff | ngen.py:599-601 | An SI note is deleted exactly when it has the prefix, is in the collection and no shape of any layer carries its id. |
| Reconcile.SiNewIdsNumbering | ngen.py:617-710 | New SI shapes take distinct gap-filled card numbers, never existing ones, from one pool shared by the three layers. Existing shapes keep their ids unchanged. |
| Reconcile.SiFinalIdsHaveNids | ngen.py:617-710 | After SI reconciliation every shape's id is in `nids`. |
| Svg.RemoveAttribsAt | ngen.py:401-408 | At every position the element keeps its tag and loses exactly the listed attributes. Text nodes stay as they are. |
| Svg.SetQuestionAttribsAt | ngen.py:391-399 | At every position outside `text` subtrees, `class` becomes `qshape` and `fill` is replaced only where one exists. Everything else, and every `text` subtree, is unchanged. |
| Svg.SetQuestionAttribsIdempotent | ngen.py:391-399 | Styling a question shape twice is styling it once. |
| Svg.StripAttrAt | ngen.py:1086-1091 | At every position an element loses the listed keys, unless that would leave it without attributes, in which case it keeps all of them. |
| Svg.StripAttrClean | ngen.py:1086-1091 | After `strip_attr` no element keeps a listed attribute beside an unlisted one. |
| Svg.StripAttrIdempotent | ngen.py:1086-1091 | Stripping a second time changes nothing. |
| Svg.RemoveNamespace | ngen.py:1077-1080 | The result is never longer than the text, and it is shorter by a multiple of four characters. |
| Svg.RemoveNamespaceNoMatch | ngen.py:1077-1080 | A text without `ns0:` and `:ns0` comes back unchanged. |
| Svg.RemoveNamespacePrefix | ngen.py:1077-1080 | The `ns0:` prefix the serialiser writes on a tag is cut out. |
| AoOa.StyledIsMaskNode | ngen.py:391-399 | `_setQuestionAttribs` keeps a mask node a mask node. |
| AoOa.AoMaskLayer | ngen.py:492-497 | The AO mask fails exactly when the index is past the end of the layer, with IndexError. |
| AoOa.AoQuestionRestylesOnlyTarget | ngen.py:492-497 | The AO question mask restyles the target as a question and leaves every other child, mask node or not, as it is. |
| AoOa.AoAnswerRemovesTarget | ngen.py:492-497 | The AO answer mask removes exactly the target. It has one mask node fewer, and every other child is kept in order. |
| AoOa.OaMaskLayer | ngen.py:512-519 | The OA mask fails exactly when the last recorded index is past the end, with IndexError. Otherwise it walks the indexes from last to first, as the reference `OaOut` traces. |
| AoOa.OaAnswerRemovesAll | ngen.py:512-519 | The OA answer mask keeps no mask node, and every other child in order. |
| AoOa.OaQuestionKeepsTarget | ngen.py:512-519 | The OA question mask keeps every child that is not a mask node, in order, and exactly one mask node: the target, restyled. |
| Generator.IdMapValues | ngen.py:110-111 | Reading `mnode_ids` along `mnode_indexes` gives the recorded ids in order. |
| Generator.SetIdsAt | ngen.py:342-344 | After renumbering, each recorded node carries its new id, and every other attribute and child is unchanged. |
| Generator.SetIdsWellFormed | ngen.py:342-344 | Renumbering keeps the layer well formed, every mask node now carrying its new id. |
| Generator.GetMnodesAndSetIdsLayer | ngen.py:202-248 | Once the canvas size and the mask layer are read, the pass is the loop over the layer's children. |
| Generator.RenumberStep | ngen.py:323-344 | One iteration of the loop: a new shape takes the next number, and an old one moves its `nid` to the id with the new prefix. |
| Generator.DeleteAndIdNotesByLoopIsBase | ngen.py:269-370 | The loop the generator runs computes exactly `Reconcile.BaseDeleteAndIdNotes`: the same ids, `nids`, decision and counts. |
| Generator.RenumberLoopMoves | ngen.py:320-346 | The loop computes, shape by shape, the `nids` moves that `Reconcile` states for the whole sequence. |
| Generator.RenumberStepMoves | ngen.py:323-344 | One shape of the loop is one `nids` move, and it takes a number from the counter exactly when the shape is new. |
| Generator.RenumberLoopIsBase | ngen.py:320-346 | For the flags and ids of the reconciliation, the whole loop yields its ids, its `nids` and its `new_count`. |
| Generator.MasksFor | ngen.py:372-376 | One mask per entry of `mnode_indexes`, in order. The first failure is the result. |
| Generator.MasksForAt | ngen.py:372-376 | The `t`-th mask of the list is the mask of the `t`-th shape. |
| Generator.MasksForSucceed | ngen.py:372-376 | The list fails only where some shape's mask fails. |
| Generator.MaskShape | ngen.py:378-387 | The masks of a shape of a well-formed layer change only the mask layer. They keep every non-mask child in order. AO keeps all shapes in the question and drops the target from the answer; OA keeps only the target in the question and no shape in the answer. The target is restyled as a question. |
| Generator.MasksForWellFormed | ngen.py:372-376 | On a well-formed layer every shape has both masks, so the question and answer lists are complete. |
| Generator.NewNotes | ngen.py:110-113 | One note per shape, in `mnode_indexes` order, with its id and its masks. |
| Generator.IdMapEmpty | ngen.py:97 | `not self.mnode_ids` holds exactly when no shape was recorded. |
| Generator.CanonDocLayer | ngen.py:96-102 | The canonical document keeps its mask layer at its place, holding exactly the canonical layer. |
| Generator.GenerateNotesSpecOk | ngen.py:89-115 | `generateNotes` on a readable layer is the masked notes of its shapes, or "No cards" when it has none. |
| Generator.GenerateNotesOutcome | ngen.py:89-115 | `generateNotes` fails only where the mask layer cannot be read. It finds no cards exactly when the layer has no shape. Otherwise it adds one note per shape, numbered densely from 1 under the new `occl_id`, and its tooltip counts them. |
| Generator.GeneratedMasks | ngen.py:102-105 | Against the O mask with `n` shapes: an AO question mask keeps all `n` and its answer mask `n - 1`; an OA question mask keeps one and its answer mask none. |
| Generator.ResetMasks | ngen.py:140-145 | On a reset every note gets new masks; otherwise none. |
| Generator.NoteUpdates | ngen.py:151-165 | The update loop writes each note under its id, with its `nid` and masks. A missing `nid` is a KeyError. |
| Generator.NoteUpdatesAt | ngen.py:151-165 | When every id has an entry, no lookup fails and each note carries its id, its `nid` and its masks. |
| Generator.UpdateNotesByLoopIsSpec | ngen.py:117-167 | The class's loop and `UpdateNotesSpec` agree on every input. |
| Generator.RenumberedCanon | ngen.py:339-344 | Renumbering the canonical layer with one id per shape succeeds. The mask layer stays at its place and well formed, and the shapes carry the new ids. |
| Generator.EditedInPlaceIsKept | ngen.py:176 | The evidently intended count: the notes edited in place are exactly the shapes whose id is an existing note with the prefix, however many other notes were deleted. |
| Generator.WrittenNotesOk | ngen.py:151-166 | With an entry for every new id, the update goes through with one note per shape, under its new id, with the `nid` the reconciliation left and its masks. |
| Generator.ResetMasksWellFormed | ngen.py:140-145 | On a well-formed layer the masks of a reset never fail. |
| Generator.AppliedOutcome | ngen.py:131-166 | An applied reconciliation of the canonical layer always goes through: no mask and no lookup fails. |
| Generator.ResetMaskShapes | ngen.py:140-145 | On a reset the masks of shape `t` keep `n` and `n - 1` mask nodes for AO, and one and none for OA. |
| Generator.UpdatedMasks | ngen.py:138-145 | The masks written on a reset, against the renumbered O mask, have the same shape counts as those of new notes. |
| Generator.UpdateNotesOutcome | ngen.py:117-167 | `updateNotes` stops with "No shapes left" exactly when the edited layer has none. It fails exactly where the layer cannot be read or the reconciliation fails. It is declined exactly when the gate declines, and it updates the notes otherwise. |
| Generator.UpdateNotesUpdated | ngen.py:117-167 | An update writes the notes as the reconciliation says. Masks are regenerated exactly when the renumbered drawing differs from the stored one or the occlusion type changed, and the tooltip shows the count as ngen.py:176 writes it. |
| Generator.NoteGenerator.constructor | ngen.py:71-87 | The generator starts with the drawing as `new_svg` and empty `mnode_indexes`, `mnode_ids` and `nids`. |
| Generator.NoteGenerator.GetMnodesAndSetIds | ngen.py:202-248 | Returns the prepared document and the mask layer's position, and fills `mnode_indexes` and `mnode_ids`, exactly as `Canon.GetMnodesAndSetIds` specifies. |
| Generator.NoteGenerator.MaskLayerLoop | ngen.py:215-246 | The loop over the mask layer's children computes the canonical layer step by step. |
| Generator.NoteGenerator.VisitChild | ngen.py:215-246 | One child: a mask node is kept or dropped, cleaned and recorded, in create mode under the next dense number. Any other child is kept as it is. |
| Generator.NoteGenerator.DeleteAndIdNotes | ngen.py:269-370 | Every shape gets its new id in the layer, in `mnode_ids` and in `nids`, exactly as the reconciliation specifies, and the result is the gate's decision. |
| Generator.NoteGenerator.RenumberAndGate | ngen.py:269-370 | Returns the renumbered document, the gate's decision, and the new `nids` and `mnode_ids`. |
| Generator.NoteGenerator.IdShapes | ngen.py:320-344 | The renumbering loop, exactly as `RenumberLoop` specifies. A missing `nid` for a kept shape is a KeyError. |
| Generator.NoteGenerator.CreateMask | ngen.py:378-387 | The mask of one shape on a fresh copy of `new_svg`, as the note type shapes it. |
| Generator.NoteGenerator.GenerateMasksFor | ngen.py:372-376 | The masks of all shapes, in `mnode_indexes` order, exactly `MasksFor`. |
| Generator.NoteGenerator.CollectNewNotes | ngen.py:110-113 | The note of each shape, with the id `mnode_ids` holds for it and its masks. |
| Generator.NoteGenerator.GenerateNotes | ngen.py:89-115 | Exactly `GenerateNotesSpec` of the drawing. It sets `uniq_id` from the clock and `occl_id` from it, and on success `new_svg` is the O mask. |
| Generator.NoteGenerator.MakeNotes | ngen.py:102-114 | The second half of `generateNotes` on the canonical `new_svg`: exactly the masked notes of the shapes and their ids. |
| Generator.NoteGenerator.UpdateNotes | ngen.py:117-167 | Exactly `UpdateNotesSpec` of the edited drawing, through `UpdateNotesByLoopIsSpec`. Once the notes are rewritten on a reset, `new_svg` is the renumbered O mask. |
| Generator.NoteGenerator.ApplyDecision | ngen.py:131-166 | A declined edit changes nothing more. An applied one writes the renumbered document back as `new_svg` and finishes the update. |
| Generator.NoteGenerator.FinishUpdate | ngen.py:138-166 | The second half of `updateNotes` on the renumbered `new_svg`: exactly the updated notes of the shapes, their ids and `nids`. |
| Generator.NoteGenerator.CollectNoteUpdates | ngen.py:151-165 | The id of each shape from `mnode_ids`, its `nid` from `nids` (a KeyError when missing) and its masks, exactly `NoteUpdates`. |
| Geometry.Trace | ngen.py:841 | A relative path visits one point per move plus its start. |
| Geometry.InverseWrapper | ngen.py:827-843 | A wrapper that is not a `rect` gives no frame. A frame has the given fill and the eleven moves of the path. |
| Geometry.InverseHole | ngen.py:841 | The path runs round the whole canvas, down to the wrapper's top, round the wrapper grown by 5 on every side, and back. |
| Geometry.InverseWrapperHole | ngen.py:827-843 | The hole of a frame is the wrapper's rectangle grown by 5 on every side. |
| Geometry.QwrapperBoxIsRect | ngen.py:1294-1300 | The crop box is found exactly when the wrapper's rectangle can be read, and it is that rectangle's edges. |
| Geometry.ReadAll | ngen.py:1810-1813 | A list comprehension of one attribute succeeds exactly when every element has it, and reads each element's value in order. |
| Geometry.Min | ngen.py:1810 | `sorted(xs)[0]` is a smallest value of the list, and is in it. |
| Geometry.Max | ngen.py:1812 | `sorted(xs)[-1]` is a largest value of the list, and is in it. |
| Geometry.SurroundingRectOk | ngen.py:1809-1814 | The surrounding box exists exactly when there is a sub-rectangle and every one can be read. |
| Geometry.SurroundingRectContains | ngen.py:1809-1814 | Every sub-rectangle lies inside the surrounding box. |
| Geometry.SurroundingRectTight | ngen.py:1809-1814 | Each edge of the box is an edge of some sub-rectangle, so no smaller box contains them all. |
| Geometry.SurroundingRectSingle | ngen.py:1809-1814 | Around a single wrapper the surrounding box is that wrapper's own crop box. |
| Geometry.Trunc | ngen.py:1291 | Python's `int` on a float truncates toward zero. |
| Geometry.PasteOffsetBounds | ngen.py:1291 | A question inside its wrapper is pasted at least one pixel in, and at most one pixel beyond its exact distance from the wrapper's edge. |
| SiIds.GetMnodesAndSetIds | ngen.py:1105-1173 | The document with its ids set and the three dicts. It fails where the layers cannot be read or, in edit mode, where a question has no `id`. |
| SiIds.RegularPass | ngen.py:1115-1132 | The pass over the regular layer; both counters start at 1. |
| SiIds.ReversePass | ngen.py:1135-1160 | The pass over the reverse layer, starting with the question number and card counter where the regular layer stopped. |
| SiIds.RegularPassIndexes | ngen.py:1115-1132 | `mnode_ids` is keyed by the odd children (the questions) of the regular layer, in layer order. |
| SiIds.RegularPassIds | ngen.py:1115-1132 | Each entry of `mnode_ids` holds the id recorded for its question. |
| SiIds.RegularPassCounters | ngen.py:1115-1132 | At create time both counters end one past the last wrapper of the regular layer. In edit mode they do not move. |
| SiIds.RegularPassTree | ngen.py:1115-1132 | After the pass every child of the regular layer is what its index and the wrappers before it make it. |
| SiIds.ItemsPassIndexes | ngen.py:1143-1153 | An inner dict of `rnode_ids` is keyed by the items that are not hiders, in order. |
| SiIds.ItemsPassIds | ngen.py:1143-1153 | Each entry holds its item's id, which at create time sits on the next card. |
| SiIds.ItemsPassCounter | ngen.py:1143-1153 | At create time the card counter advances once for every item that is not a hider. |
| SiIds.ReversePassIndexes | ngen.py:1135-1160 | `rnode_ids` is keyed by the odd children (the question sets) of the reverse layer, in order. |
| SiIds.ReversePassItems | ngen.py:1135-1160 | The inner dict of each question set is the pass over its items, started at the card counter the sets before it left. |
| SiIds.ReversePassSize | ngen.py:1135-1160 | Together the question sets hold one entry for every question inside them. |
| SiIds.ReversePassCounters | ngen.py:1135-1160 | At create time the card counter advances over every question inside a set, and the question number over every wrapper. |
| SiIds.ReversePassCards | ngen.py:1135-1160 | At create time the questions of all sets, one after the other, sit on consecutive cards. |
| SiIds.BlankPassIndexes | ngen.py:1163-1171 | `bnode_ids` is keyed by the children of the blank layer that are not titles, in order. |
| SiIds.BlankPassIds | ngen.py:1163-1171 | Entry `t` of `bnode_ids` holds the id of question `ques + t` on card `card + t` at create time. |
| SiIds.BlankPassCounters | ngen.py:1163-1171 | Both counters advance once for every child of the blank layer that is not a title, in either mode. |
| SiIds.SiEditLeavesDocument | ngen.py:1105-1173 | In edit mode the ids are only read and the document comes back as it was. |
| SiIds.SiRegularIds | ngen.py:1115-1132 | At create time the regular layer records its questions in order. The question at `i` is numbered one past the wrappers before it. |
| SiIds.SiReverseCards | ngen.py:1135-1160 | At create time the reverse questions sit on consecutive cards from where the regular layer's counter stopped. |
| SiIds.SiBlankCards | ngen.py:1163-1171 | At create time the blank questions sit on consecutive cards from where the reverse layer stopped, with question numbers running on from the regular layer's. |
| SiIds.SiCreateCounters | ngen.py:1105-1173 | At create time the regular layer ends one past its wrappers, and the reverse layer moves the card counter past all its questions. |
| SiIds.HidersUntouched | ngen.py:1143-1153 | A hider of a question set keeps its attributes and is not recorded, whether creating or editing. |
| SiIds.QuestionAndWrapperShareNumber | ngen.py:1115-1132 | A question at create time and the wrapper right after it carry the same number. |
| SiIds.IdsReadBack | ngen.py:584 | Every SI id made at create time reads back its card number. |
| SiRender.SweepAt | ngen.py:872-873 | A pass over the whole tree keeps every element's tag and child count, and touches its attributes exactly when its path is swept. |
| SiRender.FindInFirst | ngen.py:896 | The search for the question's class finds the first element, in tree order, that carries it. |
| SiRender.RegularPainted | ngen.py:872-887 | Everything is hidden, then the question is painted with its class, and with its colour where a fill exists. |
| SiRender.ReversePainted | ngen.py:978-990 | Everything is hidden, the question set is marked `qset`, then its question is painted `qshape`. |
| SiRender.Framed | ngen.py:909-910 | The frame is `inverse_wrapper`'s path. A missing frame cannot be appended, which is a TypeError. |
| SiRender.RegularMasks | ngen.py:862-965 | One mask per recorded regular question, in insertion order. The first failure ends the loop. |
| SiRender.ReverseMasks | ngen.py:967-1075 | One mask per reverse question, set by set. The question list stays bound from one set to the next. |
| SiRender.RegularPaintedAt | ngen.py:872-887 | At each element of a painted regular mask, everything is at opacity 0. The question has its class, and its colour where it has a fill. |
| SiRender.ReversePaintedAt | ngen.py:978-990 | At each element of a painted reverse mask, everything is at opacity 0. The set is a `qset`, and the question a `qshape` with its colour. |
| SiRender.RegularMaskFrame | ngen.py:909-910 | The frame of a regular mask is dark grey, an eleven-move path. |
| SiRender.ReverseMaskFrame | ngen.py:1071-1072 | The frame of a reverse mask is dark blue on the answer side, an eleven-move path. |
| SiRender.RegularMaskOpacity | ngen.py:862-965 | What a regular mask shows: the root, the three layers and their titles at full opacity, and everything else at opacity 0. A `rect` question is at 1 on the question side and 0.3 on the answer side. A `g` question is fully visible, its shapes at 1, or at 0.3 on the answer side except its hiders. |
| SiRender.ReverseMaskOpacity | ngen.py:967-1075 | What a reverse mask shows: the root, the layers, their titles and the question set at full opacity, and everything else at 0. The set's hiders are white hiders at 1, and the question is at 1 on the question side and 0.3 on the answer side. |
| SiRender.RegularMaskStyle | ngen.py:875-887 | In a regular mask every element is classed and coloured as `RegularStyle` says. |
| SiRender.ReverseMaskStyle | ngen.py:1009-1016 | In a reverse mask every element is classed and coloured as `ReverseStyle` says. |
| SiRender.RegularMasksAt | ngen.py:862-965 | A drawn list of regular masks holds at each position the mask of that question. From the second question on, it is drawn with the stale preserved set the loop carries over. |
| SiRender.RegularMasksFail | ngen.py:862-965 | The loop stops at the first question whose mask fails, with that question's error. |
| SiRender.RegularMasksOk | ngen.py:862-965 | When every question's mask is drawn, the whole list is drawn. |
| SiRender.ReverseMasksAt | ngen.py:967-1075 | A drawn list of reverse masks holds at each position the mask of that question, across question sets. |
| SiUpdate.QuestionIds | ngen.py:1207-1216 | The ids the note loops read: the regular questions first, then the reverse ones set by set. |
| SiUpdate.NoQuestionsIff | ngen.py:749 | The dicts hold no question exactly when the regular layer has no question child and the reverse layer no question set, in either mode. |
| SiUpdate.SiEditInLayers | ngen.py:1105-1173 | In edit mode the dicts point into the layers of the document they were read from, which comes back unchanged. |
| SiUpdate.SiCreateNamed | ngen.py:1115-1160 | At create time every regular and reverse question is given its id. |
| SiUpdate.RelabelNamed | ngen.py:617-710 | After `_deleteAndIdNotes` the dicts name every question by its new id, in shape order, and keep their positions. |
| SiUpdate.NoteMasks | ngen.py:771-774 | The four mask lists, built in order: regular Q, regular A, reverse Q, reverse A. The first failure is the result. |
| SiUpdate.NoteMasksAt | ngen.py:771-774 | Note `t` gets the question and answer mask of its own question: the regular mask of its shape, or the reverse mask of its set and item. |
| SiUpdate.AddedTooltipReadsBack | ngen.py:1217 | The total reads back from the head of the "added" tooltip. |
| SiUpdate.NewNotes | ngen.py:1207-1216 | One new note per question, with its masks. |
| SiUpdate.NewNotesIds | ngen.py:1207-1216 | The notes follow the dicts: regular questions first, then the reverse questions set by set, each new, with its question's id and masks. |
| SiUpdate.GenerateNotesOutcome | ngen.py:1175-1218 | `generateNotes` finds no cards exactly when the regular layer has no question and the reverse layer no question set. It fails exactly where the layers cannot be read or a mask cannot be drawn. |
| SiUpdate.GenerateNotesGenerated | ngen.py:1175-1218 | When cards are generated, the dicts were read in create mode and name every question by the id of its card. The O mask is the drawing after `strip_attr`, and the notes carry the masks of their questions. |
| SiUpdate.UpdateWritesRefresh | ngen.py:784-823 | Without new masks, and with every id in `nids`, each note is rewritten in place with its `nid`, one per question, in order. |
| SiUpdate.UpdateWritesReset | ngen.py:784-823 | With new masks, exactly the notes the collection does not hold yet are written, as new notes with their masks; the others are left as they are. |
| SiUpdate.UpdateWritesErrSticks | ngen.py:784-823 | Once a lookup has failed, the loops fail the same way. |
| SiUpdate.UpdateNotesApplied | ngen.py:754-825 | Past the confirmation, the outcome is `UpdatedSi` on the renumbered drawing after `strip_attr` and on the dicts relabelled with the new ids. |
| SiUpdate.AppliedDeletes | ngen.py:726-738 | An applied reconciliation deletes exactly the notes whose shapes are gone, and removes their `nid`s. |
| SiUpdate.UpdatedSiNotes | ngen.py:761-825 | When every id has its `nid`, the update fails exactly when a reset's masks fail. Unchanged masks rewrite every note in place; new masks write exactly the notes not yet held, with their question's masks. Blank questions never get a note, and the tooltip counts `mnode_ids` as ngen.py:547 writes it. |
| SiUpdate.UpdateNotesOutcome | ngen.py:740-825 | `updateNotes` stops with "No shapes left" exactly when there is no regular question and no question set. It is declined exactly when the gate declines. It fails where the layers cannot be read or the reconciliation fails, and otherwise only as `UpdatedSiNotes` states. |
| SiUpdate.ReconciledNamesHaveNids | ngen.py:617-710 | After reconciliation each question of the dicts is named by the id its shape got, and every such id has its entry in `nids`. |
| SiGen.ShapesOf | ngen.py:617-710 | The shapes the three renumbering loops visit, in their order: `mnode_ids`, then `rnode_ids` set by set, then `bnode_ids`. |
| SiGen.StepsIsSpec | ngen.py:617-710 | The pass over the first `k` shapes agrees with `Reconcile.SiDeleteAndIdNotes` on their ids and numbers. |
| SiGen.RunsAreSpec | ngen.py:617-710 | The runs over the three dicts, one after the other, are the numbering `Reconcile.SiDeleteAndIdNotes` states for all shapes. |
| SiGen.LayersAreSpec | ngen.py:617-710 | The layers and dicts rebuilt by the three loops are the renumbered layers and relabelled dicts for the ids of all shapes. |
| SiGen.SiDeleteAndIdNotesOk | ngen.py:556-738 | Once its lookups succeed, `Reconcile.SiDeleteAndIdNotes` is the numbering's ids and `nids` with the gate on the counts. |
| SiGen.FromIsSpec | ngen.py:556-738 | What the class computes from the existing ids on is the specification's outcome: the gate's decision, the new `nids`, the relabelled dicts and the renumbered layers. |
| SiGen.GetMnodesOk | ngen.py:1105-1173 | `SiIds.GetMnodesAndSetIds` is the three passes, each starting where the one before stopped. |
| SiGenerator.GetFailedIsSpec | ngen.py:748 | When the layers cannot be read, `updateNotes` fails with that error. |
| SiGenerator.NoShapesIsSpec | ngen.py:749-752 | With no regular question and no question set, `updateNotes` stops with "No shapes left". |
| SiGenerator.ReconcileFailedIsSpec | ngen.py:754 | When the reconciliation fails, `updateNotes` fails with its error. |
| SiGenerator.DeclinedIsSpec | ngen.py:754-757 | When the gate declines, `updateNotes` is declined. |
| SiGenerator.AppliedIsSpec | ngen.py:754-825 | On the applied path, `UpdateNotesSpec` is `UpdatedSi` on the renumbered drawing after `strip_attr`, the relabelled dicts and the reconciled `nids`, and every question is named. |
| SiGenerator.SiNoteGenerator.constructor | ngen.py:534-540 | The three dicts and `nids` start empty, with the drawing as `new_svg`. |
| SiGenerator.SiNoteGenerator.GetMnodesAndSetIds | ngen.py:1105-1173 | Sets `new_svg` and the three dicts exactly as `SiIds.GetMnodesAndSetIds` states, each dict pointing into the layers of that document. |
| SiGenerator.SiNoteGenerator.RegularLoop | ngen.py:1115-1132 | The loop over the regular layer computes exactly `SiIds.RegularPass`. |
| SiGenerator.SiNoteGenerator.ReverseLoop | ngen.py:1135-1160 | The loop over the reverse layer computes exactly `SiIds.ReversePass`. |
| SiGenerator.SiNoteGenerator.ReverseChild | ngen.py:1137-1160 | One child of the reverse layer: a group at an odd index is a question set, which records its inner dict and, at create time, gets its id and its items theirs; at create time a wrapper at an even index gets its id and class and advances `count_g`; any other child, titles included, is kept as it is. |
| SiGenerator.SiNoteGenerator.ItemsLoop | ngen.py:1143-1153 | The loop over one question set's items computes exactly `SiIds.ItemsPass`. |
| SiGenerator.SiNoteGenerator.BlankLoop | ngen.py:1163-1171 | The loop over the blank layer computes exactly `SiIds.BlankPass`. |
| SiGenerator.SiNoteGenerator.DeleteAndIdNotes | ngen.py:556-738 | Exactly what `Reconcile.SiDeleteAndIdNotes` states for the shapes of the three dicts. On success the dicts hold the new ids, `nids` has an entry for every new shape, the new shapes carry their ids in the layers, and the result is the gate's decision. |
| SiGenerator.SiNoteGenerator.DeleteAndIdNotesFrom | ngen.py:600-738 | From the existing ids and their card numbers on: renumber the layers, then decide through the gate. |
| SiGenerator.SiNoteGenerator.RenumberLayers | ngen.py:617-710 | The three loops, sharing `available_nrs`, `note_nr_max`, `new_count` and `nids`, compute the numbering, dicts and layers of `Reconcile.SiDeleteAndIdNotes`. |
| SiGenerator.SiNoteGenerator.RenumberEntries | ngen.py:620-642 | A new shape takes `available_nrs.pop(0)` or the next number past `note_nr_max`, and gets its edit-time id in the dict, in `nids` and on its element. The rest are left as they are. |
| SiGenerator.SiNoteGenerator.NextNr | ngen.py:627-635 | `available_nrs.pop(0)` when a number is free, else `note_nr_max + 1`, which becomes the new maximum. |
| SiGenerator.SiNoteGenerator.RenumberOne | ngen.py:621-642 | One entry of the loop: exactly one step of the numbering. |
| SiGenerator.SiNoteGenerator.RenumberQsets | ngen.py:653-676 | The items of each question set are renumbered inside the set's element. |
| SiGenerator.SiNoteGenerator.GenerateNotes | ngen.py:1175-1218 | Exactly `SiUpdate.GenerateNotesSpec` of the drawing, with `occl_id` from the clock. Once cards are generated, `new_svg` is the O mask. |
| SiGenerator.SiNoteGenerator.NewNotesLoop | ngen.py:1207-1216 | One new note per question with its masks, exactly `SiUpdate.NewNotes`. |
| SiGenerator.SiNoteGenerator.QuestionNames | ngen.py:1207-1216 | The note ids the two loops read from the dicts, exactly `SiUpdate.QuestionIds`. |
| SiGenerator.SiNoteGenerator.UpdateNotes | ngen.py:740-825 | Exactly `SiUpdate.UpdateNotesSpec` of the edited drawing, for the stored `uniq_id`. Once the notes are written, `new_svg` is the renumbered drawing after `strip_attr`. |
| SiGenerator.SiNoteGenerator.ApplyEdits | ngen.py:754-825 | Once the dicts hold a question: the reconciliation, the confirmation and the writing of the notes, exactly as `UpdateNotesSpec` says. |
| SiGenerator.SiNoteGenerator.WriteApplied | ngen.py:761-825 | After the confirmation, `new_svg` becomes the renumbered drawing after `strip_attr`, and the notes are written from it, exactly as `UpdateNotesSpec` says. |
| SiGenerator.SiNoteGenerator.WriteNotes | ngen.py:761-825 | The rest of `updateNotes` on the renumbered `new_svg` and the dicts: exactly `SiUpdate.UpdatedSi`. |
| SiGenerator.SiNoteGenerator.UpdateWritesLoop | ngen.py:784-823 | Each id's `nid` from `nids` (a KeyError when missing). Then a new note with its masks when the collection does not hold it yet, or the note rewritten in place when there are no new masks. |
| Template.Collected | template.py:881-887 | The collected additions are drawn from the table, each newer than the installed version, and are no more than the table holds. |
| Template.CollectedAppend | template.py:881-887 | Collecting distributes over concatenation, so the table's order is kept. |
| Template.CollectedIff | template.py:883-885 | An addition is collected exactly when it is in the table and its version is newer than the installed one. |
| Template.CollectedSingle | template.py:883-885 | A single entry is kept if and only if it is newer. |
| Template.UpToDateUnchanged | template.py:895-897 | When no entry is newer than the installed version, the formats and css are left as they are. |
| Template.ShippedUpgrade | template.py:818-823 | With the shipped table, a note type installed before 1.30 gets exactly the overlay script on both sides and the hiding css. One at 1.30 or later is unchanged. |
| Template.BuiltIn | template.py:840-859 | A short name has templates of its own exactly when it is `ao`, `oa`, `si` or `li`. |
| Template.BuiltInOwn | template.py:840-859 | Each of the four short names selects its own templates, and `sli` selects none. |
| Template.FieldFor | template.py:833-837 | The field for a key is named after its entry in `flds`, and only `note_id` gets size 0. |
| Template.IoModel.New | template.py:828 | A new note type has its name, no fields, no templates, the default css and sort field 0. |
| Template.IoModel.AddField | template.py:837 | Appends one field and changes nothing else. |
| Template.IoModel.AddTemplate | template.py:862 | Appends one template and changes nothing else. |
| Template.AddIoModel | template.py:826-864 | Fails with a KeyError exactly when some key of `fld_ids` is missing from `flds`. Otherwise it returns a fresh note type with one field per key, in order, and one template named after the card. A short name with templates of its own sets them, its css and sort field 1. |
| Template.CollectAdditions | template.py:881-887 | The three lists hold the qfmt, afmt and css of the collected additions, in lock-step and in table order. |
| Template.UpdateTemplate | template.py:878-899 | A missing note type is built afresh as `add_io_model` builds it. A note type without templates raises IndexError. Otherwise the first template's formats and the css become the old text followed directly by the collected additions joined by newlines. |

## Left out

- `Text.ParseReal` is narrower than Python's `float()`. It reads a plain decimal with an optional `+` or `-` sign: digits, optionally followed by a `.` and more digits (at least one digit in all, so `1.` and `.5` are read). It rejects exponents, surrounding whitespace, `inf`, `nan` and `_` separators, which `float()` accepts, so a `rect` with `width="1e2"` is an error in the model. Its value is the exact decimal, not the nearest double. It is used for the micro-shape filter (ngen.py:208-229) and for the geometry helpers.
- `Text.ParseNat` is narrower than Python's `int()`. It reads only plain digits, and rejects a sign, surrounding whitespace and `_` separators. In the model an id number such as `"+5"` is an error.
- `Canon.RatioTest`: coordinates are exact reals, not IEEE doubles, so the rounding of `100*h*w/carea <= 0.01` is not modelled. The test is exact, which can differ from the source only at the boundary.
- `Generator.UpdateNotesSpec`: the reset test compares trees (`doc' != original`, as `SiUpdate.UpdatedSi` does too), while ngen.py:138-140 and 766-770 compare the `toxml()`/`tostring()` text with the stored O mask read back from disk. The model assumes that serialisation is canonical: two documents serialise to the same text exactly when they are the same tree.
- `Geometry.InverseWrapper` returns the frame's relative moves, not the `d` path string. The frame that `SiRender.Framed` appends is a separate value, so the decimal formatting of the floats in `d` is not modelled.
- XML parsing and serialisation (minidom and ElementTree `toxml`, `tostring`, `fromstring`) are not modelled: documents and masks are trees. The SI generator writes `new_svg` and every mask as `remove_namespace(ET.tostring(...))` (ngen.py:762, 911, 1197); since the model keeps trees, `remove_namespace` is modelled on text only and the masks are not passed through it. No claim is made that its result is free of `ns0:`, since removing one occurrence can create another.
- The Anki collection and the files are not modelled:
  - `findNotes`/`getNote` become the `found` map and the `stored` set;
  - `remNotes` becomes the `removed` set of `nid`s an update reports;
  - `addNote`, `flush`, `media.addFile`, `mw.checkpoint` and `_saveMask`/`_save_img` file writes are left out;
  - `_getOriginalSvg` becomes the `original` parameter;
  - the tooltip display becomes the tooltip text;
  - the confirmation dialog becomes the `confirm` parameter;
  - `time.time()` becomes the `epochSecs` parameter.
- PIL raster work (`create_mask_img`, crops, pastes, rotations) is left out. Only the crop box, the surrounding box and the integer paste offset are modelled.
- The `IoGenLI` and `IoGenSLI` generators are not modelled, beyond the geometry helpers they call. Their known-broken paths (the blank mask tuple unpacking, the wrong arity on edit) are therefore out of the model too.
- `config.py`, `reset_template`, the template strings themselves and all logging are left out.
- `Dispatch.GenByKey` models the "Don't Change" branch, which recurses without its note type, as an error. Its intended behaviour is not modelled.
- The basic `_getMnodesAndSetIds` removes nodes from `childNodes` while enumerating them and corrects the index with `i - shift` (ngen.py:215-233). The model keeps the intended filter-then-number behaviour, not that index arithmetic.
- On an error path, the partial effects the source has already made (ids set on some nodes, `nids` entries moved), and the notes already written before a KeyError, are not part of the model's outcome. The methods' state after an `Err` is not specified.
- The generator methods require the instance dicts to be empty when they start, as a freshly constructed generator has them. Each of the source's generators runs one of its two operations once.
- SI `updateNotes` never refreshes the notes that already exist when a reset regenerates the masks (ngen.py:797-798). This is modelled as the source does it, and is not corrected.
- The SI tooltip counts `len(mnode_ids)` only, without the reverse questions (ngen.py:547). This is modelled as written.
- Element identity in the SI mask loops (`elm in preserved_shapes_all`, ngen.py:902-906) is modelled by tree paths. A question that is neither `rect` nor `g` leaves `preserved_shapes_ques` unbound on the first question, an UnboundLocalError. On a later question the list still holds elements of an earlier copy of the document, so the model has it match nothing in the new copy (plus, for reverse masks, the set's own hiders added at ngen.py:1000). `SiRender.RegularKeep` and `SiRender.ReverseKeep` state this; the masks such a question would have been meant to get are not stated.

## Findings

| source | as written | input that shows it | evidently intended | confidence | as-written member | corrected member |
|---|---|---|---|---|---|---|
| ngen.py:176 | `upd_count = max(0, len(self.mnode_indexes) - del_count - new_count)` | 3 shapes remain, all with notes, 1 note was deleted and 0 are new. The tooltip says 2 cards were edited in place, but 3 are. | Deleted notes are no longer among `mnode_indexes`, so the count should be the remaining shapes minus the new ones: `len(mnode_indexes) - new_count`. | not executed | Dispatch.UpdatedCountUndercounts | Generator.EditedInPlaceIsKept |

The outcomes of `updateNotes` in `Generator` and `SiUpdate` report the
count as ngen.py:176 and 547 write it (`Dispatch.UpdatedCountAsWritten`),
so the tooltip text is the one the add-on shows.
`Dispatch.UpdatedCountAsWrittenShortByDeleted` states by how much that
count falls short of `Dispatch.EditedInPlace`. `Generator.EditedInPlaceIsKept`
proves that `EditedInPlace` is exactly the number of notes kept.
