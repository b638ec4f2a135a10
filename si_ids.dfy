/** The SI generator reading and writing the ids of its shapes
    (`_getMnodesAndSetIds`, ngen.py:1105-1173).

    An SI document has at least three layers; counted from the top they hold
    the regular questions, the reverse question sets and the blank questions.
    Each layer is read child by child, in document order. When creating
    notes the shapes get their ids here, and the counters of questions and
    cards run on from one layer into the next; when editing, the ids the
    shapes already carry are recorded and the tree is left as it is. */
module SiIds {
  import opened Wrappers
  import opened Text
  import opened Svg
  import opened NoteIds
  import opened Numbering

  /** One item of `mnode_ids`, `bnode_ids` or of an inner dict of
      `rnode_ids`: the child's index in its layer (or in its question set)
      and the id recorded for it, `None` when an edited shape has none. */
  datatype Entry = Entry(index: nat, id: Option<string>)

  /** One item of `rnode_ids`: the index of a question set in the reverse
      layer and the questions recorded inside it. */
  datatype Qset = Qset(index: nat, items: seq<Entry>)

  /** `mnode_ids`, `rnode_ids` and `bnode_ids`, in insertion order, which is
      the order every later loop of the generator visits them in. */
  datatype Ids = Ids(regular: seq<Entry>, reverse: seq<Qset>, blank: seq<Entry>)

  /** `findall('*')`: the child elements (a text node has none). */
  function Kids(n: Node): seq<Node> { if n.Element? then n.children else [] }

  function WithKids(n: Node, cs: seq<Node>): (r: Node)
    ensures Kids(r) == (if n.Element? then cs else [])
    ensures TagOf(r) == TagOf(n) && AttrsOf(r) == AttrsOf(n)
  {
    if n.Element? then n.(children := cs) else n
  }

  predicate IsTitle(c: Node) { TagOf(c) == "title" }

  /** A hider of a question set: `q_elm.get('fill') == 'none'`. */
  predicate IsHider(c: Node) { GetAttr(c, "fill") == Some("none") }

  function IndexesOf(es: seq<Entry>): (r: seq<nat>)
    ensures |r| == |es| && forall t :: 0 <= t < |es| ==> r[t] == es[t].index
  {
    seq(|es|, t requires 0 <= t < |es| => es[t].index)
  }

  /** The question sets' entries one after the other, as the loops over
      `rnode_ids` and its inner dicts visit them. */
  function Flatten(qsets: seq<Qset>): (r: seq<Entry>)
  {
    if qsets == [] then [] else Flatten(qsets[..|qsets| - 1]) + Last(qsets).items
  }

  // ---------------------------------------------------------------- ids

  /** `"%s-qwrapper-%i" % (occl_id, k)`. */
  function QwrapperId(occl: string, k: nat): string { occl + "-qwrapper-" + NatToString(k) }

  /** `"%s-reverseq_qset%i" % (occl_id, k)`. */
  function QsetId(occl: string, k: nat): string { occl + "-reverseq_qset" + NatToString(k) }

  /** The id of the regular question numbered `k`; its card number is `k`
      too, zero-padded to three digits. */
  function RegularId(occl: string, k: nat): string {
    SiNoteId(occl, ZFill(NatToString(k), 3), RegularRole(k))
  }

  /** The id of item `item` of question set `ques` on card `card`. */
  function ReverseId(occl: string, card: nat, ques: nat, item: nat): string {
    SiNoteId(occl, ZFill(NatToString(card), 3), ReverseRole(ques, item))
  }

  /** The id of a blank question: its card number is not padded. */
  function BlankId(occl: string, card: nat, ques: nat): string {
    SiNoteId(occl, NatToString(card), BlankRole(ques))
  }

  /** A question wrapper gets its id and the class `qwrapper`. */
  function MarkWrapper(c: Node, id: string): Node {
    SetAttr(SetAttr(c, "id", id), "class", "qwrapper")
  }

  // ---------------------------------------------------------------- the regular layer

  /** The children of the layer read so far, the entries recorded and the
      two counters `count_ques` and `count_card`. */
  datatype Pass = Pass(children: seq<Node>, entries: seq<Entry>, ques: nat, card: nat)

  /** A question wrapper of the regular or the reverse layer: a child at an
      even index that is not a title. */
  predicate IsWrapper(c: Node, i: nat) { !IsTitle(c) && i % 2 == 0 }

  /** A question of the regular layer: a child at an odd index that is not a
      title. */
  predicate IsQuestion(c: Node, i: nat) { !IsTitle(c) && i % 2 == 1 }

  /** The id recorded for a regular question (ngen.py:1119-1124): at create
      time the one made from the two counters, when editing the one it has. */
  function RegularQuestionId(c: Node, edit: bool, occl: string, ques: nat, card: nat): Option<string> {
    if edit then GetAttr(c, "id") else Some(SiNoteId(occl, ZFill(NatToString(card), 3), RegularRole(ques)))
  }

  /** What child `c` at index `i` of the regular layer becomes (ngen.py:1117-1133),
      the counters standing at `ques` and `card`. */
  function RegularNode(c: Node, i: nat, edit: bool, occl: string, ques: nat, card: nat): Node {
    if edit || IsTitle(c) then c
    else if i % 2 == 1 then SetAttr(c, "id", RegularQuestionId(c, edit, occl, ques, card).value)
    else MarkWrapper(c, QwrapperId(occl, ques))
  }

  /** What `mnode_ids` records for that child. */
  function RegularRecord(c: Node, i: nat, edit: bool, occl: string, ques: nat, card: nat): seq<Entry> {
    if IsQuestion(c, i) then [Entry(i, RegularQuestionId(c, edit, occl, ques, card))] else []
  }

  /** One child of the regular layer: only a wrapper, and only at create
      time, advances the counters. */
  function RegularStep(st: Pass, c: Node, edit: bool, occl: string): Pass {
    var i := |st.children|;
    var inc := if !edit && IsWrapper(c, i) then 1 else 0;
    Pass(st.children + [RegularNode(c, i, edit, occl, st.ques, st.card)],
         st.entries + RegularRecord(c, i, edit, occl, st.ques, st.card),
         st.ques + inc, st.card + inc)
  }

  /** The regular layer read from the first child; both counters start at 1. */
  function RegularPass(cs: seq<Node>, edit: bool, occl: string): (r: Pass)
    ensures |r.children| == |cs|
  {
    if cs == [] then Pass([], [], 1, 1)
    else RegularStep(RegularPass(cs[..|cs| - 1], edit, occl), Last(cs), edit, occl)
  }

  // ---------------------------------------------------------------- the reverse layer

  /** The items of one question set read so far and the card counter. */
  datatype Items = Items(children: seq<Node>, entries: seq<Entry>, card: nat)

  /** The id recorded for item `j` of a question set (ngen.py:1143-1152). */
  function ItemId(q: Node, j: nat, edit: bool, occl: string, ques: nat, card: nat): Option<string> {
    if edit then GetAttr(q, "id") else Some(ReverseId(occl, card, ques, j + 1))
  }

  /** What item `q` at index `j` of a question set becomes: a hider is left
      alone. */
  function ItemNode(q: Node, j: nat, edit: bool, occl: string, ques: nat, card: nat): Node {
    if edit || IsHider(q) then q else SetAttr(q, "id", ItemId(q, j, edit, occl, ques, card).value)
  }

  function ItemRecord(q: Node, j: nat, edit: bool, occl: string, ques: nat, card: nat): seq<Entry> {
    if IsHider(q) then [] else [Entry(j, ItemId(q, j, edit, occl, ques, card))]
  }

  /** One item of a question set: every item but a hider is a question, and
      at create time it takes the next card number. */
  function ItemStep(st: Items, q: Node, edit: bool, occl: string, ques: nat): Items {
    var j := |st.children|;
    Items(st.children + [ItemNode(q, j, edit, occl, ques, st.card)],
          st.entries + ItemRecord(q, j, edit, occl, ques, st.card),
          st.card + (if !edit && !IsHider(q) then 1 else 0))
  }

  function ItemsPass(qs: seq<Node>, edit: bool, occl: string, ques: nat, card: nat): (r: Items)
    ensures |r.children| == |qs|
  {
    if qs == [] then Items([], [], card)
    else ItemStep(ItemsPass(qs[..|qs| - 1], edit, occl, ques, card), Last(qs), edit, occl, ques)
  }

  /** The reverse layer read so far: its children, the question sets, the
      card counter and `count_g`. */
  datatype RPass = RPass(children: seq<Node>, qsets: seq<Qset>, card: nat, g: nat)

  /** A question set: a group at an odd index of the reverse layer. */
  predicate IsQset(c: Node, i: nat) { !IsTitle(c) && i % 2 == 1 && TagOf(c) == "g" }

  /** What child `c` at index `i` of the reverse layer becomes
      (ngen.py:1136-1159): a question set gets its id and its items theirs,
      a wrapper its id and class. */
  function ReverseNode(c: Node, i: nat, edit: bool, occl: string, ques: nat, card: nat, g: nat): Node {
    if IsQset(c, i) then
      WithKids(if edit then c else SetAttr(c, "id", QsetId(occl, g)), ItemsPass(Kids(c), edit, occl, ques, card).children)
    else if !edit && IsWrapper(c, i) then MarkWrapper(c, QwrapperId(occl, g))
    else c
  }

  function ReverseRecord(c: Node, i: nat, edit: bool, occl: string, ques: nat, card: nat): seq<Qset> {
    if IsQset(c, i) then [Qset(i, ItemsPass(Kids(c), edit, occl, ques, card).entries)] else []
  }

  function ReverseCardAfter(c: Node, i: nat, edit: bool, occl: string, ques: nat, card: nat): nat {
    if IsQset(c, i) then ItemsPass(Kids(c), edit, occl, ques, card).card else card
  }

  /** One child of the reverse layer: `count_g` advances at each wrapper at
      create time, the card counter over the items of each question set. */
  function ReverseStep(st: RPass, c: Node, edit: bool, occl: string, ques: nat): RPass {
    var i := |st.children|;
    RPass(st.children + [ReverseNode(c, i, edit, occl, ques, st.card, st.g)],
          st.qsets + ReverseRecord(c, i, edit, occl, ques, st.card),
          ReverseCardAfter(c, i, edit, occl, ques, st.card),
          st.g + (if !edit && IsWrapper(c, i) then 1 else 0))
  }

  /** The reverse layer, read with the question number and the card counter
      the regular layer ended with; `count_g` starts at 1. */
  function ReversePass(cs: seq<Node>, edit: bool, occl: string, ques: nat, card: nat): (r: RPass)
    ensures |r.children| == |cs|
  {
    if cs == [] then RPass([], [], card, 1)
    else ReverseStep(ReversePass(cs[..|cs| - 1], edit, occl, ques, card), Last(cs), edit, occl, ques)
  }

  // ---------------------------------------------------------------- the blank layer

  function BlankQuestionId(c: Node, edit: bool, occl: string, ques: nat, card: nat): Option<string> {
    if edit then GetAttr(c, "id") else Some(BlankId(occl, card, ques))
  }

  /** What child `c` of the blank layer becomes (ngen.py:1162-1171). */
  function BlankNode(c: Node, edit: bool, occl: string, ques: nat, card: nat): Node {
    if edit || IsTitle(c) then c else SetAttr(c, "id", BlankId(occl, card, ques))
  }

  function BlankRecord(c: Node, i: nat, edit: bool, occl: string, ques: nat, card: nat): seq<Entry> {
    if IsTitle(c) then [] else [Entry(i, BlankQuestionId(c, edit, occl, ques, card))]
  }

  /** One child of the blank layer: every child but a title is a question,
      and both counters advance in either mode. */
  function BlankStep(st: Pass, c: Node, edit: bool, occl: string): Pass {
    var i := |st.children|;
    var inc := if IsTitle(c) then 0 else 1;
    Pass(st.children + [BlankNode(c, edit, occl, st.ques, st.card)],
         st.entries + BlankRecord(c, i, edit, occl, st.ques, st.card),
         st.ques + inc, st.card + inc)
  }

  function BlankPass(cs: seq<Node>, edit: bool, occl: string, ques: nat, card: nat): (r: Pass)
    ensures |r.children| == |cs|
  {
    if cs == [] then Pass([], [], ques, card)
    else BlankStep(BlankPass(cs[..|cs| - 1], edit, occl, ques, card), Last(cs), edit, occl)
  }

  // ---------------------------------------------------------------- the three layers

  /** `_layerNodesFrom` and the indexing after it (ngen.py:1093-1102,
      1109-1111): the root must be an `svg` whose last child is a `g`, and
      there must be three layers. */
  function LayerCheck(doc: Node): Result<nat> {
    if TagOf(doc) != "svg" || |Kids(doc)| == 0 || TagOf(Last(Kids(doc))) != "g" then Err(BadLayers)
    else if |Kids(doc)| < 3 then Err(IndexOutOfRange)
    else Ok(|Kids(doc)|)
  }

  /** The regular, reverse and blank layers: the last three children. */
  function RegularLayer(doc: Node): Node
    requires LayerCheck(doc).Ok?
  {
    doc.children[|doc.children| - 1]
  }

  function ReverseLayer(doc: Node): Node
    requires LayerCheck(doc).Ok?
  {
    doc.children[|doc.children| - 2]
  }

  function BlankLayer(doc: Node): Node
    requires LayerCheck(doc).Ok?
  {
    doc.children[|doc.children| - 3]
  }

  /** The pass over each layer, each starting from where the one before
      stopped. */
  function SiRegular(doc: Node, edit: bool, occl: string): Pass
    requires LayerCheck(doc).Ok?
  {
    RegularPass(Kids(RegularLayer(doc)), edit, occl)
  }

  function SiReverse(doc: Node, edit: bool, occl: string): RPass
    requires LayerCheck(doc).Ok?
  {
    var m := SiRegular(doc, edit, occl);
    ReversePass(Kids(ReverseLayer(doc)), edit, occl, m.ques, m.card)
  }

  function SiBlank(doc: Node, edit: bool, occl: string): Pass
    requires LayerCheck(doc).Ok?
  {
    BlankPass(Kids(BlankLayer(doc)), edit, occl, SiRegular(doc, edit, occl).ques, SiReverse(doc, edit, occl).card)
  }

  /** `_getMnodesAndSetIds(edit)`: the document with its ids set and the
      three records. The dicts start empty, as on a fresh generator. */
  function GetMnodesAndSetIds(doc: Node, edit: bool, occl: string): (r: Result<(Node, Ids)>)
    ensures r.Err? <==> LayerCheck(doc).Err?
    ensures r.Err? ==> r.error == LayerCheck(doc).error
    ensures r.Ok? ==> r.value.1 == Ids(SiRegular(doc, edit, occl).entries, SiReverse(doc, edit, occl).qsets, SiBlank(doc, edit, occl).entries)
  {
    match LayerCheck(doc)
    case Err(e) => Err(e)
    case Ok(n) =>
      var m, rv, b := SiRegular(doc, edit, occl), SiReverse(doc, edit, occl), SiBlank(doc, edit, occl);
      var layers := doc.children[n - 1 := WithKids(RegularLayer(doc), m.children)][n - 2 := WithKids(ReverseLayer(doc), rv.children)][n - 3 := WithKids(BlankLayer(doc), b.children)];
      Ok((doc.(children := layers), Ids(m.entries, rv.qsets, b.entries)))
  }

  // ---------------------------------------------------------------- the children a pass picks

  /** The kinds of child the passes record or count. */
  datatype Pick = PickQuestion | PickWrapper | PickItem | PickNonTitle | PickQset

  predicate Picks(k: Pick, c: Node, i: nat) {
    match k
    case PickQuestion => IsQuestion(c, i)
    case PickWrapper => IsWrapper(c, i)
    case PickItem => !IsHider(c)
    case PickNonTitle => !IsTitle(c)
    case PickQset => IsQset(c, i)
  }

  /** The indexes of the children of kind `k`, in order. */
  function Picked(cs: seq<Node>, k: Pick): seq<nat> {
    if cs == [] then []
    else Picked(cs[..|cs| - 1], k) + (if Picks(k, Last(cs), |cs| - 1) then [|cs| - 1] else [])
  }

  /** Every picked index is a child of kind `k`. */
  lemma {:induction false} PickedSound(cs: seq<Node>, k: Pick)
    ensures forall t :: 0 <= t < |Picked(cs, k)| ==>
      Picked(cs, k)[t] < |cs| && Picks(k, cs[Picked(cs, k)[t]], Picked(cs, k)[t])
  {
    if cs != [] {
      var init := cs[..|cs| - 1];
      PickedSound(init, k);
      forall t | 0 <= t < |Picked(init, k)| ensures cs[Picked(init, k)[t]] == init[Picked(init, k)[t]] {
      }
    }
  }

  /** The picked indexes are in layer order. */
  lemma {:induction false} PickedAscending(cs: seq<Node>, k: Pick)
    ensures Ascending(Picked(cs, k))
  {
    if cs != [] {
      var init := cs[..|cs| - 1];
      PickedAscending(init, k);
      if Picks(k, Last(cs), |init|) {
        PickedSound(init, k);
        AscendingAppend(Picked(init, k), |init|);
      } else {
        assert Picked(cs, k) == Picked(init, k);
      }
    }
  }

  /** Every child of kind `k` is picked. */
  lemma {:induction false} PickedComplete(cs: seq<Node>, k: Pick, i: nat)
    requires i < |cs| && Picks(k, cs[i], i)
    ensures i in Picked(cs, k)
  {
    var init := cs[..|cs| - 1];
    if i < |init| {
      assert cs[i] == init[i];
      PickedComplete(init, k, i);
    }
  }

  /** The picks of a prefix are a prefix of the picks. */
  lemma {:induction false} PickedPrefix(cs: seq<Node>, k: Pick, j: nat)
    requires j <= |cs|
    ensures Picked(cs[..j], k) <= Picked(cs, k)
    decreases |cs|
  {
    if j < |cs| {
      var init := cs[..|cs| - 1];
      assert cs[..j] == init[..j];
      PickedPrefix(init, k, j);
    } else {
      assert cs[..j] == cs;
    }
  }

  /** The `t`-th picked child has exactly `t` picks before it. */
  lemma PickedRank(cs: seq<Node>, k: Pick, t: nat)
    requires t < |Picked(cs, k)|
    ensures Picked(cs, k)[t] < |cs| && |Picked(cs[..Picked(cs, k)[t]], k)| == t
  {
    var p := Picked(cs, k);
    var i := p[t];
    PickedSound(cs, k);
    PickedAscending(cs, k);
    PickedPrefix(cs, k, i);
    PickedPrefix(cs, k, i + 1);
    var before := Picked(cs[..i], k);
    var upto := Picked(cs[..i + 1], k);
    assert cs[..i + 1][..i] == cs[..i];
    assert upto == before + [i] by {
      assert cs[..i + 1][i] == cs[i];
    }
    assert p[|before|] == i;
    if |before| < t {
      AscendingAt(p, |before|, t);
    } else if |before| > t {
      AscendingAt(p, t, |before|);
    }
  }

  /** The wrappers among `cs`. */
  function WrapperCount(cs: seq<Node>): nat { |Picked(cs, PickWrapper)| }

  /** The items of a question set that are not hiders. */
  function NonHiders(qs: seq<Node>): nat { |Picked(qs, PickItem)| }

  /** The children that are not titles. */
  function NonTitleCount(cs: seq<Node>): nat { |Picked(cs, PickNonTitle)| }

  /** The questions inside all the question sets of `cs`. */
  function ReverseItemCount(cs: seq<Node>): nat {
    if cs == [] then 0
    else ReverseItemCount(cs[..|cs| - 1]) + (if IsQset(Last(cs), |cs| - 1) then NonHiders(Kids(Last(cs))) else 0)
  }

  /** `count_ques` of the regular layer, and `count_g` of the reverse layer,
      once the children `cs` are read: one more than the wrappers among them
      at create time, 1 when editing. */
  function WrapperCounter(cs: seq<Node>, edit: bool): nat {
    if edit then 1 else 1 + WrapperCount(cs)
  }

  /** The card counter once the items `qs` of a question set are read. */
  function ItemCounter(qs: seq<Node>, edit: bool, card: nat): nat {
    card + (if edit then 0 else NonHiders(qs))
  }

  /** The card counter once the children `cs` of the reverse layer are read. */
  function ReverseCounter(cs: seq<Node>, edit: bool, card: nat): nat {
    card + (if edit then 0 else ReverseItemCount(cs))
  }

  function QsetIndexes(qsets: seq<Qset>): (r: seq<nat>)
    ensures |r| == |qsets| && forall s :: 0 <= s < |qsets| ==> r[s] == qsets[s].index
  {
    seq(|qsets|, s requires 0 <= s < |qsets| => qsets[s].index)
  }

  lemma IndexesOfAppend(es: seq<Entry>, more: seq<Entry>)
    ensures IndexesOf(es + more) == IndexesOf(es) + IndexesOf(more)
  {
  }

  /** Dropping the last child keeps the earlier children and their prefixes. */
  lemma InitAt(cs: seq<Node>, j: nat)
    requires j + 1 < |cs|
    ensures cs[..|cs| - 1][j] == cs[j] && cs[..|cs| - 1][..j] == cs[..j]
  {
  }
  // ---------------------------------------------------------------- the regular layer, child by child

  /** Child `j` of the regular layer as the counters find it. */
  function RegularChild(cs: seq<Node>, j: nat, edit: bool, occl: string): Node
    requires j < |cs|
  {
    var k := WrapperCounter(cs[..j], edit);
    RegularNode(cs[j], j, edit, occl, k, k)
  }

  lemma RegularChildInit(cs: seq<Node>, j: nat, edit: bool, occl: string)
    requires j + 1 < |cs|
    ensures RegularChild(cs[..|cs| - 1], j, edit, occl) == RegularChild(cs, j, edit, occl)
  {
    InitAt(cs, j);
  }

  /** Both counters of the regular layer end one past its last wrapper at
      create time, and stay at 1 when editing. */
  lemma {:induction false} RegularPassCounters(cs: seq<Node>, edit: bool, occl: string)
    ensures RegularPass(cs, edit, occl).ques == WrapperCounter(cs, edit)
    ensures RegularPass(cs, edit, occl).card == WrapperCounter(cs, edit)
  {
    if cs != [] {
      RegularPassCounters(cs[..|cs| - 1], edit, occl);
    }
  }

  /** The regular layer after the pass: every child is what its own index
      and the wrappers before it make of it. */
  lemma {:induction false} RegularPassTree(cs: seq<Node>, edit: bool, occl: string)
    ensures var r := RegularPass(cs, edit, occl);
      forall j :: 0 <= j < |cs| ==> r.children[j] == RegularChild(cs, j, edit, occl)
  {
    if cs != [] {
      var init := cs[..|cs| - 1];
      var st := RegularPass(init, edit, occl);
      RegularPassTree(init, edit, occl);
      RegularPassCounters(init, edit, occl);
      assert cs[..|init|] == init;
      assert RegularPass(cs, edit, occl).children == st.children + [RegularChild(cs, |init|, edit, occl)];
      var r := RegularPass(cs, edit, occl);
      forall j | 0 <= j < |cs| ensures r.children[j] == RegularChild(cs, j, edit, occl) {
        if j < |init| {
          assert r.children[j] == st.children[j];
          RegularChildInit(cs, j, edit, occl);
        }
      }
    }
  }

  /** `mnode_ids` is keyed by the questions of the layer, in layer order. */
  lemma {:induction false} RegularPassIndexes(cs: seq<Node>, edit: bool, occl: string)
    ensures IndexesOf(RegularPass(cs, edit, occl).entries) == Picked(cs, PickQuestion)
  {
    if cs != [] {
      var init := cs[..|cs| - 1];
      var st := RegularPass(init, edit, occl);
      RegularPassIndexes(init, edit, occl);
      var rec := RegularRecord(cs[|init|], |init|, edit, occl, st.ques, st.card);
      assert RegularPass(cs, edit, occl).entries == st.entries + rec;
      IndexesOfAppend(st.entries, rec);
      assert IndexesOf(rec) == if Picks(PickQuestion, cs[|init|], |init|) then [|init|] else [];
      assert Picked(cs, PickQuestion) == Picked(init, PickQuestion) + (if Picks(PickQuestion, cs[|init|], |init|) then [|init|] else []);
    }
  }

  /** The id an entry of `mnode_ids` holds for the question at its index. */
  predicate RegularEntryId(cs: seq<Node>, e: Entry, edit: bool, occl: string)
    requires e.index < |cs|
  {
    var k := WrapperCounter(cs[..e.index], edit);
    e.id == RegularQuestionId(cs[e.index], edit, occl, k, k)
  }

  /** Each entry of `mnode_ids` holds the id recorded for its question. */
  lemma {:induction false} RegularPassIds(cs: seq<Node>, edit: bool, occl: string)
    ensures var r := RegularPass(cs, edit, occl);
      forall t :: 0 <= t < |r.entries| ==> r.entries[t].index < |cs|
    ensures var r := RegularPass(cs, edit, occl);
      forall t :: 0 <= t < |r.entries| ==> r.entries[t].index < |cs| && RegularEntryId(cs, r.entries[t], edit, occl)
  {
    RegularPassIndexes(cs, edit, occl);
    PickedSound(cs, PickQuestion);
    if cs != [] {
      var init := cs[..|cs| - 1];
      var i := |init|;
      RegularPassIds(init, edit, occl);
      RegularPassCounters(init, edit, occl);
      var st := RegularPass(init, edit, occl);
      var r := RegularPass(cs, edit, occl);
      assert cs[..i] == init;
      assert r.entries == st.entries + RegularRecord(cs[i], i, edit, occl, st.ques, st.card);
      forall t | 0 <= t < |st.entries| ensures RegularEntryId(cs, st.entries[t], edit, occl) {
        InitAt(cs, st.entries[t].index);
      }
    }
  }

  // ---------------------------------------------------------------- a question set, item by item

  function ItemChild(qs: seq<Node>, j: nat, edit: bool, occl: string, ques: nat, card: nat): Node
    requires j < |qs|
  {
    ItemNode(qs[j], j, edit, occl, ques, ItemCounter(qs[..j], edit, card))
  }

  lemma ItemChildInit(qs: seq<Node>, j: nat, edit: bool, occl: string, ques: nat, card: nat)
    requires j + 1 < |qs|
    ensures ItemChild(qs[..|qs| - 1], j, edit, occl, ques, card) == ItemChild(qs, j, edit, occl, ques, card)
  {
    InitAt(qs, j);
  }

  /** At create time the card counter advances once for every item that is
      not a hider. */
  lemma {:induction false} ItemsPassCounter(qs: seq<Node>, edit: bool, occl: string, ques: nat, card: nat)
    ensures ItemsPass(qs, edit, occl, ques, card).card == ItemCounter(qs, edit, card)
  {
    if qs != [] {
      ItemsPassCounter(qs[..|qs| - 1], edit, occl, ques, card);
    }
  }

  /** The items after the pass over a question set. */
  lemma {:induction false} ItemsPassTree(qs: seq<Node>, edit: bool, occl: string, ques: nat, card: nat)
    ensures var r := ItemsPass(qs, edit, occl, ques, card);
      forall j :: 0 <= j < |qs| ==> r.children[j] == ItemChild(qs, j, edit, occl, ques, card)
  {
    if qs != [] {
      var init := qs[..|qs| - 1];
      var st := ItemsPass(init, edit, occl, ques, card);
      ItemsPassTree(init, edit, occl, ques, card);
      ItemsPassCounter(init, edit, occl, ques, card);
      assert qs[..|init|] == init;
      assert ItemsPass(qs, edit, occl, ques, card).children == st.children + [ItemChild(qs, |init|, edit, occl, ques, card)];
      var r := ItemsPass(qs, edit, occl, ques, card);
      forall j | 0 <= j < |qs| ensures r.children[j] == ItemChild(qs, j, edit, occl, ques, card) {
        if j < |init| {
          assert r.children[j] == st.children[j];
          ItemChildInit(qs, j, edit, occl, ques, card);
        }
      }
    }
  }

  /** An inner dict of `rnode_ids` is keyed by the items that are not
      hiders, in order. */
  lemma {:induction false} ItemsPassIndexes(qs: seq<Node>, edit: bool, occl: string, ques: nat, card: nat)
    ensures IndexesOf(ItemsPass(qs, edit, occl, ques, card).entries) == Picked(qs, PickItem)
  {
    if qs != [] {
      var init := qs[..|qs| - 1];
      var st := ItemsPass(init, edit, occl, ques, card);
      ItemsPassIndexes(init, edit, occl, ques, card);
      var rec := ItemRecord(qs[|init|], |init|, edit, occl, ques, st.card);
      assert ItemsPass(qs, edit, occl, ques, card).entries == st.entries + rec;
      IndexesOfAppend(st.entries, rec);
      assert IndexesOf(rec) == if Picks(PickItem, qs[|init|], |init|) then [|init|] else [];
      assert Picked(qs, PickItem) == Picked(init, PickItem) + (if Picks(PickItem, qs[|init|], |init|) then [|init|] else []);
    }
  }

  /** Entry `t` of an inner dict holds the id of its item, which at create
      time sits on card `card + t`. */
  lemma {:induction false} ItemsPassIds(qs: seq<Node>, edit: bool, occl: string, ques: nat, card: nat)
    ensures var r := ItemsPass(qs, edit, occl, ques, card);
      forall t :: 0 <= t < |r.entries| ==> r.entries[t].index < |qs|
    ensures var r := ItemsPass(qs, edit, occl, ques, card);
      forall t :: 0 <= t < |r.entries| ==>
        r.entries[t].index < |qs|
        && r.entries[t].id == ItemId(qs[r.entries[t].index], r.entries[t].index, edit, occl, ques, card + (if edit then 0 else t))
  {
    ItemsPassIndexes(qs, edit, occl, ques, card);
    PickedSound(qs, PickItem);
    if qs != [] {
      var init := qs[..|qs| - 1];
      var j := |init|;
      ItemsPassIds(init, edit, occl, ques, card);
      ItemsPassCounter(init, edit, occl, ques, card);
      ItemsPassIndexes(init, edit, occl, ques, card);
      var st := ItemsPass(init, edit, occl, ques, card);
      var r := ItemsPass(qs, edit, occl, ques, card);
      assert |st.entries| == NonHiders(init);
      assert r.entries == st.entries + ItemRecord(qs[j], j, edit, occl, ques, st.card);
      forall t | 0 <= t < |st.entries| ensures qs[st.entries[t].index] == init[st.entries[t].index] {
        InitAt(qs, st.entries[t].index);
      }
    }
  }

  // ---------------------------------------------------------------- the blank layer, child by child

  function BlankChild(cs: seq<Node>, j: nat, edit: bool, occl: string, ques: nat, card: nat): Node
    requires j < |cs|
  {
    BlankNode(cs[j], edit, occl, ques + NonTitleCount(cs[..j]), card + NonTitleCount(cs[..j]))
  }

  lemma BlankChildInit(cs: seq<Node>, j: nat, edit: bool, occl: string, ques: nat, card: nat)
    requires j + 1 < |cs|
    ensures BlankChild(cs[..|cs| - 1], j, edit, occl, ques, card) == BlankChild(cs, j, edit, occl, ques, card)
  {
    InitAt(cs, j);
  }

  /** Both counters advance once for every child of the blank layer that is
      not a title, in either mode. */
  lemma {:induction false} BlankPassCounters(cs: seq<Node>, edit: bool, occl: string, ques: nat, card: nat)
    ensures BlankPass(cs, edit, occl, ques, card).ques == ques + NonTitleCount(cs)
    ensures BlankPass(cs, edit, occl, ques, card).card == card + NonTitleCount(cs)
  {
    if cs != [] {
      BlankPassCounters(cs[..|cs| - 1], edit, occl, ques, card);
    }
  }

  /** The blank layer after the pass. */
  lemma {:induction false} BlankPassTree(cs: seq<Node>, edit: bool, occl: string, ques: nat, card: nat)
    ensures var r := BlankPass(cs, edit, occl, ques, card);
      forall j :: 0 <= j < |cs| ==> r.children[j] == BlankChild(cs, j, edit, occl, ques, card)
  {
    if cs != [] {
      var init := cs[..|cs| - 1];
      var st := BlankPass(init, edit, occl, ques, card);
      BlankPassTree(init, edit, occl, ques, card);
      BlankPassCounters(init, edit, occl, ques, card);
      assert cs[..|init|] == init;
      var r := BlankPass(cs, edit, occl, ques, card);
      assert r.children == st.children + [BlankChild(cs, |init|, edit, occl, ques, card)];
      forall j | 0 <= j < |cs| ensures r.children[j] == BlankChild(cs, j, edit, occl, ques, card) {
        if j < |init| {
          assert r.children[j] == st.children[j];
          BlankChildInit(cs, j, edit, occl, ques, card);
        }
      }
    }
  }

  /** `bnode_ids` is keyed by the children that are not titles, in order. */
  lemma {:induction false} BlankPassIndexes(cs: seq<Node>, edit: bool, occl: string, ques: nat, card: nat)
    ensures IndexesOf(BlankPass(cs, edit, occl, ques, card).entries) == Picked(cs, PickNonTitle)
  {
    if cs != [] {
      var init := cs[..|cs| - 1];
      var st := BlankPass(init, edit, occl, ques, card);
      BlankPassIndexes(init, edit, occl, ques, card);
      var rec := BlankRecord(cs[|init|], |init|, edit, occl, st.ques, st.card);
      assert BlankPass(cs, edit, occl, ques, card).entries == st.entries + rec;
      IndexesOfAppend(st.entries, rec);
      assert IndexesOf(rec) == if Picks(PickNonTitle, cs[|init|], |init|) then [|init|] else [];
      assert Picked(cs, PickNonTitle) == Picked(init, PickNonTitle) + (if Picks(PickNonTitle, cs[|init|], |init|) then [|init|] else []);
    }
  }

  /** Entry `t` of `bnode_ids` holds the id of question `ques + t` on card
      `card + t` at create time, the id its shape has when editing. */
  lemma {:induction false} BlankPassIds(cs: seq<Node>, edit: bool, occl: string, ques: nat, card: nat)
    ensures var r := BlankPass(cs, edit, occl, ques, card);
      forall t :: 0 <= t < |r.entries| ==> r.entries[t].index < |cs|
    ensures var r := BlankPass(cs, edit, occl, ques, card);
      forall t :: 0 <= t < |r.entries| ==>
        r.entries[t].index < |cs|
        && r.entries[t].id == BlankQuestionId(cs[r.entries[t].index], edit, occl, ques + t, card + t)
  {
    if cs != [] {
      var init := cs[..|cs| - 1];
      var i := |init|;
      BlankPassIds(init, edit, occl, ques, card);
      BlankPassCounters(init, edit, occl, ques, card);
      BlankPassIndexes(init, edit, occl, ques, card);
      var st := BlankPass(init, edit, occl, ques, card);
      var r := BlankPass(cs, edit, occl, ques, card);
      assert |st.entries| == NonTitleCount(init);
      assert r.entries == st.entries + BlankRecord(cs[i], i, edit, occl, st.ques, st.card);
      forall t | 0 <= t < |r.entries|
        ensures r.entries[t].index < |cs|
        ensures r.entries[t].id == BlankQuestionId(cs[r.entries[t].index], edit, occl, ques + t, card + t)
      {
        if t < |st.entries| {
          assert r.entries[t] == st.entries[t];
          InitAt(cs, st.entries[t].index);
        } else {
          assert r.entries[t] == Entry(i, BlankQuestionId(cs[i], edit, occl, st.ques, st.card));
        }
      }
    }
  }

  // ---------------------------------------------------------------- the reverse layer, child by child

  /** Child `j` of the reverse layer as the counters find it. */
  function ReverseChild(cs: seq<Node>, j: nat, edit: bool, occl: string, ques: nat, card: nat): Node
    requires j < |cs|
  {
    ReverseNode(cs[j], j, edit, occl, ques, ReverseCounter(cs[..j], edit, card), WrapperCounter(cs[..j], edit))
  }

  lemma ReverseChildInit(cs: seq<Node>, j: nat, edit: bool, occl: string, ques: nat, card: nat)
    requires j + 1 < |cs|
    ensures ReverseChild(cs[..|cs| - 1], j, edit, occl, ques, card) == ReverseChild(cs, j, edit, occl, ques, card)
  {
    InitAt(cs, j);
  }

  /** At create time the card counter advances over every question inside a
      question set and `count_g` once for every wrapper; when editing
      neither moves. */
  lemma {:induction false} ReversePassCounters(cs: seq<Node>, edit: bool, occl: string, ques: nat, card: nat)
    ensures ReversePass(cs, edit, occl, ques, card).card == ReverseCounter(cs, edit, card)
    ensures ReversePass(cs, edit, occl, ques, card).g == WrapperCounter(cs, edit)
  {
    if cs != [] {
      var init := cs[..|cs| - 1];
      var st := ReversePass(init, edit, occl, ques, card);
      ReversePassCounters(init, edit, occl, ques, card);
      ItemsPassCounter(Kids(Last(cs)), edit, occl, ques, st.card);
    }
  }

  /** The reverse layer after the pass. */
  lemma {:induction false} ReversePassTree(cs: seq<Node>, edit: bool, occl: string, ques: nat, card: nat)
    ensures var r := ReversePass(cs, edit, occl, ques, card);
      forall j :: 0 <= j < |cs| ==> r.children[j] == ReverseChild(cs, j, edit, occl, ques, card)
  {
    if cs != [] {
      var init := cs[..|cs| - 1];
      var st := ReversePass(init, edit, occl, ques, card);
      ReversePassTree(init, edit, occl, ques, card);
      ReversePassCounters(init, edit, occl, ques, card);
      assert cs[..|init|] == init;
      var r := ReversePass(cs, edit, occl, ques, card);
      assert r.children == st.children + [ReverseChild(cs, |init|, edit, occl, ques, card)];
      forall j | 0 <= j < |cs| ensures r.children[j] == ReverseChild(cs, j, edit, occl, ques, card) {
        if j < |init| {
          assert r.children[j] == st.children[j];
          ReverseChildInit(cs, j, edit, occl, ques, card);
        }
      }
    }
  }

  lemma QsetIndexesAppend(qsets: seq<Qset>, more: seq<Qset>)
    ensures QsetIndexes(qsets + more) == QsetIndexes(qsets) + QsetIndexes(more)
  {
  }

  /** `rnode_ids` is keyed by the question sets of the layer, in order. */
  lemma {:induction false} ReversePassIndexes(cs: seq<Node>, edit: bool, occl: string, ques: nat, card: nat)
    ensures QsetIndexes(ReversePass(cs, edit, occl, ques, card).qsets) == Picked(cs, PickQset)
  {
    if cs != [] {
      var init := cs[..|cs| - 1];
      var st := ReversePass(init, edit, occl, ques, card);
      var i := |init|;
      ReversePassIndexes(init, edit, occl, ques, card);
      var rec := ReverseRecord(cs[i], i, edit, occl, ques, st.card);
      assert |st.children| == i && Last(cs) == cs[i];
      assert ReversePass(cs, edit, occl, ques, card).qsets == st.qsets + rec;
      assert QsetIndexes(rec) == if IsQset(cs[i], i) then [i] else [];
      assert Picked(cs, PickQset) == Picked(init, PickQset) + if IsQset(cs[i], i) then [i] else [];
      QsetIndexesAppend(st.qsets, rec);
    }
  }

  /** The inner dict of each question set is the pass over its items,
      started at the card counter that set finds. */
  lemma {:induction false} ReversePassItems(cs: seq<Node>, edit: bool, occl: string, ques: nat, card: nat)
    ensures var r := ReversePass(cs, edit, occl, ques, card);
      forall s :: 0 <= s < |r.qsets| ==> r.qsets[s].index < |cs|
    ensures var r := ReversePass(cs, edit, occl, ques, card);
      forall s :: 0 <= s < |r.qsets| ==>
        r.qsets[s].index < |cs|
        && r.qsets[s].items == ItemsPass(Kids(cs[r.qsets[s].index]), edit, occl, ques, ReverseCounter(cs[..r.qsets[s].index], edit, card)).entries
  {
    ReversePassIndexes(cs, edit, occl, ques, card);
    PickedSound(cs, PickQset);
    if cs != [] {
      var init := cs[..|cs| - 1];
      var i := |init|;
      ReversePassItems(init, edit, occl, ques, card);
      ReversePassCounters(init, edit, occl, ques, card);
      var st := ReversePass(init, edit, occl, ques, card);
      var r := ReversePass(cs, edit, occl, ques, card);
      assert cs[..i] == init;
      assert r.qsets == st.qsets + ReverseRecord(cs[i], i, edit, occl, ques, st.card);
      forall s | 0 <= s < |r.qsets|
        ensures r.qsets[s].items == ItemsPass(Kids(cs[r.qsets[s].index]), edit, occl, ques, ReverseCounter(cs[..r.qsets[s].index], edit, card)).entries
      {
        if s < |st.qsets| {
          assert r.qsets[s] == st.qsets[s];
          InitAt(cs, st.qsets[s].index);
        }
      }
    }
  }

  /** Together the question sets hold one entry for every question inside
      them. */
  lemma {:induction false} ReversePassSize(cs: seq<Node>, edit: bool, occl: string, ques: nat, card: nat)
    ensures |Flatten(ReversePass(cs, edit, occl, ques, card).qsets)| == ReverseItemCount(cs)
  {
    if cs != [] {
      var init := cs[..|cs| - 1];
      var st := ReversePass(init, edit, occl, ques, card);
      ReversePassSize(init, edit, occl, ques, card);
      var r := ReversePass(cs, edit, occl, ques, card);
      var rec := ReverseRecord(cs[|init|], |init|, edit, occl, ques, st.card);
      assert r.qsets == st.qsets + rec;
      if rec != [] {
        assert r.qsets[..|r.qsets| - 1] == st.qsets;
        ItemsPassIndexes(Kids(cs[|init|]), edit, occl, ques, st.card);
      } else {
        assert r.qsets == st.qsets;
      }
    }
  }

  /** Entry `p` of `f` is a question numbered from `card` on. */
  ghost predicate OnCards(f: seq<Entry>, occl: string, ques: nat, card: nat) {
    forall p :: 0 <= p < |f| ==> f[p].id == Some(ReverseId(occl, card + p, ques, f[p].index + 1))
  }

  lemma OnCardsAppend(f: seq<Entry>, g: seq<Entry>, occl: string, ques: nat, card: nat)
    requires OnCards(f, occl, ques, card) && OnCards(g, occl, ques, card + |f|)
    ensures OnCards(f + g, occl, ques, card)
  {
    forall p | 0 <= p < |f + g| ensures (f + g)[p].id == Some(ReverseId(occl, card + p, ques, (f + g)[p].index + 1)) {
      if p >= |f| {
        assert (f + g)[p] == g[p - |f|];
      }
    }
  }

  /** At create time the questions of one set sit on consecutive cards. */
  lemma ItemsOnCards(qs: seq<Node>, occl: string, ques: nat, card: nat)
    ensures OnCards(ItemsPass(qs, false, occl, ques, card).entries, occl, ques, card)
  {
    ItemsPassIds(qs, false, occl, ques, card);
  }

  lemma FlattenPush(qsets: seq<Qset>, q: Qset)
    ensures Flatten(qsets + [q]) == Flatten(qsets) + q.items
  {
    assert (qsets + [q])[..|qsets|] == qsets;
  }

  /** One more child keeps the questions read so far on consecutive cards. */
  lemma ReverseStepCards(st: RPass, c: Node, occl: string, ques: nat, card: nat)
    requires OnCards(Flatten(st.qsets), occl, ques, card)
    requires st.card == card + |Flatten(st.qsets)|
    ensures OnCards(Flatten(ReverseStep(st, c, false, occl, ques).qsets), occl, ques, card)
  {
    var i := |st.children|;
    if IsQset(c, i) {
      var items := ItemsPass(Kids(c), false, occl, ques, st.card).entries;
      FlattenPush(st.qsets, Qset(i, items));
      ItemsOnCards(Kids(c), occl, ques, st.card);
      OnCardsAppend(Flatten(st.qsets), items, occl, ques, card);
    } else {
      assert ReverseStep(st, c, false, occl, ques).qsets == st.qsets;
    }
  }

  /** At create time the questions of all sets, one after the other, sit on
      consecutive cards from `card` on. */
  lemma {:induction false} ReversePassCards(cs: seq<Node>, occl: string, ques: nat, card: nat)
    ensures OnCards(Flatten(ReversePass(cs, false, occl, ques, card).qsets), occl, ques, card)
  {
    if cs != [] {
      var init := cs[..|cs| - 1];
      ReversePassCards(init, occl, ques, card);
      ReversePassCounters(init, false, occl, ques, card);
      ReversePassSize(init, false, occl, ques, card);
      ReverseStepCards(ReversePass(init, false, occl, ques, card), Last(cs), occl, ques, card);
    }
  }

  // ---------------------------------------------------------------- editing leaves the document alone

  lemma RegularEditKeeps(cs: seq<Node>, occl: string)
    ensures RegularPass(cs, true, occl).children == cs
  {
    RegularPassTree(cs, true, occl);
  }

  lemma ItemsEditKeeps(qs: seq<Node>, occl: string, ques: nat, card: nat)
    ensures ItemsPass(qs, true, occl, ques, card).children == qs
  {
    ItemsPassTree(qs, true, occl, ques, card);
  }

  lemma ReverseEditKeeps(cs: seq<Node>, occl: string, ques: nat, card: nat)
    ensures ReversePass(cs, true, occl, ques, card).children == cs
  {
    ReversePassTree(cs, true, occl, ques, card);
    var r := ReversePass(cs, true, occl, ques, card);
    forall j | 0 <= j < |cs| ensures r.children[j] == cs[j] {
      var c := cs[j];
      if IsQset(c, j) {
        ItemsEditKeeps(Kids(c), occl, ques, ReverseCounter(cs[..j], true, card));
      }
    }
  }

  lemma BlankEditKeeps(cs: seq<Node>, occl: string, ques: nat, card: nat)
    ensures BlankPass(cs, true, occl, ques, card).children == cs
  {
    BlankPassTree(cs, true, occl, ques, card);
  }

  /** When editing, the ids are only read: the document comes back as it
      was. */
  lemma SiEditLeavesDocument(doc: Node, occl: string)
    ensures var r := GetMnodesAndSetIds(doc, true, occl);
      r.Ok? ==> r.value.0 == doc
  {
    if LayerCheck(doc).Ok? {
      var m := SiRegular(doc, true, occl);
      RegularEditKeeps(Kids(RegularLayer(doc)), occl);
      ReverseEditKeeps(Kids(ReverseLayer(doc)), occl, m.ques, m.card);
      BlankEditKeeps(Kids(BlankLayer(doc)), occl, m.ques, SiReverse(doc, true, occl).card);
    }
  }

  // ---------------------------------------------------------------- creating: one counter across the layers

  /** At create time the regular layer records its questions, in order, the
      question at `i` numbered one past the wrappers before it. */
  lemma SiRegularIds(doc: Node, occl: string)
    ensures var r := GetMnodesAndSetIds(doc, false, occl);
      r.Ok? ==>
        var cs := Kids(RegularLayer(doc));
        var ids := r.value.1;
        && IndexesOf(ids.regular) == Picked(cs, PickQuestion)
        && (forall t :: 0 <= t < |ids.regular| ==>
              ids.regular[t].index < |cs|
              && ids.regular[t].id == Some(RegularId(occl, 1 + WrapperCount(cs[..ids.regular[t].index]))))
  {
    if LayerCheck(doc).Ok? {
      RegularPassIndexes(Kids(RegularLayer(doc)), false, occl);
      RegularCreateIds(Kids(RegularLayer(doc)), occl);
    }
  }

  /** At create time the questions of all reverse sets sit on consecutive
      cards from where the regular layer's counter stopped, all with the
      question number the regular layer ended on. */
  lemma SiReverseCards(doc: Node, occl: string)
    ensures var r := GetMnodesAndSetIds(doc, false, occl);
      r.Ok? ==>
        var w := 1 + WrapperCount(Kids(RegularLayer(doc)));
        OnCards(Flatten(r.value.1.reverse), occl, w, w)
  {
    if LayerCheck(doc).Ok? {
      var m := SiRegular(doc, false, occl);
      RegularPassCounters(Kids(RegularLayer(doc)), false, occl);
      ReversePassCards(Kids(ReverseLayer(doc)), occl, m.ques, m.card);
    }
  }

  /** At create time the blank questions sit on consecutive cards from where
      the reverse layer stopped, with question numbers running on from the
      regular layer's. */
  lemma {:induction false} SiBlankCards(doc: Node, occl: string)
    ensures var r := GetMnodesAndSetIds(doc, false, occl);
      r.Ok? ==>
        var w := 1 + WrapperCount(Kids(RegularLayer(doc)));
        BlankNumbered(r.value.1.blank, occl, w + |Flatten(r.value.1.reverse)|, w)
  {
    if LayerCheck(doc).Ok? {
      var ids := GetMnodesAndSetIds(doc, false, occl).value.1;
      SiBlankCardsOn(doc, occl, ids.blank, ids.reverse, 1 + WrapperCount(Kids(RegularLayer(doc))));
    }
  }

  lemma {:induction false} SiBlankCardsOn(doc: Node, occl: string, es: seq<Entry>, qsets: seq<Qset>, w: nat)
    requires LayerCheck(doc).Ok?
    requires es == SiBlank(doc, false, occl).entries && qsets == SiReverse(doc, false, occl).qsets
    requires w == 1 + WrapperCount(Kids(RegularLayer(doc)))
    ensures BlankNumbered(es, occl, w + |Flatten(qsets)|, w)
  {
    BlankStart(doc, occl, qsets, w);
    var ques, card := SiRegular(doc, false, occl).ques, SiReverse(doc, false, occl).card;
    assert es == BlankPass(Kids(BlankLayer(doc)), false, occl, ques, card).entries;
    BlankCardsFrom(Kids(BlankLayer(doc)), occl, ques, card, es, w, |Flatten(qsets)|);
  }

  /** At create time the blank layer starts at question `w` on card `w`
      plus the number of reverse questions. */
  lemma {:induction false} BlankStart(doc: Node, occl: string, qsets: seq<Qset>, w: nat)
    requires LayerCheck(doc).Ok?
    requires qsets == SiReverse(doc, false, occl).qsets
    requires w == 1 + WrapperCount(Kids(RegularLayer(doc)))
    ensures SiRegular(doc, false, occl).ques == w && SiReverse(doc, false, occl).card == w + |Flatten(qsets)|
  {
    SiCreateCounters(doc, occl);
  }

  /** At create time the regular layer ends on one past its wrappers, and
      the reverse layer moves the card counter on by the number of reverse
      questions it records. */
  lemma SiCreateCounters(doc: Node, occl: string)
    requires LayerCheck(doc).Ok?
    ensures var w := 1 + WrapperCount(Kids(RegularLayer(doc)));
      && SiRegular(doc, false, occl).ques == w
      && SiRegular(doc, false, occl).card == w
      && SiReverse(doc, false, occl).card == w + |Flatten(SiReverse(doc, false, occl).qsets)|
  {
    var m := SiRegular(doc, false, occl);
    RegularPassCounters(Kids(RegularLayer(doc)), false, occl);
    ReversePassCounters(Kids(ReverseLayer(doc)), false, occl, m.ques, m.card);
    ReversePassSize(Kids(ReverseLayer(doc)), false, occl, m.ques, m.card);
  }

  /** At create time the regular questions carry the ids of their numbers. */
  lemma RegularCreateIds(cs: seq<Node>, occl: string)
    ensures var es := RegularPass(cs, false, occl).entries;
      forall t :: 0 <= t < |es| ==>
        es[t].index < |cs| && es[t].id == Some(RegularId(occl, 1 + WrapperCount(cs[..es[t].index])))
  {
    RegularPassIds(cs, false, occl);
  }

  /** Blank question `t` of `es` is question `q0 + t` on card `c0 + t`. */
  ghost predicate BlankNumbered(es: seq<Entry>, occl: string, c0: nat, q0: nat) {
    forall t :: 0 <= t < |es| ==> es[t].id == Some(BlankId(occl, c0 + t, q0 + t))
  }

  /** At create time, starting at question `w` on card `w + n`, blank
      question `t` is question `w + t` on card `w + n + t`. */
  lemma {:induction false} BlankCardsFrom(cs: seq<Node>, occl: string, ques: nat, card: nat, es: seq<Entry>, w: nat, n: nat)
    requires es == BlankPass(cs, false, occl, ques, card).entries && ques == w && card == w + n
    ensures BlankNumbered(es, occl, w + n, w)
  {
    BlankPassIds(cs, false, occl, ques, card);
  }

  /** A hider of a question set keeps its attributes and is not recorded,
      whether creating or editing. */
  lemma HidersUntouched(qs: seq<Node>, edit: bool, occl: string, ques: nat, card: nat, j: nat)
    requires j < |qs| && IsHider(qs[j])
    ensures ItemsPass(qs, edit, occl, ques, card).children[j] == qs[j]
    ensures j !in IndexesOf(ItemsPass(qs, edit, occl, ques, card).entries)
  {
    ItemsPassTree(qs, edit, occl, ques, card);
    ItemsPassIndexes(qs, edit, occl, ques, card);
    PickedSound(qs, PickItem);
  }

  /** A question at create time and the wrapper right after it carry the
      same number. */
  lemma QuestionAndWrapperShareNumber(cs: seq<Node>, occl: string, i: nat)
    requires i + 1 < |cs| && IsQuestion(cs[i], i) && !IsTitle(cs[i + 1])
    ensures var k := 1 + WrapperCount(cs[..i]);
      && RegularChild(cs, i, false, occl) == SetAttr(cs[i], "id", RegularId(occl, k))
      && RegularChild(cs, i + 1, false, occl) == MarkWrapper(cs[i + 1], QwrapperId(occl, k))
  {
    var a := cs[..i + 1];
    assert a[..i] == cs[..i];
    assert Picked(a, PickWrapper) == Picked(cs[..i], PickWrapper);
  }

  /** Every SI id made at create time reads back its card number. */
  lemma IdsReadBack(occl: string, k: nat, card: nat, ques: nat, item: nat)
    ensures SiCardNr(RegularId(occl, k)) == Some(k)
    ensures SiCardNr(ReverseId(occl, card, ques, item)) == Some(card)
    ensures SiCardNr(BlankId(occl, card, ques)) == Some(card)
  {
    RolesHaveNoDash(k, ques, item);
    RolesHaveNoDash(ques, ques, item);
    SiCardNrRoundTrip(occl, k, 3, RegularRole(k));
    SiCardNrRoundTrip(occl, card, 3, ReverseRole(ques, item));
    assert ZFill(NatToString(card), 0) == NatToString(card);
    SiCardNrRoundTrip(occl, card, 0, BlankRole(ques));
  }
}
