/** An abstract SVG document: the element tree that minidom and ElementTree
    hand the generator, without parsing or serialisation. Tags are plain
    local names (`rect`, `g`, `title`, ...); the `{http://www.w3.org/2000/svg}`
    prefix ElementTree adds (`_ns`, ngen.py:1082-1084) belongs to the parser.

    Elements are addressed by their path of child indexes from the root,
    which is how the model tells elements apart where the source compares
    element objects by identity. */
module Svg {
  import opened Wrappers
  import opened Text

  datatype Node =
    | Element(tag: string, attrs: map<string, string>, children: seq<Node>)
    | Text(data: string)    // a minidom text node (whitespace between elements)

  type Path = seq<nat>

  function GetAttr(n: Node, k: string): Option<string> {
    if n.Element? && k in n.attrs then Some(n.attrs[k]) else None
  }

  /** `setAttribute` / `set`; a text node has no attributes to set. */
  function SetAttr(n: Node, k: string, v: string): (r: Node)
    ensures r.Element? == n.Element?
  {
    if n.Element? then n.(attrs := n.attrs[k := v]) else n
  }

  /** `float(elm.get(k))` or `float(node.attributes[k].value)`: a missing
      attribute raises (TypeError or KeyError), an unreadable one a
      ValueError. */
  function FloatAttr(n: Node, k: string): Result<real> {
    match GetAttr(n, k)
    case None => Err(MissingAttribute(k))
    case Some(v) =>
      match ParseReal(v)
      case None => Err(NotANumber(v))
      case Some(x) => Ok(x)
  }

  function TagOf(n: Node): string { if n.Element? then n.tag else "" }

  function AttrsOf(n: Node): map<string, string> { if n.Element? then n.attrs else map[] }

  predicate ValidPath(n: Node, p: Path)
    decreases p
  {
    |p| == 0 || (n.Element? && p[0] < |n.children| && ValidPath(n.children[p[0]], p[1..]))
  }

  function At(n: Node, p: Path): Node
    requires ValidPath(n, p)
    decreases p
  {
    if |p| == 0 then n else At(n.children[p[0]], p[1..])
  }

  /** Two trees with the same nodes in the same places, whatever their
      attributes: the same paths are valid in both, and the same paths lead to
      elements, with the same tags. */
  ghost predicate SameShape(a: Node, b: Node) {
    forall p :: ValidPath(a, p) <==> ValidPath(b, p)
  }

  // ---------------------------------------------------------------- _removeAttribsRecursively

  /** `_removeAttribsRecursively(node, attrs)` (ngen.py:401-408): drop the
      given attributes from an element and from all its descendants. */
  function RemoveAttribs(n: Node, keys: set<string>): Node
    decreases n
  {
    match n
    case Text(_) => n
    case Element(tag, attrs, cs) =>
      Element(tag, attrs - keys, seq(|cs|, i requires 0 <= i < |cs| => RemoveAttribs(cs[i], keys)))
  }

  /** At every position, the element keeps its tag and loses exactly the
      listed attributes; text nodes and the tree's shape are untouched. */
  lemma {:induction false} RemoveAttribsAt(n: Node, keys: set<string>, p: Path)
    ensures ValidPath(RemoveAttribs(n, keys), p) <==> ValidPath(n, p)
    ensures ValidPath(n, p) ==>
      var r := At(RemoveAttribs(n, keys), p);
      var o := At(n, p);
      && r.Element? == o.Element?
      && TagOf(r) == TagOf(o)
      && AttrsOf(r) == AttrsOf(o) - keys
      && (o.Text? ==> r == o)
    decreases p
  {
    if |p| > 0 && n.Element? && p[0] < |n.children| {
      RemoveAttribsAt(n.children[p[0]], keys, p[1..]);
    }
  }

  // ---------------------------------------------------------------- _setQuestionAttribs

  /** `_setQuestionAttribs(node)` (ngen.py:391-399): every element outside a
      `text` element gets `class="qshape"`, and its `fill`, if it has one,
      becomes the question colour; a `text` element and everything below it
      is left alone. */
  function SetQuestionAttribs(n: Node, qfill: string): Node
    decreases n
  {
    match n
    case Text(_) => n
    case Element(tag, attrs, cs) =>
      if tag == "text" then n
      else
        var a := attrs["class" := "qshape"];
        Element(tag, if "fill" in attrs then a["fill" := qfill] else a,
                seq(|cs|, i requires 0 <= i < |cs| => SetQuestionAttribs(cs[i], qfill)))
  }

  /** No element on the way from `n` down to the end of `p`, the end
      included, is a `text` element (or a text node). */
  predicate TextFree(n: Node, p: Path)
    requires ValidPath(n, p)
    decreases p
  {
    n.Element? && n.tag != "text" && (|p| == 0 || TextFree(n.children[p[0]], p[1..]))
  }

  /** What `_setQuestionAttribs` does at each position: outside text
      subtrees, class becomes qshape, fill is replaced where, and only where,
      it exists, no other attribute changes; inside a text subtree nothing
      changes. */
  lemma {:induction false} SetQuestionAttribsAt(n: Node, qfill: string, p: Path)
    ensures ValidPath(SetQuestionAttribs(n, qfill), p) <==> ValidPath(n, p)
    ensures ValidPath(n, p) ==>
      var r := At(SetQuestionAttribs(n, qfill), p);
      var o := At(n, p);
      && r.Element? == o.Element?
      && TagOf(r) == TagOf(o)
      && (!TextFree(n, p) ==> r == o)
      && (TextFree(n, p) ==>
            && AttrsOf(r).Keys == AttrsOf(o).Keys + {"class"}
            && AttrsOf(r)["class"] == "qshape"
            && ("fill" in AttrsOf(o) ==> AttrsOf(r)["fill"] == qfill)
            && (forall k :: k in AttrsOf(o) && k != "class" && k != "fill" ==> AttrsOf(r)[k] == AttrsOf(o)[k]))
    decreases p
  {
    if |p| > 0 && n.Element? && p[0] < |n.children| {
      SetQuestionAttribsAt(n.children[p[0]], qfill, p[1..]);
      if n.tag == "text" {
        assert SetQuestionAttribs(n, qfill) == n;
      }
    }
  }

  /** Styling a question shape twice is the same as styling it once. */
  lemma {:induction false} SetQuestionAttribsIdempotent(n: Node, qfill: string)
    ensures SetQuestionAttribs(SetQuestionAttribs(n, qfill), qfill) == SetQuestionAttribs(n, qfill)
    decreases n
  {
    match n
    case Text(_) =>
    case Element(tag, attrs, cs) =>
      if tag != "text" {
        var once := SetQuestionAttribs(n, qfill);
        forall i | 0 <= i < |cs|
          ensures SetQuestionAttribs(once.children[i], qfill) == once.children[i]
        {
          SetQuestionAttribsIdempotent(cs[i], qfill);
        }
        assert SetQuestionAttribs(once, qfill).children == once.children;
      }
  }

  // ---------------------------------------------------------------- strip_attr

  /** `strip_attr` (ngen.py:1086-1091): every element loses the listed
      attributes, except an element whose attributes are all listed, which
      keeps them all (the stripped map would be empty). */
  function StripAttr(n: Node, keys: set<string>): Node
    decreases n
  {
    match n
    case Text(_) => n
    case Element(tag, attrs, cs) =>
      var stripped := attrs - keys;
      Element(tag, if |stripped| > 0 then stripped else attrs,
              seq(|cs|, i requires 0 <= i < |cs| => StripAttr(cs[i], keys)))
  }

  lemma {:induction false} StripAttrAt(n: Node, keys: set<string>, p: Path)
    ensures ValidPath(StripAttr(n, keys), p) <==> ValidPath(n, p)
    ensures ValidPath(n, p) ==>
      var r := At(StripAttr(n, keys), p);
      var o := At(n, p);
      && r.Element? == o.Element?
      && TagOf(r) == TagOf(o)
      && (AttrsOf(o).Keys <= keys ==> AttrsOf(r) == AttrsOf(o))
      && (!(AttrsOf(o).Keys <= keys) ==> AttrsOf(r) == AttrsOf(o) - keys)
    decreases p
  {
    if |p| == 0 {
      if n.Element? {
        var stripped := n.attrs - keys;
        assert |stripped| > 0 <==> !(n.attrs.Keys <= keys) by {
          if !(n.attrs.Keys <= keys) {
            var k :| k in n.attrs && k !in keys;
            assert k in stripped;
          }
        }
      }
    } else if n.Element? && p[0] < |n.children| {
      StripAttrAt(n.children[p[0]], keys, p[1..]);
    }
  }

  /** After `strip_attr` no element keeps a listed attribute beside an
      unlisted one: either all its keys are listed or none is. */
  lemma StripAttrClean(n: Node, keys: set<string>)
    ensures forall p :: ValidPath(StripAttr(n, keys), p) ==>
      AttrsOf(At(StripAttr(n, keys), p)).Keys <= keys || AttrsOf(At(StripAttr(n, keys), p)).Keys !! keys
  {
    forall p | ValidPath(StripAttr(n, keys), p)
      ensures AttrsOf(At(StripAttr(n, keys), p)).Keys <= keys || AttrsOf(At(StripAttr(n, keys), p)).Keys !! keys
    {
      StripAttrAt(n, keys, p);
    }
  }

  /** Stripping a second time changes nothing. */
  lemma {:induction false} StripAttrIdempotent(n: Node, keys: set<string>)
    ensures StripAttr(StripAttr(n, keys), keys) == StripAttr(n, keys)
    decreases n
  {
    if n.Element? {
      var once := StripAttr(n, keys);
      forall i | 0 <= i < |n.children| ensures StripAttr(once.children[i], keys) == once.children[i] {
        StripAttrIdempotent(n.children[i], keys);
      }
      var stripped := n.attrs - keys;
      if |stripped| > 0 {
        assert stripped - keys == stripped;
      }
    }
  }

  // ---------------------------------------------------------------- remove_namespace

  /** `remove_namespace` (ngen.py:1077-1080): `''.join(re.split("ns0:|:ns0", s))`,
      that is, every non-overlapping occurrence of `ns0:` or `:ns0`, found from
      left to right, is cut out. */
  function RemoveNamespace(s: string): (r: string)
    ensures |r| <= |s| && (|s| - |r|) % 4 == 0
  {
    if |s| >= 4 && (s[..4] == "ns0:" || s[..4] == ":ns0") then RemoveNamespace(s[4..])
    else if |s| == 0 then s
    else [s[0]] + RemoveNamespace(s[1..])
  }

  /** An occurrence of `ns0:` or `:ns0` starts at index `i`. */
  predicate NamespaceAt(s: string, i: nat)
    requires i + 4 <= |s|
  {
    s[i..i + 4] == "ns0:" || s[i..i + 4] == ":ns0"
  }

  /** A document without `ns0:` and `:ns0` passes through unchanged. */
  lemma {:induction false} RemoveNamespaceNoMatch(s: string)
    requires forall i: nat :: i + 4 <= |s| ==> !NamespaceAt(s, i)
    ensures RemoveNamespace(s) == s
  {
    if |s| > 0 {
      if |s| >= 4 {
        assert !NamespaceAt(s, 0);
        assert s[..4] == s[0..4];
      }
      var t := s[1..];
      forall i: nat | i + 4 <= |t|
        ensures !NamespaceAt(t, i)
      {
        assert !NamespaceAt(s, i + 1);
        assert t[i..i + 4] == s[i + 1..i + 5];
      }
      RemoveNamespaceNoMatch(t);
      assert [s[0]] + t == s;
    }
  }

  /** The prefix the serialiser writes on every tag is cut out. */
  lemma RemoveNamespacePrefix(s: string)
    ensures RemoveNamespace("ns0:" + s) == RemoveNamespace(s)
  {
    assert ("ns0:" + s)[..4] == "ns0:";
    assert ("ns0:" + s)[4..] == s;
  }
}
