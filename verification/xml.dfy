/** An already-parsed XML element tree and the few ElementPath queries the extraction uses:
    child paths ("nature/label"), the descendant search ".//tag" and ".//tag/child". */
module Xml {
  import opened Wrappers
  import opened Text
  import Latin = Names

  /** An element: its tag, the text before its first child (absent when empty) and its children. */
  datatype Node = Node(tag: string, text: Option<string>, children: seq<Node>)

  /** The path shapes the extraction uses. */
  datatype Path =
    | Child(steps: seq<string>)              // "a/b/c"
    | Descendant(tag: string)                // ".//tag"
    | DescendantChild(tag: string, child: string)  // ".//tag/child"

  /** The placeholder the declarations carry where data is withheld. */
  const Unpublished: string := "[Donn\U{e9}es non publi\U{e9}es]"

  /** The nodes of `ns` carrying `tag`, in order. */
  function Tagged(ns: seq<Node>, tag: string): (r: seq<Node>)
    ensures |r| <= |ns|
    ensures forall i :: 0 <= i < |r| ==> r[i].tag == tag
  {
    if ns == [] then []
    else if ns[0].tag == tag then [ns[0]] + Tagged(ns[1..], tag)
    else Tagged(ns[1..], tag)
  }

  lemma {:induction false} TaggedMembership(ns: seq<Node>, tag: string, x: Node)
    ensures x in Tagged(ns, tag) <==> x in ns && x.tag == tag
  {
    if ns != [] {
      TaggedMembership(ns[1..], tag, x);
      assert ns == [ns[0]] + ns[1..];
    }
  }

  /** The elements a child path "s1/s2/..." reaches from `n`, in ElementPath order. */
  function ChildPath(n: Node, steps: seq<string>): seq<Node>
    decreases |steps|, 0
  {
    if steps == [] then [n] else ChildPathAll(Tagged(n.children, steps[0]), steps[1..])
  }

  function ChildPathAll(ns: seq<Node>, steps: seq<string>): seq<Node>
    decreases |steps|, |ns| + 1
  {
    if ns == [] then [] else ChildPath(ns[0], steps) + ChildPathAll(ns[1..], steps)
  }

  /** The proper descendants of `n` in document order (preorder). */
  function Descendants(n: Node): seq<Node> {
    DescendantsFrom(n, 0)
  }

  /** The descendants of `n` reached through its children from index `i` on. */
  function DescendantsFrom(n: Node, i: nat): seq<Node>
    decreases n, |n.children| - i
  {
    if i >= |n.children| then []
    else [n.children[i]] + DescendantsFrom(n.children[i], 0) + DescendantsFrom(n, i + 1)
  }

  /** Every child of `n` from index `i` on is among the descendants collected from `i`. */
  lemma {:induction false} ChildIsDescendant(n: Node, i: nat, j: nat)
    requires i <= j < |n.children|
    ensures n.children[j] in DescendantsFrom(n, i)
    decreases |n.children| - i
  {
    if i < j {
      ChildIsDescendant(n, i + 1, j);
    }
  }

  /** Descendants of descendants are descendants: ".//tag" searches the whole subtree. */
  lemma {:induction false} DescendantsTransitive(n: Node, i: nat, d: Node, x: Node)
    requires d in DescendantsFrom(n, i) && x in Descendants(d)
    ensures x in DescendantsFrom(n, i)
    decreases n, |n.children| - i
  {
    if i < |n.children| {
      var c := n.children[i];
      var rest := DescendantsFrom(n, i + 1);
      if d == c {
      } else if d in Descendants(c) {
        DescendantsTransitive(c, 0, d, x);
      } else {
        assert d in rest;
        DescendantsTransitive(n, i + 1, d, x);
      }
    }
  }

  /** The `child`-tagged children of each node of `ns`, node after node. */
  function TaggedChildren(ns: seq<Node>, child: string): (r: seq<Node>)
    ensures forall i :: 0 <= i < |r| ==> r[i].tag == child
  {
    if ns == [] then [] else Tagged(ns[0].children, child) + TaggedChildren(ns[1..], child)
  }

  /** `element.findall(path)`. */
  function FindAll(n: Node, p: Path): seq<Node> {
    match p
    case Child(steps) => ChildPath(n, steps)
    case Descendant(tag) => Tagged(Descendants(n), tag)
    case DescendantChild(tag, child) => TaggedChildren(Tagged(Descendants(n), tag), child)
  }

  /** `element.find(path)`: the first element `findall` yields. */
  function Find(n: Node, p: Path): (r: Option<Node>)
    ensures r.None? <==> FindAll(n, p) == []
    ensures r.Some? ==> r.value == FindAll(n, p)[0]
  {
    var all := FindAll(n, p);
    if all == [] then None else Some(all[0])
  }

  /** ".//tag" finds something exactly when some descendant carries `tag`. */
  lemma FindDescendantFound(n: Node, tag: string)
    ensures Find(n, Descendant(tag)).Some? <==> exists x :: x in Descendants(n) && x.tag == tag
  {
    var found := Tagged(Descendants(n), tag);
    if found != [] {
      TaggedMembership(Descendants(n), tag, found[0]);
    }
    if x :| x in Descendants(n) && x.tag == tag {
      TaggedMembership(Descendants(n), tag, x);
    }
  }

  /** The raw text of a node as Python sees it: `None` and `""` both read as no text. */
  function RawText(n: Node): string {
    match n.text
    case None => ""
    case Some(t) => t
  }

  /** `xml_text(element, path)` with the empty default. */
  function XmlText(n: Node, p: Path): (r: string)
    ensures r == "" || (Find(n, p).Some? && r == Strip(RawText(Find(n, p).value)))
    ensures Find(n, p).Some? && Strip(RawText(Find(n, p).value)) != ""
            && Strip(RawText(Find(n, p).value)) != Unpublished
            ==> r == Strip(RawText(Find(n, p).value))
    ensures r != Unpublished
    ensures r == [] || (!IsSpace(r[0]) && !IsSpace(r[|r| - 1]))
  {
    match Find(n, p)
    case None => ""
    case Some(node) =>
      var t := Strip(RawText(node));
      StripEdges(RawText(node));
      if t != "" && t != Unpublished then t else ""
  }

  /** `xml_bool`: the text, lower-cased, is "true". */
  predicate XmlBool(ops: CaseOps, n: Node, p: Path) {
    Lower(ops, XmlText(n, p)) == "true"
  }

  /** `is_section_empty`: the section is missing or its `neant` text lower-cases to "true". */
  predicate IsSectionEmpty(ops: CaseOps, section: Option<Node>) {
    section.None? || XmlBool(ops, section.value, Child(["neant"]))
  }

  /** `s` is "true" spelt in any mix of small and capital letters. */
  predicate SpellsTrue(s: string) {
    |s| == 4 && forall i :: 0 <= i < 4 ==> s[i] == "true"[i] || s[i] == "TRUE"[i]
  }

  /** With Latin case mapping, a flag is set exactly when its text, stripped, is "true" in
      any capitalisation. */
  lemma XmlBoolLatin(n: Node, p: Path)
    ensures XmlBool(Latin.LatinOps, n, p) <==> SpellsTrue(XmlText(n, p))
  {
    var t := XmlText(n, p);
    var l := Lower(Latin.LatinOps, t);
    Latin.LatinLowerSpec(t);
    if |t| == 4 {
      forall i | 0 <= i < 4
        ensures l[i] == "true"[i] <==> t[i] == "true"[i] || t[i] == "TRUE"[i]
      {
        Latin.LatinLowerLetter(t[i], "true"[i]);
      }
      if SpellsTrue(t) {
        assert l == "true";
      }
    }
  }

  /** With Latin case mapping, a section counts as empty exactly when it is missing or its
      `neant` text reads "true" in any capitalisation. */
  lemma IsSectionEmptyLatin(section: Option<Node>)
    ensures IsSectionEmpty(Latin.LatinOps, section)
            <==> section.None? || SpellsTrue(XmlText(section.value, Child(["neant"])))
  {
    if section.Some? {
      XmlBoolLatin(section.value, Child(["neant"]));
    }
  }

  /** The path naming the only child of an element finds that child. */
  lemma FindOnlyChild(parent: Node)
    requires |parent.children| == 1
    ensures Find(parent, Child([parent.children[0].tag])) == Some(parent.children[0])
  {
    var c := parent.children[0];
    assert parent.children[1..] == [];
    assert Tagged(parent.children, c.tag) == [c];
    assert [c.tag][1..] == [];
    assert ChildPathAll([c], []) == ChildPath(c, []) + ChildPathAll([], []);
    assert FindAll(parent, Child([c.tag])) == [c];
  }

  /** A `neant` of " True " empties its section. */
  lemma NeantTrueEmpties()
    ensures IsSectionEmpty(Latin.LatinOps, Some(Node("enfants", None, [Node("neant", Some(" True "), [])])))
  {
    var section := Node("enfants", None, [Node("neant", Some(" True "), [])]);
    FindOnlyChild(section);
    assert " True " == " " + "True" + " ";
    StripPadded(" ", "True", " ");
    StripNoEdgeSpace("True");
    assert XmlText(section, Child(["neant"])) == "True";
    assert SpellsTrue("True");
    IsSectionEmptyLatin(Some(section));
  }

  /** A `neant` of "false" leaves its section to be read. */
  lemma NeantFalseKeeps()
    ensures !IsSectionEmpty(Latin.LatinOps, Some(Node("enfants", None, [Node("neant", Some("false"), [])])))
  {
    var section := Node("enfants", None, [Node("neant", Some("false"), [])]);
    FindOnlyChild(section);
    StripNoEdgeSpace("false");
    assert XmlText(section, Child(["neant"])) == "false";
    IsSectionEmptyLatin(Some(section));
  }

  /** `any(child.text for child in item)`: some direct child has non-empty text
      (whitespace counts as text here). */
  predicate HasTextChild(item: Node) {
    exists i :: 0 <= i < |item.children| && RawText(item.children[i]) != ""
  }

  /** `section.findall(".//items/items") or section.findall(".//items")`. */
  function Items(section: Node): (r: seq<Node>)
    ensures forall i :: 0 <= i < |r| ==> r[i].tag == "items"
    ensures FindAll(section, DescendantChild("items", "items")) != [] ==> r == FindAll(section, DescendantChild("items", "items"))
    ensures FindAll(section, DescendantChild("items", "items")) == [] ==> r == FindAll(section, Descendant("items"))
  {
    var nested := FindAll(section, DescendantChild("items", "items"));
    if nested != [] then nested else FindAll(section, Descendant("items"))
  }
}
