/** An abstract view of the page's document tree: just enough of the host's
    tree interface for the classifier and the sweep (`querySelector`,
    `querySelectorAll`, `closest`, `hasAttribute`, `getAttribute`, `remove`).
    Selector strings are not parsed; each selector the extension uses is a
    value of `Selector`. */
module Dom {
  import opened Wrappers
  import opened Text

  /** A node is named by its position in document order. */
  type NodeId = nat

  datatype Kind = DocumentNode | ElementNode | TextNode

  /** One node: its kind, its upper-case tag name (as `tagName` reports it for
      HTML elements), its attributes, and its parent as built. */
  datatype Node = Node(kind: Kind, tag: string, attrs: map<string, string>, parent: Option<NodeId>)

  /** The nodes of a page in document order. Removal does not change this
      sequence: a removed node is recorded in a separate set and loses only its
      link to its parent, so a removed subtree stays intact but detached, as
      `Element.remove()` leaves it. */
  datatype Tree = Tree(nodes: seq<Node>) {
    /** `a` is `d` or one of its ancestors as the tree was built. */
    predicate BuiltAncestorOrSelf(a: NodeId, d: NodeId)
      decreases d
    {
      || d == a
      || (&& d < |nodes| && nodes[d].parent.Some? && nodes[d].parent.value < d
          && BuiltAncestorOrSelf(a, nodes[d].parent.value))
    }

    /** The numbering is document order (a pre-order walk, children in
        order): every parent precedes its children and is not a text node,
        and the parent of node `i` is the node just before it or one of that
        node's ancestors, so every subtree is the run of ids right after its
        root (`SubtreeIsContiguous`). */
    predicate Valid() {
      && (forall i :: 0 <= i < |nodes| && nodes[i].parent.Some? ==>
            nodes[i].parent.value < i && nodes[nodes[i].parent.value].kind != TextNode)
      && (forall i :: 0 < i < |nodes| && nodes[i].parent.Some? ==>
            BuiltAncestorOrSelf(nodes[i].parent.value, i - 1))
    }
  }

  /** The parent of `n` in the current tree: none once `n` has been removed. */
  function ParentOf(t: Tree, removed: set<NodeId>, n: NodeId): (p: Option<NodeId>)
    requires t.Valid() && n < |t.nodes|
    ensures n in removed ==> p.None?
    ensures n !in removed ==> p == t.nodes[n].parent
    ensures p.Some? ==> p.value < n
  {
    if n in removed then None else t.nodes[n].parent
  }

  /** `d` lies strictly below `a` in the current tree. */
  predicate IsDescendant(t: Tree, removed: set<NodeId>, d: NodeId, a: NodeId)
    requires t.Valid() && d < |t.nodes|
    decreases d
  {
    match ParentOf(t, removed, d)
    case None => false
    case Some(p) => p == a || IsDescendant(t, removed, p, a)
  }

  /** An ancestor always comes earlier in document order, so no node is its
      own descendant. */
  lemma {:induction false} DescendantFollowsAncestor(t: Tree, removed: set<NodeId>, d: NodeId, a: NodeId)
    requires t.Valid() && d < |t.nodes|
    requires IsDescendant(t, removed, d, a)
    ensures a < d
    decreases d
  {
    var p := ParentOf(t, removed, d).value;
    if p != a {
      DescendantFollowsAncestor(t, removed, p, a);
    }
  }

  /** Removing more nodes can only cut ancestor chains, never create them. */
  lemma {:induction false} DescendantAntitone(t: Tree, removed: set<NodeId>, more: set<NodeId>, d: NodeId, a: NodeId)
    requires t.Valid() && d < |t.nodes|
    requires removed <= more
    requires IsDescendant(t, more, d, a)
    ensures IsDescendant(t, removed, d, a)
    decreases d
  {
    var p := ParentOf(t, more, d).value;
    if p != a {
      DescendantAntitone(t, removed, more, p, a);
    }
  }

  /** Before any removal, being below `a` is being reachable from `a` by the
      parent links the tree was built with. */
  lemma {:induction false} BuiltAncestry(t: Tree, d: NodeId, a: NodeId)
    requires t.Valid() && d < |t.nodes|
    ensures t.BuiltAncestorOrSelf(a, d) <==> d == a || IsDescendant(t, {}, d, a)
    decreases d
  {
    if t.nodes[d].parent.Some? {
      BuiltAncestry(t, t.nodes[d].parent.value, a);
    }
  }

  /** Ancestry as built is transitive. */
  lemma {:induction false} BuiltAncestorTransitive(t: Tree, a: NodeId, b: NodeId, d: NodeId)
    requires t.BuiltAncestorOrSelf(a, b) && t.BuiltAncestorOrSelf(b, d)
    ensures t.BuiltAncestorOrSelf(a, d)
    decreases d
  {
    if d != b {
      BuiltAncestorTransitive(t, a, b, t.nodes[d].parent.value);
    }
  }

  /** Document order: every node numbered between a node and one of its
      descendants lies in the same subtree. */
  lemma {:induction false} SubtreeIsContiguous(t: Tree, a: NodeId, m: NodeId, d: NodeId)
    requires t.Valid() && d < |t.nodes| && a < m < d
    requires IsDescendant(t, {}, d, a)
    ensures IsDescendant(t, {}, m, a)
    decreases d
  {
    var p := t.nodes[d].parent.value;
    BuiltAncestry(t, d, a);
    BuiltAncestry(t, p, a);
    assert t.BuiltAncestorOrSelf(p, d - 1);
    BuiltAncestorTransitive(t, a, p, d - 1);
    BuiltAncestry(t, d - 1, a);
    if m < d - 1 {
      SubtreeIsContiguous(t, a, m, d - 1);
    }
  }

  /** The attribute part of a simple selector. */
  datatype AttrTest =
    | AnyAttrs
    | HasAttr(name: string)                       // [name]
    | AttrEquals(name: string, value: string)     // [name="value"]
    | AttrContains(name: string, value: string)   // [name*="value"]

  /** A simple selector: an optional tag name and one attribute test. */
  datatype Selector = Selector(tag: Option<string>, attr: AttrTest)

  /** `node.matches(sel)`. Only elements match; `*=` with an empty value
      matches nothing, as CSS defines it. */
  predicate Matches(n: Node, sel: Selector) {
    && n.kind == ElementNode
    && (sel.tag.None? || n.tag == sel.tag.value)
    && match sel.attr
       case AnyAttrs => true
       case HasAttr(name) => name in n.attrs
       case AttrEquals(name, v) => name in n.attrs && n.attrs[name] == v
       case AttrContains(name, v) => v != "" && name in n.attrs && Includes(n.attrs[name], v)
  }

  /** The node matches one selector of a comma-separated selector list. */
  predicate MatchesAny(n: Node, sels: seq<Selector>) {
    exists k :: 0 <= k < |sels| && Matches(n, sels[k])
  }

  /** `el.querySelector(sel) != null`: some current descendant of `e`
      matches. */
  predicate QuerySelector(t: Tree, removed: set<NodeId>, e: NodeId, sel: Selector)
    requires t.Valid()
  {
    exists d :: 0 <= d < |t.nodes| && IsDescendant(t, removed, d, e) && Matches(t.nodes[d], sel)
  }

  /** Removing more nodes can only make a `querySelector` test fail, never
      make it succeed. */
  lemma QuerySelectorAntitone(t: Tree, removed: set<NodeId>, more: set<NodeId>, e: NodeId, sel: Selector)
    requires t.Valid() && removed <= more
    requires QuerySelector(t, more, e, sel)
    ensures QuerySelector(t, removed, e, sel)
  {
    var d :| 0 <= d < |t.nodes| && IsDescendant(t, more, d, e) && Matches(t.nodes[d], sel);
    DescendantAntitone(t, removed, more, d, e);
  }

  /** `root.querySelectorAll(sels)` from index `i` on: the current descendants
      of `root` that match one of `sels`, in document order. The list is
      computed once and does not follow later removals. */
  function SelectFrom(t: Tree, removed: set<NodeId>, root: NodeId, sels: seq<Selector>, i: nat): (r: seq<NodeId>)
    requires t.Valid() && i <= |t.nodes|
    ensures forall c: NodeId :: c in r <==>
      i <= c < |t.nodes| && IsDescendant(t, removed, c, root) && MatchesAny(t.nodes[c], sels)
    ensures forall k :: 0 <= k < |r| ==> i <= r[k] < |t.nodes|
    ensures forall j, k :: 0 <= j < k < |r| ==> r[j] < r[k]
    decreases |t.nodes| - i
  {
    if i == |t.nodes| then []
    else if IsDescendant(t, removed, i, root) && MatchesAny(t.nodes[i], sels) then
      [i] + SelectFrom(t, removed, root, sels, i + 1)
    else
      SelectFrom(t, removed, root, sels, i + 1)
  }

  /** `root.querySelectorAll(sels)`. */
  function Select(t: Tree, removed: set<NodeId>, root: NodeId, sels: seq<Selector>): (r: seq<NodeId>)
    requires t.Valid()
    ensures forall c: NodeId :: c in r <==>
      c < |t.nodes| && IsDescendant(t, removed, c, root) && MatchesAny(t.nodes[c], sels)
    ensures forall k :: 0 <= k < |r| ==> r[k] < |t.nodes|
    ensures forall j, k :: 0 <= j < k < |r| ==> r[j] < r[k]
    ensures root !in r
  {
    var r := SelectFrom(t, removed, root, sels, 0);
    assert root !in r by {
      if root in r {
        DescendantFollowsAncestor(t, removed, root, root);
      }
    }
    r
  }

  /** `el.closest(sel)`: the nearest of `e` and its current ancestors that
      matches, or none when no node from `e` upward matches. */
  function Closest(t: Tree, removed: set<NodeId>, e: NodeId, sel: Selector): (r: Option<NodeId>)
    requires t.Valid() && e < |t.nodes|
    ensures r.Some? ==> r.value < |t.nodes| && Matches(t.nodes[r.value], sel)
    ensures r.Some? ==> r.value == e || IsDescendant(t, removed, e, r.value)
    ensures r == Some(e) <==> Matches(t.nodes[e], sel)
    ensures r.None? ==>
      forall a: NodeId :: a < |t.nodes| && IsDescendant(t, removed, e, a) ==> !Matches(t.nodes[a], sel)
    ensures r.Some? ==>
      forall a: NodeId :: a < |t.nodes| && IsDescendant(t, removed, e, a) && IsDescendant(t, removed, a, r.value) ==>
        !Matches(t.nodes[a], sel)
    decreases e
  {
    if Matches(t.nodes[e], sel) then
      assert forall a: NodeId :: a < |t.nodes| && IsDescendant(t, removed, e, a) ==> !IsDescendant(t, removed, a, e) by {
        forall a: NodeId | a < |t.nodes| && IsDescendant(t, removed, e, a)
          ensures !IsDescendant(t, removed, a, e)
        {
          DescendantFollowsAncestor(t, removed, e, a);
          if IsDescendant(t, removed, a, e) {
            DescendantFollowsAncestor(t, removed, a, e);
          }
        }
      }
      Some(e)
    else match ParentOf(t, removed, e)
      case None => None
      case Some(p) =>
        var r := Closest(t, removed, p, sel);
        assert r == Some(p) ==> !IsDescendant(t, removed, p, p) by {
          if IsDescendant(t, removed, p, p) {
            DescendantFollowsAncestor(t, removed, p, p);
          }
        }
        r
  }
}
