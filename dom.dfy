/**
 * The part of the browser DOM the pagination engine relies on: a store of
 * nodes addressed by identity, each with its data, its parent and its ordered
 * children, and the operations `appendChild` (which first detaches the node
 * from its current parent), `removeChild`, `cloneNode`, `setAttribute` and
 * assignment to a text node's `nodeValue`.
 */
module Dom {
  import opened Common

  type NodeId = nat

  /** What `cloneNode(false)` copies of an element: its tag name and attributes. */
  datatype Element = Element(tag: string, attrs: map<string, string>)

  datatype NodeData =
    | Text(value: string)     // Node.TEXT_NODE, with its nodeValue
    | Elem(element: Element)  // Node.ELEMENT_NODE
    | Region                  // a page's `.bindery-content` or `.bindery-footer` box
    | Other(nodeType: int)    // any other node kind (comments, ...)

  datatype DomNode = DomNode(data: NodeData, parent: Option<NodeId>, children: seq<NodeId>)

  /** Every identity a node mentions names a node of the store. */
  ghost predicate Linked(n: DomNode, size: nat)
  {
    (n.parent.Some? ==> n.parent.value < size) && forall j | 0 <= j < |n.children| :: n.children[j] < size
  }

  ghost predicate WellLinked(nodes: seq<DomNode>)
  {
    forall i | 0 <= i < |nodes| :: Linked(nodes[i], |nodes|) && nodes[i].parent != Some(i)
  }

  /** Replacing one node by a well-linked node keeps the store well linked. */
  lemma UpdateKeepsLinks(nodes: seq<DomNode>, i: NodeId, n: DomNode)
    requires WellLinked(nodes) && i < |nodes| && Linked(n, |nodes|) && n.parent != Some(i)
    ensures WellLinked(nodes[i := n])
  {
  }

  lemma RemoveFirstBounded(s: seq<NodeId>, x: NodeId, size: nat)
    requires forall j | 0 <= j < |s| :: s[j] < size
    ensures forall j | 0 <= j < |RemoveFirst(s, x)| :: RemoveFirst(s, x)[j] < size
  {
    RemoveFirstSubset(s, x);
    forall j | 0 <= j < |RemoveFirst(s, x)| ensures RemoveFirst(s, x)[j] < size {
      assert RemoveFirst(s, x)[j] in RemoveFirst(s, x);
      var k :| 0 <= k < |s| && s[k] == RemoveFirst(s, x)[j];
    }
  }

  /** A node that has no parent and no children yet (`createTextNode`, `cloneNode(false)`). */
  function Fresh(data: NodeData): DomNode
  {
    DomNode(data, None, [])
  }

  /** The store with node `p`'s children replaced by `kids`. */
  function WithChildren(nodes: seq<DomNode>, p: NodeId, kids: seq<NodeId>): (r: seq<DomNode>)
    requires WellLinked(nodes) && p < |nodes| && forall j | 0 <= j < |kids| :: kids[j] < |nodes|
    ensures |r| == |nodes| && WellLinked(r)
    ensures r[p] == nodes[p].(children := kids)
    ensures forall i | 0 <= i < |r| && i != p :: r[i] == nodes[i]
  {
    assert Linked(nodes[p], |nodes|);
    UpdateKeepsLinks(nodes, p, nodes[p].(children := kids));
    nodes[p := nodes[p].(children := kids)]
  }

  /** The store with node `c`'s parent replaced by `parent`. */
  function WithParent(nodes: seq<DomNode>, c: NodeId, parent: Option<NodeId>): (r: seq<DomNode>)
    requires WellLinked(nodes) && c < |nodes| && (parent.Some? ==> parent.value < |nodes| && parent.value != c)
    ensures |r| == |nodes| && WellLinked(r)
    ensures r[c] == nodes[c].(parent := parent)
    ensures forall i | 0 <= i < |r| && i != c :: r[i] == nodes[i]
  {
    assert Linked(nodes[c], |nodes|);
    UpdateKeepsLinks(nodes, c, nodes[c].(parent := parent));
    nodes[c := nodes[c].(parent := parent)]
  }

  /** `parent.removeChild(c)` where `parent` is `c`'s parent: the store with `c` detached. */
  function Detached(nodes: seq<DomNode>, c: NodeId): (r: seq<DomNode>)
    requires WellLinked(nodes) && c < |nodes|
    ensures |r| == |nodes| && WellLinked(r)
    ensures r[c].parent == None && r[c].children == nodes[c].children
    ensures forall i | 0 <= i < |r| :: r[i].data == nodes[i].data
    ensures forall i | 0 <= i < |r| && i != c :: r[i].parent == nodes[i].parent
    ensures forall i | 0 <= i < |r| && i != c && Some(i) != nodes[c].parent :: r[i] == nodes[i]
    ensures nodes[c].parent.Some? ==>
      r[nodes[c].parent.value].children == RemoveFirst(nodes[nodes[c].parent.value].children, c)
  {
    match nodes[c].parent
    case None => nodes
    case Some(p) =>
      assert Linked(nodes[p], |nodes|);
      RemoveFirstBounded(nodes[p].children, c, |nodes|);
      var n1 := WithChildren(nodes, p, RemoveFirst(nodes[p].children, c));
      WithParent(n1, c, None)
  }

  /** `p.appendChild(c)`: `c` leaves its old parent and becomes `p`'s last child. */
  function AppendedChild(nodes: seq<DomNode>, p: NodeId, c: NodeId): (r: seq<DomNode>)
    requires WellLinked(nodes) && p < |nodes| && c < |nodes| && p != c
    ensures |r| == |nodes| && WellLinked(r)
    ensures r[c].parent == Some(p) && r[c].children == nodes[c].children
    ensures |r[p].children| > 0 && r[p].children[|r[p].children| - 1] == c
    ensures r[p].children ==
      (if nodes[c].parent == Some(p) then RemoveFirst(nodes[p].children, c) else nodes[p].children) + [c]
    ensures r[p].parent == nodes[p].parent
    ensures forall i | 0 <= i < |r| :: r[i].data == nodes[i].data
    ensures forall i | 0 <= i < |r| && i != c :: r[i].parent == nodes[i].parent
    ensures forall i | 0 <= i < |r| && i != c && i != p && Some(i) != nodes[c].parent :: r[i] == nodes[i]
  {
    var n1 := Detached(nodes, c);
    assert Linked(n1[p], |nodes|);
    var n2 := WithChildren(n1, p, n1[p].children + [c]);
    WithParent(n2, c, Some(p))
  }
}

module Documents {
  import opened Common
  import opened Dom

  /** The `textContent` of a node: the text of its descendant text nodes in
      document order; `depth` bounds the descent (a tree of n nodes needs n). */
  function TextContent(nodes: seq<DomNode>, id: NodeId, depth: nat): string
    requires WellLinked(nodes) && id < |nodes|
    decreases depth, 0
  {
    match nodes[id].data
    case Text(v) => v
    case _ => if depth == 0 then "" else ChildrenText(nodes, nodes[id].children, depth - 1)
  }

  function ChildrenText(nodes: seq<DomNode>, ids: seq<NodeId>, depth: nat): string
    requires WellLinked(nodes) && forall i | 0 <= i < |ids| :: ids[i] < |nodes|
    decreases depth, |ids|
  {
    if ids == [] then "" else TextContent(nodes, ids[0], depth) + ChildrenText(nodes, ids[1..], depth)
  }

  /** The children of `dst` in `after` are, in order, fresh nodes carrying the
      data of the children of `src` in `before`. */
  ghost predicate CopiedChildren(before: seq<DomNode>, after: seq<DomNode>, src: NodeId, dst: NodeId)
    requires src < |before| && dst < |after|
  {
    |after[dst].children| == |before[src].children|
    && forall i | 0 <= i < |before[src].children| ::
      |before| <= after[dst].children[i] < |after|
      && before[src].children[i] < |before|
      && after[after[dst].children[i]].data == before[before[src].children[i]].data
  }
  /** A copy made earlier survives a later copy into another node `other`
      that leaves every other node as it was. */
  lemma CopiedOnward(before: seq<DomNode>, mid: seq<DomNode>, after: seq<DomNode>, src: NodeId, dst: NodeId, other: NodeId)
    requires src < |before| && dst < |mid| && CopiedChildren(before, mid, src, dst)
    requires |mid| <= |after| && other < |before| && other != dst
    requires forall i | 0 <= i < |mid| && i != other :: after[i] == mid[i]
    ensures CopiedChildren(before, after, src, dst)
  {
    assert after[dst] == mid[dst];
    forall i | 0 <= i < |before[src].children|
      ensures after[after[dst].children[i]].data == before[before[src].children[i]].data
    {
      assert mid[dst].children[i] != other;
    }
  }

  /** A copy from `mid` is a copy from `before` when `src` and the nodes it
      names held the same in both. */
  lemma CopiedBack(before: seq<DomNode>, mid: seq<DomNode>, after: seq<DomNode>, src: NodeId, dst: NodeId)
    requires src < |before| <= |mid| && dst < |after| && CopiedChildren(mid, after, src, dst)
    requires mid[src] == before[src] && Linked(before[src], |before|)
    requires forall i | 0 <= i < |before| :: mid[i].data == before[i].data
    ensures CopiedChildren(before, after, src, dst)
  {
  }

  /** The document: the node store every page, path element and text run lives in. */
  class Document {
    var nodes: seq<DomNode>

    ghost predicate Valid()
      reads this
    {
      WellLinked(nodes)
    }

    constructor ()
      ensures Valid() && nodes == []
    {
      nodes := [];
    }

    /** `document.createTextNode` / `createElement`: a new, unattached node. */
    method Create(data: NodeData) returns (id: NodeId)
      requires Valid()
      modifies this
      ensures Valid() && nodes == old(nodes) + [Fresh(data)] && id == |old(nodes)|
    {
      id := |nodes|;
      nodes := nodes + [Fresh(data)];
    }

    /** `p.appendChild(c)`. */
    method AppendChild(p: NodeId, c: NodeId)
      requires Valid() && p < |nodes| && c < |nodes| && p != c
      modifies this
      ensures Valid() && nodes == AppendedChild(old(nodes), p, c)
    {
      nodes := AppendedChild(nodes, p, c);
    }

    /** `p.removeChild(c)`; the DOM refuses it unless `p` is `c`'s parent. */
    method RemoveChild(p: NodeId, c: NodeId)
      requires Valid() && c < |nodes| && nodes[c].parent == Some(p)
      modifies this
      ensures Valid() && nodes == Detached(old(nodes), c)
    {
      nodes := Detached(nodes, c);
    }

    /** `textNode.nodeValue = v`. */
    method SetText(t: NodeId, v: string)
      requires Valid() && t < |nodes| && nodes[t].data.Text?
      modifies this
      ensures Valid() && nodes == old(nodes)[t := old(nodes)[t].(data := Text(v))]
    {
      UpdateKeepsLinks(nodes, t, nodes[t].(data := Text(v)));
      nodes := nodes[t := nodes[t].(data := Text(v))];
    }

    /** `e.setAttribute(name, value)` on an element. */
    method SetAttribute(e: NodeId, name: string, value: string)
      requires Valid() && e < |nodes| && nodes[e].data.Elem?
      modifies this
      ensures Valid()
      ensures nodes == old(nodes)[e := old(nodes)[e].(data := Elem(old(nodes)[e].data.element.(
                attrs := old(nodes)[e].data.element.attrs[name := value])))]
    {
      var el := nodes[e].data.element;
      UpdateKeepsLinks(nodes, e, nodes[e].(data := Elem(el.(attrs := el.attrs[name := value]))));
      nodes := nodes[e := nodes[e].(data := Elem(el.(attrs := el.attrs[name := value])))];
    }

    /** `src.cloneNode(true)`: a detached copy of the subtree under `src`, `depth` levels deep. */
    method CopySubtree(src: NodeId, depth: nat) returns (copy: NodeId)
      requires Valid() && src < |nodes|
      modifies this
      ensures Valid() && |old(nodes)| <= copy < |nodes| && nodes[..|old(nodes)|] == old(nodes)
      ensures nodes[copy].data == old(nodes)[src].data && nodes[copy].parent == None
      decreases depth, 0
    {
      copy := Create(nodes[src].data);
      if depth > 0 {
        var kids := nodes[src].children;
        CopyInto(kids, copy, depth - 1);
      }
    }

    /** A copy of the subtree under `src` appended as `dst`'s last child. */
    method AppendCopy(src: NodeId, dst: NodeId, depth: nat) returns (cc: NodeId)
      requires Valid() && src < |nodes| && dst < |nodes|
      modifies this
      ensures Valid() && |old(nodes)| <= cc < |nodes| && nodes[cc].data == old(nodes)[src].data
      ensures nodes[dst].children == old(nodes)[dst].children + [cc]
      ensures nodes[dst].data == old(nodes)[dst].data && nodes[dst].parent == old(nodes)[dst].parent
      ensures forall i | 0 <= i < |old(nodes)| && i != dst :: nodes[i] == old(nodes)[i]
      decreases depth, 1
    {
      cc := CopySubtree(src, depth);
      AppendChild(dst, cc);
    }

    /** `dst.innerHTML = src.innerHTML` on an empty `dst`. */
    method CopyChildren(src: NodeId, dst: NodeId)
      requires Valid() && src < |nodes| && dst < |nodes| && nodes[dst].children == []
      modifies this
      ensures Valid() && |old(nodes)| <= |nodes|
      ensures forall i | 0 <= i < |old(nodes)| && i != dst :: nodes[i] == old(nodes)[i]
      ensures nodes[dst].data == old(nodes)[dst].data && nodes[dst].parent == old(nodes)[dst].parent
      ensures CopiedChildren(old(nodes), nodes, src, dst)
    {
      var kids := nodes[src].children;
      assert Linked(nodes[src], |nodes|);
      CopyInto(kids, dst, |nodes|);
      forall i | 0 <= i < |kids|
        ensures |old(nodes)| <= nodes[dst].children[i] < |nodes|
        ensures nodes[nodes[dst].children[i]].data == old(nodes)[kids[i]].data
      {
        assert nodes[dst].children[|old(nodes)[dst].children| + i] == nodes[dst].children[i];
      }
    }

    /** `dst.innerHTML = src.innerHTML`: copies of the subtrees `kids` are
        appended to `dst`'s children in order. */
    method CopyInto(kids: seq<NodeId>, dst: NodeId, depth: nat)
      requires Valid() && dst < |nodes| && forall i | 0 <= i < |kids| :: kids[i] < |nodes|
      modifies this
      ensures Valid() && |old(nodes)| <= |nodes| && nodes[dst].data == old(nodes)[dst].data
      ensures nodes[dst].parent == old(nodes)[dst].parent
      ensures forall i | 0 <= i < |old(nodes)| && i != dst :: nodes[i] == old(nodes)[i]
      ensures |nodes[dst].children| == |old(nodes)[dst].children| + |kids|
      ensures nodes[dst].children[..|old(nodes)[dst].children|] == old(nodes)[dst].children
      ensures forall i | 0 <= i < |kids| ::
        |old(nodes)| <= nodes[dst].children[|old(nodes)[dst].children| + i] < |nodes| &&
        nodes[nodes[dst].children[|old(nodes)[dst].children| + i]].data == old(nodes)[kids[i]].data
      decreases depth, 2
    {
      ghost var before := nodes[dst].children;
      ghost var copies: seq<NodeId> := [];
      for k := 0 to |kids|
        invariant Valid() && |old(nodes)| <= |nodes|
        invariant nodes[dst].data == old(nodes)[dst].data && nodes[dst].parent == old(nodes)[dst].parent
        invariant forall i | 0 <= i < |old(nodes)| && i != dst :: nodes[i] == old(nodes)[i]
        invariant |copies| == k && nodes[dst].children == before + copies
        invariant forall i | 0 <= i < k ::
          |old(nodes)| <= copies[i] < |nodes| && nodes[copies[i]].data == old(nodes)[kids[i]].data
      {
        var cc := AppendCopy(kids[k], dst, depth);
        copies := copies + [cc];
      }
      assert nodes[dst].children[..|before|] == before;
      assert forall i | 0 <= i < |kids| :: nodes[dst].children[|before| + i] == copies[i];
    }
  }
}
