/**
 * The `Page` object (build/bindery.js:890-936): two regions of the document,
 * the flow box content and the footer, and the flags the rules set on it.
 */
module Pages {
  import opened Common
  import opened Dom
  import opened Documents

  class Page {
    /** `.bindery-content`, where the flow is placed. */
    const flow: NodeId
    /** `.bindery-footer`, where footnotes go. */
    const footer: NodeId
    var alwaysLeft: bool
    var alwaysRight: bool
    var outOfFlow: bool

    /** `new Page()`: two fresh, empty regions and no flags set (the flags start
        `undefined`, which every use treats as false). */
    constructor (doc: Document)
      requires doc.Valid()
      modifies doc
      ensures doc.Valid() && doc.nodes == old(doc.nodes) + [Fresh(Region), Fresh(Region)]
      ensures flow == |old(doc.nodes)| && footer == |old(doc.nodes)| + 1
      ensures !alwaysLeft && !alwaysRight && !outOfFlow
    {
      var f := doc.Create(Region);
      var g := doc.Create(Region);
      flow, footer := f, g;
      alwaysLeft, alwaysRight, outOfFlow := false, false, false;
    }

    /** The regions of the page are region nodes of `doc`. */
    ghost predicate In(doc: Document)
      reads doc
    {
      flow < |doc.nodes| && footer < |doc.nodes| && flow != footer
      && doc.nodes[flow].data == Region && doc.nodes[footer].data == Region
    }

    /** `setPreference(dir)` (lines 918-921): "left" and "right" raise their flag,
        any other value changes nothing; a flag once raised stays raised. */
    method SetPreference(dir: string)
      modifies this
      ensures alwaysLeft == (old(alwaysLeft) || dir == "left")
      ensures alwaysRight == (old(alwaysRight) || dir == "right")
      ensures outOfFlow == old(outOfFlow)
    {
      if dir == "left" { alwaysLeft := true; }
      if dir == "right" { alwaysRight := true; }
    }

    /** `setOutOfFlow(bool)` (lines 923-926). */
    method SetOutOfFlow(b: bool)
      modifies this
      ensures outOfFlow == b
      ensures alwaysLeft == old(alwaysLeft) && alwaysRight == old(alwaysRight)
    {
      outOfFlow := b;
    }

    /** `clone()` (lines 928-935): a new page whose regions receive deep copies
        of this page's region contents, in order. The flags are not copied. */
    method Clone(doc: Document) returns (copy: Page)
      requires doc.Valid() && In(doc)
      modifies doc
      ensures fresh(copy) && doc.Valid() && copy.In(doc)
      ensures |old(doc.nodes)| <= copy.flow && |old(doc.nodes)| <= copy.footer
      ensures forall i | 0 <= i < |old(doc.nodes)| :: doc.nodes[i] == old(doc.nodes)[i]
      ensures !copy.alwaysLeft && !copy.alwaysRight && !copy.outOfFlow
      ensures CopiedChildren(old(doc.nodes), doc.nodes, flow, copy.flow)
      ensures CopiedChildren(old(doc.nodes), doc.nodes, footer, copy.footer)
    {
      copy := new Page(doc);
      CopyRegions(doc, copy);
    }

    /** The `innerHTML` copies of `clone()` (lines 930-931) into the empty
        regions of `copy`. */
    method CopyRegions(doc: Document, copy: Page)
      requires doc.Valid() && In(doc) && copy.In(doc) && copy != this
      requires flow < copy.flow && footer < copy.flow && copy.flow < copy.footer
      requires doc.nodes[copy.flow].children == [] && doc.nodes[copy.footer].children == []
      modifies doc
      ensures doc.Valid() && copy.In(doc)
      ensures forall i | 0 <= i < copy.flow :: doc.nodes[i] == old(doc.nodes)[i]
      ensures CopiedChildren(old(doc.nodes), doc.nodes, flow, copy.flow)
      ensures CopiedChildren(old(doc.nodes), doc.nodes, footer, copy.footer)
    {
      doc.CopyChildren(flow, copy.flow);
      ghost var mid := doc.nodes;
      doc.CopyChildren(footer, copy.footer);
      assert Linked(old(doc.nodes)[footer], |old(doc.nodes)|);
      CopiedOnward(old(doc.nodes), mid, doc.nodes, flow, copy.flow, copy.footer);
      CopiedBack(old(doc.nodes), mid, doc.nodes, footer, copy.footer);
    }
  }
}
