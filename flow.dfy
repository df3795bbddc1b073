/**
 * The pagination engine of build/bindery.js:548-797: the flow state
 * (`state.path`, `state.pages`, `state.currentPage`, lines 550-557), page
 * creation, the text splitter wired to the document, the tree walk and the
 * rule dispatcher; with the page order of `reorderPages` (lines 819-849) and
 * the numbering done by the page-number rule (lines 2273-2278).
 *
 * The layout measurement `Page.hasOverflowed` is the injected oracle
 * `overflows(nodes, flow, footer)`: whether a page whose regions are `flow`
 * and `footer` overflows in the document `nodes`. The engine can run forever
 * (a word wider than the page is cancelled and retried on every new page), so
 * it is given a budget of pages; running out of it halts the run.
 */
module Flow {
  import opened Common
  import opened Dom
  import opened Documents
  import opened Pages
  import opened Rules
  import opened TextSplit
  import opened Reorder

  /** The content handed to the engine. */
  datatype Content =
    | TextNode(value: string)
    | ElementNode(element: Element, children: seq<Content>)
    | OtherNode(nodeType: int)

  /** Why a run stopped before calling `done`. */
  datatype Halt =
    | Stalled(nodeType: int)   // the walk met an unknown node kind (lines 761-762) and never resumes
    | Threw                    // `last(state.path)` was undefined where the source calls a method on it
    | OutOfPages               // the page budget was used up
    | ReorderFailed            // `reorderPages` would write past the end or never finish

  /** The console messages of the engine. */
  datatype Diagnostic =
    | DuplicateId(id: string)              // line 810
    | AlreadyOverflowing(element: Element) // line 625
    | UnknownNodeType(nodeType: int)       // line 762

  /** What a hook is called on: an element, or a page by its index (for
      `newPage`, the index the page is about to take). */
  datatype Target = OnElement(element: Element) | OnPage(index: int)

  /** A call of the hook for `phase` of the rule registered at position `rule`. */
  datatype HookCall = HookCall(phase: Phase, rule: nat, target: Target)

  /** What `cloneNode(false)` followed by `setAttribute("bindery-continuation", true)` gives. */
  function Continuation(e: Element): Element
  {
    e.(attrs := e.attrs["bindery-continuation" := "true"])
  }

  /** The warning `clonePath` gives for an element with an `id` (line 809-811). */
  function IdWarning(e: Element): seq<Diagnostic>
  {
    if "id" in e.attrs && e.attrs["id"] != "" then [DuplicateId(e.attrs["id"])] else []
  }

  /** The warnings of `clonePath` for the elements `es[from..]`, deepest first. */
  function IdWarnings(es: seq<Element>, from: nat): seq<Diagnostic>
    decreases |es| - from
  {
    if from >= |es| then [] else IdWarnings(es, from + 1) + IdWarning(es[from])
  }

  /** The calls made when the rules at positions `sel` run in `phase` on
      `target`, in that order. */
  function Calls(sel: seq<nat>, phase: Phase, target: Target): (r: seq<HookCall>)
    ensures |r| == |sel| && forall k | 0 <= k < |sel| :: r[k] == HookCall(phase, sel[k], target)
  {
    if sel == [] then [] else Calls(sel[..|sel| - 1], phase, target) + [HookCall(phase, sel[|sel| - 1], target)]
  }

  /** The `rules.forEach` of lines 563-606 over the rules at positions `sel`:
      each one's hook for `phase` is called on `target`, in order. */
  method RunHooks(sel: seq<nat>, phase: Phase, target: Target) returns (made: seq<HookCall>)
    ensures made == Calls(sel, phase, target)
  {
    made := [];
    for k := 0 to |sel|
      invariant made == Calls(sel[..k], phase, target)
    {
      assert sel[..k + 1][..k] == sel[..k];
      made := made + [HookCall(phase, sel[k], target)];
    }
    assert sel[..|sel|] == sel;
  }

  /** The calls of `trace` made in `phase`, in order. */
  function InPhase(trace: seq<HookCall>, phase: Phase): (r: seq<HookCall>)
    ensures forall k | 0 <= k < |r| :: r[k].phase == phase
  {
    if trace == [] then []
    else InPhase(trace[..|trace| - 1], phase) + (if trace[|trace| - 1].phase == phase then [trace[|trace| - 1]] else [])
  }

  lemma {:induction false} InPhaseAppend(a: seq<HookCall>, b: seq<HookCall>, phase: Phase)
    ensures InPhase(a + b, phase) == InPhase(a, phase) + InPhase(b, phase)
    decreases |b|
  {
    if b != [] {
      assert (a + b)[..|a + b| - 1] == a + b[..|b| - 1];
      InPhaseAppend(a, b[..|b| - 1], phase);
    } else {
      assert a + b == a;
    }
  }

  /** Calls made in another phase vanish from the calls of `phase`. */
  lemma {:induction false} InPhaseOther(trace: seq<HookCall>, phase: Phase)
    requires forall k | 0 <= k < |trace| :: trace[k].phase != phase
    ensures InPhase(trace, phase) == []
  {
    if trace != [] {
      InPhaseOther(trace[..|trace| - 1], phase);
    }
  }

  /** Every call was made to a `newPage` hook. */
  ghost predicate AllNewPage(calls: seq<HookCall>)
  {
    forall k | 0 <= k < |calls| :: calls[k].phase == NewPage
  }

  lemma OneRun(call: HookCall, made: seq<HookCall>)
    requires call.phase == BeforeAdd && AllNewPage(made)
    ensures InPhase([call] + made, BeforeAdd) == [call]
  {
    InPhaseAppend([call], made, BeforeAdd);
    InPhaseOther(made, BeforeAdd);
    assert InPhase([call], BeforeAdd) == InPhase([], BeforeAdd) + [call];
  }

  lemma TwoRuns(call: HookCall, m1: seq<HookCall>, m2: seq<HookCall>, m3: seq<HookCall>)
    requires call.phase == BeforeAdd && AllNewPage(m1) && AllNewPage(m2) && AllNewPage(m3)
    ensures InPhase(([call] + m1) + (m2 + ([call] + m3)), BeforeAdd) == [call, call]
  {
    OneRun(call, m1);
    OneRun(call, m3);
    InPhaseOther(m2, BeforeAdd);
    InPhaseAppend(m2, [call] + m3, BeforeAdd);
    InPhaseAppend([call] + m1, m2 + ([call] + m3), BeforeAdd);
  }

  /** The `beforeAdd` calls of the rules `sel` on `e`, each made twice when
      its `retries` entry is set. */
  function Twice(sel: seq<nat>, retries: seq<bool>, e: Element): seq<HookCall>
    requires |retries| == |sel|
  {
    if sel == [] then []
    else
      var c := HookCall(BeforeAdd, sel[|sel| - 1], OnElement(e));
      Twice(sel[..|sel| - 1], retries[..|sel| - 1], e) + (if retries[|sel| - 1] then [c, c] else [c])
  }

  /** The element of node `id`, when it is one. */
  ghost predicate IsElement(nodes: seq<DomNode>, id: NodeId)
  {
    id < |nodes| && nodes[id].data.Elem?
  }

  /** The shells `clonePath` builds: `shells[i]` is the continuation of
      `elements[i]`, has `shells[i + 1]` as its only child, and hangs under
      `shells[i - 1]` (the outermost shell is unattached). */
  ghost predicate Shells(nodes: seq<DomNode>, elements: seq<Element>, shells: seq<NodeId>, from: nat)
    requires |shells| == |elements| && from <= |shells|
  {
    forall i | from <= i < |shells| :: ShellAt(nodes, elements, shells, from, i)
  }

  ghost predicate ShellAt(nodes: seq<DomNode>, elements: seq<Element>, shells: seq<NodeId>, from: nat, i: nat)
    requires |shells| == |elements| && from <= i < |shells|
  {
    shells[i] < |nodes|
    && nodes[shells[i]].data == Elem(Continuation(elements[i]))
    && nodes[shells[i]].children == (if i + 1 < |shells| then [shells[i + 1]] else [])
    && nodes[shells[i]].parent == (if from < i then Some(shells[i - 1]) else None)
  }

  /** A path entry: an element node standing for `e`, or a continuation shell of it. */
  ghost predicate PathEntry(nodes: seq<DomNode>, id: NodeId, e: Element)
  {
    IsElement(nodes, id) && (nodes[id].data.element == e || nodes[id].data.element == Continuation(e))
  }

  ghost function ElementsOf(nodes: seq<DomNode>, ids: seq<NodeId>): (r: seq<Element>)
    requires forall i | 0 <= i < |ids| :: IsElement(nodes, ids[i])
    ensures |r| == |ids| && forall i | 0 <= i < |ids| :: IsElement(nodes, ids[i]) && r[i] == nodes[ids[i]].data.element
  {
    seq(|ids|, i requires 0 <= i < |ids| && IsElement(nodes, ids[i]) => nodes[ids[i]].data.element)
  }

  /** One shell: `origPath[i].cloneNode(false)`, marked as a continuation, with
      the previously made (unattached) shell `inner` appended (lines 806-814). */
  method MakeShell(doc: Document, e: Element, inner: Option<NodeId>) returns (clone: NodeId)
    requires doc.Valid() && (inner.Some? ==> inner.value < |doc.nodes| && doc.nodes[inner.value].parent == None)
    modifies doc
    ensures doc.Valid() && clone == |old(doc.nodes)| && |doc.nodes| == |old(doc.nodes)| + 1
    ensures doc.nodes[clone] == DomNode(Elem(Continuation(e)), None, if inner.Some? then [inner.value] else [])
    ensures inner.Some? ==> doc.nodes[inner.value] == old(doc.nodes)[inner.value].(parent := Some(clone))
    ensures forall j | 0 <= j < |old(doc.nodes)| && Some(j) != inner :: doc.nodes[j] == old(doc.nodes)[j]
  {
    clone := doc.Create(Elem(e));
    doc.SetAttribute(clone, "bindery-continuation", "true");
    if inner.Some? {
      doc.AppendChild(clone, inner.value);
    }
  }

  lemma ShellsExtend(before: seq<DomNode>, after: seq<DomNode>, es: seq<Element>, path: seq<NodeId>, i: nat, clone: NodeId)
    requires |path| == |es| && i < |path| && clone == |before| && |after| == |before| + 1
    requires Shells(before, es, path, i + 1)
    requires forall j | i < j < |path| :: path[j] < |before|
    requires forall j, k | i < j < k < |path| :: path[j] != path[k]
    requires after[clone] == DomNode(Elem(Continuation(es[i])), None, if i + 1 < |path| then [path[i + 1]] else [])
    requires i + 1 < |path| ==> after[path[i + 1]] == before[path[i + 1]].(parent := Some(clone))
    requires forall j | 0 <= j < |before| && (i + 1 < |path| ==> j != path[i + 1]) :: after[j] == before[j]
    ensures Shells(after, es, path[i := clone], i)
  {
    var np := path[i := clone];
    forall k | i <= k < |np|
      ensures ShellAt(after, es, np, i, k)
    {
      if k == i {
        assert np[k] == clone;
        assert k + 1 < |np| ==> np[k + 1] == path[k + 1];
      } else {
        assert ShellAt(before, es, path, i + 1, k);
        assert np[k] == path[k];
        assert k + 1 < |np| ==> np[k + 1] == path[k + 1];
        if k > i + 1 {
          assert np[k - 1] == path[k - 1];
          assert path[k] != path[i + 1];
        }
      }
    }
  }

  lemma ShellsOuter(nodes: seq<DomNode>, es: seq<Element>, path: seq<NodeId>, from: nat)
    requires |path| == |es| && from < |path| && Shells(nodes, es, path, from)
    ensures path[from] < |nodes| && nodes[path[from]].parent == None
  {
    assert ShellAt(nodes, es, path, from, from);
  }

  lemma ShellsGrow(nodes: seq<DomNode>, extra: seq<DomNode>, es: seq<Element>, shells: seq<NodeId>)
    requires |shells| == |es| && Shells(nodes, es, shells, 0)
    ensures Shells(nodes + extra, es, shells, 0)
  {
    forall i | 0 <= i < |shells| ensures ShellAt(nodes + extra, es, shells, 0, i) {
      assert ShellAt(nodes, es, shells, 0, i);
    }
  }

  /** The shells hang under the region `region`: as `Shells`, except that the
      outermost one is the only child of `region`. */
  ghost predicate ShellsUnder(nodes: seq<DomNode>, es: seq<Element>, shells: seq<NodeId>, region: NodeId)
    requires |shells| == |es|
  {
    (forall i | 1 <= i < |shells| :: ShellAt(nodes, es, shells, 0, i))
    && region < |nodes| && nodes[region].children == (if shells == [] then [] else [shells[0]])
    && (shells != [] ==>
          shells[0] < |nodes| && nodes[shells[0]].parent == Some(region)
          && nodes[shells[0]].data == Elem(Continuation(es[0]))
          && nodes[shells[0]].children == (if 1 < |shells| then [shells[1]] else []))
  }

  /** Every shell hanging under a region is a node with a parent. */
  lemma ShellsHang(nodes: seq<DomNode>, es: seq<Element>, shells: seq<NodeId>, region: NodeId)
    requires |shells| == |es| && ShellsUnder(nodes, es, shells, region)
    ensures forall i | 0 <= i < |shells| :: shells[i] < |nodes| && nodes[shells[i]].parent.Some?
  {
    forall i | 1 <= i < |shells| ensures shells[i] < |nodes| && nodes[shells[i]].parent.Some? {
      assert ShellAt(nodes, es, shells, 0, i);
    }
  }

  lemma ShellsAttach(nodes: seq<DomNode>, es: seq<Element>, shells: seq<NodeId>, region: NodeId)
    requires WellLinked(nodes) && |shells| == |es| && Shells(nodes, es, shells, 0) && shells != []
    requires region < |nodes| && nodes[region].children == [] && nodes[region].data == Region
    ensures shells[0] < |nodes| && shells[0] != region
    ensures ShellsUnder(AppendedChild(nodes, region, shells[0]), es, shells, region)
  {
    assert ShellAt(nodes, es, shells, 0, 0);
    var r := AppendedChild(nodes, region, shells[0]);
    forall i | 1 <= i < |shells| ensures ShellAt(r, es, shells, 0, i) {
      assert ShellAt(nodes, es, shells, 0, i);
      assert nodes[shells[i]].parent.Some? && nodes[shells[0]].parent.None?;
      assert shells[i] != region;
    }
  }

  /** One iteration of `clonePath`'s loop: the shell of `es[i]` wraps the
      shells already made for the deeper elements. */
  method PrependShell(doc: Document, ghost es: seq<Element>, path: seq<NodeId>, i: nat, e: Element, ghost base: nat)
    returns (next: seq<NodeId>)
    requires doc.Valid() && |path| == |es| && i < |path| && e == es[i] && base <= |doc.nodes|
    requires Shells(doc.nodes, es, path, i + 1)
    requires forall j | i < j < |path| :: base <= path[j] < |doc.nodes|
    requires forall j, k | i < j < k < |path| :: path[j] != path[k]
    modifies doc
    ensures doc.Valid() && |doc.nodes| == |old(doc.nodes)| + 1
    ensures doc.nodes[..base] == old(doc.nodes)[..base]
    ensures next == path[i := |old(doc.nodes)|]
    ensures Shells(doc.nodes, es, next, i)
  {
    var inner: Option<NodeId> := None;
    if i < |path| - 1 {
      ShellsOuter(doc.nodes, es, path, i + 1);
      inner := Some(path[i + 1]);
    }
    ghost var before := doc.nodes;
    var clone := MakeShell(doc, e, inner);
    ShellsExtend(before, doc.nodes, es, path, i, clone);
    next := path[i := clone];
  }

  /** `clonePath(origPath)` (lines 803-816): fresh, continuation-marked shells
      of the path elements, nested outermost first and made deepest first. */
  method ClonePath(doc: Document, orig: seq<NodeId>) returns (newPath: seq<NodeId>, warnings: seq<Diagnostic>)
    requires doc.Valid() && forall i | 0 <= i < |orig| :: IsElement(doc.nodes, orig[i])
    modifies doc
    ensures doc.Valid() && |newPath| == |orig| && |doc.nodes| == |old(doc.nodes)| + |orig|
    ensures doc.nodes[..|old(doc.nodes)|] == old(doc.nodes)
    ensures forall i | 0 <= i < |orig| :: newPath[i] == |old(doc.nodes)| + (|orig| - 1 - i)
    ensures Shells(doc.nodes, ElementsOf(old(doc.nodes), orig), newPath, 0)
    ensures warnings == IdWarnings(ElementsOf(old(doc.nodes), orig), 0)
  {
    ghost var base := |doc.nodes|;
    ghost var es := ElementsOf(doc.nodes, orig);
    var n := |orig|;
    newPath := seq(n, _ => 0);
    warnings := [];
    var i := n;
    while i > 0
      invariant 0 <= i <= n && doc.Valid() && |doc.nodes| == base + (n - i)
      invariant doc.nodes[..base] == old(doc.nodes)
      invariant |newPath| == n && forall j | i <= j < n :: newPath[j] == base + (n - 1 - j)
      invariant Shells(doc.nodes, es, newPath, i)
      invariant warnings == IdWarnings(es, i)
    {
      i := i - 1;
      assert doc.nodes[orig[i]] == old(doc.nodes)[orig[i]];
      var e := doc.nodes[orig[i]].data.element;
      newPath := PrependShell(doc, es, newPath, i, e, base);
      warnings := warnings + IdWarning(e);
    }
  }

  /** Every node of `before` still carries the same data (kind, tag,
      attributes, text); only the links between nodes may have changed, and
      nodes may have been added. */
  ghost predicate DataKept(before: seq<DomNode>, after: seq<DomNode>)
  {
    |before| <= |after| && forall i | 0 <= i < |before| :: after[i].data == before[i].data
  }

  lemma KeptGrow(a: seq<DomNode>, extra: seq<DomNode>)
    ensures DataKept(a, a + extra)
  {
    forall i | 0 <= i < |a| ensures (a + extra)[i].data == a[i].data {
      assert (a + extra)[i] == a[i];
    }
  }

  /** The regions of a page stay regions while the data is kept. */
  lemma RegionsKept(p: Page, before: seq<DomNode>, after: seq<DomNode>)
    requires RegionsIn(p, before) && DataKept(before, after)
    ensures RegionsIn(p, after)
  {
    assert after[p.flow].data == before[p.flow].data;
    assert after[p.footer].data == before[p.footer].data;
  }

  lemma KeptTrans(a: seq<DomNode>, b: seq<DomNode>, c: seq<DomNode>)
    requires DataKept(a, b) && DataKept(b, c)
    ensures DataKept(a, c)
  {
    forall i | 0 <= i < |a| ensures c[i].data == a[i].data {
      assert b[i].data == a[i].data && c[i].data == b[i].data;
    }
  }

  /** The hook calls of the selector-free `newPage` rules for the page that
      will stand at index `index` (lines 593-597). */
  function NewPageCalls(rules: seq<Rule>, index: int): seq<HookCall>
  {
    Calls(Selected(rules, NewPage, _ => false), NewPage, OnPage(index))
  }

  /** `currentPage` is the last page, and no other page is it. */
  ghost predicate CurrentLast(pages: seq<Page>, current: Page?)
  {
    (pages == [] <==> current == null)
    && (pages != [] ==> current == pages[|pages| - 1] && forall i | 0 <= i < |pages| - 1 :: pages[i] != current)
  }

  /** The regions of a page are two region nodes. */
  ghost predicate RegionsIn(p: Page, nodes: seq<DomNode>)
  {
    p.flow < |nodes| && p.footer < |nodes| && p.flow != p.footer
    && nodes[p.flow].data == Region && nodes[p.footer].data == Region
  }

  ghost predicate PagesIn(pages: seq<Page>, nodes: seq<DomNode>)
  {
    forall i | 0 <= i < |pages| :: RegionsIn(pages[i], nodes)
  }

  /** Each path entry is an element node standing for its pushed element. */
  ghost predicate PathIn(nodes: seq<DomNode>, path: seq<NodeId>, elems: seq<Element>)
  {
    |path| == |elems| && forall i | 0 <= i < |path| :: PathEntry(nodes, path[i], elems[i])
  }

  lemma KeptPagesIn(before: seq<DomNode>, after: seq<DomNode>, pages: seq<Page>)
    requires DataKept(before, after) && PagesIn(pages, before)
    ensures PagesIn(pages, after)
  {
    forall i | 0 <= i < |pages| ensures RegionsIn(pages[i], after) {
      assert RegionsIn(pages[i], before);
    }
  }

  lemma KeptPathIn(before: seq<DomNode>, after: seq<DomNode>, path: seq<NodeId>, elems: seq<Element>)
    requires DataKept(before, after) && PathIn(before, path, elems)
    ensures PathIn(after, path, elems)
  {
    forall i | 0 <= i < |path| ensures PathEntry(after, path[i], elems[i]) {
      assert PathEntry(before, path[i], elems[i]);
    }
  }

  lemma ElementsIn(nodes: seq<DomNode>, path: seq<NodeId>, elems: seq<Element>)
    requires PathIn(nodes, path, elems)
    ensures forall i | 0 <= i < |path| :: IsElement(nodes, path[i])
  {
    forall i | 0 <= i < |path| ensures IsElement(nodes, path[i]) {
      assert PathEntry(nodes, path[i], elems[i]);
    }
  }

  /** The shells of a path stand for the same elements as the path. */
  lemma RenewedIn(before: seq<DomNode>, after: seq<DomNode>, orig: seq<NodeId>, shells: seq<NodeId>, elems: seq<Element>)
    requires PathIn(before, orig, elems) && |shells| == |orig| && |before| <= |after|
    requires after[..|before|] == before
    requires forall i | 0 <= i < |orig| :: IsElement(before, orig[i])
    requires Shells(after, ElementsOf(before, orig), shells, 0)
    ensures PathIn(after, shells, elems) && DataKept(before, after)
  {
    var es := ElementsOf(before, orig);
    forall i | 0 <= i < |shells| ensures PathEntry(after, shells[i], elems[i]) {
      assert ShellAt(after, es, shells, 0, i);
      assert PathEntry(before, orig[i], elems[i]);
    }
    forall i | 0 <= i < |before| ensures after[i].data == before[i].data {
      assert after[..|before|][i] == after[i];
    }
  }

  /** Moving a node keeps every page's regions and every path entry. */
  lemma AppendKeeps(nodes: seq<DomNode>, p: NodeId, c: NodeId, pages: seq<Page>, path: seq<NodeId>, elems: seq<Element>)
    requires WellLinked(nodes) && p < |nodes| && c < |nodes| && p != c
    requires PagesIn(pages, nodes) && PathIn(nodes, path, elems)
    ensures DataKept(nodes, AppendedChild(nodes, p, c))
    ensures PagesIn(pages, AppendedChild(nodes, p, c)) && PathIn(AppendedChild(nodes, p, c), path, elems)
  {
    var r := AppendedChild(nodes, p, c);
    KeptPagesIn(nodes, r, pages);
    KeptPathIn(nodes, r, path, elems);
  }

  /** Appending `n` to `host`, the innermost shell of `h`, hangs `n` in `h`
      and moves nothing else; an empty region that `n` did not come from
      stays empty. */
  lemma HangAppended(nodes: seq<DomNode>, host: NodeId, n: NodeId, h: Home, footer: NodeId)
    requires WellLinked(nodes) && host < |nodes| && n < |nodes| && footer < |nodes| && host != n
    requires nodes[host].data.Elem? && nodes[footer].data == Region
    requires h.chain != [] && host == h.chain[|h.chain| - 1] && Chained(nodes, h.chain, h.flow, h.cut)
    requires forall i | 0 <= i < |h.chain| :: h.chain[i] != n
    ensures ParentsKept(nodes, AppendedChild(nodes, host, n), {n}) && HangsIn(AppendedChild(nodes, host, n), n, h)
    ensures nodes[footer].children == [] && nodes[n].parent != Some(footer) ==>
      AppendedChild(nodes, host, n)[footer].children == []
  {
    ChainKeptBut(nodes, AppendedChild(nodes, host, n), h.chain, h.flow, h.cut, {n});
  }

  /** `newPage.flowContent.appendChild(state.path[0])` when there is a path
      (lines 616-618): the shells come to hang under the page's flow box. */
  method AttachShells(doc: Document, ghost es: seq<Element>, shells: seq<NodeId>, region: NodeId)
    requires doc.Valid() && region < |doc.nodes| && doc.nodes[region].data == Region
    requires doc.nodes[region].children == []
    requires |es| == |shells| && Shells(doc.nodes, es, shells, 0)
    requires shells != [] ==> shells[0] < |doc.nodes| && shells[0] != region
    modifies doc
    ensures doc.Valid() && ShellsUnder(doc.nodes, es, shells, region)
    ensures doc.nodes == if shells == [] then old(doc.nodes) else AppendedChild(old(doc.nodes), region, shells[0])
  {
    if shells != [] {
      ShellsAttach(doc.nodes, es, shells, region);
      doc.AppendChild(region, shells[0]);
    }
  }

  /** What `makeNextPage` leaves behind (lines 611-628), from the document
      `before` and the path `orig`: `attached` is the document once the new
      page's flow box holds the outermost of the fresh `shells`; if that page
      `overflowed`, the deepest shell is then taken out of its parent. */
  ghost predicate PageOpened(before: seq<DomNode>, orig: seq<NodeId>, attached: seq<DomNode>, shells: seq<NodeId>,
                             page: Page, overflowed: bool, after: seq<DomNode>)
  {
    |shells| == |orig| && (forall i | 0 <= i < |orig| :: IsElement(before, orig[i]))
    && |before| <= page.flow && |before| <= page.footer
    && before <= attached && RegionsIn(page, attached) && attached[page.footer].children == []
    && (forall i | 0 <= i < |shells| :: |before| <= shells[i] < |attached|)
    && WellLinked(attached) && |attached| == |after|
    && ShellsUnder(attached, ElementsOf(before, orig), shells, page.flow)
    && after == (if overflowed && shells != [] then Detached(attached, shells[|shells| - 1]) else attached)
  }

  /** Every node of `before` outside `moved` has the same parent in `after`. */
  ghost predicate ParentsKept(before: seq<DomNode>, after: seq<DomNode>, moved: set<NodeId>)
  {
    |before| <= |after| && forall i | 0 <= i < |before| && i !in moved :: after[i].parent == before[i].parent
  }

  /** Where a piece of text was put: under the innermost of the nodes
      `chain`, which hang from one another down from the flow box `flow` of
      a page. `cut` is the position in `chain` of a node that was taken out
      of its parent because that page overflowed at once (lines 620-627). */
  datatype Home = Home(flow: NodeId, chain: seq<NodeId>, cut: Option<nat>)

  /** The position of the shell `makeNextPage` takes out again, if any. */
  function CutAt(overflowed: bool, shells: seq<NodeId>): (r: Option<nat>)
    ensures r.Some? <==> overflowed && shells != []
    ensures r.Some? ==> r.value + 1 == |shells|
  {
    if overflowed && shells != [] then Some(|shells| - 1) else None
  }

  /** The nodes `chain` hang from one another, the outermost from the flow
      box `flow`, except the one at position `cut`, which has no parent. */
  ghost predicate Chained(nodes: seq<DomNode>, chain: seq<NodeId>, flow: NodeId, cut: Option<nat>)
  {
    chain != [] && (cut.Some? ==> cut.value < |chain|)
    && (forall i | 0 <= i < |chain| :: chain[i] < |nodes|)
    && chain[0] < |nodes| && nodes[chain[0]].parent == (if cut == Some(0) then None else Some(flow))
    && forall i | 1 <= i < |chain| ::
         chain[i] < |nodes| && nodes[chain[i]].parent == if cut == Some(i) then None else Some(chain[i - 1])
  }

  /** The node `x` hangs under the innermost shell of its home `h`. */
  ghost predicate HangsIn(nodes: seq<DomNode>, x: NodeId, h: Home)
  {
    Chained(nodes, h.chain, h.flow, h.cut) && x < |nodes| && nodes[x].parent == Some(h.chain[|h.chain| - 1])
  }

  /** The last piece is newer than the innermost node of the last home. */
  ghost predicate Trails(pieces: seq<NodeId>, homes: seq<Home>)
  {
    homes != [] && |pieces| == |homes| + 1 ==>
      var inner := homes[|homes| - 1].chain;
      inner != [] && inner[|inner| - 1] < pieces[|pieces| - 1]
  }

  /** `tail` is the last of `pieces`. */
  ghost predicate EndsWith(pieces: seq<NodeId>, tail: NodeId)
  {
    pieces != [] && pieces[|pieces| - 1] == tail
  }

  /** The pieces of a text are text nodes, numbered in the order they were
      made. */
  ghost predicate Pieces(nodes: seq<DomNode>, pieces: seq<NodeId>)
  {
    (forall k | 0 <= k < |pieces| :: pieces[k] < |nodes| && nodes[pieces[k]].data.Text?)
    && forall j, k | 0 <= j < k < |pieces| :: pieces[j] < pieces[k]
  }

  lemma PiecesCons(nodes: seq<DomNode>, head: NodeId, more: seq<NodeId>)
    requires Pieces(nodes, more) && more != [] && head < more[0] && head < |nodes| && nodes[head].data.Text?
    ensures Pieces(nodes, [head] + more)
  {
    var ps := [head] + more;
    forall j, k | 0 <= j < k < |ps| ensures ps[j] < ps[k] {
      assert ps[k] == more[k - 1];
      if j > 0 {
        assert ps[j] == more[j - 1];
      } else if k > 1 {
        assert more[0] < more[k - 1];
      }
    }
  }

  /** `n` hangs in `home`, a chain of nodes numbered `floor` or more that
      hangs from the flow box of `page`. */
  ghost predicate Landed(nodes: seq<DomNode>, n: NodeId, home: Home, page: Page, floor: nat)
  {
    home.flow == page.flow && HangsIn(nodes, n, home) && forall i | 0 <= i < |home.chain| :: floor <= home.chain[i]
  }

  /** After the first, each of `pieces` hangs in its home, and the homes are
      on consecutive pages of `pages` from position `base` on, the last of
      them the last page: the text continues, piece by piece, on the pages
      that follow. The homes are made of nodes numbered `floor` or more, each
      home's innermost node newer than the nodes of the homes before it. */
  ghost predicate Homed(nodes: seq<DomNode>, pieces: seq<NodeId>, homes: seq<Home>, pages: seq<Page>,
                        base: nat, floor: nat)
  {
    |pieces| == |homes| + 1 && |pages| == base + |homes|
    && (forall k | 0 <= k < |homes| :: homes[k].flow == pages[base + k].flow && HangsIn(nodes, pieces[k + 1], homes[k]))
    && (forall k, i | 0 <= k < |homes| && 0 <= i < |homes[k].chain| :: floor <= homes[k].chain[i])
    && Newest(homes)
  }

  /** The innermost node of the last home is newer than every node of the
      homes before it. */
  ghost predicate Newest(homes: seq<Home>)
  {
    homes != [] ==>
      var inner := homes[|homes| - 1].chain;
      inner != []
      && forall k, i | 0 <= k < |homes| - 1 && 0 <= i < |homes[k].chain| :: homes[k].chain[i] < inner[|inner| - 1]
  }

  /** Where the walk stands after the last piece: the path is the chain of
      the last home, and the footer of the last page is empty. */
  ghost predicate Resting(nodes: seq<DomNode>, homes: seq<Home>, pages: seq<Page>, path: seq<NodeId>)
  {
    homes != [] ==>
      path == homes[|homes| - 1].chain && pages != []
      && pages[|pages| - 1].footer < |nodes| && nodes[pages[|pages| - 1].footer].children == []
  }

  lemma ChainKept(a: seq<DomNode>, b: seq<DomNode>, chain: seq<NodeId>, flow: NodeId, cut: Option<nat>)
    requires Chained(a, chain, flow, cut) && ParentsKept(a, b, {})
    ensures Chained(b, chain, flow, cut)
  {
  }

  /** A node put under the innermost node of a home, while nothing else
      but that node changed, hangs in the home; an empty footer stays so. */
  lemma RemainderHome(made: seq<DomNode>, nodes: seq<DomNode>, h: Home, x: NodeId, footer: NodeId)
    requires Chained(made, h.chain, h.flow, h.cut) && ParentsKept(made, nodes, {})
    requires x < |nodes| && nodes[x].parent == Some(h.chain[|h.chain| - 1])
    requires footer < |made| && made[footer].children == [] && footer != h.chain[|h.chain| - 1]
    requires forall i | 0 <= i < |made| && i != h.chain[|h.chain| - 1] :: nodes[i] == made[i]
    ensures HangsIn(nodes, x, h) && nodes[footer].children == []
  {
    ChainKept(made, nodes, h.chain, h.flow, h.cut);
  }

  lemma HangsKept(a: seq<DomNode>, b: seq<DomNode>, x: NodeId, h: Home)
    requires HangsIn(a, x, h) && ParentsKept(a, b, {})
    ensures HangsIn(b, x, h)
  {
    ChainKept(a, b, h.chain, h.flow, h.cut);
  }

  /** A piece in its home on page `base`, in front of pieces homed from
      page `base + 1` on, in nodes made after that home. */
  lemma {:induction false} HomedCons(mid: seq<DomNode>, nodes: seq<DomNode>, head: NodeId, more: seq<NodeId>, h: Home,
                                     homes: seq<Home>, pages: seq<Page>, base: nat, floor: nat)
    requires more != [] && HangsIn(mid, more[0], h) && ParentsKept(mid, nodes, {})
    requires base < |pages| && h.flow == pages[base].flow
    requires forall i | 0 <= i < |h.chain| :: floor <= h.chain[i]
    requires Homed(nodes, more, homes, pages, base + 1, |mid|)
    ensures Homed(nodes, [head] + more, [h] + homes, pages, base, floor)
  {
    HangsKept(mid, nodes, more[0], h);
    HomesCons(nodes, head, more, h, homes, pages, base);
    assert floor <= h.chain[0] < |mid|;
    FloorCons(h, homes, floor, |mid|);
    NewestCons(mid, more[0], h, homes);
  }

  lemma HomesCons(nodes: seq<DomNode>, head: NodeId, more: seq<NodeId>, h: Home, homes: seq<Home>, pages: seq<Page>, base: nat)
    requires more != [] && HangsIn(nodes, more[0], h) && base < |pages| && h.flow == pages[base].flow
    requires |more| == |homes| + 1 && |pages| == base + 1 + |homes|
    requires forall k | 0 <= k < |homes| :: homes[k].flow == pages[base + 1 + k].flow && HangsIn(nodes, more[k + 1], homes[k])
    ensures forall k | 0 <= k < |homes| + 1 ::
      ([h] + homes)[k].flow == pages[base + k].flow && HangsIn(nodes, ([head] + more)[k + 1], ([h] + homes)[k])
  {
    var ps, hs := [head] + more, [h] + homes;
    forall k | 0 <= k < |hs| ensures hs[k].flow == pages[base + k].flow && HangsIn(nodes, ps[k + 1], hs[k]) {
      if k > 0 {
        assert hs[k] == homes[k - 1] && ps[k + 1] == more[k];
      }
    }
  }

  lemma FloorCons(h: Home, homes: seq<Home>, floor: nat, mid: nat)
    requires forall i | 0 <= i < |h.chain| :: floor <= h.chain[i]
    requires forall k, i | 0 <= k < |homes| && 0 <= i < |homes[k].chain| :: mid <= homes[k].chain[i]
    requires floor <= mid
    ensures forall k, i | 0 <= k < |homes| + 1 && 0 <= i < |([h] + homes)[k].chain| :: floor <= ([h] + homes)[k].chain[i]
  {
    var hs := [h] + homes;
    forall k, i | 0 <= k < |hs| && 0 <= i < |hs[k].chain| ensures floor <= hs[k].chain[i] {
      if k > 0 {
        assert hs[k] == homes[k - 1];
        assert mid <= homes[k - 1].chain[i];
      }
    }
  }

  lemma NewestCons(mid: seq<DomNode>, x: NodeId, h: Home, homes: seq<Home>)
    requires HangsIn(mid, x, h) && Newest(homes)
    requires forall k, i | 0 <= k < |homes| && 0 <= i < |homes[k].chain| :: |mid| <= homes[k].chain[i]
    ensures Newest([h] + homes)
  {
    var hs := [h] + homes;
    if homes != [] {
      var inner := homes[|homes| - 1].chain;
      assert hs[|hs| - 1] == homes[|homes| - 1];
      assert |mid| <= inner[|inner| - 1];
      forall k, i | 0 <= k < |hs| - 1 && 0 <= i < |hs[k].chain| ensures hs[k].chain[i] < inner[|inner| - 1] {
        if k > 0 {
          assert hs[k] == homes[k - 1];
        } else {
          assert Chained(mid, h.chain, h.flow, h.cut);
        }
      }
    }
  }

  /** What `SplitOn` makes of a split: the node `cur` holding `placed`, and
      the pieces `more` of the remainder, the first of them hanging in `h`. */
  lemma SplitJoined(start: seq<DomNode>, split: seq<DomNode>, nodes: seq<DomNode>, startPages: seq<Page>,
                    midPages: seq<Page>, pages: seq<Page>, midPath: seq<NodeId>, path: seq<NodeId>,
                    cur: NodeId, placed: string, remainder: string, text: string, more: seq<NodeId>,
                    h: Home, homes: seq<Home>, done: bool)
    requires |start| <= |split| && cur < |start| && startPages <= midPages && |midPages| == |startPages| + 1
    requires more != [] && |start| <= more[0] < |nodes| && Covers(nodes, |split|, more[0], remainder, more)
    requires ValueOf(nodes, cur) == placed && placed + remainder == text && nodes[cur].data.Text?
    requires !done ==> EndsUnplaced(nodes, more)
    requires HangsIn(split, more[0], h) && ParentsKept(split, nodes, {})
    requires h.flow == midPages[|startPages|].flow && forall i | 0 <= i < |h.chain| :: |start| <= h.chain[i]
    requires Homed(nodes, more, homes, pages, |midPages|, |split|) && Pieces(nodes, more)
    requires Resting(split, [h], midPages, midPath) && Resting(nodes, homes, pages, path)
    requires homes == [] ==> nodes == split && pages == midPages && path == midPath
    requires midPages <= pages
    ensures Covers(nodes, |start|, cur, text, [cur] + more) && Pieces(nodes, [cur] + more)
    ensures !done ==> EndsUnplaced(nodes, [cur] + more)
    ensures startPages <= pages && Homed(nodes, [cur] + more, [h] + homes, pages, |startPages|, |start|)
    ensures Resting(nodes, [h] + homes, pages, path)
  {
    if !done {
      UnplacedCons(nodes, cur, more);
    }
    CoversCons(nodes, |start|, |split|, cur, placed, remainder, text, more);
    HomedCons(split, nodes, cur, more, h, homes, pages, |startPages|, |start|);
    PrefixTrans(startPages, midPages, pages);
    RestingCons(split, nodes, midPages, pages, midPath, path, h, homes);
    PiecesCons(nodes, cur, more);
  }

  lemma TrailsCons(cur: NodeId, more: seq<NodeId>, h: Home, homes: seq<Home>, tail: NodeId)
    requires |more| == |homes| + 1 && h.chain != [] && h.chain[|h.chain| - 1] < more[0]
    requires Trails(more, homes) && EndsWith(more, tail)
    ensures Trails([cur] + more, [h] + homes) && EndsWith([cur] + more, tail)
  {
    assert ([cur] + more)[|more|] == more[|more| - 1];
    if homes != [] {
      assert ([h] + homes)[|homes|] == homes[|homes| - 1];
    }
  }

  lemma PrefixTrans<T>(a: seq<T>, b: seq<T>, c: seq<T>)
    requires a <= b && b <= c
    ensures a <= c
  {
  }

  /** The nodes whose parent `moveNodeToNextPage` changes: the node moved
      and the footnote carried over. */
  function Moved(n: NodeId, fn: Option<NodeId>): set<NodeId>
  {
    {n} + FootSet(fn)
  }

  function FootSet(fn: Option<NodeId>): set<NodeId>
  {
    if fn.Some? then {fn.value} else {}
  }

  lemma ChainKeptBut(a: seq<DomNode>, b: seq<DomNode>, chain: seq<NodeId>, flow: NodeId, cut: Option<nat>, moved: set<NodeId>)
    requires Chained(a, chain, flow, cut) && ParentsKept(a, b, moved)
    requires forall i | 0 <= i < |chain| :: chain[i] !in moved
    ensures Chained(b, chain, flow, cut)
  {
  }

  lemma MovedTrans(a: seq<DomNode>, b: seq<DomNode>, c: seq<DomNode>, n: NodeId, fn: Option<NodeId>)
    requires ParentsKept(a, b, FootSet(fn)) && ParentsKept(b, c, {n})
    ensures ParentsKept(a, c, Moved(n, fn))
  {
  }

  lemma ParentsGrow(a: seq<DomNode>, b: seq<DomNode>, c: seq<DomNode>, moved: set<NodeId>)
    requires ParentsKept(a, b, {}) && ParentsKept(b, c, moved)
    ensures ParentsKept(a, c, moved)
  {
  }

  lemma ParentsKeptTrans(a: seq<DomNode>, b: seq<DomNode>, c: seq<DomNode>)
    requires ParentsKept(a, b, {}) && ParentsKept(b, c, {})
    ensures ParentsKept(a, c, {})
  {
  }

  lemma ParentsTrans(a: seq<DomNode>, b: seq<DomNode>, c: seq<DomNode>, x: set<NodeId>, y: set<NodeId>)
    requires ParentsKept(a, b, x) && ParentsKept(b, c, y)
    ensures ParentsKept(a, c, x + y)
  {
  }

  lemma HomedFloor(nodes: seq<DomNode>, pieces: seq<NodeId>, homes: seq<Home>, pages: seq<Page>,
                   base: nat, floor: nat, inner: nat)
    requires Homed(nodes, pieces, homes, pages, base, inner) && floor <= inner
    ensures Homed(nodes, pieces, homes, pages, base, floor)
  {
  }

  /** Where the walk stands after a piece in its home `h` and the pieces
      homed in `homes` after it. */
  lemma RestingCons(mid: seq<DomNode>, nodes: seq<DomNode>, midPages: seq<Page>, pages: seq<Page>,
                    midPath: seq<NodeId>, path: seq<NodeId>, h: Home, homes: seq<Home>)
    requires Resting(mid, [h], midPages, midPath) && Resting(nodes, homes, pages, path)
    requires homes == [] ==> nodes == mid && pages == midPages && path == midPath
    ensures Resting(nodes, [h] + homes, pages, path)
  {
    if homes != [] {
      assert ([h] + homes)[|homes|] == homes[|homes| - 1];
    }
  }

  /** A text that fits where it is put has no pieces on other pages. */
  lemma HomedOne(nodes: seq<DomNode>, head: NodeId, pages: seq<Page>, floor: nat)
    ensures Homed(nodes, [head], [], pages, |pages|, floor)
  {
  }

  /** The shells under a flow box hang from one another, each an element. */
  lemma ShellLinks(nodes: seq<DomNode>, es: seq<Element>, shells: seq<NodeId>, flow: NodeId)
    requires |shells| == |es| && ShellsUnder(nodes, es, shells, flow)
    ensures forall i | 0 <= i < |shells| ::
      shells[i] < |nodes| && nodes[shells[i]].data.Elem? && (nodes[shells[i]].children == [] <==> i == |shells| - 1)
    ensures shells != [] ==> nodes[shells[0]].parent == Some(flow)
    ensures forall i | 1 <= i < |shells| :: nodes[shells[i]].parent == Some(shells[i - 1])
  {
    forall i | 1 <= i < |shells|
      ensures shells[i] < |nodes| && nodes[shells[i]].data.Elem? && nodes[shells[i]].parent == Some(shells[i - 1])
      && (nodes[shells[i]].children == [] <==> i == |shells| - 1)
    {
      assert ShellAt(nodes, es, shells, 0, i);
    }
  }

  /** What `makeNextPage` leaves behind keeps the nodes that were there, has
      an empty footer on the new page, and hangs the new shells from its flow
      box. */
  lemma OpenedKeeps(before: seq<DomNode>, orig: seq<NodeId>, attached: seq<DomNode>, shells: seq<NodeId>,
                    page: Page, overflowed: bool, after: seq<DomNode>)
    requires PageOpened(before, orig, attached, shells, page, overflowed, after)
    ensures before <= after && page.footer < |after| && after[page.footer].children == []
    ensures shells != [] ==> Chained(after, shells, page.flow, CutAt(overflowed, shells))
  {
    ShellLinks(attached, ElementsOf(before, orig), shells, page.flow);
    if overflowed && shells != [] {
      DetachedShell(before, attached, shells, page);
    }
  }

  /** Taking the innermost shell out again touches only new nodes. */
  lemma DetachedShell(before: seq<DomNode>, attached: seq<DomNode>, shells: seq<NodeId>, page: Page)
    requires WellLinked(attached) && before <= attached && RegionsIn(page, attached) && shells != []
    requires forall i | 0 <= i < |shells| :: |before| <= shells[i] < |attached|
    requires |before| <= page.flow
    requires forall i | 0 <= i < |shells| ::
      attached[shells[i]].data.Elem? && (attached[shells[i]].children == [] <==> i == |shells| - 1)
    requires attached[shells[0]].parent == Some(page.flow)
    requires forall i | 1 <= i < |shells| :: attached[shells[i]].parent == Some(shells[i - 1])
    ensures before <= Detached(attached, shells[|shells| - 1])
    ensures Detached(attached, shells[|shells| - 1])[page.footer] == attached[page.footer]
    ensures Chained(Detached(attached, shells[|shells| - 1]), shells, page.flow, Some(|shells| - 1))
  {
    var last := |shells| - 1;
    var s := shells[last];
    var p := if last == 0 then page.flow else shells[last - 1];
    assert attached[s].data.Elem? && attached[s].parent == Some(p);
    if last > 0 {
      assert attached[shells[last - 1]].data.Elem?;
    }
    assert |before| <= p && p != page.footer && s != page.footer;
    var after := Detached(attached, s);
    forall i | 0 <= i < |before| ensures after[i] == before[i] {
      assert attached[i] == before[i];
    }
    forall i | 0 <= i < |shells| ensures shells[i] < |after| && after[shells[i]].parent == if i == last then None else attached[shells[i]].parent {
      if i < last {
        assert attached[shells[i]].children != [];
      }
    }
  }

  /** The error logged when the new page already overflows (line 625). */
  ghost function Dropped(attached: seq<DomNode>, shells: seq<NodeId>, overflowed: bool): seq<Diagnostic>
  {
    if overflowed && shells != [] && shells[|shells| - 1] < |attached| && attached[shells[|shells| - 1]].data.Elem?
    then [AlreadyOverflowing(attached[shells[|shells| - 1]].data.element)]
    else []
  }

  /** `elmt.matches(selector)` for a fixed element, as a test on selectors. */
  function Matcher(matches: (Element, string) -> bool, e: Element): string -> bool
  {
    s => matches(e, s)
  }

  /** The calls of one more hook, seen within their phase. */
  lemma PhaseStep(start: seq<HookCall>, mid: seq<HookCall>, calls: seq<HookCall>,
                  before: seq<HookCall>, after: seq<HookCall>)
    requires InPhase(mid, BeforeAdd) == InPhase(start, BeforeAdd) + before
    requires after == before + InPhase(calls, BeforeAdd)
    ensures InPhase(mid + calls, BeforeAdd) == InPhase(start, BeforeAdd) + after
  {
    InPhaseAppend(mid, calls, BeforeAdd);
  }

  /** The `beforeAdd` calls of one `Twice` turn more. */
  lemma TwiceStep(sel: seq<nat>, retries: seq<bool>, e: Element, k: nat, again: bool)
    requires k < |sel| && |retries| == k
    ensures Twice(sel[..k + 1], retries + [again], e)
         == Twice(sel[..k], retries, e)
            + (if again then [HookCall(BeforeAdd, sel[k], OnElement(e)), HookCall(BeforeAdd, sel[k], OnElement(e))]
               else [HookCall(BeforeAdd, sel[k], OnElement(e))])
  {
    assert sel[..k + 1][..k] == sel[..k];
    assert (retries + [again])[..k] == retries;
  }

  /** Every node of `before` but `x` still carries the same data. */
  ghost predicate DataKeptBut(before: seq<DomNode>, after: seq<DomNode>, x: NodeId)
  {
    |before| <= |after| && forall i | 0 <= i < |before| && i != x :: after[i].data == before[i].data
  }

  lemma KeptButTrans(a: seq<DomNode>, b: seq<DomNode>, c: seq<DomNode>, x: NodeId, y: NodeId)
    requires DataKeptBut(a, b, x) && DataKeptBut(b, c, y) && (y == x || y >= |a|)
    ensures DataKeptBut(a, c, x)
  {
    forall i | 0 <= i < |a| && i != x ensures c[i].data == a[i].data {
      assert b[i].data == a[i].data && c[i].data == b[i].data;
    }
  }

  lemma KeptBut(a: seq<DomNode>, b: seq<DomNode>, x: NodeId)
    requires DataKept(a, b)
    ensures DataKeptBut(a, b, x)
  {
  }

  /** The value of a text node; nothing for any other node. */
  ghost function ValueOf(nodes: seq<DomNode>, id: NodeId): string
  {
    if id < |nodes| && nodes[id].data.Text? then nodes[id].data.value else ""
  }

  /** The text held by the nodes `ids`, read in that order. */
  ghost function JoinedText(nodes: seq<DomNode>, ids: seq<NodeId>): string
  {
    if ids == [] then "" else JoinedText(nodes, ids[..|ids| - 1]) + ValueOf(nodes, ids[|ids| - 1])
  }

  lemma JoinedSnoc(nodes: seq<DomNode>, ids: seq<NodeId>, id: NodeId)
    ensures JoinedText(nodes, ids + [id]) == JoinedText(nodes, ids) + ValueOf(nodes, id)
  {
    assert (ids + [id])[..|ids|] == ids;
  }

  /** Nodes whose data did not change hold the same text. */
  lemma {:induction false} JoinedKept(before: seq<DomNode>, after: seq<DomNode>, ids: seq<NodeId>, x: NodeId)
    requires DataKeptBut(before, after, x)
    requires forall k | 0 <= k < |ids| :: ids[k] < |before| && ids[k] != x
    ensures JoinedText(after, ids) == JoinedText(before, ids)
  {
    if ids != [] {
      JoinedKept(before, after, ids[..|ids| - 1], x);
    }
  }

  /** The text nodes `pieces` hold `text` between them, the first is `head`
      and the others were created at or after node count `floor`. */
  ghost predicate Covers(nodes: seq<DomNode>, floor: nat, head: NodeId, text: string, pieces: seq<NodeId>)
  {
    pieces != [] && pieces[0] == head && JoinedText(nodes, pieces) == text
    && forall k | 1 <= k < |pieces| :: floor <= pieces[k] < |nodes|
  }

  /** The last of `pieces` holds text that is not all white space: the text
      a cancelled pass leaves behind. */
  ghost predicate EndsUnplaced(nodes: seq<DomNode>, pieces: seq<NodeId>)
  {
    pieces != [] && !IsBlank(ValueOf(nodes, pieces[|pieces| - 1]))
  }

  lemma UnplacedCons(nodes: seq<DomNode>, head: NodeId, more: seq<NodeId>)
    requires EndsUnplaced(nodes, more)
    ensures EndsUnplaced(nodes, [head] + more)
  {
    assert ([head] + more)[|more|] == more[|more| - 1];
  }

  lemma CoversOne(nodes: seq<DomNode>, floor: nat, id: NodeId, text: string)
    requires ValueOf(nodes, id) == text
    ensures Covers(nodes, floor, id, text, [id])
  {
    assert [id][..0] == [];
  }

  /** A piece placed in front of the pieces of the rest of its text. */
  lemma CoversCons(nodes: seq<DomNode>, floor: nat, inner: nat, head: NodeId, placed: string,
                   rest: string, text: string, more: seq<NodeId>)
    requires more != [] && Covers(nodes, inner, more[0], rest, more) && floor <= inner && floor <= more[0] < |nodes|
    requires ValueOf(nodes, head) == placed && placed + rest == text
    ensures Covers(nodes, floor, head, text, [head] + more)
  {
    JoinedCons(nodes, head, more);
  }

  /** `hasOverflowed()` of the page with regions `flow` and `footer` while the
      text node `t` holds `v`: the test the splitter runs on each probe. */
  function TextOver(overflows: (seq<DomNode>, NodeId, NodeId) -> bool, nodes: seq<DomNode>, t: NodeId,
                    flow: NodeId, footer: NodeId): string -> bool
  {
    v => if t < |nodes| then overflows(nodes[t := nodes[t].(data := Text(v))], flow, footer)
         else overflows(nodes, flow, footer)
  }

  lemma PathInPrefix(nodes: seq<DomNode>, path: seq<NodeId>, elems: seq<Element>)
    requires PathIn(nodes, path, elems) && path != []
    ensures PathIn(nodes, path[..|path| - 1], elems[..|elems| - 1])
  {
    var p, es := path[..|path| - 1], elems[..|elems| - 1];
    forall i | 0 <= i < |p| ensures PathEntry(nodes, p[i], es[i]) {
      assert PathEntry(nodes, path[i], elems[i]);
    }
  }

  lemma PathInPush(nodes: seq<DomNode>, path: seq<NodeId>, elems: seq<Element>, n: NodeId, e: Element)
    requires PathIn(nodes, path, elems) && PathEntry(nodes, n, e)
    ensures PathIn(nodes, path + [n], elems + [e])
  {
    forall i | 0 <= i < |path| + 1 ensures PathEntry(nodes, (path + [n])[i], (elems + [e])[i]) {
      if i < |path| {
        assert PathEntry(nodes, path[i], elems[i]);
      }
    }
  }

  lemma JoinedCons(nodes: seq<DomNode>, id: NodeId, ids: seq<NodeId>)
    ensures JoinedText(nodes, [id] + ids) == ValueOf(nodes, id) + JoinedText(nodes, ids)
  {
    JoinedAppend(nodes, [id], ids);
    JoinedSnoc(nodes, [], id);
    assert [] + [id] == [id];
  }


  /** Setting the value of a text node leaves every region and path entry in place. */
  lemma TextSetKeeps(nodes: seq<DomNode>, t: NodeId, v: string, pages: seq<Page>, path: seq<NodeId>, elems: seq<Element>)
    requires t < |nodes| && nodes[t].data.Text? && PagesIn(pages, nodes) && PathIn(nodes, path, elems)
    ensures DataKeptBut(nodes, nodes[t := nodes[t].(data := Text(v))], t)
    ensures PagesIn(pages, nodes[t := nodes[t].(data := Text(v))])
    ensures PathIn(nodes[t := nodes[t].(data := Text(v))], path, elems)
  {
    var after := nodes[t := nodes[t].(data := Text(v))];
    forall i | 0 <= i < |pages| ensures RegionsIn(pages[i], after) {
      assert RegionsIn(pages[i], nodes);
    }
    forall i | 0 <= i < |path| ensures PathEntry(after, path[i], elems[i]) {
      assert PathEntry(nodes, path[i], elems[i]);
    }
  }

  function Width(c: Content): nat
  {
    if c.ElementNode? then |c.children| + 2 else 0
  }

  /** The text the walk lays out for a child: a text node's value, the text
      of an element's children in order, and nothing for a `SCRIPT` element
      (skipped, lines 745-746) or a node of another kind. */
  function ChildText(c: Content): string
    decreases c, Width(c)
  {
    match c
    case TextNode(v) => v
    case ElementNode(e, kids) => if e.tag == "SCRIPT" then "" else KidsText(c, |kids|)
    case OtherNode(_) => ""
  }

  /** The text of the first `n` children of the element `c`. */
  function KidsText(c: Content, n: nat): string
    requires c.ElementNode? && n <= |c.children|
    decreases c, n
  {
    if n == 0 then "" else KidsText(c, n - 1) + ChildText(c.children[n - 1])
  }

  /** The text nodes `ids`, all made at or after node count `floor`, hold
      `text` between them, read in that order. */
  ghost predicate Spells(nodes: seq<DomNode>, floor: nat, ids: seq<NodeId>, text: string)
  {
    JoinedText(nodes, ids) == text && forall k | 0 <= k < |ids| :: floor <= ids[k] < |nodes|
  }

  lemma {:induction false} JoinedAppend(nodes: seq<DomNode>, a: seq<NodeId>, b: seq<NodeId>)
    ensures JoinedText(nodes, a + b) == JoinedText(nodes, a) + JoinedText(nodes, b)
    decreases |b|
  {
    if b == [] {
      assert a + b == a;
    } else {
      var init, x := b[..|b| - 1], b[|b| - 1];
      assert b == init + [x];
      assert a + b == (a + init) + [x];
      JoinedAppend(nodes, a, init);
      JoinedSnoc(nodes, a + init, x);
      JoinedSnoc(nodes, init, x);
      SeqAssoc(JoinedText(nodes, a), JoinedText(nodes, init), ValueOf(nodes, x));
    }
  }

  /** Text laid out before a step, followed by the text the step laid out in
      nodes it made, spells both texts in order. */
  lemma SpellsAppend(before: seq<DomNode>, after: seq<DomNode>, floor: nat,
                     a: seq<NodeId>, sa: string, b: seq<NodeId>, sb: string)
    requires Spells(before, floor, a, sa) && DataKept(before, after) && Spells(after, |before|, b, sb)
    requires floor <= |before|
    ensures Spells(after, floor, a + b, sa + sb)
  {
    JoinedKept(before, after, a, |before|);
    JoinedAppend(after, a, b);
    forall k | 0 <= k < |a + b| ensures floor <= (a + b)[k] < |after| {
      if k >= |a| {
        assert (a + b)[k] == b[k - |a|];
      }
    }
  }

  lemma CoversSpells(nodes: seq<DomNode>, floor: nat, inner: nat, t: NodeId, v: string, pieces: seq<NodeId>)
    requires Covers(nodes, inner, t, v, pieces) && floor <= t < |nodes| && floor <= inner
    ensures Spells(nodes, floor, pieces, v)
  {
  }

  lemma SpellsFloor(nodes: seq<DomNode>, floor: nat, inner: nat, ids: seq<NodeId>, text: string)
    requires Spells(nodes, inner, ids, text) && floor <= inner
    ensures Spells(nodes, floor, ids, text)
  {
  }

  /** Consecutive page positions from `base` on. */
  function Consecutive(base: nat, n: nat): (r: seq<nat>)
    ensures |r| == n && forall k | 0 <= k < n :: r[k] == base + k
  {
    if n == 0 then [] else Consecutive(base, n - 1) + [base + n - 1]
  }

  /** Page positions in strictly rising order. */
  ghost predicate Rising(at: seq<nat>)
  {
    forall j, k | 0 <= j < k < |at| :: at[j] < at[k]
  }

  /** After the first, piece `k + 1` of `pieces` hangs in `homes[k]`, on the
      page at position `at[k]` of `pages`, no earlier than `from`. */
  ghost predicate HomesOn(nodes: seq<DomNode>, pieces: seq<NodeId>, homes: seq<Home>, at: seq<nat>,
                          pages: seq<Page>, from: nat)
  {
    |pieces| == |homes| + 1 && |at| == |homes|
    && forall k | 0 <= k < |homes| ::
         from <= at[k] < |pages| && homes[k].flow == pages[at[k]].flow && HangsIn(nodes, pieces[k + 1], homes[k])
  }

  /** The pieces after the first hang in their homes on pages at rising
      positions from `from` on: the text runs on, piece by piece, over later
      pages. */
  ghost predicate Laid(nodes: seq<DomNode>, pieces: seq<NodeId>, homes: seq<Home>, at: seq<nat>,
                       pages: seq<Page>, from: nat)
  {
    HomesOn(nodes, pieces, homes, at, pages, from) && Rising(at) && Newest(homes) && Trails(pieces, homes)
  }

  /** Homes on consecutive pages are laid out in rising order. */
  lemma HomedLaid(nodes: seq<DomNode>, pieces: seq<NodeId>, homes: seq<Home>, pages: seq<Page>,
                  base: nat, floor: nat, from: nat)
    requires Homed(nodes, pieces, homes, pages, base, floor) && Trails(pieces, homes) && from <= base
    ensures Laid(nodes, pieces, homes, Consecutive(base, |homes|), pages, from)
  {
  }

  lemma RisingAppend(at: seq<nat>, base: nat, n: nat)
    requires Rising(at) && forall k | 0 <= k < |at| :: at[k] < base
    ensures Rising(at + Consecutive(base, n))
  {
    var ts := at + Consecutive(base, n);
    forall j, k | 0 <= j < k < |ts| ensures ts[j] < ts[k] {
      if k < |at| {
        assert ts[j] == at[j] && ts[k] == at[k];
      } else if j < |at| {
        assert ts[j] == at[j] && ts[k] == base + (k - |at|);
      } else {
        assert ts[j] == base + (j - |at|) && ts[k] == base + (k - |at|);
      }
    }
  }

  lemma HomesOnAppend(nodes: seq<DomNode>, a: seq<NodeId>, h: seq<Home>, at: seq<nat>, b: seq<NodeId>,
                      h2: seq<Home>, pages: seq<Page>, base: nat, floor: nat, from: nat)
    requires HomesOn(nodes, a, h, at, pages, from) && Homed(nodes, b, h2, pages, base, floor)
    requires a[|a| - 1] == b[0] && from <= base
    ensures HomesOn(nodes, a + b[1..], h + h2, at + Consecutive(base, |h2|), pages, from)
  {
    var ps, hs, ts := a + b[1..], h + h2, at + Consecutive(base, |h2|);
    forall k | 0 <= k < |hs|
      ensures from <= ts[k] < |pages| && hs[k].flow == pages[ts[k]].flow && HangsIn(nodes, ps[k + 1], hs[k])
    {
      if k < |h| {
        assert ts[k] == at[k] && hs[k] == h[k] && ps[k + 1] == a[k + 1];
      } else {
        assert ts[k] == base + (k - |h|) && hs[k] == h2[k - |h|] && ps[k + 1] == b[k - |h| + 1];
      }
    }
  }

  lemma NewestAppend(a: seq<NodeId>, h: seq<Home>, b: seq<NodeId>, h2: seq<Home>, floor: nat)
    requires |a| == |h| + 1 && |b| == |h2| + 1 && a[|a| - 1] == b[0]
    requires Newest(h) && Trails(a, h) && Newest(h2) && Trails(b, h2)
    requires forall k, i | 0 <= k < |h2| && 0 <= i < |h2[k].chain| :: floor <= h2[k].chain[i]
    requires forall k, i | 0 <= k < |h| && 0 <= i < |h[k].chain| :: h[k].chain[i] < floor
    ensures Newest(h + h2) && Trails(a + b[1..], h + h2)
  {
    var ps, hs := a + b[1..], h + h2;
    if h2 != [] {
      var inner := h2[|h2| - 1].chain;
      assert hs[|hs| - 1] == h2[|h2| - 1] && ps[|ps| - 1] == b[|b| - 1];
      assert floor <= inner[|inner| - 1];
      forall k, i | 0 <= k < |hs| - 1 && 0 <= i < |hs[k].chain| ensures hs[k].chain[i] < inner[|inner| - 1] {
        if k < |h| {
          assert hs[k] == h[k];
        } else {
          assert hs[k] == h2[k - |h|];
        }
      }
    } else {
      assert hs == h && ps == a;
    }
  }

  /** Laid-out pieces followed by pieces homed on consecutive pages from
      `base` on, in nodes newer than the homes of the first. */
  lemma LaidAppend(nodes: seq<DomNode>, a: seq<NodeId>, h: seq<Home>, at: seq<nat>, b: seq<NodeId>,
                   h2: seq<Home>, pages: seq<Page>, base: nat, floor: nat, from: nat)
    requires Laid(nodes, a, h, at, pages, from) && Homed(nodes, b, h2, pages, base, floor) && Trails(b, h2)
    requires a[|a| - 1] == b[0] && from <= base
    requires forall k | 0 <= k < |at| :: at[k] < base
    requires forall k, i | 0 <= k < |h| && 0 <= i < |h[k].chain| :: h[k].chain[i] < floor
    ensures Laid(nodes, a + b[1..], h + h2, at + Consecutive(base, |h2|), pages, from)
  {
    HomesOnAppend(nodes, a, h, at, b, h2, pages, base, floor, from);
    RisingAppend(at, base, |h2|);
    NewestAppend(a, h, b, h2, floor);
  }

  /** The nodes `chain` hang from one another, and `x` hangs from the
      innermost: so do `chain + [x]`. */
  lemma ChainExtend(nodes: seq<DomNode>, chain: seq<NodeId>, flow: NodeId, cut: Option<nat>, x: NodeId)
    requires Chained(nodes, chain, flow, cut) && x < |nodes| && nodes[x].parent == Some(chain[|chain| - 1])
    ensures Chained(nodes, chain + [x], flow, cut)
  {
    var ext := chain + [x];
    assert ext[0] == chain[0];
    forall i | 0 <= i < |ext| ensures ext[i] < |nodes| {
      if i < |chain| {
        assert ext[i] == chain[i];
      }
    }
    forall i | 1 <= i < |ext|
      ensures nodes[ext[i]].parent == if cut == Some(i) then None else Some(ext[i - 1])
    {
      if i < |chain| {
        assert ext[i] == chain[i] && ext[i - 1] == chain[i - 1];
      } else {
        assert ext[i - 1] == chain[|chain| - 1];
      }
    }
    assert Chained(nodes, ext, flow, cut);
  }

  /** The last home replaced by `ph`, on the page at `pos`: the pieces
      before the last keep their homes while only `moved` changed parent. */
  lemma HomesOnLast(b: seq<DomNode>, d: seq<DomNode>, out: seq<NodeId>, homes: seq<Home>, at: seq<nat>,
                    pages: seq<Page>, later: seq<Page>, from: nat, pos: nat, ph: Home, moved: set<NodeId>)
    requires HomesOn(b, out, homes, at, pages, from) && homes != [] && ParentsKept(b, d, moved)
    requires forall k, i | 0 <= k < |homes| - 1 && 0 <= i < |homes[k].chain| :: homes[k].chain[i] !in moved
    requires forall k | 1 <= k < |out| - 1 :: out[k] !in moved
    requires pages <= later && from <= pos < |later| && later[pos].flow == ph.flow
    requires HangsIn(d, out[|out| - 1], ph)
    ensures HomesOn(d, out, homes[|homes| - 1 := ph], at[|at| - 1 := pos], later, from)
  {
    var lh := |homes| - 1;
    var hs, ts := homes[lh := ph], at[lh := pos];
    forall k | 0 <= k < |hs|
      ensures from <= ts[k] < |later| && hs[k].flow == later[ts[k]].flow && HangsIn(d, out[k + 1], hs[k])
    {
      if k < lh {
        ChainKeptBut(b, d, homes[k].chain, homes[k].flow, homes[k].cut, moved);
      }
    }
  }

  /** A layout whose last piece was re-homed in `ph` on page `pos`, past
      every page used so far, while the other pieces and homes stayed put. */
  lemma LaidLast(b: seq<DomNode>, d: seq<DomNode>, out: seq<NodeId>, homes: seq<Home>, at: seq<nat>,
                 pages: seq<Page>, later: seq<Page>, from: nat, pos: nat, ph: Home, moved: set<NodeId>)
    requires Laid(b, out, homes, at, pages, from) && homes != [] && ParentsKept(b, d, moved)
    requires forall k, i | 0 <= k < |homes| - 1 && 0 <= i < |homes[k].chain| :: homes[k].chain[i] !in moved
    requires forall k | 1 <= k < |out| - 1 :: out[k] !in moved
    requires pages <= later && pos == |pages| < |later| && later[pos].flow == ph.flow
    requires HangsIn(d, out[|out| - 1], ph)
    requires ph.chain[|ph.chain| - 1] == homes[|homes| - 1].chain[|homes[|homes| - 1].chain| - 1]
    ensures Laid(d, out, homes[|homes| - 1 := ph], at[|at| - 1 := pos], later, from)
  {
    assert from <= at[0] < |pages|;
    HomesOnLast(b, d, out, homes, at, pages, later, from, pos, ph, moved);
    RisingLast(at, pos);
    NewestLast(out, homes, ph);
  }

  lemma RisingLast(at: seq<nat>, pos: nat)
    requires Rising(at) && at != [] && forall k | 0 <= k < |at| :: at[k] < pos
    ensures Rising(at[|at| - 1 := pos])
  {
  }

  lemma NewestLast(out: seq<NodeId>, homes: seq<Home>, ph: Home)
    requires Newest(homes) && Trails(out, homes) && homes != [] && |out| == |homes| + 1 && ph.chain != []
    requires ph.chain[|ph.chain| - 1] == homes[|homes| - 1].chain[|homes[|homes| - 1].chain| - 1]
    ensures Newest(homes[|homes| - 1 := ph]) && Trails(out, homes[|homes| - 1 := ph])
  {
  }

  /** After `moveNodeToNextPage` took `m`, the node the last piece `p` hangs
      under, into the shells of `mh` on the page at `pos`, and `p` was added
      again under `m`: the other pieces keep their homes, and `p`'s home is
      now those shells followed by `m`. */
  lemma Rehomed(b: seq<DomNode>, c: seq<DomNode>, d: seq<DomNode>, out: seq<NodeId>, homes: seq<Home>,
                at: seq<nat>, pages: seq<Page>, later: seq<Page>, from: nat, pos: nat, m: NodeId, mh: Home)
    returns (h: seq<Home>, ts: seq<nat>)
    requires Laid(b, out, homes, at, pages, from) && homes != [] && Pieces(b, out)
    requires homes[|homes| - 1].chain[|homes[|homes| - 1].chain| - 1] == m && m < |b| && b[m].data.Elem?
    requires ParentsKept(b, c, {m}) && ParentsKept(c, d, {out[|out| - 1]})
    requires d[out[|out| - 1]].parent == Some(m)
    requires Chained(c, mh.chain, mh.flow, mh.cut) && c[m].parent == Some(mh.chain[|mh.chain| - 1])
    requires forall i | 0 <= i < |mh.chain| :: |b| <= mh.chain[i]
    requires pages <= later && pos == |pages| < |later| && later[pos].flow == mh.flow
    ensures Laid(d, out, h, ts, later, from) && |h| == |homes| && ts == at[|at| - 1 := pos]
    ensures h[|h| - 1] == Home(mh.flow, mh.chain + [m], mh.cut)
    ensures forall k, i | 0 <= k < |h| && 0 <= i < |h[k].chain| :: h[k].chain[i] < |c|
  {
    var lh, p := |homes| - 1, out[|out| - 1];
    var ph := Home(mh.flow, mh.chain + [m], mh.cut);
    h, ts := homes[lh := ph], at[lh := pos];
    ParentsTrans(b, c, d, {m}, {p});
    assert b[p].data.Text? && p < |b|;
    HomeOfLast(c, d, m, mh, p);
    InnerPiecesStay(b, out, m);
    EarlierHomesStay(out, homes, m);
    LaidLast(b, d, out, homes, at, pages, later, from, pos, ph, {m} + {p});
    ChainsBelow(b, c, out, homes, at, pages, from, ph, h);
  }

  /** The homes before the last name only nodes older than `m`, the
      innermost node of the last home, and so older than the last piece. */
  lemma EarlierHomesStay(out: seq<NodeId>, homes: seq<Home>, m: NodeId)
    requires Newest(homes) && Trails(out, homes) && homes != [] && |out| == |homes| + 1
    requires homes[|homes| - 1].chain[|homes[|homes| - 1].chain| - 1] == m
    ensures forall k, i | 0 <= k < |homes| - 1 && 0 <= i < |homes[k].chain| :: homes[k].chain[i] !in {m} + {out[|out| - 1]}
  {
  }

  /** A node `p` put under `m` after `m` went into the shells of `mh`
      hangs in the home made of those shells followed by `m`. */
  lemma HomeOfLast(c: seq<DomNode>, d: seq<DomNode>, m: NodeId, mh: Home, p: NodeId)
    requires Chained(c, mh.chain, mh.flow, mh.cut) && m < |c| && c[m].parent == Some(mh.chain[|mh.chain| - 1])
    requires ParentsKept(c, d, {p}) && p != m && forall i | 0 <= i < |mh.chain| :: mh.chain[i] != p
    requires p < |d| && d[p].parent == Some(m)
    ensures HangsIn(d, p, Home(mh.flow, mh.chain + [m], mh.cut))
  {
    ChainExtend(c, mh.chain, mh.flow, mh.cut, m);
    ChainKeptBut(c, d, mh.chain + [m], mh.flow, mh.cut, {p});
  }

  /** Pieces strictly between the first and the last are neither the
      element `m` nor the last piece. */
  lemma InnerPiecesStay(b: seq<DomNode>, out: seq<NodeId>, m: NodeId)
    requires Pieces(b, out) && out != [] && m < |b| && b[m].data.Elem?
    ensures forall k | 1 <= k < |out| - 1 :: out[k] !in {m} + {out[|out| - 1]}
  {
    forall k | 1 <= k < |out| - 1 ensures out[k] !in {m} + {out[|out| - 1]} {
      assert b[out[k]].data.Text? && out[k] < out[|out| - 1];
    }
  }

  /** Every home of a laid-out walk in `b`, with the last one replaced by
      `ph` whose nodes precede `c`'s end, names nodes of `c` only. */
  lemma ChainsBelow(b: seq<DomNode>, c: seq<DomNode>, out: seq<NodeId>, homes: seq<Home>, at: seq<nat>,
                    pages: seq<Page>, from: nat, ph: Home, h: seq<Home>)
    requires Laid(b, out, homes, at, pages, from) && homes != [] && |b| <= |c|
    requires forall i | 0 <= i < |ph.chain| :: ph.chain[i] < |c|
    requires h == homes[|homes| - 1 := ph]
    ensures forall k, i | 0 <= k < |h| && 0 <= i < |h[k].chain| :: h[k].chain[i] < |c|
  {
    forall k, i | 0 <= k < |h| && 0 <= i < |h[k].chain| ensures h[k].chain[i] < |c| {
      if k < |homes| - 1 {
        assert HangsIn(b, out[k + 1], homes[k]);
      }
    }
  }

  lemma PiecesRetryLast(b: seq<DomNode>, d: seq<DomNode>, out: seq<NodeId>, more: seq<NodeId>)
    requires out != [] && more != [] && Pieces(b, out) && DataKeptBut(b, d, out[|out| - 1])
    requires Pieces(d, more) && more[0] == out[|out| - 1]
    ensures Pieces(d, out + more[1..])
  {
    var last, ps := |out| - 1, out + more[1..];
    forall k | 0 <= k < |ps| ensures ps[k] < |d| && d[ps[k]].data.Text? {
      if k < last {
        assert ps[k] == out[k] && out[k] < out[last];
      } else {
        assert ps[k] == more[k - last];
      }
    }
    forall j, k | 0 <= j < k < |ps| ensures ps[j] < ps[k] {
      if k <= last {
        assert ps[j] == out[j] && ps[k] == out[k];
      } else if j <= last {
        assert ps[j] == out[j] && ps[k] == more[k - last] && out[j] <= out[last] < more[k - last];
      } else {
        assert ps[j] == more[j - last] && ps[k] == more[k - last];
      }
    }
  }

  lemma JoinedRetryLast(b: seq<DomNode>, d: seq<DomNode>, out: seq<NodeId>, more: seq<NodeId>)
    requires out != [] && Pieces(b, out) && DataKeptBut(b, d, out[|out| - 1])
    requires more != [] && more[0] == out[|out| - 1] && JoinedText(d, more) == ValueOf(b, out[|out| - 1])
    ensures JoinedText(d, out + more[1..]) == JoinedText(b, out)
  {
    var last, p := |out| - 1, out[|out| - 1];
    var pre := out[..last];
    assert out == pre + [p] && out + more[1..] == pre + more;
    forall k | 0 <= k < |pre| ensures pre[k] < |b| && pre[k] != p {
      assert pre[k] == out[k] < p;
    }
    JoinedSnoc(b, pre, p);
    JoinedKept(b, d, pre, p);
    JoinedAppend(d, pre, more);
  }

  /** The last piece `p` of a text added again, its text now spread over
      `more`: the text is spread over the pieces before `p` and `more`. */
  lemma CoversRetryLast(b: seq<DomNode>, d: seq<DomNode>, floor: nat, t: NodeId, v: string,
                        out: seq<NodeId>, inner: nat, more: seq<NodeId>)
    requires Covers(b, floor, t, v, out) && Pieces(b, out) && t < floor <= |b|
    requires DataKeptBut(b, d, out[|out| - 1]) && |b| <= inner
    requires Covers(d, inner, out[|out| - 1], ValueOf(b, out[|out| - 1]), more) && Pieces(d, more)
    ensures Covers(d, floor, t, v, out + more[1..]) && Pieces(d, out + more[1..])
  {
    JoinedRetryLast(b, d, out, more);
    PiecesRetryLast(b, d, out, more);
    var last, ps := |out| - 1, out + more[1..];
    forall k | 1 <= k < |ps| ensures floor <= ps[k] {
      if k <= last {
        assert ps[k] == out[k];
      } else {
        assert ps[k] == more[k - last];
      }
    }
  }

  /** Where a retried text stands: the text `v` of the text node `t` is
      spread over `out`, whose pieces after the first are laid out on pages
      from position `from` on; `t` hangs under `m0`, the innermost path entry
      when it was first added; the last piece hangs under the innermost path
      entry, which is `m0` again while the text has not been split. */
  ghost predicate Retrying(nodes: seq<DomNode>, pages: seq<Page>, path: seq<NodeId>, t: NodeId, m0: NodeId,
                           floor: nat, v: string, out: seq<NodeId>, homes: seq<Home>, at: seq<nat>, from: nat)
  {
    t < floor <= |nodes| && from <= |pages| && Covers(nodes, floor, t, v, out) && Pieces(nodes, out)
    && Laid(nodes, out, homes, at, pages, from) && Resting(nodes, homes, pages, path)
    && nodes[t].parent == Some(m0) && path != [] && nodes[out[|out| - 1]].parent == Some(path[|path| - 1])
    && (homes == [] ==> path[|path| - 1] == m0)
  }

  /** The state after the first pass over `t`, its pieces homed on
      consecutive pages from `base` on. */
  lemma StartRetrying(nodes: seq<DomNode>, pages: seq<Page>, path: seq<NodeId>, t: NodeId, m0: NodeId,
                      floor: nat, v: string, pieces: seq<NodeId>, homes: seq<Home>, base: nat)
    requires t < floor <= |nodes| && Covers(nodes, floor, t, v, pieces) && Pieces(nodes, pieces)
    requires Homed(nodes, pieces, homes, pages, base, floor) && Trails(pieces, homes)
    requires Resting(nodes, homes, pages, path) && nodes[t].parent == Some(m0) && path != []
    requires homes == [] ==> path[|path| - 1] == m0
    ensures Retrying(nodes, pages, path, t, m0, floor, v, pieces, homes, Consecutive(base, |homes|), base)
  {
    HomedLaid(nodes, pieces, homes, pages, base, floor, base);
    if homes != [] {
      assert HangsIn(nodes, pieces[|homes|], homes[|homes| - 1]);
    }
  }

  /** The nodes of `bound` and beyond are the only ones whose data changed. */
  ghost predicate DataKeptBelow(before: seq<DomNode>, after: seq<DomNode>, bound: nat)
  {
    bound <= |before| <= |after| && forall i | 0 <= i < bound :: after[i].data == before[i].data
  }

  lemma BelowTrans(a: seq<DomNode>, b: seq<DomNode>, c: seq<DomNode>, bound: nat, x: NodeId)
    requires DataKeptBelow(a, b, bound) && DataKeptBut(b, c, x) && bound <= x
    ensures DataKeptBelow(a, c, bound)
  {
    forall i | 0 <= i < bound ensures c[i].data == a[i].data {
      assert b[i].data == a[i].data;
    }
  }

  /** The text `v` of `t` is spread over `texts`, `t` first and still
      under `m0`, the other pieces laid on the pages from `from` on, in page
      order. */
  ghost predicate Placed(nodes: seq<DomNode>, pages: seq<Page>, t: NodeId, m0: NodeId, floor: nat, v: string,
                         texts: seq<NodeId>, homes: seq<Home>, at: seq<nat>, from: nat)
  {
    Covers(nodes, floor, t, v, texts) && t < |nodes| && nodes[t].parent == Some(m0)
    && Laid(nodes, texts, homes, at, pages, from)
  }

  /** What a pass over `t`, begun on the path `start`, leaves: the text `v`
      of `t` spread over `pieces`, `t` under the innermost entry of `start`,
      the other pieces, the last of them `tail`, homed on the pages from
      `base` on; when no page was made, the path is `start` again. */
  ghost predicate AfterPass(nodes: seq<DomNode>, pages: seq<Page>, path: seq<NodeId>, t: NodeId,
                            start: seq<NodeId>, floor: nat, v: string, pieces: seq<NodeId>, homes: seq<Home>,
                            base: nat, tail: NodeId)
  {
    t < floor <= |nodes| && Covers(nodes, floor, t, v, pieces) && Pieces(nodes, pieces)
    && Homed(nodes, pieces, homes, pages, base, floor) && Trails(pieces, homes) && EndsWith(pieces, tail)
    && start != [] && nodes[t].parent == Some(start[|start| - 1])
    && Resting(nodes, homes, pages, path) && path != [] && (homes == [] ==> path == start)
  }

  /** A node keeps hanging in its home while only other nodes, none of the
      home's shells among them, change parent. */
  lemma HangsKeptBut(a: seq<DomNode>, b: seq<DomNode>, x: NodeId, h: Home, moved: set<NodeId>)
    requires HangsIn(a, x, h) && ParentsKept(a, b, moved) && x !in moved
    requires forall i | 0 <= i < |h.chain| :: h.chain[i] !in moved
    ensures HangsIn(b, x, h)
  {
    ChainKeptBut(a, b, h.chain, h.flow, h.cut, moved);
  }

  /** The same, when the one node that changed parent is older than the
      home's shells. */
  lemma HangsKeptAbove(a: seq<DomNode>, b: seq<DomNode>, x: NodeId, h: Home, y: NodeId)
    requires HangsIn(a, x, h) && ParentsKept(a, b, {y}) && x != y
    requires forall i | 0 <= i < |h.chain| :: y < h.chain[i]
    ensures HangsIn(b, x, h)
  {
    HangsKeptBut(a, b, x, h, {y});
  }

  lemma MovedAlone(a: seq<DomNode>, b: seq<DomNode>, n: NodeId)
    requires ParentsKept(a, b, Moved(n, None))
    ensures ParentsKept(a, b, {n})
  {
    assert Moved(n, None) == {n};
  }

  lemma PrefixIndex(a: seq<Page>, b: seq<Page>, i: nat)
    requires a <= b && i < |a|
    ensures b[i] == a[i]
  {
  }

  /** A placed text, read back: its pieces spell it, the first under `m0`. */
  lemma PlacedSpells(nodes: seq<DomNode>, pages: seq<Page>, t: NodeId, m0: NodeId, floor: nat, inner: nat,
                     v: string, texts: seq<NodeId>, homes: seq<Home>, at: seq<nat>, from: nat)
    requires Placed(nodes, pages, t, m0, inner, v, texts, homes, at, from) && floor <= t && floor <= inner
    ensures Spells(nodes, floor, texts, v) && texts != [] && texts[0] < |nodes| && nodes[texts[0]].parent == Some(m0)
    ensures Laid(nodes, texts, homes, at, pages, from)
  {
    CoversSpells(nodes, floor, inner, t, v, texts);
  }

  /** A text placed in one pass. */
  lemma PlacedAtOnce(nodes: seq<DomNode>, pages: seq<Page>, path: seq<NodeId>, t: NodeId, start: seq<NodeId>,
                     floor: nat, v: string, texts: seq<NodeId>, homes: seq<Home>, base: nat, tail: NodeId)
    requires AfterPass(nodes, pages, path, t, start, floor, v, texts, homes, base, tail)
    ensures Placed(nodes, pages, t, start[|start| - 1], floor, v, texts, homes, Consecutive(base, |homes|), base)
  {
    HomedLaid(nodes, texts, homes, pages, base, floor, base);
  }

  /** A text placed once the retries are over. */
  lemma PlacedAfterRetries(nodes: seq<DomNode>, pages: seq<Page>, path: seq<NodeId>, t: NodeId, m0: NodeId,
                           floor: nat, v: string, texts: seq<NodeId>, homes: seq<Home>, at: seq<nat>, from: nat)
    requires Retrying(nodes, pages, path, t, m0, floor, v, texts, homes, at, from)
    ensures Placed(nodes, pages, t, m0, floor, v, texts, homes, at, from)
  {
  }

  lemma ButAbove(a: seq<DomNode>, b: seq<DomNode>, x: NodeId)
    requires DataKeptBut(a, b, x) && x < |a|
    ensures DataKeptBelow(a, b, x)
  {
  }

  lemma ButBelow(a: seq<DomNode>, b: seq<DomNode>, c: seq<DomNode>, x: NodeId)
    requires DataKeptBut(a, b, x) && DataKeptBelow(b, c, x) && x < |a|
    ensures DataKeptBelow(a, c, x)
  {
  }

  lemma BelowPastEnd(a: seq<DomNode>, b: seq<DomNode>, c: seq<DomNode>, bound: nat)
    requires DataKept(a, b) && DataKeptBelow(b, c, bound) && |a| <= bound
    ensures DataKept(a, c)
  {
  }

  /** The last piece is never older than the first. */
  lemma TailAfter(nodes: seq<DomNode>, floor: nat, t: NodeId, v: string, out: seq<NodeId>, tail: NodeId)
    requires Covers(nodes, floor, t, v, out) && Pieces(nodes, out) && EndsWith(out, tail)
    ensures t <= tail
  {
    if |out| > 1 {
      assert out[0] < out[|out| - 1];
    }
  }

  /** Appending `p`, a child of `m` already, to `m` leaves any region node
      as it was. */
  lemma RegionStays(b: seq<DomNode>, c: seq<DomNode>, m: NodeId, p: NodeId, f: NodeId)
    requires WellLinked(c) && m < |c| && p < |c| && f < |c| && ParentsKept(b, c, {m})
    requires p < |b| && b[p].parent == Some(m) && c[m].data.Elem? && c[p].data.Text? && c[f].data == Region
    ensures AppendedChild(c, m, p)[f] == c[f]
  {
  }

  /** What one corrected pass leaves: `moveNodeToNextPage` took `m`, the
      innermost path entry of `b`, to the last page of `pc`, under the shells
      of `mh`, carrying the footnote `fn`; then the last piece `p` was added
      again under `m` and its text spread over `more`, homed in `h2`. */
  lemma RetryJoined(b: seq<DomNode>, c: seq<DomNode>, d: seq<DomNode>, pb: seq<Page>, pc: seq<Page>,
                    pd: seq<Page>, pathB: seq<NodeId>, pathC: seq<NodeId>, pathD: seq<NodeId>, t: NodeId,
                    m0: NodeId, floor: nat, v: string, out: seq<NodeId>, homes: seq<Home>, at: seq<nat>,
                    from: nat, mh: Home, fn: Option<NodeId>, more: seq<NodeId>, h2: seq<Home>)
    returns (out2: seq<NodeId>, homes2: seq<Home>, at2: seq<nat>)
    requires Retrying(b, pb, pathB, t, m0, floor, v, out, homes, at, from)
    requires pathB[|pathB| - 1] < |b| && b[pathB[|pathB| - 1]].data.Elem?
    requires DataKept(b, c) && ParentsKept(b, c, Moved(pathB[|pathB| - 1], fn)) && (homes != [] ==> fn.None?)
    requires pb <= pc && |pc| == |pb| + 1 && pathC == mh.chain + [pathB[|pathB| - 1]]
    requires Landed(c, pathB[|pathB| - 1], mh, pc[|pb|], |b|)
    requires pc[|pb|].footer < |c| && (fn.None? ==> c[pc[|pb|].footer].children == [])
    requires DataKeptBut(c, d, out[|out| - 1]) && ParentsKept(c, d, {out[|out| - 1]})
    requires d[out[|out| - 1]].parent == Some(pathB[|pathB| - 1])
    requires Covers(d, |c|, out[|out| - 1], ValueOf(c, out[|out| - 1]), more) && Pieces(d, more)
    requires Homed(d, more, h2, pd, |pc|, |c|) && Trails(more, h2) && Resting(d, h2, pd, pathD) && pc <= pd
    requires h2 == [] ==> pathD == pathC && pd == pc
    requires h2 == [] && homes != [] ==> d[pc[|pb|].footer] == c[pc[|pb|].footer]
    ensures Retrying(d, pd, pathD, t, m0, floor, v, out2, homes2, at2, from) && pb <= pd
    ensures out2 == out + more[1..] && EndsWith(out2, more[|more| - 1])
  {
    var m, p := pathB[|pathB| - 1], out[|out| - 1];
    KeptBut(b, c, p);
    KeptButTrans(b, c, d, p, p);
    CoversRetryLast(b, d, floor, t, v, out, |c|, more);
    out2 := out + more[1..];
    var h, ts := RetryLaid(b, c, d, pb, pc, pd, pathB, out, homes, at, from, mh, fn);
    LaidAppend(d, out, h, ts, more, h2, pd, |pc|, |c|, from);
    homes2, at2 := h + h2, ts + Consecutive(|pc|, |h2|);
    PrefixTrans(pb, pc, pd);
    RetryRests(c, d, pb, pc, pd, pathC, pathD, homes, h, h2, mh, m);
    RetryParents(b, c, d, t, m0, m, fn, homes, out, pathB);
    RetryTail(d, pd, out, more, h2, pathC, pathD, m);
  }

  /** Where the walk rests after the pass. */
  lemma RetryRests(c: seq<DomNode>, d: seq<DomNode>, pb: seq<Page>, pc: seq<Page>, pd: seq<Page>,
                   pathC: seq<NodeId>, pathD: seq<NodeId>, homes: seq<Home>, h: seq<Home>, h2: seq<Home>,
                   mh: Home, m: NodeId)
    requires Resting(d, h2, pd, pathD) && |pc| == |pb| + 1 && pathC == mh.chain + [m]
    requires h2 == [] ==> pathD == pathC && pd == pc
    requires homes == [] ==> h == []
    requires homes != [] ==> h != [] && h[|h| - 1] == Home(mh.flow, mh.chain + [m], mh.cut)
    requires pc[|pb|].footer < |c| <= |d| && (homes != [] ==> c[pc[|pb|].footer].children == [])
    requires h2 == [] && homes != [] ==> d[pc[|pb|].footer] == c[pc[|pb|].footer]
    ensures Resting(d, h + h2, pd, pathD)
  {
    if h2 != [] {
      assert (h + h2)[|h + h2| - 1] == h2[|h2| - 1];
    } else {
      assert h + h2 == h;
    }
  }

  /** The first piece `t` keeps its parent `m0`: when the pass was over
      `t` itself, it was added again under `m0`. */
  lemma RetryParents(b: seq<DomNode>, c: seq<DomNode>, d: seq<DomNode>, t: NodeId, m0: NodeId, m: NodeId,
                     fn: Option<NodeId>, homes: seq<Home>, out: seq<NodeId>, pathB: seq<NodeId>)
    requires Pieces(b, out) && out != [] && out[0] == t && b[t].parent == Some(m0)
    requires pathB != [] && m == pathB[|pathB| - 1] && m < |b| && b[m].data.Elem?
    requires |out| == |homes| + 1 && (homes == [] ==> m == m0)
    requires ParentsKept(b, c, Moved(m, fn)) && (homes != [] ==> fn.None?)
    requires ParentsKept(c, d, {out[|out| - 1]}) && d[out[|out| - 1]].parent == Some(m)
    ensures d[t].parent == Some(m0)
  {
    if homes != [] {
      assert out[0] < out[|out| - 1] && b[out[0]].data.Text?;
      assert Moved(m, fn) == {m};
    }
  }

  /** The last piece hangs under the innermost path entry after the pass. */
  lemma RetryTail(d: seq<DomNode>, pd: seq<Page>, out: seq<NodeId>, more: seq<NodeId>, h2: seq<Home>,
                  pathC: seq<NodeId>, pathD: seq<NodeId>, m: NodeId)
    requires out != [] && more != [] && more[0] == out[|out| - 1] && |more| == |h2| + 1
    requires pathC != [] && pathC[|pathC| - 1] == m && out[|out| - 1] < |d| && d[out[|out| - 1]].parent == Some(m)
    requires h2 == [] ==> pathD == pathC
    requires h2 != [] ==> HangsIn(d, more[|more| - 1], h2[|h2| - 1]) && Resting(d, h2, pd, pathD)
    ensures pathD != [] && EndsWith(out + more[1..], more[|more| - 1])
    ensures more[|more| - 1] < |d| && d[more[|more| - 1]].parent == Some(pathD[|pathD| - 1])
  {
    assert (out + more[1..])[|out + more[1..]| - 1] == more[|more| - 1];
  }

  /** The homes of the pieces `out` after the pass: those of `RetryLaid`'s
      caller, the last replaced by the shells of `mh` and `m`. */
  lemma RetryLaid(b: seq<DomNode>, c: seq<DomNode>, d: seq<DomNode>, pb: seq<Page>, pc: seq<Page>,
                  pd: seq<Page>, pathB: seq<NodeId>, out: seq<NodeId>, homes: seq<Home>, at: seq<nat>,
                  from: nat, mh: Home, fn: Option<NodeId>)
    returns (h: seq<Home>, ts: seq<nat>)
    requires Laid(b, out, homes, at, pb, from) && Pieces(b, out) && Resting(b, homes, pb, pathB) && from <= |pb|
    requires pathB != [] && pathB[|pathB| - 1] < |b| && b[pathB[|pathB| - 1]].data.Elem?
    requires ParentsKept(b, c, Moved(pathB[|pathB| - 1], fn)) && (homes != [] ==> fn.None?)
    requires pb <= pc && |pc| == |pb| + 1 && pc <= pd
    requires Landed(c, pathB[|pathB| - 1], mh, pc[|pb|], |b|)
    requires ParentsKept(c, d, {out[|out| - 1]}) && d[out[|out| - 1]].parent == Some(pathB[|pathB| - 1])
    ensures Laid(d, out, h, ts, pd, from) && |h| == |homes|
    ensures forall k | 0 <= k < |ts| :: ts[k] < |pc|
    ensures forall k, i | 0 <= k < |h| && 0 <= i < |h[k].chain| :: h[k].chain[i] < |c|
    ensures homes != [] ==> h[|h| - 1] == Home(mh.flow, mh.chain + [pathB[|pathB| - 1]], mh.cut)
  {
    if homes == [] {
      h, ts := [], [];
    } else {
      var m := pathB[|pathB| - 1];
      assert Moved(m, fn) == {m};
      h, ts := Rehomed(b, c, d, out, homes, at, pb, pd, from, |pb|, m, mh);
      assert pd[|pb|] == pc[|pb|];
      forall k | 0 <= k < |ts| ensures ts[k] < |pc| {
        if k < |ts| - 1 {
          assert ts[k] == at[k];
        }
      }
    }
  }

  lemma SpellsKept(a: seq<DomNode>, b: seq<DomNode>, floor: nat, ids: seq<NodeId>, text: string)
    requires Spells(a, floor, ids, text) && DataKept(a, b)
    ensures Spells(b, floor, ids, text)
  {
    JoinedKept(a, b, ids, |a|);
  }

  /** The position of the last occurrence of `x` in `s`. */
  function LastIndex<T(==)>(s: seq<T>, x: T): (r: nat)
    requires x in s
    ensures r < |s| && s[r] == x && forall j | r < j < |s| :: s[j] != x
  {
    if s[|s| - 1] == x then |s| - 1
    else
      assert s == s[..|s| - 1] + [s[|s| - 1]];
      LastIndex(s[..|s| - 1], x)
  }

  /** The `afterBind` calls of the rule at position `rule` over `count`
      pages: one per page, in page order (lines 601-603). */
  function PageCalls(rule: nat, count: nat): (r: seq<HookCall>)
    ensures |r| == count
    ensures forall j | 0 <= j < count :: r[j] == HookCall(AfterBind, rule, OnPage(j))
  {
    if count == 0 then [] else PageCalls(rule, count - 1) + [HookCall(AfterBind, rule, OnPage(count - 1))]
  }

  /** `afterBindRules(pages)` as calls: for each rule at the positions `sel`,
      in turn, its calls over the `count` pages. */
  function BindCalls(sel: seq<nat>, count: nat): seq<HookCall>
  {
    if sel == [] then [] else BindCalls(sel[..|sel| - 1], count) + PageCalls(sel[|sel| - 1], count)
  }

  /** The calls are rule-major: call `k * count + j` is the `k`-th selected
      rule's call on page `j`. */
  lemma {:induction false} BindCallsAt(sel: seq<nat>, count: nat, k: nat, j: nat)
    requires k < |sel| && j < count
    ensures |BindCalls(sel, count)| == |sel| * count
    ensures k * count + j < |BindCalls(sel, count)|
    ensures BindCalls(sel, count)[k * count + j] == HookCall(AfterBind, sel[k], OnPage(j))
    decreases |sel|
  {
    var init := sel[..|sel| - 1];
    BindCallsLength(init, count);
    assert |init| * count + count == |sel| * count;
    if k < |init| {
      BindCallsAt(init, count, k, j);
      RowBefore(k, |init|, count, j);
    } else {
      assert k == |init|;
    }
  }

  /** Cell `j` of row `k` comes before the end of `rows` rows of `count` cells. */
  lemma {:induction false} RowBefore(k: nat, rows: nat, count: nat, j: nat)
    requires k < rows && j < count
    ensures k * count + j < rows * count
    decreases rows
  {
    assert rows * count == (rows - 1) * count + count;
    if k < rows - 1 {
      RowBefore(k, rows - 1, count, j);
    }
  }

  lemma {:induction false} BindCallsLength(sel: seq<nat>, count: nat)
    ensures |BindCalls(sel, count)| == |sel| * count
    decreases |sel|
  {
    if sel != [] {
      BindCallsLength(sel[..|sel| - 1], count);
      assert (|sel| - 1) * count + count == |sel| * count;
    }
  }

  /** Whether one of the rules at positions `sel` is a page-number rule. */
  predicate NumbersPages(rules: seq<Rule>, sel: seq<nat>)
  {
    exists k | 0 <= k < |sel| :: sel[k] < |rules| && rules[sel[k]].behaviour == PageNumber
  }

  /** `pg.number` after the page-number hook ran on `pages`, in order:
      the page at position `j` is given `j + 1`. */
  function Numbered(numbers: map<Page, int>, pages: seq<Page>): map<Page, int>
  {
    if pages == [] then numbers
    else Numbered(numbers, pages[..|pages| - 1])[pages[|pages| - 1] := |pages|]
  }

  /** Each page is numbered by its last position, counting from one, and
      the pages not in `pages` keep their numbers. */
  lemma {:induction false} NumberedSpec(numbers: map<Page, int>, pages: seq<Page>)
    ensures Numbered(numbers, pages).Keys == numbers.Keys + set j | 0 <= j < |pages| :: pages[j]
    ensures forall p | p in pages :: Numbered(numbers, pages)[p] == LastIndex(pages, p) + 1
    ensures forall p | p in numbers && p !in pages :: Numbered(numbers, pages)[p] == numbers[p]
    decreases |pages|
  {
    if pages != [] {
      var init, x := pages[..|pages| - 1], pages[|pages| - 1];
      assert pages == init + [x];
      NumberedSpec(numbers, init);
      var m0 := Numbered(numbers, init);
      assert Numbered(numbers, pages) == m0[x := |pages|];
      assert (set j | 0 <= j < |pages| :: pages[j]) == (set j | 0 <= j < |init| :: init[j]) + {x} by {
        forall j | 0 <= j < |init| ensures init[j] == pages[j] { }
      }
      forall p | p in pages
        ensures Numbered(numbers, pages)[p] == LastIndex(pages, p) + 1
      {
        if p != x {
          assert p in init;
          assert LastIndex(pages, p) == LastIndex(init, p);
        }
      }
    }
  }

  /** On pages that occur once, the number is the position plus one. */
  lemma NumberedDistinct(numbers: map<Page, int>, pages: seq<Page>, j: nat)
    requires j < |pages| && forall a, b | 0 <= a < b < |pages| :: pages[a] != pages[b]
    ensures pages[j] in Numbered(numbers, pages) && Numbered(numbers, pages)[pages[j]] == j + 1
  {
    NumberedSpec(numbers, pages);
    var r := LastIndex(pages, pages[j]);
    assert r == j;
  }

  /** Numbering twice numbers as once: repeated page-number rules agree. */
  lemma NumberedTwice(numbers: map<Page, int>, pages: seq<Page>)
    ensures Numbered(Numbered(numbers, pages), pages) == Numbered(numbers, pages)
  {
    var once := Numbered(numbers, pages);
    NumberedSpec(numbers, pages);
    NumberedSpec(once, pages);
    var twice := Numbered(once, pages);
    assert twice.Keys == once.Keys;
    forall p | p in twice
      ensures twice[p] == once[p]
    {
      if p in pages {
        assert twice[p] == LastIndex(pages, p) + 1 == once[p];
      }
    }
  }

  /** The positions of the rules with an `afterBind` hook (line 600). */
  function BindSelected(rules: seq<Rule>): seq<nat>
  {
    Selected(rules, AfterBind, _ => false)
  }

  /** `afterBindRules` numbers the pages exactly when a page-number rule
      is registered. */
  lemma BindNumbers(rules: seq<Rule>)
    ensures NumbersPages(rules, BindSelected(rules)) <==> exists i | 0 <= i < |rules| :: rules[i].behaviour == PageNumber
  {
    var sel := BindSelected(rules);
    if i :| 0 <= i < |rules| && rules[i].behaviour == PageNumber {
      assert i in sel;
      var k :| 0 <= k < |sel| && sel[k] == i;
    }
  }

  lemma NumbersPagesSnoc(rules: seq<Rule>, sel: seq<nat>, k: nat)
    requires k < |sel|
    ensures NumbersPages(rules, sel[..k + 1])
            <==> NumbersPages(rules, sel[..k]) || (sel[k] < |rules| && rules[sel[k]].behaviour == PageNumber)
  {
    assert sel[..k + 1][k] == sel[k];
    if NumbersPages(rules, sel[..k + 1]) {
      var m :| 0 <= m < k + 1 && sel[..k + 1][m] < |rules| && rules[sel[..k + 1][m]].behaviour == PageNumber;
      if m < k {
        assert sel[..k][m] == sel[m];
      }
    }
    if NumbersPages(rules, sel[..k]) {
      var m :| 0 <= m < k && sel[..k][m] < |rules| && rules[sel[..k][m]].behaviour == PageNumber;
      assert sel[..k + 1][m] == sel[m];
    }
  }

  /** The `afterBind` hook of `rule`, registered at position `index`, on
      every page of `ordered` in order (lines 601-603): the calls it makes
      and `pg.number` afterwards. The page-number hook (lines 2273-2278)
      numbers the page at position `j` with `j + 1`. */
  method BindRule(rule: Rule, index: nat, ordered: seq<Page>, numbers: map<Page, int>)
    returns (calls: seq<HookCall>, nums: map<Page, int>)
    ensures calls == PageCalls(index, |ordered|)
    ensures nums == if rule.behaviour == PageNumber then Numbered(numbers, ordered) else numbers
  {
    calls, nums := [], numbers;
    for j := 0 to |ordered|
      invariant calls == PageCalls(index, j)
      invariant nums == if rule.behaviour == PageNumber then Numbered(numbers, ordered[..j]) else numbers
    {
      calls := calls + [HookCall(AfterBind, index, OnPage(j))];
      if rule.behaviour == PageNumber {
        assert ordered[..j + 1][..j] == ordered[..j];
        nums := nums[ordered[j] := j + 1];
      }
    }
    assert ordered[..|ordered|] == ordered;
  }

  /** The `rules.forEach` of `afterBindRules` (lines 599-605) over the rules
      at positions `sel`: the calls made, and `pg.number` afterwards. */
  method BindAll(rules: seq<Rule>, sel: seq<nat>, ordered: seq<Page>, numbers: map<Page, int>)
    returns (calls: seq<HookCall>, nums: map<Page, int>)
    requires forall k | 0 <= k < |sel| :: sel[k] < |rules|
    ensures calls == BindCalls(sel, |ordered|)
    ensures nums == if NumbersPages(rules, sel) then Numbered(numbers, ordered) else numbers
  {
    calls, nums := [], numbers;
    for k := 0 to |sel|
      invariant calls == BindCalls(sel[..k], |ordered|)
      invariant nums == if NumbersPages(rules, sel[..k]) then Numbered(numbers, ordered) else numbers
    {
      var more, renumbered := BindRule(rules[sel[k]], sel[k], ordered, nums);
      NumbersPagesSnoc(rules, sel, k);
      if rules[sel[k]].behaviour == PageNumber && NumbersPages(rules, sel[..k]) {
        NumberedTwice(numbers, ordered);
      }
      assert sel[..k + 1][..k] == sel[..k];
      calls, nums := calls + more, renumbered;
    }
    assert sel[..|sel|] == sel;
  }

  /** The document together with the two regions of the page then current. */
  datatype View = View(nodes: seq<DomNode>, flow: NodeId, footer: NodeId)

  /** One turn of `beforeAddRules` (lines 565-584) for the rule at position
      `rule`: the view when the turn began, the view the hook ran on once the
      backup was taken, the view just after that first run, whether the hook
      ran again, and the view when the turn ended. */
  datatype HookRun = HookRun(rule: nat, start: View, seen: View, hooked: View, retried: bool, end: View)

  /** Each turn ran its hook a second time exactly when the page it saw just
      after the first run overflowed, and `retries` lists those answers. */
  predicate RetriedOnOverflow(retries: seq<bool>, runs: seq<HookRun>, overflows: (seq<DomNode>, NodeId, NodeId) -> bool)
  {
    |runs| == |retries|
    && forall k | 0 <= k < |runs| ::
         runs[k].retried == retries[k]
         && (runs[k].retried <==> overflows(runs[k].hooked.nodes, runs[k].hooked.flow, runs[k].hooked.footer))
  }

  /** The hook of `b` leaves the view `v` alone: it is not `BreakBefore`, or
      the flow box holds no rendered text, so `BreakBefore` does nothing. */
  ghost predicate Quiet(b: Behaviour, v: View)
  {
    !b.BreakBefore?
    || (WellLinked(v.nodes) && v.flow < |v.nodes| && RendersEmpty(TextContent(v.nodes, v.flow, |v.nodes|)))
  }

  /** What one turn keeps: the backup only adds nodes and leaves the current
      page in place; a quiet hook changes nothing; and a turn that did not run
      the hook again ends where its first run left things. */
  ghost predicate TurnKept(run: HookRun, rules: seq<Rule>)
  {
    run.rule < |rules|
    && run.seen.flow == run.start.flow && run.seen.footer == run.start.footer && run.start.nodes <= run.seen.nodes
    && (Quiet(rules[run.rule].behaviour, run.seen) ==> run.hooked == run.seen)
    && (!run.retried ==> run.end == run.hooked)
  }

  /** The turns for the selected rules `sel`, in order: each begins where the
      one before ended, the first at `first` and the last ending at `last`. */
  ghost predicate Turns(runs: seq<HookRun>, sel: seq<nat>, rules: seq<Rule>, first: View, last: View)
  {
    KeptAll(runs, sel, rules) && TurnChain(runs, first, last)
  }

  /** Turn `k` is for the rule `sel[k]` and is kept. */
  ghost predicate KeptAll(runs: seq<HookRun>, sel: seq<nat>, rules: seq<Rule>)
  {
    |runs| == |sel| && forall k | 0 <= k < |runs| :: runs[k].rule == sel[k] && TurnKept(runs[k], rules)
  }

  /** Each turn begins where the one before ended, the first at `first` and
      the last ending at `last`. */
  predicate TurnChain(runs: seq<HookRun>, first: View, last: View)
  {
    (forall k | 1 <= k < |runs| :: runs[k].start == runs[k - 1].end)
    && (if runs == [] then first == last else runs[0].start == first && runs[|runs| - 1].end == last)
  }

  /** The current page stays the last one when at most that page is added. */
  lemma LastAfterGrow(p0: seq<Page>, added: seq<Page>, p1: seq<Page>, cur0: Page?, cur: Page?)
    requires p0 != [] && p0[|p0| - 1] == cur0 && p1 == p0 + added
    requires added == [] ==> cur == cur0
    requires added != [] ==> added == [cur]
    ensures p1 != [] && cur == p1[|p1| - 1]
  {
  }

  /** A page that is not among `p0` is not among `p0 + added` when it is not
      the one page added. */
  lemma NotAmongGrown(p0: seq<Page>, added: seq<Page>, b: Page)
    requires forall j | 0 <= j < |p0| :: p0[j] != b
    requires |added| <= 1 && (added != [] ==> added[0] != b)
    ensures forall j | 0 <= j < |p0 + added| :: (p0 + added)[j] != b
  {
  }

  /** One more turn, begun where the others ended, extends `Turns` and
      `RetriedOnOverflow`. */
  lemma TurnsStep(retries: seq<bool>, runs: seq<HookRun>, sel: seq<nat>, rules: seq<Rule>,
                  overflows: (seq<DomNode>, NodeId, NodeId) -> bool, first: View, mid: View, s: nat, run: HookRun)
    requires RetriedOnOverflow(retries, runs, overflows) && Turns(runs, sel, rules, first, mid)
    requires run.rule == s && run.start == mid && TurnKept(run, rules)
    requires run.retried <==> overflows(run.hooked.nodes, run.hooked.flow, run.hooked.footer)
    ensures RetriedOnOverflow(retries + [run.retried], runs + [run], overflows)
    ensures Turns(runs + [run], sel + [s], rules, first, run.end)
  {
    RetriedStep(retries, runs, overflows, run);
    ChainStep(runs, sel, rules, first, mid, s, run);
  }

  lemma RetriedStep(retries: seq<bool>, runs: seq<HookRun>, overflows: (seq<DomNode>, NodeId, NodeId) -> bool,
                    run: HookRun)
    requires RetriedOnOverflow(retries, runs, overflows)
    requires run.retried <==> overflows(run.hooked.nodes, run.hooked.flow, run.hooked.footer)
    ensures RetriedOnOverflow(retries + [run.retried], runs + [run], overflows)
  {
    var rs, ts := runs + [run], retries + [run.retried];
    forall k | 0 <= k < |rs|
      ensures rs[k].retried == ts[k]
           && (rs[k].retried <==> overflows(rs[k].hooked.nodes, rs[k].hooked.flow, rs[k].hooked.footer))
    {
      if k < |runs| {
        assert rs[k] == runs[k] && ts[k] == retries[k];
      }
    }
  }

  lemma ChainStep(runs: seq<HookRun>, sel: seq<nat>, rules: seq<Rule>, first: View, mid: View, s: nat, run: HookRun)
    requires Turns(runs, sel, rules, first, mid)
    requires run.rule == s && run.start == mid && TurnKept(run, rules)
    ensures Turns(runs + [run], sel + [s], rules, first, run.end)
  {
    KeptStep(runs, sel, rules, s, run);
    ChainedStep(runs, first, mid, run);
  }

  lemma KeptStep(runs: seq<HookRun>, sel: seq<nat>, rules: seq<Rule>, s: nat, run: HookRun)
    requires KeptAll(runs, sel, rules)
    requires run.rule == s && TurnKept(run, rules)
    ensures KeptAll(runs + [run], sel + [s], rules)
  {
    var rs, ss := runs + [run], sel + [s];
    forall k | 0 <= k < |rs| ensures rs[k].rule == ss[k] && TurnKept(rs[k], rules) {
      if k < |runs| {
        assert rs[k] == runs[k] && ss[k] == sel[k];
      }
    }
  }

  lemma ChainedStep(runs: seq<HookRun>, first: View, mid: View, run: HookRun)
    requires TurnChain(runs, first, mid) && run.start == mid
    ensures TurnChain(runs + [run], first, run.end)
  {
    var rs := runs + [run];
    forall k | 1 <= k < |rs| ensures rs[k].start == rs[k - 1].end {
      if k < |runs| {
        assert rs[k] == runs[k] && rs[k - 1] == runs[k - 1];
      }
    }
  }

  /** The bookkeeping of one more turn of the `beforeAdd` loop: the turn
      `run`, begun where the first `n - 1` ended and recorded as `calls` on
      `t0`, extends the chain of turns, the retry answers and the calls made. */
  lemma BeforeAddTurn(prev: seq<bool>, prevRuns: seq<HookRun>, sel: seq<nat>, n: nat, e: Element, rules: seq<Rule>,
                      overflows: (seq<DomNode>, NodeId, NodeId) -> bool, first: View, mid: View, run: HookRun,
                      t00: seq<HookCall>, t0: seq<HookCall>, calls: seq<HookCall>)
    requires 1 <= n <= |sel| && |prev| == n - 1
    requires RetriedOnOverflow(prev, prevRuns, overflows) && Turns(prevRuns, sel[..n - 1], rules, first, mid)
    requires run.rule == sel[n - 1] && run.start == mid && TurnKept(run, rules)
    requires run.retried <==> overflows(run.hooked.nodes, run.hooked.flow, run.hooked.footer)
    requires t00 <= t0 && InPhase(t0, BeforeAdd) == InPhase(t00, BeforeAdd) + Twice(sel[..n - 1], prev, e)
    requires InPhase(calls, BeforeAdd)
             == (if run.retried then [HookCall(BeforeAdd, sel[n - 1], OnElement(e)), HookCall(BeforeAdd, sel[n - 1], OnElement(e))]
                 else [HookCall(BeforeAdd, sel[n - 1], OnElement(e))])
    ensures RetriedOnOverflow(prev + [run.retried], prevRuns + [run], overflows)
    ensures Turns(prevRuns + [run], sel[..n], rules, first, run.end)
    ensures t00 <= t0 + calls
    ensures InPhase(t0 + calls, BeforeAdd) == InPhase(t00, BeforeAdd) + Twice(sel[..n], prev + [run.retried], e)
  {
    TakeSnoc(sel, n);
    TurnsStep(prev, prevRuns, sel[..n - 1], rules, overflows, first, mid, sel[n - 1], run);
    PrefixTrans(t00, t0, t0 + calls);
    TwiceStep(sel, prev, e, n - 1, run.retried);
    PhaseStep(t00, t0, calls, Twice(sel[..n - 1], prev, e), Twice(sel[..n], prev + [run.retried], e));
  }

  /** Whether `innerText` of a box whose text nodes hold `s` is empty: under
      the default `white-space: normal`, every character of `s` is white
      space that collapses away (space, tab, line feed, form feed, carriage
      return). */
  predicate RendersEmpty(s: string)
  {
    forall i | 0 <= i < |s| :: s[i] in {' ', '\t', '\n', '\U{C}', '\r'}
  }

  /** The state of one run of the engine (lines 550-557) and its operations. */
  class Flow {
    const doc: Document
    const rules: seq<Rule>
    /** `elmt.matches(selector)`. */
    const matches: (Element, string) -> bool
    /** `page.hasOverflowed()` for a page with regions `flow` and `footer`. */
    const overflows: (seq<DomNode>, NodeId, NodeId) -> bool

    /** `state.path`: the open elements, outermost first. */
    var path: seq<NodeId>
    /** The element each path entry was pushed for; a shell made by
        `clonePath` stands for the same element. */
    ghost var pathElems: seq<Element>
    /** `state.pages`, in creation order. */
    var pages: seq<Page>
    /** `state.currentPage`. */
    var currentPage: Page?
    /** Pages the run may still make. */
    var budget: nat
    var halted: Option<Halt>
    /** The hook calls, in order. */
    var trace: seq<HookCall>
    var log: seq<Diagnostic>
    /** `pg.number` as the page-number rule sets it: the number itself
        (line 2277). */
    var numbers: map<Page, int>

    ghost predicate Valid()
      reads this, doc
    {
      doc.Valid() && CurrentLast(pages, currentPage) && PagesIn(pages, doc.nodes)
      && PathIn(doc.nodes, path, pathElems)
    }

    /** Whether the current page overflows. */
    function Overflowing(): bool
      reads this, doc
      requires currentPage != null
    {
      overflows(doc.nodes, currentPage.flow, currentPage.footer)
    }

    /** The document and the regions of the current page. */
    ghost function Here(): View
      reads this, doc
      requires currentPage != null
    {
      View(doc.nodes, currentPage.flow, currentPage.footer)
    }

    constructor (doc: Document, rules: seq<Rule>, matches: (Element, string) -> bool,
                 overflows: (seq<DomNode>, NodeId, NodeId) -> bool, budget: nat)
      requires doc.Valid()
      ensures Valid() && this.doc == doc && this.rules == rules && this.matches == matches
      ensures this.overflows == overflows && this.budget == budget
      ensures path == [] && pages == [] && halted == None && trace == [] && log == [] && numbers == map[]
    {
      this.doc, this.rules, this.matches, this.overflows, this.budget := doc, rules, matches, overflows, budget;
      path, pathElems, pages, currentPage := [], [], [], null;
      halted, trace, log, numbers := None, [], [], map[];
    }

    /** `afterBindRules(pages)` (lines 598-606): every rule with an
        `afterBind` hook, in registration order, runs it on every page. The
        pages are numbered when a page-number rule is among them. */
    method AfterBindRules(ordered: seq<Page>)
      modifies this
      ensures trace == old(trace) + BindCalls(BindSelected(rules), |ordered|)
      ensures numbers == if NumbersPages(rules, BindSelected(rules)) then Numbered(old(numbers), ordered) else old(numbers)
      ensures path == old(path) && pathElems == old(pathElems) && pages == old(pages)
      ensures currentPage == old(currentPage) && budget == old(budget) && halted == old(halted) && log == old(log)
    {
      assert this as object != doc as object;
      var calls, nums := BindAll(rules, BindSelected(rules), ordered, numbers);
      trace, numbers := trace + calls, nums;
    }

    /** `newPageRules(pg)` (lines 593-597) for the page about to be pushed. */
    method NewPageRules()
      modifies this
      ensures trace == old(trace) + NewPageCalls(rules, |pages|)
      ensures path == old(path) && pathElems == old(pathElems) && pages == old(pages)
      ensures currentPage == old(currentPage) && budget == old(budget) && halted == old(halted) && log == old(log)
    {
      var made := RunHooks(Selected(rules, NewPage, _ => false), NewPage, OnPage(|pages|));
      trace := trace + made;
    }

    /** `state.path = clonePath(state.path)` (line 611). */
    method RenewPath() returns (shells: seq<NodeId>)
      requires Valid()
      modifies this, doc
      ensures path == shells && pathElems == old(pathElems) && pages == old(pages) && currentPage == old(currentPage)
      ensures budget == old(budget) && halted == old(halted) && trace == old(trace)
      ensures Valid() && DataKept(old(doc.nodes), doc.nodes) && |old(doc.nodes)| + |shells| == |doc.nodes|
      ensures old(doc.nodes) <= doc.nodes
      ensures Shells(doc.nodes, ElementsOf(old(doc.nodes), old(path)), shells, 0)
      ensures forall i | 0 <= i < |shells| :: |old(doc.nodes)| <= shells[i]
      ensures log == old(log) + IdWarnings(ElementsOf(old(doc.nodes), old(path)), 0)
    {
      assert this as object != doc as object;
      ghost var before := doc.nodes;
      ghost var elems := pathElems;
      var orig := path;
      ElementsIn(before, orig, elems);
      var renewed, warnings := ClonePath(doc, orig);
      RenewedIn(before, doc.nodes, orig, renewed, elems);
      KeptPagesIn(before, doc.nodes, pages);
      path, shells := renewed, renewed;
      log := log + warnings;
    }

    /** `new Page()`, the `newPage` rules, and the push that makes it current
        (lines 612-615). */
    method PushPage() returns (page: Page)
      requires Valid()
      modifies this, doc
      ensures currentPage == page && path == old(path) && pathElems == old(pathElems) && budget == old(budget)
      ensures halted == old(halted) && log == old(log)
      ensures fresh(page) && pages == old(pages) + [page]
      ensures Valid() && doc.nodes == old(doc.nodes) + [Fresh(Region), Fresh(Region)]
      ensures page.flow == |old(doc.nodes)| && page.footer == |old(doc.nodes)| + 1
      ensures trace == old(trace) + NewPageCalls(rules, |old(pages)|)
    {
      assert this as object != doc as object;
      ghost var before := doc.nodes;
      page := new Page(doc);
      KeptPathIn(before, doc.nodes, path, pathElems);
      KeptPagesIn(before, doc.nodes, pages);
      NewPageRules();
      pages := pages + [page];
      currentPage := page;
    }

    /** `suspect.parentNode.removeChild(suspect)` for `suspect = last(state.path)`,
        with the console error that precedes it (lines 623-627). */
    method DropSuspect()
      requires Valid() && path != [] && path[|path| - 1] < |doc.nodes|
      requires doc.nodes[path[|path| - 1]].parent.Some?
      modifies this, doc
      ensures path == old(path) && pathElems == old(pathElems) && pages == old(pages)
      ensures currentPage == old(currentPage) && budget == old(budget) && halted == old(halted)
      ensures trace == old(trace)
      ensures Valid() && DataKept(old(doc.nodes), doc.nodes)
      ensures doc.nodes == Detached(old(doc.nodes), old(path)[|old(path)| - 1])
      ensures log == old(log) + [AlreadyOverflowing(old(doc.nodes)[old(path)[|old(path)| - 1]].data.element)]
    {
      assert this as object != doc as object;
      var suspect := path[|path| - 1];
      assert PathEntry(doc.nodes, suspect, pathElems[|path| - 1]);
      log := log + [AlreadyOverflowing(doc.nodes[suspect].data.element)];
      doc.RemoveChild(doc.nodes[suspect].parent.value, suspect);
      KeptPagesIn(old(doc.nodes), doc.nodes, pages);
      KeptPathIn(old(doc.nodes), doc.nodes, path, pathElems);
    }

    /** The check of lines 620-628: if the fresh page already overflows, the
        deepest path element leaves its parent; with no path, `last(state.path)`
        is undefined and the error message itself throws. */
    method CheckFresh() returns (over: bool)
      requires Valid() && currentPage != null && halted.None?
      requires forall i | 0 <= i < |path| :: path[i] < |doc.nodes|
      requires path != [] ==> doc.nodes[path[|path| - 1]].parent.Some?
      modifies this, doc
      ensures pathElems == old(pathElems) && path == old(path) && pages == old(pages)
      ensures currentPage == old(currentPage) && budget == old(budget) && trace == old(trace)
      ensures Valid() && DataKept(old(doc.nodes), doc.nodes)
      ensures over == old(overflows(doc.nodes, currentPage.flow, currentPage.footer))
      ensures halted == if over && old(path) == [] then Some(Threw) else None
      ensures doc.nodes == if over && old(path) != [] then Detached(old(doc.nodes), old(path)[|old(path)| - 1]) else old(doc.nodes)
      ensures log == old(log) + Dropped(old(doc.nodes), old(path), over)
    {
      assert this as object != doc as object;
      over := Overflowing();
      if over {
        if path == [] {
          halted := Some(Threw);
          return;
        }
        DropSuspect();
      }
    }

    /** Lines 611-618: the path is replaced by its shells, a new page is made
        current after the `newPage` rules ran for it, and the outermost shell
        goes into its flow box. */
    method OpenPage() returns (shells: seq<NodeId>, page: Page)
      requires Valid()
      modifies this, doc
      ensures path == shells && currentPage == page && pathElems == old(pathElems)
      ensures budget == old(budget) && halted == old(halted)
      ensures Valid() && DataKept(old(doc.nodes), doc.nodes) && |shells| == |old(path)|
      ensures fresh(page) && pages == old(pages) + [page]
      ensures trace == old(trace) + NewPageCalls(rules, |old(pages)|)
      ensures log == old(log) + IdWarnings(ElementsOf(old(doc.nodes), old(path)), 0)
      ensures ShellsUnder(doc.nodes, ElementsOf(old(doc.nodes), old(path)), shells, page.flow)
      ensures |old(doc.nodes)| <= page.flow && |old(doc.nodes)| <= page.footer
      ensures forall i | 0 <= i < |shells| :: |old(doc.nodes)| <= shells[i]
      ensures old(doc.nodes) <= doc.nodes && doc.nodes[page.footer].children == []
    {
      ghost var before, es := doc.nodes, ElementsOf(doc.nodes, path);
      shells := RenewPath();
      ghost var renewed := doc.nodes;
      page := MountPage(es, |before|);
      KeptTrans(before, renewed, doc.nodes);
      forall i | 0 <= i < |before| ensures doc.nodes[i] == before[i] {
        assert renewed[i] == before[i];
      }
    }

    /** Lines 613-618 once the path holds the shells of `es`: a new page is
        made current after the `newPage` rules ran for it, and the outermost
        shell goes into its flow box. */
    method MountPage(ghost es: seq<Element>, ghost floor: nat) returns (page: Page)
      requires Valid() && |path| == |es| && Shells(doc.nodes, es, path, 0)
      requires floor <= |doc.nodes| && forall i | 0 <= i < |path| :: floor <= path[i]
      modifies this, doc
      ensures path == old(path) && currentPage == page && pathElems == old(pathElems)
      ensures budget == old(budget) && halted == old(halted) && log == old(log)
      ensures fresh(page) && pages == old(pages) + [page]
      ensures trace == old(trace) + NewPageCalls(rules, |old(pages)|)
      ensures Valid() && DataKept(old(doc.nodes), doc.nodes) && |old(doc.nodes)| <= |doc.nodes|
      ensures forall i | 0 <= i < floor :: doc.nodes[i] == old(doc.nodes)[i]
      ensures ShellsUnder(doc.nodes, es, path, page.flow)
      ensures |old(doc.nodes)| <= page.flow && |old(doc.nodes)| <= page.footer && doc.nodes[page.footer].children == []
    {
      ghost var renewed := doc.nodes;
      page := PushPage();
      ShellsGrow(renewed, [Fresh(Region), Fresh(Region)], es, path);
      ghost var pushed := doc.nodes;
      KeptGrow(renewed, [Fresh(Region), Fresh(Region)]);
      if path != [] {
        assert ShellAt(doc.nodes, es, path, 0, 0);
        AppendKeeps(doc.nodes, page.flow, path[0], pages, path, pathElems);
      }
      assert this as object != doc as object;
      AttachShells(doc, es, path, page.flow);
      KeptTrans(renewed, pushed, doc.nodes);
      if path != [] {
        assert ShellAt(pushed, es, path, 0, 0);
        forall i | 0 <= i < floor ensures doc.nodes[i] == renewed[i] {
          assert pushed[i] == renewed[i];
        }
      }
    }

    /** `makeNextPage()` (lines 610-630): when the budget allows, a page is
        opened as `OpenPage` says; if it then overflows, the deepest path
        element is taken out again as `CheckFresh` says. */
    method MakeNextPage()
      returns (ghost overflowed: bool, ghost attached: seq<DomNode>, ghost made: seq<HookCall>,
               ghost shells: seq<NodeId>, ghost page: Page?)
      requires Valid() && halted.None?
      modifies this, doc
      ensures path == shells && currentPage == page && pathElems == old(pathElems) && budget <= old(budget)
      ensures Valid() && DataKept(old(doc.nodes), doc.nodes) && |shells| == |old(path)|
      ensures trace == old(trace) + made && AllNewPage(made)
      ensures old(budget) == 0 ==>
        halted == Some(OutOfPages) && doc.nodes == old(doc.nodes)
        && shells == old(path) && pages == old(pages) && made == [] && log == old(log) && page == old(currentPage)
      ensures old(budget) > 0 ==>
        budget + 1 == old(budget) && page != null && fresh(page) && pages == old(pages) + [page]
        && made == NewPageCalls(rules, |old(pages)|)
        && PageOpened(old(doc.nodes), old(path), attached, shells, page, overflowed, doc.nodes)
        && overflowed == overflows(attached, page.flow, page.footer)
        && halted == (if overflowed && shells == [] then Some(Threw) else None)
        && log == old(log) + IdWarnings(ElementsOf(old(doc.nodes), old(path)), 0)
                  + Dropped(attached, shells, overflowed)
    {
      assert this as object != doc as object;
      overflowed, attached, made, shells, page := false, doc.nodes, [], path, currentPage;
      if budget == 0 {
        halted := Some(OutOfPages);
        return;
      }
      budget := budget - 1;
      overflowed, attached, shells, page := Advance();
      made := NewPageCalls(rules, |old(pages)|);
    }

    /** Lines 611-628 once the budget allowed a page. */
    method Advance() returns (overflowed: bool, ghost attached: seq<DomNode>, ghost shells: seq<NodeId>, ghost page: Page)
      requires Valid() && halted.None?
      modifies this, doc
      ensures path == shells && currentPage == page && pathElems == old(pathElems) && budget == old(budget)
      ensures Valid() && DataKept(old(doc.nodes), doc.nodes) && |shells| == |old(path)|
      ensures fresh(page) && pages == old(pages) + [page]
      ensures trace == old(trace) + NewPageCalls(rules, |old(pages)|)
      ensures PageOpened(old(doc.nodes), old(path), attached, shells, page, overflowed, doc.nodes)
      ensures overflowed == overflows(attached, page.flow, page.footer)
      ensures halted == if overflowed && shells == [] then Some(Threw) else None
      ensures log == old(log) + IdWarnings(ElementsOf(old(doc.nodes), old(path)), 0) + Dropped(attached, shells, overflowed)
    {
      ghost var es := ElementsOf(old(doc.nodes), old(path));
      var renewed, newPage := OpenPage();
      ShellsHang(doc.nodes, es, renewed, newPage.flow);
      attached, shells, page := doc.nodes, renewed, newPage;
      overflowed := CheckFresh();
      KeptTrans(old(doc.nodes), attached, doc.nodes);
    }

    /** `rule.beforeAdd(elmt, state)` for the rule at position `i`. Only
        `BreakBefore` (lines 2019-2024) does something the model sees: when the
        flow box of the current page holds text, it moves on to a new page and
        asks for that page to be a right-hand one. The flow box holds text
        when its `innerText` is not empty, that is, when its text is not all
        collapsible white space. */
    method BeforeAddHook(i: nat, e: Element, ghost here: View)
      returns (ghost made: seq<HookCall>, ghost added: seq<Page>, ghost broke: bool)
      requires Valid() && halted.None? && currentPage != null && i < |rules| && here == Here()
      modifies this, doc
      ensures pathElems == old(pathElems) && |path| == |old(path)| && budget <= old(budget)
      ensures Valid() && DataKept(old(doc.nodes), doc.nodes) && currentPage != null
      ensures pages == old(pages) + added && |added| <= 1 && (added != [] ==> fresh(currentPage))
      ensures added != [] ==> added == [currentPage]
      ensures added == [] ==> currentPage == old(currentPage)
      ensures trace == old(trace) + ([HookCall(BeforeAdd, i, OnElement(e))] + made) && AllNewPage(made)
      ensures broke == (rules[i].behaviour.BreakBefore?
                        && !RendersEmpty(TextContent(old(doc.nodes), old(currentPage).flow, |old(doc.nodes)|)))
      ensures broke == !Quiet(rules[i].behaviour, here)
      ensures broke && old(budget) > 0 ==>
        added == [currentPage] && made == NewPageCalls(rules, |old(pages)|)
        && (halted.None? ==> currentPage.alwaysRight)
      ensures !broke ==>
        made == [] && added == [] && doc.nodes == old(doc.nodes) && path == old(path) && Here() == here
        && currentPage == old(currentPage) && halted == old(halted) && log == old(log) && budget == old(budget)
    {
      assert this as object != doc as object;
      made, added := [], [];
      assert RegionsIn(currentPage, doc.nodes);
      broke := rules[i].behaviour.BreakBefore? && !RendersEmpty(TextContent(doc.nodes, currentPage.flow, |doc.nodes|));
      trace := trace + [HookCall(BeforeAdd, i, OnElement(e))];
      if rules[i].behaviour.BreakBefore? && !RendersEmpty(TextContent(doc.nodes, currentPage.flow, |doc.nodes|)) {
        ghost var t0 := trace;
        ghost var o, a, m, sh, pg := MakeNextPage();
        made := m;
        SeqAssoc(old(trace), [HookCall(BeforeAdd, i, OnElement(e))], made);
        if old(budget) > 0 {
          added := [currentPage];
        }
        if halted.None? {
          assert this as object != currentPage as object;
          currentPage.SetPreference("right");
        }
      }
    }

    /** The restore of lines 572-576: the backup takes the place of the
        current page in `state.pages` and becomes current. */
    method RestoreBackup(backupPg: Page)
      requires Valid() && currentPage != null && RegionsIn(backupPg, doc.nodes)
      requires forall j | 0 <= j < |pages| :: pages[j] != backupPg
      modifies this
      ensures path == old(path) && pathElems == old(pathElems) && budget == old(budget) && halted == old(halted)
      ensures trace == old(trace) && log == old(log)
      ensures Valid() && currentPage == backupPg && pages == old(pages)[|old(pages)| - 1 := backupPg]
    {
      var idx := IndexOf(pages, currentPage);
      pages := pages[idx := backupPg];
      currentPage := backupPg;
    }

    /** Lines 572-580: put the backup back in the current page's slot and make
        a new page after it. `pages0` is the page list on entry. */
    method RestoreAndNewPage(backupPg: Page, ghost pages0: seq<Page>)
      returns (ghost made2: seq<HookCall>, ghost added: seq<Page>)
      requires Valid() && halted.None? && currentPage != null && RegionsIn(backupPg, doc.nodes)
      requires forall j | 0 <= j < |pages| :: pages[j] != backupPg
      requires pages0 == pages
      modifies this, doc
      ensures backupPg.alwaysLeft == old(backupPg.alwaysLeft) && backupPg.alwaysRight == old(backupPg.alwaysRight)
      ensures backupPg.outOfFlow == old(backupPg.outOfFlow)
      ensures pathElems == old(pathElems) && |path| == |old(path)| && budget <= old(budget)
      ensures Valid() && DataKept(old(doc.nodes), doc.nodes) && currentPage != null
      ensures pages == pages0[|pages0| - 1 := backupPg] + added
      ensures trace == old(trace) + made2 && AllNewPage(made2)
      ensures old(budget) == 0 ==> halted == Some(OutOfPages) && added == [] && made2 == []
      ensures old(budget) > 0 ==>
        added == [currentPage] && fresh(currentPage) && made2 == NewPageCalls(rules, |pages0|)
    {
      RestoreBackup(backupPg);
      ghost var restored := pages;
      ghost var o, a, m, sh, pg := MakeNextPage();
      made2 := m;
      added := pages[|restored|..];
      assert pages == restored + added;
    }

    /** Lines 572-581: restore the backup, make a new page and run the hook
        again. */
    method Retry(i: nat, e: Element, backupPg: Page)
      returns (ghost made2: seq<HookCall>, ghost made3: seq<HookCall>, ghost added: seq<Page>)
      requires Valid() && halted.None? && currentPage != null && i < |rules| && RegionsIn(backupPg, doc.nodes)
      requires forall j | 0 <= j < |pages| :: pages[j] != backupPg
      modifies this, doc
      ensures backupPg.alwaysLeft == old(backupPg.alwaysLeft) && backupPg.alwaysRight == old(backupPg.alwaysRight)
      ensures backupPg.outOfFlow == old(backupPg.outOfFlow)
      ensures pathElems == old(pathElems) && |path| == |old(path)| && budget <= old(budget)
      ensures Valid() && DataKept(old(doc.nodes), doc.nodes) && currentPage != null
      ensures pages == old(pages)[|old(pages)| - 1 := backupPg] + added
      ensures halted.None? ==> trace == old(trace) + (made2 + ([HookCall(BeforeAdd, i, OnElement(e))] + made3))
      ensures AllNewPage(made2) && AllNewPage(made3)
      ensures old(budget) == 0 ==> halted == Some(OutOfPages) && added == [] && made2 == []
      ensures old(budget) > 0 ==> added != [] && fresh(added[0]) && made2 == NewPageCalls(rules, |old(pages)|)
      ensures halted.None? ==> currentPage != backupPg
    {
      made3 := [];
      ghost var t1 := trace;
      made2, added := RestoreAndNewPage(backupPg, pages);
      if halted.Some? {
        return;
      }
      ghost var restored := pages[..|pages| - |added|];
      ghost var mid := doc.nodes;
      ghost var m3, a3, b3 := BeforeAddHook(i, e, Here());
      KeptTrans(old(doc.nodes), mid, doc.nodes);
      made3 := m3;
      SeqAssoc(restored, added, a3);
      added := added + a3;
      SeqAssoc(t1, made2, [HookCall(BeforeAdd, i, OnElement(e))] + made3);
    }

    /** One turn of the `forEach` in `beforeAddRules` (lines 565-584) for a
        rule that matches and defines `beforeAdd`: the current page is backed
        up, the hook runs, and if the page then overflows the backup takes the
        current page's place in `state.pages`, a new page is made and the hook
        runs once more. `hooked` and `hookPage` are the document and the
        current page just after the first run of the hook, `hookPages` the
        pages then, `added1` the pages that run made and `added2` the pages
        made after the restore. */
    method RunBeforeAdd(i: nat, e: Element)
      returns (ghost retried: bool, ghost calls: seq<HookCall>, ghost hooked: seq<DomNode>, ghost hookPage: Page,
               ghost added1: seq<Page>, ghost hookPages: seq<Page>, ghost backup: Page, ghost added2: seq<Page>,
               ghost run: HookRun, ghost broke: bool)
      requires Valid() && halted.None? && currentPage != null && i < |rules|
      modifies this, doc
      ensures pathElems == old(pathElems) && |path| == |old(path)| && budget <= old(budget)
      ensures Valid() && DataKept(old(doc.nodes), doc.nodes) && currentPage != null
      ensures DataKept(old(doc.nodes), hooked) && DataKept(hooked, doc.nodes) && fresh(backup)
      ensures run.rule == i && run.start == old(Here()) && run.retried == retried
      ensures run.hooked == View(hooked, hookPage.flow, hookPage.footer) && |added1| <= 1
      ensures halted.None? ==> run.end == Here() && TurnKept(run, rules)
      ensures run.seen.flow == old(currentPage).flow && run.seen.footer == old(currentPage).footer
              && old(doc.nodes) <= run.seen.nodes
      ensures broke == !Quiet(rules[i].behaviour, run.seen)
      ensures broke && old(budget) > 0 ==>
        |added1| == 1 && (halted.None? ==> hookPage == added1[0] && hookPage.alwaysRight)
      ensures halted.None? && retried ==> added2 != [] && fresh(added2[0]) && currentPage != backup
      ensures hookPages == old(pages) + added1 && hookPages != [] && hookPage == hookPages[|hookPages| - 1]
      ensures retried ==> overflows(hooked, hookPage.flow, hookPage.footer)
      ensures halted.None? ==> (retried <==> overflows(hooked, hookPage.flow, hookPage.footer))
      ensures !retried ==> pages == hookPages
      ensures retried ==> pages == hookPages[|hookPages| - 1 := backup] + added2
      ensures halted.None? ==> trace == old(trace) + calls
      ensures halted.None? ==>
        InPhase(calls, BeforeAdd)
        == (if retried then [HookCall(BeforeAdd, i, OnElement(e)), HookCall(BeforeAdd, i, OnElement(e))]
            else [HookCall(BeforeAdd, i, OnElement(e))])
    {
      assert RegionsIn(currentPage, doc.nodes);
      assert this as object != doc as object;
      var backupPg := currentPage.Clone(doc);
      backup := backupPg;
      KeptPagesIn(old(doc.nodes), doc.nodes, pages);
      KeptPathIn(old(doc.nodes), doc.nodes, path, pathElems);
      ghost var cloned := doc.nodes;
      ghost var seen := Here();
      assert old(doc.nodes) <= cloned;
      retried, calls, hooked, hookPage, added1, hookPages, added2, broke := HookAndRetry(i, e, backupPg, seen, pages);
      KeptTrans(old(doc.nodes), cloned, hooked);
      KeptTrans(old(doc.nodes), cloned, doc.nodes);
      run := HookRun(i, old(Here()), seen, View(hooked, hookPage.flow, hookPage.footer), retried, Here());
    }

    /** Lines 568-583 once the backup `backupPg` is made: the hook runs, and
        if the current page then overflows the backup replaces it and the hook
        runs again on a new page. */
    method HookAndRetry(i: nat, e: Element, backupPg: Page, ghost here: View, ghost pages0: seq<Page>)
      returns (ghost retried: bool, ghost calls: seq<HookCall>, ghost hooked: seq<DomNode>, ghost hookPage: Page,
               ghost added1: seq<Page>, ghost hookPages: seq<Page>, ghost added2: seq<Page>, ghost broke: bool)
      requires Valid() && halted.None? && currentPage != null && i < |rules| && RegionsIn(backupPg, doc.nodes)
      requires here == Here() && pages0 == pages
      requires forall j | 0 <= j < |pages| :: pages[j] != backupPg
      modifies this, doc
      ensures pathElems == old(pathElems) && |path| == |old(path)| && budget <= old(budget)
      ensures Valid() && DataKept(old(doc.nodes), doc.nodes) && currentPage != null
      ensures DataKept(old(doc.nodes), hooked) && DataKept(hooked, doc.nodes)
      ensures hookPages == pages0 + added1 && hookPages != [] && hookPage == hookPages[|hookPages| - 1]
      ensures |added1| <= 1
      ensures broke == !Quiet(rules[i].behaviour, here)
      ensures !broke ==> added1 == [] && View(hooked, hookPage.flow, hookPage.footer) == here
      ensures broke && old(budget) > 0 ==>
        |added1| == 1 && (halted.None? ==> hookPage == added1[0] && hookPage.alwaysRight)
      ensures halted.None? && retried ==> added2 != [] && fresh(added2[0]) && currentPage != backupPg
      ensures retried ==> overflows(hooked, hookPage.flow, hookPage.footer)
      ensures halted.None? ==> (retried <==> overflows(hooked, hookPage.flow, hookPage.footer))
      ensures halted.None? && !retried ==> hooked == doc.nodes && hookPage == currentPage
      ensures !retried ==> pages == hookPages
      ensures retried ==> pages == hookPages[|hookPages| - 1 := backupPg] + added2
      ensures halted.None? ==> trace == old(trace) + calls
      ensures halted.None? ==>
        InPhase(calls, BeforeAdd)
        == (if retried then [HookCall(BeforeAdd, i, OnElement(e)), HookCall(BeforeAdd, i, OnElement(e))]
            else [HookCall(BeforeAdd, i, OnElement(e))])
    {
      assert this as object != doc as object;
      ghost var before, trace0 := doc.nodes, trace;
      retried, added2 := false, [];
      ghost var made1;
      ghost var cur0 := currentPage;
      made1, added1, broke, hookPage, hookPages := FirstRun(i, e, here, backupPg, pages0);
      LastAfterGrow(pages0, added1, hookPages, cur0, hookPage);
      hooked := doc.nodes;
      calls := [HookCall(BeforeAdd, i, OnElement(e))] + made1;
      if halted.Some? {
        return;
      }
      retried, calls, added2 := CheckAndRetry(i, e, backupPg, trace0, made1, hooked, hookPage, hookPages);
      KeptTrans(before, hooked, doc.nodes);
    }

    /** The first run of the hook (line 570), as `BeforeAddHook` says, with
        the current page still the last one. */
    method FirstRun(i: nat, e: Element, ghost here: View, ghost backupPg: Page, ghost pages0: seq<Page>)
      returns (ghost made: seq<HookCall>, ghost added: seq<Page>, ghost broke: bool,
               ghost page: Page, ghost grown: seq<Page>)
      requires Valid() && halted.None? && currentPage != null && i < |rules| && here == Here()
      requires pages0 == pages && pages0 != [] && pages0[|pages0| - 1] == currentPage
      requires RegionsIn(backupPg, doc.nodes) && forall j | 0 <= j < |pages0| :: pages0[j] != backupPg
      modifies this, doc
      ensures RegionsIn(backupPg, doc.nodes) && forall j | 0 <= j < |pages| :: pages[j] != backupPg
      ensures pathElems == old(pathElems) && |path| == |old(path)| && budget <= old(budget)
      ensures Valid() && DataKept(old(doc.nodes), doc.nodes) && currentPage != null
      ensures pages == pages0 + added && |added| <= 1 && (added != [] ==> fresh(currentPage))
      ensures page == currentPage && grown == pages
      ensures added != [] ==> added == [page]
      ensures added == [] ==> page == old(currentPage)
      ensures trace == old(trace) + ([HookCall(BeforeAdd, i, OnElement(e))] + made) && AllNewPage(made)
      ensures broke == !Quiet(rules[i].behaviour, here)
      ensures !broke ==> added == [] && Here() == here
      ensures broke && old(budget) > 0 ==>
        |added| == 1 && (halted.None? ==> currentPage == added[0] && currentPage.alwaysRight)
    {
      ghost var nodes0 := doc.nodes;
      made, added, broke := BeforeAddHook(i, e, here);
      RegionsKept(backupPg, nodes0, doc.nodes);
      NotAmongGrown(pages0, added, backupPg);
      page, grown := currentPage, pages;
    }

    /** Lines 571-582 once the hook has run for the first time and recorded
        `[call] + made1` on `trace0`: when the current page overflows, the
        backup comes back and the hook runs again on a new page; otherwise
        nothing changes. */
    method CheckAndRetry(i: nat, e: Element, backupPg: Page, ghost trace0: seq<HookCall>, ghost made1: seq<HookCall>,
                         ghost hooked: seq<DomNode>, ghost hookPage: Page, ghost hookPages: seq<Page>)
      returns (ghost retried: bool, ghost calls: seq<HookCall>, ghost added: seq<Page>)
      requires Valid() && halted.None? && currentPage != null && i < |rules| && RegionsIn(backupPg, doc.nodes)
      requires forall j | 0 <= j < |pages| :: pages[j] != backupPg
      requires AllNewPage(made1) && trace == trace0 + ([HookCall(BeforeAdd, i, OnElement(e))] + made1)
      requires hooked == doc.nodes && hookPage == currentPage && hookPages == pages
      modifies this, doc
      ensures retried <==> overflows(hooked, hookPage.flow, hookPage.footer)
      ensures !retried ==>
        doc.nodes == hooked && currentPage == hookPage && pages == hookPages && trace == old(trace)
        && calls == [HookCall(BeforeAdd, i, OnElement(e))] + made1
      ensures pathElems == old(pathElems) && |path| == |old(path)| && budget <= old(budget)
      ensures Valid() && DataKept(hooked, doc.nodes) && currentPage != null
      ensures retried ==> pages == hookPages[|hookPages| - 1 := backupPg] + added
      ensures halted.None? && retried ==> added != [] && fresh(added[0]) && currentPage != backupPg
      ensures halted.None? ==> trace == trace0 + calls
      ensures halted.None? ==>
        InPhase(calls, BeforeAdd)
        == (if retried then [HookCall(BeforeAdd, i, OnElement(e)), HookCall(BeforeAdd, i, OnElement(e))]
            else [HookCall(BeforeAdd, i, OnElement(e))])
    {
      ghost var call := HookCall(BeforeAdd, i, OnElement(e));
      calls, added := [call] + made1, [];
      var over := Overflowing();
      retried := over;
      if !over {
        OneRun(call, made1);
        return;
      }
      calls, added := RetryBranch(i, e, backupPg, trace0, made1);
    }

    /** The overflow branch of `HookAndRetry` (lines 571-582): after the
        first run recorded `[call] + made1` on `trace0`, the backup comes
        back, a new page is made and the hook runs a second time. */
    method RetryBranch(i: nat, e: Element, backupPg: Page, ghost trace0: seq<HookCall>, ghost made1: seq<HookCall>)
      returns (ghost calls: seq<HookCall>, ghost added: seq<Page>)
      requires Valid() && halted.None? && currentPage != null && i < |rules| && RegionsIn(backupPg, doc.nodes)
      requires forall j | 0 <= j < |pages| :: pages[j] != backupPg
      requires AllNewPage(made1) && trace == trace0 + ([HookCall(BeforeAdd, i, OnElement(e))] + made1)
      modifies this, doc
      ensures pathElems == old(pathElems) && |path| == |old(path)| && budget <= old(budget)
      ensures Valid() && DataKept(old(doc.nodes), doc.nodes) && currentPage != null
      ensures pages == old(pages)[|old(pages)| - 1 := backupPg] + added
      ensures old(budget) == 0 ==> halted == Some(OutOfPages) && added == []
      ensures old(budget) > 0 ==> added != [] && fresh(added[0])
      ensures halted.None? ==> added != [] && fresh(added[0]) && currentPage != backupPg
      ensures halted.None? ==> trace == trace0 + calls
      ensures halted.None? ==>
        InPhase(calls, BeforeAdd) == [HookCall(BeforeAdd, i, OnElement(e)), HookCall(BeforeAdd, i, OnElement(e))]
    {
      ghost var call := HookCall(BeforeAdd, i, OnElement(e));
      ghost var made2, made3;
      made2, made3, added := Retry(i, e, backupPg);
      calls := ([call] + made1) + (made2 + ([call] + made3));
      if halted.None? {
        TwoRuns(call, made1, made2, made3);
        SeqAssoc(trace0, [call] + made1, made2 + ([call] + made3));
      }
    }

    /** `afterAddRules(elmt)` (lines 586-592): the `afterAdd` hook of every rule
        whose selector `e` matches, in registration order. */
    method AfterAddRules(e: Element)
      modifies this
      ensures trace == old(trace) + Calls(Selected(rules, AfterAdd, Matcher(matches, e)), AfterAdd, OnElement(e))
      ensures path == old(path) && pathElems == old(pathElems) && pages == old(pages)
      ensures currentPage == old(currentPage) && budget == old(budget) && halted == old(halted) && log == old(log)
    {
      var made := RunHooks(Selected(rules, AfterAdd, Matcher(matches, e)), AfterAdd, OnElement(e));
      trace := trace + made;
    }

    /** `beforeAddRules(elmt)` (lines 563-585): each rule whose selector `e`
        matches and that has a `beforeAdd` hook runs as `RunBeforeAdd` says, in
        registration order; `retries` says which of them ran twice, and
        `runs` what each turn saw just after the first run of its hook. */
    method BeforeAddRules(e: Element) returns (ghost retries: seq<bool>, ghost runs: seq<HookRun>)
      requires Valid() && halted.None? && currentPage != null
      modifies this, doc
      ensures pathElems == old(pathElems) && |path| == |old(path)| && budget <= old(budget)
      ensures Valid() && DataKept(old(doc.nodes), doc.nodes) && currentPage != null
      ensures halted.None? ==>
        |retries| == |Selected(rules, BeforeAdd, Matcher(matches, e))| && RetriedOnOverflow(retries, runs, overflows)
        && Turns(runs, Selected(rules, BeforeAdd, Matcher(matches, e)), rules, old(Here()), Here())
        && old(trace) <= trace
        && InPhase(trace, BeforeAdd)
           == InPhase(old(trace), BeforeAdd) + Twice(Selected(rules, BeforeAdd, Matcher(matches, e)), retries, e)
    {
      assert this as object != doc as object;
      var sel := Selected(rules, BeforeAdd, Matcher(matches, e));
      retries, runs := RunBeforeAddUpTo(sel, |sel|, e);
      if halted.None? {
        assert sel[..|sel|] == sel;
      }
    }

    /** The first `n` turns of the `forEach` in `beforeAddRules` over the
        selected rules `sel`. */
    method RunBeforeAddUpTo(sel: seq<nat>, n: nat, e: Element) returns (ghost retries: seq<bool>, ghost runs: seq<HookRun>)
      requires Valid() && halted.None? && currentPage != null && n <= |sel|
      requires forall j | 0 <= j < |sel| :: sel[j] < |rules|
      modifies this, doc
      ensures pathElems == old(pathElems) && |path| == |old(path)| && budget <= old(budget)
      ensures Valid() && DataKept(old(doc.nodes), doc.nodes) && currentPage != null
      ensures halted.None? ==>
        |retries| == n && RetriedOnOverflow(retries, runs, overflows)
        && Turns(runs, sel[..n], rules, old(Here()), Here()) && old(trace) <= trace
        && InPhase(trace, BeforeAdd) == InPhase(old(trace), BeforeAdd) + Twice(sel[..n], retries, e)
      decreases n
    {
      assert this as object != doc as object;
      retries, runs := [], [];
      if n == 0 {
        return;
      }
      ghost var first, mid := Here(), doc.nodes;
      retries, runs := RunBeforeAddUpTo(sel, n - 1, e);
      if halted.Some? {
        return;
      }
      ghost var mid1 := doc.nodes;
      KeptTrans(old(doc.nodes), mid, mid1);
      retries, runs := BeforeAddStep(sel, n, e, retries, runs, first, old(trace));
      KeptTrans(old(doc.nodes), mid1, doc.nodes);
    }

    /** One more turn of the `beforeAdd` loop of lines 563-585, after the
        first `n - 1` selected rules left `prev` and `prevRuns` behind. */
    method BeforeAddStep(sel: seq<nat>, n: nat, e: Element, ghost prev: seq<bool>, ghost prevRuns: seq<HookRun>,
                         ghost first: View, ghost t00: seq<HookCall>)
      returns (ghost retries: seq<bool>, ghost runs: seq<HookRun>)
      requires Valid() && halted.None? && currentPage != null && 1 <= n <= |sel|
      requires forall j | 0 <= j < |sel| :: sel[j] < |rules|
      requires |prev| == n - 1 && RetriedOnOverflow(prev, prevRuns, overflows)
      requires Turns(prevRuns, sel[..n - 1], rules, first, Here()) && t00 <= trace
      requires InPhase(trace, BeforeAdd) == InPhase(t00, BeforeAdd) + Twice(sel[..n - 1], prev, e)
      modifies this, doc
      ensures pathElems == old(pathElems) && |path| == |old(path)| && budget <= old(budget)
      ensures Valid() && DataKept(old(doc.nodes), doc.nodes) && currentPage != null
      ensures halted.None? ==>
        |retries| == n && RetriedOnOverflow(retries, runs, overflows)
        && Turns(runs, sel[..n], rules, first, Here()) && t00 <= trace
        && InPhase(trace, BeforeAdd) == InPhase(t00, BeforeAdd) + Twice(sel[..n], retries, e)
    {
      ghost var t0, midView := trace, Here();
      ghost var again, calls, hooked, hookPage, added1, hookPages, backup, added2, run, broke := RunBeforeAdd(sel[n - 1], e);
      retries, runs := prev + [again], prevRuns + [run];
      if halted.None? {
        BeforeAddTurn(prev, prevRuns, sel, n, e, rules, overflows, first, midView, run, t00, t0, calls);
      }
    }

    /** `moveNodeToNextPage(nodeToMove)` (lines 632-641): the innermost path
        entry is dropped, a new page is made, the last child of the old page's
        footer moves to the new footer, and `n` is appended to the new innermost
        entry and pushed, standing again for the element that was dropped.
        Only `n` and that footnote change parent; `n` now hangs in `home`, the
        chain of new shells on the new page. */
    method MoveNodeToNextPage(n: NodeId)
      returns (ghost home: Home, ghost page: Page?, ghost footnote: Option<NodeId>)
      requires Valid() && halted.None? && currentPage != null && path != []
      requires PathEntry(doc.nodes, n, pathElems[|pathElems| - 1])
      modifies this, doc
      ensures Valid() && DataKept(old(doc.nodes), doc.nodes) && budget <= old(budget) && currentPage != null
      ensures ParentsKept(old(doc.nodes), doc.nodes, Moved(n, footnote))
      ensures old(doc.nodes)[old(currentPage).footer].children == [] ==> footnote.None?
      ensures |old(path)| == 1 ==> halted.Some?
      ensures halted.None? ==> budget < old(budget)
      ensures halted.None? ==>
        path == home.chain + [n] && |home.chain| + 1 == |old(path)| && pathElems == old(pathElems)
        && page != null && currentPage == page && pages == old(pages) + [page]
        && Landed(doc.nodes, n, home, page, |old(doc.nodes)|)
        && (footnote.None? ==> doc.nodes[page.footer].children == [])
        && (footnote.Some? && footnote.value != n ==>
              footnote.value < |doc.nodes| && doc.nodes[footnote.value].parent == Some(page.footer))
    {
      assert this as object != doc as object;
      ghost var e := pathElems[|pathElems| - 1];
      assert pathElems == pathElems[..|pathElems| - 1] + [e];
      var fn := DropEntry();
      footnote := fn;
      home, page := NextPageFor(n, e, fn);
    }

    /** Lines 635-640 once the entry is dropped: a new page, the footnote
        `fn` into its footer, and `n` under the innermost shell and pushed. */
    method NextPageFor(n: NodeId, ghost e: Element, fn: Option<NodeId>) returns (ghost home: Home, ghost page: Page?)
      requires Valid() && halted.None? && currentPage != null
      requires PathEntry(doc.nodes, n, e)
      requires fn.Some? ==> fn.value < |doc.nodes|
      modifies this, doc
      ensures Valid() && DataKept(old(doc.nodes), doc.nodes) && budget <= old(budget) && currentPage != null
      ensures ParentsKept(old(doc.nodes), doc.nodes, Moved(n, fn))
      ensures old(path) == [] ==> halted.Some?
      ensures halted.None? ==>
        budget < old(budget) && path == home.chain + [n] && |home.chain| == |old(path)| && pathElems == old(pathElems) + [e]
        && page != null && currentPage == page && pages == old(pages) + [page]
        && Landed(doc.nodes, n, home, page, |old(doc.nodes)|)
        && (fn.None? ==> doc.nodes[page.footer].children == [])
        && (fn.Some? && fn.value != n ==> doc.nodes[fn.value].parent == Some(page.footer))
    {
      assert this as object != doc as object;
      ghost var before := doc.nodes;
      ghost var shells, cut;
      shells, page, cut := TurnPage(n, fn);
      home := Home(if page != null then page.flow else 0, shells, cut);
      if halted.Some? {
        return;
      }
      ghost var turned := doc.nodes;
      Reattach(n, e, fn, home);
      KeptTrans(before, turned, doc.nodes);
      ParentsGrow(before, turned, doc.nodes, Moved(n, fn));
    }

    /** The first lines of `moveNodeToNextPage` (632-634): the innermost
        path entry is dropped and the last child of the footer, if any, is
        noted. */
    method DropEntry() returns (fn: Option<NodeId>)
      requires Valid() && currentPage != null && path != []
      modifies this
      ensures Valid() && doc.nodes == old(doc.nodes)
      ensures halted == old(halted) && budget == old(budget) && pages == old(pages) && currentPage == old(currentPage)
      ensures path == old(path)[..|old(path)| - 1] && pathElems == old(pathElems)[..|old(pathElems)| - 1]
      ensures fn == Last(doc.nodes[currentPage.footer].children)
      ensures fn.Some? ==> fn.value < |doc.nodes|
    {
      PathInPrefix(doc.nodes, path, pathElems);
      path, pathElems := path[..|path| - 1], pathElems[..|pathElems| - 1];
      assert RegionsIn(currentPage, doc.nodes);
      assert Linked(doc.nodes[currentPage.footer], |doc.nodes|);
      fn := Last(doc.nodes[currentPage.footer].children);
    }

    /** `makeNextPage()` as `moveNodeToNextPage` relies on it: when nothing
        halted, a page was used up, the path is made of new shells, one per
        old entry, hanging from the new page's flow box as `cut` says, and the
        new page's footer is a new, empty node. */
    method TurnPage(ghost n: NodeId, ghost fn: Option<NodeId>)
      returns (ghost shells: seq<NodeId>, ghost page: Page?, ghost cut: Option<nat>)
      requires Valid() && halted.None? && currentPage != null
      requires n < |doc.nodes| && (fn.Some? ==> fn.value < |doc.nodes|)
      modifies this, doc
      ensures Valid() && DataKept(old(doc.nodes), doc.nodes) && budget <= old(budget) && currentPage != null
      ensures ParentsKept(old(doc.nodes), doc.nodes, {})
      ensures halted.None? ==>
        budget < old(budget) && path == shells && |shells| == |old(path)| && pathElems == old(pathElems)
        && page != null && currentPage == page && pages == old(pages) + [page]
        && |old(doc.nodes)| <= page.footer < |doc.nodes| && doc.nodes[page.footer].children == []
        && (forall i | 0 <= i < |shells| :: |old(doc.nodes)| <= shells[i])
        && (shells != [] ==> Chained(doc.nodes, shells, page.flow, cut))
      ensures halted.None? ==>
        (forall i | 0 <= i < |shells| :: shells[i] != n && (fn.Some? ==> shells[i] != fn.value))
        && (fn.Some? ==> fn.value != page.footer)
        && (doc.nodes[n].parent.Some? ==> doc.nodes[n].parent.value != page.footer)
    {
      assert this as object != doc as object;
      assert Linked(doc.nodes[n], |doc.nodes|);
      ghost var o, a, m;
      o, a, m, shells, page := MakeNextPage();
      cut := CutAt(o, shells);
      if old(budget) > 0 {
        OpenedKeeps(old(doc.nodes), old(path), a, shells, page, o, doc.nodes);
      }
    }

    /** The end of `moveNodeToNextPage` on the new page (lines 636-640): the
        last footnote of the old page goes into the new footer, and the node
        goes under the innermost shell, the innermost node of `h`, and back
        onto the path. */
    method Reattach(n: NodeId, ghost e: Element, fn: Option<NodeId>, ghost h: Home)
      requires Valid() && halted.None? && currentPage != null
      requires PathEntry(doc.nodes, n, e)
      requires forall i | 0 <= i < |path| :: path[i] != n
      requires fn.Some? ==> fn.value < |doc.nodes| && fn.value != currentPage.footer
      requires path != [] ==> path == h.chain && Chained(doc.nodes, h.chain, h.flow, h.cut)
      requires fn.Some? ==> forall i | 0 <= i < |path| :: path[i] != fn.value
      requires doc.nodes[currentPage.footer].children == []
      requires doc.nodes[n].parent.Some? ==> doc.nodes[n].parent.value != currentPage.footer
      modifies this, doc
      ensures pages == old(pages) && currentPage == old(currentPage) && budget == old(budget)
      ensures Valid() && DataKept(old(doc.nodes), doc.nodes)
      ensures ParentsKept(old(doc.nodes), doc.nodes, Moved(n, fn))
      ensures halted == if old(path) == [] then Some(Threw) else None
      ensures old(path) != [] ==>
        path == old(path) + [n] && pathElems == old(pathElems) + [e] && HangsIn(doc.nodes, n, h)
      ensures fn.Some? && fn.value != n ==> doc.nodes[fn.value].parent == Some(currentPage.footer)
      ensures fn.None? ==> doc.nodes[currentPage.footer].children == []
    {
      assert this as object != doc as object;
      ghost var before := doc.nodes;
      CarryFootnote(fn, h);
      ghost var carried := doc.nodes;
      PushOrThrow(n, e, h);
      MovedTrans(before, carried, doc.nodes, n, fn);
    }

    /** Line 639: `last(state.path)` is undefined, and the call throws, when
        the path is empty; otherwise `n` is put under it and pushed. */
    method PushOrThrow(n: NodeId, ghost e: Element, ghost h: Home)
      requires Valid() && halted.None? && PathEntry(doc.nodes, n, e) && currentPage != null
      requires forall i | 0 <= i < |path| :: path[i] != n
      requires path != [] ==> path == h.chain && Chained(doc.nodes, h.chain, h.flow, h.cut)
      modifies this, doc
      ensures pages == old(pages) && currentPage == old(currentPage) && budget == old(budget)
      ensures Valid() && DataKept(old(doc.nodes), doc.nodes) && ParentsKept(old(doc.nodes), doc.nodes, {n})
      ensures halted == if old(path) == [] then Some(Threw) else None
      ensures old(path) != [] ==>
        path == old(path) + [n] && pathElems == old(pathElems) + [e] && HangsIn(doc.nodes, n, h)
      ensures old(doc.nodes)[currentPage.footer].children == [] && old(doc.nodes)[n].parent != Some(currentPage.footer) ==>
        doc.nodes[currentPage.footer].children == []
    {
      if path == [] {
        halted := Some(Threw);
        return;
      }
      PushMoved(n, e, h);
    }

    /** `if (fn) state.currentPage.footer.appendChild(fn)` (line 637). */
    method CarryFootnote(fn: Option<NodeId>, ghost h: Home)
      requires Valid() && currentPage != null
      requires fn.Some? ==> fn.value < |doc.nodes| && fn.value != currentPage.footer
      requires path != [] ==> path == h.chain && Chained(doc.nodes, h.chain, h.flow, h.cut)
      requires fn.Some? ==> forall i | 0 <= i < |path| :: path[i] != fn.value
      modifies doc
      ensures Valid() && DataKept(old(doc.nodes), doc.nodes)
      ensures doc.nodes == if fn.Some? then AppendedChild(old(doc.nodes), currentPage.footer, fn.value) else old(doc.nodes)
      ensures ParentsKept(old(doc.nodes), doc.nodes, FootSet(fn))
      ensures path != [] ==> Chained(doc.nodes, h.chain, h.flow, h.cut)
    {
      assert this as object != doc as object;
      if fn.Some? {
        var box := currentPage.footer;
        assert RegionsIn(currentPage, doc.nodes);
        AppendKeeps(doc.nodes, box, fn.value, pages, path, pathElems);
        ghost var before := doc.nodes;
        doc.AppendChild(box, fn.value);
        if path != [] {
          ChainKeptBut(before, doc.nodes, h.chain, h.flow, h.cut, FootSet(fn));
        }
      }
    }

    /** `last(state.path).appendChild(nodeToMove); state.path.push(nodeToMove)`
        (lines 639-640): with no path, `last` is undefined and the call throws. */
    method PushMoved(n: NodeId, ghost e: Element, ghost h: Home)
      requires Valid() && path != [] && PathEntry(doc.nodes, n, e) && currentPage != null
      requires forall i | 0 <= i < |path| :: path[i] != n
      requires path == h.chain && Chained(doc.nodes, h.chain, h.flow, h.cut)
      modifies this, doc
      ensures pages == old(pages) && currentPage == old(currentPage) && budget == old(budget) && halted == old(halted)
      ensures Valid() && DataKept(old(doc.nodes), doc.nodes)
      ensures path == old(path) + [n] && pathElems == old(pathElems) + [e]
      ensures ParentsKept(old(doc.nodes), doc.nodes, {n}) && HangsIn(doc.nodes, n, h)
      ensures old(doc.nodes)[currentPage.footer].children == [] && old(doc.nodes)[n].parent != Some(currentPage.footer) ==>
        doc.nodes[currentPage.footer].children == []
    {
      assert this as object != doc as object;
      HangMoved(n, e, h);
      PathInPush(doc.nodes, path, pathElems, n, e);
      path, pathElems := path + [n], pathElems + [e];
    }

    /** `last(state.path).appendChild(nodeToMove)` (line 639), where the
        path is the chain of the home `h`. */
    method HangMoved(n: NodeId, ghost e: Element, ghost h: Home)
      requires Valid() && path != [] && PathEntry(doc.nodes, n, e) && currentPage != null
      requires forall i | 0 <= i < |path| :: path[i] != n
      requires path == h.chain && Chained(doc.nodes, h.chain, h.flow, h.cut)
      modifies doc
      ensures Valid() && DataKept(old(doc.nodes), doc.nodes) && PathEntry(doc.nodes, n, e)
      ensures ParentsKept(old(doc.nodes), doc.nodes, {n}) && HangsIn(doc.nodes, n, h)
      ensures old(doc.nodes)[currentPage.footer].children == [] && old(doc.nodes)[n].parent != Some(currentPage.footer) ==>
        doc.nodes[currentPage.footer].children == []
    {
      assert this as object != doc as object;
      var host := path[|path| - 1];
      assert PathEntry(doc.nodes, host, pathElems[|path| - 1]) && RegionsIn(currentPage, doc.nodes);
      AppendKeeps(doc.nodes, host, n, pages, path, pathElems);
      ghost var footer := currentPage.footer;
      assert footer < |doc.nodes| && doc.nodes[footer].data == Region;
      HangAppended(doc.nodes, host, n, h, footer);
      doc.AppendChild(host, n);
    }

    /** `addTextNode(node, …)` (lines 645-706), with the corrected cut of the
        splitter: the node goes under the innermost path entry; a node that
        fits is placed whole; otherwise it is cut at a word boundary, the
        remainder continues on a new page, and a pass with no boundary left
        cancels. `first` is the outcome of the first pass and `pieces` the text
        nodes the original text ended up in, `t` first; each later piece hangs
        in `homes`, the shells of the pages the call made, one page after the
        other. */
    method AddTextNode(t: NodeId)
      returns (done: bool, first: Round, tail: NodeId, ghost pieces: seq<NodeId>, ghost homes: seq<Home>)
      requires Valid() && halted.None? && currentPage != null
      requires t < |doc.nodes| && doc.nodes[t].data.Text?
      modifies this, doc
      ensures Valid() && DataKeptBut(old(doc.nodes), doc.nodes, t) && currentPage != null
      ensures pathElems == old(pathElems) && |path| == |old(path)| && budget <= old(budget)
      ensures old(path) == [] <==> halted == Some(Threw)
      ensures old(path) != [] ==>
        first == FirstRoundLossless(old(doc.nodes)[t].data.value,
                   TextOver(overflows, AppendedChild(old(doc.nodes), old(path)[|old(path)| - 1], t), t,
                            old(currentPage).flow, old(currentPage).footer))
      ensures old(path) != [] && !first.Split? ==>
        done == !first.Cancel? && pieces == [t] && homes == [] && pages == old(pages) && path == old(path)
        && doc.nodes == AppendedChild(old(doc.nodes), old(path)[|old(path)| - 1], t)
      ensures halted.None? ==> Covers(doc.nodes, |old(doc.nodes)|, t, old(doc.nodes)[t].data.value, pieces)
      ensures doc.nodes[t].data.Text?
      ensures first.Split? ==> doc.nodes[t].data == Text(first.placed)
      ensures halted.None? && first.Split? ==> |pieces| >= 2
      ensures halted.None? && !done ==> EndsUnplaced(doc.nodes, pieces)
      ensures ParentsKept(old(doc.nodes), doc.nodes, {t})
      ensures old(path) != [] ==> doc.nodes[t].parent == Some(old(path)[|old(path)| - 1])
      ensures halted.None? ==>
        old(pages) <= pages && Homed(doc.nodes, pieces, homes, pages, |old(pages)|, |old(doc.nodes)|)
        && Resting(doc.nodes, homes, pages, path) && Pieces(doc.nodes, pieces) && Trails(pieces, homes)
      ensures halted.None? ==> EndsWith(pieces, tail) && (homes == [] ==> path == old(path))
    {
      assert this as object != doc as object;
      var s := doc.nodes[t].data.value;
      ghost var before := doc.nodes;
      first := StartText(t, s);
      pieces, homes := [t], [];
      done, tail := false, t;
      if halted.Some? {
        return;
      }
      ghost var placed := doc.nodes;
      done, tail, pieces, homes := Continue(t, s, first);
      KeptButTrans(before, placed, doc.nodes, t, t);
      ParentsTrans(before, placed, doc.nodes, {t}, {});
      assert {t} + {} == {t};
      if halted.None? {
        HomedFloor(doc.nodes, pieces, homes, pages, |old(pages)|, |before|, |placed|);
      }
    }

    /** The first pass of `addTextNode`: `last(state.path).appendChild(node)`,
        then either the node fits (lines 703-705) or the probe loop runs to its
        outcome. The probes only change the node's value, which the oracle
        `TextOver` reads, so the node is left holding its whole text here. */
    method StartText(t: NodeId, s: string) returns (first: Round)
      requires Valid() && halted.None? && currentPage != null
      requires t < |doc.nodes| && doc.nodes[t].data == Text(s)
      modifies this, doc
      ensures path == old(path) && pathElems == old(pathElems) && pages == old(pages) && currentPage == old(currentPage)
      ensures budget == old(budget) && trace == old(trace) && log == old(log)
      ensures Valid() && DataKept(old(doc.nodes), doc.nodes)
      ensures halted == if old(path) == [] then Some(Threw) else None
      ensures old(path) == [] ==> first == Fits
      ensures old(path) != [] ==> doc.nodes == AppendedChild(old(doc.nodes), old(path)[|old(path)| - 1], t)
      ensures old(path) == [] ==> doc.nodes == old(doc.nodes)
      ensures ParentsKept(old(doc.nodes), doc.nodes, {t})
      ensures old(path) != [] ==> doc.nodes[t].parent == Some(old(path)[|old(path)| - 1])
      ensures old(path) != [] ==>
        first == FirstRoundLossless(s, TextOver(overflows, doc.nodes, t, currentPage.flow, currentPage.footer))
      ensures first.Split? ==> first.placed + first.remainder == s
      ensures first.Finished? ==> first.value == s
      ensures first.Cancel? ==> !IsBlank(s)
    {
      assert this as object != doc as object;
      match Last(path)
      case None =>
        halted := Some(Threw);
        first := Fits;
      case Some(host) =>
        assert PathEntry(doc.nodes, host, pathElems[|path| - 1]);
        AppendKeeps(doc.nodes, host, t, pages, path, pathElems);
        doc.AppendChild(host, t);
        first := FirstPass(s, TextOver(overflows, doc.nodes, t, currentPage.flow, currentPage.footer));
    }

    /** The rest of `step` once a pass over the text node `cur`, holding
        `text`, ended in `r` (lines 665-700): a split goes on as `SplitOn`
        says; any other outcome ends the run over this text. */
    method Continue(cur: NodeId, text: string, r: Round)
      returns (done: bool, tail: NodeId, ghost pieces: seq<NodeId>, ghost homes: seq<Home>)
      requires Valid() && halted.None? && currentPage != null && path != []
      requires cur < |doc.nodes| && doc.nodes[cur].data == Text(text)
      requires r.Split? ==> r.placed + r.remainder == text
      requires r.Cancel? ==> !IsBlank(text)
      modifies this, doc
      ensures Valid() && DataKeptBut(old(doc.nodes), doc.nodes, cur) && currentPage != null
      ensures pathElems == old(pathElems) && |path| == |old(path)| && budget <= old(budget)
      ensures halted == None || halted == Some(OutOfPages)
      ensures !r.Split? ==>
        done == !r.Cancel? && pieces == [cur] && homes == [] && doc.nodes == old(doc.nodes) && pages == old(pages)
        && path == old(path) && currentPage == old(currentPage)
      ensures halted.None? ==> Covers(doc.nodes, |old(doc.nodes)|, cur, text, pieces)
      ensures r.Split? ==> doc.nodes[cur].data == Text(r.placed)
      ensures halted.None? && r.Split? ==> |pieces| >= 2
      ensures halted.None? && !done ==> EndsUnplaced(doc.nodes, pieces)
      ensures ParentsKept(old(doc.nodes), doc.nodes, {})
      ensures halted.None? ==>
        old(pages) <= pages && Homed(doc.nodes, pieces, homes, pages, |old(pages)|, |old(doc.nodes)|)
        && Resting(doc.nodes, homes, pages, path)
        && (homes == [] ==> doc.nodes == old(doc.nodes) && pages == old(pages) && path == old(path))
      ensures halted.None? ==> Pieces(doc.nodes, pieces) && Trails(pieces, homes) && EndsWith(pieces, tail)
      decreases budget, 1
    {
      assert this as object != doc as object;
      if !r.Split? {
        done, tail, pieces, homes := !r.Cancel?, cur, [cur], [];
        CoversOne(doc.nodes, |old(doc.nodes)|, cur, text);
        HomedOne(doc.nodes, cur, pages, |doc.nodes|);
        return;
      }
      done, tail, pieces, homes := SplitOn(cur, text, r.placed, r.remainder, r.dist);
    }

    /** Lines 678-700 after a pass over `cur` split its `text` into `placed`
        and `remainder` at search distance `dist`: the node keeps the placed
        prefix, a new page is made, a new node holding the remainder goes
        under the innermost path entry there, and the next pass runs over it. */
    method SplitOn(cur: NodeId, text: string, placed: string, remainder: string, dist: real)
      returns (done: bool, tail: NodeId, ghost pieces: seq<NodeId>, ghost homes: seq<Home>)
      requires Valid() && halted.None? && currentPage != null && path != []
      requires cur < |doc.nodes| && doc.nodes[cur].data == Text(text) && placed + remainder == text
      modifies this, doc
      ensures Valid() && DataKeptBut(old(doc.nodes), doc.nodes, cur) && currentPage != null
      ensures pathElems == old(pathElems) && |path| == |old(path)| && budget <= old(budget)
      ensures halted == None || halted == Some(OutOfPages)
      ensures halted.None? ==> Covers(doc.nodes, |old(doc.nodes)|, cur, text, pieces)
      ensures doc.nodes[cur].data == Text(placed)
      ensures halted.None? ==> |pieces| >= 2
      ensures halted.None? && !done ==> EndsUnplaced(doc.nodes, pieces)
      ensures ParentsKept(old(doc.nodes), doc.nodes, {})
      ensures halted.None? ==>
        old(pages) <= pages && Homed(doc.nodes, pieces, homes, pages, |old(pages)|, |old(doc.nodes)|)
        && Resting(doc.nodes, homes, pages, path) && homes != []
      ensures halted.None? ==> Pieces(doc.nodes, pieces) && Trails(pieces, homes) && EndsWith(pieces, tail)
      decreases budget, 0
    {
      assert this as object != doc as object;
      done, tail, pieces, homes := false, cur, [cur], [];
      var rem, home := NextPiece(cur, placed, remainder);
      if halted.Some? {
        return;
      }
      ghost var split, mid, inner := doc.nodes, pages, path;
      assert Resting(split, [home], pages, path);
      var next := ResumePass(remainder, TextOver(overflows, doc.nodes, rem, currentPage.flow, currentPage.footer), dist);
      ghost var more, later;
      done, tail, more, later := Continue(rem, remainder, next);
      pieces, homes := [cur] + more, [home] + later;
      KeptButTrans(old(doc.nodes), split, doc.nodes, cur, rem);
      assert doc.nodes[cur].data == split[cur].data;
      if halted.None? {
        SplitJoined(old(doc.nodes), split, doc.nodes, old(pages), mid, pages, inner, path,
                    cur, placed, remainder, text, more, home, later, done);
        TrailsCons(cur, more, home, later, tail);
      }
    }

    /** The new text node for the remainder of a split, created and put under
        the innermost path entry (lines 686-687), which is the innermost node
        of the home `h` on the current page. */
    method PlaceRemainder(remainder: string, ghost h: Home) returns (rem: NodeId)
      requires Valid() && currentPage != null && path != [] && h.chain == path
      requires Chained(doc.nodes, h.chain, h.flow, h.cut) && doc.nodes[currentPage.footer].children == []
      modifies doc
      ensures Valid() && DataKept(old(doc.nodes), doc.nodes) && ParentsKept(old(doc.nodes), doc.nodes, {})
      ensures |old(doc.nodes)| <= rem < |doc.nodes| && doc.nodes[rem].data == Text(remainder)
      ensures HangsIn(doc.nodes, rem, h) && doc.nodes[currentPage.footer].children == []
      ensures h.chain[|h.chain| - 1] < rem
    {
      assert this as object != doc as object;
      var host := path[|path| - 1];
      var footer := currentPage.footer;
      assert PathEntry(doc.nodes, host, pathElems[|path| - 1]) && RegionsIn(currentPage, doc.nodes);
      ghost var made := doc.nodes;
      rem := PlaceNew(host, Text(remainder));
      RemainderHome(made, doc.nodes, h, rem, footer);
    }

    /** A new node holding `d`, appended to `host`. */
    method PlaceNew(host: NodeId, d: NodeData) returns (id: NodeId)
      requires Valid() && host < |doc.nodes|
      modifies doc
      ensures Valid() && DataKept(old(doc.nodes), doc.nodes)
      ensures id == |old(doc.nodes)| && |doc.nodes| == id + 1 && doc.nodes[id].data == d
      ensures doc.nodes[id].parent == Some(host) && ParentsKept(old(doc.nodes), doc.nodes, {})
      ensures forall i | 0 <= i < |old(doc.nodes)| && i != host :: doc.nodes[i] == old(doc.nodes)[i]
    {
      assert this as object != doc as object;
      ghost var made := doc.nodes;
      id := doc.Create(d);
      KeptGrow(made, [Fresh(d)]);
      KeptPagesIn(made, doc.nodes, pages);
      KeptPathIn(made, doc.nodes, path, pathElems);
      ghost var created := doc.nodes;
      AppendKeeps(doc.nodes, host, id, pages, path, pathElems);
      doc.AppendChild(host, id);
      KeptTrans(made, created, doc.nodes);
    }

    /** Lines 678-687 after a split: the node keeps the placed prefix, a new
        page is made, and a new text node holding the remainder goes under the
        innermost path entry, which is now on that page; `home` says where. */
    method NextPiece(cur: NodeId, placed: string, remainder: string) returns (rem: NodeId, ghost home: Home)
      requires Valid() && halted.None? && currentPage != null && path != []
      requires cur < |doc.nodes| && doc.nodes[cur].data.Text?
      modifies this, doc
      ensures Valid() && DataKeptBut(old(doc.nodes), doc.nodes, cur) && currentPage != null
      ensures ParentsKept(old(doc.nodes), doc.nodes, {})
      ensures pathElems == old(pathElems) && |path| == |old(path)| && budget <= old(budget)
      ensures halted == None || halted == Some(OutOfPages)
      ensures cur < |doc.nodes| && doc.nodes[cur].data == Text(placed)
      ensures halted.None? ==>
        budget < old(budget) && pages == old(pages) + [currentPage]
        && |old(doc.nodes)| <= rem < |doc.nodes| && doc.nodes[rem].data == Text(remainder)
        && HangsIn(doc.nodes, rem, home) && home.flow == currentPage.flow && home.chain == path
        && doc.nodes[currentPage.footer].children == [] && home.chain[|home.chain| - 1] < rem
        && forall i | 0 <= i < |home.chain| :: |old(doc.nodes)| <= home.chain[i]
    {
      assert this as object != doc as object;
      TextSetKeeps(doc.nodes, cur, placed, pages, path, pathElems);
      doc.SetText(cur, placed);
      ghost var valued := doc.nodes;
      rem, home := RemainderOnNextPage(remainder);
      KeptBut(valued, doc.nodes, cur);
      KeptButTrans(old(doc.nodes), valued, doc.nodes, cur, cur);
    }

    /** Lines 681-687: a new page, and a new text node holding `remainder`
        under the innermost path entry there. */
    method RemainderOnNextPage(remainder: string) returns (rem: NodeId, ghost home: Home)
      requires Valid() && halted.None? && currentPage != null && path != []
      modifies this, doc
      ensures Valid() && DataKept(old(doc.nodes), doc.nodes) && ParentsKept(old(doc.nodes), doc.nodes, {})
      ensures currentPage != null && pathElems == old(pathElems) && |path| == |old(path)| && budget <= old(budget)
      ensures halted == None || halted == Some(OutOfPages)
      ensures halted.None? ==>
        budget < old(budget) && pages == old(pages) + [currentPage]
        && |old(doc.nodes)| <= rem < |doc.nodes| && doc.nodes[rem].data == Text(remainder)
        && HangsIn(doc.nodes, rem, home) && home.flow == currentPage.flow && home.chain == path
        && doc.nodes[currentPage.footer].children == [] && home.chain[|home.chain| - 1] < rem
        && forall i | 0 <= i < |home.chain| :: |old(doc.nodes)| <= home.chain[i]
    {
      rem := 0;
      assert this as object != doc as object;
      home := OpenNextPage();
      if halted.Some? {
        return;
      }
      ghost var made := doc.nodes;
      rem := PlaceRemainder(remainder, home);
      KeptTrans(old(doc.nodes), made, doc.nodes);
      ParentsKeptTrans(old(doc.nodes), made, doc.nodes);
    }

    /** `makeNextPage()` with a path to clone: when nothing halted, the new
        page is the last one, its footer is empty, and the path is its chain
        of new shells, `home`. */
    method OpenNextPage() returns (ghost home: Home)
      requires Valid() && halted.None? && currentPage != null && path != []
      modifies this, doc
      ensures Valid() && DataKept(old(doc.nodes), doc.nodes) && ParentsKept(old(doc.nodes), doc.nodes, {})
      ensures currentPage != null && pathElems == old(pathElems) && |path| == |old(path)| && budget <= old(budget)
      ensures halted == None || halted == Some(OutOfPages)
      ensures halted.None? ==>
        budget < old(budget) && pages == old(pages) + [currentPage]
        && Chained(doc.nodes, home.chain, home.flow, home.cut) && home.flow == currentPage.flow && home.chain == path
        && doc.nodes[currentPage.footer].children == []
        && forall i | 0 <= i < |home.chain| :: |old(doc.nodes)| <= home.chain[i]
    {
      home := Home(0, [], None);
      ghost var o, a, m, sh, pg := MakeNextPage();
      assert sh != [];
      if halted.Some? {
        return;
      }
      OpenedKeeps(old(doc.nodes), old(path), a, sh, pg, o, doc.nodes);
      home := Home(pg.flow, sh, CutAt(o, sh));
    }

    /** A new node holding `d`, in no parent yet. */
    method NewNode(d: NodeData) returns (id: NodeId)
      requires Valid()
      modifies doc
      ensures Valid() && doc.nodes == old(doc.nodes) + [Fresh(d)] && id == |old(doc.nodes)|
    {
      assert this as object != doc as object;
      ghost var before := doc.nodes;
      id := doc.Create(d);
      KeptGrow(before, [Fresh(d)]);
      KeptPagesIn(before, doc.nodes, pages);
      KeptPathIn(before, doc.nodes, path, pathElems);
    }

    /** The start of `addElementNode` (lines 713-717): a node for `e` goes into
        the flow box of the current page when the path is empty, and under
        the innermost path entry otherwise. The children are not copied: the
        walk adds them one by one (`node.innerHTML = ''`, line 723). */
    method PlaceElement(e: Element) returns (node: NodeId)
      requires Valid() && currentPage != null
      modifies doc
      ensures Valid() && DataKept(old(doc.nodes), doc.nodes)
      ensures node == |old(doc.nodes)| && |doc.nodes| == node + 1 && doc.nodes[node].data == Elem(e)
      ensures doc.nodes[node].parent == Some(if path == [] then currentPage.flow else path[|path| - 1])
    {
      assert this as object != doc as object;
      var host;
      if path == [] {
        host := currentPage.flow;
        assert RegionsIn(currentPage, doc.nodes);
      } else {
        host := path[|path| - 1];
        assert PathEntry(doc.nodes, host, pathElems[|path| - 1]);
      }
      node := PlaceNew(host, Elem(e));
    }

    /** `addElementNode(node, …)` (lines 710-768) for the element `c`: its
        node is placed and pushed on the path, and its children are added in
        order. When nothing halted, the node's entry is still the innermost
        one, and the text nodes made for `c`, read in the order listed, spell
        its text. */
    method AddElementNode(c: Content) returns (ghost texts: seq<NodeId>)
      requires Valid() && halted.None? && currentPage != null && c.ElementNode?
      modifies this, doc
      ensures Valid() && DataKept(old(doc.nodes), doc.nodes) && currentPage != null && budget <= old(budget)
      ensures halted.None? ==>
        |path| == |old(path)| + 1 && pathElems == old(pathElems) + [c.element]
        && Spells(doc.nodes, |old(doc.nodes)|, texts, KidsText(c, |c.children|))
      decreases c, Width(c)
    {
      assert this as object != doc as object;
      var node := PlaceElement(c.element);
      PathInPush(doc.nodes, path, pathElems, node, c.element);
      path, pathElems := path + [node], pathElems + [c.element];
      ghost var placed := doc.nodes;
      texts := AddChildren(c);
      KeptTrans(old(doc.nodes), placed, doc.nodes);
      if halted.None? {
        SpellsFloor(doc.nodes, |old(doc.nodes)|, |placed|, texts, KidsText(c, |c.children|));
      }
    }

    /** `addNextChild` (lines 726-764) over the children of `c`, in order,
        whose entry is the innermost one of the path. */
    method AddChildren(c: Content) returns (ghost texts: seq<NodeId>)
      requires Valid() && halted.None? && currentPage != null && c.ElementNode?
      requires path != [] && pathElems[|pathElems| - 1] == c.element
      modifies this, doc
      ensures Valid() && DataKept(old(doc.nodes), doc.nodes) && currentPage != null && budget <= old(budget)
      ensures halted.None? ==>
        |path| == |old(path)| && pathElems == old(pathElems)
        && Spells(doc.nodes, |old(doc.nodes)|, texts, KidsText(c, |c.children|))
      decreases c, 1
    {
      texts := [];
      var i := 0;
      while i < |c.children|
        invariant i <= |c.children|
        invariant Valid() && DataKept(old(doc.nodes), doc.nodes) && currentPage != null && budget <= old(budget)
        invariant halted.None? && |path| == |old(path)| && pathElems == old(pathElems)
        invariant Spells(doc.nodes, |old(doc.nodes)|, texts, KidsText(c, i))
      {
        texts := AddNextChild(c, i, old(doc.nodes), texts);
        if halted.Some? {
          return;
        }
        i := i + 1;
      }
    }

    /** The turn of `addNextChild` for child `i` of `c`: the texts made so
        far, which spelled the first `i` children, now spell `i + 1`. */
    method AddNextChild(c: Content, i: nat, ghost start: seq<DomNode>, ghost texts: seq<NodeId>)
      returns (ghost out: seq<NodeId>)
      requires Valid() && halted.None? && currentPage != null && c.ElementNode? && i < |c.children|
      requires path != [] && pathElems[|pathElems| - 1] == c.element
      requires DataKept(start, doc.nodes) && Spells(doc.nodes, |start|, texts, KidsText(c, i))
      modifies this, doc
      ensures Valid() && DataKept(start, doc.nodes) && currentPage != null && budget <= old(budget)
      ensures halted.None? ==>
        |path| == |old(path)| && pathElems == old(pathElems)
        && Spells(doc.nodes, |start|, out, KidsText(c, i + 1))
      decreases c, 0
    {
      out := texts;
      var kid := c.children[i];
      ghost var more := AddChild(kid, c.element);
      KeptTrans(start, old(doc.nodes), doc.nodes);
      if halted.None? {
        SpellsAppend(old(doc.nodes), doc.nodes, |start|, texts, KidsText(c, i), more, ChildText(kid));
        out := texts + more;
      }
    }

    /** One turn of `addNextChild` (lines 735-763) for the child `k` of the
        element `e`, whose entry is the innermost one of the path. */
    method AddChild(k: Content, e: Element) returns (ghost texts: seq<NodeId>)
      requires Valid() && halted.None? && currentPage != null
      requires path != [] && pathElems[|pathElems| - 1] == e
      modifies this, doc
      ensures Valid() && DataKept(old(doc.nodes), doc.nodes) && currentPage != null && budget <= old(budget)
      ensures k.OtherNode? ==> halted == Some(Stalled(k.nodeType)) && log == old(log) + [UnknownNodeType(k.nodeType)]
      ensures k.ElementNode? && k.element.tag == "SCRIPT" ==>
        texts == [] && doc.nodes == old(doc.nodes) && pages == old(pages) && currentPage == old(currentPage)
        && path == old(path) && trace == old(trace) && log == old(log) && halted == old(halted)
      ensures halted.None? ==>
        |path| == |old(path)| && pathElems == old(pathElems)
        && Spells(doc.nodes, |old(doc.nodes)|, texts, ChildText(k))
      decreases k, Width(k) + 3
    {
      assert this as object != doc as object;
      texts := [];
      match k
      case TextNode(v) =>
        ghost var homes, at;
        texts, homes, at := AddTextChild(v);
      case ElementNode(el, kids) =>
        if el.tag != "SCRIPT" {
          ghost var retries, runs, ruled, ruledView, walked, closed;
          texts, retries, runs, ruled, ruledView, walked, closed := AddElementChild(k);
        }
      case OtherNode(t) =>
        log := log + [UnknownNodeType(t)];
        halted := Some(Stalled(t));
    }

    /** The element case of `addNextChild` (lines 750-758): the `beforeAdd`
        rules run, the element is added, its path entry is popped and the
        `afterAdd` rules run on the popped node, which may be a continuation
        shell rather than the element itself. `retries` and `runs` are what
        `BeforeAddRules` reports and `ruled` the trace once it is done,
        `walked` the trace once the element is added and `closed` the element
        of the popped node. */
    method AddElementChild(k: Content)
      returns (ghost texts: seq<NodeId>, ghost retries: seq<bool>, ghost runs: seq<HookRun>,
               ghost ruled: seq<HookCall>, ghost ruledView: View, ghost walked: seq<HookCall>, ghost closed: Element)
      requires Valid() && halted.None? && currentPage != null && k.ElementNode?
      modifies this, doc
      ensures Valid() && DataKept(old(doc.nodes), doc.nodes) && currentPage != null && budget <= old(budget)
      ensures halted.None? ==>
        |path| == |old(path)| && pathElems == old(pathElems)
        && Spells(doc.nodes, |old(doc.nodes)|, texts, KidsText(k, |k.children|))
      ensures halted.None? ==>
        |retries| == |Selected(rules, BeforeAdd, Matcher(matches, k.element))| && RetriedOnOverflow(retries, runs, overflows)
        && Turns(runs, Selected(rules, BeforeAdd, Matcher(matches, k.element)), rules, old(Here()), ruledView)
        && old(trace) <= ruled
        && InPhase(ruled, BeforeAdd)
           == InPhase(old(trace), BeforeAdd) + Twice(Selected(rules, BeforeAdd, Matcher(matches, k.element)), retries, k.element)
      ensures halted.None? ==>
        (closed == k.element || closed == Continuation(k.element))
        && trace == walked + Calls(Selected(rules, AfterAdd, Matcher(matches, closed)), AfterAdd, OnElement(closed))
      decreases k, Width(k) + 2
    {
      assert this as object != doc as object;
      texts, walked, closed := [], [], k.element;
      retries, runs := BeforeAddRules(k.element);
      ruled, ruledView := trace, Here();
      if halted.Some? {
        return;
      }
      ghost var before := doc.nodes;
      texts, walked, closed := AddAndClose(k);
      KeptTrans(old(doc.nodes), before, doc.nodes);
      if halted.None? {
        SpellsFloor(doc.nodes, |old(doc.nodes)|, |before|, texts, KidsText(k, |k.children|));
      }
    }

    /** Lines 753-757: the element `k` is added, its path entry is popped and
        the `afterAdd` rules run on the popped node, whose element `closed` is
        `k`'s or its continuation's; `walked` is the trace once `k` is added,
        after its children are added. */
    method AddAndClose(k: Content) returns (ghost texts: seq<NodeId>, ghost walked: seq<HookCall>, ghost closed: Element)
      requires Valid() && halted.None? && currentPage != null && k.ElementNode?
      modifies this, doc
      ensures Valid() && DataKept(old(doc.nodes), doc.nodes) && currentPage != null && budget <= old(budget)
      ensures halted.None? ==>
        |path| == |old(path)| && pathElems == old(pathElems)
        && Spells(doc.nodes, |old(doc.nodes)|, texts, KidsText(k, |k.children|))
      ensures halted.None? ==>
        (closed == k.element || closed == Continuation(k.element))
        && trace == walked + Calls(Selected(rules, AfterAdd, Matcher(matches, closed)), AfterAdd, OnElement(closed))
      decreases k, Width(k) + 1
    {
      assert this as object != doc as object;
      closed := k.element;
      texts := AddElementNode(k);
      walked := trace;
      if halted.Some? {
        return;
      }
      var added := path[|path| - 1];
      assert PathEntry(doc.nodes, added, pathElems[|path| - 1]);
      assert pathElems[..|pathElems| - 1] == old(pathElems);
      PathInPrefix(doc.nodes, path, pathElems);
      path, pathElems := path[..|path| - 1], pathElems[..|pathElems| - 1];
      var popped := doc.nodes[added].data.element;
      closed := popped;
      AfterAddRules(popped);
    }

    /** The text case of `addNextChild` (lines 736-742), with the corrected
        `cancel`: a text node for `v` goes under the innermost path entry, and
        each time a pass cancels, that entry moves to a new page and the piece
        the pass gave up is added there again. When nothing halted, `texts`
        spell `v`, the first hangs under the entry the walk stood at, and each
        later one lies on a new page after the page of the one before. */
    method AddTextChild(v: string) returns (ghost texts: seq<NodeId>, ghost homes: seq<Home>, ghost at: seq<nat>)
      requires Valid() && halted.None? && currentPage != null && path != []
      modifies this, doc
      ensures Valid() && DataKept(old(doc.nodes), doc.nodes) && currentPage != null && budget <= old(budget)
      ensures halted.None? ==>
        |path| == |old(path)| && pathElems == old(pathElems) && Spells(doc.nodes, |old(doc.nodes)|, texts, v)
        && texts != [] && texts[0] < |doc.nodes| && doc.nodes[texts[0]].parent == Some(old(path)[|old(path)| - 1])
        && old(pages) <= pages && Laid(doc.nodes, texts, homes, at, pages, |old(pages)|)
    {
      assert this as object != doc as object;
      ghost var before, m0 := doc.nodes, path[|path| - 1];
      var t := NewNode(Text(v));
      ghost var created := doc.nodes;
      KeptGrow(before, [Fresh(Text(v))]);
      texts, homes, at := PlaceText(t);
      BelowPastEnd(before, created, doc.nodes, t);
      if halted.None? {
        PlacedSpells(doc.nodes, pages, t, m0, |before|, |created|, v, texts, homes, at, |old(pages)|);
      }
    }

    /** `addTextNode` on the newest node `t` followed, when its passes
        cancel, by the corrected `cancel`: the text of `t` ends up in
        `texts`, the first of them `t` itself under the entry the walk
        stood at, the others on the pages made meanwhile, in page order. */
    method PlaceText(t: NodeId) returns (ghost texts: seq<NodeId>, ghost homes: seq<Home>, ghost at: seq<nat>)
      requires Valid() && halted.None? && currentPage != null && path != []
      requires t == |doc.nodes| - 1 && doc.nodes[t].data.Text?
      modifies this, doc
      ensures Valid() && DataKeptBelow(old(doc.nodes), doc.nodes, t) && currentPage != null && budget <= old(budget)
      ensures halted.None? ==>
        |path| == |old(path)| && pathElems == old(pathElems)
        && old(pages) <= pages
        && Placed(doc.nodes, pages, t, old(path)[|old(path)| - 1], |old(doc.nodes)|, old(doc.nodes)[t].data.value,
                  texts, homes, at, |old(pages)|)
    {
      assert this as object != doc as object;
      ghost var start, floor, base, v := path, |doc.nodes|, |pages|, doc.nodes[t].data.value;
      ghost var before, made := doc.nodes, pages;
      var done, tail;
      done, tail, texts, homes := OpeningPass(t);
      ButAbove(before, doc.nodes, t);
      at := Consecutive(base, |homes|);
      if halted.Some? {
        return;
      }
      if done {
        PlacedAtOnce(doc.nodes, pages, path, t, start, floor, v, texts, homes, base, tail);
      } else {
        ghost var passed := pages;
        texts, homes, at := RetryAfterCancel(t, tail, start, floor, v, texts, homes, base, before);
        if halted.None? {
          PrefixTrans(made, passed, pages);
        }
      }
    }

    /** What follows a first pass over `t` that cancelled: the retries, from
        the pages `base` on, until a pass is done. */
    method RetryAfterCancel(ghost t: NodeId, tail: NodeId, ghost start: seq<NodeId>, ghost floor: nat, ghost v: string,
                            ghost pieces: seq<NodeId>, ghost homes: seq<Home>, ghost base: nat,
                            ghost before: seq<DomNode>)
      returns (ghost texts: seq<NodeId>, ghost homes2: seq<Home>, ghost at: seq<nat>)
      requires Valid() && halted.None? && currentPage != null
      requires AfterPass(doc.nodes, pages, path, t, start, floor, v, pieces, homes, base, tail)
      requires DataKeptBut(before, doc.nodes, t) && t < |before|
      modifies this, doc
      ensures Valid() && DataKeptBelow(old(doc.nodes), doc.nodes, t) && currentPage != null && budget <= old(budget)
      ensures DataKeptBelow(before, doc.nodes, t)
      ensures halted.None? ==>
        |path| == |old(path)| && pathElems == old(pathElems) && old(pages) <= pages
        && Placed(doc.nodes, pages, t, start[|start| - 1], floor, v, texts, homes2, at, base)
    {
      ghost var m0, entry := start[|start| - 1], doc.nodes;
      StartRetrying(doc.nodes, pages, path, t, m0, floor, v, pieces, homes, base);
      texts, homes2, at := RetryText(t, m0, floor, v, pieces, homes, Consecutive(base, |homes|), base, tail);
      ButBelow(before, entry, doc.nodes, t);
      if halted.None? {
        PlacedAfterRetries(doc.nodes, pages, path, t, m0, floor, v, texts, homes2, at, base);
      }
    }

    /** The first `addTextNode` pass over `t`, as `PlaceText` relies on it:
        the text of `t` is spread over `texts`, the pieces after the first
        homed on the pages the pass made. */
    method OpeningPass(t: NodeId) returns (done: bool, tail: NodeId, ghost texts: seq<NodeId>, ghost homes: seq<Home>)
      requires Valid() && halted.None? && currentPage != null && path != []
      requires t < |doc.nodes| && doc.nodes[t].data.Text?
      modifies this, doc
      ensures Valid() && DataKeptBut(old(doc.nodes), doc.nodes, t) && currentPage != null && budget <= old(budget)
      ensures |path| == |old(path)| && pathElems == old(pathElems)
      ensures halted.None? ==>
        old(pages) <= pages
        && AfterPass(doc.nodes, pages, path, t, old(path), |old(doc.nodes)|, old(doc.nodes)[t].data.value, texts,
                     homes, |old(pages)|, tail)
    {
      var first;
      done, first, tail, texts, homes := AddTextNode(t);
    }

    /** `cancel` as written (lines 737-740), after a pass over `t` that split
        its text and then cancelled: `node`, the element `t` was added to,
        moves to a new page, and `t`, which holds only the first piece of the
        text, is added again under it. The piece the cancelled pass gave up
        stays where it was. When nothing halted, the first piece `t` hangs
        from the new page while the second piece still hangs from page
        `from`, an earlier one: the text no longer runs in page order. */
    method CancelAsWritten(node: NodeId, t: NodeId, ghost start: seq<NodeId>, ghost floor: nat, ghost v: string,
                           ghost pieces: seq<NodeId>, ghost homes: seq<Home>, ghost from: nat, ghost tail: NodeId)
      returns (ghost mh: Home)
      requires Valid() && halted.None? && currentPage != null
      requires AfterPass(doc.nodes, pages, path, t, start, floor, v, pieces, homes, from, tail) && homes != []
      requires node == start[|start| - 1] && node < floor && PathEntry(doc.nodes, node, pathElems[|pathElems| - 1])
      modifies this, doc
      ensures Valid() && currentPage != null
      ensures halted.None? ==>
        |old(pages)| < |pages| && from < |old(pages)| && t < |doc.nodes| && doc.nodes[t].parent == Some(node)
        && HangsIn(doc.nodes, node, mh) && mh.flow == pages[|old(pages)|].flow
        && HangsIn(doc.nodes, pieces[1], homes[0]) && homes[0].flow == pages[from].flow
    {
      assert this as object != doc as object;
      ghost var b, pb, p1, h1 := doc.nodes, pages, pieces[1], homes[0];
      assert HangsIn(b, p1, h1) && h1.flow == pb[from].flow && from < |pb| && t < p1;
      assert forall i | 0 <= i < |h1.chain| :: t < h1.chain[i] && node < h1.chain[i];
      assert b[currentPage.footer].children == [];
      ghost var pg, fn;
      mh, pg, fn := MoveNodeToNextPage(node);
      if halted.Some? {
        return;
      }
      ghost var c, pc := doc.nodes, pages;
      assert Landed(c, node, mh, pc[|pb|], |b|) && fn.None?;
      MovedAlone(b, c, node);
      HangsKeptAbove(b, c, p1, h1, node);
      ReAddAsWritten(t, node, mh, p1, h1);
      if halted.None? {
        PrefixIndex(pc, pages, |pb|);
        PrefixIndex(pc, pages, from);
      }
    }

    /** The second half of `cancel` as written: `t` is added again under
        `node`, the innermost path entry, which hangs in `mh`; `p1`, another
        piece, keeps hanging in `h1`. */
    method ReAddAsWritten(t: NodeId, ghost node: NodeId, ghost mh: Home, ghost p1: NodeId, ghost h1: Home)
      requires Valid() && halted.None? && currentPage != null && path == mh.chain + [node]
      requires t < |doc.nodes| && doc.nodes[t].data.Text? && t != node && t < p1
      requires HangsIn(doc.nodes, node, mh) && HangsIn(doc.nodes, p1, h1)
      requires forall i | 0 <= i < |mh.chain| :: t < mh.chain[i]
      requires forall i | 0 <= i < |h1.chain| :: t < h1.chain[i]
      modifies this, doc
      ensures Valid() && currentPage != null
      ensures halted.None? ==>
        old(pages) <= pages && t < |doc.nodes| && doc.nodes[t].parent == Some(node) && HangsIn(doc.nodes, node, mh)
        && HangsIn(doc.nodes, p1, h1)
    {
      assert this as object != doc as object;
      ghost var c := doc.nodes;
      var done, first, rest;
      ghost var more, h2;
      done, first, rest, more, h2 := AddTextNode(t);
      if halted.None? {
        HangsKeptAbove(c, doc.nodes, p1, h1, t);
        HangsKeptAbove(c, doc.nodes, node, mh, t);
      }
    }

    /** The corrected `cancel` (lines 737-740), as often as the passes over
        the text of `t` cancel: the innermost path entry moves to a new page
        and `tail`, the piece the last pass gave up, is added again under it.
        Before, `out` held `v`, laid on pages from `from` on; after, `out2`
        does, with the same first piece under the same parent. */
    method RetryText(ghost t: NodeId, ghost m0: NodeId, ghost floor: nat, ghost v: string, ghost out: seq<NodeId>,
                     ghost homes: seq<Home>, ghost at: seq<nat>, ghost from: nat, tail: NodeId)
      returns (ghost out2: seq<NodeId>, ghost homes2: seq<Home>, ghost at2: seq<nat>)
      requires Valid() && halted.None? && currentPage != null
      requires Retrying(doc.nodes, pages, path, t, m0, floor, v, out, homes, at, from) && EndsWith(out, tail)
      modifies this, doc
      ensures Valid() && DataKeptBelow(old(doc.nodes), doc.nodes, t) && currentPage != null && budget <= old(budget)
      ensures halted.None? ==>
        |path| == |old(path)| && pathElems == old(pathElems) && old(pages) <= pages
        && Retrying(doc.nodes, pages, path, t, m0, floor, v, out2, homes2, at2, from)
    {
      out2, homes2, at2 := out, homes, at;
      var done, last := false, tail;
      while !done
        invariant Valid() && DataKeptBelow(old(doc.nodes), doc.nodes, t) && currentPage != null && budget <= old(budget)
        invariant halted.None? && |path| == |old(path)| && pathElems == old(pathElems) && old(pages) <= pages
        invariant Retrying(doc.nodes, pages, path, t, m0, floor, v, out2, homes2, at2, from) && EndsWith(out2, last)
        decreases budget
      {
        ghost var before, pagesBefore, given := doc.nodes, pages, last;
        TailAfter(doc.nodes, floor, t, v, out2, last);
        done, last, out2, homes2, at2 := RetryPass(last, t, m0, floor, v, out2, homes2, at2, from);
        BelowTrans(old(doc.nodes), before, doc.nodes, t, given);
        if halted.Some? {
          return;
        }
        PrefixTrans(old(pages), pagesBefore, pages);
      }
    }

    /** One corrected turn of `cancel`: `m`, the innermost path entry, moves
        to a new page (`moveNodeToNextPage`) and `tail`, the piece the last
        pass gave up, is added again under it. */
    method RetryPass(tail: NodeId, ghost t: NodeId, ghost m0: NodeId, ghost floor: nat, ghost v: string,
                     ghost out: seq<NodeId>, ghost homes: seq<Home>, ghost at: seq<nat>, ghost from: nat)
      returns (done: bool, tail2: NodeId, ghost out2: seq<NodeId>, ghost homes2: seq<Home>, ghost at2: seq<nat>)
      requires Valid() && halted.None? && currentPage != null
      requires Retrying(doc.nodes, pages, path, t, m0, floor, v, out, homes, at, from) && EndsWith(out, tail)
      modifies this, doc
      ensures Valid() && DataKeptBut(old(doc.nodes), doc.nodes, tail) && currentPage != null && budget <= old(budget)
      ensures halted.None? ==>
        budget < old(budget) && |path| == |old(path)| && pathElems == old(pathElems) && old(pages) <= pages
        && Retrying(doc.nodes, pages, path, t, m0, floor, v, out2, homes2, at2, from) && EndsWith(out2, tail2)
    {
      assert this as object != doc as object;
      var m := path[|path| - 1];
      assert PathEntry(doc.nodes, m, pathElems[|path| - 1]);
      ghost var b, pb, pathB := doc.nodes, pages, path;
      assert homes != [] ==> b[currentPage.footer].children == [];
      ghost var mh, pg, fn := MoveNodeToNextPage(m);
      done, tail2, out2, homes2, at2 := false, tail, out, homes, at;
      if halted.Some? {
        KeptBut(b, doc.nodes, tail);
        return;
      }
      assert pages[|pb|] == pg;
      assert Landed(doc.nodes, pathB[|pathB| - 1], mh, pages[|pb|], |b|);
      done, tail2, out2, homes2, at2 := AddAfterMove(tail, b, pb, pathB, mh, fn, t, m0, floor, v, out, homes, at, from);
    }

    /** The second half of a corrected turn: `m`, the innermost entry of
        `pathB`, has just moved from `b` to the new last page under the
        shells of `mh`, carrying the footnote `fn`, and `tail` is added
        again under it. */
    method AddAfterMove(tail: NodeId, ghost b: seq<DomNode>, ghost pb: seq<Page>, ghost pathB: seq<NodeId>,
                        ghost mh: Home, ghost fn: Option<NodeId>, ghost t: NodeId, ghost m0: NodeId,
                        ghost floor: nat, ghost v: string, ghost out: seq<NodeId>, ghost homes: seq<Home>,
                        ghost at: seq<nat>, ghost from: nat)
      returns (done: bool, tail2: NodeId, ghost out2: seq<NodeId>, ghost homes2: seq<Home>, ghost at2: seq<nat>)
      requires Valid() && halted.None? && currentPage != null
      requires Retrying(b, pb, pathB, t, m0, floor, v, out, homes, at, from) && EndsWith(out, tail)
      requires pathB[|pathB| - 1] < |b| && b[pathB[|pathB| - 1]].data.Elem?
      requires DataKept(b, doc.nodes) && ParentsKept(b, doc.nodes, Moved(pathB[|pathB| - 1], fn))
      requires homes != [] ==> fn.None?
      requires pb <= pages && |pages| == |pb| + 1 && path == mh.chain + [pathB[|pathB| - 1]]
      requires Landed(doc.nodes, pathB[|pathB| - 1], mh, pages[|pb|], |b|)
      requires fn.None? ==> doc.nodes[pages[|pb|].footer].children == []
      modifies this, doc
      ensures Valid() && DataKeptBut(b, doc.nodes, tail) && currentPage != null && budget <= old(budget)
      ensures halted.None? ==>
        |path| == |old(path)| && pathElems == old(pathElems) && pb <= pages
        && Retrying(doc.nodes, pages, path, t, m0, floor, v, out2, homes2, at2, from) && EndsWith(out2, tail2)
    {
      assert this as object != doc as object;
      ghost var m, c, pc, pathC := pathB[|pathB| - 1], doc.nodes, pages, path;
      var first;
      ghost var more, h2;
      done, first, tail2, more, h2 := AddTextNode(tail);
      KeptBut(b, c, tail);
      KeptButTrans(b, c, doc.nodes, tail, tail);
      out2, homes2, at2 := out, homes, at;
      if halted.Some? {
        return;
      }
      if h2 == [] && homes != [] {
        RegionStays(b, c, m, tail, pc[|pb|].footer);
      }
      out2, homes2, at2 := RetryJoined(b, c, doc.nodes, pb, pc, pages, pathB, pathC, path, t, m0, floor, v, out,
                                       homes, at, from, mh, fn, more, h2);
    }

    /** The start of the pagination (lines 770-774) up to the `done`
        callback: the first page is made and the content element is added
        as `AddElementNode` says. */
    method Lay(root: Content) returns (ghost texts: seq<NodeId>)
      requires Valid() && halted.None? && path == [] && root.ElementNode?
      modifies this, doc
      ensures Valid() && DataKept(old(doc.nodes), doc.nodes)
      ensures halted.None? ==> Spells(doc.nodes, |old(doc.nodes)|, texts, KidsText(root, |root.children|))
    {
      assert this as object != doc as object;
      texts := [];
      ghost var o, a, m, shells, page := MakeNextPage();
      if halted.Some? {
        return;
      }
      ghost var begun := doc.nodes;
      texts := AddElementNode(root);
      KeptTrans(old(doc.nodes), begun, doc.nodes);
      if halted.None? {
        SpellsFloor(doc.nodes, |old(doc.nodes)|, |begun|, texts, KidsText(root, |root.children|));
      }
    }

    /** The `done` callback of the walk (lines 776-785): `ordered` holds the
        pages in the order `reorderPages` gives, while `pages` keeps the order
        they were made in, and the `afterBind` rules run on `ordered`. On the inputs where `reorderPages` would write past the end of
        the list or never finish, the run halts instead. */
    method Bind() returns (ordered: seq<Page>)
      requires Valid() && halted.None?
      modifies this, doc
      ensures Valid() && DataKept(old(doc.nodes), doc.nodes) && pages == old(pages)
      ensures halted == if ReorderSlots(FlagsOf(pages)).None? then Some(ReorderFailed) else None
      ensures halted.None? ==> Holds(ordered, ReorderSlots(FlagsOf(pages)).value, pages)
      ensures halted.None? ==> trace == old(trace) + BindCalls(BindSelected(rules), |ordered|)
      ensures halted.None? ==>
        numbers == if NumbersPages(rules, BindSelected(rules)) then Numbered(old(numbers), ordered) else old(numbers)
    {
      ordered := [];
      if ReorderSlots(FlagsOf(pages)).None? {
        halted := Some(ReorderFailed);
        return;
      }
      ghost var blanks;
      ordered, blanks := ReorderPages(doc, pages);
      KeptPagesIn(old(doc.nodes), doc.nodes, pages);
      KeptPathIn(old(doc.nodes), doc.nodes, path, pathElems);
      AfterBindRules(ordered);
    }

    /** `paginate` (lines 548-786) on the content element `root`: when
        nothing halted, the text nodes made, read in the order listed, spell
        the text of `root`; the pages come out in the order `reorderPages` gives; the
        `afterBind` calls come last; and with a page-number rule each page
        carries its position in that order, counting from one. */
    method Run(root: Content) returns (ordered: seq<Page>, ghost texts: seq<NodeId>, ghost walked: seq<HookCall>)
      requires Valid() && halted.None? && path == [] && pages == [] && root.ElementNode?
      modifies this, doc
      ensures Valid() && DataKept(old(doc.nodes), doc.nodes)
      ensures halted.None? ==> Spells(doc.nodes, |old(doc.nodes)|, texts, KidsText(root, |root.children|))
      ensures halted.None? ==> ReorderSlots(FlagsOf(pages)).Some?
      ensures halted.None? ==> Holds(ordered, ReorderSlots(FlagsOf(pages)).value, pages)
      ensures halted.None? ==> trace == walked + BindCalls(BindSelected(rules), |ordered|)
      ensures halted.None? && (exists i | 0 <= i < |rules| :: rules[i].behaviour == PageNumber) ==>
        forall j | 0 <= j < |ordered| :: ordered[j] in numbers && numbers[ordered[j]] == LastIndex(ordered, ordered[j]) + 1
    {
      ordered, walked := [], trace;
      texts := Lay(root);
      if halted.Some? {
        return;
      }
      walked := trace;
      ghost var laid := doc.nodes;
      ghost var before := numbers;
      ordered := Bind();
      KeptTrans(old(doc.nodes), laid, doc.nodes);
      if halted.None? {
        SpellsKept(laid, doc.nodes, |old(doc.nodes)|, texts, KidsText(root, |root.children|));
        BindNumbers(rules);
        NumberedSpec(before, ordered);
      }
    }
  }
}
