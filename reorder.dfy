/**
 * `reorderPages` (build/bindery.js:819-849): one pass over the odd positions
 * of the page list that pads or swaps pages so that pages asking to be on the
 * right (even positions, the cover being position 0) or on the left land there.
 *
 * The pass is specified on slots: `Orig(k)` is the k-th page of the input and
 * `Blank` a page the pass inserts.
 */
module Reorder {
  import opened Common
  import opened Documents
  import opened Pages

  datatype Slot = Orig(k: nat) | Blank

  datatype Flags = Flags(alwaysLeft: bool, alwaysRight: bool, outOfFlow: bool)

  const NoFlags := Flags(false, false, false)

  /** The flags of the page in a slot; an inserted blank page has none. */
  function FlagsAt(flags: seq<Flags>, s: Slot): Flags
  {
    if s.Orig? && s.k < |flags| then flags[s.k] else NoFlags
  }

  /** The positions of the input, in order. */
  function Identity(n: nat): (r: seq<Slot>)
    ensures |r| == n && forall j | 0 <= j < n :: r[j] == Orig(j)
  {
    seq(n, j requires 0 <= j < n => Orig(j))
  }

  function Insert(s: seq<Slot>, i: nat, x: Slot): (r: seq<Slot>)
    requires i <= |s|
  {
    s[..i] + [x] + s[i..]
  }

  /** Whether the iteration at `i` never finishes the pass: a page in the flow
      asking for both sides is padded to the right, then padded to the left,
      and meets the same test two positions later, forever. */
  predicate Diverges(flags: seq<Flags>, cur: seq<Slot>, i: nat)
    requires i < |cur|
  {
    var f := FlagsAt(flags, cur[i]);
    f.alwaysRight && !f.outOfFlow && f.alwaysLeft
  }

  /** The first half of an iteration (lines 823-833): the page at odd
      position `i` that asks for the right is swapped forward when out of the
      flow and padded with a blank otherwise. */
  function StepLeft(flags: seq<Flags>, cur: seq<Slot>, i: nat): (r: seq<Slot>)
    requires i + 1 < |cur|
    ensures |cur| <= |r| <= |cur| + 1
  {
    var fl := FlagsAt(flags, cur[i]);
    if !fl.alwaysRight then cur
    else if fl.outOfFlow then cur[i := cur[i + 1]][i + 1 := cur[i]]
    else Insert(cur, i, Blank)
  }

  /** The second half (lines 835-845): the page now at `i + 1` that asks for
      the left is swapped with the page at `i + 3` when out of the flow, which
      fails (`None`) when there is no such page, and padded otherwise. */
  function StepRight(flags: seq<Flags>, cur: seq<Slot>, i: nat): (r: Option<seq<Slot>>)
    requires i + 1 < |cur|
    ensures r.Some? ==> |cur| <= |r.value| <= |cur| + 1
  {
    var fr := FlagsAt(flags, cur[i + 1]);
    if !fr.alwaysLeft then Some(cur)
    else if fr.outOfFlow then
      if i + 3 < |cur| then Some(cur[i + 1 := cur[i + 3]][i + 3 := cur[i + 1]]) else None
    else Some(Insert(cur, i + 1, Blank))
  }

  /** One iteration of the loop at odd position `i` (lines 823-846); `None`
      when the swap at lines 840-841 would read and write past the end, or
      when the pass `Diverges`. */
  function Step(flags: seq<Flags>, cur: seq<Slot>, i: nat): (r: Option<seq<Slot>>)
    requires i + 1 < |cur|
    ensures r.Some? ==> |cur| <= |r.value| <= |cur| + 1
  {
    if Diverges(flags, cur, i) then None
    else
      var cur1 := StepLeft(flags, cur, i);
      var r := StepRight(flags, cur1, i);
      assert r.Some? && |r.value| == |cur1| + 1 ==> |cur1| == |cur| by {
        if |cur1| == |cur| + 1 { assert cur1[i + 1] == cur[i]; }
      }
      r
  }

  /** The loop from position `i` on; the list grows as it goes and its length
      is read again at every test. */
  function Pass(flags: seq<Flags>, cur: seq<Slot>, i: nat): Option<seq<Slot>>
    decreases |cur| - i
  {
    if i + 1 >= |cur| then Some(cur)
    else match Step(flags, cur, i)
      case None => None
      case Some(next) => Pass(flags, next, i + 2)
  }

  /** The whole pass over a list of `|flags|` pages, starting at position 1. */
  function ReorderSlots(flags: seq<Flags>): Option<seq<Slot>>
  {
    Pass(flags, Identity(|flags|), 1)
  }

  // ----- what one iteration promises -----

  /** Lines 826-832: a page in the flow that asks for the right and stands at an
      odd position gets a blank inserted before it and moves one on. */
  lemma RightPagePadded(flags: seq<Flags>, cur: seq<Slot>, i: nat)
    requires i + 1 < |cur|
    requires FlagsAt(flags, cur[i]).alwaysRight && !FlagsAt(flags, cur[i]).outOfFlow && !FlagsAt(flags, cur[i]).alwaysLeft
    ensures Step(flags, cur, i).Some?
    ensures |Step(flags, cur, i).value| == |cur| + 1
    ensures Step(flags, cur, i).value[..i] == cur[..i]
    ensures Step(flags, cur, i).value[i] == Blank && Step(flags, cur, i).value[i + 1] == cur[i]
  {
  }

  /** Lines 827-829: an out-of-flow page that asks for the right trades places
      with its successor instead. */
  lemma RightPageSwapped(flags: seq<Flags>, cur: seq<Slot>, i: nat)
    requires i + 1 < |cur|
    requires FlagsAt(flags, cur[i]).alwaysRight && FlagsAt(flags, cur[i]).outOfFlow && !FlagsAt(flags, cur[i]).alwaysLeft
    ensures Step(flags, cur, i).Some?
    ensures |Step(flags, cur, i).value| == |cur|
    ensures Step(flags, cur, i).value[i] == cur[i + 1] && Step(flags, cur, i).value[i + 1] == cur[i]
  {
  }

  /** Lines 836-844: a page in the flow that asks for the left and stands at the
      even position after `i` gets a blank inserted before it. */
  lemma LeftPagePadded(flags: seq<Flags>, cur: seq<Slot>, i: nat)
    requires i + 1 < |cur| && !FlagsAt(flags, cur[i]).alwaysRight
    requires FlagsAt(flags, cur[i + 1]).alwaysLeft && !FlagsAt(flags, cur[i + 1]).outOfFlow
    ensures Step(flags, cur, i).Some?
    ensures Step(flags, cur, i).value == cur[..i + 1] + [Blank] + cur[i + 1..]
  {
  }

  /** Lines 838-841: an out-of-flow page that asks for the left trades places
      with the page two positions on, which must exist. */
  lemma LeftPageSwapped(flags: seq<Flags>, cur: seq<Slot>, i: nat)
    requires i + 1 < |cur| && !FlagsAt(flags, cur[i]).alwaysRight
    requires FlagsAt(flags, cur[i + 1]).alwaysLeft && FlagsAt(flags, cur[i + 1]).outOfFlow
    ensures Step(flags, cur, i).Some? <==> i + 3 < |cur|
    ensures i + 3 < |cur| ==> Step(flags, cur, i).value == cur[i + 1 := cur[i + 3]][i + 3 := cur[i + 1]]
  {
  }

  /** A page with neither preference at `i`, followed by one that does not ask
      for the left, is left where it is. */
  lemma UnflaggedUntouched(flags: seq<Flags>, cur: seq<Slot>, i: nat)
    requires i + 1 < |cur| && !FlagsAt(flags, cur[i]).alwaysRight && !FlagsAt(flags, cur[i + 1]).alwaysLeft
    ensures Step(flags, cur, i) == Some(cur)
  {
  }

  // ----- what the whole pass promises -----

  /** `b` holds every page of `a` as often as `a` does, and differs from it
      in length only by the blanks it gained. */
  ghost predicate PagesKept(a: seq<Slot>, b: seq<Slot>)
  {
    (forall x | x != Blank :: multiset(b)[x] == multiset(a)[x])
    && |b| + multiset(a)[Blank] == |a| + multiset(b)[Blank]
  }

  lemma PagesKeptTrans(a: seq<Slot>, b: seq<Slot>, c: seq<Slot>)
    requires PagesKept(a, b) && PagesKept(b, c)
    ensures PagesKept(a, c)
  {
  }

  lemma SameMultisetKeeps(a: seq<Slot>, b: seq<Slot>)
    requires multiset(b) == multiset(a)
    ensures PagesKept(a, b)
  {
    assert |a| == |multiset(a)| && |b| == |multiset(b)|;
  }

  lemma BlankAddedKeeps(a: seq<Slot>, b: seq<Slot>)
    requires multiset(b) == multiset(a) + multiset{Blank}
    ensures PagesKept(a, b)
  {
    assert |a| == |multiset(a)| && |b| == |multiset(b)|;
  }

  lemma LeftKeepsPages(flags: seq<Flags>, cur: seq<Slot>, i: nat)
    requires i + 1 < |cur|
    ensures PagesKept(cur, StepLeft(flags, cur, i))
  {
    var fl := FlagsAt(flags, cur[i]);
    if !fl.alwaysRight {
      SameMultisetKeeps(cur, cur);
    } else if fl.outOfFlow {
      SwapSameMultiset(cur, i, i + 1);
      SameMultisetKeeps(cur, StepLeft(flags, cur, i));
    } else {
      InsertMultiset(cur, i, Blank);
      BlankAddedKeeps(cur, StepLeft(flags, cur, i));
    }
  }

  lemma RightKeepsPages(flags: seq<Flags>, cur: seq<Slot>, i: nat)
    requires i + 1 < |cur| && StepRight(flags, cur, i).Some?
    ensures PagesKept(cur, StepRight(flags, cur, i).value)
  {
    var fr := FlagsAt(flags, cur[i + 1]);
    if !fr.alwaysLeft {
      SameMultisetKeeps(cur, cur);
    } else if fr.outOfFlow {
      SwapSameMultiset(cur, i + 1, i + 3);
      SameMultisetKeeps(cur, StepRight(flags, cur, i).value);
    } else {
      InsertMultiset(cur, i + 1, Blank);
      BlankAddedKeeps(cur, StepRight(flags, cur, i).value);
    }
  }

  /** One iteration only moves pages and adds blanks. */
  lemma StepKeepsPages(flags: seq<Flags>, cur: seq<Slot>, i: nat)
    requires i + 1 < |cur| && Step(flags, cur, i).Some?
    ensures PagesKept(cur, Step(flags, cur, i).value)
  {
    var cur1 := StepLeft(flags, cur, i);
    LeftKeepsPages(flags, cur, i);
    RightKeepsPages(flags, cur1, i);
    PagesKeptTrans(cur, cur1, Step(flags, cur, i).value);
  }

  lemma UpdateMultiset(s: seq<Slot>, i: nat, v: Slot)
    requires i < |s|
    ensures multiset(s[i := v]) + multiset{s[i]} == multiset(s) + multiset{v}
  {
    assert s == s[..i] + [s[i]] + s[i + 1..];
    assert s[i := v] == s[..i] + [v] + s[i + 1..];
  }

  lemma SwapSameMultiset(s: seq<Slot>, a: nat, b: nat)
    requires a < b < |s|
    ensures multiset(s[a := s[b]][b := s[a]]) == multiset(s)
  {
    UpdateMultiset(s, a, s[b]);
    UpdateMultiset(s[a := s[b]], b, s[a]);
  }

  lemma InsertMultiset(s: seq<Slot>, i: nat, x: Slot)
    requires i <= |s|
    ensures multiset(Insert(s, i, x)) == multiset(s) + multiset{x}
  {
    assert s == s[..i] + s[i..];
  }

  /** No page is lost or duplicated, and the list grows by exactly the number of
      blanks inserted (lines 819-849). */
  lemma {:induction false} PassKeepsPages(flags: seq<Flags>, cur: seq<Slot>, i: nat)
    requires Pass(flags, cur, i).Some?
    ensures PagesKept(cur, Pass(flags, cur, i).value)
    decreases |cur| - i
  {
    if i + 1 < |cur| {
      var next := Step(flags, cur, i).value;
      StepKeepsPages(flags, cur, i);
      PassKeepsPages(flags, next, i + 2);
      PagesKeptTrans(cur, next, Pass(flags, cur, i).value);
    } else {
      SameMultisetKeeps(cur, cur);
    }
  }

  /** The pages in their original order hold each page once and no blank. */
  lemma IdentityCounts(n: nat)
    ensures multiset(Identity(n))[Blank] == 0
    ensures forall k | 0 <= k < n :: multiset(Identity(n))[Orig(k)] == 1
    ensures forall x | x in multiset(Identity(n)) :: x.Orig? && x.k < n
  {
    var id := Identity(n);
    assert Blank !in id;
    forall k | 0 <= k < n ensures multiset(id)[Orig(k)] == 1 {
      assert id == id[..k] + [Orig(k)] + id[k + 1..];
      assert Orig(k) !in id[..k] && Orig(k) !in id[k + 1..];
    }
  }

  /** Every input page appears exactly once in the reordered list, which holds
      nothing else but blanks. */
  lemma ReorderIsPermutationWithBlanks(flags: seq<Flags>)
    requires ReorderSlots(flags).Some?
    ensures forall k | 0 <= k < |flags| :: multiset(ReorderSlots(flags).value)[Orig(k)] == 1
    ensures forall j | 0 <= j < |ReorderSlots(flags).value| ::
      ReorderSlots(flags).value[j].Orig? ==> ReorderSlots(flags).value[j].k < |flags|
    ensures |ReorderSlots(flags).value| == |flags| + multiset(ReorderSlots(flags).value)[Blank]
  {
    var id := Identity(|flags|);
    var out := ReorderSlots(flags).value;
    PassKeepsPages(flags, id, 1);
    assert PagesKept(id, out);
    IdentityCounts(|flags|);
    forall j | 0 <= j < |out| && out[j].Orig? ensures out[j].k < |flags| {
      assert out[j] in multiset(out);
      assert multiset(id)[out[j]] > 0;
    }
  }

  // ----- the pass on the page list -----

  function FlagsOf(pages: seq<Page>): (r: seq<Flags>)
    reads set j | 0 <= j < |pages| :: pages[j]
    ensures |r| == |pages|
  {
    seq(|pages|, j reads pages requires 0 <= j < |pages| => Flags(pages[j].alwaysLeft, pages[j].alwaysRight, pages[j].outOfFlow))
  }

  /** `pages` holds the page of each slot of `slots`: an input page, or a page
      with no flags set for a blank. */
  ghost predicate Holds(pages: seq<Page>, slots: seq<Slot>, input: seq<Page>)
    reads set j | 0 <= j < |pages| :: pages[j]
  {
    |pages| == |slots|
    && forall j | 0 <= j < |slots| ::
      match slots[j]
      case Orig(k) => k < |input| && pages[j] == input[k]
      case Blank => !pages[j].alwaysLeft && !pages[j].alwaysRight && !pages[j].outOfFlow
  }

  /** Every page of `ordered` comes from `pages` or from `made`. */
  ghost predicate Drawn(ordered: seq<Page>, pages: seq<Page>, made: set<Page>)
  {
    forall j | 0 <= j < |ordered| :: ordered[j] in pages || ordered[j] in made
  }

  lemma DrawnTrans(a: seq<Page>, b: seq<Page>, c: seq<Page>, m1: set<Page>, m2: set<Page>)
    requires Drawn(a, b, m1) && Drawn(b, c, m2)
    ensures Drawn(a, c, m1 + m2)
  {
  }

  /** The page of slot `i` carries the flags `ReorderSlots` reads for it. */
  lemma HoldsFlags(ordered: seq<Page>, slots: seq<Slot>, pages: seq<Page>, i: nat)
    requires Holds(ordered, slots, pages) && i < |slots|
    ensures FlagsAt(FlagsOf(pages), slots[i]) == Flags(ordered[i].alwaysLeft, ordered[i].alwaysRight, ordered[i].outOfFlow)
  {
  }

  /** Lines 826-833, on the list and on its slots. */
  method PlaceLeft(doc: Document, ordered: seq<Page>, ghost slots: seq<Slot>, ghost pages: seq<Page>, i: nat)
    returns (next: seq<Page>, ghost nextSlots: seq<Slot>, ghost made: set<Page>)
    requires doc.Valid() && i + 1 < |ordered| && Holds(ordered, slots, pages)
    modifies doc
    ensures doc.Valid() && |old(doc.nodes)| <= |doc.nodes|
    ensures forall n | 0 <= n < |old(doc.nodes)| :: doc.nodes[n] == old(doc.nodes)[n]
    ensures Holds(next, nextSlots, pages)
    ensures fresh(made) && Drawn(next, ordered, made)
    ensures nextSlots == StepLeft(FlagsOf(pages), slots, i)
  {
    HoldsFlags(ordered, slots, pages, i);
    var left := ordered[i];
    next, nextSlots, made := ordered, slots, {};
    if left.alwaysRight {
      if left.outOfFlow {
        next := ordered[i := ordered[i + 1]][i + 1 := left];
        nextSlots := slots[i := slots[i + 1]][i + 1 := slots[i]];
      } else {
        var blank := new Page(doc);
        next := ordered[..i] + [blank] + ordered[i..];
        made := {blank};
        nextSlots := Insert(slots, i, Blank);
      }
    }
  }

  /** Lines 835-845, on the list and on its slots. */
  method PlaceRight(doc: Document, ordered: seq<Page>, ghost slots: seq<Slot>, ghost pages: seq<Page>, i: nat)
    returns (next: seq<Page>, ghost nextSlots: seq<Slot>, ghost made: set<Page>)
    requires doc.Valid() && i + 1 < |ordered| && Holds(ordered, slots, pages)
    requires StepRight(FlagsOf(pages), slots, i).Some?
    modifies doc
    ensures doc.Valid() && |old(doc.nodes)| <= |doc.nodes|
    ensures forall n | 0 <= n < |old(doc.nodes)| :: doc.nodes[n] == old(doc.nodes)[n]
    ensures Holds(next, nextSlots, pages)
    ensures fresh(made) && Drawn(next, ordered, made)
    ensures nextSlots == StepRight(FlagsOf(pages), slots, i).value
  {
    HoldsFlags(ordered, slots, pages, i + 1);
    var right := ordered[i + 1];
    next, nextSlots, made := ordered, slots, {};
    if right.alwaysLeft {
      if right.outOfFlow {
        next := ordered[i + 1 := ordered[i + 3]][i + 3 := right];
        nextSlots := slots[i + 1 := slots[i + 3]][i + 3 := slots[i + 1]];
      } else {
        var blank := new Page(doc);
        next := ordered[..i + 1] + [blank] + ordered[i + 1..];
        made := {blank};
        nextSlots := Insert(slots, i + 1, Blank);
      }
    }
  }

  /** One iteration of the loop (lines 823-846) on the list and on its slots. */
  method PlacePair(doc: Document, ordered: seq<Page>, ghost slots: seq<Slot>, ghost pages: seq<Page>, i: nat)
    returns (next: seq<Page>, ghost nextSlots: seq<Slot>, ghost made: set<Page>)
    requires doc.Valid() && i + 1 < |ordered| && Holds(ordered, slots, pages)
    requires Step(FlagsOf(pages), slots, i).Some?
    modifies doc
    ensures doc.Valid() && |old(doc.nodes)| <= |doc.nodes|
    ensures forall n | 0 <= n < |old(doc.nodes)| :: doc.nodes[n] == old(doc.nodes)[n]
    ensures Holds(next, nextSlots, pages)
    ensures fresh(made) && Drawn(next, ordered, made)
    ensures nextSlots == Step(FlagsOf(pages), slots, i).value
  {
    var mid;
    ghost var made1, made2;
    mid, nextSlots, made1 := PlaceLeft(doc, ordered, slots, pages, i);
    next, nextSlots, made2 := PlaceRight(doc, mid, nextSlots, pages, i);
    made := made1 + made2;
  }

  /** `reorderPages(pages)`, inserting `new Page()` for each blank; the result
      is the list `ReorderSlots` describes. The precondition excludes the two
      inputs on which the source misbehaves (see `Step`). */
  method ReorderPages(doc: Document, pages: seq<Page>) returns (ordered: seq<Page>, ghost blanks: set<Page>)
    requires doc.Valid() && ReorderSlots(FlagsOf(pages)).Some?
    modifies doc
    ensures doc.Valid() && |old(doc.nodes)| <= |doc.nodes|
    ensures forall i | 0 <= i < |old(doc.nodes)| :: doc.nodes[i] == old(doc.nodes)[i]
    ensures Holds(ordered, ReorderSlots(FlagsOf(pages)).value, pages)
    ensures fresh(blanks) && Drawn(ordered, pages, blanks)
  {
    ghost var flags := FlagsOf(pages);
    ghost var slots := Identity(|pages|);
    ordered, blanks := pages, {};
    var i := 1;
    while i < |ordered| - 1
      invariant doc.Valid() && |old(doc.nodes)| <= |doc.nodes|
      invariant forall n | 0 <= n < |old(doc.nodes)| :: doc.nodes[n] == old(doc.nodes)[n]
      invariant Pass(flags, slots, i) == ReorderSlots(flags)
      invariant Holds(ordered, slots, pages)
      invariant fresh(blanks) && Drawn(ordered, pages, blanks)
      invariant FlagsOf(pages) == flags
      decreases |ordered| - i
    {
      ghost var made, prev;
      prev := ordered;
      ordered, slots, made := PlacePair(doc, ordered, slots, pages, i);
      DrawnTrans(ordered, prev, pages, made, blanks);
      blanks := made + blanks;
      i := i + 2;
    }
  }
}
