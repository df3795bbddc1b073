# Bindery pagination engine, modelled in Dafny

Bindery lays an HTML document out as book pages in the browser. The engine
(`paginate`, build/bindery.js lines 548-786) walks the content element
depth-first and copies it onto pages. It keeps a *path*: the chain of
elements, open on the current page, that new nodes go into.

- When a text node overflows the page, a binary search over its prefixes
  finds a cut. The node is then cut at the last word boundary before that
  point, and the remainder continues on the next page inside fresh
  *continuation shells* of the open elements (`clonePath`).
- Around every element, user *rules* run their hooks: `beforeAdd`,
  `afterAdd`, `newPage` and `afterBind`. A `beforeAdd` hook that overflows
  the page is undone and run again on a new page.
- At the end, `reorderPages` pads or swaps pages so that those asking for a
  left- or right-hand side get it. The `afterBind` rules then run on every
  page; for example, the page-number rule numbers the pages.

The model is split into these modules:

- `Common`: `last`, `indexOf` and small sequence helpers.
- `Dom` / `Documents`: the part of the DOM the engine uses, as a store of
  nodes addressed by identity. Each node has data, a parent and ordered
  children. The store supports `appendChild` (which detaches first),
  `removeChild`, `cloneNode`, `innerHTML` copies, `setAttribute` and
  `nodeValue`.
- `Pages`: the `Page` object, with its flags and `clone`.
- `Rules`: rule bundles, `Binder.addRules`, and which rules run in which
  phase.
- `TextSplit`: the splitter of `addTextNode`. It is given as functions, both
  as written and corrected, and its probe loop is given as methods proved
  against the corrected functions.
- `SplitExamples`: the scenarios of `addTextNode.test.js`, proved.
- `Reorder`: `reorderPages`, as a function on slots with its permutation
  property, and as a method on the page list.
- `Flow`: the engine itself as a class. Its fields are the engine's state:
  `path`, `pages`, `currentPage`, the hook trace and the console log. Its
  methods are `makeNextPage`, `moveNodeToNextPage`, `addTextNode`,
  `addElementNode`, the rule dispatchers and the whole run.
- `ClassLists`: the `classList` fallback for elements without a native one.

The browser enters the model only through parameters:

- Layout is an oracle `overflows(nodes, flow, footer)`. It stands for
  `Page.hasOverflowed()`.
- Selector matching is an oracle `matches(element, selector)`.
- User hooks are modelled by what they do to the engine's state:
  - `BreakBefore` moves on to a new right-hand page.
  - `PageNumber` sets `pg.number`.
  - Any other hook is recorded in the trace and does nothing else.

The engine can run forever, for example on a word wider than a page. So
every run gets a budget of pages. When the budget is spent, the run halts
with `OutOfPages`. The positions of the text splitter are exact reals,
which is what JavaScript's doubles hold for these halvings. They are not an
integer interval.

## Model

| member | source | states |
|---|---|---|
| Common.Last | build/bindery.js:799-801 | `last(arr)` is `undefined` exactly on the empty list; otherwise it is the final element |
| Common.IndexOf | build/bindery.js:1346-1352 | -1 exactly when the value is absent; otherwise the first position that holds it |
| Dom.Detached | build/bindery.js:626 | `removeChild` detaches the node and removes only its first occurrence from its parent's children; all data and all other links stay |
| Dom.AppendedChild | build/bindery.js:617 | `appendChild` makes the node the parent's last child, after detaching it from its old parent; data and unrelated links stay |
| Documents.Document.Create | build/bindery.js:686 | a created node is new, unattached and has no children; the store only grows |
| Documents.Document.AppendChild | build/bindery.js:647 | the store becomes `AppendedChild` of the old one, and stays well linked |
| Documents.Document.RemoveChild | build/bindery.js:626 | the store becomes `Detached` of the old one, and stays well linked |
| Documents.Document.SetText | build/bindery.js:678 | assigning `nodeValue` changes that text node's data and nothing else |
| Documents.Document.SetAttribute | build/bindery.js:808 | `setAttribute` changes one attribute of one element and nothing else |
| Documents.Document.CopySubtree | build/bindery.js:930-931 | a deep copy is a new, detached node with the source's data; the nodes that existed before are untouched |
| Documents.Document.CopyChildren | build/bindery.js:930-931 | `dst.innerHTML = src.innerHTML` gives the empty `dst` new copies of `src`'s children, in order, with the same data |
| Pages.Page.constructor | build/bindery.js:890-897 | a new page has two fresh, empty regions and no flag set |
| Pages.Page.SetPreference | build/bindery.js:918-921 | "left" raises `alwaysLeft` and "right" raises `alwaysRight`; any other value changes nothing; a flag once raised stays raised |
| Pages.Page.SetOutOfFlow | build/bindery.js:923-926 | sets `outOfFlow` and leaves the side preferences alone |
| Pages.Page.Clone | build/bindery.js:928-935 | a fresh page whose flow and footer hold copies of this page's flow and footer children, in order; it has no flags; existing nodes are unchanged |
| Rules.Selected | build/bindery.js:563-606 | the positions of the rules that run in a phase are exactly those that define that hook and (before/after add) whose selector matches, in registration order |
| Rules.EveryEntryAccounted | build/bindery.js:146-156 | every entry given to `addRules` is either registered or warned about as unknown, never both |
| Rules.RegisteredUnderOwnKey | build/bindery.js:146-156 | with registration by value, as the corrected `addRules` does it, each registered rule carries the selector it was registered under, and every truthy entry is registered |
| Rules.Binder.AddRules | build/bindery.js:146-156 | truthy entries are appended to `rules` in order, each as its own value with its own selector; falsy ones are appended to the warnings |
| Rules.SharedRuleLosesSelector | build/bindery.js:153 | registering one rule object under "h2" and "h3" leaves both registrations reading "h3" |
| Rules.SeparateRulesKeepSelectors | build/bindery.js:153-154 | registering by value keeps one rule per selector |
| ClassLists.TokensJoin | build/bindery.js:1306-1323 | writing clean tokens with `setTokens` and reading them with `getTokens` gives the same list |
| ClassLists.TokensNormal | build/bindery.js:1306-1323 | once the tokens have been written back, reading them again gives the same tokens |
| ClassLists.TokensClean | build/bindery.js:1306-1310 | every token read from a class name is non-empty and has no space |
| ClassLists.AddedTokens | build/bindery.js:1262-1269 | after `add`, a clean token is present; a token already there changes nothing, and a missing one is appended last |
| ClassLists.RemovedTokens | build/bindery.js:1271-1281 | `remove` deletes the first occurrence and keeps the order; a missing token changes nothing |
| ClassLists.RemoveFirstOnly | build/bindery.js:1271-1281 | on "a a", one `remove("a")` leaves "a" present |
| ClassLists.AddSpacedToken | build/bindery.js:1262-1269 | adding "a b" writes two classes, so "a b" is not contained afterwards |
| ClassLists.ToggleTwice | build/bindery.js:1287-1295 | toggling a missing clean token twice restores the tokens |
| ClassLists.ClassList.constructor | build/bindery.js:1243-1258 | the fallback list starts with length 0 and no indexed entries |
| ClassLists.ClassList.Contains | build/bindery.js:1283-1285 | `contains` is true exactly when the token is among the tokens |
| ClassLists.ClassList.Item | build/bindery.js:1301-1304 | `item(i)` is `null` exactly outside the token list; otherwise it is the i-th token |
| ClassLists.ClassList.SetTokens | build/bindery.js:1312-1323 | the class name becomes the joined list and the length is set; entries below it are overwritten and entries above keep their old values |
| ClassLists.ClassList.Add | build/bindery.js:1262-1269 | the class name becomes `Added`; a missing token sets the length to the new token count and rewrites the indexed entries as `SetTokens` does; a present token changes nothing |
| ClassLists.ClassList.Remove | build/bindery.js:1271-1281 | the class name becomes `Removed`; a present token sets the length to the remaining token count and rewrites the indexed entries as `SetTokens` does; a missing token changes nothing |
| ClassLists.ClassList.Toggle | build/bindery.js:1287-1295 | returns true exactly when the token was missing; the class name, the length and the indexed entries then follow `Add`, otherwise `Remove` |
| TextSplit.TrimEmptyIffBlank | build/bindery.js:671 | `text.trim().length > 0` exactly when the text holds a character that is not white space |
| TextSplit.BackOff | build/bindery.js:669 | the back-off never moves right, and stops on a space or at or below -1 |
| TextSplit.BackOffSkipsNoSpace | build/bindery.js:669 | every position the back-off steps over is not a space |
| TextSplit.BackOffLandsOnSpace | build/bindery.js:669 | a back-off that stops above -1 stopped on a space |
| TextSplit.BackOffToSpace | build/bindery.js:669 | the loop computes `BackOff` and stops on a space or at or below -1 |
| TextSplit.SearchLossless | build/bindery.js:655-661 | the corrected search only reports the end when no probe was made, and the node then holds the whole text |
| TextSplit.DecideLossless | build/bindery.js:671-687 | a split's placed and remainder parts concatenate to the text; a cancel happens exactly when the back-off fell before position 1 on non-blank text |
| TextSplit.SplitAtWordBoundary | build/bindery.js:669-687 | a split loses no text, and non-blank text is cut just before a space that is not its first character |
| TextSplit.CancelOnlyWithoutBoundary | build/bindery.js:671-675 | a cancel happens only on non-blank text with no space between its second character and the final probe |
| TextSplit.NoPastEndAfterProbe | build/bindery.js:655-661 | once a probe has been made, the corrected search always converges |
| TextSplit.NoLossWithoutCut | build/bindery.js:649-661 | a text that fits is placed whole, with one query; a run that finishes keeps its whole text and is shorter than two characters |
| TextSplit.ResumeCancels | build/bindery.js:682-700 | after a split, a non-blank remainder that still overflows the fresh page cancels, because the next probe falls before its start |
| TextSplit.SearchesAgree | build/bindery.js:655-661 | the written and corrected searches agree except where the written one stops past the end after probing |
| TextSplit.LosslessAgrees | build/bindery.js:655-680 | on non-blank text the two splitters give the same outcome, unless the written one finishes with the text truncated |
| TextSplit.Probe | build/bindery.js:655-700 | the probe loop computes the corrected step; a split loses nothing, a finish keeps the whole text, and a cancel leaves non-blank text |
| TextSplit.FirstPass | build/bindery.js:653-705 | the first pass equals `FirstRoundLossless`, with the same no-loss facts |
| TextSplit.ResumePass | build/bindery.js:682-700 | the pass over a remainder equals `ResumeRound`, with the same no-loss facts |
| SplitExamples.ExampleAlwaysOverflows | src/paginate/__tests__/addTextNode.test.js:12-22 | a page that always overflows cancels the text |
| SplitExamples.ExampleNeverOverflows | src/paginate/__tests__/addTextNode.test.js:24-34 | a page that never overflows takes the text whole |
| SplitExamples.ExampleOverflowsWhenNotEmpty | src/paginate/__tests__/addTextNode.test.js:64-75 | a page that overflows as soon as the node holds anything cancels the text |
| SplitExamples.ExampleBreakOnWordBoundary | src/paginate/__tests__/addTextNode.test.js:77-90 | with room for 4 characters, "Test" is placed and " text content" carried over |
| SplitExamples.ExampleBackUpToWordBoundary | src/paginate/__tests__/addTextNode.test.js:92-105 | with room for 7 characters, the search backs up to the space and gives the same split |
| SplitExamples.ExampleCancelPastFirstWord | src/paginate/__tests__/addTextNode.test.js:107-118 | with room for 2 characters the back-off passes the first word, and the text is cancelled |
| SplitExamples.TailDroppedAsWritten | build/bindery.js:659-661 | as written, room for 15 characters leaves "Test text conte" and loses "nt" |
| SplitExamples.TailKeptCorrected | build/bindery.js:659-687 | corrected, the same text is cut at the last word boundary and nothing is lost |
| SplitExamples.BlankLostAsWritten | build/bindery.js:669-680 | as written, "\n\n" on a full page carries over only one line feed |
| SplitExamples.SpacesKeptAsWritten | build/bindery.js:669-680 | as written, "  " (two spaces) on a full page is carried over whole, because its back-off stops on a space: the loss shown by `BlankLostAsWritten` needs a blank run without one |
| SplitExamples.BlankKeptCorrected | build/bindery.js:669-687 | corrected, the whole blank run moves to the next page |
| Reorder.RightPagePadded | build/bindery.js:826-832 | an in-flow page at an odd position that asks for the right gets a blank page before it |
| Reorder.RightPageSwapped | build/bindery.js:826-829 | an out-of-flow page that asks for the right trades places with its successor |
| Reorder.LeftPagePadded | build/bindery.js:835-844 | an in-flow page at the even position that asks for the left gets a blank page before it |
| Reorder.LeftPageSwapped | build/bindery.js:838-841 | an out-of-flow page that asks for the left trades places with the page two on, which succeeds exactly when that page exists |
| Reorder.UnflaggedUntouched | build/bindery.js:823-846 | pages with no relevant preference stay where they are |
| Reorder.StepKeepsPages | build/bindery.js:823-846 | one iteration only moves pages and adds blank ones |
| Reorder.PassKeepsPages | build/bindery.js:819-849 | the whole loop keeps every page exactly as often, and grows the list only by blank pages |
| Reorder.ReorderIsPermutationWithBlanks | build/bindery.js:819-849 | every input page appears exactly once in the result; everything else is a blank, and the length is the input length plus the blanks |
| Reorder.PlaceLeft | build/bindery.js:826-833 | the page list after the first half of an iteration holds the pages `StepLeft` describes |
| Reorder.PlaceRight | build/bindery.js:835-845 | the page list after the second half holds the pages `StepRight` describes |
| Reorder.PlacePair | build/bindery.js:823-846 | one iteration on the page list follows `Step`; new pages are fresh blanks |
| Reorder.ReorderPages | build/bindery.js:819-849 | the reordered list holds the pages `ReorderSlots` describes: input pages where it keeps them, and fresh blank pages where it inserts them |
| Flow.Calls | build/bindery.js:563-606 | the hook calls of the selected rules, one per rule, in order and in the given phase |
| Flow.RunHooks | build/bindery.js:586-606 | the `forEach` over the selected rules makes exactly the calls `Calls` lists |
| Flow.InPhaseAppend | build/bindery.js:563-606 | the calls of one phase, taken from a concatenated trace, are those of each part in order |
| Flow.TwoRuns | build/bindery.js:572-581 | a `beforeAdd` hook that is retried shows up exactly twice among the `beforeAdd` calls |
| Flow.MakeShell | build/bindery.js:806-814 | one shell is a new, unattached continuation of the element, with the previous shell as its only child |
| Flow.ClonePath | build/bindery.js:803-816 | `clonePath` makes one new continuation shell per path element, each nested in the one before, outermost unattached; it warns for each element with an id; old nodes are untouched |
| Flow.AttachShells | build/bindery.js:616-618 | the outermost shell becomes the only child of the new page's flow box |
| Flow.LastIndex | build/bindery.js:601-603 | the last position holding a page |
| Flow.PageCalls | build/bindery.js:601-603 | one `afterBind` call per page, in page order |
| Flow.BindCallsAt | build/bindery.js:599-605 | the `afterBind` calls are rule-major: call `k * count + j` is rule k on page j |
| Flow.NumberedSpec | build/bindery.js:2273-2278 | after the page-number hook, each page is numbered by its last position plus one; other pages keep their numbers |
| Flow.NumberedDistinct | build/bindery.js:2273-2278 | on a list without repeats, the page at position j gets j + 1 |
| Flow.NumberedTwice | build/bindery.js:2273-2278 | numbering twice gives the same numbers as numbering once |
| Flow.BindNumbers | build/bindery.js:598-606 | `afterBindRules` numbers the pages exactly when a page-number rule is registered |
| Flow.BindRule | build/bindery.js:601-603 | one rule's `afterBind` runs on every page in order; the page-number rule numbers them |
| Flow.BindAll | build/bindery.js:599-605 | the `forEach` of `afterBindRules` makes the rule-major calls and numbers the pages when a page-number rule is among them |
| Flow.Flow.constructor | build/bindery.js:548-557 | a fresh run has no path, no pages, no trace, no log and no halt |
| Flow.Flow.AfterBindRules | build/bindery.js:598-606 | appends the rule-major `afterBind` calls; numbers the pages when a page-number rule is registered; the rest of the state is unchanged |
| Flow.Flow.NewPageRules | build/bindery.js:593-597 | appends the `newPage` calls for the page about to be pushed; the rest of the state is unchanged |
| Flow.Flow.RenewPath | build/bindery.js:611 | the path becomes fresh shells standing for the same elements; the id warnings are logged |
| Flow.Flow.PushPage | build/bindery.js:612-615 | a fresh page with two empty regions becomes the last and current page, after its `newPage` calls |
| Flow.Flow.DropSuspect | build/bindery.js:623-627 | the deepest path node leaves its parent but stays on the path; the error is logged |
| Flow.Flow.CheckFresh | build/bindery.js:620-628 | on a fresh page that overflows, the deepest path node is detached, or the run throws when the path is empty; otherwise nothing changes |
| Flow.Flow.OpenPage | build/bindery.js:611-618 | the path becomes its shells, hanging under the new current page's flow box; the `newPage` calls and warnings are recorded |
| Flow.Flow.MountPage | build/bindery.js:612-618 | a fresh page becomes the last and current page after its `newPage` calls, and the outermost shell of the path goes into its flow box, whose footer is empty; the older nodes keep their data and links |
| Flow.Flow.Advance | build/bindery.js:611-628 | opens the page as `OpenPage` does, then runs `CheckFresh` on the page just opened |
| Flow.Flow.MakeNextPage | build/bindery.js:610-630 | with budget left, a page is used up and opened as `Advance` says; with none, the run halts with `OutOfPages` |
| Flow.Flow.BeforeAddHook | build/bindery.js:2019-2024 | the hook call is recorded; `BreakBefore` moves to a new page asking for the right when the flow box's `innerText` is not empty, that is, when its text holds a character other than collapsible white space: with budget left exactly one page is added, made by the `newPage` calls, and it is current; other hooks change nothing else |
| Flow.Flow.RestoreBackup | build/bindery.js:572-576 | the backup replaces the current page in the page list and becomes current |
| Flow.Flow.RestoreAndNewPage | build/bindery.js:572-580 | the backup takes the last page's slot with its flags untouched; with budget left exactly one fresh page follows it, made by its `newPage` calls, and is current; with none the run halts with `OutOfPages` and no page is added |
| Flow.Flow.Retry | build/bindery.js:572-581 | restores the backup, then, with budget left, makes a new page with its `newPage` calls and runs the hook again; with none the run halts with `OutOfPages` and adds no page; unless halted, the current page is never the backup; the backup's flags are untouched |
| Flow.Flow.RunBeforeAdd | build/bindery.js:565-584 | the turn is a `HookRun` kept by `TurnKept`: it starts at the view before the call; the view the hook leaves is judged, and when the hook has nothing to do (it is not `BreakBefore`, or the flow box reads empty) it is the view seen after the backup was made; the hook runs again exactly when the judged view overflows, and without a retry the turn ends on the judged view; with a retry the fresh backup takes the last page's slot and the pages made afterwards follow it, a fresh one first, and unless halted the backup is not the current page; a `BreakBefore` on a non-empty flow box with budget left adds exactly one page before the judging, asking for the right; the `beforeAdd` calls show one run or two |
| Flow.Flow.HookAndRetry | build/bindery.js:568-583 | once the backup is made: the first run adds at most one page, and none when the hook has nothing to do, in which case the judged view is the one seen before it; a `BreakBefore` on a non-empty flow box with budget left adds exactly one page, the judged one, asking for the right; without a retry the judged store and page are the final ones; a retry exactly when the judged view overflows, with the page list that follows from it, and a retry that does not halt adds a fresh page and leaves the backup off the current page |
| Flow.Flow.FirstRun | build/bindery.js:569 | the hook's first run adds at most one page, which becomes current; a `BreakBefore` on a non-empty flow box with budget left adds exactly one, asking for the right; the backup stays out of the page list; when the hook has nothing to do the view is unchanged |
| Flow.Flow.CheckAndRetry | build/bindery.js:571-582 | the hook runs again exactly when the current page overflows, and a retry that does not halt adds a fresh page that is not the backup; otherwise the nodes, pages, current page and trace are unchanged |
| Flow.Flow.RetryBranch | build/bindery.js:571-582 | the backup replaces the last page, the pages made afterwards are appended, a fresh one first when budget is left and none when the run halts for want of pages; the current page is not the backup unless halted; the hook's `beforeAdd` call appears exactly twice in the turn's calls |
| Flow.Flow.BeforeAddRules | build/bindery.js:563-585 | the turns of the matching rules, in order, form a chain (`Turns`) from the view before the call to the view after, each kept by `TurnKept`; the `beforeAdd` calls are exactly those rules', each made twice exactly when its turn's judged view overflowed; the trace only grows |
| Flow.Flow.RunBeforeAddUpTo | build/bindery.js:563-585 | the same for the first n selected rules: one retry answer and one kept turn per rule, chained from the view before the call to the view after |
| Flow.Flow.BeforeAddStep | build/bindery.js:564-584 | one more turn after the first n - 1: the chain of kept turns, the retry answers and the `beforeAdd` calls each grow by that turn |
| Flow.BeforeAddTurn | build/bindery.js:564-584 | a kept turn begun where the earlier ones ended extends the chain, the retry answers and the calls, each twice exactly when the turn's judged view overflowed |
| Flow.TurnsStep | build/bindery.js:564-584 | a kept turn begun where the chain ended extends `Turns` and `RetriedOnOverflow` |
| Flow.Flow.AfterAddRules | build/bindery.js:586-592 | appends the `afterAdd` calls of the matching rules, in order; the rest of the state is unchanged |
| Flow.Flow.DropEntry | build/bindery.js:632-635 | pops the innermost path entry and notes the footer's last child |
| Flow.Flow.CarryFootnote | build/bindery.js:637 | the noted footnote, if any, moves to the new footer; no other node changes parent |
| Flow.Flow.PushMoved | build/bindery.js:639-640 | the node goes under the innermost entry and is pushed on the path; it hangs in the new page's shells; the links of other nodes are unchanged |
| Flow.Flow.HangMoved | build/bindery.js:639 | the node hangs under the innermost shell of its home; only its parent changes, and an empty footer stays empty |
| Flow.Flow.PushOrThrow | build/bindery.js:639-640 | with an empty path `last` is undefined and the run throws; otherwise the node is put under the innermost entry and pushed |
| Flow.Flow.Reattach | build/bindery.js:636-640 | carries the footnote and pushes the node, or throws when the path is empty |
| Flow.Flow.TurnPage | build/bindery.js:636 | when nothing halted, a page was used up and the path holds one new shell per old entry, chained from the new page's flow box, with an empty footer |
| Flow.Flow.NextPageFor | build/bindery.js:635-640 | when nothing halted, the node stands at the innermost entry of the new page, standing for the same element; only it and the footnote change parent |
| Flow.Flow.MoveNodeToNextPage | build/bindery.js:632-641 | the node moves to a new last page at the same depth, standing for the same element, and hangs in that page's shells; a path of one entry throws |
| Flow.Flow.PlaceRemainder | build/bindery.js:686-687 | a new text node with the remainder goes under the innermost path entry, in the shells of the current page |
| Flow.Flow.NextPiece | build/bindery.js:678-687 | the node keeps the placed part; a new page is made and the remainder goes into its shells |
| Flow.Flow.RemainderOnNextPage | build/bindery.js:684-687 | a new page is made last and a new node holding the remainder hangs in its shells |
| Flow.Flow.SplitOn | build/bindery.js:678-700 | after a split, the pieces made concatenate to the whole text, the node keeping the placed part; each later piece hangs in the shells of the next new page |
| Flow.Flow.Continue | build/bindery.js:665-700 | the pieces concatenate to the original text, each after the first on the next new page; a cancelled run ends with non-blank text that was not placed |
| Flow.Flow.StartText | build/bindery.js:645-705 | the node goes under the innermost path entry, or the run throws on an empty path; the first pass's outcome loses no text |
| Flow.Flow.AddTextNode | build/bindery.js:645-706 | the pieces concatenate to the node's original text; the node is the first, under the innermost path entry, and each later piece hangs in the shells of one of the pages made, in page order; a split makes at least two pieces; an empty path throws |
| Flow.Flow.PlaceElement | build/bindery.js:713-717 | a new node for the element goes into the flow box, or under the innermost path entry |
| Flow.Flow.AddElementNode | build/bindery.js:710-768 | the element stays at the innermost path entry, and the text nodes made, read in the order listed, spell the element's text |
| Flow.Flow.AddChildren | build/bindery.js:726-764 | the text nodes made, read in the order listed, spell the children's texts one after the other |
| Flow.Flow.AddNextChild | build/bindery.js:727-764 | one more child: the nodes that spelled the first i children now spell the first i + 1 |
| Flow.Flow.AddChild | build/bindery.js:735-763 | a child's text is spelled by the nodes made; a script is skipped and changes neither the nodes, the pages, the path, the trace, the log nor the halt; an unknown node type stalls the run and is logged |
| Flow.Flow.AddElementChild | build/bindery.js:750-758 | the `beforeAdd` turns of the matching rules chain from the view before the call to `ruledView`, each kept by `TurnKept` and made twice exactly when its judged view overflowed; the trace `ruled` after them extends the trace before the element; the element's text is spelled; the trace ends with the `afterAdd` calls for the popped node's element |
| Flow.Flow.AddAndClose | build/bindery.js:753-757 | the element is added and its entry popped; the trace ends with the `afterAdd` calls for the popped node's element, which is the element's own or its continuation's |
| Flow.Flow.AddTextChild | build/bindery.js:736-742 | with the corrected `cancel`, the pieces concatenate to the text child's value; the first hangs under the entry the walk stood at, and each later piece hangs in the shells of a page made during the call, at strictly rising page positions, however often the passes cancel |
| Flow.Flow.PlaceText | build/bindery.js:736-742 | the same for the newest node: the first pass, then the retries while passes cancel |
| Flow.Flow.OpeningPass | build/bindery.js:741 | the first pass over the text: the node under the entry the walk stood at, the later pieces on consecutive new pages |
| Flow.Flow.RetryAfterCancel | build/bindery.js:737-740 | after a cancelled first pass, the retries leave the text spread over pieces whose pages rise |
| Flow.Flow.RetryText | build/bindery.js:737-740 | each corrected `cancel` moves the innermost entry to a new page and adds the abandoned piece again; the pieces keep spelling the text, and their pages keep rising |
| Flow.Flow.RetryPass | build/bindery.js:737-740 | one corrected `cancel`: a page is used up, the piece given up now sits on the newest page, and the layout stays in page order |
| Flow.Flow.AddAfterMove | build/bindery.js:740 | once the entry has moved, the abandoned piece is added under it and the layout of the earlier pieces is kept |
| Flow.Flow.CancelAsWritten | build/bindery.js:737-740 | as written, after a pass that split and then cancelled: the first piece hangs under `node` on the newest page, while the second piece still hangs on an earlier page |
| Flow.Flow.ReAddAsWritten | build/bindery.js:740 | the original child, holding only the placed prefix, goes under `node` again, while the other piece keeps its home |
| Flow.Rehomed | build/bindery.js:737-740 | after the entry moved and the last piece was re-added under it, every other piece keeps its home and page, and the last piece's home is the new page's shells followed by the entry |
| Flow.LaidAppend | build/bindery.js:741 | the pieces of a later pass, on later pages, extend a layout in page order |
| Flow.HomedLaid | build/bindery.js:684-687 | pieces homed on consecutive new pages are laid out in page order |
| Flow.PlacedSpells | build/bindery.js:736-742 | a text placed this way is spelled by its pieces, the first under the entry the walk stood at |
| Flow.Flow.Lay | build/bindery.js:770-774 | the first page is made and the content laid out; the text nodes made, in the order listed, spell the content's text |
| Flow.Flow.Bind | build/bindery.js:776-785 | the returned pages follow `ReorderSlots`, and the `afterBind` rules run on them; inputs that `reorderPages` mishandles halt the run |
| Flow.Flow.Run | build/bindery.js:548-786 | when nothing halted, the text nodes made, in the order listed, spell the content's text; the pages come out in `reorderPages` order; the `afterBind` calls come last; with a page-number rule each page is numbered by its last position plus one |

## Left out

- Styles, the measuring area and the layout engine are not modelled. This covers the margins and paddings of lines 771-772 and the size of text on a page. `Page.hasOverflowed` is the oracle `overflows`.
- CSS selector matching is the oracle `matches`.
- The `throttle` scheduling is modelled as direct calls. The `done` callback and `console.log` timing are also left out.
- User hooks other than `BreakBefore` and `PageNumber` are recorded as calls only. What arbitrary code does to the state is not modelled.
- `innerText` of the flow box is read from the text of its descendant text nodes. It counts as empty exactly when every character is white space that `white-space: normal` collapses (space, tab, line feed, form feed, carriage return). Other CSS rendering rules, such as hidden elements or preserved white space, are not modelled.
- The `innerHTML` restore of lines 573 and 723 is not modelled as a string round trip. An element's node is created empty, and its children are added one by one, as the walk does.
- `Flow.Flow.MakeNextPage`: a page budget bounds the run, which the source does not have. A run that would go on forever, for example on a word wider than a page, halts with `OutOfPages`.
- `Reorder.ReorderPages`: requires that `ReorderSlots` succeeds. `Flow.Flow.Bind` halts with `ReorderFailed` on the inputs where the source writes past the end of the list (lines 840-841) or loops forever.
- `Flow.Flow.RunBeforeAdd`: states only the `beforeAdd` calls and the halting cases. It does not state where each `newPage` call falls in the trace.
- `Flow.Flow.BeforeAddRules`, `Flow.Flow.RunBeforeAddUpTo` and `Flow.Flow.AddElementChild`: the chain of turns (`Turns`) records store, flow box and footer of each turn, not the page list; the pages a turn adds (the right-hand page of a `BreakBefore`, the new page of a retry) are stated turn by turn by `Flow.Flow.RunBeforeAdd` and not carried into the chain.
- `Flow.Flow.RunBeforeAdd` and `Flow.Flow.HookAndRetry`: after a retry, the judged store `hooked` is stated only by the data it keeps and, when the hook had nothing to do, by the view seen before the first run. A `BreakBefore` that moved to a new page and was then retried leaves that store unstated, because the retry replaces it.
- `Flow.Flow.Run`: states the text spelled, the page order and the `afterBind` calls that end the trace. `walked`, the trace before those calls, is not constrained, so `Run` states no `beforeAdd` or `afterAdd` call of the walk.
- `Flow.Flow.AddElementChild`: states the element's `beforeAdd` calls on `ruled`, the trace once its turns are done, and that `ruled` extends the trace before the element. It does not state that `ruled` is a prefix of `walked` or of the final trace: the growth of the trace is not carried through the walk of the children, so the calls of one element are not placed in the trace of the whole run.
- `Flow.Flow.AddTextNode`: models the corrected splitter (see Findings). The splitter's intermediate writes to `nodeValue` are folded into the oracle `TextOver`, which reads the probe's value.
- `Pages.Page.Clone`: the "RESTORED" marker the source writes into the copy is not modelled. The copies in the new regions are stated one level deep only: their data and order. Their own descendants are copied but not stated, although the backup can stay in the book after a retry.
- `Documents.Document.CopySubtree`: states only the copy's top node, which is new, detached and holds the source's data. The descendants that `cloneNode(true)` copies are made but not stated.
- `Documents.Document.CopyChildren`: states only the direct children's copies, with their data and order. Deeper levels of the `innerHTML` copy are made but not stated.
- `ClassLists.ClassList.constructor`: only the fallback is modelled. When the element has a native `classList` (lines 1246-1248), it is returned and nothing here applies.
- `ClassLists.ClassList.SetTokens`: the `delete list[length]` of line 1322 acts on the argument and is a no-op. Stale `classList[i]` entries above the new length are kept, as in the source.
- `ClassLists.ClassList.ToString`: returns `className` and has no contract of its own.
- `ClassLists.Truthy`: the `filter` loop of lines 1326-1332 is modelled as a recursive function, not a method with a loop.
- `Rules.RegisteredUnderOwnKey`: holds of registration by value only. With the source's shared rule objects (line 153), a rule registered under two selectors reads the last one (see Findings).
- `Rules.Binder.AddRules`: registers each rule by value, which is the corrected behaviour. The source writes the selector into the rule object itself, and `BreakBefore` is a single module object (lines 2017-2024). So the engine here runs with the corrected registration.
- `TextSplit.Trunc`: this function and `TextSplit.Substr0`, `TextSplit.SubstrFrom` and `TextSplit.CharAt` count characters as code points. JavaScript's `length`, `substr` and `charAt` (lines 651-681) count UTF-16 code units, so on text outside the Basic Multilingual Plane, such as emoji, the probes and cuts differ. The as-written past-end path can then keep a lone surrogate, which is not modelled.
- `TextSplit.CharAt`: indexes code points, where `charAt` indexes UTF-16 code units.
- `TextSplit.Substr0`: takes a prefix of code points, where `substr(0, n)` takes UTF-16 code units.
- `TextSplit.SubstrFrom`: drops a prefix of code points, where `substr(pos)` drops UTF-16 code units.
- `Flow.Flow.Bind`: `reorderPages` reorders `state.pages` in place and returns the same array (lines 780, 819-849). Here the reordered list is returned as `ordered` and `pages` keeps the creation order, so `pages == old(pages)`.
- `Flow.Flow.RetryText`, `Flow.Flow.RetryPass` and `Flow.Flow.AddTextChild` model the corrected `cancel` (see Findings). It moves the innermost path entry and adds again the piece the cancelled pass gave up. The abort callback is assumed to hand over that piece.
- `Flow.Flow.AddTextChild`: places each piece after the first on a page made during the call, in rising page order. The first piece is stated only by its parent, the entry the walk stood at, not by a page.
- `Flow.Flow.AddElementNode`, `Flow.Flow.AddChildren`, `Flow.Flow.AddNextChild`, `Flow.Flow.AddChild`, `Flow.Flow.Lay` and `Flow.Flow.Run`: the text nodes made are stated as a list that spells the text. Page placement is stated only per text child, by `Flow.Flow.AddTextChild`. It is not carried through the walk. After a `beforeAdd` retry, nodes on the replaced page are on no page of `pages` but still appear in the list.
- `Flow.Flow.MoveNodeToNextPage`: the footnote moved along (line 637) is stated only by its new parent. Footnote content is otherwise not modelled.
- `pg.number` is modelled as the map `numbers` from page to number, not as an element appended to the page.
- The `parentNode` expectations of the test file apply to a later splitter API and are not modelled. The outcomes of its scenarios are.
- src/Viewer/index.js is not part of this model.

## Findings

| source | as written | input that shows it | evidently intended | confidence | as-written member | corrected member |
|---|---|---|---|---|---|---|
| build/bindery.js:659 | when the probes run past the end of the text, the loop stops and the node keeps its last probe | "Test text content" with room for 15 characters: the node keeps "Test text conte" and "nt" is lost | cut at the last word boundary, so no text is lost | not executed | SplitExamples.TailDroppedAsWritten | SplitExamples.TailKeptCorrected |
| build/bindery.js:669-680 | on blank text whose back-off meets no space (only line feeds, say), the back-off ends at or below -1, and `substr` of that negative start keeps only the last character as the remainder | "\n\n" on a page that always overflows carries over only "\n" | move the whole blank run to the next page | not executed | SplitExamples.BlankLostAsWritten | SplitExamples.BlankKeptCorrected |
| build/bindery.js:153 | `addRules` writes the selector into the shared rule object, so one object registered under two selectors ends up with the last one | `{h2: breakBefore, h3: breakBefore}` gives two rules that both read "h3" | one rule per selector | not executed | Rules.SharedRuleLosesSelector | Rules.SeparateRulesKeepSelectors |
| build/bindery.js:737-740 | after a split, the remainder node is the one that cancels, but `cancel` moves `node` and adds again `child`, which holds only the placed prefix; the remainder stays where it is | a text that is split once, whose remainder still overflows the fresh page and cancels: the prefix lands on the newest page, after the page that holds the remainder | move the innermost path entry, which holds the abandoned piece, and add that piece again, so the text stays in page order | not executed | Flow.Flow.CancelAsWritten | Flow.Flow.RetryPass |
