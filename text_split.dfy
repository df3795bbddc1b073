/**
 * The text splitter of `addTextNode` (build/bindery.js:645-706), as pure
 * functions of the original text and of the overflow oracle seen through the
 * text node: `over(v)` answers "does the page overflow while the node holds v?".
 *
 * Probe positions are JavaScript numbers: they start at `length / 2` and move
 * by halves of the previous distance, so every value is a dyadic rational and
 * is held exactly by a `real` here. `substr` and `charAt` truncate them toward
 * zero (`Trunc`).
 */
module TextSplit {
  import opened Common

  // ----- JavaScript conversions and string operations -----

  /** `ToIntegerOrInfinity` on a finite number: truncation toward zero. */
  function Trunc(x: real): int
  {
    if x >= 0.0 then x.Floor else -((-x).Floor)
  }

  function Clamp(k: int, lo: int, hi: int): int
    requires lo <= hi
  {
    if k < lo then lo else if k > hi then hi else k
  }

  /** `s.substr(0, n)`. */
  function Substr0(s: string, n: real): string
  {
    s[..Clamp(Trunc(n), 0, |s|)]
  }

  /** `s.substr(start)`; a negative start counts back from the end. */
  function SubstrFrom(s: string, start: real): string
  {
    var k := Trunc(start);
    s[(if k < 0 then Max(|s| + k, 0) else Min(k, |s|))..]
  }

  /** `s.charAt(x)`: a one-character string, or "" outside the string. */
  function CharAt(s: string, x: real): string
  {
    var k := Trunc(x);
    if 0 <= k < |s| then [s[k]] else ""
  }

  /** The WhiteSpace and LineTerminator code points that `String.prototype.trim` strips. */
  predicate IsJsSpace(c: char)
  {
    c == '\t' || c == '\n' || c == '\U{B}' || c == '\U{C}' || c == '\r' || c == ' '
    || c == '\U{A0}' || c == '\U{1680}' || ('\U{2000}' <= c <= '\U{200A}')
    || c == '\U{2028}' || c == '\U{2029}' || c == '\U{202F}' || c == '\U{205F}'
    || c == '\U{3000}' || c == '\U{FEFF}'
  }

  predicate IsBlank(s: string)
  {
    forall i | 0 <= i < |s| :: IsJsSpace(s[i])
  }

  function TrimStart(s: string): (r: string)
    ensures r == [] || !IsJsSpace(r[0])
  {
    if s != [] && IsJsSpace(s[0]) then TrimStart(s[1..]) else s
  }

  function TrimEnd(s: string): string
  {
    if s != [] && IsJsSpace(s[|s| - 1]) then TrimEnd(s[..|s| - 1]) else s
  }

  /** `s.trim()`. */
  function Trim(s: string): string
  {
    TrimEnd(TrimStart(s))
  }

  lemma {:induction false} TrimStartEmpty(s: string)
    ensures TrimStart(s) == [] <==> IsBlank(s)
  {
    if s != [] && IsJsSpace(s[0]) {
      TrimStartEmpty(s[1..]);
      assert IsBlank(s) <==> IsBlank(s[1..]) by {
        if IsBlank(s[1..]) {
          forall i | 0 <= i < |s| ensures IsJsSpace(s[i]) {
            if i > 0 { assert s[i] == s[1..][i - 1]; }
          }
        }
      }
    }
  }

  lemma {:induction false} TrimEndOfNonBlank(s: string)
    requires s != [] && !IsJsSpace(s[0])
    ensures TrimEnd(s) != []
  {
    if IsJsSpace(s[|s| - 1]) {
      assert |s| > 1;
      TrimEndOfNonBlank(s[..|s| - 1]);
    }
  }

  /** `s.trim().length > 0` exactly when `s` holds a character that is not white space. */
  lemma TrimEmptyIffBlank(s: string)
    ensures |Trim(s)| == 0 <==> IsBlank(s)
  {
    TrimStartEmpty(s);
    if TrimStart(s) != [] {
      TrimEndOfNonBlank(TrimStart(s));
    }
  }

  // ----- the binary search over the probe position (lines 655-700) -----

  /** How a run of `step` calls ends before the word-boundary back-off. */
  datatype SearchEnd =
    | PastEnd(value: string)            // the guard at line 659: done, the node keeps `value`
    | Converged(pos: real, dist: real)  // the probe distance fell below 1 (line 665)

  /** A bound on the halvings left before the distance falls below 1. */
  function Halvings(d: real): nat
  {
    if d < 1.0 then 0 else d.Floor
  }

  lemma HalvingsShrink(d: real)
    requires d >= 1.0
    ensures Halvings(d / 2.0) < Halvings(d)
  {
    if d / 2.0 >= 1.0 {
      assert (d / 2.0).Floor as real <= d / 2.0;
      assert d.Floor as real > d - 1.0;
    }
  }

  /** The probe sequence as the source writes it: `value` is what the node held
      on entry (the whole text on the first call). */
  function Search(s: string, over: string -> bool, lastPos: real, pos: real, value: string): SearchEnd
    decreases Halvings(Abs(lastPos - pos))
  {
    var dist := Abs(lastPos - pos);
    if pos > |s| as real - 1.0 then PastEnd(value)
    else if dist < 1.0 then Converged(pos, dist)
    else
      var v := Substr0(s, pos);
      var next := if over(v) then pos - dist / 2.0 else pos + dist / 2.0;
      HalvingsShrink(dist);
      assert Abs(pos - next) == dist / 2.0;
      Search(s, over, pos, next, v)
  }

  /** The back-off loop at line 669: step left until a literal `' '` or a position at or below -1. */
  function BackOff(s: string, x: real): (r: real)
    ensures r <= x
    ensures r <= -1.0 || CharAt(s, r) == " "
    decreases if x > -1.0 then (x + 1.0).Floor + 1 else 0
  {
    if CharAt(s, x) != " " && x > -1.0 then BackOff(s, x - 1.0) else x
  }

  /** What one pass of the splitter does with the text it holds. */
  datatype Round =
    | Fits                                                  // lines 703-705
    | Finished(value: string)                               // lines 659-661
    | Cancel                                                // lines 671-675
    | Split(placed: string, remainder: string, dist: real)  // lines 678-687

  /** The decision after the back-off, as written (lines 671-680). */
  function Decide(s: string, p: real, dist: real): Round
  {
    if p < 1.0 && |Trim(s)| > 0 then Cancel
    else Split(Substr0(s, p), SubstrFrom(s, p), dist)
  }

  /** The first pass of `addTextNode` over a text node holding `s`, as written. */
  function FirstRound(s: string, over: string -> bool): Round
  {
    if !over(s) then Fits
    else match Search(s, over, 0.0, |s| as real / 2.0, s)
      case PastEnd(v) => Finished(v)
      case Converged(pos, dist) => Decide(s, BackOff(s, pos), dist)
  }

  // ----- the corrected splitter used by the engine -----

  /** The probe sequence with the guard at line 659 corrected: running past the
      end once a probe has been made is treated like convergence, so the text is
      cut at a word boundary instead of being left truncated at the last probe.
      Without any probe (a text shorter than two characters) the node keeps the
      whole text, as in the source. */
  function SearchLossless(s: string, over: string -> bool, lastPos: real, pos: real, value: string): (r: SearchEnd)
    ensures r.PastEnd? ==> r.value == s
    decreases Halvings(Abs(lastPos - pos))
  {
    var dist := Abs(lastPos - pos);
    if pos > |s| as real - 1.0 && value == s then PastEnd(value)
    else if dist < 1.0 || pos > |s| as real - 1.0 then Converged(pos, dist)
    else
      var v := Substr0(s, pos);
      var next := if over(v) then pos - dist / 2.0 else pos + dist / 2.0;
      HalvingsShrink(dist);
      assert Abs(pos - next) == dist / 2.0;
      SearchLossless(s, over, pos, next, v)
  }

  /** The cut at the backed-off position `p`, clamped into the text on both
      sides, so that nothing before or after the cut is dropped. */
  function Cut(s: string, p: real): (k: nat)
    ensures k <= |s|
  {
    Clamp(Trunc(p), 0, |s|)
  }

  /** The decision of lines 671-680 with the remainder taken from the same cut as
      the placed prefix. */
  function DecideLossless(s: string, p: real, dist: real): (r: Round)
    ensures r.Split? ==> r.placed + r.remainder == s
    ensures r.Cancel? <==> p < 1.0 && !IsBlank(s)
  {
    TrimEmptyIffBlank(s);
    if p < 1.0 && |Trim(s)| > 0 then Cancel
    else Split(s[..Cut(s, p)], s[Cut(s, p)..], dist)
  }

  /** One run of `step` from the given probe state to its end, corrected. */
  function StepLossless(s: string, over: string -> bool, lastPos: real, pos: real, value: string): Round
  {
    match SearchLossless(s, over, lastPos, pos, value)
    case PastEnd(v) => Finished(v)
    case Converged(p, dist) => DecideLossless(s, BackOff(s, p), dist)
  }

  /** The first pass of the corrected splitter over a text node holding `s`. */
  function FirstRoundLossless(s: string, over: string -> bool): Round
  {
    if !over(s) then Fits else StepLossless(s, over, 0.0, |s| as real / 2.0, s)
  }

  /** The pass over a remainder `r` placed on a fresh page after a split whose
      search ended at distance `dist` (lines 682-700): `pos` is reset to 0 but
      the distance is not, so the next probe is at `-dist / 2`. */
  function ResumeRound(r: string, over: string -> bool, dist: real): Round
  {
    if !over(r) then Fits else StepLossless(r, over, 0.0, -dist / 2.0, r)
  }

  // ----- properties of the splitter -----

  /** Every character the back-off stepped over is not a space: the search for a
      boundary only gives up when none exists between the start and the probe. */
  lemma {:induction false} BackOffSkipsNoSpace(s: string, x: real)
    ensures forall k | Trunc(BackOff(s, x)) < k <= Trunc(x) && 0 <= k < |s| :: s[k] != ' '
    decreases if x > -1.0 then (x + 1.0).Floor + 1 else 0
  {
    if CharAt(s, x) != " " && x > -1.0 {
      BackOffSkipsNoSpace(s, x - 1.0);
      assert Trunc(x) <= Trunc(x - 1.0) + 1;
      if 0 <= Trunc(x) < |s| {
        assert s[Trunc(x)] != ' ' by { assert CharAt(s, x) == [s[Trunc(x)]]; }
      }
    }
  }

  /** A back-off that stops above -1 stopped on a space. */
  lemma BackOffLandsOnSpace(s: string, x: real)
    requires BackOff(s, x) > -1.0
    ensures 0 <= Trunc(BackOff(s, x)) < |s| && s[Trunc(BackOff(s, x))] == ' '
  {
    var p := BackOff(s, x);
    assert CharAt(s, p) == " ";
  }

  /** Lines 669-687: the text is cut losslessly, and a text that is not blank is
      cut just before a space that is not its first character. */
  lemma SplitAtWordBoundary(s: string, over: string -> bool, lastPos: real, pos: real, value: string)
    requires StepLossless(s, over, lastPos, pos, value).Split?
    ensures StepLossless(s, over, lastPos, pos, value).placed + StepLossless(s, over, lastPos, pos, value).remainder == s
    ensures !IsBlank(s) ==>
      var r := StepLossless(s, over, lastPos, pos, value);
      1 <= |r.placed| && r.remainder != [] && r.remainder[0] == ' '
  {
    var Converged(p, dist) := SearchLossless(s, over, lastPos, pos, value);
    var b := BackOff(s, p);
    if !IsBlank(s) {
      assert b >= 1.0;
      BackOffLandsOnSpace(s, p);
      assert Cut(s, b) == Trunc(b);
    }
  }

  /** Lines 671-675: cancelling happens only for a text that is not blank and
      has no space anywhere between its second character and the final probe. */
  lemma CancelOnlyWithoutBoundary(s: string, over: string -> bool, lastPos: real, pos: real, value: string)
    requires StepLossless(s, over, lastPos, pos, value).Cancel?
    ensures !IsBlank(s)
    ensures SearchLossless(s, over, lastPos, pos, value).Converged?
    ensures forall k | 1 <= k <= Trunc(SearchLossless(s, over, lastPos, pos, value).pos) && k < |s| :: s[k] != ' '
  {
    var Converged(p, dist) := SearchLossless(s, over, lastPos, pos, value);
    BackOffSkipsNoSpace(s, p);
    assert Trunc(BackOff(s, p)) <= 0;
  }

  /** Once a probe has been made the corrected search never reports the end. */
  lemma {:induction false} NoPastEndAfterProbe(s: string, over: string -> bool, lastPos: real, pos: real, value: string)
    requires value != s && s != []
    ensures SearchLossless(s, over, lastPos, pos, value).Converged?
    decreases Halvings(Abs(lastPos - pos))
  {
    var dist := Abs(lastPos - pos);
    if !(pos > |s| as real - 1.0) && dist >= 1.0 {
      var v := Substr0(s, pos);
      assert |v| < |s| by {
        if pos >= 0.0 { assert pos.Floor as real <= pos; }
      }
      var next := if over(v) then pos - dist / 2.0 else pos + dist / 2.0;
      HalvingsShrink(dist);
      assert Abs(pos - next) == dist / 2.0;
      NoPastEndAfterProbe(s, over, pos, next, v);
    }
  }

  /** Lines 649-661, 703-705: a run that fits is placed whole, and a run shorter
      than two characters is never cut. */
  lemma NoLossWithoutCut(s: string, over: string -> bool)
    ensures FirstRoundLossless(s, over).Finished? ==> FirstRoundLossless(s, over).value == s && |s| < 2
    ensures !over(s) <==> FirstRoundLossless(s, over).Fits?
  {
    if over(s) && FirstRoundLossless(s, over).Finished? {
      var half := |s| as real / 2.0;
      if |s| >= 2 {
        assert Abs(0.0 - half) == half;
        assert !(half > |s| as real - 1.0);
        assert half >= 1.0;
        var v := Substr0(s, half);
        assert |v| < |s| by { assert half.Floor as real <= half; }
        var next := if over(v) then half - half / 2.0 else half + half / 2.0;
        NoPastEndAfterProbe(s, over, half, next, v);
      }
    }
  }

  /** Lines 682-700: once a split has happened, a remainder that is not blank
      and still overflows the fresh page is never cut again: the next probe sits
      before its first character, so the pass cancels. */
  lemma ResumeCancels(r: string, over: string -> bool, dist: real)
    requires 0.0 <= dist < 1.0 && over(r) && !IsBlank(r)
    ensures ResumeRound(r, over, dist) == Cancel
  {
    assert r != [];
    var pos := -dist / 2.0;
    assert Abs(0.0 - pos) < 1.0;
    assert SearchLossless(r, over, 0.0, pos, r) == Converged(pos, Abs(0.0 - pos));
    var b := BackOff(r, pos);
    assert b <= pos < 1.0;
  }

  /** The search as written and the corrected search agree except where the
      written one stops past the end after probing. */
  lemma {:induction false} SearchesAgree(s: string, over: string -> bool, lastPos: real, pos: real, value: string)
    ensures Search(s, over, lastPos, pos, value) == SearchLossless(s, over, lastPos, pos, value)
         || (Search(s, over, lastPos, pos, value).PastEnd? && Search(s, over, lastPos, pos, value).value != s)
    decreases Halvings(Abs(lastPos - pos))
  {
    var dist := Abs(lastPos - pos);
    if !(pos > |s| as real - 1.0) && dist >= 1.0 {
      var v := Substr0(s, pos);
      var next := if over(v) then pos - dist / 2.0 else pos + dist / 2.0;
      HalvingsShrink(dist);
      assert Abs(pos - next) == dist / 2.0;
      SearchesAgree(s, over, pos, next, v);
    }
  }

  /** On a text that is not blank the corrected splitter only differs from the
      written one where the latter drops the tail (lines 659-661). */
  lemma LosslessAgrees(s: string, over: string -> bool)
    requires !IsBlank(s)
    ensures FirstRound(s, over) == FirstRoundLossless(s, over)
         || (FirstRound(s, over).Finished? && FirstRound(s, over).value != s)
  {
    if over(s) {
      var half := |s| as real / 2.0;
      var written, lossless := Search(s, over, 0.0, half, s), SearchLossless(s, over, 0.0, half, s);
      SearchesAgree(s, over, 0.0, half, s);
      assert FirstRoundLossless(s, over) == StepLossless(s, over, 0.0, half, s);
      if written.Converged? {
        assert written == lossless;
        DecideAgrees(s, written.pos, written.dist);
        assert FirstRound(s, over) == Decide(s, BackOff(s, written.pos), written.dist);
      } else {
        assert FirstRound(s, over) == Finished(written.value);
      }
    }
  }

  /** Where the search converges, both splitters cut a text that is not blank
      at the same place. */
  lemma DecideAgrees(s: string, p: real, dist: real)
    requires !IsBlank(s)
    ensures Decide(s, BackOff(s, p), dist) == DecideLossless(s, BackOff(s, p), dist)
  {
    var b := BackOff(s, p);
    TrimEmptyIffBlank(s);
    if b >= 1.0 {
      BackOffLandsOnSpace(s, p);
      assert Trunc(b) >= 1;
      assert SubstrFrom(s, b) == s[Cut(s, b)..];
    }
  }


  // ----- the loops of `step` -----

  /** The back-off loop of line 669, stepping `pos` down one at a time. */
  method BackOffToSpace(s: string, x: real) returns (p: real)
    ensures p == BackOff(s, x)
    ensures p <= x && (p <= -1.0 || CharAt(s, p) == " ")
  {
    p := x;
    while CharAt(s, p) != " " && p > -1.0
      invariant BackOff(s, p) == BackOff(s, x)
      decreases if p > -1.0 then (p + 1.0).Floor + 1 else 0
    {
      p := p - 1.0;
    }
  }

  /** One probe of the corrected search: the node takes the prefix up to
      `pos` and the search goes on from `next`. */
  lemma ProbeStep(s: string, over: string -> bool, lastPos: real, pos: real, value: string, next: real)
    requires !(pos > |s| as real - 1.0 && value == s)
    requires Abs(lastPos - pos) >= 1.0 && pos <= |s| as real - 1.0
    requires next == if over(Substr0(s, pos)) then pos - Abs(lastPos - pos) / 2.0 else pos + Abs(lastPos - pos) / 2.0
    ensures StepLossless(s, over, lastPos, pos, value) == StepLossless(s, over, pos, next, Substr0(s, pos))
  {
    assert SearchLossless(s, over, lastPos, pos, value) == SearchLossless(s, over, pos, next, Substr0(s, pos));
  }

  /** The probe loop of `step` (lines 655-700, with the guard at 659 corrected):
      starting from the probe state (`lastPos`, `pos`) with the node holding
      `value`, it queries `over` on successive prefixes until the search ends. */
  method Probe(s: string, over: string -> bool, lastPos: real, pos: real, value: string) returns (r: Round)
    ensures r == StepLossless(s, over, lastPos, pos, value)
    ensures r.Split? ==> r.placed + r.remainder == s
    ensures r.Finished? ==> r.value == s
    ensures r.Cancel? ==> !IsBlank(s)
  {
    var last, cur, held := lastPos, pos, value;
    while true
      invariant StepLossless(s, over, last, cur, held) == StepLossless(s, over, lastPos, pos, value)
      decreases Halvings(Abs(last - cur))
    {
      var dist := Abs(last - cur);
      if cur > |s| as real - 1.0 && held == s {
        return Finished(held);
      }
      held := Substr0(s, cur);
      if dist < 1.0 || cur > |s| as real - 1.0 {
        var p := BackOffToSpace(s, cur);
        return DecideLossless(s, p, dist);
      }
      var next := if over(held) then cur - dist / 2.0 else cur + dist / 2.0;
      ProbeStep(s, over, last, cur, held, next);
      HalvingsShrink(dist);
      assert Abs(cur - next) == dist / 2.0;
      last, cur := cur, next;
    }
  }
  /** The first pass over a text node holding `s` once it has been appended
      (lines 653-705): no probe when it fits, the probe loop otherwise. */
  method FirstPass(s: string, over: string -> bool) returns (r: Round)
    ensures r == FirstRoundLossless(s, over)
    ensures r.Split? ==> r.placed + r.remainder == s
    ensures r.Finished? ==> r.value == s
    ensures r.Cancel? ==> !IsBlank(s)
  {
    if !over(s) {
      return Fits;
    }
    r := Probe(s, over, 0.0, |s| as real / 2.0, s);
  }

  /** The pass over the remainder `rest` on the next page after a split that
      ended at distance `dist` (lines 682-700). */
  method ResumePass(rest: string, over: string -> bool, dist: real) returns (r: Round)
    ensures r == ResumeRound(rest, over, dist)
    ensures r.Split? ==> r.placed + r.remainder == rest
    ensures r.Finished? ==> r.value == rest
    ensures r.Cancel? ==> !IsBlank(rest)
  {
    if !over(rest) {
      return Fits;
    }
    r := Probe(rest, over, 0.0, -dist / 2.0, rest);
  }
}
