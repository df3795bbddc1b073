/**
 * The scenarios of src/paginate/__tests__/addTextNode.test.js, stated over the
 * splitter of build/bindery.js:645-706. Each mock page of the tests becomes an
 * oracle on the text the node holds.
 */
module SplitExamples {
  import opened TextSplit

  const Sample := "Test text content"

  /** `{ hasOverflowed: () => nodeValue.length > n }`. */
  function Capacity(n: nat): string -> bool
  {
    v => |v| > n
  }

  /** Lines 12-22 and 40-50: a page that always overflows cancels the run, which
      keeps its original text. */
  lemma ExampleAlwaysOverflows()
    ensures FirstRound(Sample, v => true) == Cancel
  {
    var over := (v: string) => true;
    assert Search(Sample, over, 0.0, 8.5, Sample) == Converged(0.53125, 0.53125) by {
      assert Search(Sample, over, 0.0, 8.5, Sample) == Search(Sample, over, 8.5, 4.25, Sample[..8]);
      assert Search(Sample, over, 8.5, 4.25, Sample[..8]) == Search(Sample, over, 4.25, 2.125, Sample[..4]);
      assert Search(Sample, over, 4.25, 2.125, Sample[..4]) == Search(Sample, over, 2.125, 1.0625, Sample[..2]);
      assert Search(Sample, over, 2.125, 1.0625, Sample[..2]) == Search(Sample, over, 1.0625, 0.53125, Sample[..1]);
    }
    assert BackOff(Sample, 0.53125) == -1.46875 by {
      assert CharAt(Sample, 0.53125) == "T";
      assert CharAt(Sample, -0.46875) == "T";
      assert CharAt(Sample, -1.46875) == "";
    }
  }

  /** Lines 24-34 and 52-62: a page that never overflows takes the run whole
      with a single query. */
  lemma ExampleNeverOverflows()
    ensures FirstRound(Sample, v => false) == Fits
    ensures FirstRoundLossless(Sample, v => false) == Fits
  {
  }

  /** Lines 64-75: a page that overflows as soon as the node holds anything
      cancels the run. */
  lemma ExampleOverflowsWhenNotEmpty()
    ensures FirstRound(Sample, v => v != "") == Cancel
  {
    var over := (v: string) => v != "";
    assert Search(Sample, over, 0.0, 8.5, Sample) == Converged(0.53125, 0.53125) by {
      assert Search(Sample, over, 0.0, 8.5, Sample) == Search(Sample, over, 8.5, 4.25, Sample[..8]);
      assert Search(Sample, over, 8.5, 4.25, Sample[..8]) == Search(Sample, over, 4.25, 2.125, Sample[..4]);
      assert Search(Sample, over, 4.25, 2.125, Sample[..4]) == Search(Sample, over, 2.125, 1.0625, Sample[..2]);
      assert Search(Sample, over, 2.125, 1.0625, Sample[..2]) == Search(Sample, over, 1.0625, 0.53125, Sample[..1]);
    }
    assert BackOff(Sample, 0.53125) == -1.46875 by {
      assert CharAt(Sample, 0.53125) == "T";
      assert CharAt(Sample, -0.46875) == "T";
      assert CharAt(Sample, -1.46875) == "";
    }
  }

  /** Lines 77-90: with room for four characters the node keeps "Test" and the
      remainder " text content" is split off. */
  lemma ExampleBreakOnWordBoundary()
    ensures FirstRound(Sample, Capacity(4)) == Split("Test", " text content", 0.53125)
  {
    var over := Capacity(4);
    assert Search(Sample, over, 0.0, 8.5, Sample) == Converged(4.78125, 0.53125) by {
      assert Search(Sample, over, 0.0, 8.5, Sample) == Search(Sample, over, 8.5, 4.25, Sample[..8]);
      assert Search(Sample, over, 8.5, 4.25, Sample[..8]) == Search(Sample, over, 4.25, 6.375, Sample[..4]);
      assert Search(Sample, over, 4.25, 6.375, Sample[..4]) == Search(Sample, over, 6.375, 5.3125, Sample[..6]);
      assert Search(Sample, over, 6.375, 5.3125, Sample[..6]) == Search(Sample, over, 5.3125, 4.78125, Sample[..5]);
    }
    assert BackOff(Sample, 4.78125) == 4.78125 by {
      assert CharAt(Sample, 4.78125) == " ";
    }
  }

  /** Lines 92-105: with room for seven characters the search stops inside
      "text" and backs up to the space, giving the same split. */
  lemma ExampleBackUpToWordBoundary()
    ensures FirstRound(Sample, Capacity(7)) == Split("Test", " text content", 0.53125)
  {
    var over := Capacity(7);
    assert Search(Sample, over, 0.0, 8.5, Sample) == Converged(7.96875, 0.53125) by {
      assert Search(Sample, over, 0.0, 8.5, Sample) == Search(Sample, over, 8.5, 4.25, Sample[..8]);
      assert Search(Sample, over, 8.5, 4.25, Sample[..8]) == Search(Sample, over, 4.25, 6.375, Sample[..4]);
      assert Search(Sample, over, 4.25, 6.375, Sample[..4]) == Search(Sample, over, 6.375, 7.4375, Sample[..6]);
      assert Search(Sample, over, 6.375, 7.4375, Sample[..6]) == Search(Sample, over, 7.4375, 7.96875, Sample[..7]);
    }
    assert BackOff(Sample, 7.96875) == 4.96875 by {
      assert CharAt(Sample, 7.96875) == "x";
      assert CharAt(Sample, 6.96875) == "e";
      assert CharAt(Sample, 5.96875) == "t";
      assert CharAt(Sample, 4.96875) == " ";
    }
  }

  /** Lines 107-118: with room for two characters the back-off passes the start
      of the first word, so the run is cancelled. */
  lemma ExampleCancelPastFirstWord()
    ensures FirstRound(Sample, Capacity(2)) == Cancel
  {
    var over := Capacity(2);
    assert Search(Sample, over, 0.0, 8.5, Sample) == Converged(2.65625, 0.53125) by {
      assert Search(Sample, over, 0.0, 8.5, Sample) == Search(Sample, over, 8.5, 4.25, Sample[..8]);
      assert Search(Sample, over, 8.5, 4.25, Sample[..8]) == Search(Sample, over, 4.25, 2.125, Sample[..4]);
      assert Search(Sample, over, 4.25, 2.125, Sample[..4]) == Search(Sample, over, 2.125, 3.1875, Sample[..2]);
      assert Search(Sample, over, 2.125, 3.1875, Sample[..2]) == Search(Sample, over, 3.1875, 2.65625, Sample[..3]);
    }
    assert BackOff(Sample, 2.65625) == -1.34375 by {
      assert CharAt(Sample, 2.65625) == "s";
      assert CharAt(Sample, 1.65625) == "e";
      assert CharAt(Sample, 0.65625) == "T";
      assert CharAt(Sample, -0.34375) == "T";
      assert CharAt(Sample, -1.34375) == "";
    }
  }

  // ----- the two discrepancies of the splitter as written -----

  /** Line 659 as written: with room for fifteen characters the probes run past
      the end, the node is left holding "Test text conte" and "nt" is lost. */
  lemma TailDroppedAsWritten()
    ensures FirstRound(Sample, Capacity(15)) == Finished("Test text conte")
  {
    var over := Capacity(15);
    assert Search(Sample, over, 0.0, 8.5, Sample) == PastEnd(Sample[..15]) by {
      assert Search(Sample, over, 0.0, 8.5, Sample) == Search(Sample, over, 8.5, 12.75, Sample[..8]);
      assert Search(Sample, over, 8.5, 12.75, Sample[..8]) == Search(Sample, over, 12.75, 14.875, Sample[..12]);
      assert Search(Sample, over, 12.75, 14.875, Sample[..12]) == Search(Sample, over, 14.875, 15.9375, Sample[..14]);
      assert Search(Sample, over, 14.875, 15.9375, Sample[..14]) == Search(Sample, over, 15.9375, 16.46875, Sample[..15]);
    }
  }

  /** The corrected guard cuts the same run at the last word boundary. */
  lemma TailKeptCorrected()
    ensures FirstRoundLossless(Sample, Capacity(15)) == Split("Test text", " content", 0.53125)
  {
    var over := Capacity(15);
    assert SearchLossless(Sample, over, 0.0, 8.5, Sample) == Converged(16.46875, 0.53125) by {
      assert SearchLossless(Sample, over, 0.0, 8.5, Sample) == SearchLossless(Sample, over, 8.5, 12.75, Sample[..8]);
      assert SearchLossless(Sample, over, 8.5, 12.75, Sample[..8]) == SearchLossless(Sample, over, 12.75, 14.875, Sample[..12]);
      assert SearchLossless(Sample, over, 12.75, 14.875, Sample[..12]) == SearchLossless(Sample, over, 14.875, 15.9375, Sample[..14]);
      assert SearchLossless(Sample, over, 14.875, 15.9375, Sample[..14]) == SearchLossless(Sample, over, 15.9375, 16.46875, Sample[..15]);
    }
    assert BackOff(Sample, 16.46875) == 9.46875 by {
      assert CharAt(Sample, 16.46875) == "t";
      assert CharAt(Sample, 15.46875) == "n";
      assert CharAt(Sample, 14.46875) == "e";
      assert CharAt(Sample, 13.46875) == "t";
      assert CharAt(Sample, 12.46875) == "n";
      assert CharAt(Sample, 11.46875) == "o";
      assert CharAt(Sample, 10.46875) == "c";
      assert CharAt(Sample, 9.46875) == " ";
    }
  }

  /** Lines 669-680 as written: a blank run with no `' '` backs off to -1.5,
      and `substr(-1.5)`, whose start truncates to -1, keeps only its last
      character; one of the two line feeds of "\n\n" is lost. */
  lemma BlankLostAsWritten()
    ensures FirstRound("\n\n", v => true) == Split("", "\n", 0.5)
  {
    var s := "\n\n";
    var over := (v: string) => true;
    assert Search(s, over, 0.0, 1.0, s) == Converged(0.5, 0.5) by {
      assert Search(s, over, 0.0, 1.0, s) == Search(s, over, 1.0, 0.5, s[..1]);
    }
    assert BackOff(s, 0.5) == -1.5 by {
      assert CharAt(s, 0.5) == "\n";
      assert CharAt(s, -0.5) == "\n";
      assert CharAt(s, -1.5) == "";
    }
    TrimEmptyIffBlank(s);
  }

  /** A blank run whose back-off meets a space loses nothing as written: on
      "  " the loop stops at 0.5 and `substr(0.5)` carries the whole run. */
  lemma SpacesKeptAsWritten()
    ensures FirstRound("  ", v => true) == Split("", "  ", 0.5)
  {
    var s := "  ";
    var over := (v: string) => true;
    assert Search(s, over, 0.0, 1.0, s) == Converged(0.5, 0.5) by {
      assert Search(s, over, 0.0, 1.0, s) == Search(s, over, 1.0, 0.5, s[..1]);
    }
    assert BackOff(s, 0.5) == 0.5 by {
      assert CharAt(s, 0.5) == " ";
    }
    TrimEmptyIffBlank(s);
  }

  /** The corrected cut moves the whole blank run to the next page. */
  lemma BlankKeptCorrected()
    ensures FirstRoundLossless("\n\n", v => true) == Split("", "\n\n", 0.5)
  {
    var s := "\n\n";
    var over := (v: string) => true;
    assert SearchLossless(s, over, 0.0, 1.0, s) == Converged(0.5, 0.5) by {
      assert SearchLossless(s, over, 0.0, 1.0, s) == SearchLossless(s, over, 1.0, 0.5, s[..1]);
    }
    assert BackOff(s, 0.5) == -1.5 by {
      assert CharAt(s, 0.5) == "\n";
      assert CharAt(s, -0.5) == "\n";
      assert CharAt(s, -1.5) == "";
    }
  }
}
