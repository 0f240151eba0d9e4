/**
 * Histogram titles (`format_title` in analysis.py): a label such as
 * "Track Length [px]" loses every "Track " and its last word, the unit.
 */
module Analysis {
  import opened PyLib

  /** The characters `str.split()` with no argument splits on. */
  predicate IsSpace(c: char)
  {
    c == ' ' || ('\t' <= c <= '\r') || ('\U{1C}' <= c <= '\U{1F}') ||
    c == '\U{85}' || c == '\U{A0}' || c == '\U{1680}' || ('\U{2000}' <= c <= '\U{200A}') ||
    c == '\U{2028}' || c == '\U{2029}' || c == '\U{202F}' || c == '\U{205F}' || c == '\U{3000}'
  }

  predicate IsWord(w: string)
  {
    w != [] && forall i :: 0 <= i < |w| ==> !IsSpace(w[i])
  }

  /** `pat` occurs in `s` at position `i`. */
  predicate OccursAt(s: string, pat: string, i: nat)
  {
    i + |pat| <= |s| && s[i..i + |pat|] == pat
  }

  /**
   * `s.replace(pat, "")`: scanning from the left, every occurrence that
   * does not overlap an earlier removed one is deleted.
   */
  function RemoveAll(s: string, pat: string): (r: string)
    requires pat != []
    ensures |r| <= |s|
    decreases |s|
  {
    if |s| < |pat| then s
    else if s[..|pat|] == pat then RemoveAll(s[|pat|..], pat)
    else [s[0]] + RemoveAll(s[1..], pat)
  }

  /** Nothing is removed from a string in which the pattern does not occur. */
  lemma {:induction false} RemoveAllAbsent(s: string, pat: string)
    requires pat != []
    requires forall i :: 0 <= i <= |s| - |pat| ==> !OccursAt(s, pat, i)
    ensures RemoveAll(s, pat) == s
    decreases |s|
  {
    if |s| >= |pat| {
      assert !OccursAt(s, pat, 0);
      forall i | 0 <= i <= |s[1..]| - |pat|
        ensures !OccursAt(s[1..], pat, i)
      {
        assert !OccursAt(s, pat, i + 1);
        assert s[1..][i..i + |pat|] == s[i + 1..i + 1 + |pat|];
      }
      RemoveAllAbsent(s[1..], pat);
    }
  }

  /**
   * When the first occurrence of the pattern follows the prefix `a`, the
   * removal keeps `a`, deletes that occurrence and goes on after it.
   */
  lemma {:induction false} RemoveAllAfterOccurrence(a: string, pat: string, b: string)
    requires pat != []
    requires forall i :: 0 <= i < |a| ==> !OccursAt(a + pat + b, pat, i)
    ensures RemoveAll(a + pat + b, pat) == a + RemoveAll(b, pat)
    decreases |a|
  {
    var s := a + pat + b;
    if a == [] {
      assert s == pat + b;
      assert s[..|pat|] == pat;
      assert s[|pat|..] == b;
    } else {
      assert !OccursAt(s, pat, 0);
      RemoveAllKeepsFirst(s, pat);
      var t := a[1..] + pat + b;
      ShiftedAbsence(a, pat, b);
      RemoveAllAfterOccurrence(a[1..], pat, b);
      PrependFirst(a, RemoveAll(b, pat));
      assert s[1..] == t;
    }
  }

  /** Where the pattern does not start the string, the first character is kept. */
  lemma RemoveAllKeepsFirst(s: string, pat: string)
    requires pat != [] && |s| >= |pat| && !OccursAt(s, pat, 0)
    ensures RemoveAll(s, pat) == [s[0]] + RemoveAll(s[1..], pat)
  {
    assert s[..|pat|] != pat;
  }

  /** No occurrence in the first `|a|` positions stays so for the tail of `a`. */
  lemma ShiftedAbsence(a: string, pat: string, b: string)
    requires a != []
    requires forall i :: 0 <= i < |a| ==> !OccursAt(a + pat + b, pat, i)
    ensures forall i :: 0 <= i < |a[1..]| ==> !OccursAt(a[1..] + pat + b, pat, i)
  {
    var s, t := a + pat + b, a[1..] + pat + b;
    assert s[1..] == t;
    forall i | 0 <= i < |a[1..]|
      ensures !OccursAt(t, pat, i)
    {
      assert !OccursAt(s, pat, i + 1);
      assert t[i..i + |pat|] == s[i + 1..i + 1 + |pat|];
    }
  }

  lemma PrependFirst(a: string, x: string)
    requires a != []
    ensures [a[0]] + (a[1..] + x) == a + x
  {
    assert a == [a[0]] + a[1..];
  }

  /** The longest prefix of `s` without whitespace. */
  function WordPrefix(s: string): (w: string)
    ensures |w| <= |s| && w == s[..|w|]
    ensures forall i :: 0 <= i < |w| ==> !IsSpace(w[i])
    ensures |w| == |s| || IsSpace(s[|w|])
  {
    if s == [] || IsSpace(s[0]) then [] else [s[0]] + WordPrefix(s[1..])
  }

  /** `s.split()`: the maximal runs of non-whitespace characters, in order. */
  function Words(s: string): (ws: seq<string>)
    decreases |s|
  {
    if s == [] then []
    else if IsSpace(s[0]) then Words(s[1..])
    else var w := WordPrefix(s); [w] + Words(s[|w|..])
  }

  /** Every piece `split` returns is a nonempty word without whitespace. */
  lemma {:induction false} WordsAreWords(s: string)
    ensures forall k :: 0 <= k < |Words(s)| ==> IsWord(Words(s)[k])
    decreases |s|
  {
    if s != [] {
      if IsSpace(s[0]) {
        WordsAreWords(s[1..]);
      } else {
        WordsAreWords(s[|WordPrefix(s)|..]);
      }
    }
  }

  /** `" ".join(ws)`. */
  function JoinSpace(ws: seq<string>): (r: string)
  {
    if ws == [] then ""
    else if |ws| == 1 then ws[0]
    else ws[0] + " " + JoinSpace(ws[1..])
  }

  lemma WordPrefixOf(w: string, rest: string)
    requires IsWord(w) && (rest == [] || IsSpace(rest[0]))
    ensures WordPrefix(w + rest) == w
    decreases |w|
  {
    if |w| > 1 {
      assert (w + rest)[1..] == w[1..] + rest;
      WordPrefixOf(w[1..], rest);
    } else {
      assert (w + rest)[1..] == rest;
    }
  }

  /**
   * Splitting a single-space join of words gives the words back: the title
   * holds exactly the kept words, separated by single spaces.
   */
  lemma {:induction false} WordsOfJoin(ws: seq<string>)
    requires forall k :: 0 <= k < |ws| ==> IsWord(ws[k])
    ensures Words(JoinSpace(ws)) == ws
  {
    if ws == [] {
    } else if |ws| == 1 {
      var s := ws[0];
      WordPrefixOf(s, []);
      assert s + [] == s;
      assert s[|s|..] == [];
    } else {
      var rest := " " + JoinSpace(ws[1..]);
      var s := ws[0] + rest;
      assert JoinSpace(ws) == s;
      WordPrefixOf(ws[0], rest);
      assert s[|ws[0]|..] == rest;
      assert rest[1..] == JoinSpace(ws[1..]);
      WordsOfJoin(ws[1..]);
    }
  }

  /** A string that is the single-space join of words splits into those words. */
  lemma WordsOfEqualJoin(s: string, ws: seq<string>)
    requires s == JoinSpace(ws) && forall k :: 0 <= k < |ws| ==> IsWord(ws[k])
    ensures Words(s) == ws
  {
    WordsOfJoin(ws);
  }

  /**
   * `format_title`: drop every "Track ", split into words, drop the last
   * word, join the rest with single spaces and append " Histogram".
   */
  function FormatTitle(caption: string): (r: string)
    ensures |r| >= |" Histogram"| && r[|r| - |" Histogram"|..] == " Histogram"
  {
    TitleWords(caption) + " Histogram"
  }

  /** The part of the title in front of " Histogram". */
  function TitleWords(caption: string): string
  {
    JoinSpace(PySlice(Words(RemoveAll(caption, "Track ")), 0, -1))
  }

  /**
   * The title's words are the caption's words, after the removal, without
   * the last one.
   */
  lemma TitleKeepsAllButLast(caption: string)
    ensures var ws := Words(RemoveAll(caption, "Track "));
      Words(TitleWords(caption)) == (if ws == [] then [] else ws[..|ws| - 1])
  {
    var ws := Words(RemoveAll(caption, "Track "));
    WordsAreWords(RemoveAll(caption, "Track "));
    var kept := PySlice(ws, 0, -1);
    assert kept == if ws == [] then [] else ws[..|ws| - 1];
    WordsOfJoin(kept);
  }

  /** The title of the length histogram. */
  lemma LengthTitle()
    ensures FormatTitle("Track Length [px]") == "Length Histogram"
  {
    var caption := "Track Length [px]";
    LengthRemoval();
    LengthWords();
    var ws := ["Length", "[px]"];
    assert Words(RemoveAll(caption, "Track ")) == ws;
    assert PySlice(ws, 0, -1) == ["Length"];
    assert TitleWords(caption) == "Length";
    LengthTail();
  }

  /** The title of the intensity histogram: a "Track " inside the label goes too. */
  lemma IntensityTitle()
    ensures FormatTitle("Mean Track Intensity [0-255]") == "Mean Intensity Histogram"
  {
    var caption, stripped := "Mean Track Intensity [0-255]", "Mean Intensity [0-255]";
    IntensityRemoval();
    IntensityWords();
    var ws := ["Mean", "Intensity", "[0-255]"];
    assert Words(RemoveAll(caption, "Track ")) == ws;
    assert PySlice(ws, 0, -1) == ["Mean", "Intensity"];
    IntensityKept();
    assert TitleWords(caption) == "Mean Intensity";
    IntensityPieces();
  }

  // ---- Proof steps of the two titles
  //
  // Each lemma below settles one fact about string literals, so that no
  // proof has to unfold the recursive string functions on a whole label.
  // They are steps of Analysis.LengthTitle and Analysis.IntensityTitle and
  // state nothing of their own about the program.

  lemma LengthRemoval()
    ensures RemoveAll("Track Length [px]", "Track ") == "Length [px]"
  {
    LengthPieces();
    LacksTConcat("Length", " [px]");
    StripLeadingTrack("Length [px]");
  }

  /** The literal pieces the length title is assembled from. */
  lemma LengthPieces()
    ensures "Track Length [px]" == "Track " + "Length [px]"
    ensures "Length [px]" == "Length" + " [px]"
    ensures LacksT("Length") && LacksT(" [px]")
  {
    LengthCaption();
  }

  lemma LengthCaption()
    ensures "Track Length [px]" == "Track " + "Length [px]"
  {
  }

  lemma LengthTail()
    ensures "Length" + " Histogram" == "Length Histogram"
  {
  }

  lemma StripLeadingTrack(rest: string)
    requires LacksT(rest)
    ensures RemoveAll("Track " + rest, "Track ") == rest
  {
    RemoveAllAfterOccurrence([], "Track ", rest);
    assert [] + "Track " + rest == "Track " + rest;
    RemoveAllAbsentSimple(rest);
  }

  lemma LengthWords()
    ensures Words("Length [px]") == ["Length", "[px]"]
  {
    var ws := ["Length", "[px]"];
    PrintableWord(ws[0]);
    PrintableWord(ws[1]);
    assert JoinSpace(ws) == "Length [px]";
    WordsOfJoin(ws);
  }

  /** The literal pieces the intensity title is assembled from. */
  lemma IntensityPieces()
    ensures "Mean Intensity" + " Histogram" == "Mean Intensity Histogram"
    ensures "Mean " + "Intensity [0-255]" == "Mean Intensity [0-255]"
    ensures "Intensity" + " [0-255]" == "Intensity [0-255]"
    ensures LacksT("Intensity") && LacksT(" [0-255]")
  {
    IntensityTail();
    IntensityJoined();
    IntensityUnit();
    IntensityLacksT();
  }

  lemma IntensityKept()
    ensures JoinSpace(["Mean", "Intensity"]) == "Mean Intensity"
  {
    assert JoinSpace(["Intensity"]) == "Intensity";
  }

  lemma IntensityTail()
    ensures "Mean Intensity" + " Histogram" == "Mean Intensity Histogram"
  {
  }

  lemma IntensityJoined()
    ensures "Mean " + "Intensity [0-255]" == "Mean Intensity [0-255]"
  {
  }

  lemma IntensityUnit()
    ensures "Intensity" + " [0-255]" == "Intensity [0-255]"
  {
  }

  lemma IntensityLacksT()
    ensures LacksT("Intensity") && LacksT(" [0-255]")
  {
    IntensityNameLacksT();
    IntensityUnitLacksT();
  }

  lemma IntensityNameLacksT()
    ensures LacksT("Intensity")
  {
  }

  lemma IntensityUnitLacksT()
    ensures LacksT(" [0-255]")
  {
  }

  lemma IntensityRemoval()
    ensures RemoveAll("Mean Track Intensity [0-255]", "Track ") == "Mean Intensity [0-255]"
  {
    var a, rest := "Mean ", "Intensity [0-255]";
    var s := a + "Track " + rest;
    assert s == "Mean Track Intensity [0-255]";
    forall i | 0 <= i < |a|
      ensures !OccursAt(s, "Track ", i)
    {
      assert s[i..i + 6][0] == s[i];
    }
    RemoveAllAfterOccurrence(a, "Track ", rest);
    IntensityPieces();
    LacksTConcat("Intensity", " [0-255]");
    RemoveAllAbsentSimple(rest);
  }

  lemma IntensityWords()
    ensures Words("Mean Intensity [0-255]") == ["Mean", "Intensity", "[0-255]"]
  {
    IntensityWordsAreWords();
    IntensityJoin();
    WordsOfEqualJoin("Mean Intensity [0-255]", ["Mean", "Intensity", "[0-255]"]);
  }

  lemma IntensityWordsAreWords()
    ensures IsWord("Mean") && IsWord("Intensity") && IsWord("[0-255]")
  {
    MeanIsWord();
    IntensityIsWord();
    UnitIsWord();
  }

  lemma MeanIsWord()
    ensures IsWord("Mean")
  {
    PrintableWord("Mean");
  }

  lemma IntensityIsWord()
    ensures IsWord("Intensity")
  {
    PrintableWord("Intensity");
  }

  lemma UnitIsWord()
    ensures IsWord("[0-255]")
  {
    PrintableWord("[0-255]");
  }

  lemma IntensityJoin()
    ensures JoinSpace(["Mean", "Intensity", "[0-255]"]) == "Mean Intensity [0-255]"
  {
    var ws := ["Mean", "Intensity", "[0-255]"];
    assert ws[1..] == ["Intensity", "[0-255]"];
    assert ws[1..][1..] == ["[0-255]"];
    assert JoinSpace(ws) == "Mean" + " " + ("Intensity" + " " + "[0-255]");
    IntensitySpaced();
  }

  lemma IntensitySpaced()
    ensures "Mean" + " " + ("Intensity" + " " + "[0-255]") == "Mean Intensity [0-255]"
  {
  }

  /** Every character of `w` is visible ASCII, checked one character at a time. */
  predicate Printable(w: string)
  {
    w == [] || ('!' <= w[0] <= '~' && Printable(w[1..]))
  }

  lemma {:induction false} PrintableWord(w: string)
    requires w != [] && Printable(w)
    ensures IsWord(w)
  {
    PrintableChars(w);
  }

  lemma {:induction false} PrintableChars(w: string)
    requires Printable(w)
    ensures forall i :: 0 <= i < |w| ==> '!' <= w[i] <= '~'
  {
    if w != [] {
      PrintableChars(w[1..]);
      assert forall i :: 1 <= i < |w| ==> w[i] == w[1..][i - 1];
    }
  }

  /** `s` has no letter 'T', checked one character at a time. */
  predicate LacksT(s: string)
  {
    s == [] || (s[0] != 'T' && LacksT(s[1..]))
  }

  lemma {:induction false} LacksTChars(s: string)
    requires LacksT(s)
    ensures forall i :: 0 <= i < |s| ==> s[i] != 'T'
  {
    if s != [] {
      LacksTChars(s[1..]);
      assert forall i :: 1 <= i < |s| ==> s[i] == s[1..][i - 1];
    }
  }

  lemma {:induction false} LacksTConcat(a: string, b: string)
    ensures LacksT(a + b) <==> LacksT(a) && LacksT(b)
  {
    if a != [] {
      assert (a + b)[1..] == a[1..] + b;
      LacksTConcat(a[1..], b);
    } else {
      assert a + b == b;
    }
  }

  /** A string without the letter 'T' contains no "Track ". */
  lemma RemoveAllAbsentSimple(s: string)
    requires LacksT(s)
    ensures RemoveAll(s, "Track ") == s
  {
    LacksTChars(s);
    forall i | 0 <= i <= |s| - |"Track "|
      ensures !OccursAt(s, "Track ", i)
    {
      assert s[i..i + 6][0] == s[i];
    }
    RemoveAllAbsent(s, "Track ");
  }
}
