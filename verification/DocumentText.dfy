/** The paragraphs of a document, and why cleaning it first does not touch them. */
module DocumentText {
  import opened TextRuns

  // ---- Paragraphs of a text ----

  predicate BlankAt(s: string, i: int) {
    0 <= i && i + 1 < |s| && s[i] == s[i + 1] == '\n'
  }

  /** The first place at or after `i` where two newlines stand, or the end of the text. */
  function FindBlank(s: string, i: int): (k: int)
    requires 0 <= i <= |s|
    ensures i <= k <= |s| && (k < |s| ==> BlankAt(s, k))
    ensures forall j :: i <= j < k ==> !BlankAt(s, j)
    decreases |s| - i
  {
    if i == |s| || BlankAt(s, i) then i else FindBlank(s, i + 1)
  }

  /** There is no blank line in the text. */
  ghost predicate NoBlank(s: string) {
    forall i :: !BlankAt(s, i)
  }

  function RunEnd(s: string, i: int): (k: int)
    requires 0 <= i <= |s|
    ensures i <= k <= |s| && (k < |s| ==> s[k] != '\n')
    ensures forall j :: i <= j < k ==> s[j] == '\n'
    decreases |s| - i
  {
    if i < |s| && s[i] == '\n' then RunEnd(s, i + 1) else i
  }

  function Listed(p: string): seq<string> {
    if p == "" then [] else [p]
  }

  /** The text split at every run of two or more newlines; the parts trimmed, the empty ones left out. */
  function Paragraphs(s: string): seq<string>
    decreases |s|
  {
    var k := FindBlank(s, 0);
    if k == |s| then Listed(Strip(s))
    else
      Listed(Strip(s[..k])) + Paragraphs(s[RunEnd(s, k)..])
  }

  /** A paragraph: not empty, no white space at its ends, no blank line inside. */
  ghost predicate IsParagraph(p: string) {
    p != "" && Trimmed(p) && NoBlank(p)
  }

  ghost predicate AllParagraphs(ps: seq<string>) {
    forall p :: p in ps ==> IsParagraph(p)
  }

  /** What the source keeps of the document before splitting it. */
  function Clean(text: string): string {
    CollapseRuns(Strip(text))
  }

  lemma NoBlankInside(s: string, i: int, j: int)
    requires 0 <= i <= j <= |s| && forall k :: i <= k < j - 1 ==> !BlankAt(s, k)
    ensures forall k :: !BlankAt(s[i..j], k)
  {
    forall k ensures !BlankAt(s[i..j], k) {
      if 0 <= k && k + 1 < j - i {
        assert !BlankAt(s, i + k);
      }
    }
  }

  lemma TrimmedPart(s: string)
    requires forall k :: !BlankAt(s, k)
    ensures AllParagraphs(Listed(Strip(s)))
  {
    StripTrims(s);
    var i, j :| 0 <= i <= j <= |s| && Strip(s) == s[i..j];
    NoBlankInside(s, i, j);
  }

  lemma ThreeParts(s: string, k: int, e: int)
    requires 0 <= k <= e <= |s|
    ensures s == s[..k] + s[k..e] + s[e..]
  {
  }

  // ---- White space at the ends ----

  lemma NewlineIsSpace()
    ensures IsSpace('\n')
  {
  }

  lemma {:induction false} SpaceHasNoParagraph(s: string)
    requires AllSpace(s)
    ensures Paragraphs(s) == []
    decreases |s|
  {
    var k := FindBlank(s, 0);
    SpaceIsStripped(s);
    SpaceIsStripped(s[..k]);
    if k < |s| {
      SpaceHasNoParagraph(s[RunEnd(s, k)..]);
    }
  }

  lemma SpaceIsStripped(s: string)
    requires AllSpace(s)
    ensures Strip(s) == ""
  {
    assert SpaceEnd(s, 0) == |s|;
  }

  lemma SpaceEndIs(s: string, k: int)
    requires 0 <= k <= |s| && (forall j :: 0 <= j < k ==> IsSpace(s[j])) && (k < |s| ==> !IsSpace(s[k]))
    ensures SpaceEnd(s, 0) == k
  {
  }

  lemma SpaceStartIs(s: string, k: int)
    requires 0 <= k <= |s| && (forall j :: k <= j < |s| ==> IsSpace(s[j])) && (k > 0 ==> !IsSpace(s[k - 1]))
    ensures SpaceStart(s, |s|) == k
  {
  }

  /** White space in front of a text does not change what stripping leaves. */
  lemma StripAfterSpace(w: string, s: string)
    requires AllSpace(w)
    ensures LStrip(w + s) == LStrip(s) && Strip(w + s) == Strip(s)
  {
    SpaceEndIs(w + s, |w| + SpaceEnd(s, 0));
  }

  lemma RStripBeforeSpace(s: string, w: string)
    requires AllSpace(w)
    ensures RStrip(s + w) == RStrip(s)
  {
    SpaceStartIs(s + w, SpaceStart(s, |s|));
  }

  lemma StripBeforeSpace(s: string, w: string)
    requires AllSpace(w)
    ensures Strip(s + w) == Strip(s)
  {
    if SpaceEnd(s, 0) < |s| {
      SpaceEndIs(s + w, SpaceEnd(s, 0));
      assert LStrip(s + w) == LStrip(s) + w;
      RStripBeforeSpace(LStrip(s), w);
    } else {
      SpaceIsStripped(s);
      SpaceIsStripped(s + w);
    }
  }

  // ---- Breaks, and what is kept around them ----

  /** A text up to its first blank line, the newlines there, and the text behind them. */
  ghost predicate Broken(a: string, gap: string, b: string) {
    && NoBlank(a) && (a != "" ==> a[|a| - 1] != '\n')
    && |gap| >= 2 && (forall j :: 0 <= j < |gap| ==> gap[j] == '\n')
    && (b != "" ==> b[0] != '\n')
  }

  lemma RunEndIs(s: string, i: int, e: int)
    requires 0 <= i <= e <= |s| && (forall j :: i <= j < e ==> s[j] == '\n') && (e < |s| ==> s[e] != '\n')
    ensures RunEnd(s, i) == e
  {
  }

  lemma FindBlankIs(s: string, k: int)
    requires BlankAt(s, k) && forall j :: 0 <= j < k ==> !BlankAt(s, j)
    ensures FindBlank(s, 0) == k
  {
  }

  lemma FirstBreak(a: string, gap: string, b: string)
    requires Broken(a, gap, b)
    ensures FindBlank(a + gap + b, 0) == |a| && RunEnd(a + gap + b, |a|) == |a| + |gap|
  {
    var s := a + gap + b;
    assert s[|a|] == gap[0] && s[|a| + 1] == gap[1];
    forall j | 0 <= j < |a| ensures !BlankAt(s, j) {
      assert !BlankAt(a, j);
    }
    FindBlankIs(s, |a|);
    RunEndIs(s, |a|, |a| + |gap|);
  }

  lemma Unroll(a: string, gap: string, b: string)
    requires Broken(a, gap, b)
    ensures Paragraphs(a + gap + b) == Listed(Strip(a)) + Paragraphs(b)
  {
    var s := a + gap + b;
    FirstBreak(a, gap, b);
    assert s[..|a|] == a && s[|a| + |gap|..] == b;
  }

  lemma PartsOf(s: string) returns (a: string, gap: string, b: string)
    requires FindBlank(s, 0) < |s|
    ensures Broken(a, gap, b) && s == a + gap + b && |b| < |s|
  {
    var k := FindBlank(s, 0);
    var e := RunEnd(s, k);
    a, gap, b := s[..k], s[k..e], s[e..];
    NoBlankInside(s, 0, k);
    assert s[0..k] == a && NoBlank(a);
    assert k > 0 ==> !BlankAt(s, k - 1);
    ThreeParts(s, k, e);
  }

  lemma BlankIsFound(s: string)
    ensures FindBlank(s, 0) == |s| <==> NoBlank(s)
  {
    var k := FindBlank(s, 0);
    if k < |s| {
      assert BlankAt(s, k);
    } else {
      forall i ensures !BlankAt(s, i) {
      }
    }
  }

  lemma WholeParagraph(s: string)
    requires NoBlank(s)
    ensures Paragraphs(s) == Listed(Strip(s))
  {
    BlankIsFound(s);
  }

  lemma GapIsSpace(gap: string)
    requires forall j :: 0 <= j < |gap| ==> gap[j] == '\n'
    ensures AllSpace(gap)
  {
  }

  lemma PartHasNoBlank(s: string, i: int, j: int, part: string)
    requires 0 <= i <= j <= |s| && NoBlank(s) && part == s[i..j]
    ensures NoBlank(part)
  {
    NoBlankInside(s, i, j);
  }

  lemma StripTwice(s: string)
    ensures Strip(LStrip(s)) == Strip(s) && Strip(RStrip(s)) == Strip(s)
  {
    SpaceEndIs(LStrip(s), 0);
    assert s == RStrip(s) + s[|RStrip(s)|..];
    StripBeforeSpace(RStrip(s), s[|RStrip(s)|..]);
  }

  lemma LStripParts(a: string, gap: string, b: string)
    requires Broken(a, gap, b) && !AllSpace(a)
    ensures LStrip(a + gap + b) == LStrip(a) + gap + b && Broken(LStrip(a), gap, b)
  {
    SpaceEndIs(a + gap + b, SpaceEnd(a, 0));
    PartHasNoBlank(a, SpaceEnd(a, 0), |a|, LStrip(a));
  }

  lemma LStripBeforeBreak(a: string, gap: string, b: string)
    requires Broken(a, gap, b) && !AllSpace(a)
    ensures Paragraphs(LStrip(a + gap + b)) == Paragraphs(a + gap + b)
  {
    LStripParts(a, gap, b);
    Unroll(a, gap, b);
    Unroll(LStrip(a), gap, b);
    StripTwice(a);
  }

  /** In front of the break there is white space only. */
  lemma LStripBehindBreak(a: string, gap: string, b: string)
    requires Broken(a, gap, b) && AllSpace(a)
    ensures LStrip(a + gap + b) == LStrip(b) && Paragraphs(a + gap + b) == Paragraphs(b)
  {
    GapIsSpace(gap);
    StripAfterSpace(a + gap, b);
    SpaceIsStripped(a);
    Unroll(a, gap, b);
  }

  lemma {:induction false} LStripKeepsParagraphs(s: string)
    ensures Paragraphs(LStrip(s)) == Paragraphs(s)
    decreases |s|
  {
    BlankIsFound(s);
    if NoBlank(s) {
      PartHasNoBlank(s, SpaceEnd(s, 0), |s|, LStrip(s));
      WholeParagraph(LStrip(s));
      WholeParagraph(s);
      StripTwice(s);
    } else {
      var a, gap, b := PartsOf(s);
      if AllSpace(a) {
        LStripBehindBreak(a, gap, b);
        LStripKeepsParagraphs(b);
      } else {
        LStripBeforeBreak(a, gap, b);
      }
    }
  }

  lemma RStripParts(a: string, gap: string, b: string)
    requires Broken(a, gap, b) && !AllSpace(b)
    ensures RStrip(a + gap + b) == a + gap + RStrip(b) && Broken(a, gap, RStrip(b))
  {
    SpaceStartIs(a + gap + b, |a + gap| + SpaceStart(b, |b|));
  }

  /** Behind the break there is white space only. */
  lemma RStripBeforeBreak(a: string, gap: string, b: string)
    requires Broken(a, gap, b) && AllSpace(b)
    ensures Paragraphs(RStrip(a + gap + b)) == Listed(Strip(a)) && Paragraphs(b) == []
  {
    GapIsSpace(gap);
    assert a + gap + b == a + (gap + b);
    RStripBeforeSpace(a, gap + b);
    SpaceHasNoParagraph(b);
    PartHasNoBlank(a, 0, |RStrip(a)|, RStrip(a));
    WholeParagraph(RStrip(a));
    StripTwice(a);
  }

  lemma {:induction false} RStripKeepsParagraphs(s: string)
    ensures Paragraphs(RStrip(s)) == Paragraphs(s)
    decreases |s|
  {
    BlankIsFound(s);
    if NoBlank(s) {
      PartHasNoBlank(s, 0, |RStrip(s)|, RStrip(s));
      WholeParagraph(RStrip(s));
      WholeParagraph(s);
      StripTwice(s);
    } else {
      var a, gap, b := PartsOf(s);
      Unroll(a, gap, b);
      if AllSpace(b) {
        RStripBeforeBreak(a, gap, b);
      } else {
        RStripParts(a, gap, b);
        RStripKeepsParagraphs(b);
        Unroll(a, gap, RStrip(b));
      }
    }
  }

  lemma {:induction false} CollapseSkips(a: string, t: string, run: nat)
    requires NoBlank(a) && (a != "" ==> a[|a| - 1] != '\n')
    requires run == 0 || (run == 1 && a != "" && a[0] != '\n')
    ensures CollapseAfter(a + t, run) == a + CollapseAfter(t, 0)
  {
    if a == "" {
      assert a + t == t;
    } else {
      PartHasNoBlank(a, 1, |a|, a[1..]);
      assert !BlankAt(a, 0);
      assert (a + t)[1..] == a[1..] + t && (a + t)[0] == a[0];
      CollapseSkips(a[1..], t, if a[0] == '\n' then 1 else 0);
      assert a == [a[0]] + a[1..];
    }
  }

  lemma {:induction false} CollapseGap(gap: string, b: string, run: nat)
    requires run <= 2 && (forall j :: 0 <= j < |gap| ==> gap[j] == '\n') && |gap| + run >= 2
    requires b != "" ==> b[0] != '\n'
    ensures CollapseAfter(gap + b, run) == "\n\n"[run..] + CollapseAfter(b, 0)
  {
    if gap == "" {
      assert gap + b == b;
    } else {
      assert (gap + b)[1..] == gap[1..] + b && (gap + b)[0] == '\n';
      CollapseGap(gap[1..], b, if run < 2 then run + 1 else 2);
    }
  }

  lemma CollapseParts(a: string, gap: string, b: string)
    requires Broken(a, gap, b)
    ensures CollapseRuns(a + gap + b) == a + "\n\n" + CollapseRuns(b)
    ensures Broken(a, "\n\n", CollapseRuns(b))
  {
    assert a + gap + b == a + (gap + b);
    CollapseSkips(a, gap + b, 0);
    CollapseGap(gap, b, 0);
    assert a + ("\n\n" + CollapseRuns(b)) == a + "\n\n" + CollapseRuns(b);
  }

  lemma {:induction false} CollapseKeepsParagraphs(s: string)
    ensures Paragraphs(CollapseRuns(s)) == Paragraphs(s)
    decreases |s|
  {
    BlankIsFound(s);
    if NoBlank(s) {
      assert forall i :: TripleAt(s, i) ==> BlankAt(s, i);
      NothingToCollapse(s, 0);
    } else {
      var a, gap, b := PartsOf(s);
      Unroll(a, gap, b);
      CollapseParts(a, gap, b);
      Unroll(a, "\n\n", CollapseRuns(b));
      CollapseKeepsParagraphs(b);
    }
  }

  /** Cleaning a text changes neither its visible characters nor its paragraphs. */
  lemma CleaningKeepsParagraphs(text: string)
    ensures NonSpace(Clean(text)) == NonSpace(text)
    ensures Paragraphs(Clean(text)) == Paragraphs(text)
  {
    CollapseRunsShape(Strip(text));
    NonSpaceStrip(text);
    CollapseKeepsParagraphs(Strip(text));
    RStripKeepsParagraphs(LStrip(text));
    LStripKeepsParagraphs(text);
  }

  lemma {:induction false} CollapseKeepsLast(s: string, run: nat)
    requires s != "" && s[|s| - 1] != '\n'
    ensures var r := CollapseAfter(s, run); r != "" && r[|r| - 1] == s[|s| - 1]
  {
    if |s| > 1 {
      CollapseKeepsLast(s[1..], if s[0] != '\n' then 0 else if run < 2 then run + 1 else run);
    } else {
      assert s[1..] == "";
    }
  }

  lemma CollapseIsTrimmed(s: string)
    requires Trimmed(s)
    ensures Trimmed(CollapseRuns(s))
  {
    if s != "" {
      NewlineIsSpace();
      CollapseKeepsLast(s, 0);
    }
  }

  /** A clean text is trimmed and has no triple newline; a text that is so already is left alone. */
  lemma CleanTexts(text: string)
    ensures Trimmed(Clean(text)) && !HasTriple(Clean(text))
    ensures Trimmed(text) && !HasTriple(text) ==> Clean(text) == text
  {
    StripTrims(text);
    CollapseRunsShape(Strip(text));
    CollapseIsTrimmed(Strip(text));
    if Trimmed(text) && !HasTriple(text) {
      NothingToCollapse(text, 0);
    }
  }
}
