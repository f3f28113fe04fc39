/** Splitting of long plain-text replies into messages of bounded length. */
module MessageSplitter {
  import opened Numbers
  import opened TextRuns

  const TELEGRAM_MAX_TEXT_LEN := 4096
  const SAFE_PLAIN_TEXT_CHUNK_LEN := 3900

  // ---- Normalisation ----

  /** `replace("\r\n", "\n")` */
  function ReplaceCrLf(s: string): string {
    if s == "" then ""
    else if |s| >= 2 && s[0] == '\r' && s[1] == '\n' then "\n" + ReplaceCrLf(s[2..])
    else [s[0]] + ReplaceCrLf(s[1..])
  }

  /** `replace("\r", "\n")` */
  function ReplaceCr(s: string): (r: string)
    ensures |r| == |s| && forall i :: 0 <= i < |s| ==> r[i] == if s[i] == '\r' then '\n' else s[i]
  {
    seq(|s|, i requires 0 <= i < |s| => if s[i] == '\r' then '\n' else s[i])
  }

  /** `replace("\n\n\n", "\n\n")`: one pass over non-overlapping occurrences, left to right. */
  function ReplaceTriples(s: string): string {
    if |s| < 3 then s
    else if s[0] == s[1] == s[2] == '\n' then "\n\n" + ReplaceTriples(s[3..])
    else [s[0]] + ReplaceTriples(s[1..])
  }

  /** What normalisation amounts to: unified line ends, runs cut to two newlines, trimmed. */
  function Normalized(text: string): string {
    Strip(CollapseRuns(ReplaceCr(ReplaceCrLf(text))))
  }

  lemma {:induction false} TriplePassKeepsMeaning(s: string, run: nat)
    requires run <= 2
    ensures CollapseAfter(ReplaceTriples(s), run) == CollapseAfter(s, run)
  {
    if |s| >= 3 {
      if s[0] == s[1] == s[2] == '\n' {
        TriplePassKeepsMeaning(s[3..], 2);
        var r := "\n\n" + ReplaceTriples(s[3..]);
        assert r[2..] == ReplaceTriples(s[3..]);
        assert s[2..][1..] == s[3..];
        assert CollapseAfter(s[2..], 2) == CollapseAfter(s[3..], 2);
      } else {
        var next := if s[0] != '\n' then 0 else if run < 2 then run + 1 else run;
        TriplePassKeepsMeaning(s[1..], next);
        var r := [s[0]] + ReplaceTriples(s[1..]);
        assert r[1..] == ReplaceTriples(s[1..]);
      }
    }
  }

  lemma {:induction false} TriplePassShrinks(s: string)
    ensures |ReplaceTriples(s)| <= |s|
    ensures HasTriple(s) ==> |ReplaceTriples(s)| < |s|
  {
    if |s| >= 3 {
      if s[0] == s[1] == s[2] == '\n' {
        TriplePassShrinks(s[3..]);
      } else {
        TriplePassShrinks(s[1..]);
        assert s == [s[0]] + s[1..];
        TripleCons(s[0], s[1..]);
      }
    }
  }

  method NormalizeMessageText(text: string) returns (value: string)
    ensures value == Normalized(text)
  {
    value := ReplaceCr(ReplaceCrLf(text));
    ghost var unified := value;
    while HasTriple(value)
      invariant CollapseRuns(value) == CollapseRuns(unified)
      decreases |value|
    {
      TriplePassKeepsMeaning(value, 0);
      TriplePassShrinks(value);
      value := ReplaceTriples(value);
    }
    NothingToCollapse(value, 0);
    value := Strip(value);
  }

  lemma {:induction false} CollapseAddsNothing(s: string, run: nat, c: char)
    ensures c !in s ==> c !in CollapseAfter(s, run)
  {
    if s != "" {
      CollapseAddsNothing(s[1..], if s[0] != '\n' then 0 else if run < 2 then run + 1 else run, c);
    }
  }

  lemma {:induction false} NoCrNoChange(s: string)
    requires '\r' !in s
    ensures ReplaceCrLf(s) == s && ReplaceCr(s) == s
  {
    if s != "" {
      NoCrNoChange(s[1..]);
    }
  }

  /** A normalised text is trimmed, has no carriage return and no three newlines in a row. */
  lemma NormalizedShape(text: string)
    ensures Trimmed(Normalized(text)) && '\r' !in Normalized(text) && !HasTriple(Normalized(text))
  {
    var u := ReplaceCr(ReplaceCrLf(text));
    assert '\r' !in u;
    CollapseRunsShape(u);
    CollapseAddsNothing(u, 0, '\r');
    StripKeepsOut(CollapseRuns(u), '\r');
  }

  lemma StripKeepsOut(s: string, c: char)
    requires c !in s && !HasTriple(s)
    ensures Trimmed(Strip(s)) && c !in Strip(s) && !HasTriple(Strip(s))
  {
    StripTrims(s);
    var i, j :| 0 <= i <= j <= |s| && Strip(s) == s[i..j];
    SubstringNoTriple(s, i, j);
  }

  lemma NormalizeIsIdempotent(text: string)
    ensures Normalized(Normalized(text)) == Normalized(text)
  {
    NormalizedShape(text);
    NoCrNoChange(Normalized(text));
    NothingToCollapse(Normalized(text), 0);
    StripTrims(Normalized(text));
  }

  lemma {:induction false} CrLfKeepsVisible(s: string)
    ensures NonSpace(ReplaceCrLf(s)) == NonSpace(s)
  {
    if s != "" {
      assert s == [s[0]] + s[1..];
      if |s| >= 2 && s[0] == '\r' && s[1] == '\n' {
        CrLfKeepsVisible(s[2..]);
        assert s[1..] == ['\n'] + s[2..];
      } else {
        CrLfKeepsVisible(s[1..]);
      }
    }
  }

  lemma ReplaceCrCons(s: string)
    requires s != ""
    ensures s == [s[0]] + s[1..]
    ensures ReplaceCr(s) == [if s[0] == '\r' then '\n' else s[0]] + ReplaceCr(s[1..])
  {
  }

  lemma {:induction false} CrKeepsVisible(s: string)
    ensures NonSpace(ReplaceCr(s)) == NonSpace(s)
  {
    if s != "" {
      CrKeepsVisible(s[1..]);
      ReplaceCrCons(s);
    }
  }

  /** Normalisation only touches white space: the visible characters stay, in order. */
  lemma NormalizeKeepsVisible(text: string)
    ensures NonSpace(Normalized(text)) == NonSpace(text)
  {
    var u := ReplaceCrLf(text);
    CrLfKeepsVisible(text);
    CrKeepsVisible(u);
    CollapseRunsShape(ReplaceCr(u));
    NonSpaceStrip(CollapseRuns(ReplaceCr(u)));
  }

  // ---- Line ends ----

  /** The text with every newline written as `ending`. */
  function WithLineEnds(s: string, ending: string): string {
    if s == "" then "" else (if s[0] == '\n' then ending else [s[0]]) + WithLineEnds(s[1..], ending)
  }

  lemma {:induction false} CrLfEndsUnified(s: string)
    requires '\r' !in s
    ensures ReplaceCrLf(WithLineEnds(s, "\r\n")) == s
  {
    if s != "" {
      CrLfEndsUnified(s[1..]);
      var rest := WithLineEnds(s[1..], "\r\n");
      assert s == [s[0]] + s[1..];
      if s[0] == '\n' {
        assert ("\r\n" + rest)[2..] == rest;
      } else {
        assert ([s[0]] + rest)[1..] == rest;
      }
    }
  }

  lemma {:induction false} CrEndsUnified(s: string)
    requires '\r' !in s
    ensures ReplaceCr(ReplaceCrLf(WithLineEnds(s, "\r"))) == s
    ensures var w := WithLineEnds(s, "\r"); w == "" || w[0] != '\n'
  {
    if s != "" {
      CrEndsUnified(s[1..]);
      var w, rest := WithLineEnds(s, "\r"), WithLineEnds(s[1..], "\r");
      assert w[1..] == rest && w == [w[0]] + rest;
      assert ReplaceCrLf(w) == [w[0]] + ReplaceCrLf(rest);
      ReplaceCrCons([w[0]] + ReplaceCrLf(rest));
      assert s == [s[0]] + s[1..];
    }
  }

  /** Windows and old Macintosh line ends normalise like newlines. */
  lemma LineEndsAreAlike(s: string)
    requires '\r' !in s
    ensures Normalized(WithLineEnds(s, "\r\n")) == Normalized(s) && Normalized(WithLineEnds(s, "\r")) == Normalized(s)
  {
    CrLfEndsUnified(s);
    CrEndsUnified(s);
    NoCrNoChange(s);
  }

  /** So a tidy text keeps every line break, whatever line ends it is sent with. */
  lemma LineBreaksStay(s: string)
    requires '\r' !in s && Trimmed(s) && !HasTriple(s)
    ensures Normalized(s) == s && Normalized(WithLineEnds(s, "\r\n")) == s && Normalized(WithLineEnds(s, "\r")) == s
  {
    LineEndsAreAlike(s);
    NoCrNoChange(s);
    NothingToCollapse(s, 0);
    StripTrims(s);
  }

  // ---- Choosing where to cut ----

  function Limit(maxLen: int): (r: int)
    ensures 1000 <= r <= TELEGRAM_MAX_TEXT_LEN
  {
    Max(1000, Min(OrDefault(maxLen, SAFE_PLAIN_TEXT_CHUNK_LEN), TELEGRAM_MAX_TEXT_LEN))
  }

  /** A length from 1000 to 4096 is used as it is; none means 3900, and the nearest bound replaces any other. */
  lemma LimitIsConfigured(maxLen: int)
    ensures 1000 <= maxLen <= 4096 ==> Limit(maxLen) == maxLen
    ensures maxLen == 0 ==> Limit(maxLen) == 3900
    ensures maxLen > 4096 ==> Limit(maxLen) == 4096
    ensures maxLen < 1000 && maxLen != 0 ==> Limit(maxLen) == 1000
  {
  }

  /** `s.rfind(c, 0, hi)` */
  function RFind(s: string, c: char, hi: int): (r: int)
    requires 0 <= hi <= |s|
    ensures -1 <= r < hi
    ensures r >= 0 ==> s[r] == c
    ensures forall i :: r < i < hi ==> s[i] != c
  {
    if hi == 0 then -1 else if s[hi - 1] == c then hi - 1 else RFind(s, c, hi - 1)
  }

  /** The last `c` in the second half of the first `limit` characters. */
  ghost predicate LastInSecondHalf(s: string, c: char, limit: int, k: int) {
    0 <= k < limit <= |s| && 2 * k >= limit && s[k] == c && forall i :: k < i < limit ==> s[i] != c
  }

  ghost predicate InSecondHalf(s: string, c: char, limit: int) {
    exists i :: 0 <= i < limit <= |s| && 2 * i >= limit && s[i] == c
  }

  function SplitPoint(remaining: string, limit: int): (k: int)
    requires 2 <= limit < |remaining|
    ensures 0 < k <= limit <= 2 * k
  {
    var newline := RFind(remaining, '\n', limit);
    if 2 * newline >= limit then newline
    else
      var blank := RFind(remaining, ' ', limit);
      if 2 * blank >= limit then blank else limit
  }

  /** The cut is at the last newline of the window's second half, else at the last blank there, else at the limit. */
  lemma SplitPointMeaning(s: string, limit: int)
    requires 2 <= limit < |s|
    ensures InSecondHalf(s, '\n', limit) ==> LastInSecondHalf(s, '\n', limit, SplitPoint(s, limit))
    ensures !InSecondHalf(s, '\n', limit) && InSecondHalf(s, ' ', limit) ==>
              LastInSecondHalf(s, ' ', limit, SplitPoint(s, limit))
    ensures !InSecondHalf(s, '\n', limit) && !InSecondHalf(s, ' ', limit) ==> SplitPoint(s, limit) == limit
  {
    assert SplitPoint(s, limit) < limit ==> s[SplitPoint(s, limit)] in {'\n', ' '};
  }

  // ---- The split ----

  function Chunks(remaining: string, limit: int): seq<string>
    requires 2 <= limit
    decreases |remaining|
  {
    if remaining == "" then []
    else if |remaining| <= limit then [remaining]
    else
      var k := SplitPoint(remaining, limit);
      var chunk := RStrip(remaining[..k]);
      (if chunk != "" then [chunk] else []) + Chunks(LStrip(remaining[k..]), limit)
  }

  /** The white space dropped behind each chunk. */
  function Gaps(remaining: string, limit: int): seq<string>
    requires 2 <= limit
    decreases |remaining|
  {
    if remaining == "" then []
    else if |remaining| <= limit then [""]
    else
      var k := SplitPoint(remaining, limit);
      var chunk := RStrip(remaining[..k]);
      var rest := LStrip(remaining[k..]);
      [remaining[|chunk|..|remaining| - |rest|]] + Gaps(rest, limit)
  }

  lemma CutOffChunk(text: string, limit: int)
    requires 2 <= limit < |text|
    ensures var k := SplitPoint(text, limit);
            var chunk, rest := RStrip(text[..k]), LStrip(text[k..]);
            && |rest| < |text|
            && Chunks(text, limit) == (if chunk != "" then [chunk] else []) + Chunks(rest, limit)
  {
  }

  function Weave(chunks: seq<string>, gaps: seq<string>): string
    requires |chunks| == |gaps|
  {
    if chunks == [] then "" else chunks[0] + gaps[0] + Weave(chunks[1..], gaps[1..])
  }

  function Concat(parts: seq<string>): string {
    if parts == [] then "" else parts[0] + Concat(parts[1..])
  }

  /** White space at the end of one part and at the start of the next is white space in the whole. */
  lemma GapIsSpace(text: string, e: int, k: int, b: int)
    requires 0 <= e <= k <= b <= |text|
    requires forall i :: e <= i < k ==> IsSpace(text[..k][i])
    requires forall i :: 0 <= i < b - k ==> IsSpace(text[k..][i])
    ensures AllSpace(text[e..b])
  {
    forall i | e <= i < b ensures IsSpace(text[i]) {
      if i < k {
        assert text[..k][i] == text[i];
      } else {
        assert text[k..][i - k] == text[i];
      }
    }
  }

  /** What stripping leaves of the two parts of a cut. */
  lemma CutParts(text: string, k: int)
    requires 0 <= k <= |text|
    ensures var e, b := SpaceStart(text[..k], k), k + SpaceEnd(text[k..], 0);
            && 0 <= e <= k <= b <= |text| && RStrip(text[..k]) == text[..e] && LStrip(text[k..]) == text[b..]
            && AllSpace(text[e..b])
  {
    var e, b := SpaceStart(text[..k], k), k + SpaceEnd(text[k..], 0);
    GapIsSpace(text, e, k, b);
  }

  /** One cut at `k` of a trimmed text leaves two non-empty trimmed parts with only white space between. */
  lemma CutShape(text: string, k: int)
    requires 0 < k < |text| && Trimmed(text)
    ensures var chunk, rest := RStrip(text[..k]), LStrip(text[k..]);
            && 0 < |chunk| <= k && Trimmed(chunk)
            && 0 < |rest| <= |text| - k && Trimmed(rest)
            && AllSpace(text[|chunk|..|text| - |rest|])
            && text == chunk + text[|chunk|..|text| - |rest|] + rest
  {
    CutParts(text, k);
  }

  ghost predicate GoodSplit(text: string, limit: int, chunks: seq<string>, gaps: seq<string>) {
    && |chunks| == |gaps| >= 1
    && Weave(chunks, gaps) == text
    && (forall gap :: gap in gaps ==> AllSpace(gap))
    && (forall chunk :: chunk in chunks ==> 0 < |chunk| <= limit && Trimmed(chunk))
    && (|chunks| - 1) * limit < 2 * |text|
  }

  lemma GoodSplitCons(text: string, limit: int, k: int, chunk: string, gap: string, rest: string,
                      chunks: seq<string>, gaps: seq<string>)
    requires GoodSplit(rest, limit, chunks, gaps)
    requires text == chunk + gap + rest && AllSpace(gap)
    requires 0 < |chunk| <= k <= limit <= 2 * k && Trimmed(chunk) && |rest| <= |text| - k
    ensures GoodSplit(text, limit, [chunk] + chunks, [gap] + gaps)
  {
    OneMoreLimit(|chunks|, limit);
  }

  lemma OneMoreLimit(n: int, limit: int)
    ensures n * limit == (n - 1) * limit + limit
  {
  }

  /**
   * Nothing but white space is lost, and only between chunks; every chunk is non-empty, trimmed and
   * within the limit; and every chunk but the last accounts for at least half a limit of text.
   */
  lemma {:induction false} SplitShape(text: string, limit: int)
    requires 2 <= limit && text != "" && Trimmed(text)
    ensures GoodSplit(text, limit, Chunks(text, limit), Gaps(text, limit))
    decreases |text|
  {
    if |text| <= limit {
      assert Chunks(text, limit) == [text] && Gaps(text, limit) == [""];
      assert Weave([text], [""]) == text + "" + "";
    } else {
      var k := SplitPoint(text, limit);
      var chunk, rest := RStrip(text[..k]), LStrip(text[k..]);
      CutShape(text, k);
      CutOffChunk(text, limit);
      SplitShape(rest, limit);
      GoodSplitCons(text, limit, k, chunk, text[|chunk|..|text| - |rest|], rest, Chunks(rest, limit),
                    Gaps(rest, limit));
    }
  }

  lemma {:induction false} WeaveKeepsVisible(chunks: seq<string>, gaps: seq<string>)
    requires |chunks| == |gaps| && forall gap :: gap in gaps ==> AllSpace(gap)
    ensures NonSpace(Weave(chunks, gaps)) == NonSpace(Concat(chunks))
  {
    if chunks != [] {
      WeaveKeepsVisible(chunks[1..], gaps[1..]);
      GapIsInvisible(chunks[0], gaps[0], Weave(chunks[1..], gaps[1..]));
      NonSpaceConcat(chunks[0], Concat(chunks[1..]));
    }
  }

  method ChunkPlainText(text: string, maxLen: int) returns (chunks: seq<string>)
    ensures Normalized(text) == "" ==> chunks == []
    ensures Normalized(text) != "" ==>
              chunks == Chunks(Normalized(text), Limit(maxLen))
              && GoodSplit(Normalized(text), Limit(maxLen), chunks, Gaps(Normalized(text), Limit(maxLen)))
    ensures NonSpace(Concat(chunks)) == NonSpace(text)
  {
    var normalized := NormalizeMessageText(text);
    NormalizeKeepsVisible(text);
    var limit := Limit(maxLen);
    if normalized == "" {
      return [];
    }
    if |normalized| <= limit {
      chunks := [normalized];
    } else {
      chunks := SplitLoop(normalized, limit);
    }
    NormalizedShape(text);
    SplitShape(normalized, limit);
    WeaveKeepsVisible(chunks, Gaps(normalized, limit));
  }

  /** The loop that cuts one chunk after the other off the text. */
  method SplitLoop(normalized: string, limit: int) returns (chunks: seq<string>)
    requires 2 <= limit
    ensures chunks == Chunks(normalized, limit)
  {
    chunks := [];
    var remaining := normalized;
    while remaining != ""
      invariant chunks + Chunks(remaining, limit) == Chunks(normalized, limit)
      decreases |remaining|
    {
      chunks, remaining := NextChunk(chunks, remaining, limit);
    }
  }

  /** One round: move one chunk from the text still to split to the chunks already cut. */
  method NextChunk(chunks: seq<string>, remaining: string, limit: int) returns (more: seq<string>, rest: string)
    requires 2 <= limit && remaining != ""
    ensures more + Chunks(rest, limit) == chunks + Chunks(remaining, limit)
    ensures |rest| < |remaining|
  {
    if |remaining| <= limit {
      return chunks + [remaining], "";
    }
    CutOffChunk(remaining, limit);
    var splitAt := SplitPoint(remaining, limit);
    var chunk := RStrip(remaining[..splitAt]);
    rest := LStrip(remaining[splitAt..]);
    more := if chunk != "" then chunks + [chunk] else chunks;
  }
}
