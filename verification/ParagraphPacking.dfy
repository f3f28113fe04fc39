/** Packing of a document's paragraphs into knowledge chunks of bounded size. */
module ParagraphPacking {
  import opened DocumentText
  import opened Lists
  import opened Numbers
  import opened TextRuns

  // ---- Joined paragraphs ----

  function Join(parts: seq<string>): string {
    if parts == [] then "" else if |parts| == 1 then parts[0] else parts[0] + "\n\n" + Join(parts[1..])
  }

  /** Characters of the parts together with the blank lines between them. */
  function JoinedSize(parts: seq<string>): int {
    if parts == [] then 0 else if |parts| == 1 then |parts[0]| else |parts[0]| + 2 + JoinedSize(parts[1..])
  }

  lemma {:induction false} JoinSize(parts: seq<string>)
    ensures |Join(parts)| == JoinedSize(parts)
  {
    if |parts| > 1 {
      JoinSize(parts[1..]);
    }
  }

  lemma {:induction false} JoinedSizeLast(parts: seq<string>, p: string)
    requires parts != []
    ensures JoinedSize(parts + [p]) == JoinedSize(parts) + 2 + |p|
    ensures Join(parts + [p]) == Join(parts) + "\n\n" + p
  {
    if |parts| == 1 {
      assert (parts + [p])[1..] == [p];
    } else {
      JoinedSizeLast(parts[1..], p);
      assert (parts + [p])[1..] == parts[1..] + [p];
      assert parts[0] + "\n\n" + (Join(parts[1..]) + "\n\n" + p) == parts[0] + "\n\n" + Join(parts[1..]) + "\n\n" + p;
    }
  }

  // ---- Groupings and the greedy one ----

  function Flatten(groups: seq<seq<string>>): seq<string> {
    if groups == [] then [] else groups[0] + Flatten(groups[1..])
  }

  ghost predicate Fits(groups: seq<seq<string>>, limit: int) {
    forall g :: g in groups ==> JoinedSize(g) <= limit
  }

  function Joined(groups: seq<seq<string>>): seq<string> {
    if groups == [] then [] else [Join(groups[0])] + Joined(groups[1..])
  }

  /** The source's grouping: keep filling the current group, start a new one when the next part does not fit. */
  function Fill(current: seq<string>, ps: seq<string>, limit: int): seq<seq<string>>
    decreases |ps|
  {
    if ps == [] then (if current == [] then [] else [current])
    else if current == [] then Fill([ps[0]], ps[1..], limit)
    else if JoinedSize(current) + |ps[0]| + 2 <= limit then Fill(current + [ps[0]], ps[1..], limit)
    else [current] + Fill([ps[0]], ps[1..], limit)
  }

  lemma {:induction false} FillCovers(current: seq<string>, ps: seq<string>, limit: int)
    ensures Flatten(Fill(current, ps, limit)) == current + ps
    ensures forall g :: g in Fill(current, ps, limit) ==> g != []
    decreases |ps|
  {
    if ps == [] {
      if current != [] {
        assert Flatten([current]) == current + Flatten([]);
      }
    } else if current == [] {
      FillCovers([ps[0]], ps[1..], limit);
    } else if JoinedSize(current) + |ps[0]| + 2 <= limit {
      FillCovers(current + [ps[0]], ps[1..], limit);
    } else {
      FillCovers([ps[0]], ps[1..], limit);
      var rest := Fill([ps[0]], ps[1..], limit);
      assert ([current] + rest)[1..] == rest;
    }
    assert ps != [] ==> [ps[0]] + ps[1..] == ps;
  }

  lemma {:induction false} FillFits(current: seq<string>, ps: seq<string>, limit: int)
    requires JoinedSize(current) <= limit && forall p :: p in ps ==> |p| <= limit
    ensures Fits(Fill(current, ps, limit), limit)
    decreases |ps|
  {
    if ps != [] {
      assert ps[0] in ps;
      if current == [] || JoinedSize(current) + |ps[0]| + 2 > limit {
        FillFits([ps[0]], ps[1..], limit);
      } else {
        JoinedSizeLast(current, ps[0]);
        FillFits(current + [ps[0]], ps[1..], limit);
      }
    }
  }

  // ---- Optimality ----

  lemma {:induction false} PrefixIsSmaller(a: seq<string>, b: seq<string>)
    ensures 0 <= JoinedSize(a) <= JoinedSize(a + b)
  {
    if a == [] {
      assert a + b == b;
      NonNegative(b);
    } else {
      PrefixIsSmaller(a[1..], b);
      assert (a + b)[1..] == a[1..] + b;
      NonNegative(b);
    }
  }

  lemma {:induction false} NonNegative(a: seq<string>)
    ensures 0 <= JoinedSize(a)
  {
    if a != [] {
      NonNegative(a[1..]);
    }
  }

  /** Leaving out the first parts never needs more groups. */
  lemma {:induction false} DropFirst(groups: seq<seq<string>>, a: seq<string>, b: seq<string>, limit: int)
    returns (rest: seq<seq<string>>)
    requires Fits(groups, limit) && Flatten(groups) == a + b
    ensures Fits(rest, limit) && Flatten(rest) == b && |rest| <= |groups|
    decreases |groups|
  {
    if a == [] {
      assert a + b == b;
      rest := groups;
    } else {
      var g := groups[0];
      assert g in groups;
      if |g| <= |a| {
        assert g == (a + b)[..|g|] == a[..|g|];
        assert Flatten(groups[1..]) == (a + b)[|g|..] == a[|g|..] + b;
        rest := DropFirst(groups[1..], a[|g|..], b, limit);
      } else {
        var tail := g[|a|..];
        assert a == (a + b)[..|a|] == (g + Flatten(groups[1..]))[..|a|] == g[..|a|];
        SuffixIsSmaller(g[..|a|], tail);
        assert g[..|a|] + tail == g;
        rest := [tail] + groups[1..];
        assert rest[1..] == groups[1..];
        assert b == (a + b)[|a|..] == (g + Flatten(groups[1..]))[|a|..] == tail + Flatten(groups[1..]);
      }
    }
  }

  lemma {:induction false} SuffixIsSmaller(a: seq<string>, b: seq<string>)
    ensures JoinedSize(b) <= JoinedSize(a + b)
  {
    if a == [] {
      assert a + b == b;
    } else {
      SuffixIsSmaller(a[1..], b);
      assert (a + b)[1..] == a[1..] + b;
      NonNegative(b);
    }
  }

  /** No grouping of the same parts in order within the limit has fewer groups than the greedy one. */
  lemma {:induction false} FillIsOptimal(current: seq<string>, ps: seq<string>, limit: int, groups: seq<seq<string>>)
    requires Fits(groups, limit) && Flatten(groups) == current + ps
    ensures |Fill(current, ps, limit)| <= |groups|
    decreases |ps|
  {
    if ps == [] {
    } else if current == [] {
      assert [] + ps == [ps[0]] + ps[1..];
      FillIsOptimal([ps[0]], ps[1..], limit, groups);
    } else if JoinedSize(current) + |ps[0]| + 2 <= limit {
      assert current + ps == (current + [ps[0]]) + ps[1..];
      FillIsOptimal(current + [ps[0]], ps[1..], limit, groups);
    } else {
      FirstGroupIsShort(current, ps, limit, groups);
      var n := |groups[0]|;
      assert Flatten(groups[1..]) == (current + ps)[n..] == current[n..] + ps;
      var rest := DropFirst(groups[1..], current[n..], ps, limit);
      assert ps == [ps[0]] + ps[1..];
      FillIsOptimal([ps[0]], ps[1..], limit, rest);
    }
  }

  lemma FirstGroupIsShort(current: seq<string>, ps: seq<string>, limit: int, groups: seq<seq<string>>)
    requires Fits(groups, limit) && Flatten(groups) == current + ps && current != [] && ps != []
    requires JoinedSize(current) + |ps[0]| + 2 > limit
    ensures groups != [] && |groups[0]| <= |current|
  {
    assert groups != [];
    assert groups[0] in groups;
    if |groups[0]| > |current| {
      LongGroupSize(groups[0], Flatten(groups[1..]), current, ps);
    }
  }

  lemma LongGroupSize(g: seq<string>, others: seq<string>, current: seq<string>, ps: seq<string>)
    requires g + others == current + ps && |g| > |current| > 0
    ensures ps != [] && JoinedSize(g) >= JoinedSize(current) + 2 + |ps[0]|
  {
    assert |ps| > 0;
    var more := current + [ps[0]];
    assert more + ps[1..] == current + ps;
    PrefixOf(more, ps[1..], g, others);
    JoinedSizeLast(current, ps[0]);
    PrefixIsSmaller(more, g[|more|..]);
  }

  lemma PrefixOf<T>(a: seq<T>, b: seq<T>, c: seq<T>, d: seq<T>)
    requires a + b == c + d && |a| <= |c|
    ensures c == a + c[|a|..]
  {
    assert a == (a + b)[..|a|] == (c + d)[..|a|] == c[..|a|];
  }

  // ---- The packing itself, over-long paragraphs included ----

  /** The source's loop: `current` is the chunk being filled. */
  function Pack(current: string, ps: seq<string>, limit: int): seq<string>
    requires limit >= 1
    decreases |ps|
  {
    if ps == [] then Listed(current)
    else if |current| + |ps[0]| + 2 <= limit then Pack(Strip(current + "\n\n" + ps[0]), ps[1..], limit)
    else Listed(current) + Pack(ps[0][..Min(limit, |ps[0]|)], ps[1..], limit)
  }

  function ChunksOf(text: string, limit: int): seq<string>
    requires limit >= 1
  {
    if |Clean(text)| <= limit then Listed(Clean(text)) else Pack("", Paragraphs(Clean(text)), limit)
  }

  method ChunkText(text: string, maxChars: int) returns (chunks: seq<string>)
    requires maxChars >= 1
    ensures chunks == ChunksOf(text, maxChars)
  {
    var clean := Clean(text);
    if |clean| <= maxChars {
      return Listed(clean);
    }
    var paragraphs := Paragraphs(clean);
    chunks := [];
    var current := "";
    for i := 0 to |paragraphs|
      invariant chunks + Pack(current, paragraphs[i..], maxChars) == Pack("", paragraphs, maxChars)
    {
      chunks, current := AddParagraph(chunks, current, paragraphs, i, maxChars);
    }
    if current != "" {
      chunks := chunks + [current];
    }
  }

  /** One round of the loop over the paragraphs. */
  method AddParagraph(chunks: seq<string>, current: string, paragraphs: seq<string>, i: nat, maxChars: int)
    returns (chunks': seq<string>, current': string)
    requires maxChars >= 1 && i < |paragraphs|
    ensures chunks' + Pack(current', paragraphs[i + 1..], maxChars) == chunks + Pack(current, paragraphs[i..], maxChars)
  {
    var paragraph := paragraphs[i];
    assert paragraphs[i..][1..] == paragraphs[i + 1..];
    if |current| + |paragraph| + 2 <= maxChars {
      return chunks, Strip(current + "\n\n" + paragraph);
    }
    chunks' := if current != "" then chunks + [current] else chunks;
    current' := paragraph[..Min(maxChars, |paragraph|)];
  }

  // ---- Sizes ----

  ghost predicate Bounded(chunks: seq<string>, limit: int) {
    forall c :: c in chunks ==> 0 < |c| <= limit
  }

  lemma {:induction false} PackSizes(current: string, ps: seq<string>, limit: int)
    requires limit >= 1 && |current| <= limit
    ensures Bounded(Pack(current, ps, limit), limit)
    decreases |ps|
  {
    if ps != [] {
      var more := current + "\n\n" + ps[0];
      StripTrims(more);
      if |current| + |ps[0]| + 2 <= limit {
        PackSizes(Strip(more), ps[1..], limit);
      } else {
        PackSizes(ps[0][..Min(limit, |ps[0]|)], ps[1..], limit);
      }
    }
  }

  /** Every chunk is non-empty and within the limit, whatever the document. */
  lemma ChunkSizes(text: string, limit: int)
    requires limit >= 1
    ensures Bounded(ChunksOf(text, limit), limit)
  {
    PackSizes("", Paragraphs(Clean(text)), limit);
  }

  // ---- Nothing is lost when every paragraph fits ----

  ghost predicate AllFit(ps: seq<string>, limit: int) {
    forall p :: p in ps ==> |p| <= limit
  }

  lemma {:induction false} JoinIsTrimmed(ps: seq<string>)
    requires AllParagraphs(ps) && ps != []
    ensures Join(ps) != "" && Trimmed(Join(ps))
  {
    assert ps[0] in ps;
    if |ps| > 1 {
      JoinIsTrimmed(ps[1..]);
    }
  }

  lemma AppendIsTrimmed(a: string, b: string)
    requires a != "" && b != "" && Trimmed(a) && Trimmed(b)
    ensures Strip(a + "\n\n" + b) == a + "\n\n" + b
  {
  }

  lemma FirstIsTrimmed(b: string)
    requires b != "" && Trimmed(b)
    ensures Strip("" + "\n\n" + b) == b
  {
    var s := "" + "\n\n" + b;
    assert IsSpace(s[0]) && IsSpace(s[1]) && s[2] == b[0];
    assert SpaceEnd(s, 0) == 2;
    assert s[2..] == b;
  }

  lemma {:induction false} PackIsFill(current: seq<string>, ps: seq<string>, limit: int)
    requires limit >= 1 && AllParagraphs(current) && AllParagraphs(ps) && AllFit(ps, limit)
    ensures Pack(Join(current), ps, limit) == Joined(Fill(current, ps, limit))
    decreases |ps|
  {
    if current != [] {
      JoinIsTrimmed(current);
    }
    if ps == [] {
      assert current != [] ==> [current][1..] == [];
    } else {
      var p := ps[0];
      assert p in ps;
      JoinSize(current);
      if current == [] {
        FirstIsTrimmed(p);
        assert p[..Min(limit, |p|)] == p;
        PackIsFill([p], ps[1..], limit);
      } else if JoinedSize(current) + |p| + 2 <= limit {
        AppendIsTrimmed(Join(current), p);
        JoinedSizeLast(current, p);
        PackIsFill(current + [p], ps[1..], limit);
      } else {
        assert p[..Min(limit, |p|)] == p;
        PackIsFill([p], ps[1..], limit);
        var rest := Fill([p], ps[1..], limit);
        assert ([current] + rest)[1..] == rest;
      }
    }
  }

  lemma {:induction false} JoinAppend(a: seq<string>, b: seq<string>)
    requires a != [] && b != []
    ensures Join(a + b) == Join(a) + "\n\n" + Join(b)
  {
    assert (a + b)[1..] == a[1..] + b;
    if |a| > 1 {
      JoinAppend(a[1..], b);
      assert a[0] + "\n\n" + (Join(a[1..]) + "\n\n" + Join(b)) == a[0] + "\n\n" + Join(a[1..]) + "\n\n" + Join(b);
    } else {
      assert a[1..] + b == b;
    }
  }

  lemma {:induction false} JoinOfGroups(groups: seq<seq<string>>)
    requires forall g :: g in groups ==> g != []
    ensures Join(Joined(groups)) == Join(Flatten(groups))
    ensures |Joined(groups)| == |groups|
  {
    if groups != [] {
      assert groups[0] in groups;
      forall g | g in groups[1..] ensures g != [] {
        assert g in groups;
      }
      JoinOfGroups(groups[1..]);
      if |groups| == 1 {
        assert Flatten(groups) == groups[0];
      } else {
        assert groups[1] in groups;
        assert Flatten(groups[1..]) != [];
        JoinAppend(groups[0], Flatten(groups[1..]));
        assert Joined(groups)[1..] == Joined(groups[1..]);
      }
    }
  }

  // ---- Reading the paragraphs back ----

  lemma {:induction false} ParagraphsShape(s: string)
    ensures AllParagraphs(Paragraphs(s)) && AllFit(Paragraphs(s), |s|)
    decreases |s|
  {
    var k := FindBlank(s, 0);
    StripTrims(s);
    if k == |s| {
      assert forall j :: !BlankAt(s, j);
      TrimmedPart(s);
    } else {
      NoBlankInside(s, 0, k);
      StripTrims(s[..k]);
      assert s[0..k] == s[..k];
      TrimmedPart(s[..k]);
      ParagraphsShape(s[RunEnd(s, k)..]);
    }
  }

  lemma FirstBlankOfJoin(p: string, rest: string)
    requires IsParagraph(p) && rest != "" && Trimmed(rest)
    ensures var s := p + "\n\n" + rest;
            FindBlank(s, 0) == |p| && RunEnd(s, |p|) == |p| + 2 && s[..|p|] == p && s[|p| + 2..] == rest
  {
    var s := p + "\n\n" + rest;
    assert BlankAt(s, |p|);
    forall j | 0 <= j < |p| ensures !BlankAt(s, j) {
      assert !BlankAt(p, j);
      assert IsSpace('\n');
    }
    assert s[|p| + 2] == rest[0] && IsSpace('\n');
  }

  lemma LastParagraph(p: string)
    requires IsParagraph(p)
    ensures Paragraphs(p) == [p]
  {
    StripTrims(p);
    var k := FindBlank(p, 0);
    assert !BlankAt(p, k);
  }

  lemma FirstParagraph(p: string, rest: string)
    requires IsParagraph(p) && rest != "" && Trimmed(rest)
    ensures Paragraphs(p + "\n\n" + rest) == [p] + Paragraphs(rest)
  {
    FirstBlankOfJoin(p, rest);
    StripTrims(p);
  }

  /** Joining paragraphs with blank lines and splitting the result gives them back. */
  lemma {:induction false} ParagraphsOfJoin(ps: seq<string>)
    requires AllParagraphs(ps)
    ensures Paragraphs(Join(ps)) == ps
  {
    if ps == [] {
      assert Strip("") == "";
    } else {
      assert ps[0] in ps;
      if |ps| == 1 {
        LastParagraph(ps[0]);
      } else {
        ParagraphsOfJoin(ps[1..]);
        JoinIsTrimmed(ps[1..]);
        FirstParagraph(ps[0], Join(ps[1..]));
      }
    }
  }

  // ---- What is lost when some paragraph does not fit ----

  /** The visible characters of the parts, in order. */
  function VisibleText(parts: seq<string>): string {
    if parts == [] then "" else NonSpace(parts[0]) + VisibleText(parts[1..])
  }

  function CutEach(ps: seq<string>, limit: int): seq<string>
    requires limit >= 1
  {
    if ps == [] then [] else [ps[0][..Min(limit, |ps[0]|)]] + CutEach(ps[1..], limit)
  }

  lemma {:induction false} VisibleTextAppend(a: seq<string>, b: seq<string>)
    ensures VisibleText(a + b) == VisibleText(a) + VisibleText(b)
  {
    if a == [] {
      assert a + b == b;
    } else {
      assert (a + b)[1..] == a[1..] + b && (a + b)[0] == a[0];
      VisibleTextAppend(a[1..], b);
      Associative(NonSpace(a[0]), VisibleText(a[1..]), VisibleText(b));
    }
  }

  lemma {:induction false} VisibleInJoin(parts: seq<string>)
    ensures NonSpace(Join(parts)) == VisibleText(parts)
  {
    if |parts| == 1 {
      assert parts[1..] == [];
    } else if |parts| > 1 {
      VisibleInJoin(parts[1..]);
      GapIsInvisible(parts[0], "\n\n", Join(parts[1..]));
    }
  }

  lemma {:induction false} VisibleInParagraphs(s: string)
    ensures VisibleText(Paragraphs(s)) == NonSpace(s)
    decreases |s|
  {
    var k := FindBlank(s, 0);
    VisibleListed(s);
    if k < |s| {
      var e := RunEnd(s, k);
      VisibleInParagraphs(s[e..]);
      VisibleListed(s[..k]);
      VisibleTextAppend(Listed(Strip(s[..k])), Paragraphs(s[e..]));
      VisibleAround(s, k, e);
    }
  }

  lemma VisibleListed(s: string)
    ensures VisibleText(Listed(Strip(s))) == NonSpace(s)
    ensures VisibleText(Listed(s)) == NonSpace(s)
  {
    NonSpaceStrip(s);
    assert forall p: string {:trigger [p][1..]} :: [p][1..] == [];
  }

  lemma NewlinesAreSpace(s: string, k: int, e: int)
    requires 0 <= k <= e <= |s| && forall j :: k <= j < e ==> s[j] == '\n'
    ensures AllSpace(s[k..e])
  {
  }

  lemma VisibleAround(s: string, k: int, e: int)
    requires 0 <= k <= e <= |s| && forall j :: k <= j < e ==> s[j] == '\n'
    ensures NonSpace(s) == NonSpace(s[..k]) + NonSpace(s[e..])
  {
    var before, gap, after := s[..k], s[k..e], s[e..];
    ThreeParts(s, k, e);
    NewlinesAreSpace(s, k, e);
    GapIsInvisible(before, gap, after);
  }

  lemma {:induction false} PackKeeps(current: string, ps: seq<string>, limit: int)
    requires limit >= 1
    ensures VisibleText(Pack(current, ps, limit)) == NonSpace(current) + VisibleText(CutEach(ps, limit))
    decreases |ps|
  {
    VisibleListed(current);
    if ps != [] {
      var cut, rest := ps[0][..Min(limit, |ps[0]|)], CutEach(ps[1..], limit);
      CutFirst(ps, limit);
      Associative(NonSpace(current), NonSpace(cut), VisibleText(rest));
      if |current| + |ps[0]| + 2 <= limit {
        VisibleAfterBlank(current, ps[0]);
        PackKeeps(Strip(current + "\n\n" + ps[0]), ps[1..], limit);
      } else {
        PackKeeps(cut, ps[1..], limit);
        VisibleTextAppend(Listed(current), Pack(cut, ps[1..], limit));
      }
    }
  }

  lemma CutFirst(ps: seq<string>, limit: int)
    requires limit >= 1 && ps != []
    ensures var cut := ps[0][..Min(limit, |ps[0]|)];
            && (|ps[0]| <= limit ==> cut == ps[0])
            && VisibleText(CutEach(ps, limit)) == NonSpace(cut) + VisibleText(CutEach(ps[1..], limit))
  {
    assert CutEach(ps, limit)[1..] == CutEach(ps[1..], limit);
  }

  lemma VisibleAfterBlank(current: string, p: string)
    ensures NonSpace(Strip(current + "\n\n" + p)) == NonSpace(current) + NonSpace(p)
  {
    GapIsInvisible(current, "\n\n", p);
    NonSpaceStrip(current + "\n\n" + p);
  }

  lemma CutLoses(p: string, n: int)
    requires 0 <= n <= |p|
    ensures |NonSpace(p[..n])| <= |NonSpace(p)|
    ensures n < |p| && Trimmed(p) ==> |NonSpace(p[..n])| < |NonSpace(p)|
  {
    assert p == p[..n] + p[n..];
    NonSpaceConcat(p[..n], p[n..]);
    if n < |p| && Trimmed(p) {
      LastIsVisible(p[n..]);
    }
  }

  lemma LastIsVisible(s: string)
    requires s != "" && !IsSpace(s[|s| - 1])
    ensures NonSpace(s) != ""
  {
  }

  lemma AllFitSplit(ps: seq<string>, limit: int)
    requires ps != []
    ensures AllFit(ps, limit) <==> |ps[0]| <= limit && AllFit(ps[1..], limit)
  {
    assert forall p :: p in ps <==> p == ps[0] || p in ps[1..];
  }

  lemma {:induction false} NothingCut(ps: seq<string>, limit: int)
    requires limit >= 1 && AllFit(ps, limit)
    ensures CutEach(ps, limit) == ps
  {
    if ps != [] {
      AllFitSplit(ps, limit);
      NothingCut(ps[1..], limit);
      assert ps[0][..Min(limit, |ps[0]|)] == ps[0];
      assert ps == [ps[0]] + ps[1..];
    }
  }

  lemma {:induction false} CutEachLoses(ps: seq<string>, limit: int)
    requires limit >= 1 && forall p :: p in ps ==> Trimmed(p)
    ensures |VisibleText(CutEach(ps, limit))| <= |VisibleText(ps)|
    ensures !AllFit(ps, limit) ==> |VisibleText(CutEach(ps, limit))| < |VisibleText(ps)|
  {
    if ps != [] {
      assert ps[0] in ps;
      AllFitSplit(ps, limit);
      var cut := ps[0][..Min(limit, |ps[0]|)];
      assert CutEach(ps, limit) == [cut] + CutEach(ps[1..], limit);
      assert VisibleText(CutEach(ps, limit)) == NonSpace(cut) + VisibleText(CutEach(ps[1..], limit));
      CutLoses(ps[0], Min(limit, |ps[0]|));
      CutEachLoses(ps[1..], limit);
    }
  }

  // ---- The main results ----

  /** What the chunks keep is every paragraph up to the limit: only the tails of over-long paragraphs are lost. */
  lemma OnlyTailsAreLost(text: string, limit: int)
    requires limit >= 1
    ensures VisibleText(ChunksOf(text, limit)) == VisibleText(CutEach(Paragraphs(text), limit))
    ensures AllFit(Paragraphs(text), limit) ==> VisibleText(ChunksOf(text, limit)) == NonSpace(text)
  {
    var ps := Paragraphs(text);
    CleaningKeepsParagraphs(text);
    ParagraphsShape(Clean(text));
    VisibleInParagraphs(Clean(text));
    if AllFit(ps, limit) {
      NothingCut(ps, limit);
    }
    if |Clean(text)| <= limit {
      VisibleListed(Clean(text));
    } else {
      PackKeeps("", ps, limit);
    }
  }

  /** Splitting the re-joined chunks gives the text's paragraphs back exactly when every paragraph fits. */
  lemma LosslessExactlyWhenAllFit(text: string, limit: int)
    requires limit >= 1
    ensures Paragraphs(Join(ChunksOf(text, limit))) == Paragraphs(text) <==> AllFit(Paragraphs(text), limit)
  {
    var ps := Paragraphs(text);
    CleaningKeepsParagraphs(text);
    ParagraphsShape(Clean(text));
    if |Clean(text)| > limit {
      if AllFit(ps, limit) {
        FittingChunks(text, limit);
        ParagraphsOfJoin(ps);
      } else {
        var chunks := ChunksOf(text, limit);
        OnlyTailsAreLost(text, limit);
        CutEachLoses(ps, limit);
        VisibleInJoin(chunks);
        VisibleInParagraphs(Join(chunks));
      }
    }
  }

  lemma FittingChunks(text: string, limit: int)
    requires limit >= 1 && |Clean(text)| > limit && AllFit(Paragraphs(text), limit)
    ensures ChunksOf(text, limit) == Joined(Fill([], Paragraphs(text), limit))
    ensures |ChunksOf(text, limit)| == |Fill([], Paragraphs(text), limit)|
    ensures Join(ChunksOf(text, limit)) == Join(Paragraphs(text))
  {
    var ps := Paragraphs(text);
    CleaningKeepsParagraphs(text);
    ParagraphsShape(text);
    PackIsFill([], ps, limit);
    FillCovers([], ps, limit);
    JoinOfGroups(Fill([], ps, limit));
    assert [] + ps == ps;
  }

  /** When every paragraph fits, no division of the paragraphs in order into groups within the limit is smaller. */
  lemma FewestChunks(text: string, limit: int, groups: seq<seq<string>>)
    requires limit >= 1 && AllFit(Paragraphs(text), limit)
    requires Fits(groups, limit) && Flatten(groups) == Paragraphs(text)
    ensures |ChunksOf(text, limit)| <= |groups|
  {
    var ps := Paragraphs(text);
    assert [] + ps == ps;
    if |Clean(text)| > limit {
      FittingChunks(text, limit);
      FillIsOptimal([], ps, limit, groups);
    } else if Clean(text) != "" {
      CleaningKeepsParagraphs(text);
      VisibleInParagraphs(Clean(text));
      CleanIsVisible(text);
      assert groups != [];
    }
  }

  lemma CleanIsVisible(text: string)
    ensures Clean(text) != "" ==> NonSpace(Clean(text)) != ""
  {
  }
}
