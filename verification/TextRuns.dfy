/** Strings as the source's text helpers see them: white space, trimming and runs of newlines. */
module TextRuns {
  import opened Lists

  /** The characters Python's `str.strip` removes. */
  predicate IsSpace(c: char) {
    var n := c as int;
    || 9 <= n <= 13 || 28 <= n <= 32 || n == 0x85 || n == 0xA0 || n == 0x1680 || 0x2000 <= n <= 0x200A
    || n == 0x2028 || n == 0x2029 || n == 0x202F || n == 0x205F || n == 0x3000
  }

  /** The code points with the Unicode property White_Space, and the four separators of ASCII. */
  lemma SpacesAre(c: char)
    ensures IsSpace(c) <==> c as int in {
              9, 10, 11, 12, 13, 28, 29, 30, 31, 32, 0x85, 0xA0, 0x1680, 0x2000, 0x2001, 0x2002, 0x2003, 0x2004, 0x2005,
              0x2006, 0x2007, 0x2008, 0x2009, 0x200A, 0x2028, 0x2029, 0x202F, 0x205F, 0x3000}
  {
  }

  ghost predicate AllSpace(s: string) {
    forall i :: 0 <= i < |s| ==> IsSpace(s[i])
  }

  /** Where the white space that begins at `i` ends. */
  function SpaceEnd(s: string, i: int): (k: int)
    requires 0 <= i <= |s|
    ensures i <= k <= |s| && (k < |s| ==> !IsSpace(s[k]))
    ensures forall j :: i <= j < k ==> IsSpace(s[j])
    decreases |s| - i
  {
    if i < |s| && IsSpace(s[i]) then SpaceEnd(s, i + 1) else i
  }

  /** Where the white space that ends at `i` begins. */
  function SpaceStart(s: string, i: int): (k: int)
    requires 0 <= i <= |s|
    ensures 0 <= k <= i && (k > 0 ==> !IsSpace(s[k - 1]))
    ensures forall j :: k <= j < i ==> IsSpace(s[j])
  {
    if i > 0 && IsSpace(s[i - 1]) then SpaceStart(s, i - 1) else i
  }

  function LStrip(s: string): string {
    s[SpaceEnd(s, 0)..]
  }

  function RStrip(s: string): string {
    s[..SpaceStart(s, |s|)]
  }

  function Strip(s: string): string {
    RStrip(LStrip(s))
  }

  /** No white space at either end. */
  predicate Trimmed(s: string) {
    s != "" ==> !IsSpace(s[0]) && !IsSpace(s[|s| - 1])
  }

  lemma StripTrims(s: string)
    ensures Trimmed(Strip(s)) && |Strip(s)| <= |s|
    ensures Trimmed(s) ==> Strip(s) == s
    ensures exists i, j :: 0 <= i <= j <= |s| && Strip(s) == s[i..j]
  {
    var i := SpaceEnd(s, 0);
    var j := i + SpaceStart(LStrip(s), |s| - i);
    assert 0 <= i <= j <= |s| && Strip(s) == s[i..j];
  }

  // ---- What trimming keeps ----

  /** The characters that are not white space, in order. */
  function NonSpace(s: string): (r: string)
    ensures |r| <= |s|
  {
    if s == "" then "" else Visible(s[0]) + NonSpace(s[1..])
  }

  function Visible(c: char): (r: string)
    ensures |r| <= 1 && (r == "" <==> IsSpace(c))
  {
    if IsSpace(c) then "" else [c]
  }

  lemma {:induction false} AllSpaceIsInvisible(s: string)
    requires AllSpace(s)
    ensures NonSpace(s) == ""
  {
    if s != "" {
      assert IsSpace(s[0]);
      AllSpaceIsInvisible(s[1..]);
    }
  }

  lemma ConsConcat(s: string, t: string)
    requires s != ""
    ensures s + t == [s[0]] + (s[1..] + t)
  {
  }

  lemma {:induction false} NonSpaceConcat(s: string, t: string)
    ensures NonSpace(s + t) == NonSpace(s) + NonSpace(t)
  {
    if s == "" {
      assert s + t == t;
    } else {
      NonSpaceConcat(s[1..], t);
      ConsConcat(s, t);
      Associative(Visible(s[0]), NonSpace(s[1..]), NonSpace(t));
    }
  }

  lemma GapIsInvisible(chunk: string, gap: string, rest: string)
    requires AllSpace(gap)
    ensures NonSpace(chunk + gap + rest) == NonSpace(chunk) + NonSpace(rest)
  {
    NonSpaceConcat(chunk + gap, rest);
    NonSpaceConcat(chunk, gap);
    AllSpaceIsInvisible(gap);
    assert NonSpace(chunk) + "" == NonSpace(chunk);
  }

  lemma NonSpaceStrip(s: string)
    ensures NonSpace(LStrip(s)) == NonSpace(s)
    ensures NonSpace(RStrip(s)) == NonSpace(s)
    ensures NonSpace(Strip(s)) == NonSpace(s)
  {
    NonSpaceLStrip(s);
    NonSpaceRStrip(s);
    NonSpaceRStrip(LStrip(s));
  }

  lemma NonSpaceLStrip(s: string)
    ensures NonSpace(LStrip(s)) == NonSpace(s)
  {
    var r := LStrip(s);
    var i := SpaceEnd(s, 0);
    assert s == s[..i] + r;
    AllSpaceIsInvisible(s[..i]);
    NonSpaceConcat(s[..i], r);
  }

  lemma NonSpaceRStrip(s: string)
    ensures NonSpace(RStrip(s)) == NonSpace(s)
  {
    var r := RStrip(s);
    assert s == r + s[|r|..];
    AllSpaceIsInvisible(s[|r|..]);
    NonSpaceConcat(r, s[|r|..]);
  }

  // ---- Runs of newlines ----

  predicate HasTriple(s: string) {
    exists i :: 0 <= i < |s| - 2 && TripleAt(s, i)
  }

  lemma SubstringNoTriple(s: string, i: int, j: int)
    requires 0 <= i <= j <= |s| && !HasTriple(s)
    ensures !HasTriple(s[i..j])
  {
    assert forall k :: 0 <= k < j - i ==> s[i..j][k] == s[i + k];
    forall k | 0 <= k ensures TripleAt(s[i..j], k) ==> TripleAt(s, i + k) {
    }
  }

  /** Every run of newlines cut to two, when `run` newlines stand directly in front of `s`. */
  function CollapseAfter(s: string, run: nat): string {
    if s == "" then ""
    else if s[0] != '\n' then [s[0]] + CollapseAfter(s[1..], 0)
    else if run < 2 then [s[0]] + CollapseAfter(s[1..], run + 1)
    else CollapseAfter(s[1..], run)
  }

  /** The meaning of the substitution of `\n{3,}` by two newlines. */
  function CollapseRuns(s: string): string {
    CollapseAfter(s, 0)
  }

  lemma {:induction false} CollapseAfterKeeps(s: string, run: nat)
    ensures NonSpace(CollapseAfter(s, run)) == NonSpace(s)
    ensures |CollapseAfter(s, run)| <= |s|
  {
    if s != "" {
      var next := if s[0] != '\n' then 0 else if run < 2 then run + 1 else run;
      CollapseAfterKeeps(s[1..], next);
      var rest := CollapseAfter(s[1..], next);
      assert ([s[0]] + rest)[0] == s[0] && ([s[0]] + rest)[1..] == rest;
    }
  }

  predicate TripleAt(s: string, i: int) {
    0 <= i < |s| - 2 && s[i] == s[i + 1] == s[i + 2] == '\n'
  }

  lemma TripleShifts(c: char, s: string, i: int)
    requires 0 <= i
    ensures TripleAt([c] + s, i + 1) <==> TripleAt(s, i)
  {
  }

  /** A triple either lies in the tail or begins at the front. */
  lemma TripleCons(c: char, s: string)
    ensures HasTriple([c] + s) <==> HasTriple(s) || (|s| >= 2 && c == s[0] == s[1] == '\n')
  {
    if i :| TripleAt(s, i) {
      TripleShifts(c, s, i);
    }
    if i :| TripleAt([c] + s, i) && i > 0 {
      TripleShifts(c, s, i - 1);
    }
    assert TripleAt([c] + s, 0) <==> |s| >= 2 && c == s[0] == s[1] == '\n';
  }

  lemma {:induction false} CollapseAfterNoTriple(s: string, run: nat)
    requires run <= 2
    ensures !HasTriple(CollapseAfter(s, run))
    ensures run == 2 ==> var r := CollapseAfter(s, run); r == "" || r[0] != '\n'
    ensures run == 1 ==> var r := CollapseAfter(s, run); |r| < 2 || r[0] != '\n' || r[1] != '\n'
  {
    if s != "" {
      var next := if s[0] != '\n' then 0 else if run < 2 then run + 1 else run;
      CollapseAfterNoTriple(s[1..], next);
      TripleCons(s[0], CollapseAfter(s[1..], next));
    }
  }

  lemma CollapseRunsShape(s: string)
    ensures NonSpace(CollapseRuns(s)) == NonSpace(s)
    ensures |CollapseRuns(s)| <= |s| && !HasTriple(CollapseRuns(s))
  {
    CollapseAfterKeeps(s, 0);
    CollapseAfterNoTriple(s, 0);
  }

  lemma {:induction false} NothingToCollapse(s: string, run: nat)
    requires run <= 2 && !HasTriple(s)
    requires run == 2 ==> s == "" || s[0] != '\n'
    requires run == 1 ==> |s| < 2 || s[0] != '\n' || s[1] != '\n'
    ensures CollapseAfter(s, run) == s
  {
    if s != "" {
      assert s == [s[0]] + s[1..];
      TripleCons(s[0], s[1..]);
      NothingToCollapse(s[1..], if s[0] != '\n' then 0 else run + 1);
    }
  }
}
