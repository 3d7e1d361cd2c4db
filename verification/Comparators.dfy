/** The file comparators of cmp.py: three streaming loops and the relations they decide. */
module Comparators {
  import opened Domain

  /** A value a token may denote under `float()`. */
  datatype Num = Finite(r: real) | Inf(negative: bool) | NaN

  /** What Python's string methods know about characters and tokens. */
  datatype Lexis = Lexis(
    space: char -> bool, lower: string -> string, parse: string -> Option<Num>)

  /** A text file as its iterator sees it: the lines it yields, and whether it then
      ends or raises UnicodeDecodeError. */
  datatype TextFile = TextFile(lines: seq<string>, decodable: bool)

  datatype Read = Line(text: string) | End | Undecodable

  /** `next(file, None)` on an iterator that has already yielded `pos` lines. */
  function ReadAt(f: TextFile, pos: nat): Read {
    if pos < |f.lines| then Line(f.lines[pos]) else if f.decodable then End else Undecodable
  }

  // ----- strings -----

  function Rstrip(lx: Lexis, s: string): string {
    if |s| > 0 && lx.space(s[|s| - 1]) then Rstrip(lx, s[..|s| - 1]) else s
  }

  function Lstrip(lx: Lexis, s: string): string {
    if |s| > 0 && lx.space(s[0]) then Lstrip(lx, s[1..]) else s
  }

  function Strip(lx: Lexis, s: string): string {
    Lstrip(lx, Rstrip(lx, s))
  }

  /** The length of the run of non-space characters at the front of `s`. */
  function WordLength(lx: Lexis, s: string): (n: nat)
    ensures n <= |s|
  {
    if |s| > 0 && !lx.space(s[0]) then 1 + WordLength(lx, s[1..]) else 0
  }

  function Split(lx: Lexis, s: string): seq<string>
    decreases |s|
  {
    if s == "" then []
    else if lx.space(s[0]) then Split(lx, s[1..])
    else
      var n := WordLength(lx, s);
      [s[..n]] + Split(lx, s[n..])
  }

  ghost predicate Blank(lx: Lexis, s: string) {
    forall k :: 0 <= k < |s| ==> lx.space(s[k])
  }

  lemma {:induction false} RstripBlank(lx: Lexis, s: string)
    ensures Rstrip(lx, s) == "" <==> Blank(lx, s)
    ensures Rstrip(lx, s) != "" ==> !lx.space(Rstrip(lx, s)[|Rstrip(lx, s)| - 1])
  {
    if |s| > 0 && lx.space(s[|s| - 1]) {
      var t := s[..|s| - 1];
      RstripBlank(lx, t);
      assert Blank(lx, t) ==> Blank(lx, s);
      assert Blank(lx, s) ==> Blank(lx, t);
    }
  }

  lemma {:induction false} LstripBlank(lx: Lexis, s: string)
    ensures Lstrip(lx, s) == "" <==> Blank(lx, s)
  {
    if |s| > 0 && lx.space(s[0]) {
      var t := s[1..];
      LstripBlank(lx, t);
      assert Blank(lx, s) ==> Blank(lx, t);
      assert Blank(lx, t) ==> Blank(lx, s) by {
        if Blank(lx, t) {
          forall k | 0 <= k < |s| ensures lx.space(s[k]) {
            if k > 0 { assert lx.space(t[k - 1]); }
          }
        }
      }
    }
  }

  /** `line.strip() == ""` says that every character of the line is a space. */
  lemma {:induction false} StripBlank(lx: Lexis, s: string)
    ensures Strip(lx, s) == "" <==> Blank(lx, s)
  {
    RstripBlank(lx, s);
    LstripBlank(lx, Rstrip(lx, s));
  }

  // ----- what the string functions mean -----

  /** `rstrip` cuts off a trailing run of spaces, and all of it. */
  lemma {:induction false} RstripCuts(lx: Lexis, s: string)
    ensures var r := Rstrip(lx, s);
            r <= s && Blank(lx, s[|r|..]) && (r != "" ==> !lx.space(r[|r| - 1]))
  {
    if |s| > 0 && lx.space(s[|s| - 1]) {
      var t := s[..|s| - 1];
      var r := Rstrip(lx, t);
      RstripCuts(lx, t);
      forall k | 0 <= k < |s[|r|..]| ensures lx.space(s[|r|..][k]) {
        if k < |t[|r|..]| { assert s[|r|..][k] == t[|r|..][k]; }
      }
    }
  }

  lemma {:induction false} LstripCuts(lx: Lexis, s: string)
    ensures var r := Lstrip(lx, s);
            |r| <= |s| && r == s[|s| - |r|..] && Blank(lx, s[..|s| - |r|]) && (r != "" ==> !lx.space(r[0]))
  {
    if |s| > 0 && lx.space(s[0]) {
      var t := s[1..];
      var r := Lstrip(lx, t);
      LstripCuts(lx, t);
      var cut := s[..|s| - |r|];
      forall k | 0 <= k < |cut| ensures lx.space(cut[k]) {
        if k > 0 { assert cut[k] == t[..|t| - |r|][k - 1]; }
      }
    }
  }

  /** `strip` leaves what stands between a leading and a trailing run of spaces. */
  lemma StripCuts(lx: Lexis, s: string)
    ensures exists i, j :: 0 <= i <= j <= |s| && Strip(lx, s) == s[i..j] && Blank(lx, s[..i]) && Blank(lx, s[j..])
    ensures Strip(lx, s) != "" ==> !lx.space(Strip(lx, s)[0]) && !lx.space(Strip(lx, s)[|Strip(lx, s)| - 1])
  {
    var t := Rstrip(lx, s);
    RstripCuts(lx, s);
    LstripCuts(lx, t);
    var i, j := |t| - |Lstrip(lx, t)|, |t|;
    assert t[..i] == s[..i] && t[i..] == s[i..j];
    assert 0 <= i <= j <= |s| && Strip(lx, s) == s[i..j] && Blank(lx, s[..i]) && Blank(lx, s[j..]);
  }

  ghost predicate Word(lx: Lexis, s: string) {
    s != "" && forall k :: 0 <= k < |s| ==> !lx.space(s[k])
  }

  lemma {:induction false} WordLengthOfWord(lx: Lexis, w: string)
    requires w == "" || Word(lx, w)
    ensures WordLength(lx, w) == |w|
  {
    if w != "" { WordLengthOfWord(lx, w[1..]); }
  }

  /** A word splits into itself. */
  lemma SplitWord(lx: Lexis, w: string)
    requires Word(lx, w)
    ensures Split(lx, w) == [w]
  {
    WordLengthOfWord(lx, w);
    assert w[..|w|] == w && w[|w|..] == "";
  }

  lemma {:induction false} WordLengthAtSpace(lx: Lexis, a: string, c: char, b: string)
    requires lx.space(c)
    ensures WordLength(lx, a + [c] + b) == WordLength(lx, a)
  {
    if |a| > 0 && !lx.space(a[0]) {
      assert (a + [c] + b)[1..] == a[1..] + [c] + b;
      WordLengthAtSpace(lx, a[1..], c, b);
    }
  }

  /** Every space separates: the words before it and the words after it, each in order. */
  lemma {:induction false} SplitAtSpace(lx: Lexis, a: string, c: char, b: string)
    requires lx.space(c)
    ensures Split(lx, a + [c] + b) == Split(lx, a) + Split(lx, b)
    decreases |a|
  {
    var s := a + [c] + b;
    if a == "" {
      assert s[1..] == b;
    } else if lx.space(a[0]) {
      assert s[1..] == a[1..] + [c] + b;
      SplitAtSpace(lx, a[1..], c, b);
    } else {
      var n := WordLength(lx, a);
      WordLengthAtSpace(lx, a, c, b);
      assert n > 0 && s[..n] == a[..n] && s[n..] == a[n..] + [c] + b;
      SplitAtSpace(lx, a[n..], c, b);
    }
  }

  /** Nothing but a blank string splits into nothing, and the pieces are words. */
  lemma {:induction false} SplitIntoWords(lx: Lexis, s: string)
    ensures Split(lx, s) == [] <==> Blank(lx, s)
    ensures forall w :: w in Split(lx, s) ==> Word(lx, w)
    decreases |s|
  {
    if s != "" && lx.space(s[0]) {
      SplitIntoWords(lx, s[1..]);
      assert Blank(lx, s[1..]) ==> Blank(lx, s) by {
        if Blank(lx, s[1..]) {
          forall k | 0 <= k < |s| ensures lx.space(s[k]) { if k > 0 { assert s[k] == s[1..][k - 1]; } }
        }
      }
    } else if s != "" {
      var n := WordLength(lx, s);
      WordAtFront(lx, s);
      SplitIntoWords(lx, s[n..]);
    }
  }

  lemma {:induction false} WordAtFront(lx: Lexis, s: string)
    ensures forall k :: 0 <= k < WordLength(lx, s) ==> !lx.space(s[k])
    ensures WordLength(lx, s) < |s| ==> lx.space(s[WordLength(lx, s)])
  {
    if |s| > 0 && !lx.space(s[0]) {
      WordAtFront(lx, s[1..]);
      assert forall k :: 0 < k < |s| ==> s[k] == s[1..][k - 1];
    }
  }

  // ----- text_cmp -----

  /** Same number of lines, equal line by line up to trailing space. */
  ghost predicate LinesAgree(lx: Lexis, a: TextFile, b: TextFile) {
    a.decodable && b.decodable && |a.lines| == |b.lines|
    && forall i :: 0 <= i < |a.lines| ==> Rstrip(lx, a.lines[i]) == Rstrip(lx, b.lines[i])
  }

  method TextCmp(lx: Lexis, a: TextFile, b: TextFile) returns (same: bool)
    ensures same <==> a.decodable && b.decodable && |a.lines| == |b.lines|
                      && forall i :: 0 <= i < |a.lines| ==> Rstrip(lx, a.lines[i]) == Rstrip(lx, b.lines[i])
  {
    var i := 0;
    while true
      invariant 0 <= i <= |a.lines| && i <= |b.lines|
      invariant forall k :: 0 <= k < i ==> Rstrip(lx, a.lines[k]) == Rstrip(lx, b.lines[k])
      decreases |a.lines| - i
    {
      var line1, line2 := ReadAt(a, i), ReadAt(b, i);
      if line1.Undecodable? || line2.Undecodable? { return false; }
      if line1.End? && line2.End? { return true; }
      if line1.End? || line2.End? { return false; }
      if Rstrip(lx, line1.text) != Rstrip(lx, line2.text) { return false; }
      i := i + 1;
    }
  }

  // ----- text_cmp2 -----

  function Tokens(lx: Lexis, line: string): seq<string> {
    Split(lx, lx.lower(line))
  }

  /** The lower-cased token lists of the lines that are not blank, in order. */
  ghost function Content(lx: Lexis, lines: seq<string>): seq<seq<string>> {
    if lines == [] then []
    else if Blank(lx, lines[0]) then Content(lx, lines[1..])
    else [Tokens(lx, lines[0])] + Content(lx, lines[1..])
  }

  /** The content of some lines is that of the lines one by one, ... */
  lemma {:induction false} ContentAppend(lx: Lexis, a: seq<string>, b: seq<string>)
    ensures Content(lx, a + b) == Content(lx, a) + Content(lx, b)
  {
    if a == [] {
      assert a + b == b;
    } else {
      assert (a + b)[1..] == a[1..] + b;
      ContentAppend(lx, a[1..], b);
    }
  }

  /** ... and a line contributes its lower-cased words, unless it is blank. */
  lemma ContentOfLine(lx: Lexis, line: string)
    ensures Content(lx, [line]) == if Blank(lx, line) then [] else [Split(lx, lx.lower(line))]
  {
    assert [line][1..] == [];
  }

  ghost predicate EndsBlank(lx: Lexis, lines: seq<string>) {
    lines != [] && Blank(lx, lines[|lines| - 1])
  }

  /** The relation `text_cmp2` decides on the lines of two decodable files. */
  ghost predicate ContentAgrees(lx: Lexis, a: seq<string>, b: seq<string>) {
    Content(lx, a) == Content(lx, b) && !EndsBlank(lx, a) && !EndsBlank(lx, b)
  }

  ghost predicate LooselyAgree(lx: Lexis, a: TextFile, b: TextFile) {
    a.decodable && b.decodable && ContentAgrees(lx, a.lines, b.lines)
  }

  lemma {:induction false} NoContentEndsBlank(lx: Lexis, lines: seq<string>)
    requires lines != [] && Content(lx, lines) == []
    ensures EndsBlank(lx, lines)
  {
    if |lines| > 1 { NoContentEndsBlank(lx, lines[1..]); }
  }

  /** Skipping blank lines at the front changes neither the content nor, while a line is left, the end. */
  lemma SkipBlank(lx: Lexis, lines: seq<string>)
    requires lines != [] && Blank(lx, lines[0])
    ensures Content(lx, lines) == Content(lx, lines[1..])
    ensures |lines| > 1 ==> (EndsBlank(lx, lines) <==> EndsBlank(lx, lines[1..]))
    ensures |lines| == 1 ==> EndsBlank(lx, lines)
  {
  }

  lemma TakeLine(lx: Lexis, lines: seq<string>)
    requires lines != [] && !Blank(lx, lines[0])
    ensures Content(lx, lines) == [Tokens(lx, lines[0])] + Content(lx, lines[1..])
    ensures EndsBlank(lx, lines) <==> EndsBlank(lx, lines[1..])
  {
  }

  /** The `zip_longest` loop over the tokens of two lines. */
  method SameTokens(tokens1: seq<string>, tokens2: seq<string>) returns (same: bool)
    ensures same <==> tokens1 == tokens2
  {
    var k := 0;
    while k < |tokens1| || k < |tokens2|
      invariant 0 <= k <= |tokens1| && k <= |tokens2|
      invariant tokens1[..k] == tokens2[..k]
      decreases |tokens1| - k
    {
      if k >= |tokens1| || k >= |tokens2| || tokens1[k] != tokens2[k] { return false; }
      k := k + 1;
    }
    assert tokens1 == tokens1[..k] && tokens2 == tokens2[..k];
    return true;
  }

  /** The inner `while line.strip() == ""` loop: moves on to the next line that is not blank. */
  method NextNonBlank(lx: Lexis, f: TextFile, start: nat) returns (pos: nat, line: Read)
    requires start < |f.lines|
    ensures start <= pos <= |f.lines| && line == ReadAt(f, pos)
    ensures pos < |f.lines| ==> !Blank(lx, f.lines[pos])
    ensures Content(lx, f.lines[start..]) == Content(lx, f.lines[pos..])
    ensures EndsBlank(lx, f.lines[start..]) <==> pos == |f.lines| || EndsBlank(lx, f.lines[pos..])
  {
    pos := start;
    line := Line(f.lines[start]);
    StripBlank(lx, line.text);
    while line.Line? && Strip(lx, line.text) == ""
      invariant start <= pos <= |f.lines| && line == ReadAt(f, pos)
      invariant line.Line? ==> (Strip(lx, line.text) == "" <==> Blank(lx, line.text))
      invariant Content(lx, f.lines[start..]) == Content(lx, f.lines[pos..])
      invariant EndsBlank(lx, f.lines[start..]) <==> pos == |f.lines| || EndsBlank(lx, f.lines[pos..])
      decreases |f.lines| - pos
    {
      SkipBlank(lx, f.lines[pos..]);
      assert f.lines[pos..][1..] == f.lines[pos + 1..];
      pos := pos + 1;
      line := ReadAt(f, pos);
      if line.Line? { StripBlank(lx, line.text); }
    }
  }

  /** Once one side has nothing left, the rests agree only if both are empty. */
  lemma AgreeAtEnd(lx: Lexis, a: seq<string>, b: seq<string>)
    requires a == [] || b == []
    ensures ContentAgrees(lx, a, b) <==> a == [] && b == []
  {
    if a != [] && Content(lx, a) == [] { NoContentEndsBlank(lx, a); }
    if b != [] && Content(lx, b) == [] { NoContentEndsBlank(lx, b); }
  }

  /** One turn of the outer loop: with a non-blank line in front of both rests, they agree
      when the lines have the same tokens and what follows agrees. */
  lemma AgreeOneLine(lx: Lexis, a: TextFile, i: nat, b: TextFile, j: nat)
    requires i < |a.lines| && j < |b.lines| && !Blank(lx, a.lines[i]) && !Blank(lx, b.lines[j])
    ensures ContentAgrees(lx, a.lines[i..], b.lines[j..])
       <==> Tokens(lx, a.lines[i]) == Tokens(lx, b.lines[j])
            && ContentAgrees(lx, a.lines[i + 1..], b.lines[j + 1..])
  {
    TakeLine(lx, a.lines[i..]);
    TakeLine(lx, b.lines[j..]);
    assert a.lines[i..][1..] == a.lines[i + 1..] && b.lines[j..][1..] == b.lines[j + 1..];
    var ca, cb := Content(lx, a.lines[i..]), Content(lx, b.lines[j..]);
    assert ca[1..] == Content(lx, a.lines[i + 1..]) && cb[1..] == Content(lx, b.lines[j + 1..]);
  }

  /** The comparison of two lines that are not blank. */
  method SameLine(lx: Lexis, line1: string, line2: string) returns (same: bool)
    ensures same <==> Tokens(lx, line1) == Tokens(lx, line2)
  {
    if line1 == line2 { return true; }
    same := SameTokens(Tokens(lx, line1), Tokens(lx, line2));
  }

  lemma AgreeAfterSkip(lx: Lexis, a: TextFile, i: nat, i': nat, b: TextFile, j: nat, j': nat)
    requires i <= i' <= |a.lines| && j <= j' <= |b.lines|
    requires Content(lx, a.lines[i..]) == Content(lx, a.lines[i'..])
    requires EndsBlank(lx, a.lines[i..]) <==> i' == |a.lines| || EndsBlank(lx, a.lines[i'..])
    requires Content(lx, b.lines[j..]) == Content(lx, b.lines[j'..])
    requires EndsBlank(lx, b.lines[j..]) <==> j' == |b.lines| || EndsBlank(lx, b.lines[j'..])
    ensures ContentAgrees(lx, a.lines[i..], b.lines[j..])
       <==> i' < |a.lines| && j' < |b.lines| && ContentAgrees(lx, a.lines[i'..], b.lines[j'..])
  {
  }

  /** One turn of the outer loop, with a line left on both sides: whether the next lines that are not
      blank exist and have the same tokens, and where to go on. */
  method CompareNext(lx: Lexis, a: TextFile, i: nat, b: TextFile, j: nat) returns (same: bool, i': nat, j': nat)
    requires i < |a.lines| && j < |b.lines|
    ensures same ==> i < i' <= |a.lines| && j < j' <= |b.lines|
                     && (ContentAgrees(lx, a.lines[i..], b.lines[j..])
                         <==> ContentAgrees(lx, a.lines[i'..], b.lines[j'..]))
    ensures !same ==> !ContentAgrees(lx, a.lines[i..], b.lines[j..])
  {
    var line1, line2;
    same, j' := false, j;
    i', line1 := NextNonBlank(lx, a, i);
    if !line1.Line? { return; }
    j', line2 := NextNonBlank(lx, b, j);
    AgreeAfterSkip(lx, a, i, i', b, j, j');
    if !line2.Line? { return; }
    AgreeOneLine(lx, a, i', b, j');
    same := SameLine(lx, line1.text, line2.text);
    i', j' := i' + 1, j' + 1;
  }

  method TextCmp2(lx: Lexis, a: TextFile, b: TextFile) returns (same: bool)
    ensures same <==> a.decodable && b.decodable && Content(lx, a.lines) == Content(lx, b.lines)
                      && (a.lines != [] ==> !Blank(lx, a.lines[|a.lines| - 1]))
                      && (b.lines != [] ==> !Blank(lx, b.lines[|b.lines| - 1]))
  {
    var i, j := 0, 0;
    while true
      invariant 0 <= i <= |a.lines| && 0 <= j <= |b.lines|
      invariant ContentAgrees(lx, a.lines, b.lines) <==> ContentAgrees(lx, a.lines[i..], b.lines[j..])
      decreases |a.lines| - i
    {
      var line1 := ReadAt(a, i);
      if line1.Undecodable? { return false; }
      var line2 := ReadAt(b, j);
      if line2.Undecodable? { return false; }
      if line1.End? || line2.End? {
        AgreeAtEnd(lx, a.lines[i..], b.lines[j..]);
        return line1 == line2;
      }
      var same';
      same', i, j := CompareNext(lx, a, i, b, j);
      if !same' { return false; }
    }
  }

  /** A file passes the comparison with itself exactly when it does not end in a blank line. */
  lemma LooselyAgreeReflexive(lx: Lexis, a: TextFile)
    requires a.decodable
    ensures LooselyAgree(lx, a, a) <==> !EndsBlank(lx, a.lines)
  {
  }

  lemma LooselyAgreeSymmetric(lx: Lexis, a: TextFile, b: TextFile)
    ensures LooselyAgree(lx, a, b) <==> LooselyAgree(lx, b, a)
  {
  }

  lemma LooselyAgreeTransitive(lx: Lexis, a: TextFile, b: TextFile, c: TextFile)
    requires LooselyAgree(lx, a, b) && LooselyAgree(lx, b, c)
    ensures LooselyAgree(lx, a, c)
  {
  }

  // ----- how the two text relations meet -----

  /** Lower-casing leaves a trailing space where it is. */
  ghost predicate LowerKeepsTrailingSpace(lx: Lexis) {
    forall s: string, c :: lx.space(c) ==> lx.lower(s + [c]) == lx.lower(s) + [c]
  }

  lemma {:induction false} TokensOfRstrip(lx: Lexis, s: string)
    requires LowerKeepsTrailingSpace(lx)
    ensures Tokens(lx, Rstrip(lx, s)) == Tokens(lx, s)
  {
    if |s| > 0 && lx.space(s[|s| - 1]) {
      var t, c := s[..|s| - 1], s[|s| - 1];
      assert s == t + [c];
      TokensOfRstrip(lx, t);
      SplitAtSpace(lx, lx.lower(t), c, "");
      assert lx.lower(t) + [c] + "" == lx.lower(s);
    }
  }

  lemma {:induction false} AgreeingLines(lx: Lexis, s: string, t: string)
    requires LowerKeepsTrailingSpace(lx) && Rstrip(lx, s) == Rstrip(lx, t)
    ensures Tokens(lx, s) == Tokens(lx, t) && (Blank(lx, s) <==> Blank(lx, t))
  {
    TokensOfRstrip(lx, s);
    TokensOfRstrip(lx, t);
    RstripBlank(lx, s);
    RstripBlank(lx, t);
  }

  lemma {:induction false} AgreeingContent(lx: Lexis, a: seq<string>, b: seq<string>)
    requires LowerKeepsTrailingSpace(lx) && |a| == |b|
    requires forall i :: 0 <= i < |a| ==> Rstrip(lx, a[i]) == Rstrip(lx, b[i])
    ensures Content(lx, a) == Content(lx, b) && (EndsBlank(lx, a) <==> EndsBlank(lx, b))
  {
    if a != [] {
      AgreeingLines(lx, a[0], b[0]);
      AgreeingLines(lx, a[|a| - 1], b[|a| - 1]);
      AgreeingContent(lx, a[1..], b[1..]);
    }
  }

  /** Files that agree line by line pass the loose comparison exactly when they do not end in a blank line. */
  lemma {:induction false} StrictImpliesLoose(lx: Lexis, a: TextFile, b: TextFile)
    requires LowerKeepsTrailingSpace(lx) && LinesAgree(lx, a, b)
    ensures LooselyAgree(lx, a, b) <==> !EndsBlank(lx, a.lines)
    ensures EndsBlank(lx, a.lines) <==> EndsBlank(lx, b.lines)
  {
    AgreeingContent(lx, a.lines, b.lines);
  }

  // ----- number_cmp -----

  /** `abs(x - y) > e` on floats: every comparison with NaN is false, and so is inf - inf. */
  predicate TooFar(x: Num, y: Num, e: real) {
    match (x, y)
    case (NaN, _) => false
    case (_, NaN) => false
    case (Inf(n), Inf(m)) => n != m
    case (Finite(r), Finite(s)) => (if r < s then s - r else r - s) > e
    case _ => true
  }

  /** What the comparison means for every kind of value. */
  lemma TooFarMeans(x: Num, y: Num, e: real)
    ensures x.Finite? && y.Finite? ==> (TooFar(x, y, e) <==> x.r - y.r > e || y.r - x.r > e || e < 0.0)
    ensures x.NaN? || y.NaN? ==> !TooFar(x, y, e)
    ensures x.Inf? && y.Inf? ==> (TooFar(x, y, e) <==> x != y)
    ensures (x.Inf? && y.Finite?) || (x.Finite? && y.Inf?) ==> TooFar(x, y, e)
  {
  }

  predicate TokenClose(lx: Lexis, s: string, t: string, e: real) {
    if lx.parse(s).Some? && lx.parse(t).Some?
    then !TooFar(lx.parse(s).value, lx.parse(t).value, e)
    else s == t
  }

  lemma TokenCloseMeans(lx: Lexis, s: string, t: string, e: real)
    ensures lx.parse(s).Some? && lx.parse(t).Some? ==>
              (TokenClose(lx, s, t, e) <==> !TooFar(lx.parse(s).value, lx.parse(t).value, e))
    ensures lx.parse(s).None? || lx.parse(t).None? ==> (TokenClose(lx, s, t, e) <==> s == t)
  {
  }

  ghost predicate LineClose(lx: Lexis, s: string, t: string, e: real) {
    var u, v := Split(lx, s), Split(lx, t);
    |u| == |v| && forall k :: 0 <= k < |u| ==> TokenClose(lx, u[k], v[k], e)
  }

  ghost predicate NumbersAgree(lx: Lexis, a: TextFile, b: TextFile, e: real) {
    a.decodable && b.decodable && |a.lines| == |b.lines|
    && forall i :: 0 <= i < |a.lines| ==> LineClose(lx, a.lines[i], b.lines[i], e)
  }

  /** `number_cmp`: a negative bound raises ValueError before anything is read. */
  method NumberCmp(lx: Lexis, a: TextFile, b: TextFile, e: real) returns (r: Result<bool>)
    ensures r.Err? <==> e < 0.0
    ensures r.Err? ==> r.error.Retryable?
    ensures r.Ok? ==>
              (r.value <==> a.decodable && b.decodable && |a.lines| == |b.lines|
                            && forall i :: 0 <= i < |a.lines| ==>
                                 var u, v := Split(lx, a.lines[i]), Split(lx, b.lines[i]);
                                 |u| == |v| && forall k :: 0 <= k < |u| ==> TokenClose(lx, u[k], v[k], e))
  {
    if e < 0.0 { return Err(Retryable); }
    var i := 0;
    while true
      invariant 0 <= i <= |a.lines| && i <= |b.lines|
      invariant forall n :: 0 <= n < i ==> LineClose(lx, a.lines[n], b.lines[n], e)
      decreases |a.lines| - i
    {
      var line1, line2 := ReadAt(a, i), ReadAt(b, i);
      if line1.Undecodable? || line2.Undecodable? { return Ok(false); }
      if line1.End? && line2.End? { return Ok(true); }
      if line1.End? || line2.End? { return Ok(false); }
      var tokens1, tokens2 := Split(lx, line1.text), Split(lx, line2.text);
      if |tokens1| != |tokens2| { return Ok(false); }
      var k := 0;
      while k < |tokens1|
        invariant 0 <= k <= |tokens1|
        invariant forall m :: 0 <= m < k ==> TokenClose(lx, tokens1[m], tokens2[m], e)
      {
        var x, y := lx.parse(tokens1[k]), lx.parse(tokens2[k]);
        if x.Some? && y.Some? {
          if TooFar(x.value, y.value, e) {
            assert !TokenClose(lx, tokens1[k], tokens2[k], e);
            return Ok(false);
          }
        } else if tokens1[k] != tokens2[k] {
          assert !TokenClose(lx, tokens1[k], tokens2[k], e);
          return Ok(false);
        }
        k := k + 1;
      }
      assert LineClose(lx, a.lines[i], b.lines[i], e);
      i := i + 1;
    }
  }

  lemma NumbersAgreeReflexive(lx: Lexis, a: TextFile, e: real)
    requires e >= 0.0 && a.decodable
    ensures NumbersAgree(lx, a, a, e)
  {
  }

  lemma NumbersAgreeSymmetric(lx: Lexis, a: TextFile, b: TextFile, e: real)
    requires NumbersAgree(lx, a, b, e)
    ensures NumbersAgree(lx, b, a, e)
  {
  }

  lemma NumbersAgreeMonotone(lx: Lexis, a: TextFile, b: TextFile, e: real, e': real)
    requires NumbersAgree(lx, a, b, e) && e <= e'
    ensures NumbersAgree(lx, a, b, e')
  {
  }

  /** No token of the file reads as NaN. */
  ghost predicate NaNFree(lx: Lexis, f: TextFile) {
    forall i, t :: 0 <= i < |f.lines| && t in Split(lx, f.lines[i]) ==> lx.parse(t) != Some(NaN)
  }

  /** The triangle law; only the middle file has to be free of NaN. */
  lemma NumbersAgreeTriangle(lx: Lexis, a: TextFile, b: TextFile, c: TextFile, e1: real, e2: real)
    requires e1 >= 0.0 && e2 >= 0.0 && NaNFree(lx, b)
    requires NumbersAgree(lx, a, b, e1) && NumbersAgree(lx, b, c, e2)
    ensures NumbersAgree(lx, a, c, e1 + e2)
  {
  }

  /** A NaN in the middle is close to every number, so there the law fails: a NaN token `n`
      links any two numbers, however far apart. */
  lemma NaNBreaksTriangle(lx: Lexis, s: string, n: string, u: string, e1: real, e2: real)
    requires lx.parse(n) == Some(NaN)
    requires lx.parse(s).Some? && lx.parse(u).Some? && TooFar(lx.parse(s).value, lx.parse(u).value, e1 + e2)
    ensures TokenClose(lx, s, n, e1) && TokenClose(lx, n, u, e2) && !TokenClose(lx, s, u, e1 + e2)
  {
  }
}
