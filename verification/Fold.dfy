/**
  The shared tail of every text pipeline: line endings, trailing blanks, runs of blank lines, outer newlines. The
  Unicode composition that comes first is a parameter, of which three laws are assumed (`Composes`).

  A text is in normal form when it has no carriage return, no blank before a line end, no two empty lines in a row, and
  no outer newline but one at its end; the fold is the identity on those texts and on no others.
*/
module Fold {
  import opened Text

  predicate IsBlank(c: char) {
    c == ' ' || c == '\t'
  }

  /** `replace("\r\n", "\n")`. */
  function JoinReturns(s: string): string {
    if s == [] then []
    else if |s| >= 2 && s[0] == '\r' && s[1] == '\n' then "\n" + JoinReturns(s[2..])
    else [s[0]] + JoinReturns(s[1..])
  }

  /** `replace("\r", "\n")`. */
  function MapReturns(s: string): string {
    if s == [] then [] else [if s[0] == '\r' then '\n' else s[0]] + MapReturns(s[1..])
  }

  /** Remove every run of blanks that reaches the end of a line or of the text. */
  function TrimLines(s: string): string {
    if s == [] then []
    else
      var rest := TrimLines(s[1..]);
      if IsBlank(s[0]) && (rest == [] || rest[0] == '\n') then rest else [s[0]] + rest
  }

  /** Cut every run of three or more newlines to two. */
  function Collapse(s: string): string {
    if s == [] then []
    else if |s| >= 3 && s[0] == '\n' && s[1] == '\n' && s[2] == '\n' then Collapse(s[1..])
    else [s[0]] + Collapse(s[1..])
  }

  predicate IsNewline(c: char) {
    c == '\n'
  }

  function StripNewlines(s: string): string {
    StripRight(StripLeft(s, IsNewline), IsNewline)
  }

  /** Everything after composition. */
  function Folded(s: string): string {
    StripNewlines(Collapse(TrimLines(MapReturns(JoinReturns(s))))) + "\n"
  }

  // ---- The normal form ------------------------------------------------------------------------

  predicate NoReturn(s: string) {
    '\r' !in s
  }

  /** No blank stands before a newline or at the end. */
  predicate Trimmed(s: string) {
    s == [] || (Trimmed(s[1..]) && (IsBlank(s[0]) ==> |s| > 1 && s[1] != '\n'))
  }

  /** No three newlines in a row. */
  predicate Spaced(s: string) {
    s == [] || (Spaced(s[1..]) && !(|s| >= 3 && s[0] == '\n' && s[1] == '\n' && s[2] == '\n'))
  }

  predicate Bare(s: string) {
    s == [] || (s[0] != '\n' && s[|s| - 1] != '\n')
  }

  /** One closing newline, none before the first line, no returns, no trailing blanks, at most one empty line. */
  predicate Normal(s: string) {
    s != [] && s[|s| - 1] == '\n' && var body := s[..|s| - 1];
    NoReturn(body) && Trimmed(body) && Spaced(body) && Bare(body)
  }

  // ---- Folding gives the normal form --------------------------------------------------------------

  lemma {:induction false} MapsReturns(s: string)
    ensures NoReturn(MapReturns(s))
  {
    if s != [] {
      MapsReturns(s[1..]);
    }
  }

  lemma {:induction false} Trims(s: string)
    requires NoReturn(s)
    ensures Trimmed(TrimLines(s)) && NoReturn(TrimLines(s))
  {
    if s != [] {
      assert s == [s[0]] + s[1..];
      Trims(s[1..]);
      var rest := TrimLines(s[1..]);
      assert ([s[0]] + rest)[1..] == rest;
    }
  }

  lemma {:induction false} Collapses(s: string)
    requires NoReturn(s) && Trimmed(s)
    ensures Spaced(Collapse(s)) && NoReturn(Collapse(s)) && Trimmed(Collapse(s))
    ensures s == [] <==> Collapse(s) == []
    ensures s != [] ==> Collapse(s)[0] == s[0]
    ensures |s| >= 2 && |Collapse(s)| >= 2 && s[0] != '\n' ==> Collapse(s)[1] == s[1]
    ensures |s| >= 2 ==> |Collapse(s)| >= 2
    ensures |s| >= 2 && s[0] == '\n' ==> (Collapse(s)[1] == '\n' <==> s[1] == '\n')
  {
    if s != [] {
      assert s == [s[0]] + s[1..];
      Collapses(s[1..]);
      var rest := Collapse(s[1..]);
      if |s| >= 3 && s[0] == '\n' && s[1] == '\n' && s[2] == '\n' {
      } else {
        assert ([s[0]] + rest)[1..] == rest;
      }
    }
  }

  lemma {:induction false} TrimmedSuffix(s: string)
    requires Trimmed(s) && Spaced(s) && NoReturn(s)
    ensures
      var t := StripLeft(s, IsNewline);
      Trimmed(t) && Spaced(t) && NoReturn(t) && (t == [] || t[0] != '\n')
  {
    if s != [] && s[0] == '\n' {
      assert s == [s[0]] + s[1..];
      TrimmedSuffix(s[1..]);
    }
  }

  lemma {:induction false} PrefixStays(s: string)
    requires s != [] && Trimmed(s) && Spaced(s) && NoReturn(s) && s[|s| - 1] == '\n'
    ensures
      var t := s[..|s| - 1];
      Spaced(t) && NoReturn(t) && Trimmed(t)
    decreases |s|
  {
    var t := s[..|s| - 1];
    assert s == t + ['\n'];
    if |s| > 1 {
      PrefixStays(s[1..]);
      assert s[1..][..|s| - 2] == t[1..];
    }
  }

  lemma {:induction false} StripsRight(s: string)
    requires Trimmed(s) && Spaced(s) && NoReturn(s) && (s == [] || s[0] != '\n')
    ensures
      var t := StripRight(s, IsNewline);
      Trimmed(t) && Spaced(t) && NoReturn(t) && Bare(t)
    decreases |s|
  {
    if s != [] && s[|s| - 1] == '\n' {
      PrefixStays(s);
      StripsRight(s[..|s| - 1]);
    }
  }

  /** Whatever the text, folding leaves it in normal form. */
  lemma FoldedIsNormal(s: string)
    ensures Normal(Folded(s))
  {
    var mapped := MapReturns(JoinReturns(s));
    MapsReturns(JoinReturns(s));
    Trims(mapped);
    Collapses(TrimLines(mapped));
    TrimmedSuffix(Collapse(TrimLines(mapped)));
    StripsRight(StripLeft(Collapse(TrimLines(mapped)), IsNewline));
    var body := StripNewlines(Collapse(TrimLines(mapped)));
    assert (body + "\n")[..|body|] == body;
  }

  // ---- A normal form is left alone ------------------------------------------------------------------

  lemma {:induction false} NothingToMap(s: string)
    requires NoReturn(s)
    ensures JoinReturns(s) == s && MapReturns(s) == s
  {
    if s != [] {
      assert s == [s[0]] + s[1..];
      assert s[0] in s;
      NothingToMap(s[1..]);
    }
  }

  lemma {:induction false} NothingToTrim(s: string)
    requires Trimmed(s)
    ensures TrimLines(s + "\n") == s + "\n"
    decreases |s|
  {
    var whole := s + "\n";
    if s != [] {
      NothingToTrim(s[1..]);
      assert whole[1..] == s[1..] + "\n";
      assert whole == [whole[0]] + whole[1..];
    } else {
      assert whole[1..] == [];
    }
  }

  lemma {:induction false} NothingToCollapse(s: string)
    requires Spaced(s) && Bare(s)
    ensures Collapse(s + "\n") == s + "\n"
  {
    CollapseBeforeEnd(s);
  }

  lemma {:induction false} CollapseBeforeEnd(s: string)
    requires Spaced(s) && (s == [] || s[|s| - 1] != '\n')
    ensures Collapse(s + "\n") == s + "\n"
    decreases |s|
  {
    var whole := s + "\n";
    if s != [] {
      CollapseBeforeEnd(s[1..]);
      assert whole[1..] == s[1..] + "\n";
      assert whole == [whole[0]] + whole[1..];
    } else {
      assert whole[1..] == [];
    }
  }

  lemma NothingToStrip(s: string)
    requires Bare(s)
    ensures StripNewlines(s + "\n") == s
  {
    var whole := s + "\n";
    if s == [] {
      assert whole[1..] == [];
      assert StripLeft(whole, IsNewline) == StripLeft([], IsNewline) == [];
    } else {
      assert StripLeft(whole, IsNewline) == whole;
      assert whole[..|whole| - 1] == s;
      assert StripRight(s, IsNewline) == s;
    }
  }

  /** A text in normal form is its own fold. */
  lemma NormalIsFolded(s: string)
    requires Normal(s)
    ensures Folded(s) == s
  {
    var body := s[..|s| - 1];
    assert s == body + "\n";
    assert NoReturn(s);
    NothingToMap(s);
    NothingToTrim(body);
    NothingToCollapse(body);
    NothingToStrip(body);
  }

  /** The folded texts are exactly the normal forms. */
  lemma FoldedIffNormal(s: string)
    ensures Normal(s) <==> Folded(s) == s
  {
    FoldedIsNormal(s);
    if Normal(s) {
      NormalIsFolded(s);
    }
  }

  /** `fold`, with the composition it starts with. */
  function FoldText(s: string, compose: string -> string): string {
    Folded(compose(s))
  }

  // ---- Composition leaves a fold alone -----------------------------------------------------------

  predicate Composed(compose: string -> string, s: string) {
    compose(s) == s
  }

  /**
    What is assumed of Unicode composition, and of nothing else: composing twice is composing once; any slice of a
    composed text is composed; and so are two composed texts joined at a newline, which composes with nothing.
  */
  ghost predicate Composes(compose: string -> string) {
    && (forall s :: Composed(compose, compose(s)))
    && (forall s, i, j :: 0 <= i <= j <= |s| && Composed(compose, s) ==> Composed(compose, s[i..j]))
    && (forall s, t :: Composed(compose, s) && Composed(compose, t) ==> Composed(compose, s + "\n" + t))
  }

  /** The first line, without its newline. */
  function Line(s: string): string {
    if s == [] || s[0] == '\n' then [] else [s[0]] + Line(s[1..])
  }

  /** Every line, from wherever it is read on, is composed. */
  ghost predicate LinesComposed(compose: string -> string, s: string) {
    Composed(compose, Line(s)) && (s != [] ==> LinesComposed(compose, s[1..]))
  }

  lemma {:induction false} LineIsPrefix(s: string)
    ensures Line(s) <= s && (Line(s) == s || s[|Line(s)|] == '\n')
  {
    if s != [] && s[0] != '\n' {
      LineIsPrefix(s[1..]);
      assert s == [s[0]] + s[1..];
    }
  }

  lemma PrefixIsComposed(compose: string -> string, p: string, s: string)
    requires Composes(compose) && Composed(compose, s) && p <= s
    ensures Composed(compose, p)
  {
    assert s[0..|p|] == p;
  }

  lemma {:induction false} ComposedHasComposedLines(compose: string -> string, s: string)
    requires Composes(compose) && Composed(compose, s)
    ensures LinesComposed(compose, s)
    decreases |s|
  {
    LineIsPrefix(s);
    PrefixIsComposed(compose, Line(s), s);
    if s != [] {
      assert s[1..|s|] == s[1..];
      ComposedHasComposedLines(compose, s[1..]);
    }
  }

  lemma {:induction false} RestIsComposed(compose: string -> string, s: string, i: nat)
    requires LinesComposed(compose, s) && i <= |s|
    ensures LinesComposed(compose, s[i..])
    decreases i
  {
    if i > 0 {
      RestIsComposed(compose, s[1..], i - 1);
      assert s[1..][i - 1..] == s[i..];
    } else {
      assert s[0..] == s;
    }
  }

  lemma {:induction false} ComposedLinesAreComposed(compose: string -> string, s: string)
    requires Composes(compose) && LinesComposed(compose, s)
    ensures Composed(compose, s)
    decreases |s|
  {
    var line := Line(s);
    LineIsPrefix(s);
    if line != s {
      var rest := s[|line| + 1..];
      RestIsComposed(compose, s, |line| + 1);
      ComposedLinesAreComposed(compose, rest);
      assert s == line + "\n" + rest;
    }
  }

  /** A rewrite in which each line is the beginning of a line keeps lines composed. */
  lemma LineShrinks(compose: string -> string, c: char, rest: string, s: string)
    requires Composes(compose) && Composed(compose, Line(s)) && LinesComposed(compose, rest)
    requires Line([c] + rest) <= Line(s)
    ensures LinesComposed(compose, [c] + rest)
  {
    PrefixIsComposed(compose, Line([c] + rest), Line(s));
    assert ([c] + rest)[1..] == rest;
  }

  lemma {:induction false} RewritesShrinkLines(s: string)
    ensures Line(JoinReturns(s)) <= Line(s)
    ensures Line(MapReturns(s)) <= Line(s)
    ensures Line(TrimLines(s)) <= Line(s)
    ensures Line(Collapse(s)) <= Line(s)
    decreases |s|
  {
    if s != [] {
      RewritesShrinkLines(s[1..]);
      LineOfCons(s[0], JoinReturns(s[1..]));
      LineOfCons(s[0], MapReturns(s[1..]));
      LineOfCons('\n', MapReturns(s[1..]));
      LineOfCons(s[0], TrimLines(s[1..]));
      LineOfCons(s[0], Collapse(s[1..]));
      if |s| >= 2 && s[0] == '\r' && s[1] == '\n' { LineOfCons('\n', JoinReturns(s[2..])); }
    }
  }

  lemma LineOfCons(c: char, rest: string)
    ensures Line([c] + rest) == if c == '\n' then [] else [c] + Line(rest)
  {
    assert ([c] + rest)[1..] == rest;
  }

  lemma {:induction false} JoinKeepsLines(compose: string -> string, s: string)
    requires Composes(compose) && LinesComposed(compose, s)
    ensures LinesComposed(compose, JoinReturns(s))
    decreases |s|
  {
    RewritesShrinkLines(s);
    if s == [] {
    } else if |s| >= 2 && s[0] == '\r' && s[1] == '\n' {
      RestIsComposed(compose, s, 2);
      JoinKeepsLines(compose, s[2..]);
      LineShrinks(compose, '\n', JoinReturns(s[2..]), s);
    } else {
      JoinKeepsLines(compose, s[1..]);
      LineShrinks(compose, s[0], JoinReturns(s[1..]), s);
    }
  }

  lemma {:induction false} MapKeepsLines(compose: string -> string, s: string)
    requires Composes(compose) && LinesComposed(compose, s)
    ensures LinesComposed(compose, MapReturns(s))
  {
    RewritesShrinkLines(s);
    if s != [] {
      MapKeepsLines(compose, s[1..]);
      LineShrinks(compose, if s[0] == '\r' then '\n' else s[0], MapReturns(s[1..]), s);
    }
  }

  lemma {:induction false} TrimKeepsLines(compose: string -> string, s: string)
    requires Composes(compose) && LinesComposed(compose, s)
    ensures LinesComposed(compose, TrimLines(s))
  {
    RewritesShrinkLines(s);
    if s != [] {
      TrimKeepsLines(compose, s[1..]);
      var rest := TrimLines(s[1..]);
      if !(IsBlank(s[0]) && (rest == [] || rest[0] == '\n')) { LineShrinks(compose, s[0], rest, s); }
    }
  }

  lemma {:induction false} CollapseKeepsLines(compose: string -> string, s: string)
    requires Composes(compose) && LinesComposed(compose, s)
    ensures LinesComposed(compose, Collapse(s))
  {
    RewritesShrinkLines(s);
    if s != [] {
      CollapseKeepsLines(compose, s[1..]);
      if !(|s| >= 3 && s[0] == '\n' && s[1] == '\n' && s[2] == '\n') {
        LineShrinks(compose, s[0], Collapse(s[1..]), s);
      }
    }
  }

  lemma {:induction false} StripLeftKeepsLines(compose: string -> string, s: string)
    requires LinesComposed(compose, s)
    ensures LinesComposed(compose, StripLeft(s, IsNewline))
  {
    if s != [] && s[0] == '\n' {
      StripLeftKeepsLines(compose, s[1..]);
    }
  }

  lemma {:induction false} StripRightIsPrefix(s: string)
    ensures StripRight(s, IsNewline) <= s
    decreases |s|
  {
    if s != [] && s[|s| - 1] == '\n' {
      StripRightIsPrefix(s[..|s| - 1]);
    }
  }

  /** Folding leaves a composed text composed. */
  lemma FoldedIsComposed(compose: string -> string, s: string)
    requires Composes(compose) && Composed(compose, s)
    ensures Composed(compose, Folded(s))
  {
    ComposedHasComposedLines(compose, s);
    JoinKeepsLines(compose, s);
    MapKeepsLines(compose, JoinReturns(s));
    var mapped := MapReturns(JoinReturns(s));
    TrimKeepsLines(compose, mapped);
    CollapseKeepsLines(compose, TrimLines(mapped));
    StripLeftKeepsLines(compose, Collapse(TrimLines(mapped)));
    var stripped := StripLeft(Collapse(TrimLines(mapped)), IsNewline);
    ComposedLinesAreComposed(compose, stripped);
    StripRightIsPrefix(stripped);
    var body := StripRight(stripped, IsNewline);
    PrefixIsComposed(compose, body, stripped);
    PrefixIsComposed(compose, [], stripped);
    assert body + "\n" == body + "\n" + [];
  }

  /** Folding twice is folding once, on every text. */
  lemma FoldIsIdempotent(s: string, compose: string -> string)
    requires Composes(compose)
    ensures FoldText(FoldText(s, compose), compose) == FoldText(s, compose)
  {
    assert Composed(compose, compose(s));
    FoldedIsComposed(compose, compose(s));
    FoldedIsNormal(compose(s));
    NormalIsFolded(FoldText(s, compose));
  }

  // ---- What a reader sees is kept ------------------------------------------------------------------

  predicate IsSpace(c: char) {
    IsBlank(c) || c == '\n' || c == '\r'
  }

  /** The characters that leave ink, in order. */
  function Ink(s: string): string {
    if s == [] then [] else (if IsSpace(s[0]) then [] else [s[0]]) + Ink(s[1..])
  }

  lemma {:induction false} RewritesKeepInk(s: string)
    ensures Ink(JoinReturns(s)) == Ink(s)
    ensures Ink(MapReturns(s)) == Ink(s)
    ensures Ink(TrimLines(s)) == Ink(s)
    ensures Ink(Collapse(s)) == Ink(s)
    decreases |s|
  {
    if s != [] {
      RewritesKeepInk(s[1..]);
      if |s| >= 2 && s[0] == '\r' && s[1] == '\n' {
        RewritesKeepInk(s[2..]);
        assert s[1..][1..] == s[2..];
      }
    }
  }

  lemma {:induction false} StripLeftKeepsInk(s: string)
    ensures Ink(StripLeft(s, IsNewline)) == Ink(s)
  {
    if s != [] && s[0] == '\n' {
      StripLeftKeepsInk(s[1..]);
    }
  }

  lemma InkOfCons(c: char, s: string)
    ensures Ink([c] + s) == (if IsSpace(c) then [] else [c]) + Ink(s)
  {
    assert ([c] + s)[1..] == s;
  }

  lemma {:induction false} InkOfEnd(s: string, c: char)
    ensures Ink(s + [c]) == Ink(s) + if IsSpace(c) then [] else [c]
    decreases |s|
  {
    hide IsSpace;
    if s == [] {
      assert [c][1..] == [] && [] + [c] == [c];
    } else {
      InkOfEnd(s[1..], c);
      InkOfCons(s[0], s[1..] + [c]);
      InkOfCons(s[0], s[1..]);
      assert s == [s[0]] + s[1..] && s + [c] == [s[0]] + (s[1..] + [c]);
      hide Ink;
    }
  }

  lemma {:induction false} StripRightKeepsInk(s: string)
    ensures Ink(StripRight(s, IsNewline)) == Ink(s)
    decreases |s|
  {
    if s != [] && s[|s| - 1] == '\n' {
      StripRightKeepsInk(s[..|s| - 1]);
      InkOfEnd(s[..|s| - 1], '\n');
      assert s == s[..|s| - 1] + ['\n'];
    }
  }

  /** Folding keeps every character that is not white space, in order. */
  lemma FoldKeepsInk(s: string)
    ensures Ink(Folded(s)) == Ink(s)
  {
    var joined := JoinReturns(s);
    var mapped := MapReturns(joined);
    var trimmed := TrimLines(mapped);
    var collapsed := Collapse(trimmed);
    RewritesKeepInk(s);
    RewritesKeepInk(joined);
    RewritesKeepInk(mapped);
    RewritesKeepInk(trimmed);
    StripLeftKeepsInk(collapsed);
    StripRightKeepsInk(StripLeft(collapsed, IsNewline));
    InkOfEnd(StripNewlines(collapsed), '\n');
  }
}
