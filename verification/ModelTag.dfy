/**
  The model tag: one string that says where a vector came from. Spaces are compared by comparing tags, so what
  matters is when rendering loses nothing.

  A slash in a model name is written as two dashes, so a name with a dash before a dash or a slash is read back
  as another name; every other field must keep clear of the delimiters that end it.
*/
module ModelTag {
  import opened Wrappers

  const UNPINNED := "unpinned"

  datatype Tag = Tag(
    provider: string, model: string, revision: string, dimensions: nat, dtype: string, normalization: string,
    pooling: string, prompts: string, preprocess: string, projection: string, chunker: string)

  // ---- Slashes in model names ---------------------------------------------------------------

  /** `replace("/", "--")`. */
  function Escape(m: string): string {
    if m == [] then [] else (if m[0] == '/' then "--" else [m[0]]) + Escape(m[1..])
  }

  /** `replace("--", "/")`, from the left. */
  function Unescape(s: string): string {
    if s == [] then []
    else if |s| >= 2 && s[0] == '-' && s[1] == '-' then "/" + Unescape(s[2..])
    else [s[0]] + Unescape(s[1..])
  }

  /** No dash stands before a dash or a slash. */
  predicate Clean(m: string) {
    |m| < 2 || (!(m[0] == '-' && (m[1] == '-' || m[1] == '/')) && Clean(m[1..]))
  }

  /** A model name survives escaping exactly when no dash stands before a dash or a slash. */
  lemma {:induction false} EscapeReturnsIff(m: string)
    ensures Unescape(Escape(m)) == m <==> Clean(m)
    decreases |m|
  {
    if m != [] {
      var rest := m[1..];
      var tail := Escape(rest);
      EscapeReturnsIff(rest);
      assert m == [m[0]] + rest;
      if m[0] == '/' {
        assert Escape(m) == "--" + tail && ("--" + tail)[2..] == tail;
      } else {
        assert Escape(m) == [m[0]] + tail && ([m[0]] + tail)[1..] == tail;
      }
    }
  }

  lemma {:induction false} EscapeKeeps(m: string, c: char)
    requires c != '/' && c != '-'
    ensures c in Escape(m) <==> c in m
    decreases |m|
  {
    if m != [] {
      EscapeKeeps(m[1..], c);
      assert m == [m[0]] + m[1..];
    }
  }

  lemma {:induction false} UnescapeKeeps(s: string, c: char)
    requires c != '/' && c != '-'
    ensures c in Unescape(s) <==> c in s
    decreases |s|
  {
    if s == [] {
    } else if |s| >= 2 && s[0] == '-' && s[1] == '-' {
      UnescapeKeeps(s[2..], c);
      assert s == "--" + s[2..];
    } else {
      UnescapeKeeps(s[1..], c);
      assert s == [s[0]] + s[1..];
    }
  }

  // ---- Cutting at a delimiter ---------------------------------------------------------------

  /** What stands before and after the first occurrence of a character. */
  function Cut(s: string, c: char): Option<(string, string)> {
    if s == [] then None
    else if s[0] == c then Some(([], s[1..]))
    else
      match Cut(s[1..], c)
      case None => None
      case Some((before, after)) => Some(([s[0]] + before, after))
  }

  lemma {:induction false} CutHolds(s: string, c: char)
    ensures Cut(s, c).None? ==> c !in s
    ensures Cut(s, c).Some? ==> var (before, after) := Cut(s, c).value; c !in before && s == before + [c] + after
    decreases |s|
  {
    if s != [] && s[0] != c {
      CutHolds(s[1..], c);
      assert s == [s[0]] + s[1..];
    }
  }

  lemma {:induction false} CutFirst(before: string, c: char, after: string)
    requires c !in before
    ensures Cut(before + [c] + after, c) == Some((before, after))
    decreases |before|
  {
    var s := before + [c] + after;
    if before == [] {
      assert s[1..] == after;
    } else {
      assert s[1..] == before[1..] + [c] + after;
      CutFirst(before[1..], c, after);
      assert before == [before[0]] + before[1..];
    }
  }

  function Join(parts: seq<string>, c: char): string
    requires parts != []
  {
    if |parts| == 1 then parts[0] else parts[0] + [c] + Join(parts[1..], c)
  }

  function Split(s: string, c: char): (parts: seq<string>)
    ensures parts != []
    decreases |s|
  {
    CutHolds(s, c);
    match Cut(s, c)
    case None => [s]
    case Some((before, after)) => [before] + Split(after, c)
  }

  lemma {:induction false} SplitHasNone(s: string, c: char)
    ensures forall p :: p in Split(s, c) ==> c !in p
    decreases |s|
  {
    CutHolds(s, c);
    if Cut(s, c).Some? {
      SplitHasNone(Cut(s, c).value.1, c);
    }
  }

  lemma {:induction false} SplitJoin(parts: seq<string>, c: char)
    requires parts != [] && forall p :: p in parts ==> c !in p
    ensures Split(Join(parts, c), c) == parts
    decreases |parts|
  {
    assert parts[0] in parts;
    if |parts| == 1 {
      CutHolds(parts[0], c);
    } else {
      CutFirst(parts[0], c, Join(parts[1..], c));
      SplitJoin(parts[1..], c);
    }
  }

  // ---- Numbers --------------------------------------------------------------------------------

  predicate IsDigit(c: char) {
    '0' <= c <= '9'
  }

  function DigitOf(d: nat): char
    requires d < 10
  {
    '0' + d as char
  }

  function Decimal(n: nat): string {
    if n < 10 then [DigitOf(n)] else Decimal(n / 10) + [DigitOf(n % 10)]
  }

  function ReadDecimal(s: string): Option<nat> {
    if s == [] || !IsDigit(s[|s| - 1]) then None
    else
      var d := (s[|s| - 1] - '0') as nat;
      if |s| == 1 then Some(d)
      else
        match ReadDecimal(s[..|s| - 1])
        case None => None
        case Some(n) => Some(10 * n + d)
  }

  lemma {:induction false} DecimalReturns(n: nat)
    ensures ReadDecimal(Decimal(n)) == Some(n) && ',' !in Decimal(n)
  {
    if n >= 10 {
      DecimalReturns(n / 10);
      var s := Decimal(n);
      assert s[..|s| - 1] == Decimal(n / 10);
    }
  }

  // ---- The tag ----------------------------------------------------------------------------------

  function Policies(t: Tag): seq<string> {
    [t.dtype, t.normalization, t.pooling, t.prompts, t.preprocess, t.projection, t.chunker]
  }

  function Tail(t: Tag): string {
    Join(["d" + Decimal(t.dimensions)] + Policies(t), ',')
  }

  function Render(t: Tag): string {
    t.provider + ['/'] + (Escape(t.model) + ['@'] + (t.revision + ['#'] + Tail(t)))
  }

  /** The part after `#`: a width, then seven fields, none empty. */
  function ParseTail(provider: string, model: string, revision: string, tail: string): Option<Tag> {
    var parts := Split(tail, ',');
    if |parts| != 8 || [] in parts || parts[0][0] != 'd' then None
    else
      match ReadDecimal(parts[0][1..])
      case None => None
      case Some(n) =>
        Some(Tag(provider, Unescape(model), if revision == [] then UNPINNED else revision, n,
                 parts[1], parts[2], parts[3], parts[4], parts[5], parts[6], parts[7]))
  }

  function Parse(s: string): Option<Tag> {
    match Cut(s, '/')
    case None => None
    case Some((provider, rest)) =>
      match Cut(rest, '@')
      case None => None
      case Some((model, rest)) =>
        match Cut(rest, '#')
        case None => None
        case Some((revision, tail)) =>
          if provider == [] || model == [] then None else ParseTail(provider, model, revision, tail)
  }

  predicate WellFormed(t: Tag) {
    && t.provider != [] && '/' !in t.provider
    && t.model != [] && '@' !in t.model && Clean(t.model)
    && t.revision != [] && '#' !in t.revision
    && forall p :: p in Policies(t) ==> p != [] && ',' !in p
  }

  lemma PartsAreWhole(t: Tag)
    requires forall p :: p in Policies(t) ==> p != [] && ',' !in p
    ensures ParseTail(t.provider, Escape(t.model), t.revision, Tail(t))
         == Some(t.(model := Unescape(Escape(t.model)), revision := if t.revision == [] then UNPINNED else t.revision))
  {
    var head := "d" + Decimal(t.dimensions);
    var parts := [head] + Policies(t);
    DecimalReturns(t.dimensions);
    forall p | p in parts
      ensures p != [] && ',' !in p
    {
      assert p == head || p in Policies(t);
    }
    SplitJoin(parts, ',');
    assert head[1..] == Decimal(t.dimensions);
  }

  lemma WellFormedReturns(t: Tag)
    requires WellFormed(t)
    ensures Parse(Render(t)) == Some(t)
  {
    EscapeReturnsIff(t.model);
    EscapeKeeps(t.model, '@');
    var rest := t.revision + ['#'] + Tail(t);
    CutFirst(t.provider, '/', Escape(t.model) + ['@'] + rest);
    CutFirst(Escape(t.model), '@', rest);
    CutFirst(t.revision, '#', Tail(t));
    hide Cut, ParseTail, Tail;
    PartsAreWhole(t);
  }

  /** What a parsed tail's fields are made of. */
  lemma ParsedTail(provider: string, model: string, revision: string, tail: string)
    requires ParseTail(provider, model, revision, tail).Some?
    ensures
      var t := ParseTail(provider, model, revision, tail).value;
      && t.provider == provider && t.model == Unescape(model)
      && t.revision == (if revision == [] then UNPINNED else revision)
      && forall p :: p in Policies(t) ==> p != [] && ',' !in p
  {
    SplitHasNone(tail, ',');
    var parts := Split(tail, ',');
    var t := ParseTail(provider, model, revision, tail).value;
    forall p | p in Policies(t)
      ensures p in parts
    {
    }
  }

  lemma ReturnsWellFormed(t: Tag)
    requires Parse(Render(t)) == Some(t)
    ensures WellFormed(t)
  {
    var last := t.revision + ['#'] + Tail(t);
    var rest := Escape(t.model) + ['@'] + last;
    var (provider, r1) := Cut(Render(t), '/').value;
    var (model, r2) := Cut(r1, '@').value;
    var (revision, tail) := Cut(r2, '#').value;
    CutHolds(Render(t), '/');
    CutHolds(r1, '@');
    CutHolds(r2, '#');
    ParsedTail(provider, model, revision, tail);
    hide ParseTail, Tail;
    CutFirst(t.provider, '/', rest);
    assert r1 == rest;
    UnescapeKeeps(model, '@');
    EscapeKeeps(t.model, '@');
    CutFirst(Escape(t.model), '@', last);
    assert model == Escape(t.model) && r2 == last;
    EscapeReturnsIff(t.model);
  }

  /** A tag reads back as itself exactly when it is well formed. */
  lemma ReadsBackIff(t: Tag)
    ensures Parse(Render(t)) == Some(t) <==> WellFormed(t)
  {
    if WellFormed(t) {
      WellFormedReturns(t);
    }
    if Parse(Render(t)) == Some(t) {
      ReturnsWellFormed(t);
    }
  }

  /** Well-formed tags that render alike are the same tag, so comparing strings compares spaces. */
  lemma RenderIsInjective(a: Tag, b: Tag)
    requires WellFormed(a) && WellFormed(b) && Render(a) == Render(b)
    ensures a == b
  {
    ReadsBackIff(a);
    ReadsBackIff(b);
  }

  // ---- What rendering loses ----------------------------------------------------------------

  predicate HasDashes(m: string) {
    exists i :: 0 < i < |m| && m[i - 1] == '-' && m[i] == '-'
  }

  lemma {:induction false} EscapeAppends(m: string, n: string)
    ensures Escape(m + n) == Escape(m) + Escape(n)
    decreases |m|
  {
    if m == [] {
      assert m + n == n;
    } else {
      assert (m + n)[1..] == m[1..] + n;
      EscapeAppends(m[1..], n);
    }
  }

  lemma {:induction false} NothingToEscape(m: string)
    requires '/' !in m
    ensures Escape(m) == m
    decreases |m|
  {
    if m != [] {
      assert m == [m[0]] + m[1..];
      NothingToEscape(m[1..]);
    }
  }

  lemma EscapeOfDashes()
    ensures Escape("/") == "--" && Escape("--") == "--"
  {
    assert "/"[1..] == [] && "--"[1..] == "-" && "-"[1..] == [];
    assert Escape("-") == "-";
  }

  /** Writing two dashes for a slash, or a slash for two dashes, makes no difference to the rendering. */
  lemma SlashesAreDashes(before: string, after: string)
    ensures Escape(before + "/" + after) == Escape(before + "--" + after)
  {
    EscapeOfDashes();
    EscapeAppends(before + "/", after);
    EscapeAppends(before, "/");
    EscapeAppends(before + "--", after);
    EscapeAppends(before, "--");
  }

  lemma SlashesLeaveDashes(m: string)
    requires '/' in m
    ensures HasDashes(Escape(m))
  {
    var i :| 0 <= i < |m| && m[i] == '/';
    assert m == m[..i] + "/" + m[i + 1..];
    SlashesAreDashes(m[..i], m[i + 1..]);
    EscapeOfDashes();
    EscapeAppends(m[..i] + "/", m[i + 1..]);
    EscapeAppends(m[..i], "/");
    var k := |Escape(m[..i])| + 1;
    assert Escape(m)[k - 1] == '-' && Escape(m)[k] == '-';
  }

  lemma SlashHasTwin(m: string)
    requires '/' in m
    ensures exists n :: n != m && Escape(n) == Escape(m)
  {
    hide Escape;
    var i :| 0 <= i < |m| && m[i] == '/';
    var n := m[..i] + "--" + m[i + 1..];
    assert m == m[..i] + "/" + m[i + 1..];
    SlashesAreDashes(m[..i], m[i + 1..]);
    assert |n| != |m|;
  }

  lemma DashesHaveTwin(m: string)
    requires HasDashes(m)
    ensures exists n :: n != m && Escape(n) == Escape(m)
  {
    hide Escape;
    var i :| 0 < i < |m| && m[i - 1] == '-' && m[i] == '-';
    var n := m[..i - 1] + "/" + m[i + 1..];
    assert m == m[..i - 1] + "--" + m[i + 1..];
    SlashesAreDashes(m[..i - 1], m[i + 1..]);
    assert |n| != |m|;
  }

  /** A model name shares its escaped form with another exactly when it has a slash or two dashes in a row. */
  lemma EscapedTwinIff(m: string)
    ensures (exists n :: n != m && Escape(n) == Escape(m)) <==> '/' in m || HasDashes(m)
  {
    hide Escape, HasDashes;
    if '/' in m {
      SlashHasTwin(m);
    } else if HasDashes(m) {
      DashesHaveTwin(m);
    } else if n :| n != m && Escape(n) == Escape(m) {
      NothingToEscape(m);
      if '/' in n { SlashesLeaveDashes(n); }
      NothingToEscape(n);
    }
  }

  /** Two tags that differ in the model render alike exactly when the models escape alike. */
  lemma RenderTellsModelsApart(t: Tag, m: string)
    ensures Render(t.(model := m)) == Render(t) <==> Escape(m) == Escape(t.model)
  {
    var u := t.(model := m);
    var rest := ['@'] + (t.revision + ['#'] + Tail(t));
    assert Tail(u) == Tail(t);
    assert Render(t) == (t.provider + ['/']) + (Escape(t.model) + rest);
    assert Render(u) == (t.provider + ['/']) + (Escape(m) + rest);
    if Render(u) == Render(t) {
      var k := |t.provider| + 1;
      assert Render(t)[k..] == Escape(t.model) + rest && Render(u)[k..] == Escape(m) + rest;
      assert |Escape(m)| == |Escape(t.model)|;
      assert (Escape(m) + rest)[..|Escape(m)|] == (Escape(t.model) + rest)[..|Escape(m)|];
    }
  }

  /** So a tag is mistaken for that of another model exactly when its model has a slash or two dashes in a row. */
  lemma ModelIsMistakenIff(t: Tag)
    ensures (exists m :: m != t.model && Render(t.(model := m)) == Render(t)) <==> '/' in t.model || HasDashes(t.model)
  {
    hide Render, Escape, HasDashes;
    EscapedTwinIff(t.model);
    if m :| m != t.model && Render(t.(model := m)) == Render(t) {
      RenderTellsModelsApart(t, m);
    }
    if m :| m != t.model && Escape(m) == Escape(t.model) {
      RenderTellsModelsApart(t, m);
      assert Render(t.(model := m)) == Render(t);
    }
  }
}
