/**
  The building blocks of the sign-in and sign-up form rules: the `required` and
  `minLength` rules of react-hook-form on a string field, and the meaning of the two
  regular expressions the forms use, under JavaScript's regular-expression semantics
  (ECMAScript 2024, section 22.2): `\s` is WhiteSpace or LineTerminator, `.` is any
  character but a LineTerminator, `\d` is `[0-9]`, and without the `m` flag `^` only
  matches at the start of the string.
 */
module Validation {

  /** `required`: the field is not the empty string. */
  predicate Required(value: string)
  {
    value != ""
  }

  /** `minLength`: at least `n` characters. */
  predicate MinLength(value: string, n: nat)
  {
    |value| >= n
  }

  /** LineTerminator: LF, CR, LINE SEPARATOR and PARAGRAPH SEPARATOR. */
  predicate IsLineTerminator(c: char)
  {
    c == '\n' || c == '\r' || c == '\U{2028}' || c == '\U{2029}'
  }

  /** `\s`: TAB, VT, FF, ZWNBSP, the space separators (category Zs) and the line terminators. */
  predicate IsSpace(c: char)
  {
    || c == '\t' || c == '\U{000B}' || c == '\U{000C}' || c == '\U{FEFF}'
    || c == ' ' || c == '\U{00A0}' || c == '\U{1680}' || '\U{2000}' <= c <= '\U{200A}'
    || c == '\U{202F}' || c == '\U{205F}' || c == '\U{3000}'
    || IsLineTerminator(c)
  }

  /** Every character of `s[lo..hi]` matches `\S`. */
  predicate NonSpaceRun(s: string, lo: int, hi: int)
    requires 0 <= lo <= hi <= |s|
  {
    forall k :: lo <= k < hi ==> !IsSpace(s[k])
  }

  /**
    `/\S+@\S+\.\S+/` matches `s[i..e]`, with the '@' at `a` and the '.' at `d`: three
    non-empty runs of non-space characters joined by '@' and '.'.
   */
  predicate EmailMatchAt(s: string, i: int, a: int, d: int, e: int)
  {
    && 0 <= i < a && a + 1 < d && d + 1 < e <= |s|
    && NonSpaceRun(s, i, a) && s[a] == '@'
    && NonSpaceRun(s, a + 1, d) && s[d] == '.'
    && NonSpaceRun(s, d + 1, e)
  }

  /** `s.match(/\S+@\S+\.\S+/)` succeeds: the pattern is not anchored, so it may match anywhere. */
  ghost predicate EmailPattern(s: string)
  {
    exists i, a, d, e :: EmailMatchAt(s, i, a, d, e)
  }

  /**
    The shortest form of a match: an '@' at `a` right after a non-space character,
    a '.' at `d` after a non-empty run of non-space characters, and a non-space
    character right after the '.'.
   */
  predicate EmailShapeAt(s: string, a: int, d: int)
  {
    && 0 < a && a + 1 < d && d + 1 < |s|
    && !IsSpace(s[a - 1]) && s[a] == '@'
    && NonSpaceRun(s, a + 1, d) && s[d] == '.'
    && !IsSpace(s[d + 1])
  }

  /** The pattern matches exactly when the shortest form occurs: `+` can always shrink to one character. */
  lemma EmailPatternShape(s: string)
    ensures EmailPattern(s) <==> exists a, d :: EmailShapeAt(s, a, d)
  {
    if EmailPattern(s) {
      var i, a, d, e :| EmailMatchAt(s, i, a, d, e);
      assert EmailShapeAt(s, a, d);
    }
    if exists a, d :: EmailShapeAt(s, a, d) {
      var a, d :| EmailShapeAt(s, a, d);
      assert EmailMatchAt(s, a - 1, a, d, d + 2);
    }
  }

  /** A string with a match keeps it whatever surrounds it: the pattern looks for a substring. */
  lemma EmailPatternInContext(s: string, before: string, after: string)
    requires EmailPattern(s)
    ensures EmailPattern(before + s + after)
  {
    var i, a, d, e :| EmailMatchAt(s, i, a, d, e);
    var t := before + s + after;
    var o := |before|;
    assert forall k :: 0 <= k < |s| ==> t[o + k] == s[k];
    assert EmailMatchAt(t, o + i, o + a, o + d, o + e);
  }

  /** A match needs at least five characters, so the pattern alone already rejects "". */
  lemma EmailPatternLength(s: string)
    requires EmailPattern(s)
    ensures |s| >= 5 && Required(s)
  {
    var i, a, d, e :| EmailMatchAt(s, i, a, d, e);
  }

  /** How loose the pattern is: what it takes and what it refuses. */
  lemma EmailPatternExamples()
    ensures EmailPattern("a@b.c")
    ensures EmailPattern("a@@..")
    ensures EmailPattern("say a@b.c now")
    ensures !EmailPattern("a@b")
    ensures !EmailPattern("a @b.c")
  {
    assert EmailMatchAt("a@b.c", 0, 1, 3, 5);
    assert EmailMatchAt("a@@..", 0, 1, 3, 5);
    EmailPatternInContext("a@b.c", "say ", " now");
    assert "say " + "a@b.c" + " now" == "say a@b.c now";
    EmailPatternShape("a @b.c");
    EmailPatternShape("a@b");
  }

  /** The character classes the password lookaheads ask for. */
  datatype CharClass = Lower | Upper | Digit

  predicate InClass(c: char, cls: CharClass)
  {
    match cls
    case Lower => 'a' <= c <= 'z'
    case Upper => 'A' <= c <= 'Z'
    case Digit => '0' <= c <= '9'
  }

  /** No line terminator among `s[0..k]`. */
  predicate NoLineTerminatorBefore(s: string, k: int)
    requires 0 <= k <= |s|
  {
    forall j :: 0 <= j < k ==> !IsLineTerminator(s[j])
  }

  /** `^(?=.*X)`: from the start, `.*` can reach a character of class X. */
  predicate LookaheadFromStart(s: string, cls: CharClass)
  {
    exists k :: 0 <= k < |s| && InClass(s[k], cls) && NoLineTerminatorBefore(s, k)
  }

  /** `/^(?=.*[a-z])(?=.*[A-Z])(?=.*\d)/` matches. */
  predicate PasswordPattern(s: string)
  {
    LookaheadFromStart(s, Lower) && LookaheadFromStart(s, Upper) && LookaheadFromStart(s, Digit)
  }

  /** The characters before the first line terminator. */
  function FirstLine(s: string): (r: string)
    ensures |r| <= |s| && r == s[..|r|]
    ensures NoLineTerminatorBefore(s, |r|)
    ensures |r| < |s| ==> IsLineTerminator(s[|r|])
  {
    if s == [] || IsLineTerminator(s[0]) then [] else [s[0]] + FirstLine(s[1..])
  }

  /** A lookahead from the start succeeds exactly when its class occurs on the first line. */
  lemma LookaheadFirstLine(s: string, cls: CharClass)
    ensures LookaheadFromStart(s, cls) <==> exists c :: c in FirstLine(s) && InClass(c, cls)
  {
    var r := FirstLine(s);
    if LookaheadFromStart(s, cls) {
      var k :| 0 <= k < |s| && InClass(s[k], cls) && NoLineTerminatorBefore(s, k);
      assert !IsLineTerminator(s[k]);
      assert k < |r|;
      assert r[k] == s[k];
    }
    if exists c :: c in r && InClass(c, cls) {
      var c :| c in r && InClass(c, cls);
      var k :| 0 <= k < |r| && r[k] == c;
      assert s[k] == c;
      assert NoLineTerminatorBefore(s, k);
    }
  }

  /** Passwords the pattern takes: one of each class on the first line. */
  lemma PasswordPatternAccepts()
    ensures PasswordPattern("Abc123")
    ensures PasswordPattern("aB1")
  {
    assert InClass("Abc123"[1], Lower) && NoLineTerminatorBefore("Abc123", 1);
    assert InClass("Abc123"[0], Upper) && NoLineTerminatorBefore("Abc123", 0);
    assert InClass("Abc123"[3], Digit) && NoLineTerminatorBefore("Abc123", 3);
    assert InClass("aB1"[0], Lower) && NoLineTerminatorBefore("aB1", 0);
    assert InClass("aB1"[1], Upper) && NoLineTerminatorBefore("aB1", 1);
    assert InClass("aB1"[2], Digit) && NoLineTerminatorBefore("aB1", 2);
  }

  /** A password with no capital letter is refused. */
  lemma PasswordPatternRejects()
    ensures !PasswordPattern("abc123")
  {
    var s := "abc123";
    forall k | 0 <= k < |s|
      ensures !InClass(s[k], Upper)
    {
    }
  }

  /** A capital that only appears after a line break does not satisfy the lookahead from `^`. */
  lemma PasswordPatternFirstLineOnly()
    ensures !PasswordPattern("abcdef\nA1")
  {
    var s := "abcdef\nA1";
    assert IsLineTerminator(s[6]);
    forall k | 0 <= k < |s| && InClass(s[k], Upper)
      ensures !NoLineTerminatorBefore(s, k)
    {
      assert k == 7;
    }
  }
}
