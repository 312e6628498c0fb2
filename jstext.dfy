/**
 * The JavaScript string operations the source relies on, restricted to what the
 * source needs: the `\s` character class, `trim`, ASCII case mapping, `padStart`,
 * substring search and the "replace every run of a class by one character" idiom.
 */
module JsText {

  /** JavaScript's `\s`: the WhiteSpace and LineTerminator code points. */
  predicate IsSpace(c: char) {
    if c < '\U{80}' then c == ' ' || '\t' <= c <= '\r'
    else
      c == '\U{A0}' || c == '\U{1680}' || ('\U{2000}' <= c <= '\U{200A}')
      || c == '\U{2028}' || c == '\U{2029}' || c == '\U{202F}' || c == '\U{205F}'
      || c == '\U{3000}' || c == '\U{FEFF}'
  }

  /** The characters that `.` does not match in a regular expression. */
  predicate IsLineTerminator(c: char) {
    c == '\n' || c == '\r' || c == '\U{2028}' || c == '\U{2029}'
  }

  predicate IsDigit(c: char) { '0' <= c <= '9' }
  predicate IsUpper(c: char) { 'A' <= c <= 'Z' }
  predicate IsLower(c: char) { 'a' <= c <= 'z' }
  predicate IsLetter(c: char) { IsUpper(c) || IsLower(c) }
  /** `\w`: the characters a `\b` word boundary separates from the rest. */
  predicate IsWordChar(c: char) { IsLetter(c) || IsDigit(c) || c == '_' }

  function LowerChar(c: char): (r: char)
    ensures !IsUpper(r)
    ensures IsLetter(c) <==> IsLetter(r)
    ensures IsDigit(c) <==> IsDigit(r)
    ensures IsSpace(c) <==> IsSpace(r)
    ensures !IsLetter(c) ==> r == c
  {
    if IsUpper(c) then (c as int + 32) as char else c
  }

  function UpperChar(c: char): (r: char)
    ensures !IsLower(r)
    ensures LowerChar(r) == LowerChar(c)
    ensures !IsLetter(c) ==> r == c
  {
    if IsLower(c) then (c as int - 32) as char else c
  }

  /** `toLowerCase`, on the ASCII letters. */
  function ToLower(s: string): (r: string)
    ensures |r| == |s|
  {
    if s == [] then [] else [LowerChar(s[0])] + ToLower(s[1..])
  }

  lemma {:induction false} ToLowerAt(s: string)
    ensures forall i :: 0 <= i < |s| ==> ToLower(s)[i] == LowerChar(s[i])
  {
    if s != [] {
      ToLowerAt(s[1..]);
    }
  }

  predicate NoUpper(s: string) {
    forall i :: 0 <= i < |s| ==> !IsUpper(s[i])
  }

  lemma NoUpperToLower(s: string)
    ensures NoUpper(ToLower(s))
  {
    ToLowerAt(s);
  }

  /** Lower-casing a string without capitals changes nothing. */
  lemma {:induction false} ToLowerOfNoUpper(s: string)
    requires NoUpper(s)
    ensures ToLower(s) == s
  {
    if s != [] {
      ToLowerOfNoUpper(s[1..]);
    }
  }

  /** `toUpperCase`, on the ASCII letters. */
  function ToUpper(s: string): (r: string)
    ensures |r| == |s|
  {
    if s == [] then [] else [UpperChar(s[0])] + ToUpper(s[1..])
  }

  lemma {:induction false} LowerOfUpper(s: string)
    ensures ToLower(ToUpper(s)) == ToLower(s)
  {
    if s != [] {
      LowerOfUpper(s[1..]);
    }
  }

  function TrimStart(s: string): (r: string)
    ensures |r| <= |s|
  {
    if s != [] && IsSpace(s[0]) then TrimStart(s[1..]) else s
  }

  function TrimEnd(s: string): (r: string)
    ensures |r| <= |s|
  {
    if s != [] && IsSpace(s[|s| - 1]) then TrimEnd(s[..|s| - 1]) else s
  }

  /** `TrimStart` drops a prefix of white space and leaves a string that does not start with it. */
  lemma {:induction false} TrimStartShape(s: string)
    ensures var r := TrimStart(s);
      && r == s[|s| - |r|..]
      && (r == [] || !IsSpace(r[0]))
      && (forall i :: 0 <= i < |s| - |r| ==> IsSpace(s[i]))
  {
    if s != [] && IsSpace(s[0]) {
      TrimStartShape(s[1..]);
    }
  }

  /** `TrimEnd` drops a suffix of white space and leaves a string that does not end with it. */
  lemma {:induction false} TrimEndShape(s: string)
    ensures var r := TrimEnd(s);
      && r == s[..|r|]
      && (r == [] || !IsSpace(r[|r| - 1]))
      && (forall i :: |r| <= i < |s| ==> IsSpace(s[i]))
  {
    if s != [] && IsSpace(s[|s| - 1]) {
      TrimEndShape(s[..|s| - 1]);
    }
  }

  /** `String.prototype.trim`. */
  function Trim(s: string): string {
    TrimEnd(TrimStart(s))
  }

  predicate IsTrimmed(s: string) {
    s == [] || (!IsSpace(s[0]) && !IsSpace(s[|s| - 1]))
  }

  lemma TrimStartOfTrimmed(s: string)
    requires s == [] || !IsSpace(s[0])
    ensures TrimStart(s) == s
  {
  }

  lemma {:induction false} TrimEndKeepsFirst(s: string)
    requires s == [] || !IsSpace(s[0])
    ensures var r := TrimEnd(s); r == [] || !IsSpace(r[0])
  {
    TrimEndShape(s);
    var r := TrimEnd(s);
    if r != [] {
      assert r[0] == s[0];
    }
  }

  /** A string without white space at either end is its own trim. */
  lemma TrimOfUnpadded(s: string)
    requires IsTrimmed(s)
    ensures Trim(s) == s
  {
    TrimStartOfTrimmed(s);
  }

  /** `trim` returns a slice of its argument. */
  lemma TrimSlice(s: string)
    ensures exists i, j :: 0 <= i <= j <= |s| && Trim(s) == s[i..j]
  {
    var t := TrimStart(s);
    TrimStartShape(s);
    TrimEndShape(t);
    var r := TrimEnd(t);
    var i := |s| - |t|;
    assert r == s[i..i + |r|];
  }

  /** What `trim` returns has no white space at either end, and trimming again changes nothing. */
  lemma TrimIsTrimmed(s: string)
    ensures IsTrimmed(Trim(s))
    ensures Trim(Trim(s)) == Trim(s)
  {
    var t := TrimStart(s);
    TrimStartShape(s);
    TrimEndKeepsFirst(t);
    var r := TrimEnd(t);
    TrimEndShape(t);
    TrimStartOfTrimmed(r);
  }

  /** `s.padStart(n, c)` with a one-character fill string. */
  function PadStart(s: string, n: nat, c: char): (r: string)
    ensures |r| == if |s| >= n then |s| else n
    ensures r[|r| - |s|..] == s
    ensures forall i :: 0 <= i < |r| - |s| ==> r[i] == c
  {
    if |s| >= n then s else seq(n - |s|, _ => c) + s
  }

  predicate StartsWith(s: string, prefix: string) {
    |prefix| <= |s| && s[..|prefix|] == prefix
  }

  /** `s.includes(sub)`. */
  predicate Contains(s: string, sub: string) {
    StartsWith(s, sub) || (s != [] && Contains(s[1..], sub))
  }

  /** Case-insensitive comparison of two strings of equal length (the `i` flag, ASCII). */
  predicate EqualsIgnoreCase(s: string, t: string) {
    ToLower(s) == ToLower(t)
  }

  /** `s` begins with `pattern`, letters compared without case. */
  predicate StartsWithIgnoreCase(s: string, pattern: string) {
    |pattern| <= |s| && ToLower(s[..|pattern|]) == ToLower(pattern)
  }

  /** The suffix left after the longest prefix of `\s` characters (a greedy `\s*`). */
  function SkipSpaces(s: string): (r: string)
    ensures |r| <= |s|
  {
    TrimStart(s)
  }

  /** The length of the longest prefix of ASCII digits (a greedy `\d*`). */
  function LeadingDigits(s: string): (n: nat)
    ensures n <= |s|
  {
    if s != [] && IsDigit(s[0]) then 1 + LeadingDigits(s[1..]) else 0
  }

  lemma {:induction false} LeadingDigitsShape(s: string)
    ensures var n := LeadingDigits(s);
      (forall i :: 0 <= i < n ==> IsDigit(s[i])) && (n == |s| || !IsDigit(s[n]))
  {
    if s != [] && IsDigit(s[0]) {
      LeadingDigitsShape(s[1..]);
    }
  }

  /** The length of the longest prefix of `\s` characters. */
  function LeadingSpaces(s: string): (n: nat)
    ensures n <= |s|
  {
    if s != [] && IsSpace(s[0]) then 1 + LeadingSpaces(s[1..]) else 0
  }

  /**
   * `s.replace(/[class]+/g, [rep])`: every maximal run of characters in the class
   * becomes the single character `rep`, which itself belongs to the class.
   * Written from the right so that one step handles one more input character.
   */
  function ReplaceRuns(s: string, inClass: char -> bool, rep: char): (r: string)
    requires inClass(rep)
  {
    if s == [] then []
    else
      var done := ReplaceRuns(s[..|s| - 1], inClass, rep);
      var c := s[|s| - 1];
      if !inClass(c) then done + [c]
      else if done != [] && done[|done| - 1] == rep then done
      else done + [rep]
  }

  /** After `ReplaceRuns`, the only class member left is `rep`, and it never occurs twice in a row. */
  lemma {:induction false} ReplaceRunsShape(s: string, inClass: char -> bool, rep: char)
    requires inClass(rep)
    ensures var r := ReplaceRuns(s, inClass, rep);
      && (forall i :: 0 <= i < |r| ==> (inClass(r[i]) ==> r[i] == rep))
      && (forall i :: 0 <= i < |r| - 1 ==> !(r[i] == rep && r[i + 1] == rep))
      && (forall i :: 0 <= i < |r| ==> r[i] == rep || r[i] in s)
      && (r != [] <==> s != [])
      && (s != [] ==> (r[|r| - 1] == rep <==> inClass(s[|s| - 1])))
      && (s != [] ==> (r[0] == rep <==> inClass(s[0])))
  {
    if s != [] {
      var p := s[..|s| - 1];
      ReplaceRunsShape(p, inClass, rep);
      if p != [] {
        assert p[0] == s[0];
      }
      forall x | x in p ensures x in s {
        var k :| 0 <= k < |p| && p[k] == x;
        assert s[k] == x;
      }
    }
  }

  /** A string with no class member passes through unchanged. */
  lemma {:induction false} ReplaceRunsNoClass(s: string, inClass: char -> bool, rep: char)
    requires inClass(rep)
    requires forall i :: 0 <= i < |s| ==> !inClass(s[i])
    ensures ReplaceRuns(s, inClass, rep) == s
  {
    if s != [] {
      ReplaceRunsNoClass(s[..|s| - 1], inClass, rep);
      assert s == s[..|s| - 1] + [s[|s| - 1]];
    }
  }

  /** The characters of `s` outside the class, in order. */
  function Outside(s: string, inClass: char -> bool): (r: string)
    ensures |r| <= |s|
  {
    if s == [] then []
    else Outside(s[..|s| - 1], inClass) + (if inClass(s[|s| - 1]) then [] else [s[|s| - 1]])
  }

  lemma {:induction false} OutsideAppend(a: string, b: string, inClass: char -> bool)
    ensures Outside(a + b, inClass) == Outside(a, inClass) + Outside(b, inClass)
  {
    if b == [] {
      assert a + b == a;
    } else {
      var p, c := b[..|b| - 1], b[|b| - 1];
      assert (a + b)[..|a + b| - 1] == a + p;
      assert (a + b)[|a + b| - 1] == c;
      OutsideAppend(a, p, inClass);
    }
  }

  lemma {:induction false} OutsideOfClass(s: string, inClass: char -> bool)
    requires forall i :: 0 <= i < |s| ==> inClass(s[i])
    ensures Outside(s, inClass) == []
  {
    if s != [] {
      OutsideOfClass(s[..|s| - 1], inClass);
    }
  }

  /** Trimming removes white space only: every other character is kept, in order. */
  lemma TrimKeepsOthers(s: string)
    ensures Outside(Trim(s), IsSpace) == Outside(s, IsSpace)
  {
    var t := TrimStart(s);
    TrimStartShape(s);
    TrimEndShape(t);
    var r := TrimEnd(t);
    var k := |s| - |t|;
    assert s == s[..k] + t;
    OutsideOfClass(s[..k], IsSpace);
    OutsideAppend(s[..k], t, IsSpace);
    assert t == r + t[|r|..];
    OutsideOfClass(t[|r|..], IsSpace);
    OutsideAppend(r, t[|r|..], IsSpace);
  }

  /** `ReplaceRuns` keeps every character outside the class, in order. */
  lemma {:induction false} ReplaceRunsKeepsOthers(s: string, inClass: char -> bool, rep: char)
    requires inClass(rep)
    ensures Outside(ReplaceRuns(s, inClass, rep), inClass) == Outside(s, inClass)
  {
    if s != [] {
      var p, c := s[..|s| - 1], s[|s| - 1];
      var done := ReplaceRuns(p, inClass, rep);
      ReplaceRunsKeepsOthers(p, inClass, rep);
      if !inClass(c) {
        assert (done + [c])[..|done + [c]| - 1] == done;
      } else if done == [] || done[|done| - 1] != rep {
        assert (done + [rep])[..|done + [rep]| - 1] == done;
      }
    }
  }

  /** A non-empty run of class members becomes the one character `rep`. */
  lemma {:induction false} ReplaceRunsRun(s: string, inClass: char -> bool, rep: char)
    requires inClass(rep)
    requires s != [] && forall i :: 0 <= i < |s| ==> inClass(s[i])
    ensures ReplaceRuns(s, inClass, rep) == [rep]
  {
    if |s| > 1 {
      ReplaceRunsRun(s[..|s| - 1], inClass, rep);
    }
  }

  /**
   * A character outside the class separates the replacement: the runs on its
   * left and on its right are replaced independently. With `ReplaceRunsRun`
   * and the empty case this determines `ReplaceRuns` on every input.
   */
  lemma {:induction false} ReplaceRunsSplit(a: string, x: char, b: string, inClass: char -> bool, rep: char)
    requires inClass(rep) && !inClass(x)
    ensures ReplaceRuns(a + [x] + b, inClass, rep)
      == ReplaceRuns(a, inClass, rep) + [x] + ReplaceRuns(b, inClass, rep)
  {
    var ax := a + [x];
    if b == [] {
      assert ax + b == ax;
      ReplaceRunsSnoc(a, x, inClass, rep);
    } else {
      var p, c := b[..|b| - 1], b[|b| - 1];
      ReplaceRunsSplit(a, x, p, inClass, rep);
      assert ax + b == (ax + p) + [c];
      assert b == p + [c];
      ReplaceRunsSnoc(ax + p, c, inClass, rep);
      ReplaceRunsSnoc(p, c, inClass, rep);
      RunStepAfter(ReplaceRuns(a, inClass, rep), x, ReplaceRuns(p, inClass, rep), c, inClass, rep);
    }
  }

  /** What one more character does to the replacement `done` built so far. */
  function RunStep(done: string, c: char, inClass: char -> bool, rep: char): string {
    if !inClass(c) then done + [c]
    else if done != [] && done[|done| - 1] == rep then done
    else done + [rep]
  }

  lemma ReplaceRunsSnoc(s: string, c: char, inClass: char -> bool, rep: char)
    requires inClass(rep)
    ensures ReplaceRuns(s + [c], inClass, rep) == RunStep(ReplaceRuns(s, inClass, rep), c, inClass, rep)
  {
    assert (s + [c])[..|s + [c]| - 1] == s;
  }

  /** A step after a character outside the class only touches what follows that character. */
  lemma RunStepAfter(pre: string, x: char, rp: string, c: char, inClass: char -> bool, rep: char)
    requires inClass(rep) && !inClass(x)
    ensures RunStep(pre + [x] + rp, c, inClass, rep) == pre + [x] + RunStep(rp, c, inClass, rep)
  {
    var done := pre + [x] + rp;
    if inClass(c) {
      if rp == [] {
        assert done[|done| - 1] == x;
      } else {
        assert done[|done| - 1] == rp[|rp| - 1];
      }
    }
  }

  /** `s.replace(/^c+|c+$/g, "")`: drop every leading and trailing `c`. */
  function StripChar(s: string, c: char): (r: string)
    ensures r == [] || (r[0] != c && r[|r| - 1] != c)
  {
    if s != [] && s[0] == c then StripChar(s[1..], c)
    else if s != [] && s[|s| - 1] == c then StripChar(s[..|s| - 1], c)
    else s
  }

  /** Every character of `s` satisfies `p` (a regular-expression class with `*`). */
  predicate AllChars(s: string, p: char -> bool) {
    s == [] || (p(s[0]) && AllChars(s[1..], p))
  }

  lemma {:induction false} AllCharsMeans(s: string, p: char -> bool)
    ensures AllChars(s, p) <==> forall i :: 0 <= i < |s| ==> p(s[i])
  {
    if s != [] {
      AllCharsMeans(s[1..], p);
      assert forall i :: 1 <= i < |s| ==> s[i] == s[1..][i - 1];
    }
  }

  lemma ToLowerAppend(a: string, b: string)
    ensures ToLower(a + b) == ToLower(a) + ToLower(b)
  {
    ToLowerAt(a + b);
    ToLowerAt(a);
    ToLowerAt(b);
    assert forall i :: 0 <= i < |a + b| ==> ToLower(a + b)[i] == (ToLower(a) + ToLower(b))[i];
  }

  /** The decimal spelling of a natural number, as `String(n)` writes it. */
  function DecimalString(n: nat): (r: string)
    ensures r != [] && forall i :: 0 <= i < |r| ==> IsDigit(r[i])
    decreases n
  {
    if n < 10 then [('0' as int + n) as char]
    else DecimalString(n / 10) + [('0' as int + n % 10) as char]
  }
}
