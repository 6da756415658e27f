/**
 * String helpers shared by the backend and the Python services: case folding,
 * substring search, whitespace trimming, runs of a character class (the regular
 * expressions `\d+` and `\b\w+\b`) and the decimal rendering of naturals.
 * Case folding covers ASCII letters only.
 */
module Text {

  /** ASCII lower-casing of one character; every other character is kept. */
  function LowerChar(c: char): char {
    if 'A' <= c <= 'Z' then (c as int + 32) as char else c
  }

  /** `s.lower()` / `s.toLowerCase()` restricted to ASCII letters. */
  function Lower(s: string): (r: string)
    ensures |r| == |s|
    ensures forall i :: 0 <= i < |s| ==> r[i] == LowerChar(s[i])
  {
    seq(|s|, i requires 0 <= i < |s| => LowerChar(s[i]))
  }

  /** `s.startsWith(prefix)`. */
  predicate StartsWith(s: string, prefix: string) {
    prefix <= s
  }

  /** Python's `sub in s` and JavaScript's `s.includes(sub)`: `sub` occurs somewhere in `s`. */
  predicate Contains(s: string, sub: string) {
    exists i | 0 <= i <= |s| - |sub| :: OccursAt(s, sub, i)
  }

  /** `sub` occurs in `s` starting at index `i`. */
  predicate OccursAt(s: string, sub: string, i: int) {
    0 <= i <= |s| - |sub| && s[i..i + |sub|] == sub
  }

  lemma ContainsAt(s: string, sub: string, i: int)
    requires OccursAt(s, sub, i)
    ensures Contains(s, sub)
  {
  }

  /** Occurrence is preserved when the text is extended on either side. */
  lemma {:induction false} ContainsInConcat(a: string, s: string, b: string, sub: string)
    requires Contains(s, sub)
    ensures Contains(a + s + b, sub)
  {
    var i :| 0 <= i <= |s| - |sub| && OccursAt(s, sub, i);
    var t := a + s + b;
    assert t[|a| + i..|a| + i + |sub|] == s[i..i + |sub|];
    ContainsAt(t, sub, |a| + i);
  }

  /** The characters JavaScript's `String.prototype.trim` removes (white space and line terminators). */
  predicate IsSpace(c: char) {
    c == ' ' || c == '\t' || c == '\n' || c == '\r' || c == '\U{000B}' || c == '\U{000C}'
    || c == '\U{00A0}' || c == '\U{1680}' || ('\U{2000}' <= c <= '\U{200A}')
    || c == '\U{2028}' || c == '\U{2029}' || c == '\U{202F}' || c == '\U{205F}'
    || c == '\U{3000}' || c == '\U{FEFF}'
  }

  function TrimStart(s: string): (r: string)
    ensures |r| <= |s| && r == s[|s| - |r|..]
  {
    if s != [] && IsSpace(s[0]) then TrimStart(s[1..]) else s
  }

  function TrimEnd(s: string): (r: string)
    ensures |r| <= |s| && r == s[..|r|]
  {
    if s != [] && IsSpace(s[|s| - 1]) then TrimEnd(s[..|s| - 1]) else s
  }

  /** `String(x).trim()` on a string `x`. */
  function Trim(s: string): string {
    TrimEnd(TrimStart(s))
  }

  lemma {:induction false} TrimStartNoLeadingSpace(s: string)
    ensures var r := TrimStart(s); r == [] || !IsSpace(r[0])
    decreases |s|
  {
    if s != [] && IsSpace(s[0]) {
      TrimStartNoLeadingSpace(s[1..]);
    }
  }

  lemma {:induction false} TrimEndNoTrailingSpace(s: string)
    ensures var r := TrimEnd(s); r == [] || !IsSpace(r[|r| - 1])
    decreases |s|
  {
    if s != [] && IsSpace(s[|s| - 1]) {
      TrimEndNoTrailingSpace(s[..|s| - 1]);
    }
  }

  lemma {:induction false} TrimEndKeepsLeading(s: string)
    requires s == [] || !IsSpace(s[0])
    ensures var r := TrimEnd(s); r == [] || !IsSpace(r[0])
    decreases |s|
  {
    if s != [] && IsSpace(s[|s| - 1]) {
      TrimEndKeepsLeading(s[..|s| - 1]);
    }
  }

  /** A trimmed string neither starts nor ends with white space. */
  lemma TrimmedEnds(s: string)
    ensures var r := Trim(s); r == [] || (!IsSpace(r[0]) && !IsSpace(r[|r| - 1]))
  {
    TrimStartNoLeadingSpace(s);
    TrimEndKeepsLeading(TrimStart(s));
    TrimEndNoTrailingSpace(TrimStart(s));
  }

  /** So trimming twice changes nothing. */
  lemma TrimIdempotent(s: string)
    ensures Trim(Trim(s)) == Trim(s)
  {
    var r := Trim(s);
    TrimmedEnds(s);
    assert TrimStart(r) == r;
  }

  /** Leading white space is skipped whatever follows it. */
  lemma {:induction false} TrimStartSkipsSpaces(ws: string, x: string)
    requires forall i :: 0 <= i < |ws| ==> IsSpace(ws[i])
    ensures TrimStart(ws + x) == TrimStart(x)
    decreases |ws|
  {
    if ws != [] {
      assert (ws + x)[0] == ws[0];
      assert (ws + x)[1..] == ws[1..] + x;
      TrimStartSkipsSpaces(ws[1..], x);
    } else {
      assert ws + x == x;
    }
  }

  /** Trailing white space is dropped whatever precedes it. */
  lemma {:induction false} TrimEndSkipsSpaces(x: string, ws: string)
    requires forall i :: 0 <= i < |ws| ==> IsSpace(ws[i])
    ensures TrimEnd(x + ws) == TrimEnd(x)
    decreases |ws|
  {
    if ws != [] {
      assert (x + ws)[|x + ws| - 1] == ws[|ws| - 1];
      assert (x + ws)[..|x + ws| - 1] == x + ws[..|ws| - 1];
      TrimEndSkipsSpaces(x, ws[..|ws| - 1]);
    } else {
      assert x + ws == x;
    }
  }

  /** Trimming the start of `s + y` trims `s` and keeps `y`, unless `s` is all white space. */
  lemma {:induction false} TrimStartOfConcat(s: string, y: string)
    ensures TrimStart(s) != [] ==> TrimStart(s + y) == TrimStart(s) + y
    ensures TrimStart(s) == [] ==> TrimStart(s + y) == TrimStart(y)
    decreases |s|
  {
    if s != [] {
      assert (s + y)[0] == s[0];
      if IsSpace(s[0]) {
        assert (s + y)[1..] == s[1..] + y;
        TrimStartOfConcat(s[1..], y);
      }
    } else {
      assert s + y == y;
    }
  }

  /** White space around a string makes no difference once it is trimmed. */
  lemma {:induction false} TrimIgnoresPadding(s: string, left: string, right: string)
    requires forall i :: 0 <= i < |left| ==> IsSpace(left[i])
    requires forall i :: 0 <= i < |right| ==> IsSpace(right[i])
    ensures Trim(left + s + right) == Trim(s)
  {
    assert left + s + right == left + (s + right);
    TrimStartSkipsSpaces(left, s + right);
    TrimStartOfConcat(s, right);
    if TrimStart(s) != [] {
      TrimEndSkipsSpaces(TrimStart(s), right);
    } else {
      TrimStartSkipsSpaces(right, []);
      assert right + [] == right;
    }
  }

  /** A string of white space trims to the empty string. */
  lemma TrimOfSpaces(ws: string)
    requires forall i :: 0 <= i < |ws| ==> IsSpace(ws[i])
    ensures Trim(ws) == []
  {
    TrimStartSkipsSpaces(ws, []);
    assert ws + [] == ws;
  }

  /** Decimal digits `0`..`9` (the model's reading of `\d`). */
  predicate IsDigit(c: char) {
    '0' <= c <= '9'
  }

  /** Word characters: ASCII letters, digits and the underscore (the model's reading of `\w`). */
  predicate IsWordChar(c: char) {
    ('a' <= c <= 'z') || ('A' <= c <= 'Z') || IsDigit(c) || c == '_'
  }

  /** Length of the longest prefix of `s` whose characters all satisfy `inClass`. */
  function RunLength(s: string, inClass: char -> bool): (n: nat)
    ensures n <= |s|
    ensures forall i :: 0 <= i < n ==> inClass(s[i])
    ensures n < |s| ==> !inClass(s[n])
  {
    if s != [] && inClass(s[0]) then 1 + RunLength(s[1..], inClass) else 0
  }

  /**
   * The maximal runs of characters of one class, left to right: what
   * `re.findall(r'\d+', s)` returns for the class of digits.
   */
  function Runs(s: string, inClass: char -> bool): seq<string>
    decreases |s|
  {
    if s == [] then []
    else if !inClass(s[0]) then Runs(s[1..], inClass)
    else
      var n := RunLength(s, inClass);
      [s[..n]] + Runs(s[n..], inClass)
  }

  /** Every run is non-empty, consists of characters of the class, and occurs in the text. */
  lemma {:induction false} RunsAreSubstrings(s: string, inClass: char -> bool, w: string)
    requires w in Runs(s, inClass)
    ensures w != [] && (forall i :: 0 <= i < |w| ==> inClass(w[i]))
    ensures Contains(s, w)
    decreases |s|
  {
    if !inClass(s[0]) {
      RunsAreSubstrings(s[1..], inClass, w);
      ContainsInConcat([s[0]], s[1..], [], w);
      assert [s[0]] + s[1..] + [] == s;
    } else {
      var n := RunLength(s, inClass);
      if w == s[..n] {
        ContainsAt(s, w, 0);
      } else {
        assert w in Runs(s[n..], inClass);
        RunsAreSubstrings(s[n..], inClass, w);
        ContainsInConcat(s[..n], s[n..], [], w);
        assert s[..n] + s[n..] + [] == s;
      }
    }
  }

  /** A text with no character of the class has no runs. */
  lemma {:induction false} NoRunsWithoutClass(s: string, inClass: char -> bool)
    requires forall i :: 0 <= i < |s| ==> !inClass(s[i])
    ensures Runs(s, inClass) == []
    decreases |s|
  {
    if s != [] {
      NoRunsWithoutClass(s[1..], inClass);
    }
  }

  function DigitChar(d: nat): (c: char)
    requires d < 10
    ensures IsDigit(c)
  {
    ('0' as int + d) as char
  }

  /** `n.toString()` / `str(n)` for a natural number. */
  function NatToString(n: nat): (r: string)
    ensures r != []
    ensures forall i :: 0 <= i < |r| ==> IsDigit(r[i])
  {
    if n < 10 then [DigitChar(n)] else NatToString(n / 10) + [DigitChar(n % 10)]
  }

  /** Distinct numbers have distinct decimal renderings. */
  lemma {:induction false} NatToStringInjective(a: nat, b: nat)
    requires NatToString(a) == NatToString(b)
    ensures a == b
  {
    if a >= 10 && b >= 10 {
      var sa, sb := NatToString(a), NatToString(b);
      assert sa[|sa| - 1] == sb[|sb| - 1];
      assert a % 10 == b % 10;
      assert sa[..|sa| - 1] == NatToString(a / 10);
      assert sb[..|sb| - 1] == NatToString(b / 10);
      NatToStringInjective(a / 10, b / 10);
    }
  }
}
