/**
  The Python `str` primitives the engine relies on, over Dafny strings.

  Character classes and case mappings follow Python 3 exactly for the
  Latin-1 range (U+0000 to U+00FF), where every French label of the
  engine lives; above U+00FF a character is its own upper and lower
  case, is not alphanumeric, is not whitespace and has no canonical
  decomposition.
 */
module PyStr {

  /** `c.isspace()` */
  predicate IsSpace(c: char) {
    var n := c as int;
    n == 0x20 || 0x09 <= n <= 0x0D || 0x1C <= n <= 0x1F || n == 0x85 || n == 0xA0
  }

  /** `c.isalnum()`: ASCII letters and digits, and the Latin-1 letters and numerals. */
  predicate IsAlnum(c: char) {
    var n := c as int;
    || 0x30 <= n <= 0x39 || 0x41 <= n <= 0x5A || 0x61 <= n <= 0x7A
    || n == 0xAA || n == 0xB2 || n == 0xB3 || n == 0xB5 || n == 0xB9 || n == 0xBA
    || 0xBC <= n <= 0xBE || 0xC0 <= n <= 0xD6 || 0xD8 <= n <= 0xF6 || 0xF8 <= n <= 0xFF
  }

  /** `c.upper()`, which is two characters for the German sharp s. */
  function UpperChar(c: char): (u: string)
    ensures 1 <= |u| <= 2
  {
    var n := c as int;
    if 0x61 <= n <= 0x7A then [(n - 32) as char]
    else if n == 0xB5 then [0x39C as char]
    else if n == 0xDF then "SS"
    else if 0xE0 <= n <= 0xFE && n != 0xF7 then [(n - 32) as char]
    else if n == 0xFF then [0x178 as char]
    else [c]
  }

  /** `s.upper()` */
  function Upper(s: string): string {
    if s == [] then [] else UpperChar(s[0]) + Upper(s[1..])
  }

  /** Texts that agree up to case, character by character, have the same upper case. */
  lemma {:induction false} UpperAgree(a: string, b: string)
    requires |a| == |b|
    requires forall i :: 0 <= i < |a| ==> UpperChar(a[i]) == UpperChar(b[i])
    ensures Upper(a) == Upper(b)
  {
    if a != [] {
      UpperAgree(a[1..], b[1..]);
    }
  }

  lemma {:induction false} UpperConcat(a: string, b: string)
    ensures Upper(a + b) == Upper(a) + Upper(b)
  {
    if a != [] {
      assert (a + b)[1..] == a[1..] + b;
      UpperConcat(a[1..], b);
    } else {
      assert a + b == b;
    }
  }

  /** `c.lower()` */
  function LowerChar(c: char): char {
    var n := c as int;
    if 0x41 <= n <= 0x5A || (0xC0 <= n <= 0xDE && n != 0xD7) then (n + 32) as char else c
  }

  /** A text of characters that are their own upper case is its own upper case. */
  lemma {:induction false} UpperFixed(s: string)
    requires forall i :: 0 <= i < |s| ==> UpperChar(s[i]) == [s[i]]
    ensures Upper(s) == s
  {
    if s != [] {
      UpperFixed(s[1..]);
      assert [s[0]] + s[1..] == s;
    }
  }

  /** `s.lower()` */
  function Lower(s: string): (r: string)
    ensures |r| == |s|
  {
    if s == [] then [] else [LowerChar(s[0])] + Lower(s[1..])
  }

  /** `s.lstrip()` */
  function TrimLeft(s: string): string {
    if s != [] && IsSpace(s[0]) then TrimLeft(s[1..]) else s
  }

  /** `s.rstrip()` */
  function TrimRight(s: string): string {
    if s != [] && IsSpace(s[|s| - 1]) then TrimRight(s[..|s| - 1]) else s
  }

  /** `s.strip()` */
  function Strip(s: string): string {
    TrimRight(TrimLeft(s))
  }

  /** Python's `not s or not s.strip()`: the text is empty or all whitespace. */
  predicate IsBlank(s: string) {
    s == [] || Strip(s) == []
  }

  /** `needle in hay` for strings. */
  predicate Contains(hay: string, needle: string)
    decreases |hay|
  {
    |needle| <= |hay| && (hay[..|needle|] == needle || Contains(hay[1..], needle))
  }

  /** `s.replace(from, to)` for one character by one character. */
  function ReplaceChar(s: string, from: char, to: char): (r: string)
    ensures |r| == |s|
  {
    if s == [] then [] else [if s[0] == from then to else s[0]] + ReplaceChar(s[1..], from, to)
  }

  /** `s.replace(c, '')` */
  function RemoveChar(s: string, c: char): string {
    if s == [] then [] else (if s[0] == c then [] else [s[0]]) + RemoveChar(s[1..], c)
  }

  /** `s[:n]`, with Python's meaning for a negative or too large `n`. */
  function Prefix(s: string, n: int): (p: string)
    ensures |p| <= |s|
    ensures n >= 0 ==> |p| == if n <= |s| then n else |s|
    ensures p == s[..|p|]
  {
    if n >= 0 then (if n <= |s| then s[..n] else s)
    else if |s| + n >= 0 then s[..|s| + n]
    else []
  }

  /** `s.ljust(width, fill)` */
  function LJust(s: string, width: int, fill: char): (r: string)
    ensures |r| == if |s| >= width then |s| else width
  {
    if |s| >= width then s else s + seq(width - |s|, _ => fill)
  }

  /** `s.split(sep)` for a one-character separator: never empty, empty fields kept. */
  function Split(s: string, sep: char): (parts: seq<string>)
    ensures |parts| >= 1
  {
    if s == [] then [""]
    else
      var rest := Split(s[1..], sep);
      if s[0] == sep then [""] + rest else [[s[0]] + rest[0]] + rest[1..]
  }

  /** `sep.join(parts)` */
  function Join(parts: seq<string>, sep: char): string {
    if |parts| == 0 then ""
    else if |parts| == 1 then parts[0]
    else parts[0] + [sep] + Join(parts[1..], sep)
  }

  /** Length of the run of non-whitespace characters that starts `s`. */
  function WordLength(s: string): (k: nat)
    ensures k <= |s|
    ensures forall i :: 0 <= i < k ==> !IsSpace(s[i])
  {
    if s == [] || IsSpace(s[0]) then 0 else 1 + WordLength(s[1..])
  }

  /** `s.split()`: the maximal runs of non-whitespace characters. */
  function Words(s: string): seq<string>
    decreases |s|
  {
    var t := TrimLeft(s);
    if t == [] then []
    else
      TrimLeftShorter(s);
      var k := WordLength(t);
      [t[..k]] + Words(t[k..])
  }

  lemma {:induction false} TrimLeftShorter(s: string)
    ensures |TrimLeft(s)| <= |s|
    ensures TrimLeft(s) != [] ==> !IsSpace(TrimLeft(s)[0])
  {
    if s != [] && IsSpace(s[0]) {
      TrimLeftShorter(s[1..]);
    }
  }

  lemma {:induction false} TrimLeftNoSpace(s: string)
    requires forall i :: 0 <= i < |s| ==> !IsSpace(s[i])
    ensures TrimLeft(s) == s
  {
  }

  lemma {:induction false} TrimRightNoSpace(s: string)
    requires forall i :: 0 <= i < |s| ==> !IsSpace(s[i])
    ensures TrimRight(s) == s
  {
  }

  /** A text without whitespace is its own strip. */
  lemma StripNoSpace(s: string)
    requires forall i :: 0 <= i < |s| ==> !IsSpace(s[i])
    ensures Strip(s) == s
  {
    TrimLeftNoSpace(s);
    TrimRightNoSpace(s);
  }

  lemma {:induction false} WordLengthNoSpace(s: string)
    requires forall i :: 0 <= i < |s| ==> !IsSpace(s[i])
    ensures WordLength(s) == |s|
  {
    if s != [] {
      WordLengthNoSpace(s[1..]);
    }
  }

  /** A non-empty text without whitespace is a single word. */
  lemma {:induction false} WordsNoSpace(s: string)
    requires s != []
    requires forall i :: 0 <= i < |s| ==> !IsSpace(s[i])
    ensures Words(s) == [s]
  {
    TrimLeftNoSpace(s);
    WordLengthNoSpace(s);
    assert s[..|s|] == s && s[|s|..] == [];
    assert Words([]) == [];
  }

  /** `needle in hay` means some slice of `hay` is `needle`. */
  lemma {:induction false} ContainsAt(hay: string, needle: string, i: nat)
    requires i + |needle| <= |hay| && hay[i..i + |needle|] == needle
    ensures Contains(hay, needle)
    decreases i
  {
    if i > 0 {
      assert hay[1..][i - 1..i - 1 + |needle|] == hay[i..i + |needle|];
      ContainsAt(hay[1..], needle, i - 1);
    }
  }

  /** A contained non-empty string's first character occurs in the text. */
  lemma {:induction false} ContainsHead(hay: string, needle: string)
    requires needle != [] && Contains(hay, needle)
    ensures needle[0] in hay
    decreases |hay|
  {
    if hay[..|needle|] != needle {
      ContainsHead(hay[1..], needle);
    } else {
      assert hay[0] == needle[0];
    }
  }

  /** Every prefix of a contained string is contained. */
  lemma {:induction false} ContainsPrefix(hay: string, needle: string, k: nat)
    requires k <= |needle|
    requires Contains(hay, needle)
    ensures Contains(hay, needle[..k])
    decreases |hay|
  {
    if hay[..|needle|] == needle {
      assert hay[..k] == needle[..k];
    } else {
      ContainsPrefix(hay[1..], needle, k);
    }
  }

  /** Splitting a text that starts with a separator-free field. */
  lemma {:induction false} SplitField(a: string, sep: char, rest: string)
    requires sep !in a
    ensures Split(a + [sep] + rest, sep) == [a] + Split(rest, sep)
    decreases |a|
  {
    if a == [] {
      assert a + [sep] + rest == [sep] + rest;
      assert ([sep] + rest)[1..] == rest;
    } else {
      assert (a + [sep] + rest)[1..] == a[1..] + [sep] + rest;
      SplitField(a[1..], sep, rest);
      assert [a[0]] + a[1..] == a;
    }
  }

  lemma {:induction false} SplitNoSep(a: string, sep: char)
    requires sep !in a
    ensures Split(a, sep) == [a]
    decreases |a|
  {
    if a != [] {
      SplitNoSep(a[1..], sep);
      assert [a[0]] + a[1..] == a;
    }
  }

  /** Splitting undoes joining when no field holds the separator. */
  lemma {:induction false} SplitJoin(parts: seq<string>, sep: char)
    requires |parts| >= 1
    requires forall i :: 0 <= i < |parts| ==> sep !in parts[i]
    ensures Split(Join(parts, sep), sep) == parts
    decreases |parts|
  {
    if |parts| == 1 {
      SplitNoSep(parts[0], sep);
    } else {
      SplitJoin(parts[1..], sep);
      SplitField(parts[0], sep, Join(parts[1..], sep));
      assert [parts[0]] + parts[1..] == parts;
    }
  }
}
