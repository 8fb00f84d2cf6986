/**
  The type token of the SKU generator (`normalize_text`): the code of the
  first `type_mapping` entry that matches the cleaned type, else a token
  built from the type's own letters, at most `max_length` characters long.
 */
module TypeToken {
  import opened Wrappers
  import opened PyStr
  import opened Lookup

  /** `text.upper().replace(' ', '').replace('È', 'E').replace('É', 'E')` */
  function TypeClean(text: string): string {
    ReplaceChar(ReplaceChar(RemoveChar(Upper(text), ' '), 'È', 'E'), 'É', 'E')
  }

  /** A `type_mapping` key applies when either cleaned text contains the other. */
  predicate TypeLabelApplies(key: string, textClean: string) {
    var frenchClean := TypeClean(key);
    Contains(textClean, frenchClean) || Contains(frenchClean, textClean)
  }

  /** The code of the first `type_mapping` entry that applies. */
  function TypeMatch(table: seq<(string, string)>, textClean: string): Option<string> {
    if table == [] then None
    else if TypeLabelApplies(table[0].0, textClean) then Some(table[0].1)
    else TypeMatch(table[1..], textClean)
  }

  /** NFD decomposition followed by dropping the combining marks (category Mn). */
  function BaseLetter(c: char): char {
    var n := c as int;
    if 0xC0 <= n <= 0xC5 then 'A' else if n == 0xC7 then 'C'
    else if 0xC8 <= n <= 0xCB then 'E' else if 0xCC <= n <= 0xCF then 'I'
    else if n == 0xD1 then 'N' else if 0xD2 <= n <= 0xD6 then 'O'
    else if 0xD9 <= n <= 0xDC then 'U' else if n == 0xDD then 'Y'
    else if 0xE0 <= n <= 0xE5 then 'a' else if n == 0xE7 then 'c'
    else if 0xE8 <= n <= 0xEB then 'e' else if 0xEC <= n <= 0xEF then 'i'
    else if n == 0xF1 then 'n' else if 0xF2 <= n <= 0xF6 then 'o'
    else if 0xF9 <= n <= 0xFC then 'u' else if n == 0xFD || n == 0xFF then 'y'
    else c
  }

  function StripMarks(text: string): string {
    if text == [] then []
    else (if 0x300 <= text[0] as int <= 0x36F then [] else [BaseLetter(text[0])]) + StripMarks(text[1..])
  }

  /** `''.join(char.upper() for char in text if char.isalnum())` */
  function UpperAlnum(text: string): string {
    if text == [] then [] else (if IsAlnum(text[0]) then UpperChar(text[0]) else []) + UpperAlnum(text[1..])
  }

  /** The digit replacements, applied in this order. */
  const DigitReplacements: seq<(char, char)> := [('0', '2'), ('1', '3'), ('9', '8')]

  function ApplyReplacements(rs: seq<(char, char)>, text: string): string {
    if rs == [] then text
    else ReplaceChar(ApplyReplacements(rs[..|rs| - 1], text), rs[|rs| - 1].0, rs[|rs| - 1].1)
  }

  /** The text the fallback works on: decomposed, alphanumeric, upper case, no 0, 1 or 9. */
  function CleanText(text: string): string {
    ApplyReplacements(DigitReplacements, UpperAlnum(StripMarks(text)))
  }

  /** `''.join(word[0] for word in words if len(word) > 2)` */
  function Initials(words: seq<string>): string {
    if words == [] then [] else (if |words[0]| > 2 then [words[0][0]] else []) + Initials(words[1..])
  }

  function Consonants(text: string): string {
    if text == [] then [] else (if text[0] !in "AEIUY" then [text[0]] else []) + Consonants(text[1..])
  }

  function Vowels(text: string): string {
    if text == [] then [] else (if text[0] in "AEIUY" then [text[0]] else []) + Vowels(text[1..])
  }

  /** What `normalize_text(text, max_length)` returns. */
  function NormalizedText(types: seq<(string, string)>, text: string, maxLength: int): string {
    if text == "" then Prefix("UNKN", maxLength)
    else match TypeMatch(types, TypeClean(text))
      case Some(code) => Prefix(code, maxLength)
      case None =>
        var t := CleanText(text);
        if |t| <= maxLength then Prefix(t, maxLength)
        else
          var words := Words(t);
          var initials := Prefix(Initials(words), maxLength);
          if |words| > 1 && |initials| >= maxLength then Prefix(initials, maxLength)
          else
            var consonants := Consonants(t);
            if |consonants| >= maxLength then Prefix(consonants, maxLength)
            else LJust(Prefix(consonants + Vowels(t), maxLength), maxLength, 'X')
  }

  lemma TypeMatchStep(table: seq<(string, string)>, textClean: string, i: nat)
    requires i < |table|
    requires !TypeLabelApplies(table[i].0, textClean)
    ensures TypeMatch(table[i..], textClean) == TypeMatch(table[i + 1..], textClean)
  {
    assert table[i..][0] == table[i] && table[i..][1..] == table[i + 1..];
  }

  /** `normalize_text`: table lookup first, then the step-by-step clean-up of the text. */
  method NormalizeText(types: seq<(string, string)>, text: string, maxLength: int) returns (r: string)
    ensures r == NormalizedText(types, text, maxLength)
  {
    if text == "" {
      return Prefix("UNKN", maxLength);
    }
    var textClean := TypeClean(text);
    var i := 0;
    while i < |types|
      invariant 0 <= i <= |types|
      invariant TypeMatch(types, textClean) == TypeMatch(types[i..], textClean)
    {
      var (frenchName, code) := types[i];
      var frenchClean := TypeClean(frenchName);
      if Contains(textClean, frenchClean) || Contains(frenchClean, textClean) {
        assert types[i..][0] == types[i];
        return Prefix(code, maxLength);
      }
      TypeMatchStep(types, textClean, i);
      i := i + 1;
    }
    var t := StripMarks(text);
    t := UpperAlnum(t);
    ghost var alnum := t;
    var replacements := DigitReplacements;
    for j := 0 to |replacements|
      invariant t == ApplyReplacements(replacements[..j], alnum)
    {
      assert replacements[..j + 1][..j] == replacements[..j];
      t := ReplaceChar(t, replacements[j].0, replacements[j].1);
    }
    assert replacements[..|replacements|] == replacements;
    if |t| <= maxLength {
      return Prefix(t, maxLength);
    }
    var words := Words(t);
    if |words| > 1 {
      var initials := Prefix(Initials(words), maxLength);
      if |initials| >= maxLength {
        return Prefix(initials, maxLength);
      }
    }
    var consonants := Consonants(t);
    if |consonants| >= maxLength {
      return Prefix(consonants, maxLength);
    }
    var vowels := Vowels(t);
    r := LJust(Prefix(consonants + vowels, maxLength), maxLength, 'X');
  }

  // Lemmas about the type token

  /** The token never exceeds `max_length` characters. */
  lemma NormalizedLength(types: seq<(string, string)>, text: string, maxLength: int)
    requires maxLength >= 0
    ensures |NormalizedText(types, text, maxLength)| <= maxLength
  {
  }

  /** An empty text gives "UNKN" cut to `max_length`. */
  lemma NormalizedEmpty(types: seq<(string, string)>, maxLength: int)
    ensures NormalizedText(types, "", maxLength) == Prefix("UNKN", maxLength)
  {
  }

  /** A key that applies, with none before it, gives its code cut to `max_length`. */
  lemma {:induction false} NormalizedFromTable(types: seq<(string, string)>, text: string, maxLength: int, k: nat)
    requires text != ""
    requires k < |types| && TypeLabelApplies(types[k].0, TypeClean(text))
    requires forall j :: 0 <= j < k ==> !TypeLabelApplies(types[j].0, TypeClean(text))
    ensures NormalizedText(types, text, maxLength) == Prefix(types[k].1, maxLength)
  {
    TypeMatchAt(types, TypeClean(text), k);
  }

  lemma {:induction false} TypeMatchAt(table: seq<(string, string)>, textClean: string, k: nat)
    requires k < |table| && TypeLabelApplies(table[k].0, textClean)
    requires forall j :: 0 <= j < k ==> !TypeLabelApplies(table[j].0, textClean)
    ensures TypeMatch(table, textClean) == Some(table[k].1)
  {
    if k > 0 {
      TypeMatchAt(table[1..], textClean, k - 1);
    }
  }

  // Character facts of the fallback path

  predicate NoAmbiguousDigit(s: string) {
    forall i :: 0 <= i < |s| ==> s[i] != '0' && s[i] != '1' && s[i] != '9'
  }

  predicate NoSpace(s: string) {
    forall i :: 0 <= i < |s| ==> !IsSpace(s[i])
  }

  lemma {:induction false} UpperAlnumNoSpace(text: string)
    ensures NoSpace(UpperAlnum(text))
  {
    if text != [] {
      UpperAlnumNoSpace(text[1..]);
      var head := if IsAlnum(text[0]) then UpperChar(text[0]) else [];
      assert NoSpace(head);
      assert UpperAlnum(text) == head + UpperAlnum(text[1..]);
    }
  }

  lemma {:induction false} ReplaceCharKeepsNoSpace(s: string, from: char, to: char)
    requires NoSpace(s) && !IsSpace(to)
    ensures NoSpace(ReplaceChar(s, from, to))
  {
    if s != [] {
      ReplaceCharKeepsNoSpace(s[1..], from, to);
      assert ReplaceChar(s, from, to) == [if s[0] == from then to else s[0]] + ReplaceChar(s[1..], from, to);
    }
  }

  lemma {:induction false} ReplaceCharElems(s: string, from: char, to: char, i: nat)
    requires i < |s|
    ensures ReplaceChar(s, from, to)[i] == if s[i] == from then to else s[i]
  {
    if i > 0 {
      ReplaceCharElems(s[1..], from, to, i - 1);
    }
  }

  /** The fallback text has no whitespace and none of the digits 0, 1, 9. */
  lemma CleanTextChars(text: string)
    ensures NoSpace(CleanText(text))
    ensures NoAmbiguousDigit(CleanText(text))
  {
    var a := UpperAlnum(StripMarks(text));
    UpperAlnumNoSpace(StripMarks(text));
    var r := DigitReplacements;
    assert r[..0] == [] && r[..1][..0] == [] && r[..2][..1] == r[..1] && r[..3] == r;
    var t1 := ReplaceChar(a, '0', '2');
    var t2 := ReplaceChar(t1, '1', '3');
    var t3 := ReplaceChar(t2, '9', '8');
    assert ApplyReplacements(r[..1], a) == t1;
    assert ApplyReplacements(r[..2], a) == t2;
    assert CleanText(text) == t3;
    ReplaceCharKeepsNoSpace(a, '0', '2');
    ReplaceCharKeepsNoSpace(t1, '1', '3');
    ReplaceCharKeepsNoSpace(t2, '9', '8');
    forall i | 0 <= i < |t3| ensures t3[i] != '0' && t3[i] != '1' && t3[i] != '9' {
      ReplaceCharElems(a, '0', '2', i);
      ReplaceCharElems(t1, '1', '3', i);
      ReplaceCharElems(t2, '9', '8', i);
    }
  }

  lemma {:induction false} SplitLength(text: string)
    ensures |Consonants(text)| + |Vowels(text)| == |text|
  {
    if text != [] {
      SplitLength(text[1..]);
    }
  }

  lemma {:induction false} ConsonantsFrom(text: string)
    ensures forall i :: 0 <= i < |Consonants(text)| ==> Consonants(text)[i] in text
    ensures forall i :: 0 <= i < |Vowels(text)| ==> Vowels(text)[i] in text
  {
    if text != [] {
      ConsonantsFrom(text[1..]);
      assert forall c :: c in text[1..] ==> c in text;
    }
  }

  lemma PrefixConcat(a: string, b: string, n: int)
    requires n >= 0 && |a| >= n
    ensures Prefix(a + b, n) == Prefix(a, n)
  {
  }

  /**
    Past the table, with a cleaned text longer than `max_length`, the token is
    the first `max_length` characters of consonants-then-vowels: the
    word-initials branch never fires (the cleaned text has no whitespace, so it
    is a single word) and the 'X' padding never pads (consonants and vowels
    together are as long as the cleaned text).
   */
  lemma NormalizedFallbackLong(types: seq<(string, string)>, text: string, maxLength: int)
    requires maxLength >= 0
    requires text != "" && TypeMatch(types, TypeClean(text)) == None
    requires |CleanText(text)| > maxLength
    ensures NormalizedText(types, text, maxLength)
            == Prefix(Consonants(CleanText(text)) + Vowels(CleanText(text)), maxLength)
    ensures |NormalizedText(types, text, maxLength)| == maxLength
  {
    var t := CleanText(text);
    CleanTextChars(text);
    WordsNoSpace(t);
    SplitLength(t);
    var consonants := Consonants(t);
    if |consonants| >= maxLength {
      PrefixConcat(consonants, Vowels(t), maxLength);
    }
  }

  /** Past the table, the token has none of the digits 0, 1 and 9. */
  lemma NormalizedFallbackDigits(types: seq<(string, string)>, text: string, maxLength: int)
    requires maxLength >= 0
    requires text != "" && TypeMatch(types, TypeClean(text)) == None
    ensures NoAmbiguousDigit(NormalizedText(types, text, maxLength))
    ensures |CleanText(text)| <= maxLength ==> NormalizedText(types, text, maxLength) == CleanText(text)
  {
    var t := CleanText(text);
    CleanTextChars(text);
    if |t| > maxLength {
      NormalizedFallbackLong(types, text, maxLength);
      ConsonantsFrom(t);
      var cv := Consonants(t) + Vowels(t);
      var r := NormalizedText(types, text, maxLength);
      forall i | 0 <= i < |r| ensures r[i] != '0' && r[i] != '1' && r[i] != '9' {
        assert r[i] == cv[i];
        assert cv[i] in t;
      }
    }
  }

  // The token never holds the SKU separator

  lemma {:induction false} UpperAlnumNoDash(text: string)
    ensures '-' !in UpperAlnum(text)
  {
    if text != [] {
      UpperAlnumNoDash(text[1..]);
      var head := if IsAlnum(text[0]) then UpperChar(text[0]) else [];
      assert '-' !in head;
      assert UpperAlnum(text) == head + UpperAlnum(text[1..]);
    }
  }

  lemma {:induction false} ReplaceCharAvoids(s: string, from: char, to: char, c: char)
    requires c !in s && c != to
    ensures c !in ReplaceChar(s, from, to)
  {
    if s != [] {
      ReplaceCharAvoids(s[1..], from, to, c);
      assert ReplaceChar(s, from, to) == [if s[0] == from then to else s[0]] + ReplaceChar(s[1..], from, to);
    }
  }

  lemma CleanTextNoDash(text: string)
    ensures '-' !in CleanText(text)
  {
    var a := UpperAlnum(StripMarks(text));
    UpperAlnumNoDash(StripMarks(text));
    var r := DigitReplacements;
    assert r[..0] == [] && r[..1][..0] == [] && r[..2][..1] == r[..1] && r[..3] == r;
    var t1 := ReplaceChar(a, '0', '2');
    var t2 := ReplaceChar(t1, '1', '3');
    assert ApplyReplacements(r[..1], a) == t1;
    assert ApplyReplacements(r[..2], a) == t2;
    assert CleanText(text) == ReplaceChar(t2, '9', '8');
    ReplaceCharAvoids(a, '0', '2', '-');
    ReplaceCharAvoids(t1, '1', '3', '-');
    ReplaceCharAvoids(t2, '9', '8', '-');
  }

  lemma {:induction false} TypeMatchFrom(table: seq<(string, string)>, textClean: string)
    requires TypeMatch(table, textClean).Some?
    ensures exists k :: 0 <= k < |table| && table[k].1 == TypeMatch(table, textClean).value
  {
    if !TypeLabelApplies(table[0].0, textClean) {
      TypeMatchFrom(table[1..], textClean);
      var k :| 0 <= k < |table[1..]| && table[1..][k].1 == TypeMatch(table[1..], textClean).value;
      assert table[k + 1] == table[1..][k];
    } else {
      assert table[0].1 == TypeMatch(table, textClean).value;
    }
  }

  /** With dash-free codes in the table, the token has no dash: it never splits a SKU field. */
  lemma NormalizedNoDash(types: seq<(string, string)>, text: string, maxLength: int)
    requires CodesAvoid(types, '-')
    ensures '-' !in NormalizedText(types, text, maxLength)
  {
    var r := NormalizedText(types, text, maxLength);
    if text == "" {
      assert r == Prefix("UNKN", maxLength);
      assert r == "UNKN"[..|r|];
      assert '-' !in "UNKN";
    } else if TypeMatch(types, TypeClean(text)).Some? {
      TypeMatchFrom(types, TypeClean(text));
      var code := TypeMatch(types, TypeClean(text)).value;
      assert r == Prefix(code, maxLength) == code[..|r|];
    } else {
      var t := CleanText(text);
      CleanTextNoDash(text);
      if |t| <= maxLength {
        assert r == Prefix(t, maxLength) == t;
      } else if maxLength < 0 {
        // a negative length: `consonants[:max_length]`, as `len(consonants) >= max_length`
        CleanTextChars(text);
        if t != [] {
          WordsNoSpace(t);
        }
        ConsonantsFrom(t);
        var consonants := Consonants(t);
        assert r == Prefix(consonants, maxLength) == consonants[..|r|];
      } else {
        NormalizedFallbackLong(types, text, maxLength);
        ConsonantsFrom(t);
        var cv := Consonants(t) + Vowels(t);
        assert r == cv[..|r|];
      }
    }
  }
}
