/** The hex text that carries a program from the assembler to the models, and numerals in general. */
module Hex {
  import opened Results

  const DIGITS := "0123456789abcdef"

  /** The ASCII characters at which Python's splitlines ends a line. */
  predicate IsLineBreak(c: char) {
    '\U{0A}' <= c <= '\U{0D}' || '\U{1C}' <= c <= '\U{1E}'
  }

  /** The ASCII characters that Python's strip removes. */
  predicate IsWhitespace(c: char) {
    c == ' ' || c == '\t' || c == '\U{1F}' || IsLineBreak(c)
  }

  /** The text of one line. */
  predicate Unbroken(text: string) {
    forall k :: 0 <= k < |text| ==> !IsLineBreak(text[k])
  }

  /** The value of a digit, in either case. */
  function DigitValue(c: char): Option<nat> {
    if '0' <= c <= '9' then Some(c as nat - '0' as nat)
    else if 'a' <= c <= 'f' then Some(c as nat - 'a' as nat + 10)
    else if 'A' <= c <= 'F' then Some(c as nat - 'A' as nat + 10)
    else None
  }

  /** The numeral of n without leading zeros. */
  function Numeral(base: nat, n: nat): (text: string)
    requires 2 <= base <= 16
    ensures text != ""
    decreases n
  {
    if n < base then [DIGITS[n]]
    else
      assert 0 <= n % base < base;
      Numeral(base, n / base) + [DIGITS[n % base]]
  }

  /** Python's format specifications "x" with width 4 and zero fill. */
  function Hex04(n: nat): string {
    var digits := Numeral(16, n);
    Zeros(if |digits| < 4 then 4 - |digits| else 0) + digits
  }

  function Zeros(k: nat): string {
    if k == 0 then "" else "0" + Zeros(k - 1)
  }

  /** Reads a plain digit string; anything else is an error. */
  function ParseNumeral(base: nat, text: string): Option<nat>
    requires 2 <= base <= 16
  {
    if text == "" then None
    else
      match DigitValue(text[|text| - 1])
      case None => None
      case Some(d) =>
        if d >= base then None
        else if |text| == 1 then Some(d)
        else match ParseNumeral(base, text[..|text| - 1])
             case None => None
             case Some(h) => Some(base * h + d)
  }

  lemma DigitsRead(d: nat)
    requires d < 16
    ensures DigitValue(DIGITS[d]) == Some(d) && !IsWhitespace(DIGITS[d])
  {
    assert d < 10 ==> DIGITS[d] as nat == '0' as nat + d;
  }

  /** The digits by their codes: 0 to 9, and a to f in either case. */
  lemma DigitCodes(c: char, d: nat)
    ensures DigitValue(c) == Some(d) <==>
            || (d < 10 && c as int == 48 + d)
            || (10 <= d < 16 && (c as int == 97 + d - 10 || c as int == 65 + d - 10))
  {}

  lemma ParseSnoc(base: nat, text: string, c: char, h: nat, d: nat)
    requires 2 <= base <= 16 && text != "" && ParseNumeral(base, text) == Some(h)
    requires DigitValue(c) == Some(d) && d < base
    ensures ParseNumeral(base, text + [c]) == Some(base * h + d)
  {
    assert (text + [c])[..|text|] == text;
  }

  /** A numeral has a value iff it is nothing but digits. */
  lemma {:induction false} NumeralsAreDigits(text: string)
    ensures ParseNumeral(16, text).Some? <==> AllDigits(text)
    decreases |text|
  {
    hide DigitValue;
    if |text| <= 1 {
      DigitsAreBelow(if text == "" then '0' else text[0]);
    } else {
      var front, last := text[..|text| - 1], text[|text| - 1];
      NumeralsAreDigits(front);
      DigitsAreBelow(last);
      assert AllDigits(text) <==> AllDigits(front) && DigitValue(last).Some?;
    }
  }

  lemma DigitsAreBelow(c: char)
    ensures DigitValue(c).Some? ==> DigitValue(c).value < 16
  {}

  lemma DivMod(base: nat, n: nat)
    requires 2 <= base <= n
    ensures 0 <= n / base < n && 0 <= n % base < base && base * (n / base) + n % base == n
  {}

  lemma {:induction false} ParseInvertsNumeral(base: nat, n: nat)
    requires 2 <= base <= 16
    ensures ParseNumeral(base, Numeral(base, n)) == Some(n)
    decreases n
  {
    if n < base {
      DigitsRead(n);
    } else {
      hide ParseNumeral, DigitValue;
      DivMod(base, n);
      var h, d := n / base, n % base;
      assert Numeral(base, n) == Numeral(base, h) + [DIGITS[d]];
      DigitsRead(d);
      ParseInvertsNumeral(base, h);
      hide Numeral;
      ParseSnoc(base, Numeral(base, h), DIGITS[d], h, d);
    }
  }

  /** Different numbers have different numerals. */
  lemma NumeralInjective(base: nat, m: nat, n: nat)
    requires 2 <= base <= 16 && Numeral(base, m) == Numeral(base, n)
    ensures m == n
  {
    ParseInvertsNumeral(base, m);
    ParseInvertsNumeral(base, n);
  }

  lemma {:induction false} LeadingZero(text: string)
    ensures text != "" ==> ParseNumeral(16, "0" + text) == ParseNumeral(16, text)
    decreases |text|
  {
    if |text| > 1 {
      LeadingZero(text[..|text| - 1]);
      assert ("0" + text)[..|text|] == "0" + text[..|text| - 1];
    } else if |text| == 1 {
      assert ("0" + text)[..1] == "0";
      assert ParseNumeral(16, "0") == Some(0);
    }
  }

  lemma {:induction false} LeadingZeros(k: nat, text: string)
    requires text != ""
    ensures ParseNumeral(16, Zeros(k) + text) == ParseNumeral(16, text)
  {
    if k > 0 {
      LeadingZeros(k - 1, text);
      LeadingZero(Zeros(k - 1) + text);
      assert Zeros(k) + text == "0" + (Zeros(k - 1) + text);
    } else {
      assert Zeros(0) + text == text;
    }
  }

  // ----- model/assembler.py: write_hex -----

  function WriteHex(words: seq<nat>): string {
    if words == [] then "" else Hex04(words[0]) + "\n" + WriteHex(words[1..])
  }

  /** The code of a lower-case hexadecimal digit. */
  function CodeOf(d: nat): int {
    if d < 10 then 48 + d else 97 + d - 10
  }

  lemma DigitCode(d: nat)
    requires d < 16
    ensures DIGITS[d] as int == CodeOf(d)
  {}

  /** A 16-bit word is written as its four digits, most significant first, in lower case. */
  lemma Hex04Digits(w: nat)
    requires w < 0x1_0000
    ensures var text := Hex04(w);
            && |text| == 4
            && text[0] as int == CodeOf(w / 0x1000) && text[1] as int == CodeOf(w / 0x100 % 16)
            && text[2] as int == CodeOf(w / 0x10 % 16) && text[3] as int == CodeOf(w % 16)
  {
    hide CodeOf;
    DigitCode(w / 0x1000);
    DigitCode(w / 0x100 % 16);
    DigitCode(w / 0x10 % 16);
    DigitCode(w % 16);
    DigitCode(0);
    FourDigits(w);
  }

  lemma FourDigits(w: nat)
    requires w < 0x1_0000
    ensures Hex04(w) == [DIGITS[w / 0x1000], DIGITS[w / 0x100 % 16], DIGITS[w / 0x10 % 16], DIGITS[w % 16]]
  {
    hide Numeral, Zeros, DIGITS;
    FewZeros();
    FewDigits(w);
  }

  lemma FewDigits(w: nat)
    requires w < 0x1_0000
    ensures Numeral(16, w)
         == if w < 0x10 then [DIGITS[w]]
            else if w < 0x100 then [DIGITS[w / 0x10], DIGITS[w % 16]]
            else if w < 0x1000 then [DIGITS[w / 0x100], DIGITS[w / 0x10 % 16], DIGITS[w % 16]]
            else [DIGITS[w / 0x1000], DIGITS[w / 0x100 % 16], DIGITS[w / 0x10 % 16], DIGITS[w % 16]]
  {
    hide Numeral, DIGITS;
    NumeralStep(w);
    if w >= 0x10 {
      NumeralStep(w / 0x10);
      assert w / 0x10 / 16 == w / 0x100;
    }
    if w >= 0x100 {
      NumeralStep(w / 0x100);
      assert w / 0x100 / 16 == w / 0x1000;
    }
    if w >= 0x1000 {
      NumeralStep(w / 0x1000);
    }
  }

  lemma NumeralStep(n: nat)
    ensures Numeral(16, n) == if n < 16 then [DIGITS[n]] else Numeral(16, n / 16) + [DIGITS[n % 16]]
  {}

  lemma FewZeros()
    ensures Zeros(0) == "" && Zeros(1) == [DIGITS[0]] && Zeros(2) == [DIGITS[0], DIGITS[0]]
    ensures Zeros(3) == [DIGITS[0], DIGITS[0], DIGITS[0]]
  {
    assert DIGITS[0] == '0';
  }

  /** Words are written one to a line, each ended by a newline. */
  lemma {:induction false} WriteHexLines(words: seq<nat>, i: nat)
    requires i < |words| && forall k :: 0 <= k < |words| ==> words[k] < 0x1_0000
    ensures |WriteHex(words)| == 5 * |words|
    ensures WriteHex(words)[5 * i..5 * i + 4] == Hex04(words[i]) && WriteHex(words)[5 * i + 4] == '\n'
  {
    hide Hex04;
    var text, rest := WriteHex(words), WriteHex(words[1..]);
    Hex04Digits(words[0]);
    if |words| == 1 {
      assert rest == "";
    } else {
      WriteHexLines(words[1..], if i == 0 then 0 else i - 1);
    }
    if i == 0 {
      assert text[0..4] == Hex04(words[0]);
    } else {
      assert text == Hex04(words[0]) + "\n" + rest;
      assert text[5 * i..5 * i + 4] == rest[5 * (i - 1)..5 * (i - 1) + 4];
    }
  }

  // ----- model/reference_model.py: load_hex -----

  function Lines(text: string): seq<string> {
    if text == "" then []
    else
      var i := LineEnd(text);
      [text[..i]] + if i < |text| then Lines(text[i + 1..]) else []
  }

  /** The index of the first line break, or the end. A break of two characters only leaves a blank line more. */
  function LineEnd(text: string): (i: nat)
    ensures i <= |text| && Unbroken(text[..i]) && (i < |text| ==> IsLineBreak(text[i]))
  {
    if text == "" || IsLineBreak(text[0]) then 0
    else
      var i := 1 + LineEnd(text[1..]);
      assert text[..i] == [text[0]] + text[1..][..i - 1];
      i
  }

  function Strip(line: string): string {
    if line == "" then ""
    else if IsWhitespace(line[0]) then Strip(line[1..])
    else if IsWhitespace(line[|line| - 1]) then Strip(line[..|line| - 1])
    else line
  }

  // Python's int(_, 16): a sign, a prefix, and digits in groups joined by single underscores.

  function ParseInt(text: string): Option<int> {
    if text != "" && (text[0] == '-' || text[0] == '+') then
      match ParseUnsigned(text[1..])
      case None => None
      case Some(n) => Some(if text[0] == '-' then -(n as int) else n)
    else ParseUnsigned(text)
  }

  function ParseUnsigned(text: string): Option<nat> {
    if |text| >= 2 && text[0] == '0' && (text[1] == 'x' || text[1] == 'X') then
      ParseGroups(if |text| > 2 && text[2] == '_' then text[3..] else text[2..])
    else ParseGroups(text)
  }

  function ParseGroups(text: string): Option<nat> {
    if Grouped(text) then ParseNumeral(16, WithoutUnderscores(text)) else None
  }

  predicate Grouped(text: string) {
    && text != "" && text[0] != '_' && text[|text| - 1] != '_'
    && forall k :: 0 < k < |text| ==> text[k - 1] != '_' || text[k] != '_'
  }

  function WithoutUnderscores(text: string): string {
    if text == "" then ""
    else (if text[0] == '_' then "" else [text[0]]) + WithoutUnderscores(text[1..])
  }

  predicate AllDigits(text: string) {
    text != "" && forall k :: 0 <= k < |text| ==> DigitValue(text[k]).Some?
  }

  lemma PlainGroups(text: string)
    requires AllDigits(text)
    ensures ParseGroups(text) == ParseNumeral(16, text) && text[0] !in {'-', '+', '_'}
    ensures |text| >= 2 ==> text[1] !in {'x', 'X'}
    ensures |text| >= 3 ==> text[2] != '_'
  {
    hide ParseNumeral, DigitValue, WithoutUnderscores;
    forall k | 0 <= k < |text|
      ensures text[k] !in {'_', '-', '+', 'x', 'X'}
    {
      DigitsArePlain(text[k]);
    }
    NoUnderscores(text);
  }

  /** Plain digits are read as they are, with or without a sign. */
  lemma PlainReads(text: string)
    requires AllDigits(text)
    ensures ParseUnsigned(text) == ParseNumeral(16, text) && ParseInt(text) == ParseNumeral(16, text)
    ensures ParseInt("+" + text) == ParseNumeral(16, text)
    ensures ParseNumeral(16, text).Some? ==> ParseInt("-" + text) == Some(-(ParseNumeral(16, text).value as int))
  {
    hide ParseNumeral, DigitValue, ParseGroups, AllDigits;
    PlainGroups(text);
    assert text != "" by { NotEmpty(text); }
    assert ("-" + text)[1..] == text && ("+" + text)[1..] == text;
  }

  lemma NotEmpty(text: string)
    requires AllDigits(text)
    ensures text != ""
  {}

  /** A prefix changes nothing, with or without an underscore after it. */
  lemma PrefixReads(text: string)
    requires AllDigits(text)
    ensures ParseInt("0x" + text) == ParseNumeral(16, text) && ParseInt("0X" + text) == ParseNumeral(16, text)
    ensures ParseInt("0x_" + text) == ParseNumeral(16, text)
  {
    hide ParseNumeral, DigitValue, ParseGroups, AllDigits;
    NotEmpty(text);
    PlainGroups(text);
    assert ("0x" + text)[2..] == text && ("0X" + text)[2..] == text && ("0x_" + text)[3..] == text;
  }

  /** Underscores join groups of digits, and stand nowhere else. */
  lemma UnderscoreReads(a: string, b: string)
    requires AllDigits(a) && AllDigits(b)
    ensures ParseGroups(a + "_" + b) == ParseNumeral(16, a + b)
    ensures ParseGroups("_" + a) == None && ParseGroups(a + "_") == None && ParseGroups(a + "__" + b) == None
  {
    hide ParseNumeral, WithoutUnderscores, DigitValue;
    forall c | DigitValue(c).Some?
      ensures c != '_'
    {
      DigitsArePlain(c);
    }
    var joined, doubled := a + "_" + b, a + "__" + b;
    assert joined[0] == a[0] && joined[|joined| - 1] == b[|b| - 1];
    assert doubled[|a|] == '_' && doubled[|a| + 1] == '_';
    assert ("_" + a)[0] == '_' && (a + "_")[|a|] == '_';
    UnderscoreDropped(a, b);
  }

  lemma {:induction false} UnderscoreDropped(a: string, b: string)
    requires AllDigits(b) && forall k :: 0 <= k < |a| ==> DigitValue(a[k]).Some?
    ensures WithoutUnderscores(a + "_" + b) == a + b
  {
    if a == "" {
      assert (a + "_" + b)[1..] == b;
      NoUnderscores(b);
      assert WithoutUnderscores(a + "_" + b) == "" + WithoutUnderscores(b);
    } else {
      assert (a + "_" + b)[1..] == a[1..] + "_" + b;
      UnderscoreDropped(a[1..], b);
      DigitsArePlain(a[0]);
    }
  }

  lemma DigitsArePlain(c: char)
    requires DigitValue(c).Some?
    ensures c !in {'_', '-', '+', 'x', 'X'} && !IsWhitespace(c) && !IsLineBreak(c)
  {}

  lemma {:induction false} NoUnderscores(text: string)
    requires forall k :: 0 <= k < |text| ==> DigitValue(text[k]).Some?
    ensures WithoutUnderscores(text) == text
  {
    if text == "" {
    } else {
      NoUnderscores(text[1..]);
      assert text[0] != '_';
    }
  }

  function ParseLines(lines: seq<string>): Option<seq<int>> {
    if lines == [] then Some([])
    else
      var rest := ParseLines(lines[..|lines| - 1]);
      var line := Strip(lines[|lines| - 1]);
      if rest.None? || line == "" then rest
      else match ParseInt(line)
           case None => None
           case Some(w) => Some(rest.value + [w])
  }

  method LoadHex(text: string) returns (words: Option<seq<int>>)
    ensures words == ParseLines(Lines(text))
  {
    hide ParseInt, Strip, Lines;
    var lines := Lines(text);
    var loaded: seq<int> := [];
    for i := 0 to |lines|
      invariant ParseLines(lines[..i]) == Some(loaded)
    {
      assert lines[..i + 1][..i] == lines[..i];
      var line := Strip(lines[i]);
      if line != "" {
        match ParseInt(line)
        case None =>
          BadLineFails(lines, i);
          return None;
        case Some(w) => loaded := loaded + [w];
      }
    }
    assert lines[..|lines|] == lines;
    words := Some(loaded);
  }

  lemma {:induction false} BadLineFails(lines: seq<string>, i: nat)
    requires i < |lines| && Strip(lines[i]) != "" && ParseInt(Strip(lines[i])).None?
    ensures ParseLines(lines).None?
    decreases |lines|
  {
    hide ParseInt, Strip;
    if i == |lines| - 1 {
    } else {
      BadLineFails(lines[..|lines| - 1], i);
    }
  }

  // ----- round trip -----

  lemma {:induction false} NumeralIsPlain(n: nat)
    ensures forall c :: c in Numeral(16, n) ==> DigitValue(c).Some?
    decreases n
  {
    DigitsRead(n % 16);
    if n < 16 {
      DigitsRead(n);
    } else {
      NumeralIsPlain(n / 16);
    }
  }

  lemma {:induction false} ZerosArePlain(k: nat)
    ensures forall c :: c in Zeros(k) ==> c == '0'
  {
    if k == 0 {
    } else {
      ZerosArePlain(k - 1);
    }
  }

  lemma ZeroIsDigit()
    ensures DigitValue('0').Some?
  {}

  lemma Hex04Reads(n: nat)
    ensures var line := Hex04(n);
            && Unbroken(line) && line != "" && Strip(line) == line && ParseInt(line) == Some(n)
  {
    hide ParseNumeral, Numeral, ParseInt, DigitValue, IsWhitespace, IsLineBreak, ParseUnsigned;
    var digits := Numeral(16, n);
    NumeralIsPlain(n);
    var k := if |digits| < 4 then 4 - |digits| else 0;
    ZerosArePlain(k);
    LeadingZeros(k, digits);
    ParseInvertsNumeral(16, n);
    var line := Hex04(n);
    forall k | 0 <= k < |line|
      ensures DigitValue(line[k]).Some? && !IsWhitespace(line[k]) && !IsLineBreak(line[k])
    {
      assert line[k] in line;
      ZeroIsDigit();
      DigitsArePlain(line[k]);
    }
    PlainReads(line);
  }

  lemma {:induction false} LineEndIs(text: string, k: nat)
    requires k < |text| && IsLineBreak(text[k]) && Unbroken(text[..k])
    ensures LineEnd(text) == k
  {
    if k == 0 {
    } else {
      assert text[0] == text[..k][0];
      assert text[1..][..k - 1] == text[..k][1..];
      LineEndIs(text[1..], k - 1);
    }
  }

  /** Text is split at every break, and the last line needs none. */
  lemma LinesSplit(line: string, c: char, rest: string)
    requires Unbroken(line) && IsLineBreak(c)
    ensures Lines(line + [c] + rest) == [line] + Lines(rest)
    ensures Lines(line) == if line == "" then [] else [line]
  {
    var text := line + [c] + rest;
    assert text[..|line|] == line && text[|line| + 1..] == rest;
    LineEndIs(text, |line|);
    assert LineEnd(line) == |line|;
    assert line[..|line|] == line;
  }

  /** Stripping removes the blanks at both ends, all of them and nothing else. */
  lemma {:induction false} StripExactly(before: string, core: string, after: string)
    requires forall k :: 0 <= k < |before| ==> IsWhitespace(before[k])
    requires forall k :: 0 <= k < |after| ==> IsWhitespace(after[k])
    requires core != "" ==> !IsWhitespace(core[0]) && !IsWhitespace(core[|core| - 1])
    ensures Strip(before + core + after) == core
    decreases |before| + |after|
  {
    hide IsWhitespace;
    var line := before + core + after;
    if before != "" {
      assert line[0] == before[0] && line[1..] == before[1..] + core + after;
      StripExactly(before[1..], core, after);
    } else if after != "" && core != "" {
      var front := after[..|after| - 1];
      assert line[0] == core[0] && line[|line| - 1] == after[|after| - 1];
      assert line[..|line| - 1] == before + core + front;
      StripExactly(before, core, front);
    } else if after != "" {
      assert line[0] == after[0] && line[1..] == "" + core + after[1..];
      StripExactly("", core, after[1..]);
    } else {
      assert line == core;
    }
  }

  /** The separators and blanks by their codes. */
  lemma SeparatorCodes(c: char)
    ensures IsLineBreak(c) <==> c as int in {10, 11, 12, 13, 28, 29, 30}
    ensures IsWhitespace(c) <==> c as int in {9, 10, 11, 12, 13, 28, 29, 30, 31, 32}
  {}

  lemma SingleLine(line: string)
    ensures ParseLines([line]) == if Strip(line) == "" then Some([])
                                  else match ParseInt(Strip(line))
                                       case None => None
                                       case Some(w) => Some([w])
  {
    hide ParseInt, Strip;
    var lines := [line];
    assert lines[..|lines| - 1] == [] && ParseLines([]) == Some([]);
    assert forall w: int :: [] + [w] == [w];
  }

  lemma {:induction false} ParseLinesCons(line: string, lines: seq<string>)
    ensures ParseLines([line] + lines) ==
            match (ParseLines([line]), ParseLines(lines))
            case (Some(a), Some(b)) => Some(a + b)
            case _ => None
    decreases |lines|
  {
    hide ParseInt, Strip;
    if lines == [] {
      assert [line] + lines == [line];
      assert forall a: seq<int> :: a + [] == a;
    } else {
      var front := lines[..|lines| - 1];
      assert ([line] + lines)[..|lines|] == [line] + front;
      ParseLinesCons(line, front);
      assert ([line] + lines)[|lines|] == lines[|lines| - 1];
      match (ParseLines([line]), ParseLines(front)) {
        case (Some(a), Some(b)) => assert forall w: int :: a + (b + [w]) == a + b + [w];
        case _ =>
      }
    }
  }

  /** Every list of words, whatever its length and the size of its numbers, reads back as it was written. */
  lemma {:induction false} HexRoundTrip(words: seq<nat>)
    ensures ParseLines(Lines(WriteHex(words))) == Some(words)
  {
    if words == [] {
    } else {
      HexRoundTrip(words[1..]);
      OneMoreLine(words[0], WriteHex(words[1..]), words[1..]);
      assert words == [words[0]] + words[1..];
    }
  }

  lemma OneMoreLine(w: nat, text: string, words: seq<nat>)
    requires ParseLines(Lines(text)) == Some(words)
    ensures ParseLines(Lines(Hex04(w) + "\n" + text)) == Some([w] + words)
  {
    hide ParseInt, Strip, Lines, ParseLines, Hex04;
    Hex04Reads(w);
    LinesSplit(Hex04(w), '\n', text);
    ParseLinesCons(Hex04(w), Lines(text));
    SingleLine(Hex04(w));
  }
}
