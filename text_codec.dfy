/**
  The pieces of .NET text handling that the flat-file format relies on:
  `string.Split(char)`, `int.ToString()`/`int.Parse`, `bool.ToString()`/
  `bool.Parse`, `StreamWriter.WriteLine` and `File.ReadAllLines`, and an
  abstract `DateTime` codec. Culture-dependent choices are fixed to the
  invariant culture.
 */
module TextCodec {
  import opened Wrappers
  import opened TodoModel

  // ---------------------------------------------------------------------------
  // string.Split(char) and its inverse

  /** Number of occurrences of `c` in `s`. */
  function Count(s: string, c: char): nat {
    if s == [] then 0 else (if s[0] == c then 1 else 0) + Count(s[1..], c)
  }

  lemma {:induction false} CountAppend(a: string, b: string, c: char)
    ensures Count(a + b, c) == Count(a, c) + Count(b, c)
  {
    if a == [] {
      assert a + b == b;
    } else {
      assert (a + b)[1..] == a[1..] + b;
      CountAppend(a[1..], b, c);
    }
  }

  lemma {:induction false} CountAbsent(s: string, c: char)
    ensures Count(s, c) == 0 <==> c !in s
  {
    if s != [] {
      CountAbsent(s[1..], c);
      assert s == [s[0]] + s[1..];
    }
  }

  /** `s.Split(sep)`: the pieces between separators, empty pieces kept. */
  function Split(s: string, sep: char): (parts: seq<string>)
    ensures |parts| == Count(s, sep) + 1
    ensures forall i :: 0 <= i < |parts| ==> sep !in parts[i]
  {
    if s == [] then [""]
    else
      var rest := Split(s[1..], sep);
      if s[0] == sep then [""] + rest
      else [[s[0]] + rest[0]] + rest[1..]
  }

  /** `string.Join(sep, parts)`. */
  function Join(parts: seq<string>, sep: char): string
    requires |parts| > 0
    decreases |parts|
  {
    if |parts| == 1 then parts[0] else parts[0] + [sep] + Join(parts[1..], sep)
  }

  /** Splitting and joining again gives back the text. */
  lemma {:induction false} JoinSplit(s: string, sep: char)
    ensures Join(Split(s, sep), sep) == s
  {
    if s != [] {
      var rest := Split(s[1..], sep);
      JoinSplit(s[1..], sep);
      if s[0] == sep {
        assert Split(s, sep)[1..] == rest;
      } else if |rest| == 1 {
        assert Split(s, sep) == [[s[0]] + rest[0]];
      } else {
        var parts := Split(s, sep);
        assert parts[1..] == rest[1..];
        assert Join(rest, sep) == rest[0] + [sep] + Join(rest[1..], sep);
      }
    }
  }

  lemma {:induction false} SplitNoSeparator(a: string, sep: char)
    requires sep !in a
    ensures Split(a, sep) == [a]
  {
    if a != [] {
      SplitNoSeparator(a[1..], sep);
      assert [a[0]] + a[1..] == a;
    }
  }

  lemma {:induction false} SplitSeparated(a: string, sep: char, rest: string)
    requires sep !in a
    ensures Split(a + [sep] + rest, sep) == [a] + Split(rest, sep)
  {
    if a == [] {
      assert a + [sep] + rest == [sep] + rest;
      assert ([sep] + rest)[1..] == rest;
    } else {
      var s := a + [sep] + rest;
      assert s[1..] == a[1..] + [sep] + rest;
      SplitSeparated(a[1..], sep, rest);
      assert [a[0]] + a[1..] == a;
    }
  }

  /** Joining separator-free pieces and splitting again gives back the pieces. */
  lemma {:induction false} SplitJoin(parts: seq<string>, sep: char)
    requires |parts| > 0
    requires forall i :: 0 <= i < |parts| ==> sep !in parts[i]
    ensures Split(Join(parts, sep), sep) == parts
    decreases |parts|
  {
    if |parts| == 1 {
      SplitNoSeparator(parts[0], sep);
    } else {
      SplitJoin(parts[1..], sep);
      SplitSeparated(parts[0], sep, Join(parts[1..], sep));
      assert [parts[0]] + parts[1..] == parts;
    }
  }

  // ---------------------------------------------------------------------------
  // Trimming

  /** `s` without the leading characters that satisfy `white`. */
  function TrimStart(s: string, white: char -> bool): string {
    if s != [] && white(s[0]) then TrimStart(s[1..], white) else s
  }

  /** `s` without the trailing characters that satisfy `white`. */
  function TrimEnd(s: string, white: char -> bool): string {
    if s != [] && white(s[|s| - 1]) then TrimEnd(s[..|s| - 1], white) else s
  }

  /** `s.Trim(...)`: both ends. */
  function Trim(s: string, white: char -> bool): string {
    TrimEnd(TrimStart(s, white), white)
  }

  /** TrimStart removes a prefix of white characters and stops at the first other one. */
  lemma {:induction false} TrimStartSuffix(s: string, white: char -> bool)
    ensures var t := TrimStart(s, white);
      && |t| <= |s| && t == s[|s| - |t|..]
      && (forall i :: 0 <= i < |s| - |t| ==> white(s[i]))
      && (t != [] ==> !white(t[0]))
  {
    if s != [] && white(s[0]) {
      TrimStartSuffix(s[1..], white);
    }
  }

  /** TrimEnd removes a suffix of white characters and stops at the last other one. */
  lemma {:induction false} TrimEndPrefix(s: string, white: char -> bool)
    ensures var t := TrimEnd(s, white);
      && |t| <= |s| && t == s[..|t|]
      && (forall i :: |t| <= i < |s| ==> white(s[i]))
      && (t != [] ==> !white(t[|t| - 1]))
  {
    if s != [] && white(s[|s| - 1]) {
      TrimEndPrefix(s[..|s| - 1], white);
    }
  }

  /** The white space `NumberStyles.Integer` lets `int.Parse` skip: U+0009 to U+000D and U+0020. */
  predicate IsNumberWhite(c: char) {
    c == ' ' || '\t' <= c <= '\r'
  }

  /** `char.IsWhiteSpace`: the Unicode separators (Zs, Zl, Zp), U+0009 to U+000D and U+0085. */
  predicate IsWhiteSpace(c: char) {
    || c == ' ' || '\t' <= c <= '\r' || c == '\U{0085}' || c == '\U{00A0}' || c == '\U{1680}'
    || '\U{2000}' <= c <= '\U{200A}' || c == '\U{2028}' || c == '\U{2029}' || c == '\U{202F}'
    || c == '\U{205F}' || c == '\U{3000}'
  }

  /** What `bool.Parse` trims from both ends of its argument. */
  predicate IsWhiteSpaceOrNull(c: char) {
    IsWhiteSpace(c) || c == '\0'
  }

  // ---------------------------------------------------------------------------
  // int.ToString() and int.Parse(string)

  predicate IsDigit(c: char) {
    '0' <= c <= '9'
  }

  predicate AllDigits(s: string) {
    forall i :: 0 <= i < |s| ==> IsDigit(s[i])
  }

  function DigitChar(d: nat): (c: char)
    requires d < 10
    ensures IsDigit(c)
  {
    ('0' as int + d) as char
  }

  /** The decimal digits of `n`, most significant first, without leading zeros. */
  function Digits(n: nat): (s: string)
    ensures s != [] && AllDigits(s)
    decreases n
  {
    if n < 10 then [DigitChar(n)] else Digits(n / 10) + [DigitChar(n % 10)]
  }

  /** The number a string of decimal digits denotes (leading zeros allowed). */
  function DigitsValue(s: string): nat
    requires AllDigits(s)
  {
    if s == [] then 0 else DigitsValue(s[..|s| - 1]) * 10 + (s[|s| - 1] as int - '0' as int)
  }

  lemma {:induction false} DigitsRoundTrip(n: nat)
    ensures DigitsValue(Digits(n)) == n
    decreases n
  {
    if n >= 10 {
      DigitsRoundTrip(n / 10);
      var s := Digits(n / 10) + [DigitChar(n % 10)];
      assert s[..|s| - 1] == Digits(n / 10);
    }
  }

  /** `x.ToString()`: an optional minus sign and the decimal digits. */
  function FormatInt32(x: int32): string {
    if x < 0 then "-" + Digits(-(x as int)) else Digits(x as int)
  }

  /**
    `int.Parse(s)`: optional white space, an optional sign, at least one digit
    and optional white space; anything else is a FormatException, and a
    well-formed number outside the 32-bit range is an OverflowException.
   */
  function ParseInt32(s: string): Result<int32, Exception> {
    var t := Trim(s, IsNumberWhite);
    var signed := t != [] && (t[0] == '-' || t[0] == '+');
    var body := if signed then t[1..] else t;
    if body == [] || !AllDigits(body) then Failure(FormatException)
    else
      var n: int := DigitsValue(body);
      var v := if signed && t[0] == '-' then -n else n;
      if MinInt32 <= v <= MaxInt32 then Success(v as int32) else Failure(OverflowException)
  }

  /** A formatted `int` holds neither separators, line breaks nor white space. */
  lemma FormatInt32Plain(x: int32)
    ensures forall i :: 0 <= i < |FormatInt32(x)| ==> FormatInt32(x)[i] == '-' || IsDigit(FormatInt32(x)[i])
    ensures '|' !in FormatInt32(x) && '\n' !in FormatInt32(x) && '\r' !in FormatInt32(x)
  {
    var f := FormatInt32(x);
    assert forall i :: 0 <= i < |f| ==> f[i] == '-' || IsDigit(f[i]);
  }

  /** `int.Parse(x.ToString()) == x` for every `int`. */
  lemma Int32RoundTrip(x: int32)
    ensures ParseInt32(FormatInt32(x)) == Success(x)
  {
    var f := FormatInt32(x);
    var n := if x < 0 then -(x as int) else x as int;
    DigitsRoundTrip(n);
    assert !IsNumberWhite(f[0]) && !IsNumberWhite(f[|f| - 1]);
    assert Trim(f, IsNumberWhite) == f;
    if x < 0 {
      assert f[1..] == Digits(n);
    } else {
      assert f == Digits(n);
    }
  }

  // ---------------------------------------------------------------------------
  // bool.ToString() and bool.Parse(string)

  /** `b.ToString()`, which is culture-independent. */
  function FormatBool(b: bool): string {
    if b then "True" else "False"
  }

  function ToLowerAscii(c: char): char {
    if 'A' <= c <= 'Z' then (c as int + 32) as char else c
  }

  /** Ordinal case-insensitive comparison, with case folding for ASCII letters. */
  predicate EqualsIgnoreCase(a: string, b: string) {
    |a| == |b| && forall i :: 0 <= i < |a| ==> ToLowerAscii(a[i]) == ToLowerAscii(b[i])
  }

  /** The word `bool.Parse` accepts once its argument is trimmed. */
  function ParseBoolWord(t: string): Option<bool> {
    if EqualsIgnoreCase(t, "True") then Some(true)
    else if EqualsIgnoreCase(t, "False") then Some(false)
    else None
  }

  /**
    `bool.Parse(s)`: "True" or "False" in any letter case, once white space and
    NUL characters are trimmed from both ends; `None` is a FormatException.
   */
  function ParseBool(s: string): Option<bool> {
    ParseBoolWord(Trim(s, IsWhiteSpaceOrNull))
  }

  lemma FormatBoolPlain(b: bool)
    ensures '|' !in FormatBool(b) && '\n' !in FormatBool(b) && '\r' !in FormatBool(b)
  {
  }

  lemma ParseTrue()
    ensures ParseBool("True") == Some(true)
  {
    assert Trim("True", IsWhiteSpaceOrNull) == "True";
  }

  lemma ParseFalse()
    ensures ParseBool("False") == Some(false)
  {
    assert Trim("False", IsWhiteSpaceOrNull) == "False";
  }

  /** `bool.Parse(b.ToString()) == b`. */
  lemma BoolRoundTrip(b: bool)
    ensures ParseBool(FormatBool(b)) == Some(b)
  {
    if b { ParseTrue(); } else { ParseFalse(); }
  }

  /** TrimStart drops a white prefix and keeps everything from the first other character. */
  lemma {:induction false} TrimStartWhitePrefix(pre: string, rest: string, white: char -> bool)
    requires forall i :: 0 <= i < |pre| ==> white(pre[i])
    requires rest != [] && !white(rest[0])
    ensures TrimStart(pre + rest, white) == rest
  {
    if pre == [] {
      assert pre + rest == rest;
    } else {
      assert (pre + rest)[1..] == pre[1..] + rest;
      TrimStartWhitePrefix(pre[1..], rest, white);
    }
  }

  /** TrimEnd drops a white suffix and keeps everything up to the last other character. */
  lemma {:induction false} TrimEndWhiteSuffix(rest: string, post: string, white: char -> bool)
    requires forall i :: 0 <= i < |post| ==> white(post[i])
    requires rest != [] && !white(rest[|rest| - 1])
    ensures TrimEnd(rest + post, white) == rest
  {
    if post == [] {
      assert rest + post == rest;
    } else {
      var s := rest + post;
      assert s[..|s| - 1] == rest + post[..|post| - 1];
      TrimEndWhiteSuffix(rest, post[..|post| - 1], white);
    }
  }

  /** Trim removes exactly the white padding around a word that starts and ends with other characters. */
  lemma TrimPadding(pre: string, w: string, post: string, white: char -> bool)
    requires forall i :: 0 <= i < |pre| ==> white(pre[i])
    requires forall i :: 0 <= i < |post| ==> white(post[i])
    requires w != [] && !white(w[0]) && !white(w[|w| - 1])
    ensures Trim(pre + w + post, white) == w
  {
    assert pre + w + post == pre + (w + post);
    TrimStartWhitePrefix(pre, w + post, white);
    TrimEndWhiteSuffix(w, post, white);
  }

  /** `bool.Parse` accepts "True" or "False" in any letter case, with any white space or NUL around it. */
  lemma ParseBoolLenient(pre: string, w: string, post: string, b: bool)
    requires forall i :: 0 <= i < |pre| ==> IsWhiteSpaceOrNull(pre[i])
    requires forall i :: 0 <= i < |post| ==> IsWhiteSpaceOrNull(post[i])
    requires EqualsIgnoreCase(w, FormatBool(b))
    ensures ParseBool(pre + w + post) == Some(b)
  {
    var word := FormatBool(b);
    assert ToLowerAscii(w[0]) == ToLowerAscii(word[0]);
    assert ToLowerAscii(w[|w| - 1]) == ToLowerAscii(word[|word| - 1]);
    TrimPadding(pre, w, post, IsWhiteSpaceOrNull);
  }

  /** ASCII lower-casing of a whole string. */
  function LowerAscii(s: string): (r: string)
    ensures |r| == |s| && forall i :: 0 <= i < |s| ==> r[i] == ToLowerAscii(s[i])
  {
    seq(|s|, i requires 0 <= i < |s| => ToLowerAscii(s[i]))
  }

  lemma EqualsIgnoreCaseLower(a: string, b: string)
    ensures EqualsIgnoreCase(a, b) <==> LowerAscii(a) == LowerAscii(b)
  {
    if LowerAscii(a) == LowerAscii(b) {
      forall i | 0 <= i < |a|
        ensures ToLowerAscii(a[i]) == ToLowerAscii(b[i])
      {
        assert LowerAscii(a)[i] == LowerAscii(b)[i];
      }
    }
  }

  /**
    `bool.Parse(s)` gives `b` exactly when the trimmed text lower-cases to the
    lower-cased `b.ToString()`; every other text is a FormatException.
   */
  lemma ParseBoolExactly(s: string, b: bool)
    ensures ParseBool(s) == Some(b) <==> LowerAscii(Trim(s, IsWhiteSpaceOrNull)) == LowerAscii(FormatBool(b))
  {
    var t := Trim(s, IsWhiteSpaceOrNull);
    EqualsIgnoreCaseLower(t, "True");
    EqualsIgnoreCaseLower(t, "False");
  }

  /** One instance of the leniency: " true\t" parses to true. */
  lemma ParseBoolPaddedExample()
    ensures ParseBool(" true\t") == Some(true)
  {
    assert " true\t" == " " + "true" + "\t";
    ParseBoolLenient(" ", "true", "\t", true);
  }

  /** One instance of the rejection: "yes" is a FormatException. */
  lemma ParseBoolRejectsExample()
    ensures ParseBool("yes") == None
  {
    assert Trim("yes", IsWhiteSpaceOrNull) == "yes";
  }

  // ---------------------------------------------------------------------------
  // DateTime.ToString() and DateTime.Parse(string)

  /**
    The culture-dependent `DateTime` text conversion, left abstract: `format`
    is `ToString()`, `parse` is `DateTime.Parse` with `None` for a
    FormatException.
   */
  datatype DateCodec = DateCodec(format: DateTime -> string, parse: string -> Option<DateTime>)

  /**
    A date that survives a save and a load: parsing its text gives it back,
    and the text holds neither the field separator nor a line break.
   */
  predicate DateSurvives(codec: DateCodec, d: DateTime) {
    codec.parse(codec.format(d)) == Some(d) && NoFieldBreak(codec.format(d))
  }

  predicate NoFieldBreak(s: string) {
    '|' !in s && '\n' !in s && '\r' !in s
  }

  // ---------------------------------------------------------------------------
  // StreamWriter.WriteLine and File.ReadAllLines

  /** `Environment.NewLine` on Unix. */
  const NewLine: string := "\n"

  predicate IsLineBreak(c: char) {
    c == '\n' || c == '\r'
  }

  /** The file content after `WriteLine` was called once for each line. */
  function WriteLines(lines: seq<string>): string {
    if lines == [] then "" else lines[0] + NewLine + WriteLines(lines[1..])
  }

  lemma {:induction false} WriteLinesSnoc(lines: seq<string>, line: string)
    ensures WriteLines(lines + [line]) == WriteLines(lines) + line + NewLine
  {
    if lines == [] {
      assert lines + [line] == [line];
    } else {
      assert (lines + [line])[1..] == lines[1..] + [line];
      WriteLinesSnoc(lines[1..], line);
    }
  }

  /** Index of the first line break in `text`, or its length when there is none. */
  function LineEnd(text: string): (k: nat)
    ensures k <= |text|
    ensures forall i :: 0 <= i < k ==> !IsLineBreak(text[i])
    ensures k < |text| ==> IsLineBreak(text[k])
  {
    if text == [] || IsLineBreak(text[0]) then 0 else 1 + LineEnd(text[1..])
  }

  /**
    `File.ReadAllLines`: the text cut at "\r\n", "\n" and "\r"; a final line
    break does not start another line.
   */
  function ReadAllLines(text: string): seq<string>
    decreases |text|
  {
    if text == [] then []
    else
      var k := LineEnd(text);
      if k == |text| then [text]
      else if text[k] == '\r' && k + 1 < |text| && text[k + 1] == '\n' then [text[..k]] + ReadAllLines(text[k + 2..])
      else [text[..k]] + ReadAllLines(text[k + 1..])
  }

  /** Lines without line breaks are read back exactly as they were written. */
  lemma {:induction false} ReadWriteLines(lines: seq<string>)
    requires forall i :: 0 <= i < |lines| ==> '\n' !in lines[i] && '\r' !in lines[i]
    ensures ReadAllLines(WriteLines(lines)) == lines
  {
    if lines != [] {
      var text := WriteLines(lines);
      var l := lines[0];
      assert text == l + "\n" + WriteLines(lines[1..]);
      assert forall i :: 0 <= i < |l| ==> text[i] == l[i];
      assert text[|l|] == '\n';
      assert LineEnd(text) == |l| by { LineEndAt(text, |l|); }
      assert text[..|l|] == l;
      assert text[|l| + 1..] == WriteLines(lines[1..]);
      ReadWriteLines(lines[1..]);
      assert [l] + lines[1..] == lines;
    }
  }

  lemma {:induction false} LineEndAt(text: string, k: nat)
    requires k < |text| && IsLineBreak(text[k])
    requires forall i :: 0 <= i < k ==> !IsLineBreak(text[i])
    ensures LineEnd(text) == k
  {
    if k > 0 {
      LineEndAt(text[1..], k - 1);
    }
  }
}
