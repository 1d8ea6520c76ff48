/** The few Python `str` operations the modelled code relies on: `int(s)` and
    `str(n)` for base-10 integers, `s.split(sep)` and `sep.join(parts)` for a
    one-character separator, `s.split()` on whitespace, `s.startswith(p)`,
    `s.replace(old, new)`, and the whitespace `int()` skips. */
module PyText {
  import opened Wrappers

  /** `c.isspace()`: the characters Python treats as whitespace when it strips
      or splits a string without an explicit separator. */
  predicate IsSpace(c: char) {
    || ('\U{9}' <= c <= '\U{D}')
    || ('\U{1C}' <= c <= '\U{20}')
    || c == '\U{85}' || c == '\U{A0}' || c == '\U{1680}'
    || ('\U{2000}' <= c <= '\U{200A}')
    || c == '\U{2028}' || c == '\U{2029}' || c == '\U{202F}' || c == '\U{205F}' || c == '\U{3000}'
  }

  predicate IsDigit(c: char) {
    '0' <= c <= '9'
  }

  function DigitValue(c: char): nat
    requires IsDigit(c)
  {
    (c as int) - ('0' as int)
  }

  function DigitChar(d: nat): (c: char)
    requires d < 10
    ensures IsDigit(c) && DigitValue(c) == d
  {
    (('0' as int) + d) as char
  }

  // ---------------------------------------------------------------------------
  // str(n) and int(s)

  /** `str(n)` for a non-negative integer: its decimal digits, no leading zero. */
  function NatToString(n: nat): (s: string)
    ensures |s| > 0
    ensures forall i :: 0 <= i < |s| ==> IsDigit(s[i])
  {
    if n < 10 then [DigitChar(n)] else NatToString(n / 10) + [DigitChar(n % 10)]
  }

  /** `str(i)` for any integer. */
  function IntToString(i: int): string {
    if i < 0 then "-" + NatToString(-i) else NatToString(i)
  }

  /** A lower-case hexadecimal digit. */
  function HexDigit(d: nat): char
    requires d < 16
  {
    if d < 10 then DigitChar(d) else (('a' as int) + d - 10) as char
  }

  /** How `repr` writes one character of a string quoted with `quote`: the
      quote and the backslash escaped, tab, newline and carriage return by
      their letters, the other ASCII control characters as `\xHH`. */
  function EscapeChar(c: char, quote: char): string {
    if c == quote || c == '\\' then ['\\', c]
    else if c == '\t' then "\\t"
    else if c == '\n' then "\\n"
    else if c == '\r' then "\\r"
    else if c < ' ' || c == '\U{7F}' then ['\\', 'x', HexDigit(c as int / 16), HexDigit(c as int % 16)]
    else [c]
  }

  function EscapeChars(s: string, quote: char): string {
    if s == [] then [] else EscapeChar(s[0], quote) + EscapeChars(s[1..], quote)
  }

  /** `repr(s)` for a string: single quotes, unless the string holds a single
      quote and no double quote, with its characters escaped. */
  function StrRepr(s: string): (r: string)
    ensures |r| >= 2 && r[0] == r[|r| - 1] && (r[0] == '\'' || r[0] == '"')
  {
    var quote := if '\'' in s && '"' !in s then '"' else '\'';
    [quote] + EscapeChars(s, quote) + [quote]
  }

  /** A character `repr` writes as itself inside single quotes. */
  predicate PlainChar(c: char) {
    c != '\'' && c != '\\' && ' ' <= c && c != '\U{7F}'
  }

  /** The `repr` of a string of plain characters is the string between
      single quotes. */
  lemma {:induction false} StrReprPlain(s: string)
    requires forall i :: 0 <= i < |s| ==> PlainChar(s[i])
    ensures StrRepr(s) == "'" + s + "'"
  {
    EscapeCharsPlain(s);
  }

  lemma {:induction false} EscapeCharsPlain(s: string)
    requires forall i :: 0 <= i < |s| ==> PlainChar(s[i])
    ensures EscapeChars(s, '\'') == s
    ensures '\'' !in s
  {
    if s != [] {
      EscapeCharsPlain(s[1..]);
      assert s == [s[0]] + s[1..];
    }
  }

  /** A string holding a single quote and no double quote is shown between
      double quotes, its single quotes unescaped. */
  lemma StrReprOfQuote()
    ensures StrRepr("x'y") == "\"x'y\""
  {
    assert '\'' in "x'y" && '"' !in "x'y";
    assert EscapeChars("x'y", '"') == "x'y" by {
      assert EscapeChars("y", '"') == "y" by {
        assert EscapeChars("", '"') == "";
      }
      assert EscapeChars("'y", '"') == "'" + "y";
    }
  }

  /** The whitespace `int()` skips around a number: `Py_ISSPACE` on ASCII
      characters (tab to carriage return, and the space), and every non-ASCII
      character that `str.isspace()` accepts, which `int()` first turns into a
      space. The ASCII separators U+001C to U+001F, whitespace to
      `str.split()`, are not skipped. */
  predicate IntSpace(c: char) {
    || ('\U{9}' <= c <= '\U{D}')
    || c == ' '
    || c == '\U{85}' || c == '\U{A0}' || c == '\U{1680}'
    || ('\U{2000}' <= c <= '\U{200A}')
    || c == '\U{2028}' || c == '\U{2029}' || c == '\U{202F}' || c == '\U{205F}' || c == '\U{3000}'
  }

  /** The leading whitespace `int()` skips, dropped. */
  function TrimLeft(s: string): string {
    if s != [] && IntSpace(s[0]) then TrimLeft(s[1..]) else s
  }

  /** The trailing whitespace `int()` skips, dropped. */
  function TrimRight(s: string): string {
    if s != [] && IntSpace(s[|s| - 1]) then TrimRight(s[..|s| - 1]) else s
  }

  /** The text `int()` reads once the whitespace around it is skipped. */
  function Trim(s: string): string {
    TrimRight(TrimLeft(s))
  }

  /** A string with no skipped whitespace at either end is its own trim. */
  lemma TrimUnchanged(s: string)
    requires s == [] || (!IntSpace(s[0]) && !IntSpace(s[|s| - 1]))
    ensures Trim(s) == s
  {
    assert TrimLeft(s) == s;
  }

  /** A base-10 digit string as `int()` accepts it after the sign: one or more
      digits, with single underscores allowed between two digits. */
  predicate DigitGroups(d: string) {
    |d| > 0 && IsDigit(d[0]) && MoreDigitGroups(d[1..])
  }

  /** What may follow a digit: nothing, or a digit, or an underscore and a
      digit, and again what may follow a digit. */
  predicate MoreDigitGroups(s: string)
    decreases |s|
  {
    || s == []
    || (IsDigit(s[0]) && MoreDigitGroups(s[1..]))
    || (s[0] == '_' && |s| > 1 && IsDigit(s[1]) && MoreDigitGroups(s[2..]))
  }

  lemma {:induction false} AllDigitsMoreGroups(s: string)
    requires forall i :: 0 <= i < |s| ==> IsDigit(s[i])
    ensures MoreDigitGroups(s)
  {
    if s != [] {
      AllDigitsMoreGroups(s[1..]);
    }
  }

  /** The number the digits of `d` spell, underscores skipped. */
  function DigitsValue(d: string): nat {
    if d == [] then 0
    else if IsDigit(d[|d| - 1]) then 10 * DigitsValue(d[..|d| - 1]) + DigitValue(d[|d| - 1])
    else DigitsValue(d[..|d| - 1])
  }

  /** `int(s)`: `None` where Python raises `ValueError`. */
  function ParseInt(s: string): Option<int> {
    var t := Trim(s);
    if |t| > 0 && (t[0] == '+' || t[0] == '-') then
      var magnitude: int := DigitsValue(t[1..]);
      if DigitGroups(t[1..]) then Some(if t[0] == '-' then -magnitude else magnitude) else None
    else if DigitGroups(t) then Some(DigitsValue(t))
    else None
  }

  lemma {:induction false} DigitsValueOfNat(n: nat)
    ensures DigitsValue(NatToString(n)) == n
  {
    var s := NatToString(n);
    if n >= 10 {
      DigitsValueOfNat(n / 10);
      assert s[..|s| - 1] == NatToString(n / 10);
    } else {
      assert s[..|s| - 1] == [];
    }
  }

  /** The decimal rendering of a natural number is a well-formed digit string. */
  lemma NatToStringGroups(n: nat)
    ensures DigitGroups(NatToString(n))
  {
    var digits := NatToString(n);
    assert forall k :: 0 <= k < |digits| - 1 ==> digits[1..][k] == digits[k + 1];
    AllDigitsMoreGroups(digits[1..]);
  }

  /** `int` of a well-formed digit string. */
  lemma ParseIntOfDigits(d: string)
    requires DigitGroups(d) && forall k :: 0 <= k < |d| ==> IsDigit(d[k])
    ensures ParseInt(d) == Some(DigitsValue(d))
  {
    assert IsDigit(d[0]) && IsDigit(d[|d| - 1]);
    TrimUnchanged(d);
  }

  /** `int` of a minus sign followed by a well-formed digit string. */
  lemma ParseIntOfNegatedDigits(m: string)
    requires |m| > 1 && m[0] == '-' && DigitGroups(m[1..])
    requires forall k :: 1 <= k < |m| ==> IsDigit(m[k])
    ensures ParseInt(m) == Some(-(DigitsValue(m[1..]) as int))
  {
    assert IsDigit(m[|m| - 1]);
    TrimUnchanged(m);
  }

  /** Every character `int()` skips is whitespace to `str.split()`, but not
      the other way round: `int()` rejects a count led by U+001C, which
      `split()` would treat as a separator. */
  lemma IntSpaceNarrower(c: char)
    ensures IntSpace(c) ==> IsSpace(c)
    ensures IsSpace('\U{1C}') && !IntSpace('\U{1C}')
    ensures ParseInt("\U{1C}3").None?
  {
    assert Trim("\U{1C}3") == "\U{1C}3" by {
      TrimUnchanged("\U{1C}3");
    }
  }

  /** `int(str(i)) == i`: the decimal rendering parses back to the same integer. */
  lemma ParseIntToString(i: int)
    ensures ParseInt(IntToString(i)) == Some(i)
  {
    var magnitude: nat := if i < 0 then -i else i;
    DigitsValueOfNat(magnitude);
    NatToStringGroups(magnitude);
    if i < 0 {
      var m := IntToString(i);
      assert m[1..] == NatToString(magnitude);
      ParseIntOfNegatedDigits(m);
    } else {
      ParseIntOfDigits(NatToString(magnitude));
    }
  }

  // ---------------------------------------------------------------------------
  // s.split(sep) and sep.join(parts)

  /** `s.split(sep)` for a one-character separator: always at least one part,
      and no part contains the separator. */
  function Split(s: string, sep: char): (parts: seq<string>)
    ensures |parts| > 0
    ensures forall i :: 0 <= i < |parts| ==> sep !in parts[i]
  {
    if s == [] then [[]]
    else
      var rest := Split(s[1..], sep);
      if s[0] == sep then [[]] + rest else [[s[0]] + rest[0]] + rest[1..]
  }

  /** `sep.join(parts)`. */
  function Join(parts: seq<string>, sep: char): string {
    if |parts| == 0 then []
    else if |parts| == 1 then parts[0]
    else parts[0] + [sep] + Join(parts[1..], sep)
  }

  /** Joining the parts of a split with the same separator gives the string back. */
  lemma {:induction false} JoinSplit(s: string, sep: char)
    ensures Join(Split(s, sep), sep) == s
  {
    if s != [] {
      JoinSplit(s[1..], sep);
      var rest := Split(s[1..], sep);
      if s[0] == sep {
        assert Split(s, sep) == [[]] + rest;
        assert ([[]] + rest)[1..] == rest;
      } else {
        var parts := [[s[0]] + rest[0]] + rest[1..];
        assert Split(s, sep) == parts;
        if |rest| > 1 {
          assert parts[1..] == rest[1..];
        }
      }
    }
  }

  lemma {:induction false} SplitPrefix(a: string, t: string, sep: char)
    requires sep !in a
    ensures Split(a + t, sep) == [a + Split(t, sep)[0]] + Split(t, sep)[1..]
  {
    if a != [] {
      SplitPrefix(a[1..], t, sep);
      var parts := Split(t, sep);
      var rest := Split(a[1..] + t, sep);
      assert (a + t)[1..] == a[1..] + t;
      assert (a + t)[0] == a[0];
      assert rest[0] == a[1..] + parts[0] && rest[1..] == parts[1..];
      assert [a[0]] + (a[1..] + parts[0]) == a + parts[0];
    } else {
      var parts := Split(t, sep);
      assert a + t == t && a + parts[0] == parts[0];
      assert parts == [parts[0]] + parts[1..];
    }
  }

  /** Splitting a join of separator-free parts gives the parts back. */
  lemma {:induction false} SplitJoin(parts: seq<string>, sep: char)
    requires |parts| > 0
    requires forall i :: 0 <= i < |parts| ==> sep !in parts[i]
    ensures Split(Join(parts, sep), sep) == parts
  {
    if |parts| == 1 {
      SplitPrefix(parts[0], [], sep);
      assert parts[0] + [] == parts[0];
    } else {
      var tail := Join(parts[1..], sep);
      SplitJoin(parts[1..], sep);
      SplitPrefix(parts[0], [sep] + tail, sep);
      assert parts[0] + [sep] + tail == parts[0] + ([sep] + tail);
      assert ([sep] + tail)[1..] == tail;
      assert Split([sep] + tail, sep) == [[]] + parts[1..];
      assert parts[0] + [] == parts[0];
    }
  }

  // ---------------------------------------------------------------------------
  // s.split() on whitespace

  /** The longest prefix of `s` holding no whitespace. */
  function TakeWord(s: string): (w: string)
    ensures |w| <= |s| && w == s[..|w|]
    ensures |w| < |s| ==> IsSpace(s[|w|])
  {
    if s == [] || IsSpace(s[0]) then [] else [s[0]] + TakeWord(s[1..])
  }

  /** The word taken holds no whitespace. */
  lemma {:induction false} TakeWordNoSpace(s: string)
    ensures forall i :: 0 <= i < |TakeWord(s)| ==> !IsSpace(TakeWord(s)[i])
  {
    if s != [] && !IsSpace(s[0]) {
      TakeWordNoSpace(s[1..]);
      var w := TakeWord(s[1..]);
      assert TakeWord(s) == [s[0]] + w;
      assert forall i :: 1 <= i < |w| + 1 ==> ([s[0]] + w)[i] == w[i - 1];
    }
  }

  /** `s.split()`: the maximal runs of non-whitespace characters, in order. */
  function Words(s: string): seq<string>
    decreases |s|
  {
    if s == [] then []
    else if IsSpace(s[0]) then Words(s[1..])
    else
      var w := TakeWord(s);
      [w] + Words(s[|w|..])
  }

  /** Every word is non-empty and holds no whitespace. */
  lemma {:induction false} WordsAreWords(s: string)
    ensures forall i :: 0 <= i < |Words(s)| ==> |Words(s)[i]| > 0
    ensures forall i, j :: 0 <= i < |Words(s)| && 0 <= j < |Words(s)[i]| ==> !IsSpace(Words(s)[i][j])
    decreases |s|
  {
    if s != [] {
      if IsSpace(s[0]) {
        WordsAreWords(s[1..]);
      } else {
        var w := TakeWord(s);
        TakeWordNoSpace(s);
        WordsAreWords(s[|w|..]);
        assert Words(s) == [w] + Words(s[|w|..]);
      }
    }
  }

  lemma {:induction false} TakeWordAppend(a: string, b: string)
    requires b == [] || IsSpace(b[0])
    ensures TakeWord(a + b) == TakeWord(a)
  {
    if a == [] {
      assert a + b == b;
    } else if !IsSpace(a[0]) {
      TakeWordAppend(a[1..], b);
      assert (a + b)[1..] == a[1..] + b;
    }
  }

  /** Splitting on whitespace distributes over a concatenation whose second
      half starts with whitespace. */
  lemma {:induction false} WordsAppend(a: string, b: string)
    requires b == [] || IsSpace(b[0])
    ensures Words(a + b) == Words(a) + Words(b)
    decreases |a|
  {
    if a == [] {
      assert a + b == b;
    } else if IsSpace(a[0]) {
      assert (a + b)[0] == a[0];
      assert Words(a + b) == Words((a + b)[1..]);
      assert (a + b)[1..] == a[1..] + b;
      WordsAppend(a[1..], b);
    } else {
      var w := TakeWord(a);
      TakeWordAppend(a, b);
      assert (a + b)[0] == a[0];
      assert |w| > 0;
      assert Words(a + b) == [w] + Words((a + b)[|w|..]);
      assert (a + b)[|w|..] == a[|w|..] + b;
      WordsAppend(a[|w|..], b);
    }
  }

  /** Splitting on whitespace distributes over a concatenation whose first
      half is empty or ends with whitespace. */
  lemma WordsAfterSpace(a: string, b: string)
    requires a == [] || IsSpace(a[|a| - 1])
    ensures Words(a + b) == Words(a) + Words(b)
  {
    if a != [] {
      var init, c := a[..|a| - 1], a[|a| - 1];
      assert a == init + [c];
      assert a + b == init + ([c] + b);
      WordsAppend(init, [c] + b);
      WordsAppend(init, [c]);
      assert ([c] + b)[1..] == b;
      assert Words([c]) == Words([]);
    } else {
      assert a + b == b;
    }
  }

  /** A non-empty string without whitespace is a single word. */
  lemma WordsOfWord(w: string)
    requires |w| > 0
    requires forall i :: 0 <= i < |w| ==> !IsSpace(w[i])
    ensures Words(w) == [w]
  {
    var t := TakeWord(w);
    assert |t| == |w|;
    assert t == w;
    assert w[|w|..] == [];
    assert Words(w) == [w] + Words([]);
  }

  // ---------------------------------------------------------------------------
  // s.startswith(p) and s.replace(old, new)

  predicate StartsWith(s: string, prefix: string) {
    |prefix| <= |s| && s[..|prefix|] == prefix
  }

  predicate OccursAt(pat: string, s: string, i: int) {
    0 <= i && i + |pat| <= |s| && s[i..i + |pat|] == pat
  }

  ghost predicate Occurs(pat: string, s: string) {
    exists i :: OccursAt(pat, s, i)
  }

  /** `s.replace(pat, rep)`: every non-overlapping occurrence of `pat`, found
      from left to right, is replaced by `rep`. */
  function ReplaceAll(s: string, pat: string, rep: string): string
    requires |pat| > 0
    decreases |s|
  {
    if |s| < |pat| then s
    else if s[..|pat|] == pat then rep + ReplaceAll(s[|pat|..], pat, rep)
    else [s[0]] + ReplaceAll(s[1..], pat, rep)
  }

  /** Replacing a pattern that does not occur leaves the string unchanged. */
  lemma {:induction false} ReplaceAllAbsent(s: string, pat: string, rep: string)
    requires |pat| > 0 && !Occurs(pat, s)
    ensures ReplaceAll(s, pat, rep) == s
    decreases |s|
  {
    if |s| >= |pat| {
      assert !OccursAt(pat, s, 0);
      assert s[..|pat|] == s[0..0 + |pat|];
      forall i ensures !OccursAt(pat, s[1..], i) {
        assert !OccursAt(pat, s, i + 1);
      }
      ReplaceAllAbsent(s[1..], pat, rep);
    }
  }
}
