/** The Python string operations the Streamlit page applies: `str.strip()`,
    `str.rstrip()` with and without an argument, `html.escape`, the
    newline-to-`<br>` replacement, and `str()` of a non-negative int. */
module PyStrings {

  /** The code points `str.isspace()` accepts, as inclusive ranges. */
  const SpaceRanges: seq<(int, int)> := [
    (0x09, 0x0D), (0x1C, 0x20), (0x85, 0x85), (0xA0, 0xA0), (0x1680, 0x1680),
    (0x2000, 0x200A), (0x2028, 0x2029), (0x202F, 0x202F), (0x205F, 0x205F), (0x3000, 0x3000)
  ]

  predicate InRanges(x: int, ranges: seq<(int, int)>) {
    ranges != [] && (ranges[0].0 <= x <= ranges[0].1 || InRanges(x, ranges[1..]))
  }

  /** `c.isspace()`: the characters `str.strip()` and `str.rstrip()` remove
      when called without an argument. */
  predicate IsSpace(c: char) {
    InRanges(c as int, SpaceRanges)
  }

  predicate AllSpace(s: string) {
    forall i :: 0 <= i < |s| ==> IsSpace(s[i])
  }

  /** `s.rstrip()`: the longest prefix of `s` that leaves only whitespace behind. */
  function RStrip(s: string): (r: string)
    ensures r <= s
    ensures AllSpace(s[|r|..])
    ensures r == [] || !IsSpace(r[|r| - 1])
  {
    if s != [] && IsSpace(s[|s| - 1]) then RStrip(s[..|s| - 1]) else s
  }

  /** `s.strip()`: whitespace removed from both ends. The result is empty
      exactly when `s` is all whitespace, and otherwise starts and ends with a
      non-whitespace character. */
  function Strip(s: string): (r: string)
    decreases |s|
    ensures r == [] <==> AllSpace(s)
    ensures r == [] || (!IsSpace(r[0]) && !IsSpace(r[|r| - 1]))
  {
    if s == [] then []
    else if IsSpace(s[0]) then
      var r := Strip(s[1..]);
      assert AllSpace(s) <==> AllSpace(s[1..]) by {
        if AllSpace(s[1..]) {
          forall i | 0 <= i < |s| ensures IsSpace(s[i]) {
            if i > 0 {
              assert s[i] == s[1..][i - 1];
            }
          }
        }
      }
      r
    else if IsSpace(s[|s| - 1]) then
      var r := Strip(s[..|s| - 1]);
      assert !AllSpace(s[..|s| - 1]) by {
        assert s[..|s| - 1][0] == s[0];
      }
      r
    else s
  }

  /** What `strip` removes is whitespace: the result is the slice `s[i..j]`
      with only whitespace before `i` and after `j`. */
  lemma {:induction false} StripIsSlice(s: string) returns (i: nat, j: nat)
    decreases |s|
    ensures i <= j <= |s|
    ensures Strip(s) == s[i..j]
    ensures AllSpace(s[..i]) && AllSpace(s[j..])
  {
    if s == [] {
      i, j := 0, 0;
    } else if IsSpace(s[0]) {
      var t := s[1..];
      var i', j' := StripIsSlice(t);
      i, j := i' + 1, j' + 1;
      assert Strip(s) == Strip(t);
      assert t[i'..j'] == s[i..j];
      assert t[j'..] == s[j..];
      SpaceBefore(s, i');
    } else if IsSpace(s[|s| - 1]) {
      var t := s[..|s| - 1];
      i, j := StripIsSlice(t);
      assert Strip(s) == Strip(t);
      assert t[i..j] == s[i..j];
      assert t[..i] == s[..i];
      SpaceAfter(s, j);
    } else {
      i, j := 0, |s|;
    }
  }

  /** A whitespace character followed by whitespace is whitespace. */
  lemma SpaceBefore(s: string, i: nat)
    requires s != [] && IsSpace(s[0]) && i < |s|
    requires AllSpace(s[1..][..i])
    ensures AllSpace(s[..i + 1])
  {
    var p := s[..i + 1];
    forall k | 0 < k < |p| ensures IsSpace(p[k]) {
      assert p[k] == s[1..][..i][k - 1];
    }
  }

  /** Whitespace followed by a whitespace character is whitespace. */
  lemma SpaceAfter(s: string, j: nat)
    requires s != [] && IsSpace(s[|s| - 1]) && j < |s|
    requires AllSpace(s[..|s| - 1][j..])
    ensures AllSpace(s[j..])
  {
    var p := s[j..];
    forall k | 0 <= k < |p| - 1 ensures IsSpace(p[k]) {
      assert p[k] == s[..|s| - 1][j..][k];
    }
  }

  /** Stripping twice is stripping once. */
  lemma StripIdempotent(s: string)
    ensures Strip(Strip(s)) == Strip(s)
  {
  }

  lemma RStripKeeps(s: string)
    requires s == [] || !IsSpace(s[|s| - 1])
    ensures RStrip(s) == s
  {
  }

  /** `s.rstrip(c)`: the longest prefix of `s` that leaves only copies of `c`
      behind. */
  function RStripChar(s: string, c: char): (r: string)
    ensures r <= s
    ensures forall i :: |r| <= i < |s| ==> s[i] == c
    ensures r == [] || r[|r| - 1] != c
  {
    if s != [] && s[|s| - 1] == c then RStripChar(s[..|s| - 1], c) else s
  }

  /** The replacement `html.escape` (with its default `quote=True`) makes for
      one character. */
  function EscapeChar(c: char): string {
    if c == '&' then "&amp;"
    else if c == '<' then "&lt;"
    else if c == '>' then "&gt;"
    else if c == '"' then "&quot;"
    else if c == '\'' then "&#x27;"
    else [c]
  }

  /** No character that HTML reads as markup or as the end of an attribute. */
  predicate NoMarkup(s: string) {
    forall i :: 0 <= i < |s| ==> s[i] != '<' && s[i] != '>' && s[i] != '"' && s[i] != '\''
  }

  /** `html.escape(s)`: its five sequential replacements act as one
      replacement per character, since none of them introduces a character a
      later one rewrites. The result carries no markup character and has a
      newline exactly where the input has one. */
  function Escape(s: string): (r: string)
    ensures NoMarkup(r)
    ensures '\n' in r <==> '\n' in s
    ensures |r| >= |s|
  {
    if s == [] then []
    else
      var r := EscapeChar(s[0]) + Escape(s[1..]);
      assert '\n' in s <==> s[0] == '\n' || '\n' in s[1..] by {
        assert s == [s[0]] + s[1..];
      }
      r
  }

  /** `html.unescape`, restricted to the five references `html.escape`
      produces; every other character is kept. */
  function Unescape(s: string): string
    decreases |s|
  {
    if s == [] then []
    else if s[0] != '&' then [s[0]] + Unescape(s[1..])
    else if "&amp;" <= s then "&" + Unescape(s[5..])
    else if "&lt;" <= s then "<" + Unescape(s[4..])
    else if "&gt;" <= s then ">" + Unescape(s[4..])
    else if "&quot;" <= s then "\"" + Unescape(s[6..])
    else if "&#x27;" <= s then "'" + Unescape(s[6..])
    else "&" + Unescape(s[1..])
  }

  lemma UnescapeAfterEscapeChar(c: char, t: string)
    ensures Unescape(EscapeChar(c) + t) == [c] + Unescape(t)
  {
    var e := EscapeChar(c);
    var s := e + t;
    assert s[..|e|] == e;
    if c == '&' {
      assert "&amp;" <= s;
      assert s[5..] == t;
    } else if c == '<' {
      assert s[1] == 'l';
      assert "&lt;" <= s;
      assert s[4..] == t;
    } else if c == '>' {
      assert s[1] == 'g';
      assert "&gt;" <= s;
      assert s[4..] == t;
    } else if c == '"' {
      assert s[1] == 'q';
      assert "&quot;" <= s;
      assert s[6..] == t;
    } else if c == '\'' {
      assert s[1] == '#';
      assert "&#x27;" <= s;
      assert s[6..] == t;
    } else {
      assert s[0] == c;
      assert s[1..] == t;
    }
  }

  /** Escaping loses nothing: unescaping gives the original text back. */
  lemma {:induction false} UnescapeEscape(s: string)
    ensures Unescape(Escape(s)) == s
  {
    if s != [] {
      UnescapeEscape(s[1..]);
      UnescapeAfterEscapeChar(s[0], Escape(s[1..]));
    }
  }

  /** `s.replace("\n", "<br>")`. */
  function BreakLines(s: string): (r: string)
    ensures '\n' !in r
    ensures |r| >= |s|
  {
    if s == [] then []
    else (if s[0] == '\n' then "<br>" else [s[0]]) + BreakLines(s[1..])
  }

  /** Text without a newline passes through `replace` unchanged. */
  lemma {:induction false} BreakLinesKeeps(s: string)
    requires '\n' !in s
    ensures BreakLines(s) == s
  {
    if s != [] {
      assert s == [s[0]] + s[1..];
      BreakLinesKeeps(s[1..]);
    }
  }

  /** `replace` works one character at a time: a newline becomes `<br>` and
      every other character stays as it is. */
  lemma BreakLinesChar(c: char)
    ensures BreakLines([c]) == if c == '\n' then "<br>" else [c]
  {
  }

  /** The replacement keeps every character in place: replacing in a
      concatenation is concatenating the replacements. */
  lemma {:induction false} BreakLinesAppend(a: string, b: string)
    ensures BreakLines(a + b) == BreakLines(a) + BreakLines(b)
  {
    if a != [] {
      assert (a + b)[0] == a[0];
      assert (a + b)[1..] == a[1..] + b;
      BreakLinesAppend(a[1..], b);
    } else {
      assert a + b == b;
    }
  }

  function DigitChar(d: nat): char
    requires d < 10
  {
    ('0' as int + d) as char
  }

  /** `str(n)` for a non-negative int: decimal digits, no leading zero. */
  function Decimal(n: nat): (r: string)
    ensures r != []
    ensures forall i :: 0 <= i < |r| ==> '0' <= r[i] <= '9'
    ensures r[0] == '0' <==> n == 0
  {
    if n < 10 then [DigitChar(n)] else Decimal(n / 10) + [DigitChar(n % 10)]
  }

  /** The number a string of decimal digits denotes (Python's `int(s)` on
      such a string). */
  function DecimalValue(s: string): int {
    if s == [] then 0 else DecimalValue(s[..|s| - 1]) * 10 + (s[|s| - 1] as int - '0' as int)
  }

  /** Reading back the decimal text of `n` gives `n`. */
  lemma {:induction false} DecimalValueOfDecimal(n: nat)
    ensures DecimalValue(Decimal(n)) == n
  {
    if n >= 10 {
      DecimalValueOfDecimal(n / 10);
      var r := Decimal(n);
      assert r[..|r| - 1] == Decimal(n / 10);
    }
  }
}
