/**
 The text of a `.env` file: Python's whitespace and line breaks, stripping, splitting into
 lines, and the quoting and unquoting of values (deploy.py, app/config.py).
 */
module EnvText {
  import opened Text

  /** Characters for which Python's `str.isspace` holds. */
  predicate IsSpace(c: char) {
    var n := c as int;
    || 9 <= n <= 13 || 28 <= n <= 32 || n == 0x85 || n == 0xA0 || n == 0x1680
    || 0x2000 <= n <= 0x200A || n == 0x2028 || n == 0x2029 || n == 0x202F || n == 0x205F || n == 0x3000
  }

  /** Characters at which Python's `str.splitlines` ends a line. */
  predicate IsLineBreak(c: char)
    ensures IsLineBreak(c) ==> IsSpace(c)
  {
    var n := c as int;
    10 <= n <= 13 || 28 <= n <= 30 || n == 0x85 || n == 0x2028 || n == 0x2029
  }

  predicate OneLine(s: string) {
    forall c <- s :: !IsLineBreak(c)
  }

  function StripLeft(s: string): string {
    if s == "" || !IsSpace(s[0]) then s else StripLeft(s[1..])
  }

  function StripRight(s: string): string {
    if s == "" || !IsSpace(s[|s| - 1]) then s else StripRight(s[..|s| - 1])
  }

  function Strip(s: string): string {
    StripRight(StripLeft(s))
  }

  /** Neither end is whitespace, so stripping changes nothing. */
  predicate Stripped(s: string) {
    s == "" || (!IsSpace(s[0]) && !IsSpace(s[|s| - 1]))
  }

  lemma StripIdentity(s: string)
    requires Stripped(s)
    ensures Strip(s) == s
  {
  }

  lemma {:induction false} StripRightParts(s: string)
    ensures var t := StripRight(s);
      t <= s && (t == "" || !IsSpace(t[|t| - 1])) && forall i :: |t| <= i < |s| ==> IsSpace(s[i])
  {
    if s != "" && IsSpace(s[|s| - 1]) {
      StripRightParts(s[..|s| - 1]);
    }
  }

  lemma {:induction false} StripLeftParts(s: string)
    ensures var t := StripLeft(s);
      && |t| <= |s| && t == s[|s| - |t|..]
      && (t == "" || !IsSpace(t[0]))
      && forall i :: 0 <= i < |s| - |t| ==> IsSpace(s[i])
  {
    hide IsSpace;
    if s != "" && IsSpace(s[0]) {
      StripLeftParts(s[1..]);
      var t := StripLeft(s[1..]);
      assert s[1..][|s| - 1 - |t|..] == s[|s| - |t|..];
      forall i | 0 <= i < |s| - |t|
        ensures IsSpace(s[i])
      {
        assert i > 0 ==> s[1..][i - 1] == s[i];
      }
    }
  }

  lemma StripIsStripped(s: string)
    ensures Stripped(Strip(s))
  {
    StripLeftParts(s);
    StripRightParts(StripLeft(s));
  }

  lemma {:induction false} StripRightConcat(a: string, b: string)
    ensures StripRight(a + b) == if StripRight(b) == "" then StripRight(a) else a + StripRight(b)
    decreases |b|
  {
    if b == "" {
      assert a + b == a;
    } else if IsSpace(b[|b| - 1]) {
      assert (a + b)[..|a + b| - 1] == a + b[..|b| - 1];
      StripRightConcat(a, b[..|b| - 1]);
    }
  }

  lemma {:induction false} StripLeftTrimmed(s: string)
    requires exists i :: 0 <= i < |s| && !IsSpace(s[i])
    ensures StripRight(s) != ""
    ensures StripLeft(StripRight(s)) == StripRight(StripLeft(s))
  {
    StripRightParts(s);
    if IsSpace(s[0]) {
      StripLeftTrimmed(s[1..]);
      assert s == [s[0]] + s[1..];
      StripRightConcat([s[0]], s[1..]);
      assert StripRight(s)[1..] == StripRight(s[1..]);
    }
  }

  lemma {:induction false} StripLeftBlank(s: string)
    requires forall i :: 0 <= i < |s| ==> IsSpace(s[i])
    ensures StripLeft(s) == ""
  {
    if s != "" {
      StripLeftBlank(s[1..]);
    }
  }

  /** Trailing whitespace does not matter to a reader that strips the line. */
  lemma StripStripRight(s: string)
    ensures Strip(StripRight(s)) == Strip(s)
  {
    StripRightParts(s);
    if i :| 0 <= i < |s| && !IsSpace(s[i]) {
      StripLeftTrimmed(s);
      StripLeftParts(StripRight(s));
      StripRightParts(StripLeft(s));
    } else {
      StripLeftBlank(s);
      StripLeftBlank(StripRight(s));
    }
  }

  // ----- Lines -----

  function FirstBreak(s: string): (n: nat)
    ensures n <= |s|
    ensures OneLine(s[..n])
    ensures n < |s| ==> IsLineBreak(s[n])
  {
    if s == "" || IsLineBreak(s[0]) then 0
    else
      var n := FirstBreak(s[1..]);
      assert s[..n + 1] == [s[0]] + s[1..][..n];
      n + 1
  }

  function SplitLines(s: string): (lines: seq<string>)
    ensures forall line <- lines :: OneLine(line)
  {
    if s == "" then []
    else
      var n := FirstBreak(s);
      if n == |s| then [s]
      else if s[n] == '\r' && n + 1 < |s| && s[n + 1] == '\n' then [s[..n]] + SplitLines(s[n + 2..])
      else [s[..n]] + SplitLines(s[n + 1..])
  }

  lemma {:induction false} FirstBreakAt(line: string, rest: string)
    requires OneLine(line)
    ensures FirstBreak(line + "\n" + rest) == |line|
  {
    if line != "" {
      assert (line + "\n" + rest)[1..] == line[1..] + "\n" + rest;
      FirstBreakAt(line[1..], rest);
    }
  }

  lemma SplitLinesCons(line: string, rest: string)
    requires OneLine(line)
    ensures SplitLines(line + "\n" + rest) == [line] + SplitLines(rest)
  {
    FirstBreakAt(line, rest);
    var s := line + "\n" + rest;
    assert s[|line|] == '\n' && s[..|line|] == line && s[|line| + 1..] == rest;
  }

  lemma SplitNothing()
    ensures SplitLines("") == []
  {
  }

  lemma {:induction false} SplitLinesJoin(lines: seq<string>)
    requires lines != []
    requires forall line <- lines :: OneLine(line)
    ensures SplitLines(Join(lines, '\n') + "\n") == lines
  {
    hide SplitLines, OneLine;
    assert lines[0] in lines && forall line <- lines[1..] :: line in lines;
    if |lines| == 1 {
      SplitLinesCons(lines[0], "");
      assert lines[0] + "\n" + "" == lines[0] + "\n";
      assert SplitLines("") == [] by { SplitNothing(); }
      assert lines == [lines[0]] + [];
    } else {
      SplitLinesJoin(lines[1..]);
      assert lines == [lines[0]] + lines[1..];
      var rest := Join(lines[1..], '\n') + "\n";
      SplitLinesCons(lines[0], rest);
      assert Join(lines, '\n') + "\n" == lines[0] + "\n" + rest;
    }
  }

  // ----- Quoting -----

  /** The characters of `PLAIN_ENV_VALUE`. */
  predicate IsPlain(c: char) {
    || 'A' <= c <= 'Z' || 'a' <= c <= 'z' || '0' <= c <= '9'
    || c == '_' || c == '.' || c == '/' || c == ',' || c == ':' || c == '*' || c == '?'
    || c == '=' || c == '@' || c == '+' || c == '%' || c == '-'
  }

  /** `s.replace([c], to)` for a single character. */
  function ReplaceChar(s: string, c: char, to: string): string {
    if s == "" then ""
    else (if s[0] == c then to else [s[0]]) + ReplaceChar(s[1..], c, to)
  }

  /** `s.replace([a, b], [to])`: left to right, without overlaps. */
  function ReplacePair(s: string, a: char, b: char, to: char): string {
    if s == "" then ""
    else if |s| >= 2 && s[0] == a && s[1] == b then [to] + ReplacePair(s[2..], a, b, to)
    else [s[0]] + ReplacePair(s[1..], a, b, to)
  }

  function Escape(value: string): string {
    ReplaceChar(ReplaceChar(value, '\\', "\\\\"), '"', "\\\"")
  }

  function FormatValue(value: string): string {
    if value != "" && forall c <- value :: IsPlain(c) then value
    else ['"'] + Escape(value) + ['"']
  }

  /** The deployment reader: first unescape quotes, then backslashes. */
  function UnescapeTwoPass(s: string): string {
    ReplacePair(ReplacePair(s, '\\', '"', '"'), '\\', '\\', '\\')
  }

  /** The configuration reader: one substitution of backslash-quote and backslash-backslash. */
  function UnescapeOnePass(s: string): string {
    if s == "" then ""
    else if |s| >= 2 && s[0] == '\\' && (s[1] == '"' || s[1] == '\\') then [s[1]] + UnescapeOnePass(s[2..])
    else [s[0]] + UnescapeOnePass(s[1..])
  }

  function EscapeChar(c: char): string {
    if c == '\\' then "\\\\" else if c == '"' then "\\\"" else [c]
  }

  lemma {:induction false} ReplaceCharConcat(s: string, t: string, c: char, to: string)
    ensures ReplaceChar(s + t, c, to) == ReplaceChar(s, c, to) + ReplaceChar(t, c, to)
  {
    if s == "" {
      assert s + t == t;
    } else {
      assert (s + t)[1..] == s[1..] + t;
      ReplaceCharConcat(s[1..], t, c, to);
    }
  }

  lemma ReplaceOne(x: char, c: char, to: string)
    ensures ReplaceChar([x], c, to) == if x == c then to else [x]
  {
    assert ReplaceChar([x][1..], c, to) == "";
  }

  lemma EscapeCons(value: string)
    requires value != ""
    ensures Escape(value) == EscapeChar(value[0]) + Escape(value[1..])
  {
    var x, rest := value[0], ReplaceChar(value[1..], '\\', "\\\\");
    var head := if x == '\\' then "\\\\" else [x];
    ReplaceCharConcat(head, rest, '"', "\\\"");
    if x == '\\' {
      assert "\\\\" == "\\" + "\\";
      ReplaceCharConcat("\\", "\\", '"', "\\\"");
      ReplaceOne('\\', '"', "\\\"");
    } else {
      ReplaceOne(x, '"', "\\\"");
    }
  }

  /** Quoted text in which the quotes are already unescaped: only backslashes are doubled. */
  function Doubled(value: string): string {
    ReplaceChar(value, '\\', "\\\\")
  }

  /** Escaped text never starts with a quote, so an escaped backslash swallows no later quote. */
  lemma EscapeStart(value: string)
    ensures Escape(value) != "" ==> Escape(value)[0] != '"'
  {
    if value != "" {
      EscapeCons(value);
    }
  }

  lemma {:induction false} QuotesUnescaped(value: string)
    ensures ReplacePair(Escape(value), '\\', '"', '"') == Doubled(value)
  {
    if value != "" {
      var x, e := value[0], Escape(value[1..]);
      EscapeCons(value);
      QuotesUnescaped(value[1..]);
      EscapeStart(value[1..]);
      if x == '\\' {
        assert ("\\\\" + e)[1..] == "\\" + e;
        assert ("\\" + e)[1..] == e;
      } else if x == '"' {
        assert ("\\\"" + e)[2..] == e;
      } else {
        assert ([x] + e)[1..] == e;
      }
    }
  }

  lemma {:induction false} BackslashesUnescaped(value: string)
    ensures ReplacePair(Doubled(value), '\\', '\\', '\\') == value
  {
    if value != "" {
      var x, d := value[0], Doubled(value[1..]);
      BackslashesUnescaped(value[1..]);
      assert Doubled(value) == (if x == '\\' then "\\\\" else [x]) + d;
      if x == '\\' {
        assert ("\\\\" + d)[2..] == d;
      } else {
        assert ([x] + d)[1..] == d;
      }
      assert value == [x] + value[1..];
    }
  }

  lemma TwoPassUnescapes(value: string)
    ensures UnescapeTwoPass(Escape(value)) == value
  {
    QuotesUnescaped(value);
    BackslashesUnescaped(value);
  }

  lemma {:induction false} OnePassUnescapes(value: string)
    ensures UnescapeOnePass(Escape(value)) == value
  {
    if value != "" {
      var x, e := value[0], Escape(value[1..]);
      EscapeCons(value);
      OnePassUnescapes(value[1..]);
      if x == '\\' {
        assert ("\\\\" + e)[2..] == e;
      } else if x == '"' {
        assert ("\\\"" + e)[2..] == e;
      } else {
        assert ([x] + e)[1..] == e;
      }
      assert value == [x] + value[1..];
    }
  }

  lemma {:induction false} ReplacePairOneLine(s: string, a: char, b: char, to: char)
    requires OneLine(s) && !IsLineBreak(to)
    ensures OneLine(ReplacePair(s, a, b, to))
  {
    if s != "" {
      ReplacePairOneLine(s[1..], a, b, to);
      if |s| >= 2 {
        ReplacePairOneLine(s[2..], a, b, to);
      }
    }
  }

  lemma {:induction false} OnePassOneLine(s: string)
    requires OneLine(s)
    ensures OneLine(UnescapeOnePass(s))
  {
    if s != "" {
      OnePassOneLine(s[1..]);
      if |s| >= 2 {
        OnePassOneLine(s[2..]);
      }
    }
  }

  lemma {:induction false} EscapeOneLine(value: string)
    requires OneLine(value)
    ensures OneLine(Escape(value))
  {
    if value != "" {
      EscapeCons(value);
      EscapeOneLine(value[1..]);
    }
  }
}
