/** Strings: joining and splitting on a separator character, and letter case. */
module Text {

  /** The capital of an ASCII letter. */
  function FoldCase(c: char): char {
    if 'a' <= c <= 'z' then 'A' + (c - 'a') else c
  }

  function Upper(s: string): (r: string)
    ensures |r| == |s|
  {
    seq(|s|, i requires 0 <= i < |s| => FoldCase(s[i]))
  }

  function Join(parts: seq<string>, sep: char): string {
    if |parts| == 0 then ""
    else if |parts| == 1 then parts[0]
    else parts[0] + [sep] + Join(parts[1..], sep)
  }

  /** One more character in front of the parts. */
  function Prepend(c: char, parts: seq<string>, sep: char): seq<string>
    requires |parts| > 0
  {
    if c == sep then [""] + parts else [[c] + parts[0]] + parts[1..]
  }

  function Split(s: string, sep: char): (parts: seq<string>)
    ensures |parts| > 0
  {
    if s == "" then [""] else Prepend(s[0], Split(s[1..], sep), sep)
  }

  lemma {:induction false} SplitAtom(a: string, sep: char)
    requires sep !in a
    ensures Split(a, sep) == [a]
  {
    if a != "" {
      SplitAtom(a[1..], sep);
      assert a == [a[0]] + a[1..];
    }
  }

  /** Splitting at one occurrence of the separator splits both sides independently. */
  lemma {:induction false} SplitConcat(a: string, b: string, sep: char)
    ensures Split(a + [sep] + b, sep) == Split(a, sep) + Split(b, sep)
  {
    hide Split, Prepend;
    if a == "" {
      SplitCons(sep, b, sep);
      assert Prepend(sep, Split(b, sep), sep) == [""] + Split(b, sep) by { PrependSeparator(Split(b, sep), sep); }
      assert a + [sep] + b == [sep] + b && Split("", sep) == [""] by { SplitNothing(sep); }
    } else {
      var c, rest := a[0], a[1..];
      SplitConcat(rest, b, sep);
      SplitCons(c, rest, sep);
      SplitCons(c, rest + [sep] + b, sep);
      PrependConcat(c, Split(rest, sep), Split(b, sep), sep);
      assert a == [c] + rest && a + [sep] + b == [c] + (rest + [sep] + b);
    }
  }

  lemma PrependSeparator(parts: seq<string>, sep: char)
    requires |parts| > 0
    ensures Prepend(sep, parts, sep) == [""] + parts
  {
  }

  lemma SplitNothing(sep: char)
    ensures Split("", sep) == [""]
  {
  }

  lemma SplitCons(c: char, s: string, sep: char)
    ensures Split([c] + s, sep) == Prepend(c, Split(s, sep), sep)
  {
    assert ([c] + s)[1..] == s;
  }

  lemma PrependConcat(c: char, parts: seq<string>, more: seq<string>, sep: char)
    requires |parts| > 0
    ensures Prepend(c, parts + more, sep) == Prepend(c, parts, sep) + more
  {
    assert (parts + more)[1..] == parts[1..] + more;
  }

  lemma {:induction false} JoinConcat(a: seq<string>, b: seq<string>, sep: char)
    requires a != [] && b != []
    ensures Join(a + b, sep) == Join(a, sep) + [sep] + Join(b, sep)
  {
    if |a| == 1 {
      assert (a + b)[1..] == b;
    } else {
      JoinConcat(a[1..], b, sep);
      assert (a + b)[1..] == a[1..] + b;
      assert Join(a, sep) == a[0] + [sep] + Join(a[1..], sep);
    }
  }
}
