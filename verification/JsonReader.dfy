/**
 Reading canonical JSON back. The reader follows RFC 8259 for compact text and knows nothing of how the text was
 printed; what `canonical_json` prints (app/services/master_sync.py:162-168) is read as the value it was given, with
 the members of every object in order of their keys.
 */
module JsonReader {
  import opened Options
  import opened CanonicalJson
  import opened CanonicalOrder
  import opened Text

  // ----- Strings -----

  function HexValue(c: char): Option<nat> {
    if '0' <= c <= '9' then Some((c - '0') as nat)
    else if 'a' <= c <= 'f' then Some(10 + (c - 'a') as nat)
    else if 'A' <= c <= 'F' then Some(10 + (c - 'A') as nat)
    else None
  }

  /** Four hexadecimal digits. A surrogate has no character of its own, and is not read. */
  function ReadCode(s: string): Option<char>
    requires |s| == 4
  {
    var a :- HexValue(s[0]);
    var b :- HexValue(s[1]);
    var c :- HexValue(s[2]);
    var d :- HexValue(s[3]);
    var code := ((a * 16 + b) * 16 + c) * 16 + d;
    if 0 <= code < 0xD800 || 0xE000 <= code < 0x10000 then Some(code as char) else None
  }

  /** The character that a backslash and this letter stand for. */
  function Unescape(letter: char): Option<char> {
    match letter
    case '"' => Some('"')
    case '\\' => Some('\\')
    case '/' => Some('/')
    case 'b' => Some(8 as char)
    case 'f' => Some(12 as char)
    case 'n' => Some(10 as char)
    case 'r' => Some(13 as char)
    case 't' => Some(9 as char)
    case _ => None
  }

  /** What follows an opening quote: the string, and the text behind its closing quote. */
  function ReadString(s: string): (r: Option<(string, string)>)
    ensures r.Some? ==> |r.value.1| < |s|
    decreases |s|
  {
    if s == "" then None
    else if s[0] == '"' then Some(("", s[1..]))
    else if s[0] != '\\' then
      if s[0] < ' ' then None
      else
        var more :- ReadString(s[1..]);
        Some(([s[0]] + more.0, more.1))
    else if |s| >= 6 && s[1] == 'u' then
      var c :- ReadCode(s[2..6]);
      var more :- ReadString(s[6..]);
      Some(([c] + more.0, more.1))
    else if |s| >= 2 then
      var c :- Unescape(s[1]);
      var more :- ReadString(s[2..]);
      Some(([c] + more.0, more.1))
    else None
  }

  // ----- Numbers -----

  predicate NumberChar(c: char) {
    '0' <= c <= '9' || c in {'+', '-', '.', 'e', 'E'}
  }

  /** The longest number at the start of a text. */
  function Token(s: string): (t: string)
    ensures t <= s
  {
    if s == "" || !NumberChar(s[0]) then "" else [s[0]] + Token(s[1..])
  }

  predicate IsDigits(s: string) {
    s != "" && forall i :: 0 <= i < |s| ==> '0' <= s[i] <= '9'
  }

  function DigitsValue(s: string): nat
    requires forall i :: 0 <= i < |s| ==> '0' <= s[i] <= '9'
  {
    if s == "" then 0 else 10 * DigitsValue(s[..|s| - 1]) + (s[|s| - 1] - '0') as nat
  }

  function NumberOf(t: string): Json {
    if IsDigits(t) then Int(DigitsValue(t))
    else if t != "" && t[0] == '-' && IsDigits(t[1..]) then Int(-(DigitsValue(t[1..]) as int))
    else Float(t)
  }

  function ReadNumber(s: string): (r: Option<(Json, string)>)
    ensures r.Some? ==> |r.value.1| < |s|
  {
    var t := Token(s);
    if t == "" then None else Some((NumberOf(t), s[|t|..]))
  }

  // ----- Values -----

  /** One value, and the text behind it. */
  function ReadValue(s: string): (r: Option<(Json, string)>)
    ensures r.Some? ==> |r.value.1| < |s|
    decreases |s|, 0
  {
    if s == "" then None
    else if s[0] == '"' then
      var read :- ReadString(s[1..]);
      Some((Str(read.0), read.1))
    else if s[0] == '[' then
      if |s| >= 2 && s[1] == ']' then Some((Arr([]), s[2..]))
      else
        var read :- ReadItems(s[1..]);
        Some((Arr(read.0), read.1))
    else if s[0] == '{' then
      if |s| >= 2 && s[1] == '}' then Some((Obj([]), s[2..]))
      else
        var read :- ReadMembers(s[1..]);
        Some((Obj(read.0), read.1))
    else if "null" <= s then Some((Null, s[4..]))
    else if "true" <= s then Some((Bool(true), s[4..]))
    else if "false" <= s then Some((Bool(false), s[5..]))
    else ReadNumber(s)
  }

  /** One value or more, separated by commas, and a closing bracket. */
  function ReadItems(s: string): (r: Option<(seq<Json>, string)>)
    ensures r.Some? ==> |r.value.1| < |s|
    decreases |s|, 1
  {
    var first :- ReadValue(s);
    var rest := first.1;
    if rest != "" && rest[0] == ']' then Some(([first.0], rest[1..]))
    else if rest != "" && rest[0] == ',' then
      var more :- ReadItems(rest[1..]);
      Some(([first.0] + more.0, more.1))
    else None
  }

  /** One member or more, separated by commas, and a closing brace. */
  function ReadMembers(s: string): (r: Option<(seq<Member>, string)>)
    ensures r.Some? ==> |r.value.1| < |s|
    decreases |s|, 1
  {
    if s == "" || s[0] != '"' then None
    else
      var name :- ReadString(s[1..]);
      if name.1 == "" || name.1[0] != ':' then None
      else
        var value :- ReadValue(name.1[1..]);
        var first, rest := Member(name.0, value.0), value.1;
        if rest != "" && rest[0] == '}' then Some(([first], rest[1..]))
        else if rest != "" && rest[0] == ',' then
          var more :- ReadMembers(rest[1..]);
          Some(([first] + more.0, more.1))
        else None
  }

  /** A whole text. */
  function Read(s: string): Option<Json> {
    match ReadValue(s)
    case Some((v, rest)) => if rest == "" then Some(v) else None
    case None => None
  }

  // ----- Strings are read back -----

  lemma HexDigit(d: nat)
    requires d < 16
    ensures HexValue(Digit(d)) == Some(d)
  {
  }

  /** What reading `escaped` in front of a tail comes to, for one character. */
  ghost predicate ReadsAs(escaped: string, tail: string, c: char) {
    ReadString(tail).Some?
    && ReadString(escaped + tail) == Some(([c] + ReadString(tail).value.0, ReadString(tail).value.1))
  }

  lemma PlainReads(c: char, tail: string)
    requires c != '"' && c != '\\' && c >= ' ' && ReadString(tail).Some?
    ensures ReadsAs([c], tail, c)
  {
    assert ([c] + tail)[1..] == tail;
  }

  lemma LetterReads(letter: char, c: char, tail: string)
    requires letter != 'u' && Unescape(letter) == Some(c) && ReadString(tail).Some?
    ensures ReadsAs(['\\', letter], tail, c)
  {
    hide Unescape;
    var s := ['\\', letter] + tail;
    assert s[1] == letter && s[2..] == tail;
  }

  lemma CodeReads(c: char, tail: string)
    requires c as int < 32 && ReadString(tail).Some?
    ensures ReadsAs("\\u00" + [Digit(c as int / 16), Digit(c as int % 16)], tail, c)
  {
    hide HexValue, Digit;
    var n := c as int;
    HexDigit(0);
    HexDigit(n / 16);
    HexDigit(n % 16);
    ZeroDigit();
    var s := "\\u00" + [Digit(n / 16), Digit(n % 16)] + tail;
    assert s[..2] == "\\u" && s[6..] == tail;
    assert s[2..6] == [Digit(0), Digit(0), Digit(n / 16), Digit(n % 16)];
    assert ReadCode(s[2..6]) == Some(c) by { hide ReadString; }
  }

  lemma ZeroDigit()
    ensures Digit(0) == '0'
  {
  }

  lemma EscapedCharReads(c: char, tail: string)
    requires ReadString(tail).Some?
    ensures ReadsAs(EscapeChar(c), tail, c)
  {
    hide ReadsAs, ReadString, Digit;
    if letter :| letter != 'u' && Unescape(letter) == Some(c) && EscapeChar(c) == ['\\', letter] {
      LetterReads(letter, c, tail);
    } else if c as int < 32 {
      LetterOf(c);
      CodeReads(c, tail);
    } else {
      LetterOf(c);
      PlainReads(c, tail);
    }
  }

  lemma LetterOf(c: char)
    ensures c in {'"', '\\', '\n', '\r', '\t', 8 as char, 12 as char} ==>
              exists letter :: letter != 'u' && Unescape(letter) == Some(c) && EscapeChar(c) == ['\\', letter]
  {
    assert Unescape('"') == Some('"') && EscapeChar('"') == ['\\', '"'];
    assert Unescape('\\') == Some('\\') && EscapeChar('\\') == ['\\', '\\'];
    assert Unescape('n') == Some('\n') && EscapeChar('\n') == ['\\', 'n'];
    assert Unescape('r') == Some('\r') && EscapeChar('\r') == ['\\', 'r'];
    assert Unescape('t') == Some('\t') && EscapeChar('\t') == ['\\', 't'];
    assert Unescape('b') == Some(8 as char) && EscapeChar(8 as char) == ['\\', 'b'];
    assert Unescape('f') == Some(12 as char) && EscapeChar(12 as char) == ['\\', 'f'];
  }

  lemma StringEnds(rest: string)
    ensures ReadString(['"'] + rest) == Some(("", rest))
  {
    assert (['"'] + rest)[1..] == rest;
  }

  lemma {:induction false} StringReads(s: string, rest: string)
    ensures ReadString(EscapeString(s) + ['"'] + rest) == Some((s, rest))
  {
    hide EscapeChar, ReadString;
    if s == "" {
      StringEnds(rest);
      assert EscapeString(s) + ['"'] + rest == ['"'] + rest;
    } else {
      StringReads(s[1..], rest);
      var tail := EscapeString(s[1..]) + ['"'] + rest;
      EscapedCharReads(s[0], tail);
      assert EscapeString(s) + ['"'] + rest == EscapeChar(s[0]) + tail;
      assert s == [s[0]] + s[1..];
    }
  }

  // ----- Numbers are read back -----

  /** Nothing of a number, or of any value, is left. */
  predicate Delimited(rest: string) {
    rest == "" || rest[0] in {',', ']', '}'}
  }

  lemma {:induction false} TokenIs(t: string, rest: string)
    requires (forall c <- t :: NumberChar(c)) && Delimited(rest)
    ensures Token(t + rest) == t
  {
    if t == "" {
      assert t + rest == rest;
    } else {
      assert t[0] in t && forall c <- t[1..] :: c in t;
      assert (t + rest)[1..] == t[1..] + rest;
      TokenIs(t[1..], rest);
    }
  }

  lemma {:induction false} DecimalReads(n: nat)
    ensures IsDigits(Decimal(n)) && DigitsValue(Decimal(n)) == n
  {
    if n >= 10 {
      DecimalReads(n / 10);
      var d := Decimal(n);
      assert d[..|d| - 1] == Decimal(n / 10);
    }
  }

  /** A float as Python prints it: not an integer, and made of the characters of numbers. */
  predicate IsFloat(t: string) {
    && t != "" && (forall c <- t :: NumberChar(c))
    && exists c <- t :: c == '.' || c == 'e'
  }

  lemma FloatIsNoInteger(t: string)
    requires IsFloat(t)
    ensures !IsDigits(t) && !(t[0] == '-' && IsDigits(t[1..]))
  {
    var c :| c in t && (c == '.' || c == 'e');
    var i :| 0 <= i < |t| && t[i] == c;
    if i > 0 {
      assert t[1..][i - 1] == c;
    }
  }

  /** In front of whatever may come behind a value, this text is read as `v`. */
  ghost predicate Reads(text: string, v: Json) {
    forall rest: string | Delimited(rest) :: ReadValue(text + rest) == Some((v, rest))
  }

  lemma NumberReads(t: string)
    requires t != "" && forall c <- t :: NumberChar(c)
    ensures Reads(t, NumberOf(t))
  {
    hide NumberChar, NumberOf, ReadValue;
    forall rest: string | Delimited(rest)
      ensures ReadValue(t + rest) == Some((NumberOf(t), rest))
    {
      TokenIs(t, rest);
      assert t[0] in t && (t + rest)[0] == t[0];
      StartsNumber(t + rest);
      assert (t + rest)[|t|..] == rest;
    }
  }

  lemma StartsNumber(s: string)
    requires s != "" && NumberChar(s[0])
    ensures ReadValue(s) == ReadNumber(s)
  {
    hide ReadNumber, ReadString, ReadItems, ReadMembers;
  }

  lemma IntegerReads(i: int)
    ensures Reads(Integer(i), Int(i))
  {
    hide Reads, Decimal, DigitsValue;
    var t := Integer(i);
    if i < 0 {
      DecimalReads(-i);
      assert t[0] == '-' && t[1..] == Decimal(-i);
    } else {
      DecimalReads(i);
    }
    NumberReads(t);
  }

  lemma FloatReads(t: string)
    requires IsFloat(t)
    ensures Reads(t, Float(t))
  {
    hide Reads;
    FloatIsNoInteger(t);
    NumberReads(t);
  }

  lemma QuotedReads(s: string)
    ensures Reads(Quote(s), Str(s))
  {
    hide EscapeString, ReadString;
    forall rest: string | Delimited(rest)
      ensures ReadValue(Quote(s) + rest) == Some((Str(s), rest))
    {
      StringReads(s, rest);
      assert (Quote(s) + rest)[1..] == EscapeString(s) + ['"'] + rest;
    }
  }

  lemma LiteralsRead()
    ensures Reads("null", Null) && Reads("true", Bool(true)) && Reads("false", Bool(false))
  {
    forall rest: string | Delimited(rest)
      ensures ReadValue("null" + rest) == Some((Null, rest))
    {
      assert ("null" + rest)[4..] == rest;
    }
    forall rest: string | Delimited(rest)
      ensures ReadValue("true" + rest) == Some((Bool(true), rest))
    {
      assert ("true" + rest)[0] == 't' && ("true" + rest)[4..] == rest;
    }
    forall rest: string | Delimited(rest)
      ensures ReadValue("false" + rest) == Some((Bool(false), rest))
    {
      assert ("false" + rest)[0] == 'f' && ("false" + rest)[5..] == rest;
    }
  }

  // ----- Arrays and objects are read back -----

  ghost predicate AllRead(texts: seq<string>, values: seq<Json>) {
    |texts| == |values| && forall i :: 0 <= i < |texts| ==> Reads(texts[i], values[i])
  }

  /** The text of a value is not a closing bracket. */
  lemma NotClosing(text: string, v: Json)
    requires Reads(text, v)
    ensures text != "" && text[0] != ']' && text[0] != '}'
  {
    assert Delimited("") && text + "" == text;
    assert ReadValue(text) == Some((v, ""));
  }

  lemma LastItem(text: string, v: Json, rest: string)
    requires Reads(text, v)
    ensures ReadItems(text + ([']'] + rest)) == Some(([v], rest))
  {
    hide ReadValue;
    assert Delimited([']'] + rest) && ([']'] + rest)[1..] == rest;
  }

  lemma OneMoreItem(text: string, v: Json, more: string, values: seq<Json>, rest: string)
    requires Reads(text, v) && ReadItems(more) == Some((values, rest))
    ensures ReadItems(text + ([','] + more)) == Some(([v] + values, rest))
  {
    hide ReadValue;
    assert Delimited([','] + more) && ([','] + more)[1..] == more;
  }

  lemma {:induction false} ItemsRead(texts: seq<string>, values: seq<Json>, rest: string)
    requires texts != [] && AllRead(texts, values)
    ensures ReadItems(Join(texts, ',') + [']'] + rest) == Some((values, rest))
    decreases |texts|
  {
    hide ReadItems, Reads;
    var s := Join(texts, ',') + [']'] + rest;
    if |texts| == 1 {
      assert s == texts[0] + ([']'] + rest) && values == [values[0]];
      LastItem(texts[0], values[0], rest);
    } else {
      var more := Join(texts[1..], ',') + [']'] + rest;
      assert s == texts[0] + ([','] + more) && values == [values[0]] + values[1..];
      ItemsRead(texts[1..], values[1..], rest);
      OneMoreItem(texts[0], values[0], more, values[1..], rest);
    }
  }

  lemma ArrayReads(texts: seq<string>, values: seq<Json>)
    requires AllRead(texts, values)
    ensures Reads(['['] + Join(texts, ',') + [']'], Arr(values))
  {
    hide AllRead, ReadItems;
    var text := ['['] + Join(texts, ',') + [']'];
    forall rest: string | Delimited(rest)
      ensures ReadValue(text + rest) == Some((Arr(values), rest))
    {
      ArrayReadsBefore(texts, values, rest);
    }
  }

  lemma ArrayReadsBefore(texts: seq<string>, values: seq<Json>, rest: string)
    requires AllRead(texts, values)
    ensures ReadValue(['['] + Join(texts, ',') + [']'] + rest) == Some((Arr(values), rest))
  {
    hide ReadItems, Reads;
    var s := ['['] + Join(texts, ',') + [']'] + rest;
    if texts == [] {
      assert s[1] == ']' && s[2..] == rest;
    } else {
      ItemsRead(texts, values, rest);
      assert s[1..] == Join(texts, ',') + [']'] + rest;
      NotClosing(texts[0], values[0]);
      assert Join(texts, ',')[0] == texts[0][0] && s[1] == texts[0][0];
    }
  }

  /** Each field is the text of the member at its place. */
  ghost predicate FieldsRead(fields: seq<Field>, members: seq<Member>) {
    |fields| == |members|
    && forall i :: 0 <= i < |fields| ==> fields[i].key == members[i].key && Reads(fields[i].text, members[i].value)
  }

  lemma LastMember(f: Field, m: Member, rest: string)
    requires f.key == m.key && Reads(f.text, m.value)
    ensures ReadMembers(RenderField(f) + (['}'] + rest)) == Some(([m], rest))
  {
    hide ReadValue, ReadString, RenderField, Reads;
    MemberReads(f, m, ['}'] + rest);
    assert (['}'] + rest)[1..] == rest;
  }

  lemma OneMoreMember(f: Field, m: Member, more: string, members: seq<Member>, rest: string)
    requires f.key == m.key && Reads(f.text, m.value) && ReadMembers(more) == Some((members, rest))
    ensures ReadMembers(RenderField(f) + ([','] + more)) == Some(([m] + members, rest))
  {
    hide ReadValue, ReadString, RenderField, Reads;
    MemberReads(f, m, [','] + more);
    assert ([','] + more)[1..] == more;
  }

  lemma {:induction false} MembersRead(fields: seq<Field>, members: seq<Member>, rest: string)
    requires fields != [] && FieldsRead(fields, members)
    ensures ReadMembers(Join(RenderAll(fields), ',') + ['}'] + rest) == Some((members, rest))
    decreases |fields|
  {
    hide ReadMembers, RenderField, Reads;
    var s := Join(RenderAll(fields), ',') + ['}'] + rest;
    RenderAllLength(fields);
    if |fields| == 1 {
      assert s == RenderField(fields[0]) + (['}'] + rest) && members == [members[0]];
      LastMember(fields[0], members[0], rest);
    } else {
      var more := Join(RenderAll(fields[1..]), ',') + ['}'] + rest;
      assert RenderAll(fields)[1..] == RenderAll(fields[1..]);
      assert s == RenderField(fields[0]) + ([','] + more) && members == [members[0]] + members[1..];
      MembersRead(fields[1..], members[1..], rest);
      OneMoreMember(fields[0], members[0], more, members[1..], rest);
    }
  }

  lemma {:induction false} RenderAllLength(fields: seq<Field>)
    ensures |RenderAll(fields)| == |fields|
  {
    if fields != [] {
      RenderAllLength(fields[1..]);
    }
  }

  /** One member, in front of what delimits it. */
  lemma MemberReads(f: Field, m: Member, tail: string)
    requires f.key == m.key && Reads(f.text, m.value) && Delimited(tail)
    ensures var s := RenderField(f) + tail;
            s != "" && s[0] == '"'
            && ReadString(s[1..]) == Some((m.key, [':'] + f.text + tail))
            && ReadValue(([':'] + f.text + tail)[1..]) == Some((m.value, tail))
  {
    hide ReadString, ReadValue, EscapeString;
    var s := RenderField(f) + tail;
    StringReads(f.key, [':'] + f.text + tail);
    assert s[1..] == EscapeString(f.key) + ['"'] + ([':'] + f.text + tail);
    assert ([':'] + f.text + tail)[1..] == f.text + tail;
  }

  lemma ObjectReads(fields: seq<Field>, members: seq<Member>)
    requires FieldsRead(fields, members)
    ensures Reads(['{'] + Join(RenderAll(fields), ',') + ['}'], Obj(members))
  {
    hide FieldsRead, ReadMembers;
    var text := ['{'] + Join(RenderAll(fields), ',') + ['}'];
    forall rest: string | Delimited(rest)
      ensures ReadValue(text + rest) == Some((Obj(members), rest))
    {
      ObjectReadsBefore(fields, members, rest);
    }
  }

  lemma ObjectReadsBefore(fields: seq<Field>, members: seq<Member>, rest: string)
    requires FieldsRead(fields, members)
    ensures ReadValue(['{'] + Join(RenderAll(fields), ',') + ['}'] + rest) == Some((Obj(members), rest))
  {
    hide ReadMembers, Reads;
    var s := ['{'] + Join(RenderAll(fields), ',') + ['}'] + rest;
    if fields == [] {
      assert s[1] == '}' && s[2..] == rest;
    } else {
      MembersRead(fields, members, rest);
      assert s[1..] == Join(RenderAll(fields), ',') + ['}'] + rest;
      assert RenderAll(fields)[0] == RenderField(fields[0]);
      assert Join(RenderAll(fields), ',')[0] == '"';
    }
  }

  // ----- Any value is read back -----

  function InsertMember(m: Member, sorted: seq<Member>): seq<Member> {
    if sorted == [] || KeyLess(m.key, sorted[0].key) then [m] + sorted
    else [sorted[0]] + InsertMember(m, sorted[1..])
  }

  function SortMembers(members: seq<Member>): seq<Member> {
    if members == [] then [] else InsertMember(members[0], SortMembers(members[1..]))
  }

  /** The value with the members of each object in order of their keys. */
  function Canonical(v: Json): Json
    decreases v
  {
    match v
    case Arr(items) => Arr(CanonicalAll(items))
    case Obj(members) => Obj(SortMembers(CanonicalMembers(members)))
    case _ => v
  }

  function CanonicalAll(items: seq<Json>): (r: seq<Json>)
    ensures |r| == |items|
    decreases items
  {
    if items == [] then [] else [Canonical(items[0])] + CanonicalAll(items[1..])
  }

  function CanonicalMembers(members: seq<Member>): (r: seq<Member>)
    ensures |r| == |members|
    decreases members
  {
    if members == [] then []
    else [Member(members[0].key, Canonical(members[0].value))] + CanonicalMembers(members[1..])
  }

  function CanonicalMember(m: Member): Member {
    Member(m.key, Canonical(m.value))
  }

  lemma {:induction false} CanonicalMemberAt(members: seq<Member>)
    ensures forall i :: 0 <= i < |members| ==> CanonicalMembers(members)[i] == CanonicalMember(members[i])
    decreases |members|
  {
    hide Canonical;
    if members != [] {
      CanonicalMemberAt(members[1..]);
    }
  }

  lemma CanonicalStaysDistinct(members: seq<Member>)
    requires DistinctKeys(members)
    ensures DistinctKeys(CanonicalMembers(members))
  {
    hide CanonicalMembers;
    CanonicalMemberAt(members);
  }

  /** A value that Python could hold: its floats print as floats do. */
  ghost predicate Printable(v: Json)
    decreases v
  {
    match v
    case Float(token) => IsFloat(token)
    case Arr(items) => forall x <- items :: Printable(x)
    case Obj(members) => forall m <- members :: Printable(m.value)
    case _ => true
  }

  lemma {:induction false} InsertRead(f: Field, m: Member, fields: seq<Field>, members: seq<Member>)
    requires FieldsRead(fields, members) && f.key == m.key && Reads(f.text, m.value)
    ensures FieldsRead(InsertField(f, fields), InsertMember(m, members))
    decreases |fields|
  {
    hide Reads, KeyLess;
    if fields != [] && !KeyLess(f.key, fields[0].key) {
      InsertRead(f, m, fields[1..], members[1..]);
    }
  }

  lemma {:induction false} SortRead(fields: seq<Field>, members: seq<Member>)
    requires FieldsRead(fields, members)
    ensures FieldsRead(SortFields(fields), SortMembers(members))
    decreases |fields|
  {
    hide Reads, InsertField, InsertMember;
    if fields != [] {
      SortRead(fields[1..], members[1..]);
      InsertRead(fields[0], members[0], SortFields(fields[1..]), SortMembers(members[1..]));
    }
  }

  /** What is printed is read as the value, with its members sorted. */
  lemma {:induction false} ValueReads(v: Json)
    requires Printable(v)
    ensures Reads(Print(v), Canonical(v))
    decreases v, 0
  {
    hide Reads, Join, RenderAll, SortFields, SortMembers, IsFloat;
    match v
    case Null => LiteralsRead();
    case Bool(b) => LiteralsRead();
    case Int(i) => IntegerReads(i);
    case Float(token) => FloatReads(token);
    case Str(s) => QuotedReads(s);
    case Arr(items) =>
      AllValuesRead(items);
      ArrayReads(PrintAll(items), CanonicalAll(items));
    case Obj(members) =>
      AllMembersRead(members);
      SortRead(PrintMembers(members), CanonicalMembers(members));
      ObjectReads(SortFields(PrintMembers(members)), SortMembers(CanonicalMembers(members)));
  }

  lemma {:induction false} AllValuesRead(items: seq<Json>)
    requires forall x <- items :: Printable(x)
    ensures AllRead(PrintAll(items), CanonicalAll(items))
    decreases items, 1
  {
    hide Reads, Print, Canonical, Printable;
    if items != [] {
      assert items[0] in items && forall x <- items[1..] :: x in items;
      ValueReads(items[0]);
      AllValuesRead(items[1..]);
    }
  }

  lemma {:induction false} AllMembersRead(members: seq<Member>)
    requires forall m <- members :: Printable(m.value)
    ensures FieldsRead(PrintMembers(members), CanonicalMembers(members))
    decreases members, 1
  {
    hide Reads, Print, Canonical, Printable;
    if members != [] {
      assert members[0] in members && forall m <- members[1..] :: m in members;
      ValueReads(members[0].value);
      AllMembersRead(members[1..]);
    }
  }

  /** Reading a printed value gives the value, with the members of every object sorted. */
  lemma PrintReadBack(v: Json)
    requires Printable(v)
    ensures Read(Print(v)) == Some(Canonical(v))
  {
    hide ReadValue, Print, Canonical, Printable;
    ValueReads(v);
    assert Delimited("") && Print(v) + "" == Print(v);
  }
}
