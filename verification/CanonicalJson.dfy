/**
 Canonical JSON (app/services/master_sync.py): compact, with sorted keys and unescaped
 non-ASCII text, and its size in UTF-8 bytes. Dates and enumerations have already become
 strings; a float is the token Python prints for it.
 */
module CanonicalJson {
  import opened Text

  datatype Json =
    | Null
    | Bool(b: bool)
    | Int(i: int)
    | Float(token: string)
    | Str(s: string)
    | Arr(items: seq<Json>)
    | Obj(members: seq<Member>) // a dictionary in insertion order

  datatype Member = Member(key: string, value: Json)

  /** A dictionary entry whose value is already text. */
  datatype Field = Field(key: string, text: string)

  /** `payload_sha256`, taken to be injective. */
  datatype Digest = Sha256(of: string)

  // ----- Numbers and strings -----

  function Digit(d: nat): char
    requires d < 16
  {
    if d < 10 then '0' + d as char else 'a' + (d - 10) as char
  }

  function Decimal(n: nat): string {
    if n < 10 then [Digit(n)] else Decimal(n / 10) + [Digit(n % 10)]
  }

  function Integer(i: int): string {
    if i < 0 then "-" + Decimal(-i) else Decimal(i)
  }

  function EscapeChar(c: char): string {
    var n := c as int;
    if c == '"' then "\\\""
    else if c == '\\' then "\\\\"
    else if c == '\n' then "\\n"
    else if c == '\r' then "\\r"
    else if c == '\t' then "\\t"
    else if n == 8 then "\\b"
    else if n == 12 then "\\f"
    else if n < 32 then "\\u00" + [Digit(n / 16), Digit(n % 16)]
    else [c]
  }

  function EscapeString(s: string): string {
    if s == "" then "" else EscapeChar(s[0]) + EscapeString(s[1..])
  }

  function Quote(s: string): string {
    ['"'] + EscapeString(s) + ['"']
  }

  // ----- Sorting by key -----

  /** Python's order on strings: by code point. */
  predicate KeyLess(a: string, b: string) {
    if b == "" then false
    else if a == "" then true
    else a[0] < b[0] || (a[0] == b[0] && KeyLess(a[1..], b[1..]))
  }

  function InsertField(f: Field, sorted: seq<Field>): seq<Field> {
    if sorted == [] || KeyLess(f.key, sorted[0].key) then [f] + sorted
    else [sorted[0]] + InsertField(f, sorted[1..])
  }

  function SortFields(fields: seq<Field>): seq<Field> {
    if fields == [] then [] else InsertField(fields[0], SortFields(fields[1..]))
  }

  // ----- Printing -----

  function RenderField(f: Field): string {
    Quote(f.key) + [':'] + f.text
  }

  function RenderAll(fields: seq<Field>): seq<string> {
    if fields == [] then [] else [RenderField(fields[0])] + RenderAll(fields[1..])
  }

  function Print(v: Json): string {
    match v
    case Null => "null"
    case Bool(b) => if b then "true" else "false"
    case Int(i) => Integer(i)
    case Float(token) => token
    case Str(s) => Quote(s)
    case Arr(items) => ['['] + Join(PrintAll(items), ',') + [']']
    case Obj(members) => ['{'] + Join(RenderAll(SortFields(PrintMembers(members))), ',') + ['}']
  }

  function PrintAll(items: seq<Json>): (texts: seq<string>)
    ensures |texts| == |items|
    decreases items
  {
    if items == [] then [] else [Print(items[0])] + PrintAll(items[1..])
  }

  function PrintMembers(members: seq<Member>): (fields: seq<Field>)
    ensures |fields| == |members|
    decreases members
  {
    if members == [] then []
    else [Field(members[0].key, Print(members[0].value))] + PrintMembers(members[1..])
  }

  // ----- Dictionaries -----

  predicate HasKey(members: seq<Member>, key: string) {
    exists m <- members :: m.key == key
  }

  /** `d[key] = value`: replaced in place, or appended. */
  function SetMember(members: seq<Member>, key: string, value: Json): seq<Member> {
    if members == [] then [Member(key, value)]
    else if members[0].key == key then [Member(key, value)] + members[1..]
    else [members[0]] + SetMember(members[1..], key, value)
  }

  function SetDefault(members: seq<Member>, key: string, value: Json): seq<Member> {
    if HasKey(members, key) then members else members + [Member(key, value)]
  }

  // ----- UTF-8 size -----

  function CharSize(c: char): nat {
    var n := c as int;
    if n < 0x80 then 1 else if n < 0x800 then 2 else if n < 0x1_0000 then 3 else 4
  }

  function Size(s: string): nat {
    if s == "" then 0 else CharSize(s[0]) + Size(s[1..])
  }

  function SizeAll(texts: seq<string>): nat {
    if texts == [] then 0 else Size(texts[0]) + SizeAll(texts[1..])
  }

  function FieldSize(f: Field): nat {
    Size(Quote(f.key)) + 1 + Size(f.text)
  }

  function FieldsSize(fields: seq<Field>): nat {
    if fields == [] then 0 else FieldSize(fields[0]) + FieldsSize(fields[1..])
  }

  /** Commas between `n` elements. */
  function Commas(n: nat): nat {
    if n == 0 then 0 else n - 1
  }

  lemma {:induction false} SizeConcat(a: string, b: string)
    ensures Size(a + b) == Size(a) + Size(b)
  {
    if a == "" {
      assert a + b == b;
    } else {
      assert (a + b)[1..] == a[1..] + b;
      SizeConcat(a[1..], b);
    }
  }

  lemma SizeOne(c: char)
    ensures Size([c]) == CharSize(c)
  {
    assert [c][1..] == "";
  }

  lemma {:induction false} SizeJoin(texts: seq<string>)
    ensures Size(Join(texts, ',')) == SizeAll(texts) + Commas(|texts|)
  {
    if |texts| == 1 {
      assert texts[1..] == [];
    } else if |texts| > 1 {
      SizeJoin(texts[1..]);
      SizeOne(',');
      SizeConcat(texts[0], [',']);
      SizeConcat(texts[0] + [','], Join(texts[1..], ','));
    }
  }

  lemma {:induction false} InsertFieldSize(f: Field, sorted: seq<Field>)
    ensures FieldsSize(InsertField(f, sorted)) == FieldSize(f) + FieldsSize(sorted)
    ensures |InsertField(f, sorted)| == |sorted| + 1
  {
    if sorted == [] || KeyLess(f.key, sorted[0].key) {
      assert ([f] + sorted)[1..] == sorted;
    } else {
      InsertFieldSize(f, sorted[1..]);
      assert ([sorted[0]] + InsertField(f, sorted[1..]))[1..] == InsertField(f, sorted[1..]);
    }
  }

  /** Sorting does not change how much there is to print. */
  lemma {:induction false} SortFieldsSize(fields: seq<Field>)
    ensures FieldsSize(SortFields(fields)) == FieldsSize(fields)
    ensures |SortFields(fields)| == |fields|
  {
    if fields != [] {
      SortFieldsSize(fields[1..]);
      InsertFieldSize(fields[0], SortFields(fields[1..]));
    }
  }

  lemma {:induction false} RenderAllSize(fields: seq<Field>)
    ensures SizeAll(RenderAll(fields)) == FieldsSize(fields) && |RenderAll(fields)| == |fields|
  {
    if fields != [] {
      RenderAllSize(fields[1..]);
      var f := fields[0];
      SizeOne(':');
      SizeConcat(Quote(f.key), [':']);
      SizeConcat(Quote(f.key) + [':'], f.text);
    }
  }

  lemma BracketsSize(open: char, inside: string, close: char)
    requires CharSize(open) == CharSize(close) == 1
    ensures Size([open] + inside + [close]) == Size(inside) + 2
  {
    SizeOne(open);
    SizeOne(close);
    SizeConcat([open], inside);
    SizeConcat([open] + inside, [close]);
  }

  /** An object's size is the same in whatever order its members were inserted. */
  lemma ObjectSize(members: seq<Member>)
    ensures Size(Print(Obj(members))) == 2 + FieldsSize(PrintMembers(members)) + Commas(|members|)
  {
    var fields := PrintMembers(members);
    SortFieldsSize(fields);
    RenderAllSize(SortFields(fields));
    SizeJoin(RenderAll(SortFields(fields)));
    BracketsSize('{', Join(RenderAll(SortFields(fields)), ','), '}');
  }

  lemma ArraySize(items: seq<Json>)
    ensures Size(Print(Arr(items))) == 2 + SizeAll(PrintAll(items)) + Commas(|items|)
  {
    SizeJoin(PrintAll(items));
    BracketsSize('[', Join(PrintAll(items), ','), ']');
  }

  lemma {:induction false} SetMemberAppends(members: seq<Member>, key: string, value: Json)
    requires !HasKey(members, key)
    ensures SetMember(members, key, value) == members + [Member(key, value)]
  {
    if members != [] {
      assert members[0] in members;
      assert !HasKey(members[1..], key) by {
        assert forall m <- members[1..] :: m in members;
      }
      SetMemberAppends(members[1..], key, value);
      assert members == [members[0]] + members[1..];
    }
  }

  lemma {:induction false} DecimalSize(n: nat)
    ensures Size(Decimal(n)) == |Decimal(n)|
  {
    if n >= 10 {
      DecimalSize(n / 10);
      SizeConcat(Decimal(n / 10), [Digit(n % 10)]);
      SizeOne(Digit(n % 10));
    } else {
      SizeOne(Digit(n));
    }
  }

  lemma {:induction false} DecimalMonotone(m: nat, n: nat)
    requires m <= n
    ensures |Decimal(m)| <= |Decimal(n)|
  {
    if n >= 10 && m >= 10 {
      DecimalMonotone(m / 10, n / 10);
    }
  }

  lemma {:induction false} EscapeStringConcat(a: string, b: string)
    ensures EscapeString(a + b) == EscapeString(a) + EscapeString(b)
  {
    if a == "" {
      assert a + b == b;
    } else {
      assert (a + b)[1..] == a[1..] + b;
      EscapeStringConcat(a[1..], b);
    }
  }

  predicate IsPlain(c: char) {
    '-' <= c <= 'z' && c != '\\'
  }

  lemma PlainChar(c: char)
    requires IsPlain(c)
    ensures EscapeChar(c) == [c] && CharSize(c) == 1
  {
  }

  /** Digits, letters and dashes print as themselves, one byte each. */
  lemma {:induction false} PlainEscape(s: string)
    requires forall c <- s :: IsPlain(c)
    ensures EscapeString(s) == s && Size(s) == |s|
  {
    hide IsPlain, EscapeChar, CharSize;
    if s != "" {
      assert s[0] in s;
      PlainChar(s[0]);
      assert forall c <- s[1..] :: c in s;
      PlainEscape(s[1..]);
      assert s == [s[0]] + s[1..];
    }
  }

  lemma {:induction false} DecimalPlain(n: nat)
    ensures forall c <- Decimal(n) :: IsPlain(c)
  {
    if n >= 10 {
      DecimalPlain(n / 10);
    }
  }
}
