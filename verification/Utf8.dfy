/**
 The bytes that sizes count (`_utf8_size`, app/services/master_sync.py:175-176): UTF-8 as a strict decoder reads it,
 by section 3 of RFC 3629.
 */
module Utf8 {
  import opened Options
  import opened CanonicalJson

  // ----- Decoding -----

  predicate IsContinuation(b: nat) {
    0x80 <= b <= 0xBF
  }

  /** The character at the start, and its length; no longer form than needed, and no surrogate, is read. */
  function DecodeOne(bytes: seq<nat>): (r: Option<(char, nat)>)
    ensures r.Some? ==> 1 <= r.value.1 <= |bytes|
  {
    if bytes == [] then None
    else if bytes[0] <= 0x7F then Some((bytes[0] as char, 1))
    else if 0xC0 <= bytes[0] <= 0xDF && |bytes| >= 2 && IsContinuation(bytes[1]) then
      var code := (bytes[0] - 0xC0) * 64 + (bytes[1] - 0x80);
      if code < 0x80 then None else Some((code as char, 2))
    else if 0xE0 <= bytes[0] <= 0xEF && |bytes| >= 3 && IsContinuation(bytes[1]) && IsContinuation(bytes[2]) then
      var code := ((bytes[0] - 0xE0) * 64 + (bytes[1] - 0x80)) * 64 + (bytes[2] - 0x80);
      if code < 0x800 || 0xD800 <= code <= 0xDFFF then None else Some((code as char, 3))
    else if 0xF0 <= bytes[0] <= 0xF7 && |bytes| >= 4 && IsContinuation(bytes[1]) && IsContinuation(bytes[2])
            && IsContinuation(bytes[3]) then
      var code := (((bytes[0] - 0xF0) * 64 + (bytes[1] - 0x80)) * 64 + (bytes[2] - 0x80)) * 64 + (bytes[3] - 0x80);
      if code < 0x1_0000 || code > 0x10_FFFF then None else Some((code as char, 4))
    else None
  }

  /** A whole text, if the bytes are one. */
  function Decode(bytes: seq<nat>): Option<string>
    decreases |bytes|
  {
    if bytes == [] then Some("")
    else
      var first :- DecodeOne(bytes);
      var rest :- Decode(bytes[first.1..]);
      Some([first.0] + rest)
  }

  // ----- Encoding -----

  /** The low six bits of what is left, behind the mark of a continuation. */
  function Tail(n: nat): nat {
    0x80 + n % 64
  }

  function EncodeChar(c: char): (bytes: seq<nat>)
    ensures |bytes| == CharSize(c)
  {
    var n := c as int;
    match CharSize(c)
    case 1 => [n]
    case 2 => [0xC0 + n / 64, Tail(n)]
    case 3 => [0xE0 + n / 4096, Tail(n / 64), Tail(n)]
    case _ => [0xF0 + n / 262144, Tail(n / 4096), Tail(n / 64), Tail(n)]
  }

  function Encode(s: string): (bytes: seq<nat>)
    ensures |bytes| == Size(s)
  {
    if s == "" then [] else EncodeChar(s[0]) + Encode(s[1..])
  }

  /** What is left and its low six bits make the number. */
  lemma SixBits(n: nat)
    ensures n == n / 64 * 64 + (Tail(n) - 0x80) && IsContinuation(Tail(n))
  {
  }

  lemma TwoBytes(c: char, rest: seq<nat>)
    requires CharSize(c) <= 2
    ensures DecodeOne(EncodeChar(c) + rest) == Some((c, CharSize(c)))
  {
    hide Tail, IsContinuation;
    SixBits(c as int);
  }

  lemma ThreeBytes(c: char, rest: seq<nat>)
    requires CharSize(c) == 3
    ensures DecodeOne(EncodeChar(c) + rest) == Some((c, CharSize(c)))
  {
    hide Tail, IsContinuation;
    var n := c as int;
    SixBits(n);
    SixBits(n / 64);
    assert n / 64 / 64 == n / 4096;
  }

  lemma FourBytes(c: char, rest: seq<nat>)
    requires CharSize(c) == 4
    ensures DecodeOne(EncodeChar(c) + rest) == Some((c, CharSize(c)))
  {
    hide Tail, IsContinuation;
    var n := c as int;
    SixBits(n);
    SixBits(n / 64);
    SixBits(n / 4096);
    assert n / 64 / 64 == n / 4096 && n / 4096 / 64 == n / 262144;
  }

  lemma CharReadBack(c: char, rest: seq<nat>)
    ensures DecodeOne(EncodeChar(c) + rest) == Some((c, CharSize(c)))
  {
    hide DecodeOne, EncodeChar;
    if CharSize(c) <= 2 {
      TwoBytes(c, rest);
    } else if CharSize(c) == 3 {
      ThreeBytes(c, rest);
    } else {
      FourBytes(c, rest);
    }
  }

  /** Every text has an encoding of as many bytes as its size says, and it is read back as the text. */
  lemma {:induction false} TextReadBack(s: string)
    ensures |Encode(s)| == Size(s) && Decode(Encode(s)) == Some(s)
  {
    if s != "" {
      CharReadBack(s[0], Encode(s[1..]));
      TextReadBack(s[1..]);
      assert Encode(s)[CharSize(s[0])..] == Encode(s[1..]);
      assert s == [s[0]] + s[1..];
    }
  }
}
