/**
 The `.env` file: the deployment writer `_write_env`, and its two readers, the deployment's
 `_read_env` (deploy.py) and the application's `_read_env_file` (app/config.py).
 */
module EnvFile {
  import opened Options
  import opened Text
  import opened EnvText

  datatype Reader = Deploy | Config

  const BOM: char := '\U{FEFF}'

  function Find(s: string, c: char): (i: nat)
    ensures i <= |s|
    ensures i < |s| ==> s[i] == c
    ensures c !in s[..i]
    ensures i == |s| <==> c !in s
  {
    if s == "" || s[0] == c then 0
    else
      var i := Find(s[1..], c);
      assert s == [s[0]] + s[1..];
      assert s[..i + 1] == [s[0]] + s[1..][..i];
      i + 1
  }

  predicate HasExport(s: string) {
    "export " <= s
  }

  function DropBom(s: string): string {
    if s == "" || s[0] != BOM then s else DropBom(s[1..])
  }

  function KeyOf(r: Reader, text: string): string {
    match r
    case Deploy =>
      var key := Strip(text);
      Strip(if HasExport(key) then key[7..] else key)
    case Config =>
      var key := DropBom(Strip(text));
      if HasExport(key) then Strip(key[7..]) else key
  }

  predicate Quoted(s: string, quote: char) {
    |s| >= 2 && s[0] == s[|s| - 1] == quote
  }

  function ValueOf(r: Reader, text: string): string {
    var value := Strip(text);
    if Quoted(value, '"') then
      var inner := value[1..|value| - 1];
      if r == Deploy then UnescapeTwoPass(inner) else UnescapeOnePass(inner)
    else if Quoted(value, '\'') then value[1..|value| - 1]
    else value
  }

  datatype Entry = Entry(key: string, value: string)

  /** The assignment on a line; blank lines, comments and lines without `=` hold none. */
  function ParseLine(r: Reader, raw: string): Option<Entry> {
    var line := Strip(raw);
    if line == "" || line[0] == '#' || '=' !in line then None
    else
      var i := Find(line, '=');
      var key := KeyOf(r, line[..i]);
      if r == Config && key == "" then None
      else Some(Entry(key, ValueOf(r, line[i + 1..])))
  }

  /** Later lines override earlier ones. */
  function ReadLines(r: Reader, lines: seq<string>): map<string, string> {
    if lines == [] then map[]
    else
      var before := ReadLines(r, lines[..|lines| - 1]);
      match ParseLine(r, lines[|lines| - 1])
      case None => before
      case Some(e) => before[e.key := e.value]
  }

  /** `allowed_keys`: the application's reader may be told to pass over other keys. */
  function Allowed(values: map<string, string>, allowed: Option<set<string>>): map<string, string> {
    if allowed.None? then values else map k | k in values && k in allowed.value :: values[k]
  }

  lemma AllowedSnoc(values: map<string, string>, allowed: Option<set<string>>, e: Entry)
    ensures Allowed(values[e.key := e.value], allowed)
         == if allowed.None? || e.key in allowed.value then Allowed(values, allowed)[e.key := e.value]
           else Allowed(values, allowed)
  {
  }

  method ReadEnv(r: Reader, text: string, allowed: Option<set<string>>) returns (values: map<string, string>)
    ensures values == Allowed(ReadLines(r, SplitLines(text)), allowed)
  {
    hide ParseLine, SplitLines, Allowed;
    var lines := SplitLines(text);
    values := map[];
    assert Allowed(map[], allowed) == map[] by { AllowedNothing(allowed); }
    for i := 0 to |lines|
      invariant values == Allowed(ReadLines(r, lines[..i]), allowed)
    {
      assert lines[..i + 1][..i] == lines[..i];
      var entry := ParseLine(r, lines[i]);
      if entry.Some? {
        AllowedSnoc(ReadLines(r, lines[..i]), allowed, entry.value);
        if allowed.None? || entry.value.key in allowed.value {
          values := values[entry.value.key := entry.value.value];
        }
      }
    }
    assert lines[..|lines|] == lines;
  }

  lemma AllowedNothing(allowed: Option<set<string>>)
    ensures Allowed(map[], allowed) == map[]
  {
  }

  // ----- The writer -----

  /** Keys that survive both readers' clean-up unchanged. */
  predicate WellFormedKey(key: string) {
    && key != "" && Stripped(key) && OneLine(key)
    && key[0] != '#' && key[0] != BOM && '=' !in key && !HasExport(key)
  }

  function Assignment(key: string, value: string): string {
    key + "=" + FormatValue(value)
  }

  function WriterKey(raw: string): Option<string> {
    var entry :- ParseLine(Deploy, raw);
    Some(entry.key)
  }

  function Without(keys: seq<string>, key: string): seq<string> {
    if keys == [] then []
    else if keys[0] == key then Without(keys[1..], key)
    else [keys[0]] + Without(keys[1..], key)
  }

  datatype Rewriting = Rewriting(output: seq<string>, pending: seq<string>)

  /** The lines rewritten in place, and the keys still to be appended. */
  function Rewrite(lines: seq<string>, keys: seq<string>, updates: map<string, string>): (w: Rewriting)
    requires forall k <- keys :: k in updates
    ensures forall k <- w.pending :: k in updates
  {
    if lines == [] then Rewriting([], keys)
    else
      var w := Rewrite(lines[..|lines| - 1], keys, updates);
      var raw := lines[|lines| - 1];
      var key := WriterKey(raw);
      if key.Some? && key.value in w.pending then
        WithoutSubset(w.pending, key.value);
        Rewriting(w.output + [Assignment(key.value, updates[key.value])], Without(w.pending, key.value))
      else w.(output := w.output + [raw])
  }

  function Assignments(keys: seq<string>, updates: map<string, string>): seq<string>
    requires forall k <- keys :: k in updates
  {
    seq(|keys|, i requires 0 <= i < |keys| => Assignment(keys[i], updates[keys[i]]))
  }

  /** The lines of the new file, before trailing whitespace is cut off. */
  function Written(lines: seq<string>, keys: seq<string>, updates: map<string, string>): seq<string>
    requires forall k <- keys :: k in updates
  {
    var w := Rewrite(lines, keys, updates);
    if w.pending == [] then w.output
    else
      w.output
      + (if w.output != [] && w.output[|w.output| - 1] != "" then [""] else [])
      + Assignments(w.pending, updates)
  }

  function FileText(output: seq<string>): string {
    StripRight(Join(output, '\n')) + "\n"
  }

  lemma {:induction false} WithoutSubset(keys: seq<string>, key: string)
    ensures forall k :: k in Without(keys, key) <==> k in keys && k != key
  {
    if keys != [] {
      WithoutSubset(keys[1..], key);
      assert keys == [keys[0]] + keys[1..];
    }
  }

  method WriteEnv(oldText: string, keys: seq<string>, updates: map<string, string>) returns (text: string)
    requires forall k <- keys :: k in updates
    ensures text == FileText(Written(SplitLines(oldText), keys, updates))
  {
    hide SplitLines, WriterKey, Assignment, FileText, Without;
    var lines := SplitLines(oldText);
    var output: seq<string>, pending := [], keys;
    for i := 0 to |lines|
      invariant forall k <- pending :: k in updates
      invariant Rewrite(lines[..i], keys, updates) == Rewriting(output, pending)
    {
      assert lines[..i + 1][..i] == lines[..i];
      var key := WriterKey(lines[i]);
      if key.Some? && key.value in pending {
        WithoutSubset(pending, key.value);
        output := output + [Assignment(key.value, updates[key.value])];
        pending := Without(pending, key.value);
      } else {
        output := output + [lines[i]];
      }
    }
    assert lines[..|lines|] == lines;
    if pending != [] {
      if output != [] && output[|output| - 1] != "" {
        output := output + [""];
      }
      output := output + Assignments(pending, updates);
    }
    assert output == Written(lines, keys, updates);
    return FileText(output);
  }

  // ----- A written assignment is read back, by either reader -----

  lemma PlainIsNotSpace(c: char)
    requires IsPlain(c)
    ensures !IsSpace(c) && c != '"' && c != '\''
  {
  }

  lemma NoQuoteInPlain(value: string)
    requires value != "" && forall c <- value :: IsPlain(c)
    ensures Stripped(value) && !Quoted(value, '"') && !Quoted(value, '\'') && OneLine(value)
  {
    hide IsPlain, IsSpace, IsLineBreak;
    forall c <- value
      ensures !IsSpace(c) && !IsLineBreak(c) && c != '"' && c != '\''
    {
      PlainIsNotSpace(c);
    }
    assert value[0] in value && value[|value| - 1] in value;
  }

  lemma ValueReadBack(r: Reader, value: string)
    ensures FormatValue(value) != "" && Stripped(FormatValue(value))
    ensures ValueOf(r, FormatValue(value)) == value
  {
    var text := FormatValue(value);
    if value != "" && forall c <- value :: IsPlain(c) {
      NoQuoteInPlain(value);
    } else {
      assert Quoted(text, '"');
      assert text[1..|text| - 1] == Escape(value);
      TwoPassUnescapes(value);
      OnePassUnescapes(value);
    }
    StripIdentity(text);
  }

  lemma KeyReadBack(r: Reader, key: string)
    requires WellFormedKey(key)
    ensures KeyOf(r, key) == key
  {
    StripIdentity(key);
  }

  lemma FindAfter(key: string, rest: string)
    requires '=' !in key
    ensures Find(key + "=" + rest, '=') == |key|
  {
    var s := key + "=" + rest;
    assert s[|key|] == '=';
    assert s[..|key|] == key;
    var i := Find(s, '=');
  }

  lemma AssignmentReadBack(r: Reader, key: string, value: string)
    requires WellFormedKey(key)
    ensures ParseLine(r, Assignment(key, value)) == Some(Entry(key, value))
  {
    hide FormatValue, KeyOf, ValueOf, Strip, Find, HasExport;
    var text := FormatValue(value);
    ValueReadBack(r, value);
    AssignmentStripped(key, text);
    StripIdentity(key + "=" + text);
    FindAfter(key, text);
    assert (key + "=" + text)[..|key|] == key && (key + "=" + text)[|key| + 1..] == text;
    KeyReadBack(r, key);
  }

  lemma AssignmentStripped(key: string, text: string)
    requires WellFormedKey(key) && text != "" && Stripped(text)
    ensures var line := key + "=" + text;
            Stripped(line) && line != "" && line[0] == key[0] && line[|key|] == '='
  {
    hide IsSpace, HasExport, OneLine;
  }

  lemma {:induction false} DropBomNoBom(s: string)
    requires s == "" || s[0] != BOM
    ensures DropBom(s) == s
  {
  }

  /** A line the writer recognises under a well-formed key has that key for both readers. */
  lemma WriterKeyIsReaderKey(r: Reader, raw: string, key: string)
    requires WriterKey(raw) == Some(key) && WellFormedKey(key)
    ensures ParseLine(r, raw).Some? && ParseLine(r, raw).value.key == key
  {
    if r == Config {
      var line := Strip(raw);
      var text := Strip(line[..Find(line, '=')]);
      StripIsStripped(line[..Find(line, '=')]);
      StripIdentity(text);
      DropBomNoBom(text);
    }
  }

  // ----- What a reader finds in the rewritten file -----

  ghost predicate Defines(r: Reader, raw: string, key: string) {
    ParseLine(r, raw).Some? && ParseLine(r, raw).value.key == key
  }

  /** The writer replaces the first line it recognises; this says line `f` is that line. */
  ghost predicate FirstWritten(lines: seq<string>, key: string, f: nat) {
    f < |lines| && WriterKey(lines[f]) == Some(key) && forall i :: 0 <= i < f ==> WriterKey(lines[i]) != Some(key)
  }

  /** A later line defines the key again, so the replaced line does not decide its value. */
  ghost predicate Shadowed(r: Reader, lines: seq<string>, key: string) {
    exists f: nat, j: nat :: f < j < |lines| && FirstWritten(lines, key, f) && Defines(r, lines[j], key)
  }

  ghost function Lookup(values: map<string, string>, key: string): Option<string> {
    if key in values then Some(values[key]) else None
  }

  lemma ReadLinesSnoc(r: Reader, lines: seq<string>, raw: string)
    ensures ReadLines(r, lines + [raw]) ==
      match ParseLine(r, raw)
      case None => ReadLines(r, lines)
      case Some(e) => ReadLines(r, lines)[e.key := e.value]
  {
    hide ParseLine;
    assert (lines + [raw])[..|lines|] == lines;
  }

  lemma {:induction false} FirstWrittenExists(lines: seq<string>, key: string, i: nat) returns (f: nat)
    requires i < |lines| && WriterKey(lines[i]) == Some(key)
    ensures FirstWritten(lines, key, f) && f <= i
  {
    hide WriterKey;
    if j :| 0 <= j < i && WriterKey(lines[j]) == Some(key) {
      f := FirstWrittenExists(lines, key, j);
    } else {
      f := i;
    }
  }

  /** One more line changes whether `key` is shadowed only if that line defines it. */
  lemma ShadowedSnoc(r: Reader, lines: seq<string>, raw: string, key: string)
    requires !Defines(r, raw, key)
    ensures Shadowed(r, lines + [raw], key) == Shadowed(r, lines, key)
  {
    hide WriterKey, Defines;
    var longer := lines + [raw];
    if Shadowed(r, longer, key) {
      var f: nat, j: nat :| f < j < |longer| && FirstWritten(longer, key, f) && Defines(r, longer[j], key);
      assert j < |lines| && longer[j] == lines[j];
      assert FirstWritten(lines, key, f) by {
        assert forall i :: 0 <= i <= f ==> longer[i] == lines[i];
      }
    }
    if Shadowed(r, lines, key) {
      var f: nat, j: nat :| f < j < |lines| && FirstWritten(lines, key, f) && Defines(r, lines[j], key);
      assert longer[j] == lines[j];
      assert FirstWritten(longer, key, f) by {
        assert forall i :: 0 <= i <= f ==> longer[i] == lines[i];
      }
    }
  }

  lemma ShadowedBySnoc(r: Reader, lines: seq<string>, raw: string, key: string, i: nat)
    requires i < |lines| && WriterKey(lines[i]) == Some(key)
    requires Defines(r, raw, key)
    ensures Shadowed(r, lines + [raw], key)
  {
    hide WriterKey, Defines;
    var f := FirstWrittenExists(lines, key, i);
    var longer := lines + [raw];
    assert forall k :: 0 <= k <= f ==> longer[k] == lines[k];
    assert FirstWritten(longer, key, f);
    assert longer[|lines|] == raw;
  }

  ghost predicate NeverWritten(lines: seq<string>, key: string) {
    forall raw <- lines :: WriterKey(raw) != Some(key)
  }

  lemma NeverWrittenSnoc(lines: seq<string>, raw: string, key: string)
    ensures NeverWritten(lines + [raw], key) <==> NeverWritten(lines, key) && WriterKey(raw) != Some(key)
  {
    hide WriterKey;
    assert raw in lines + [raw];
    assert forall line <- lines :: line in lines + [raw];
  }

  lemma NeverWrittenNotShadowed(r: Reader, lines: seq<string>, raw: string, key: string)
    requires NeverWritten(lines, key)
    ensures !Shadowed(r, lines, key) && !Shadowed(r, lines + [raw], key)
  {
    hide WriterKey, Defines;
    assert forall f :: 0 <= f < |lines| ==> lines[f] in lines && (lines + [raw])[f] == lines[f];
  }

  /** What one key reads as once the lines have been rewritten, before anything is appended. */
  ghost predicate Rewritten(r: Reader, lines: seq<string>, keys: seq<string>, updates: map<string, string>,
                            w: Rewriting, key: string)
    requires forall k <- keys :: k in updates
  {
    && (key in w.pending <==> key in keys && NeverWritten(lines, key))
    && Lookup(ReadLines(r, w.output), key) ==
         if key in keys && key !in w.pending && !Shadowed(r, lines, key) then Some(updates[key])
         else Lookup(ReadLines(r, lines), key)
  }

  lemma {:induction false} RewriteReads(
    r: Reader, lines: seq<string>, keys: seq<string>, updates: map<string, string>, key: string)
    requires forall k <- keys :: k in updates && WellFormedKey(k)
    ensures Rewritten(r, lines, keys, updates, Rewrite(lines, keys, updates), key)
    decreases |lines|
  {
    hide WellFormedKey, WriterKey, ParseLine, Shadowed, Assignment, Without;
    if lines == [] {
      NeverWrittenNotShadowed(r, [], "", key);
    } else {
      var before, raw := lines[..|lines| - 1], lines[|lines| - 1];
      assert lines == before + [raw];
      RewriteReads(r, before, keys, updates, key);
      var w := Rewrite(before, keys, updates);
      var written := WriterKey(raw);
      if written.Some? && written.value in w.pending {
        RewriteReads(r, before, keys, updates, written.value);
        ReplacedStep(r, before, raw, keys, updates, w, key, written.value);
      } else {
        KeptStep(r, before, raw, keys, updates, w, key);
      }
    }
  }

  lemma ReplacedStep(r: Reader, before: seq<string>, raw: string, keys: seq<string>, updates: map<string, string>,
                     w: Rewriting, key: string, k: string)
    requires forall k <- keys :: k in updates && WellFormedKey(k)
    requires Rewritten(r, before, keys, updates, w, key) && Rewritten(r, before, keys, updates, w, k)
    requires WriterKey(raw) == Some(k) && k in w.pending
    ensures Rewritten(r, before + [raw], keys, updates,
              Rewriting(w.output + [Assignment(k, updates[k])], Without(w.pending, k)), key)
  {
    hide WriterKey, ParseLine, Assignment, WellFormedKey, Without, Shadowed, ReadLines, NeverWritten;
    NeverWrittenSnoc(before, raw, key);
    ReadLinesSnoc(r, before, raw);
    WithoutSubset(w.pending, k);
    AssignmentReadBack(r, k, updates[k]);
    WriterKeyIsReaderKey(r, raw, k);
    ReadLinesSnoc(r, w.output, Assignment(k, updates[k]));
    NeverWrittenNotShadowed(r, before, raw, k);
    if key != k {
      ShadowedSnoc(r, before, raw, key);
    }
  }

  lemma KeptStep(r: Reader, before: seq<string>, raw: string, keys: seq<string>, updates: map<string, string>,
                 w: Rewriting, key: string)
    requires forall k <- keys :: k in updates && WellFormedKey(k)
    requires Rewritten(r, before, keys, updates, w, key)
    requires WriterKey(raw).None? || WriterKey(raw).value !in w.pending
    ensures Rewritten(r, before + [raw], keys, updates, w.(output := w.output + [raw]), key)
  {
    hide WriterKey, ParseLine, WellFormedKey, Shadowed, ReadLines, NeverWritten;
    NeverWrittenSnoc(before, raw, key);
    ReadLinesSnoc(r, before, raw);
    ReadLinesSnoc(r, w.output, raw);
    if !Defines(r, raw, key) {
      ShadowedSnoc(r, before, raw, key);
    } else if key in keys && key !in w.pending {
      var i := WrittenSomewhere(before, key);
      ShadowedBySnoc(r, before, raw, key, i);
    }
  }

  lemma WrittenSomewhere(lines: seq<string>, key: string) returns (i: nat)
    requires !NeverWritten(lines, key)
    ensures i < |lines| && WriterKey(lines[i]) == Some(key)
  {
    hide WriterKey;
    var raw :| raw in lines && WriterKey(raw) == Some(key);
    i :| i < |lines| && lines[i] == raw;
  }

  lemma {:induction false} AppendedReads(
    r: Reader, output: seq<string>, keys: seq<string>, updates: map<string, string>)
    requires forall k <- keys :: k in updates && WellFormedKey(k)
    ensures ReadLines(r, output + Assignments(keys, updates))
         == ReadLines(r, output) + map k | k in keys :: updates[k]
    decreases |keys|
  {
    hide ParseLine, Assignment, WellFormedKey, ReadLines, Assignments;
    if keys == [] {
      NothingAssigned(output, updates);
    } else {
      var init, last := keys[..|keys| - 1], keys[|keys| - 1];
      assert keys == init + [last];
      AppendedReads(r, output, init, updates);
      AssignmentReadBack(r, last, updates[last]);
      ReadLinesSnoc(r, output + Assignments(init, updates), Assignment(last, updates[last]));
      AssignmentsSnoc(output, init, last, updates);
      OverrideSnoc(ReadLines(r, output), init, last, updates);
    }
  }

  lemma NothingAssigned(output: seq<string>, updates: map<string, string>)
    ensures output + Assignments([], updates) == output
  {
  }

  lemma AssignmentsSnoc(output: seq<string>, init: seq<string>, last: string, updates: map<string, string>)
    requires forall k <- init + [last] :: k in updates
    ensures (forall k <- init :: k in updates) && last in updates
    ensures output + Assignments(init + [last], updates)
         == output + Assignments(init, updates) + [Assignment(last, updates[last])]
  {
    hide Assignment;
    assert last in init + [last] && forall k <- init :: k in init + [last];
    assert Assignments(init + [last], updates) == Assignments(init, updates) + [Assignment(last, updates[last])];
  }

  lemma OverrideSnoc(values: map<string, string>, init: seq<string>, last: string, updates: map<string, string>)
    requires (forall k <- init :: k in updates) && last in updates
    ensures (values + map k | k in init :: updates[k])[last := updates[last]]
         == values + map k | k in init + [last] :: updates[k]
  {
  }

  lemma MapsAgree(m: map<string, string>, n: map<string, string>)
    requires forall key :: Lookup(m, key) == Lookup(n, key)
    ensures m == n
  {
    assert forall key :: key in m <==> Lookup(m, key).Some?;
    assert forall key :: key in n <==> Lookup(n, key).Some?;
    forall key | key in m
      ensures key in n && m[key] == n[key]
    {
      assert Lookup(m, key) == Lookup(n, key);
    }
  }

  lemma BlankLine(r: Reader, output: seq<string>)
    ensures ReadLines(r, output + [""]) == ReadLines(r, output)
  {
    ReadLinesSnoc(r, output, "");
  }

  /**
   Each updated key reads as its new value, unless a later line of the old file defines it
   again; every other key keeps the value it had, or stays absent.
   */
  lemma WrittenReads(r: Reader, lines: seq<string>, keys: seq<string>, updates: map<string, string>)
    requires forall k <- keys :: k in updates && WellFormedKey(k)
    ensures ReadLines(r, Written(lines, keys, updates))
         == ReadLines(r, lines) + map k | k in keys && !Shadowed(r, lines, k) :: updates[k]
  {
    hide ParseLine, Assignment, WellFormedKey, WriterKey, Rewrite, Shadowed, ReadLines, Assignments;
    var w := Rewrite(lines, keys, updates);
    var written := Written(lines, keys, updates);
    var expected := ReadLines(r, lines) + map k | k in keys && !Shadowed(r, lines, k) :: updates[k];
    WrittenAppends(r, lines, keys, updates);
    forall key
      ensures Lookup(ReadLines(r, written), key) == Lookup(expected, key)
    {
      RewriteReads(r, lines, keys, updates, key);
      if key in w.pending {
        NeverWrittenNotShadowed(r, lines, "", key);
      }
    }
    MapsAgree(ReadLines(r, written), expected);
  }

  lemma WrittenAppends(r: Reader, lines: seq<string>, keys: seq<string>, updates: map<string, string>)
    requires forall k <- keys :: k in updates && WellFormedKey(k)
    ensures var w := Rewrite(lines, keys, updates);
      && (forall k <- w.pending :: k in keys)
      && ReadLines(r, Written(lines, keys, updates))
         == ReadLines(r, w.output) + map k | k in w.pending :: updates[k]
  {
    hide ParseLine, Assignment, WellFormedKey, Rewrite, Shadowed, ReadLines, Assignments;
    var w := Rewrite(lines, keys, updates);
    forall k <- w.pending
      ensures k in keys
    {
      RewriteReads(r, lines, keys, updates, k);
    }
    if w.pending != [] {
      BlankLine(r, w.output);
      AppendedReads(r, w.output, w.pending, updates);
      AppendedReads(r, w.output + [""], w.pending, updates);
      assert w.output + [] == w.output;
    }
  }

  // ----- From lines to the text of the file -----

  /** The lines left when the trailing whitespace of the joined text is cut off. */
  function TrimTail(output: seq<string>): (lines: seq<string>)
    ensures lines != []
  {
    if output == [] then [""]
    else
      var init, last := output[..|output| - 1], StripRight(output[|output| - 1]);
      if last == "" then TrimTail(init) else init + [last]
  }

  lemma {:induction false} TrimTailJoin(output: seq<string>)
    ensures StripRight(Join(output, '\n')) == Join(TrimTail(output), '\n')
    decreases |output|
  {
    hide IsSpace;
    if output != [] {
      var init, last := output[..|output| - 1], output[|output| - 1];
      assert output == init + [last];
      TrimTailJoin(init);
      if init == [] {
        assert output == [last];
        assert init + [StripRight(last)] == [StripRight(last)];
      } else {
        JoinConcat(init, [last], '\n');
        JoinConcat(init, [StripRight(last)], '\n');
        StripRightConcat(Join(init, '\n') + ['\n'], last);
        NewlineStripped(Join(init, '\n'));
      }
    }
  }

  lemma NewlineStripped(s: string)
    ensures StripRight(s + ['\n']) == StripRight(s)
  {
    assert (s + ['\n'])[..|s|] == s;
  }

  lemma ParseTrimmed(r: Reader, raw: string)
    ensures ParseLine(r, StripRight(raw)) == ParseLine(r, raw)
    ensures StripRight(raw) == "" ==> ParseLine(r, raw) == None
  {
    StripStripRight(raw);
    StripIdentity("");
  }

  lemma {:induction false} TrimTailReads(r: Reader, output: seq<string>)
    ensures ReadLines(r, TrimTail(output)) == ReadLines(r, output)
    decreases |output|
  {
    hide ParseLine, StripRight;
    if output == [] {
      BlankLine(r, []);
      assert [] + [""] == [""];
    } else {
      var init, last := output[..|output| - 1], output[|output| - 1];
      assert output == init + [last];
      TrimTailReads(r, init);
      ParseTrimmed(r, last);
      ReadLinesSnoc(r, init, last);
      ReadLinesSnoc(r, init, StripRight(last));
    }
  }

  lemma {:induction false} TrimTailOneLine(output: seq<string>)
    requires forall line <- output :: OneLine(line)
    ensures forall line <- TrimTail(output) :: OneLine(line)
    decreases |output|
  {
    if output != [] {
      var init, last := output[..|output| - 1], output[|output| - 1];
      assert last in output;
      forall line <- init
        ensures OneLine(line)
      {
        assert line in output;
      }
      TrimTailOneLine(init);
      StripRightParts(last);
      assert OneLine(StripRight(last));
    }
  }

  lemma FileTextReads(r: Reader, output: seq<string>)
    requires forall line <- output :: OneLine(line)
    ensures ReadLines(r, SplitLines(FileText(output))) == ReadLines(r, output)
  {
    hide OneLine;
    TrimTailJoin(output);
    TrimTailOneLine(output);
    SplitLinesJoin(TrimTail(output));
    TrimTailReads(r, output);
  }

  lemma AssignmentOneLine(key: string, value: string)
    requires OneLine(key) && OneLine(value)
    ensures OneLine(Assignment(key, value))
  {
    EscapeOneLine(value);
  }

  lemma {:induction false} RewriteOneLine(lines: seq<string>, keys: seq<string>, updates: map<string, string>)
    requires forall k <- keys :: k in updates && OneLine(k) && OneLine(updates[k])
    requires forall line <- lines :: OneLine(line)
    ensures forall line <- Rewrite(lines, keys, updates).output :: OneLine(line)
    ensures forall k <- Rewrite(lines, keys, updates).pending :: k in keys
    decreases |lines|
  {
    hide OneLine, WriterKey, Assignment;
    if lines != [] {
      var init := lines[..|lines| - 1];
      forall line <- init
        ensures OneLine(line)
      {
        assert line in lines;
      }
      RewriteOneLine(init, keys, updates);
      var w := Rewrite(init, keys, updates);
      var key := WriterKey(lines[|lines| - 1]);
      if key.Some? && key.value in w.pending {
        AssignmentOneLine(key.value, updates[key.value]);
        WithoutSubset(w.pending, key.value);
      }
    }
  }

  lemma WrittenOneLine(lines: seq<string>, keys: seq<string>, updates: map<string, string>)
    requires forall k <- keys :: k in updates && OneLine(k) && OneLine(updates[k])
    requires forall line <- lines :: OneLine(line)
    ensures forall line <- Written(lines, keys, updates) :: OneLine(line)
  {
    hide OneLine, Assignment, Rewrite;
    RewriteOneLine(lines, keys, updates);
    EmptyOneLine();
    forall k <- keys
      ensures OneLine(Assignment(k, updates[k]))
    {
      AssignmentOneLine(k, updates[k]);
    }
  }

  lemma EmptyOneLine()
    ensures OneLine("")
  {
  }

  /**
   The round trip. Whatever the old file held, both readers find in the new one the old
   assignments overridden by the updates, except for an update whose key a later old line
   defines again: that line still decides.
   */
  lemma EnvRoundTrip(r: Reader, oldText: string, keys: seq<string>, updates: map<string, string>)
    requires forall k <- keys :: k in updates && WellFormedKey(k) && OneLine(updates[k])
    ensures var lines := SplitLines(oldText);
      ReadLines(r, SplitLines(FileText(Written(lines, keys, updates))))
      == ReadLines(r, lines) + map k | k in keys && !Shadowed(r, lines, k) :: updates[k]
  {
    hide ParseLine, Shadowed, ReadLines, Written, FileText, SplitLines;
    var lines := SplitLines(oldText);
    WrittenOneLine(lines, keys, updates);
    FileTextReads(r, Written(lines, keys, updates));
    WrittenReads(r, lines, keys, updates);
  }

  /** In particular, a key the old file defines at most once is read back as written. */
  lemma UpdateReadBack(r: Reader, oldText: string, keys: seq<string>, updates: map<string, string>, key: string)
    requires forall k <- keys :: k in updates && WellFormedKey(k) && OneLine(updates[k])
    requires key in keys
    requires var lines := SplitLines(oldText);
      forall i, j :: 0 <= i < j < |lines| ==> !(Defines(r, lines[i], key) && Defines(r, lines[j], key))
    ensures Lookup(ReadLines(r, SplitLines(FileText(Written(SplitLines(oldText), keys, updates)))), key)
         == Some(updates[key])
  {
    hide ParseLine, WriterKey, ReadLines, Written, FileText, SplitLines, WellFormedKey;
    var lines := SplitLines(oldText);
    EnvRoundTrip(r, oldText, keys, updates);
    if Shadowed(r, lines, key) {
      var f: nat, j: nat :| f < j < |lines| && FirstWritten(lines, key, f) && Defines(r, lines[j], key);
      WriterKeyIsReaderKey(r, lines[f], key);
      assert false;
    }
  }

  /** The condition on values is needed: no value read from a file contains a line break. */
  lemma {:induction false} ReadValuesAreOneLine(r: Reader, lines: seq<string>, key: string)
    requires forall line <- lines :: OneLine(line)
    requires key in ReadLines(r, lines)
    ensures OneLine(ReadLines(r, lines)[key])
    decreases |lines|
  {
    hide ParseLine, OneLine;
    if lines != [] {
      var init, last := lines[..|lines| - 1], lines[|lines| - 1];
      assert last in lines;
      if Defines(r, last, key) {
        ValueOneLine(r, last);
      } else {
        forall line <- init
          ensures OneLine(line)
        {
          assert line in lines;
        }
        ReadValuesAreOneLine(r, init, key);
      }
    }
  }

  lemma ValueOneLine(r: Reader, raw: string)
    requires OneLine(raw) && ParseLine(r, raw).Some?
    ensures OneLine(ParseLine(r, raw).value.value)
  {
    hide IsLineBreak, IsSpace, KeyOf;
    StripOneLine(raw);
    var line := Strip(raw);
    var text := line[Find(line, '=') + 1..];
    StripOneLine(text);
    var value := Strip(text);
    if Quoted(value, '"') {
      var inner := value[1..|value| - 1];
      assert OneLine(inner);
      NotBreaks();
      ReplacePairOneLine(inner, '\\', '"', '"');
      ReplacePairOneLine(ReplacePair(inner, '\\', '"', '"'), '\\', '\\', '\\');
      OnePassOneLine(inner);
    }
  }

  lemma NotBreaks()
    ensures !IsLineBreak('"') && !IsLineBreak('\\')
  {
  }

  lemma StripOneLine(s: string)
    requires OneLine(s)
    ensures OneLine(Strip(s))
  {
    StripLeftParts(s);
    StripRightParts(StripLeft(s));
  }
}
