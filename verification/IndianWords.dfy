/**
 Amounts in words (app/services/preinvoice.py): numbers spelled with the Indian
 grouping (hundred, thousand, lakh, crore), and an independent reader that hears the words
 one at a time.
 */
module IndianWords {
  import opened Options
  import opened Text

  /** The vocabulary: `One(k)` for the words of `_ONES`, `Ten(k)` for those of `_TENS`. */
  datatype Word =
    | One(n: nat) | Ten(n: nat)
    | Hundred | Thousand | Lakh | Crore
    | Minus | Inr | And | Paise | Only
  {
    predicate Valid() {
      && (One? ==> n < 20)
      && (Ten? ==> 2 <= n < 10)
    }
  }

  type Spoken = w: Word | w.Valid() witness Hundred

  function Spell(w: Spoken): string {
    match w
    case One(k) => OneWord(k)
    case Ten(k) => TenWord(k)
    case Hundred => "Hundred"
    case Thousand => "Thousand"
    case Lakh => "Lakh"
    case Crore => "Crore"
    case Minus => "Minus"
    case Inr => "INR"
    case And => "and"
    case Paise => "Paise"
    case Only => "Only"
  }

  function OneWord(k: nat): string
    requires k < 20
  {
    match k
    case 0 => "Zero" case 1 => "One" case 2 => "Two" case 3 => "Three" case 4 => "Four"
    case 5 => "Five" case 6 => "Six" case 7 => "Seven" case 8 => "Eight" case 9 => "Nine"
    case 10 => "Ten" case 11 => "Eleven" case 12 => "Twelve" case 13 => "Thirteen"
    case 14 => "Fourteen" case 15 => "Fifteen" case 16 => "Sixteen" case 17 => "Seventeen"
    case 18 => "Eighteen" case 19 => "Nineteen"
  }

  function TenWord(k: nat): string
    requires 2 <= k < 10
  {
    match k
    case 2 => "Twenty" case 3 => "Thirty" case 4 => "Forty" case 5 => "Fifty"
    case 6 => "Sixty" case 7 => "Seventy" case 8 => "Eighty" case 9 => "Ninety"
  }

  lemma OneWordsDiffer(j: nat, k: nat)
    requires j < 20 && k < 20 && OneWord(j) == OneWord(k)
    ensures j == k
  {
  }

  lemma TenWordsDiffer(j: nat, k: nat)
    requires 2 <= j < 10 && 2 <= k < 10 && TenWord(j) == TenWord(k)
    ensures j == k
  {
  }

  lemma TenIsNoOne(j: nat, k: nat)
    requires j < 20 && 2 <= k < 10
    ensures OneWord(j) != TenWord(k)
  {
  }

  lemma UnitIsNoNumber(w: Spoken, j: nat)
    requires !w.One? && !w.Ten?
    ensures j < 20 ==> OneWord(j) != Spell(w)
    ensures 2 <= j < 10 ==> TenWord(j) != Spell(w)
  {
  }

  lemma UnitsDiffer(v: Spoken, w: Spoken)
    requires !v.One? && !v.Ten? && !w.One? && !w.Ten? && Spell(v) == Spell(w)
    ensures v == w
  {
  }

  lemma SpellInjective(v: Spoken, w: Spoken)
    requires Spell(v) == Spell(w)
    ensures v == w
  {
    hide OneWord, TenWord, Spell;
    SpellNumber(v);
    SpellNumber(w);
    match (v, w)
    case (One(j), One(k)) => OneWordsDiffer(j, k);
    case (Ten(j), Ten(k)) => TenWordsDiffer(j, k);
    case (One(j), Ten(k)) => TenIsNoOne(j, k);
    case (Ten(k), One(j)) => TenIsNoOne(j, k);
    case (One(j), _) => UnitIsNoNumber(w, j);
    case (Ten(j), _) => UnitIsNoNumber(w, j);
    case (_, One(j)) => UnitIsNoNumber(v, j);
    case (_, Ten(j)) => UnitIsNoNumber(v, j);
    case (_, _) => UnitsDiffer(v, w);
  }

  lemma SpellNumber(w: Spoken)
    ensures w.One? ==> Spell(w) == OneWord(w.n)
    ensures w.Ten? ==> Spell(w) == TenWord(w.n)
  {
    hide OneWord, TenWord;
  }

  lemma OneWordHasNoSpace(k: nat)
    requires k < 20
    ensures ' ' !in OneWord(k)
  {
  }

  lemma TenWordHasNoSpace(k: nat)
    requires 2 <= k < 10
    ensures ' ' !in TenWord(k)
  {
  }

  lemma SpellHasNoSpace(w: Spoken)
    ensures ' ' !in Spell(w)
  {
    hide OneWord, TenWord;
    if w.One? {
      OneWordHasNoSpace(w.n);
    } else if w.Ten? {
      TenWordHasNoSpace(w.n);
    }
  }

  /** The word of the vocabulary that is spelled `s`, if there is one. */
  ghost function ReadWord(s: string): (w: Option<Spoken>)
    ensures w.Some? ==> Spell(w.value) == s
  {
    if v: Spoken :| Spell(v) == s then Some(v) else None
  }

  lemma SpellReadBack(w: Spoken)
    ensures ReadWord(Spell(w)) == Some(w)
  {
    SpellInjective(w, ReadWord(Spell(w)).value);
  }

  /** A phrase is its words with single spaces between them. */
  function Say(words: seq<Spoken>): string {
    if |words| == 0 then ""
    else if |words| == 1 then Spell(words[0])
    else Spell(words[0]) + [' '] + Say(words[1..])
  }

  // ----- The printer -----

  function UnderHundredWords(value: nat): seq<Spoken>
    requires value < 100
  {
    if value >= 20 then [Ten(value / 10)] + (if value % 10 != 0 then [One(value % 10)] else [])
    else if value != 0 then [One(value)]
    else []
  }

  function UnderThousandWords(value: nat): seq<Spoken>
    requires value < 1000
  {
    (if value >= 100 then [One(value / 100), Hundred] else []) + UnderHundredWords(value % 100)
  }

  function Scaled(value: nat, unit: Spoken): seq<Spoken>
    requires value < 1000
  {
    if value != 0 then UnderThousandWords(value) + [unit] else []
  }

  function NumberWords(value: int): seq<Spoken>
    decreases value < 0, if value < 0 then -value else value
  {
    if value == 0 then [One(0)]
    else if value < 0 then [Minus] + NumberWords(-value)
    else
      (if value >= 10_000_000 then NumberWords(value / 10_000_000) + [Crore] else [])
      + UnderCroreWords(value % 10_000_000)
  }

  function UnderCroreWords(value: nat): seq<Spoken>
    requires value < 10_000_000
  {
    Scaled(value / 100_000, Lakh) + Scaled(value % 100_000 / 1000, Thousand)
    + UnderThousandWords(value % 100_000 % 1000)
  }

  /** Half-up rounding of an amount in rupees to whole paise (away from zero on a tie). */
  function ToPaise(value: real): int {
    if value >= 0.0 then (value * 100.0 + 0.5).Floor else -(-value * 100.0 + 0.5).Floor
  }

  /** The words of an amount without its sign. */
  function SizeWords(size: nat): seq<Spoken> {
    [Inr] + NumberWords(size / 100)
    + (if size % 100 != 0 then [And] + NumberWords(size % 100) + [Paise] else [])
    + [Only]
  }

  function AmountWords(value: real): seq<Spoken> {
    var amount := ToPaise(value);
    if amount < 0 then [Minus] + SizeWords(-amount) else SizeWords(amount)
  }

  lemma {:induction false} SayConcat(a: seq<Spoken>, b: seq<Spoken>)
    requires a != [] && b != []
    ensures Say(a + b) == Say(a) + [' '] + Say(b)
  {
    hide Spell;
    if |a| == 1 {
      assert (a + b)[1..] == b;
    } else {
      SayConcat(a[1..], b);
      assert (a + b)[1..] == a[1..] + b;
    }
  }

  /** The parts joined so far are a phrase; appending the words of one more part keeps that. */
  lemma SayAppended(parts: seq<string>, said: seq<Spoken>, part: string, words: seq<Spoken>)
    requires words != [] && part == Say(words)
    requires parts == [] <==> said == []
    requires Join(parts, ' ') == Say(said)
    ensures Join(parts + [part], ' ') == Say(said + words)
  {
    if parts == [] {
      assert parts + [part] == [part];
      assert said + words == words;
    } else {
      JoinConcat(parts, [part], ' ');
      SayConcat(said, words);
    }
  }

  lemma UnderThousandSplit(value: nat)
    requires value < 1000
    ensures UnderThousandWords(value)
         == (if value >= 100 then [One(value / 100), Hundred] else []) + UnderHundredWords(value % 100)
  {
  }

  lemma UnderHundredSplit(left: nat)
    requires left < 100
    ensures UnderHundredWords(left)
         == if left >= 20 then [Ten(left / 10)] + (if left % 10 != 0 then [One(left % 10)] else [])
            else if left != 0 then [One(left)] else []
  {
  }

  lemma SpellHundred()
    ensures Spell(Hundred) == "Hundred"
  {
  }

  method UnderThousand(value: nat) returns (words: string)
    requires value < 1000
    ensures words == Say(UnderThousandWords(value))
  {
    hide Say, OneWord, TenWord, Join, UnderThousandWords, UnderHundredWords, Spell;
    SayEmpty();
    var parts: seq<string> := [];
    ghost var said: seq<Spoken> := [];
    var left := value;
    if left >= 100 {
      SayWord(One(left / 100));
      SpellNumber(One(left / 100));
      SpellHundred();
      parts, said := AppendScaled(parts, said, OneWord(left / 100), [One(left / 100)], "Hundred", Hundred);
      left := left % 100;
    }
    ghost var head := said;
    UnderHundredSplit(left);
    if left >= 20 {
      SpellNumber(Ten(left / 10));
      parts, said := AppendWord(parts, said, TenWord(left / 10), Ten(left / 10));
      if left % 10 != 0 {
        SpellNumber(One(left % 10));
        parts, said := AppendWord(parts, said, OneWord(left % 10), One(left % 10));
      }
    } else if left != 0 {
      SpellNumber(One(left));
      parts, said := AppendWord(parts, said, OneWord(left), One(left));
    }
    assert left == value % 100 && said == head + UnderHundredWords(left);
    assert said == UnderThousandWords(value) by {
      UnderThousandSplit(value);
    }
    words := Join(parts, ' ');
  }

  /** The recursive printer: its words are read back as the number, whatever its size or sign. */
  method IntegerInIndianWords(value: int) returns (words: string)
    ensures words == Say(NumberWords(value))
    ensures ReadInteger(words) == Some(value)
    decreases value < 0, if value < 0 then -value else value
  {
    hide Say, Join, NumberWords, UnderThousandWords, UnderCroreWords, ReadInteger, OneWord;
    IntegerReadBack(value);
    NumberWordsNonEmpty(value);
    if value == 0 {
      SayZero();
      return OneWord(0);
    }
    if value < 0 {
      var positive := IntegerInIndianWords(-value);
      NumberWordsNegative(value);
      NumberWordsNonEmpty(-value);
      SayConcat([Minus], NumberWords(-value));
      SayWord(Minus);
      return "Minus" + [' '] + positive;
    }
    SayEmpty();
    var parts: seq<string> := [];
    ghost var said: seq<Spoken> := [];
    var crore, left := value / 10_000_000, value % 10_000_000;
    var lakh := left / 100_000;
    left := left % 100_000;
    var thousand := left / 1000;
    left := left % 1000;
    if crore != 0 {
      var nested := IntegerInIndianWords(crore);
      NumberWordsNonEmpty(crore);
      parts, said := AppendScaled(parts, said, nested, NumberWords(crore), "Crore", Crore);
    }
    ghost var crores := said;
    assert crores == if crore != 0 then NumberWords(crore) + [Crore] else [];
    if lakh != 0 {
      var spelled := UnderThousand(lakh);
      UnderThousandNonEmpty(lakh);
      parts, said := AppendScaled(parts, said, spelled, UnderThousandWords(lakh), "Lakh", Lakh);
    }
    assert said == crores + Scaled(lakh, Lakh);
    if thousand != 0 {
      var spelled := UnderThousand(thousand);
      UnderThousandNonEmpty(thousand);
      parts, said := AppendScaled(parts, said, spelled, UnderThousandWords(thousand), "Thousand", Thousand);
    }
    assert said == crores + Scaled(lakh, Lakh) + Scaled(thousand, Thousand);
    UnderThousandNonEmpty(left);
    if left != 0 {
      var spelled := UnderThousand(left);
      SayAppended(parts, said, spelled, UnderThousandWords(left));
      parts, said := parts + [spelled], said + UnderThousandWords(left);
    }
    NumberWordsAssembled(value);
    assert said == NumberWords(value);
    words := Join(parts, ' ');
  }

  lemma NumberWordsAssembled(value: nat)
    requires value > 0
    ensures NumberWords(value) ==
      (if value / 10_000_000 != 0 then NumberWords(value / 10_000_000) + [Crore] else [])
      + Scaled(value % 10_000_000 / 100_000, Lakh)
      + Scaled(value % 10_000_000 % 100_000 / 1000, Thousand)
      + UnderThousandWords(value % 10_000_000 % 100_000 % 1000)
  {
    hide NumberWords, Scaled, UnderThousandWords;
    NumberWordsPositive(value);
  }

  lemma SayEmpty()
    ensures Say([]) == "" == Join([], ' ')
  {
  }

  lemma SayWord(w: Spoken)
    ensures Say([w]) == Spell(w)
  {
  }

  lemma SayZero()
    ensures Say(NumberWords(0)) == OneWord(0)
  {
    SayWord(One(0));
  }

  lemma UnderThousandNonEmpty(value: nat)
    requires value < 1000
    ensures UnderThousandWords(value) == [] <==> value == 0
  {
  }

  /** Append one word to the list of parts. */
  method AppendWord(parts: seq<string>, ghost said: seq<Spoken>, part: string, ghost word: Spoken)
    returns (parts': seq<string>, ghost said': seq<Spoken>)
    requires part == Spell(word)
    requires parts == [] <==> said == []
    requires Join(parts, ' ') == Say(said)
    ensures parts' == parts + [part] && said' == said + [word]
    ensures Join(parts', ' ') == Say(said')
  {
    hide Spell, Join;
    SayWord(word);
    SayAppended(parts, said, part, [word]);
    parts', said' := parts + [part], said + [word];
  }

  /** Append a counted unit, such as "Twelve" and "Lakh", to the list of parts. */
  method AppendScaled(parts: seq<string>, ghost said: seq<Spoken>, count: string,
                      ghost words: seq<Spoken>, unit: string, ghost unitWord: Spoken)
    returns (parts': seq<string>, ghost said': seq<Spoken>)
    requires words != [] && count == Say(words) && unit == Spell(unitWord)
    requires parts == [] <==> said == []
    requires Join(parts, ' ') == Say(said)
    ensures parts' == parts + [count, unit] && said' == said + words + [unitWord]
    ensures Join(parts', ' ') == Say(said')
  {
    hide Spell, Join;
    SayAppended(parts, said, count, words);
    SayWord(unitWord);
    SayAppended(parts + [count], said + words, unit, [unitWord]);
    parts', said' := parts + [count, unit], said + words + [unitWord];
    assert parts' == parts + [count] + [unit];
  }

  lemma NumberWordsNonEmpty(value: int)
    ensures NumberWords(value) != []
  {
  }

  function AmountInWords(value: real): string {
    Say(AmountWords(value))
  }

  // ----- The reader: it knows nothing of how the words were produced -----

  datatype Reading = Reading(
    negative: bool,
    rupees: nat,   // a finished rupee part ("and" or "Only" heard)
    total: nat,    // what a unit word has already scaled
    current: nat,  // number words since the last unit word
    paise: nat)

  const SILENCE := Reading(false, 0, 0, 0, 0)

  function Hear(r: Reading, word: Spoken): Reading {
    match word
    case One(k) => r.(current := r.current + k)
    case Ten(k) => r.(current := r.current + 10 * k)
    case Hundred => r.(current := r.current * 100)
    case Thousand => r.(total := r.total + r.current * 1000, current := 0)
    case Lakh => r.(total := r.total + r.current * 100_000, current := 0)
    case Crore => r.(total := (r.total + r.current) * 10_000_000, current := 0)
    case Minus => r.(negative := true)
    case Inr => r
    case And => r.(rupees := r.total + r.current, total := 0, current := 0)
    case Paise => r.(paise := r.total + r.current, total := 0, current := 0)
    case Only => r.(rupees := r.rupees + r.total + r.current, total := 0, current := 0)
  }

  function HearAll(r: Reading, words: seq<Spoken>): Reading
    decreases |words|
  {
    if words == [] then r else HearAll(Hear(r, words[0]), words[1..])
  }

  ghost function ReadWords(tokens: seq<string>): (words: Option<seq<Spoken>>) {
    if tokens == [] then Some([])
    else
      var w :- ReadWord(tokens[0]);
      var rest :- ReadWords(tokens[1..]);
      Some([w] + rest)
  }

  ghost function ReadInteger(s: string): Option<int> {
    var words :- ReadWords(Split(s, ' '));
    var r := HearAll(SILENCE, words);
    Some(if r.negative then -(r.total + r.current) else r.total + r.current)
  }

  /** The amount read, in paise. */
  ghost function ReadAmount(s: string): Option<int> {
    var words :- ReadWords(Split(s, ' '));
    var r := HearAll(SILENCE, words);
    Some(if r.negative then -(100 * r.rupees + r.paise) else 100 * r.rupees + r.paise)
  }

  // ----- Reading back -----

  lemma ReadWordsCons(token: string, w: Spoken, tokens: seq<string>, words: seq<Spoken>)
    requires ReadWord(token) == Some(w) && ReadWords(tokens) == Some(words)
    ensures ReadWords([token] + tokens) == Some([w] + words)
  {
    assert ([token] + tokens)[1..] == tokens;
  }

  lemma {:induction false} SayReadBack(words: seq<Spoken>)
    requires words != []
    ensures ReadWords(Split(Say(words), ' ')) == Some(words)
  {
    var token, rest := Spell(words[0]), words[1..];
    SpellReadBack(words[0]);
    SpellHasNoSpace(words[0]);
    SplitAtom(token, ' ');
    assert words == [words[0]] + rest;
    if rest == [] {
      ReadWordsCons(token, words[0], [], []);
      assert [token] + [] == [token];
    } else {
      SayReadBack(rest);
      SplitConcat(token, Say(rest), ' ');
      ReadWordsCons(token, words[0], Split(Say(rest), ' '), rest);
    }
  }

  lemma {:induction false} HearConcat(r: Reading, a: seq<Spoken>, b: seq<Spoken>)
    ensures HearAll(r, a + b) == HearAll(HearAll(r, a), b)
    decreases |a|
  {
    if a == [] {
      assert a + b == b;
    } else {
      assert (a + b)[1..] == a[1..] + b;
      HearConcat(Hear(r, a[0]), a[1..], b);
    }
  }

  lemma HearOne(r: Reading, word: Spoken)
    ensures HearAll(r, [word]) == Hear(r, word)
  {
    assert [word][1..] == [];
  }

  lemma HearTwo(r: Reading, a: Spoken, b: Spoken)
    ensures HearAll(r, [a, b]) == Hear(Hear(r, a), b)
  {
    assert [a, b] == [a] + [b];
    HearConcat(r, [a], [b]);
    HearOne(r, a);
    HearOne(Hear(r, a), b);
  }

  lemma UnderHundredHeard(r: Reading, value: nat)
    requires value < 100
    ensures HearAll(r, UnderHundredWords(value)) == r.(current := r.current + value)
  {
    if value >= 20 && value % 10 != 0 {
      assert UnderHundredWords(value) == [Ten(value / 10), One(value % 10)];
      HearTwo(r, Ten(value / 10), One(value % 10));
    } else if value >= 20 {
      assert UnderHundredWords(value) == [Ten(value / 10)];
      HearOne(r, Ten(value / 10));
    } else if value != 0 {
      HearOne(r, One(value));
    }
  }

  lemma UnderThousandHeard(r: Reading, value: nat)
    requires r.current == 0 && value < 1000
    ensures HearAll(r, UnderThousandWords(value)) == r.(current := value)
  {
    var h, rest := value / 100, value % 100;
    UnderHundredHeard(r.(current := 100 * h), rest);
    if h == 0 {
      assert UnderThousandWords(value) == UnderHundredWords(rest);
    } else {
      HearTwo(r, One(h), Hundred);
      HearConcat(r, [One(h), Hundred], UnderHundredWords(rest));
    }
  }

  lemma ScaledHeard(r: Reading, value: nat, unit: Spoken)
    requires r.current == 0 && value < 1000
    requires unit == Lakh || unit == Thousand
    ensures HearAll(r, Scaled(value, unit))
         == r.(total := r.total + value * (if unit == Lakh then 100_000 else 1000))
  {
    if value != 0 {
      UnderThousandHeard(r, value);
      HearConcat(r, UnderThousandWords(value), [unit]);
      HearOne(r.(current := value), unit);
    }
  }

  lemma UnderCroreHeard(r: Reading, value: nat)
    requires r.current == 0 && value < 10_000_000
    ensures HearAll(r, UnderCroreWords(value))
         == r.(total := r.total + value / 1000 * 1000, current := value % 1000)
  {
    hide UnderThousandWords, Scaled, HearAll, Hear;
    var lakh, thousand, rest := value / 100_000, value % 100_000 / 1000, value % 100_000 % 1000;
    var a, b := Scaled(lakh, Lakh), Scaled(thousand, Thousand);
    var r1 := r.(total := r.total + lakh * 100_000);
    var r2 := r.(total := r1.total + thousand * 1000);
    ScaledHeard(r, lakh, Lakh);
    ScaledHeard(r1, thousand, Thousand);
    UnderThousandHeard(r2, rest);
    HearConcat(r, a, b);
    HearConcat(r, a + b, UnderThousandWords(rest));
    assert UnderCroreWords(value) == a + b + UnderThousandWords(rest);
    UnderCroreSplit(value);
  }

  lemma ThousandsUnique(value: nat, q: nat, r: nat)
    requires value == 1000 * q + r && r < 1000
    ensures value / 1000 == q && value % 1000 == r
  {
  }

  lemma UnderCroreSplit(value: nat)
    ensures value / 100_000 * 100_000 + value % 100_000 / 1000 * 1000 == value / 1000 * 1000
    ensures value % 100_000 % 1000 == value % 1000
  {
    var lakh, left := value / 100_000, value % 100_000;
    var thousand, rest := left / 1000, left % 1000;
    assert value == 100_000 * lakh + left && left == 1000 * thousand + rest;
    ThousandsUnique(value, 100 * lakh + thousand, rest);
  }

  lemma CroreSplit(value: nat)
    ensures var crores, rest := value / 10_000_000, value % 10_000_000;
      && crores * 10_000_000 + rest / 1000 * 1000 == value / 1000 * 1000
      && rest % 1000 == value % 1000
  {
  }

  lemma NumberWordsPositive(value: nat)
    requires value > 0
    ensures NumberWords(value) ==
      (if value >= 10_000_000 then NumberWords(value / 10_000_000) + [Crore] else [])
      + UnderCroreWords(value % 10_000_000)
  {
    hide UnderCroreWords;
  }

  lemma HearCrore(r: Reading)
    ensures HearAll(r, [Crore]) == r.(total := (r.total + r.current) * 10_000_000, current := 0)
  {
    HearOne(r, Crore);
  }

  /** Nested crores included: all that was heard before the last "Crore" is scaled by it. */
  lemma {:induction false} NumberHeard(r: Reading, value: nat)
    requires r.total == r.current == 0
    ensures HearAll(r, NumberWords(value))
         == r.(total := value / 1000 * 1000, current := value % 1000)
    decreases value
  {
    hide UnderCroreWords, HearAll, NumberWords, Hear;
    if value == 0 {
      ZeroHeard(r);
    } else {
      var crores, rest := value / 10_000_000, value % 10_000_000;
      var words := UnderCroreWords(rest);
      NumberWordsPositive(value);
      CroreSplit(value);
      if value < 10_000_000 {
        assert NumberWords(value) == words;
        UnderCroreHeard(r, rest);
      } else {
        NumberHeard(r, crores);
        var counted := r.(total := crores / 1000 * 1000, current := crores % 1000);
        HearConcat(r, NumberWords(crores), [Crore]);
        HearCrore(counted);
        HearConcat(r, NumberWords(crores) + [Crore], words);
        UnderCroreHeard(r.(total := crores * 10_000_000), rest);
      }
    }
  }

  lemma ZeroHeard(r: Reading)
    ensures HearAll(r, NumberWords(0)) == r
  {
    HearOne(r, One(0));
  }

  lemma NumberWordsNegative(value: int)
    requires value < 0
    ensures NumberWords(value) == [Minus] + NumberWords(-value)
  {
  }

  lemma IntegerReadBack(value: int)
    ensures ReadInteger(Say(NumberWords(value))) == Some(value)
  {
    hide NumberWords, HearAll, Say, ReadWords;
    NumberWordsNonEmpty(value);
    SayReadBack(NumberWords(value));
    if value < 0 {
      NumberWordsNegative(value);
      HearConcat(SILENCE, [Minus], NumberWords(-value));
      HearOne(SILENCE, Minus);
      NumberHeard(SILENCE.(negative := true), -value);
    } else {
      NumberHeard(SILENCE, value);
    }
  }

  lemma RupeesHeard(r: Reading, rupees: nat)
    requires r.total == r.current == 0
    ensures HearAll(r, [Inr] + NumberWords(rupees))
         == r.(total := rupees / 1000 * 1000, current := rupees % 1000)
  {
    HearConcat(r, [Inr], NumberWords(rupees));
    HearOne(r, Inr);
    NumberHeard(r, rupees);
  }

  lemma PaiseHeard(r: Reading, paise: nat)
    ensures HearAll(r, [And] + NumberWords(paise) + [Paise])
         == r.(rupees := r.total + r.current, total := 0, current := 0, paise := paise)
  {
    hide NumberWords, HearAll;
    var heard := Hear(r, And);
    HearOne(r, And);
    HearConcat(r, [And], NumberWords(paise));
    NumberHeard(heard, paise);
    HearConcat(r, [And] + NumberWords(paise), [Paise]);
    HearOne(heard.(total := paise / 1000 * 1000, current := paise % 1000), Paise);
  }

  lemma AmountWordsNonEmpty(value: real)
    ensures AmountWords(value) != []
  {
    hide ToPaise, NumberWords;
  }

  lemma AmountHeard(value: real)
    ensures var r, amount := HearAll(SILENCE, AmountWords(value)), ToPaise(value);
      r.negative == (amount < 0) && 100 * r.rupees + r.paise == if amount < 0 then -amount else amount
  {
    hide ToPaise, HearAll, SizeWords;
    var amount := ToPaise(value);
    if amount < 0 {
      HearOne(SILENCE, Minus);
      HearConcat(SILENCE, [Minus], SizeWords(-amount));
      SizeIsHeard(SILENCE.(negative := true), -amount);
    } else {
      SizeIsHeard(SILENCE, amount);
    }
  }

  lemma SizeIsHeard(r: Reading, size: nat)
    requires r.total == r.current == r.rupees == r.paise == 0
    ensures var heard := HearAll(r, SizeWords(size));
      heard.negative == r.negative && 100 * heard.rupees + heard.paise == size
  {
    hide NumberWords, HearAll;
    var rupees, small := size / 100, size % 100;
    var start := [Inr] + NumberWords(rupees);
    RupeesHeard(r, rupees);
    var r1 := r.(total := rupees / 1000 * 1000, current := rupees % 1000);
    if small == 0 {
      assert SizeWords(size) == start + [Only];
      HearConcat(r, start, [Only]);
      HearOne(r1, Only);
    } else {
      var tail := [And] + NumberWords(small) + [Paise];
      var r2 := r1.(rupees := rupees, total := 0, current := 0, paise := small);
      PaiseHeard(r1, small);
      HearConcat(r, start, tail);
      HearConcat(r, start + tail, [Only]);
      HearOne(r2, Only);
      assert SizeWords(size) == start + tail + [Only];
    }
  }

  /** The words of an amount are read back as the amount, rounded half up to paise. */
  lemma AmountReadBack(value: real)
    ensures ReadAmount(AmountInWords(value)) == Some(ToPaise(value))
  {
    hide AmountWords, ToPaise, Say, HearAll, ReadWords;
    AmountHeard(value);
    AmountWordsNonEmpty(value);
    SayReadBack(AmountWords(value));
  }

  /** Two amounts are written alike exactly when they are the same number of paise. */
  lemma AmountInWordsInjective(a: real, b: real)
    ensures AmountInWords(a) == AmountInWords(b) <==> ToPaise(a) == ToPaise(b)
  {
    hide ReadAmount, ToPaise;
    AmountReadBack(a);
    AmountReadBack(b);
  }

  /** `ToPaise` rounds to the nearest paise, ties away from zero. */
  lemma ToPaiseNearest(value: real, paise: int)
    ensures ToPaise(value) == paise <==>
      if value >= 0.0
      then paise as real - 0.5 <= value * 100.0 < paise as real + 0.5
      else paise as real - 0.5 < value * 100.0 <= paise as real + 0.5
  {
  }
}
