/** The `Name-Amount` lines typed at the production prompt, and the card they
    build. Reading the lines is left to the caller: each line arrives here
    already trimmed. */
module Entries {
  import opened Comodities
  import opened Productions

  /** How many times `d` occurs in `s`. */
  function Occurrences(s: string, d: char): (n: nat)
    ensures n <= |s|
    ensures n == 0 <==> d !in s
    decreases |s|
  {
    if s == [] then 0 else (if s[0] == d then 1 else 0) + Occurrences(s[1..], d)
  }

  /** The pieces put back together with `d` between them. */
  function Join(parts: seq<string>, d: char): string
    requires |parts| >= 1
    decreases |parts|
  {
    if |parts| == 1 then parts[0] else parts[0] + [d] + Join(parts[1..], d)
  }

  /** `s.split(d)` collected into a vector: the pieces between the separators,
      empty pieces included. */
  function Split(s: string, d: char): (parts: seq<string>)
    ensures |parts| == Occurrences(s, d) + 1
    ensures forall i :: 0 <= i < |parts| ==> d !in parts[i]
    ensures Join(parts, d) == s
    decreases |s|
  {
    if s == [] then [[]]
    else
      var rest := Split(s[1..], d);
      if s[0] == d then [[]] + rest
      else [[s[0]] + rest[0]] + rest[1..]
  }

  lemma {:induction false} SplitWithout(s: string, d: char)
    requires d !in s
    ensures Split(s, d) == [s]
    decreases |s|
  {
    if s != [] {
      SplitWithout(s[1..], d);
    }
  }

  /** A string with exactly one separator splits into what lies on either side. */
  lemma {:induction false} SplitAround(a: string, b: string, d: char)
    requires d !in a && d !in b
    ensures Split(a + [d] + b, d) == [a, b]
    decreases |a|
  {
    var s := a + [d] + b;
    if a == [] {
      assert s[0] == d && s[1..] == b;
      SplitWithout(b, d);
    } else {
      assert s[0] == a[0] && s[1..] == a[1..] + [d] + b;
      SplitAround(a[1..], b, d);
      assert [a[0]] + a[1..] == a;
    }
  }

  predicate IsDigit(ch: char) { '0' <= ch <= '9' }

  predicate AllDigits(s: string) { forall i :: 0 <= i < |s| ==> IsDigit(s[i]) }

  /** The value of a string of decimal digits, most significant first. */
  function ValueOf(s: string): nat
    requires AllDigits(s)
    decreases |s|
  {
    if s == [] then 0 else ValueOf(s[..|s| - 1]) * 10 + (s[|s| - 1] as int - '0' as int)
  }

  /** `str::parse::<u32>`, read as: one or more decimal digits whose value
      fits in `u32`. */
  function ParseU32(s: string): (r: Option<U32>)
    ensures s == [] ==> r.None?
    ensures r.Some? ==> '-' !in s
  {
    if |s| > 0 && AllDigits(s) && ValueOf(s) < U32_BOUND then Some(ValueOf(s)) else None
  }

  function DigitChar(n: nat): (ch: char)
    requires n < 10
    ensures IsDigit(ch) && ch as int - '0' as int == n
  {
    ('0' as int + n) as char
  }

  /** The decimal rendering `{}` of a number. */
  function Decimal(n: nat): (s: string)
    ensures |s| > 0 && AllDigits(s)
    decreases n
  {
    if n < 10 then [DigitChar(n)] else Decimal(n / 10) + [DigitChar(n % 10)]
  }

  lemma {:induction false} DecimalValue(n: nat)
    ensures ValueOf(Decimal(n)) == n
    decreases n
  {
    if n >= 10 {
      var s := Decimal(n);
      assert s[..|s| - 1] == Decimal(n / 10);
      DecimalValue(n / 10);
    }
  }

  /** Parsing the rendering of a `u32` gives the number back. */
  lemma ParseDecimal(n: U32)
    ensures ParseU32(Decimal(n)) == Some(n)
  {
    DecimalValue(n);
  }

  lemma NameWithoutDash(c: Comodity)
    ensures '-' !in Name(c)
  {
  }

  /** Why a line was turned away; each case has its own message. */
  datatype EntryError = NotAComodity(name: string) | NotANumber(text: string) | BadFormat

  /** What one line at the production prompt does. */
  datatype Entry = Done | Accept(production: Production) | Reject(error: EntryError)

  /** The decision made for one line: `done` ends the prompt; otherwise the line
      must split on `-` into a table name and a `u32`. */
  function ParseEntry(input: string): (r: Entry)
    ensures r.Done? <==> input == "done"
    ensures r == Reject(BadFormat) <==> input != "done" && Occurrences(input, '-') != 1
    ensures r.Reject? && r.error.NotAComodity? ==>
              r.error.name == Split(input, '-')[0] && FromName(r.error.name).None?
    ensures r.Reject? && r.error.NotANumber? ==>
              |Split(input, '-')| == 2 && r.error.text == Split(input, '-')[1] &&
              FromName(Split(input, '-')[0]).Some? && ParseU32(r.error.text).None?
  {
    if input == "done" then Done
    else
      var parts := Split(input, '-');
      if |parts| == 2 then
        match FromName(parts[0])
        case Some(value) =>
          (match ParseU32(parts[1])
           case Some(amount) => Accept(Production(value, amount))
           case None => Reject(NotANumber(parts[1])))
        case None => Reject(NotAComodity(parts[0]))
      else Reject(BadFormat)
  }

  /** Every line of the form `<table name>-<u32>` is accepted as that entry. */
  lemma ParseEntryComplete(c: Comodity, s: string)
    requires ParseU32(s).Some?
    ensures ParseEntry(Name(c) + "-" + s) == Accept(Production(c, ParseU32(s).value))
  {
    NameWithoutDash(c);
    SplitAround(Name(c), s, '-');
    FromNameOfName(c);
    assert Name(c) + "-" + s != "done" by {
      assert (Name(c) + "-" + s)[|Name(c)|] == '-';
    }
  }

  /** Every accepted line has the form `<table name>-<u32>`. */
  lemma ParseEntrySound(input: string)
    requires ParseEntry(input).Accept?
    ensures var p := ParseEntry(input).production;
            exists s :: input == Name(p.kind) + "-" + s && '-' !in s && ParseU32(s) == Some(p.amount)
  {
    var parts := Split(input, '-');
    var p := ParseEntry(input).production;
    FromNameSound(parts[0]);
    assert Join(parts, '-') == parts[0] + "-" + parts[1];
    assert input == Name(p.kind) + "-" + parts[1];
  }

  /** The `Name-Amount` rendering used when the entries are echoed parses back
      to the same entry. */
  lemma ParseEntryRoundTrip(c: Comodity, n: U32)
    ensures ParseEntry(Name(c) + "-" + Decimal(n)) == Accept(Production(c, n))
  {
    ParseDecimal(n);
    ParseEntryComplete(c, Decimal(n));
  }

  /** The prompt loop from a given list of entries onward: accepted entries are
      pushed onto `produced`, rejected ones skipped, and `done` stops. */
  function Collect(produced: seq<Production>, lines: seq<string>): (r: seq<Production>)
    ensures produced <= r && |r| <= |produced| + |lines|
    decreases |lines|
  {
    if lines == [] then produced
    else match ParseEntry(lines[0])
      case Done => produced
      case Accept(p) => Collect(produced + [p], lines[1..])
      case Reject(_) => Collect(produced, lines[1..])
  }

  /** `player_produce_comodities`, fed with the lines typed at its prompt. */
  function PlayerProduceComodities(lines: seq<string>): (card: ProductionCard)
    ensures card.inflate == []
  {
    ProductionCard(Collect([], lines), [])
  }

  /** Lines before any `done` are processed one after another. */
  lemma {:induction false} CollectThrough(produced: seq<Production>, lines: seq<string>, rest: seq<string>)
    requires "done" !in lines
    ensures Collect(produced, lines + rest) == Collect(Collect(produced, lines), rest)
    decreases |lines|
  {
    if lines == [] {
      assert lines + rest == rest;
    } else {
      assert (lines + rest)[0] == lines[0] && (lines + rest)[1..] == lines[1..] + rest;
      assert lines[0] != "done";
      match ParseEntry(lines[0])
      case Accept(p) => CollectThrough(produced + [p], lines[1..], rest);
      case Reject(_) => CollectThrough(produced, lines[1..], rest);
    }
  }

  /** What one more line adds to the card, before any `done`: its entry at the
      end of `produce` when accepted, nothing otherwise. */
  lemma CollectLine(lines: seq<string>, line: string)
    requires "done" !in lines
    ensures var before := PlayerProduceComodities(lines).produce;
            PlayerProduceComodities(lines + [line]).produce ==
              if ParseEntry(line).Accept? then before + [ParseEntry(line).production] else before
  {
    CollectThrough([], lines, [line]);
  }

  /** Everything typed after `done` is never read. */
  lemma CollectStopsAtDone(lines: seq<string>, rest: seq<string>)
    requires "done" !in lines
    ensures PlayerProduceComodities(lines + ["done"] + rest) == PlayerProduceComodities(lines)
  {
    assert lines + ["done"] + rest == lines + (["done"] + rest);
    CollectThrough([], lines, ["done"] + rest);
  }
}
