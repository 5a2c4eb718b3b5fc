/** Texts split at a separator and joined again, as the cursors are written and read. */
module Text {

  /** The parts between the separators: always one more part than separators. */
  function Split(text: string, separator: char): (parts: seq<string>)
    ensures |parts| >= 1
    ensures forall i :: 0 <= i < |parts| ==> separator !in parts[i]
  {
    if text == [] then [""]
    else if text[0] == separator then [""] + Split(text[1..], separator)
    else
      var rest := Split(text[1..], separator);
      [[text[0]] + rest[0]] + rest[1..]
  }

  function Join(parts: seq<string>, separator: char): string
    requires |parts| >= 1
  {
    if |parts| == 1 then parts[0] else parts[0] + [separator] + Join(parts[1..], separator)
  }

  lemma {:induction false} SplitPart(part: string, separator: char, rest: string)
    requires separator !in part
    ensures Split(part, separator) == [part]
    ensures Split(part + [separator] + rest, separator) == [part] + Split(rest, separator)
    decreases |part|
  {
    if part != [] {
      SplitPart(part[1..], separator, rest);
      assert part == [part[0]] + part[1..];
      assert (part + [separator] + rest)[1..] == part[1..] + [separator] + rest;
    }
  }

  /** Parts that hold no separator are read back as they were written. */
  lemma {:induction false} SplitOfJoin(parts: seq<string>, separator: char)
    requires |parts| >= 1
    requires forall i :: 0 <= i < |parts| ==> separator !in parts[i]
    ensures Split(Join(parts, separator), separator) == parts
    decreases |parts|
  {
    if |parts| == 1 {
      SplitPart(parts[0], separator, "");
    } else {
      SplitPart(parts[0], separator, Join(parts[1..], separator));
      SplitOfJoin(parts[1..], separator);
    }
  }

  /** A text is its parts joined: nothing of it is lost by splitting it. */
  lemma {:induction false} JoinOfSplit(text: string, separator: char)
    ensures Join(Split(text, separator), separator) == text
    decreases |text|
  {
    if text != [] {
      JoinOfSplit(text[1..], separator);
      var rest := Split(text[1..], separator);
      if text[0] == separator {
        assert ([""] + rest)[1..] == rest;
      } else {
        var parts := [[text[0]] + rest[0]] + rest[1..];
        assert parts[1..] == rest[1..];
      }
    }
  }
}

/** Unsigned 64-bit numbers as Rust prints and parses them. */
module Numerals {
  import opened Basics
  import opened Wrappers

  const DIGITS: string := "0123456789abcdef"

  datatype Base = Decimal | Hexadecimal {

    function Size(): nat { if Decimal? then 10 else 16 }

    /** `v` with one more digit `d`. */
    function Append(v: nat, d: nat): nat { if Decimal? then 10 * v + d else 16 * v + d }

    function Low(n: nat): (d: nat)
      ensures d < Size()
    {
      if Decimal? then n % 10 else n % 16
    }

    function High(n: nat): (h: nat)
      ensures Append(h, Low(n)) == n
      ensures n >= Size() ==> h < n
    {
      if Decimal? then n / 10 else n / 16
    }
  }

  /** A digit as it is parsed: either case of a letter. */
  function DigitValue(c: char): Option<nat> {
    if '0' <= c <= '9' then Some((c - '0') as nat)
    else if 'a' <= c <= 'f' then Some((c - 'a') as nat + 10)
    else if 'A' <= c <= 'F' then Some((c - 'A') as nat + 10)
    else None
  }

  function Digit(d: nat): (c: char)
    requires d < 16
    ensures DigitValue(c) == Some(d)
    ensures c != '.' && c != '+'
  {
    DIGITS[d]
  }

  /** The number without leading zeros. */
  function Print(n: nat, base: Base): (text: string)
    ensures |text| >= 1 && '.' !in text && '+' !in text
    decreases n
  {
    if n < base.Size() then [Digit(n)] else Print(base.High(n), base) + [Digit(base.Low(n))]
  }

  /** The value of a text of digits; `None` when one is not a digit of the base. */
  function Value(text: string, base: Base): Option<nat> {
    if text == [] then Some(0) else
    match (Value(text[..|text| - 1], base), DigitValue(text[|text| - 1]))
    case (Some(v), Some(d)) => if d < base.Size() then Some(base.Append(v, d)) else None
    case _ => None
  }

  /** `u64::from_str_radix`: an optional `+`, at least one digit, and no overflow. */
  function Parse(text: string, base: Base): (n: Option<nat>)
    ensures n.Some? ==> n.value <= U64_MAX
  {
    var digits := if text != [] && text[0] == '+' then text[1..] else text;
    if digits == [] then None else
    match Value(digits, base)
    case Some(v) => if v <= U64_MAX then Some(v) else None
    case None => None
  }

  lemma ValueWithDigit(text: string, v: nat, d: nat, base: Base)
    requires Value(text, base) == Some(v) && d < base.Size()
    ensures Value(text + [Digit(d)], base) == Some(base.Append(v, d))
  {
    assert (text + [Digit(d)])[..|text|] == text;
  }

  lemma ValueOfDigit(d: nat, base: Base)
    requires d < base.Size()
    ensures Value([Digit(d)], base) == Some(d)
  {
    assert [Digit(d)][..0] == [];
  }

  lemma {:induction false} ValueOfPrint(n: nat, base: Base)
    ensures Value(Print(n, base), base) == Some(n)
    decreases n
  {
    if n < base.Size() {
      ValueOfDigit(n, base);
    } else {
      var high, low := base.High(n), base.Low(n);
      ValueOfPrint(high, base);
      ValueWithDigit(Print(high, base), high, low, base);
    }
  }

  lemma {:induction false} PrintStartsWithDigit(n: nat, base: Base)
    ensures DigitValue(Print(n, base)[0]).Some?
    decreases n
  {
    if n >= base.Size() {
      PrintStartsWithDigit(base.High(n), base);
    }
  }

  /** Parsing a printed number gives it back. */
  lemma ParseOfPrint(n: nat, base: Base)
    requires n <= U64_MAX
    ensures Parse(Print(n, base), base) == Some(n)
    ensures Parse("+" + Print(n, base), base) == Some(n)
  {
    ValueOfPrint(n, base);
    assert ("+" + Print(n, base))[1..] == Print(n, base);
  }

  /** Zero-padded to `width`. */
  function Pad(text: string, width: nat): (padded: string)
    ensures |padded| >= |text| && |padded| >= width
    ensures '.' !in text ==> '.' !in padded
    ensures '+' !in text ==> '+' !in padded
    decreases width - |text|
  {
    if |text| >= width then text else Pad("0" + text, width)
  }

  lemma {:induction false} ValueOfZeros(text: string, base: Base)
    requires Value(text, base).Some? && text != []
    ensures Value("0" + text, base) == Value(text, base)
    decreases |text|
  {
    var longer := "0" + text;
    assert longer[..|longer| - 1] == "0" + text[..|text| - 1];
    if |text| == 1 {
      assert text[..0] == [] && longer[..1] == "0";
      assert Value("0", base) == Some(0) by {
        assert "0"[..0] == [];
      }
    } else {
      ValueOfZeros(text[..|text| - 1], base);
    }
  }

  lemma {:induction false} ParseOfPadded(text: string, width: nat, base: Base)
    requires text != [] && text[0] != '+' && Parse(text, base).Some?
    ensures Parse(Pad(text, width), base) == Parse(text, base)
    decreases width - |text|
  {
    if |text| < width {
      ValueOfZeros(text, base);
      ParseOfPadded("0" + text, width, base);
    }
  }
}
