/**
 * The strength exercise: objects of three kinds (a plain Foobar, a Foo and
 * a Bar) are read as (type, name) word pairs, numbered from the back
 * starting at 1, and reported from last to first with a strength computed
 * from their position.
 */
module Strength {

  /** The dynamic type of an object: the base class or one of its two subclasses. */
  datatype Variant = Plain | Foo | Bar

  /**
   * Strength of an object of kind `variant` at `position`: the base class
   * reports the position, a Foo three times that, a Bar that plus 15.
   */
  function StrengthOf(variant: Variant, position: int): (s: int)
    ensures variant == Plain ==> s == position
    ensures variant == Foo ==> s == 3 * position
    ensures variant == Bar ==> s == position + 15
  {
    match variant
    case Plain => position
    case Foo => position * 3
    case Bar => position + 15
  }

  class Foobar {
    const name: string
    const variant: Variant
    var position: int

    /** A new object has the given name and position 0. */
    constructor (name: string, variant: Variant)
      ensures this.name == name && this.variant == variant && position == 0
    {
      this.name := name;
      this.variant := variant;
      position := 0;
    }

    /** Overwrites the position; name and kind are constant. */
    method SetPosition(pos: int)
      modifies this
      ensures position == pos
    {
      position := pos;
    }

    /** The overridden strength, dispatched on the object's kind. */
    function GetStrength(): int
      reads this
    {
      StrengthOf(variant, position)
    }
  }

  /** The type word selects the class: "foo" a Foo, "bar" a Bar, anything else the base class. */
  function VariantOf(typeWord: string): (v: Variant)
    ensures v == Foo <==> typeWord == "foo"
    ensures v == Bar <==> typeWord == "bar"
    ensures v == Plain <==> typeWord != "foo" && typeWord != "bar"
  {
    if typeWord == "foo" then Foo
    else if typeWord == "bar" then Bar
    else Plain
  }

  /**
   * Builds one fresh object per (type, name) word pair, in input order; a
   * trailing type word without a name is dropped, as the pairwise read stops.
   */
  method ReadInputFile(words: seq<string>) returns (foobars: seq<Foobar>)
    ensures |foobars| == |words| / 2
    ensures forall i :: 0 <= i < |foobars| ==> fresh(foobars[i])
    ensures forall i, j :: 0 <= i < j < |foobars| ==> foobars[i] != foobars[j]
    ensures forall i :: 0 <= i < |foobars| ==>
      foobars[i].name == words[2 * i + 1] &&
      foobars[i].variant == VariantOf(words[2 * i]) &&
      foobars[i].position == 0
  {
    foobars := [];
    var i := 0;
    while i + 1 < |words|
      invariant i == 2 * |foobars| <= |words|
      invariant forall k :: 0 <= k < |foobars| ==> fresh(foobars[k])
      invariant forall k, j :: 0 <= k < j < |foobars| ==> foobars[k] != foobars[j]
      invariant forall k :: 0 <= k < |foobars| ==>
        foobars[k].name == words[2 * k + 1] &&
        foobars[k].variant == VariantOf(words[2 * k]) &&
        foobars[k].position == 0
    {
      var f := new Foobar(words[i + 1], VariantOf(words[i]));
      foobars := foobars + [f];
      i := i + 2;
    }
  }

  /**
   * Numbers the objects from the back: the last gets 1, the first gets n,
   * so the object at index i gets n - i. The objects must be distinct, as
   * ReadInputFile makes them.
   */
  method AssignPositions(foobars: seq<Foobar>)
    requires forall i, j :: 0 <= i < j < |foobars| ==> foobars[i] != foobars[j]
    modifies foobars
    ensures forall i :: 0 <= i < |foobars| ==> foobars[i].position == |foobars| - i
    ensures forall i :: 0 <= i < |foobars| ==> 1 <= foobars[i].position <= |foobars|
    ensures forall i, j :: 0 <= i < j < |foobars| ==> foobars[i].position != foobars[j].position
  {
    var i, pos := |foobars| - 1, 1;
    while i >= 0
      invariant -1 <= i < |foobars|
      invariant pos == |foobars| - i
      invariant forall k :: i < k < |foobars| ==> foobars[k].position == |foobars| - k
    {
      foobars[i].SetPosition(pos);
      i, pos := i - 1, pos + 1;
    }
  }

  /** One output line: the name, the literal " strength: ", and the strength in decimal. */
  function FormatLine(name: string, strength: int): string
  {
    name + " strength: " + IntToDecimal(strength)
  }

  /** The report, from the last object to the first. */
  method WriteOutputFile(foobars: seq<Foobar>) returns (lines: seq<string>)
    ensures |lines| == |foobars|
    ensures forall k :: 0 <= k < |lines| ==>
      lines[k] == FormatLine(foobars[|foobars| - 1 - k].name, foobars[|foobars| - 1 - k].GetStrength())
  {
    lines := [];
    var i := |foobars| - 1;
    while i >= 0
      invariant -1 <= i < |foobars|
      invariant |lines| == |foobars| - 1 - i
      invariant forall k :: 0 <= k < |lines| ==>
        lines[k] == FormatLine(foobars[|foobars| - 1 - k].name, foobars[|foobars| - 1 - k].GetStrength())
    {
      lines := lines + [FormatLine(foobars[i].name, foobars[i].GetStrength())];
      i := i - 1;
    }
  }

  /**
   * The whole program with the files stripped away: the k-th output line
   * describes the k-th pair from the end of the input, whose position is
   * k + 1.
   */
  method Run(words: seq<string>) returns (lines: seq<string>)
    ensures |lines| == |words| / 2
    ensures forall k :: 0 <= k < |lines| ==>
      var i := |lines| - 1 - k;
      lines[k] == FormatLine(words[2 * i + 1], StrengthOf(VariantOf(words[2 * i]), k + 1))
  {
    var foobars := ReadInputFile(words);
    AssignPositions(foobars);
    lines := WriteOutputFile(foobars);
  }

  /** Decimal digit for 0..9. */
  function DigitChar(d: nat): char
    requires d < 10
  {
    (('0' as int) + d) as char
  }

  function IsDigit(c: char): bool
  {
    '0' <= c <= '9'
  }

  /** Shortest decimal rendering of a natural number, as an output stream writes it. */
  function NatToDecimal(n: nat): (s: string)
    ensures |s| >= 1 && forall i :: 0 <= i < |s| ==> IsDigit(s[i])
    decreases n
  {
    if n < 10 then [DigitChar(n)] else NatToDecimal(n / 10) + [DigitChar(n % 10)]
  }

  /** Decimal rendering of an integer, with a leading '-' when negative. */
  function IntToDecimal(i: int): string
  {
    if i < 0 then "-" + NatToDecimal(-i) else NatToDecimal(i)
  }

  /** Value of a string of decimal digits, read most significant first. */
  function DigitsValue(s: string): nat
    decreases |s|
  {
    if s == [] then 0
    else DigitsValue(s[..|s| - 1]) * 10 + (if IsDigit(s[|s| - 1]) then (s[|s| - 1] as int) - ('0' as int) else 0)
  }

  /** Reads back what IntToDecimal writes. */
  function ParseInt(s: string): int
  {
    if |s| > 0 && s[0] == '-' then -(DigitsValue(s[1..]) as int) else DigitsValue(s)
  }

  lemma {:induction false} NatDecimalRoundTrip(n: nat)
    ensures DigitsValue(NatToDecimal(n)) == n
    decreases n
  {
    if n >= 10 {
      NatDecimalRoundTrip(n / 10);
      var s := NatToDecimal(n);
      assert s[..|s| - 1] == NatToDecimal(n / 10);
    }
  }

  /** The strength in an output line is written so that it reads back to the same integer. */
  lemma IntDecimalRoundTrip(i: int)
    ensures ParseInt(IntToDecimal(i)) == i
  {
    if i < 0 {
      NatDecimalRoundTrip(-i);
      assert ("-" + NatToDecimal(-i))[1..] == NatToDecimal(-i);
    } else {
      NatDecimalRoundTrip(i);
    }
  }

  /**
   * An output line is unambiguous: it starts with the name, and what
   * follows the " strength: " separator reads back to the strength.
   */
  lemma FormatLineReadsBack(name: string, strength: int)
    ensures FormatLine(name, strength)[..|name|] == name
    ensures FormatLine(name, strength)[|name|..|name| + 11] == " strength: "
    ensures ParseInt(FormatLine(name, strength)[|name| + 11..]) == strength
  {
    var line := FormatLine(name, strength);
    assert line[|name| + 11..] == IntToDecimal(strength);
    IntDecimalRoundTrip(strength);
  }
}
