/** Record identifiers and their text form.

    The store keys every record by a MongoDB ObjectId. The service receives
    identifiers as strings (route parameters, queue keys) and turns them back
    into ObjectIds with `new Types.ObjectId(s)`; it turns ObjectIds into
    strings with `toString()`. An ObjectId is modelled as the number its
    twelve bytes spell, and its text form as 24 hexadecimal digits. */
module ObjectIds {
  import opened Common

  /** An ObjectId, as a number. */
  type Id = nat

  /** Number of hexadecimal digits in the text form of an ObjectId. */
  const IdWidth: nat := 24

  function Pow16(k: nat): (p: nat)
    ensures p >= 1
  {
    if k == 0 then 1 else 16 * Pow16(k - 1)
  }

  /** Ids below this bound (2^96, twelve bytes) have a 24-digit text form. */
  const IdSpace: nat := Pow16(IdWidth)

  predicate IsHexChar(c: char) {
    '0' <= c <= '9' || 'a' <= c <= 'f' || 'A' <= c <= 'F'
  }

  predicate IsLowerHexChar(c: char) {
    '0' <= c <= '9' || 'a' <= c <= 'f'
  }

  predicate AllHex(s: string) {
    forall i | 0 <= i < |s| :: IsHexChar(s[i])
  }

  function LowerChar(c: char): char {
    if 'A' <= c <= 'Z' then (c as int - 'A' as int + 'a' as int) as char else c
  }

  function Lower(s: string): (r: string)
    ensures |r| == |s|
  {
    if s == [] then [] else Lower(s[..|s| - 1]) + [LowerChar(s[|s| - 1])]
  }

  /** The lower-case digit for a value below 16. */
  function HexDigit(d: nat): (c: char)
    requires d < 16
    ensures IsLowerHexChar(c)
  {
    if d < 10 then ('0' as int + d) as char else ('a' as int + d - 10) as char
  }

  /** The value of a hexadecimal digit of either case. */
  function DigitValue(c: char): (d: nat)
    requires IsHexChar(c)
    ensures d < 16
    ensures HexDigit(d) == LowerChar(c)
  {
    if '0' <= c <= '9' then c as int - '0' as int
    else if 'a' <= c <= 'f' then c as int - 'a' as int + 10
    else c as int - 'A' as int + 10
  }

  /** Lower-case hexadecimal numeral of n, left-padded with zeros to at least
      `width` digits. */
  function ToHex(n: nat, width: nat): string
    decreases n, width
  {
    if n == 0 && width == 0 then []
    else ToHex(n / 16, if width == 0 then 0 else width - 1) + [HexDigit(n % 16)]
  }

  /** The number a string of hexadecimal digits spells (most significant first). */
  function HexValue(s: string): nat
    requires AllHex(s)
  {
    if s == [] then 0 else 16 * HexValue(s[..|s| - 1]) + DigitValue(s[|s| - 1])
  }

  lemma {:induction false} ToHexShape(n: nat, width: nat)
    ensures forall i | 0 <= i < |ToHex(n, width)| :: IsLowerHexChar(ToHex(n, width)[i])
    ensures |ToHex(n, width)| >= width
    ensures n < Pow16(width) ==> |ToHex(n, width)| == width
    decreases n, width
  {
    if !(n == 0 && width == 0) {
      var w' := if width == 0 then 0 else width - 1;
      ToHexShape(n / 16, w');
      if n < Pow16(width) {
        assert width > 0;
        assert n / 16 < Pow16(w');
      }
    }
  }

  lemma {:induction false} HexValueBound(s: string)
    requires AllHex(s)
    ensures HexValue(s) < Pow16(|s|)
  {
    if s != [] {
      HexValueBound(s[..|s| - 1]);
    }
  }

  lemma {:induction false} ToHexValue(n: nat, width: nat)
    ensures AllHex(ToHex(n, width))
    ensures HexValue(ToHex(n, width)) == n
    decreases n, width
  {
    ToHexShape(n, width);
    if !(n == 0 && width == 0) {
      var w' := if width == 0 then 0 else width - 1;
      var s := ToHex(n, width);
      ToHexValue(n / 16, w');
      assert s[..|s| - 1] == ToHex(n / 16, w');
    }
  }

  lemma {:induction false} HexValueToHex(s: string)
    requires AllHex(s)
    ensures ToHex(HexValue(s), |s|) == Lower(s)
  {
    if s != [] {
      var init, last := s[..|s| - 1], s[|s| - 1];
      HexValueToHex(init);
      var v := HexValue(s);
      assert v / 16 == HexValue(init) && v % 16 == DigitValue(last);
    }
  }

  /** `ObjectId.toString()`: 24 lower-case hexadecimal digits. */
  function IdString(id: Id): (s: string)
    ensures forall i | 0 <= i < |s| :: IsLowerHexChar(s[i])
    ensures |s| >= IdWidth
    ensures id < IdSpace ==> |s| == IdWidth
    ensures '@' !in s  // so it is never an e-mail address
  {
    ToHexShape(id, IdWidth);
    ToHex(id, IdWidth)
  }

  /** `new Types.ObjectId(s)`: accepts exactly 24 hexadecimal digits of either
      case; any other string makes the constructor throw. */
  function ParseId(s: string): (r: Option<Id>)
    ensures r.Some? <==> |s| == IdWidth && AllHex(s)
    ensures r.Some? ==> r.value < IdSpace
  {
    if |s| == IdWidth && AllHex(s) then
      HexValueBound(s);
      Some(HexValue(s))
    else None
  }

  /** The queue key written with `toString()` parses back to the same id. */
  lemma IdRoundTrip(id: Id)
    requires id < IdSpace
    ensures ParseId(IdString(id)) == Some(id)
  {
    ToHexValue(id, IdWidth);
  }

  /** A string that parses prints back as its own lower-case form. */
  lemma ParseRoundTrip(s: string)
    requires ParseId(s).Some?
    ensures IdString(ParseId(s).value) == Lower(s)
  {
    HexValueToHex(s);
  }

  /** Different ids have different text forms. */
  lemma IdStringInjective(a: Id, b: Id)
    requires IdString(a) == IdString(b)
    ensures a == b
  {
    ToHexValue(a, IdWidth);
    ToHexValue(b, IdWidth);
  }
}
