/**
 * MongoDB ObjectIDs as the core uses them: 96-bit values written as 24
 * hexadecimal digits. primitive.ObjectIDFromHex accepts exactly the strings of
 * 24 hexadecimal digits of either case; NilObjectID is the all-zero value and
 * is what the request context yields when no user is authenticated.
 */
module ObjectIds {
  import opened Wrappers

  type ObjectId = nat

  /** primitive.NilObjectID. */
  const Nil: ObjectId := 0

  /** The number of digits of an ObjectID's hexadecimal form. */
  const HexLength: nat := 24

  function Pow16(n: nat): (p: nat)
    ensures p >= 1
  {
    if n == 0 then 1 else 16 * Pow16(n - 1)
  }

  /** Every ObjectID fits in 96 bits. */
  predicate IsObjectId(id: ObjectId) {
    id < Pow16(HexLength)
  }

  predicate IsHexDigit(c: char) {
    || ('0' <= c <= '9')
    || ('a' <= c <= 'f')
    || ('A' <= c <= 'F')
  }

  /** The strings ObjectIDFromHex accepts. */
  predicate IsObjectIdHex(s: string) {
    |s| == HexLength && forall i | 0 <= i < |s| :: IsHexDigit(s[i])
  }

  function DigitValue(c: char): (v: nat)
    requires IsHexDigit(c)
    ensures v < 16
  {
    if '0' <= c <= '9' then c as int - '0' as int
    else if 'a' <= c <= 'f' then c as int - 'a' as int + 10
    else c as int - 'A' as int + 10
  }

  /** The lower-case digit ObjectID.Hex writes for v. */
  function HexChar(v: nat): (c: char)
    requires v < 16
    ensures IsHexDigit(c) && DigitValue(c) == v
  {
    if v < 10 then (48 + v) as char else (87 + v) as char
  }

  /** The value of a string of hexadecimal digits, most significant first. */
  function HexValue(s: string): (v: nat)
    requires forall i | 0 <= i < |s| :: IsHexDigit(s[i])
    ensures v < Pow16(|s|)
  {
    if s == [] then 0 else HexValue(s[..|s| - 1]) * 16 + DigitValue(s[|s| - 1])
  }

  /** primitive.ObjectIDFromHex: the ObjectID a string denotes, or None on a bad length or digit. */
  function FromHex(s: string): (r: Option<ObjectId>)
    ensures r.Some? <==> IsObjectIdHex(s)
    ensures r.Some? ==> IsObjectId(r.value)
  {
    if IsObjectIdHex(s) then Some(HexValue(s)) else None
  }

  /** The n lower-case hexadecimal digits of v modulo 16^n. */
  function HexDigits(v: nat, n: nat): (s: string)
    ensures |s| == n
    ensures forall i | 0 <= i < |s| :: IsHexDigit(s[i])
  {
    if n == 0 then [] else HexDigits(v / 16, n - 1) + [HexChar(v % 16)]
  }

  /** ObjectID.Hex. */
  function ToHex(id: ObjectId): (s: string)
    ensures IsObjectIdHex(s)
  {
    HexDigits(id, HexLength)
  }

  lemma {:induction false} HexValueOfDigits(v: nat, n: nat)
    requires v < Pow16(n)
    ensures HexValue(HexDigits(v, n)) == v
  {
    if n > 0 {
      var s := HexDigits(v, n);
      assert s[..|s| - 1] == HexDigits(v / 16, n - 1);
      assert v / 16 < Pow16(n - 1);
      HexValueOfDigits(v / 16, n - 1);
    }
  }

  /** Writing an ObjectID in hexadecimal and parsing it back gives the same ObjectID. */
  lemma FromHexOfToHex(id: ObjectId)
    requires IsObjectId(id)
    ensures FromHex(ToHex(id)) == Some(id)
  {
    HexValueOfDigits(id, HexLength);
  }
}
