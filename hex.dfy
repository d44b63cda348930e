/** The `userId` sent to the identity oracle: the player's decimal id,
    parsed with `Number.parseInt(id, 10)`, rendered with `toString(16)` and
    upper-cased (src/routes/client/origin_auth.ts:45-48; the older handler does
    the same at src/routes/client/clientauth.ts:42). Only ids made of decimal
    digits whose value is a safe JavaScript integer are modelled. */
module Hex {

  /** The largest integer a JavaScript number holds exactly (2^53 - 1). */
  const MAX_SAFE_INTEGER: nat := 9007199254740991

  predicate IsDecimalChar(c: char) { '0' <= c <= '9' }

  predicate IsUpperHexChar(c: char) { '0' <= c <= '9' || 'A' <= c <= 'F' }

  /** A non-empty string of decimal digits. */
  predicate IsDecimal(s: string)
  {
    |s| > 0 && forall i :: 0 <= i < |s| ==> IsDecimalChar(s[i])
  }

  predicate IsUpperHex(s: string)
  {
    forall i :: 0 <= i < |s| ==> IsUpperHexChar(s[i])
  }

  /** The number a decimal digit string denotes (most significant digit first). */
  function DecimalValue(s: string): nat
    requires forall i :: 0 <= i < |s| ==> IsDecimalChar(s[i])
  {
    if |s| == 0 then 0
    else DecimalValue(s[..|s| - 1]) * 10 + DecimalDigit(s[|s| - 1])
  }

  function DecimalDigit(c: char): nat
    requires IsDecimalChar(c)
  {
    c as int - '0' as int
  }

  function DigitValue(c: char): nat
    requires IsUpperHexChar(c)
  {
    if c <= '9' then c as int - '0' as int else c as int - 'A' as int + 10
  }

  /** Reading an upper-case hex string back in base 16 (`parseInt(s, 16)`). */
  function HexValue(s: string): nat
    requires IsUpperHex(s)
  {
    if |s| == 0 then 0
    else HexValue(s[..|s| - 1]) * 16 + DigitValue(s[|s| - 1])
  }

  function UpperDigit(d: nat): (c: char)
    requires d < 16
    ensures IsUpperHexChar(c) && DigitValue(c) == d
  {
    "0123456789ABCDEF"[d]
  }

  /** `n.toString(16).toUpperCase()` for a non-negative integer `n`: the
      shortest upper-case hex numeral, "0" for zero and no leading zero
      otherwise. */
  function ToUpperHex(n: nat): (s: string)
    ensures |s| > 0 && IsUpperHex(s)
    ensures s[0] == '0' <==> n == 0
    decreases n
  {
    if n < 16 then [UpperDigit(n)]
    else ToUpperHex(n / 16) + [UpperDigit(n % 16)]
  }

  /** Parsing the rendering back in base 16 gives the number that was rendered. */
  lemma {:induction false} HexValueOfToUpperHex(n: nat)
    ensures HexValue(ToUpperHex(n)) == n
    decreases n
  {
    if n >= 16 {
      var s := ToUpperHex(n);
      var prefix := ToUpperHex(n / 16);
      assert s[..|s| - 1] == prefix;
      HexValueOfToUpperHex(n / 16);
    }
  }

  /** The rendering is injective: two different ids never share a `userId`. */
  lemma ToUpperHexInjective(m: nat, n: nat)
    requires ToUpperHex(m) == ToUpperHex(n)
    ensures m == n
  {
    HexValueOfToUpperHex(m);
    HexValueOfToUpperHex(n);
  }

  /** The `userId` query parameter for player `id`. */
  function UserIdHex(id: string): (userId: string)
    requires IsDecimal(id) && DecimalValue(id) <= MAX_SAFE_INTEGER
    ensures |userId| > 0 && IsUpperHex(userId)
    ensures HexValue(userId) == DecimalValue(id)
  {
    HexValueOfToUpperHex(DecimalValue(id));
    ToUpperHex(DecimalValue(id))
  }
}
