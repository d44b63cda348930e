/** Small shared vocabulary: an optional value (JavaScript's `undefined`),
    JavaScript's `String.prototype.includes`, and the shape of the strings that
    `crypto.randomBytes(16).toString('hex')` produces. */
module Prelude {

  datatype Option<+T> = None | Some(value: T)

  /** A byte of a Node `Buffer`. */
  type Byte = bv8

  /** `s.includes(sub)`: `sub` occurs as a contiguous slice of `s`
      (the empty string occurs in every string). */
  predicate Includes(s: string, sub: string)
    decreases |s|
  {
    if |s| < |sub| then false
    else s[..|sub|] == sub || (|s| > 0 && Includes(s[1..], sub))
  }

  /** `sub` occurs in `s` starting at index `i`. */
  ghost predicate OccursAt(s: string, sub: string, i: nat)
  {
    i + |sub| <= |s| && s[i..i + |sub|] == sub
  }

  /** Every occurrence of `sub` in `s` makes `Includes` hold. */
  lemma {:induction false} IncludesAt(s: string, sub: string, i: nat)
    requires OccursAt(s, sub, i)
    ensures Includes(s, sub)
    decreases i
  {
    if i > 0 {
      assert s[1..][i - 1..i - 1 + |sub|] == s[i..i + |sub|];
      IncludesAt(s[1..], sub, i - 1);
    } else {
      assert s[..|sub|] == sub;
    }
  }

  /** `Includes` holds only where `sub` really occurs: it returns a position. */
  lemma {:induction false} IncludesOnlyAt(s: string, sub: string) returns (i: nat)
    requires Includes(s, sub)
    ensures OccursAt(s, sub, i)
    decreases |s|
  {
    if s[..|sub|] == sub {
      i := 0;
    } else {
      var j := IncludesOnlyAt(s[1..], sub);
      assert s[1..][j..j + |sub|] == s[j + 1..j + 1 + |sub|];
      i := j + 1;
    }
  }

  /** `Includes` is exactly JavaScript's `includes`: some slice of `s` equals `sub`. */
  lemma IncludesIff(s: string, sub: string)
    ensures Includes(s, sub) <==> exists i: nat :: OccursAt(s, sub, i)
  {
    if Includes(s, sub) {
      var i := IncludesOnlyAt(s, sub);
    }
    forall i: nat | OccursAt(s, sub, i) ensures Includes(s, sub) {
      IncludesAt(s, sub, i);
    }
  }

  /** A lower-case hexadecimal digit, as Node's `toString('hex')` writes them. */
  predicate IsLowerHexChar(c: char)
  {
    '0' <= c <= '9' || 'a' <= c <= 'f'
  }

  /** What `crypto.randomBytes(16).toString('hex')` returns: 16 random bytes,
      two lower-case hex digits each, 32 characters in all. The random source is
      not modelled; every caller receives such a string as a parameter. */
  predicate IsRandomHex(s: string)
  {
    |s| == 32 && forall i :: 0 <= i < |s| ==> IsLowerHexChar(s[i])
  }
}
