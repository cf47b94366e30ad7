/** Values and text as cJSON sees them.

    A C string is a `string` of byte-sized characters; its terminating NUL is
    what `At` answers at the end of the text, so code that reads the terminator
    is modelled by a read at index `|s|`. */
module JsonText {

  /** A parsed item. A number is kept as the exact decimal
      `mantissa * 10^exponent` that its text denotes. */
  datatype Json =
    | Null
    | False
    | True
    | Number(mantissa: int, exponent: int)
    | String(text: string)
    | Array(items: seq<Json>)
    | Object(members: seq<Member>)

  /** A child of an object together with the name it carries. */
  datatype Member = Member(name: string, value: Json)

  /** The result of parsing at a position. `Err` carries the error pointer.
      `Malformed` stands for a `\u` whose next four characters include a quote, a
      backslash or the end of the text, where the passes over a literal disagree. */
  datatype Outcome<+T> = Ok(value: T, end: nat) | Err(at: nat) | Malformed

  const NUL := '\0'
  const INT_MIN := -0x8000_0000
  const INT_MAX := 0x7FFF_FFFF

  function At(s: string, i: nat): char {
    if i < |s| then s[i] else NUL
  }

  /** `p` occurs in `s` at position `i`. */
  predicate Has(s: string, i: nat, p: string) {
    i + |p| <= |s| && s[i..i + |p|] == p
  }

  lemma HasSplit(s: string, i: nat, a: string, b: string)
    requires Has(s, i, a + b)
    ensures Has(s, i, a) && Has(s, i + |a|, b)
  {
    assert s[i..i + |a|] == s[i..i + |a + b|][..|a|];
    assert s[i + |a|..i + |a| + |b|] == s[i..i + |a + b|][|a|..];
  }

  lemma HasHead(s: string, i: nat, p: string)
    requires Has(s, i, p) && |p| > 0
    ensures At(s, i) == p[0] && Has(s, i + 1, p[1..])
  {
    assert s[i] == s[i..i + |p|][0];
    assert p == p[..1] + p[1..];
    HasSplit(s, i, p[..1], p[1..]);
  }

  lemma Regroup(a: string, b: string, c: string, d: string, e: string)
    ensures a + b + c + d + e == a + (b + (c + (d + e)))
  {
  }

  /** Bytes a C string can hold before its terminator. */
  predicate IsCString(s: string) {
    forall k | 0 <= k < |s| :: 0 < s[k] as int < 256
  }

  predicate IsSpace(c: char) {
    0 < c as int <= 32
  }

  function Skip(s: string, i: nat): (r: nat)
    requires i <= |s|
    ensures i <= r <= |s|
    ensures !IsSpace(At(s, r))
    decreases |s| - i
  {
    if IsSpace(At(s, i)) then Skip(s, i + 1) else i
  }

  /** What is skipped are the characters up to the blank, as far as they reach. */
  lemma {:induction false} SkipsBlanks(s: string, i: nat)
    requires i <= |s|
    ensures forall k | i <= k < Skip(s, i) :: 0 < s[k] as int <= 32
    ensures var r := Skip(s, i); r < |s| ==> s[r] == NUL || s[r] as int > 32
    decreases |s| - i
  {
    if IsSpace(At(s, i)) {
      SkipsBlanks(s, i + 1);
    }
  }

  method SkipWhite(s: string, start: nat) returns (i: nat)
    requires start <= |s|
    ensures i == Skip(s, start)
  {
    i := start;
    while IsSpace(At(s, i))
      invariant start <= i <= |s|
      invariant Skip(s, i) == Skip(s, start)
      decreases |s| - i
    {
      i := i + 1;
    }
  }
}
