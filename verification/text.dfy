/** String helpers the Rust code gets from its standard library and from serde:
    ASCII lower-casing, decimal formatting of unsigned integers, and serde's
    `rename_all = "camelCase"` rule. */
module Text {

  /** `char::to_lowercase` restricted to what the model needs: the ASCII letters A-Z. */
  function LowerChar(c: char): char {
    if 'A' <= c <= 'Z' then (c as int + 32) as char else c
  }

  function UpperChar(c: char): char {
    if 'a' <= c <= 'z' then (c as int - 32) as char else c
  }

  /** `str::to_lowercase` on ASCII text. */
  function Lower(s: string): (r: string)
    ensures |r| == |s|
    ensures forall i :: 0 <= i < |s| ==> r[i] == LowerChar(s[i])
  {
    seq(|s|, i requires 0 <= i < |s| => LowerChar(s[i]))
  }

  predicate IsLower(s: string) {
    forall i :: 0 <= i < |s| ==> !('A' <= s[i] <= 'Z')
  }

  /** Lower-casing works character by character, so it distributes over concatenation. */
  lemma LowerConcat(a: string, b: string)
    ensures Lower(a + b) == Lower(a) + Lower(b)
  {
  }

  lemma LowerOfLower(s: string)
    requires IsLower(s)
    ensures Lower(s) == s
  {
  }

  /** Locating the two halves of a concatenation. */
  lemma SplitAt(a: string, b: string)
    ensures (a + b)[..|a|] == a && (a + b)[|a|..] == b
  {
  }

  lemma AppendTail(head: string, prefix: string, x: string)
    ensures head + prefix + x == head + (prefix + x)
  {
  }

  /** `iter().map(tok).collect::<String>()`: the pieces, in order, joined without separator. */
  function Join<T>(xs: seq<T>, tok: T -> string): string {
    if |xs| == 0 then "" else tok(xs[0]) + Join(xs[1..], tok)
  }

  lemma {:induction false} JoinAppend<T>(a: seq<T>, b: seq<T>, tok: T -> string)
    ensures Join(a + b, tok) == Join(a, tok) + Join(b, tok)
  {
    if |a| == 0 {
      assert a + b == b;
    } else {
      JoinAppend(a[1..], b, tok);
      assert (a + b)[0] == a[0] && (a + b)[1..] == a[1..] + b;
      assert Join(a + b, tok) == tok(a[0]) + Join(a[1..] + b, tok);
    }
  }

  lemma JoinSnoc<T>(xs: seq<T>, x: T, tok: T -> string)
    ensures Join(xs + [x], tok) == Join(xs, tok) + tok(x)
  {
    JoinAppend(xs, [x], tok);
    assert [x][1..] == [];
    assert Join([x], tok) == tok(x) + "";
  }

  // ---------------------------------------------------------------------------
  // Decimal formatting, as `format!("{}", n)` does for an unsigned integer.

  function DigitChar(d: nat): (c: char)
    requires d < 10
    ensures '0' <= c <= '9'
  {
    (48 + d) as char
  }

  predicate IsDigit(c: char) {
    '0' <= c <= '9'
  }

  function DigitValue(c: char): (d: nat)
    requires IsDigit(c)
    ensures d < 10
  {
    c as int - 48
  }

  /** The decimal spelling of `n`: digits only, no sign and no leading zero. */
  function NatToString(n: nat): (r: string)
    ensures |r| >= 1
    ensures forall i :: 0 <= i < |r| ==> IsDigit(r[i])
    ensures r[0] == '0' ==> n == 0
    decreases n
  {
    if n < 10 then [DigitChar(n)] else NatToString(n / 10) + [DigitChar(n % 10)]
  }

  /** The value of a string of decimal digits, read most significant digit first. */
  function DigitsValue(s: string): nat
    requires forall i :: 0 <= i < |s| ==> IsDigit(s[i])
  {
    if |s| == 0 then 0 else DigitsValue(s[..|s| - 1]) * 10 + DigitValue(s[|s| - 1])
  }

  /** Reading the decimal spelling back gives the number: the formatter loses nothing. */
  lemma {:induction false} NatToStringRoundTrip(n: nat)
    ensures DigitsValue(NatToString(n)) == n
    decreases n
  {
    var s := NatToString(n);
    if n >= 10 {
      NatToStringRoundTrip(n / 10);
      assert s[..|s| - 1] == NatToString(n / 10);
    }
  }

  /** Distinct numbers are spelt differently. */
  lemma NatToStringInjective(a: nat, b: nat)
    requires NatToString(a) == NatToString(b)
    ensures a == b
  {
    NatToStringRoundTrip(a);
    NatToStringRoundTrip(b);
  }

  // ---------------------------------------------------------------------------
  // serde's `rename_all = "camelCase"` for a Rust field name.

  /** serde's PascalCase rule: drop each '_' and upper-case the character after it;
      `capitalize` says whether the next kept character is upper-cased. */
  function Pascal(s: string, capitalize: bool): (r: string)
    ensures |r| <= |s|
  {
    if |s| == 0 then ""
    else if s[0] == '_' then Pascal(s[1..], true)
    else if capitalize then [UpperChar(s[0])] + Pascal(s[1..], false)
    else [s[0]] + Pascal(s[1..], false)
  }

  /** serde's camelCase rule: the PascalCase spelling with its first character lower-cased. */
  function CamelCase(field: string): string {
    var p := Pascal(field, true);
    if |p| == 0 then "" else [LowerChar(p[0])] + p[1..]
  }

  predicate IsSingleWord(field: string) {
    && |field| > 0
    && 'a' <= field[0] <= 'z'
    && forall i :: 0 <= i < |field| ==> field[i] != '_'
  }

  lemma {:induction false} PascalWithoutUnderscore(s: string)
    requires forall i :: 0 <= i < |s| ==> s[i] != '_'
    ensures Pascal(s, false) == s
  {
    if |s| > 0 {
      PascalWithoutUnderscore(s[1..]);
    }
  }

  lemma {:induction false} PascalJoin(a: string, b: string)
    requires forall i :: 0 <= i < |a| ==> a[i] != '_'
    requires |b| > 0 && forall i :: 0 <= i < |b| ==> b[i] != '_'
    ensures Pascal(a + "_" + b, false) == a + [UpperChar(b[0])] + b[1..]
  {
    if |a| == 0 {
      assert a + "_" + b == "_" + b;
      PascalWithoutUnderscore(b[1..]);
      assert ("_" + b)[1..] == b;
      assert b == [b[0]] + b[1..];
    } else {
      PascalJoin(a[1..], b);
      assert (a + "_" + b)[1..] == a[1..] + "_" + b;
    }
  }

  /** Two lower-case words joined by '_' become one word with the second capitalised. */
  lemma TwoWordCamelCase(a: string, b: string)
    requires IsSingleWord(a) && IsSingleWord(b)
    ensures CamelCase(a + "_" + b) == a + [UpperChar(b[0])] + b[1..]
  {
    var s := a + "_" + b;
    var tail := a[1..] + [UpperChar(b[0])] + b[1..];
    assert s[1..] == a[1..] + "_" + b;
    PascalJoin(a[1..], b);
    assert Pascal(s, true) == [UpperChar(a[0])] + tail;
    assert LowerChar(UpperChar(a[0])) == a[0];
    assert a + [UpperChar(b[0])] + b[1..] == [a[0]] + tail;
  }

  /** A field name that is one lower-case word keeps its spelling under camelCase. */
  lemma SingleWordCamelCase(field: string)
    requires IsSingleWord(field)
    ensures CamelCase(field) == field
  {
    PascalWithoutUnderscore(field[1..]);
    assert Pascal(field, true) == [UpperChar(field[0])] + field[1..];
  }
}
