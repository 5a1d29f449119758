/**
 * The pieces of Java's standard library that the forward allocator relies on,
 * written out: `int` wrap-around, `String.split("_")`, `Integer.parseInt`
 * and the `%d` conversion of `String.format`.
 */
module JavaText {
  import opened Wrappers

  const INT_MIN: int := -0x8000_0000
  const INT_MAX: int := 0x7fff_ffff

  /** The values a Java `int` can hold. */
  predicate IsInt32(n: int) {
    INT_MIN <= n <= INT_MAX
  }

  /**
   * Java's `int`. The range is written out again here because a subset
   * type's constraint must be stated inline for Dafny to use it in
   * arithmetic on the type; `IsInt32` is the same range for plain `int`s.
   */
  type Int32 = n: int | INT_MIN <= n <= INT_MAX

  /** Java's `n + 1` on an `int`: wraps from `INT_MAX` to `INT_MIN`. */
  function Inc32(n: Int32): Int32 {
    if n == INT_MAX then INT_MIN else n + 1
  }

  /** `Inc32` is two's-complement addition: `n + 1` reduced modulo 2^32 into the `int` range. */
  lemma Inc32IsModular(n: Int32)
    ensures Inc32(n) == (n + 1 - INT_MIN) % 0x1_0000_0000 + INT_MIN
    ensures INT_MIN <= Inc32(n) <= INT_MAX
  {
  }

  // ---------------------------------------------------------------------
  // String.split("_")
  // ---------------------------------------------------------------------

  const SEP: char := '_'

  /** `s` contains no separator. */
  predicate Plain(s: string) {
    forall k :: 0 <= k < |s| ==> s[k] != SEP
  }

  /** The index of the first separator in `s`. */
  function FirstSep(s: string): (i: nat)
    requires !Plain(s)
    ensures i < |s| && s[i] == SEP && Plain(s[..i])
    decreases |s|
  {
    if s[0] == SEP then 0
    else
      var j := FirstSep(s[1..]);
      assert s[..j + 1] == [s[0]] + s[1..][..j];
      j + 1
  }

  /**
   * Every piece of `s` between separators, empty pieces included: the list
   * that `split` builds before it drops trailing empty strings.
   */
  function Fields(s: string): (r: seq<string>)
    ensures |r| >= 1
    ensures !Plain(s) ==> |r| >= 2
    decreases |s|
  {
    if Plain(s) then [s]
    else
      var i := FirstSep(s);
      [s[..i]] + Fields(s[i + 1..])
  }

  /** No field contains the separator. */
  lemma {:induction false} FieldsHaveNoSeparator(s: string)
    ensures forall k :: 0 <= k < |Fields(s)| ==> Plain(Fields(s)[k])
    decreases |s|
  {
    if !Plain(s) {
      var i := FirstSep(s);
      FieldsHaveNoSeparator(s[i + 1..]);
      var rest := Fields(s[i + 1..]);
      assert Fields(s) == [s[..i]] + rest;
      assert forall k :: 1 <= k < |Fields(s)| ==> Fields(s)[k] == rest[k - 1];
    }
  }

  /** The inverse of `Fields`: the pieces glued back with the separator. */
  function Join(parts: seq<string>): string
    requires |parts| >= 1
    decreases |parts|
  {
    if |parts| == 1 then parts[0]
    else parts[0] + [SEP] + Join(parts[1..])
  }

  /** Removes the empty strings at the end of a list. */
  function DropTrailingEmpty(parts: seq<string>): (r: seq<string>)
    ensures |r| <= |parts| && r == parts[..|r|]
    ensures r == [] || r[|r| - 1] != ""
    ensures forall k :: |r| <= k < |parts| ==> parts[k] == ""
    decreases |parts|
  {
    if parts != [] && parts[|parts| - 1] == "" then DropTrailingEmpty(parts[..|parts| - 1])
    else parts
  }

  /**
   * Java's `s.split("_")` (limit 0): the string itself when it holds no
   * separator, otherwise its fields without the trailing empty ones.
   */
  function Split(s: string): (r: seq<string>)
    ensures Plain(s) ==> r == [s]
    ensures !Plain(s) ==>
              && |r| <= |Fields(s)| && r == Fields(s)[..|r|]
              && (r == [] || r[|r| - 1] != "")
              && forall k :: |r| <= k < |Fields(s)| ==> Fields(s)[k] == ""
  {
    if Plain(s) then [s] else DropTrailingEmpty(Fields(s))
  }

  /** Splitting and joining again gives the string back. */
  lemma {:induction false} JoinFields(s: string)
    ensures Join(Fields(s)) == s
    decreases |s|
  {
    if !Plain(s) {
      var i := FirstSep(s);
      var rest := Fields(s[i + 1..]);
      JoinFields(s[i + 1..]);
      FieldsAt(s, i);
      JoinCons(s[..i], rest);
      CutAt(s, i);
    }
  }

  /** `Join` puts the separator between the first piece and the join of the rest. */
  lemma JoinCons(a: string, rest: seq<string>)
    requires |rest| >= 1
    ensures Join([a] + rest) == a + [SEP] + Join(rest)
  {
    assert ([a] + rest)[1..] == rest;
  }

  /** A string is what comes before position `i`, the separator there, and what follows. */
  lemma CutAt(s: string, i: nat)
    requires i < |s| && s[i] == SEP
    ensures s == s[..i] + [SEP] + s[i + 1..]
  {
  }

  /** The first separator is the one with no separator before it. */
  lemma FirstSepIs(s: string, i: nat)
    requires i < |s| && s[i] == SEP && Plain(s[..i])
    ensures FirstSep(s) == i
  {
  }

  /** `FieldsAround` when `x` holds no separator: `x` is the first field. */
  lemma FieldsAroundPlain(x: string, u: string)
    requires Plain(x)
    ensures Fields(x + [SEP] + u) == [x] + Fields(u)
  {
    var s := x + [SEP] + u;
    assert s[|x|] == SEP;
    assert s[..|x|] == x;
    FirstSepIs(s, |x|);
    assert s[|x| + 1..] == u;
  }

  /** `Fields` cuts at the first separator. */
  lemma FieldsAt(s: string, i: nat)
    requires i < |s| && s[i] == SEP && Plain(s[..i])
    ensures Fields(s) == [s[..i]] + Fields(s[i + 1..])
  {
    FirstSepIs(s, i);
  }

  /**
   * `FieldsAround` when `x` has its first separator at `i`: the first field
   * is the same, and the rest follows from the claim for what comes after it.
   */
  lemma FieldsAroundStep(x: string, u: string, i: nat)
    requires i < |x| && x[i] == SEP && Plain(x[..i])
    requires Fields(x[i + 1..] + [SEP] + u) == Fields(x[i + 1..]) + Fields(u)
    ensures Fields(x + [SEP] + u) == Fields(x) + Fields(u)
  {
    var s, rest := x + [SEP] + u, x[i + 1..] + [SEP] + u;
    SlicesAround(x, u, i);
    FieldsAt(s, i);
    FieldsAt(x, i);
    Regroup([x[..i]], Fields(x[i + 1..]), Fields(u));
  }

  /** Cutting `x + "_" + u` at a position inside `x`. */
  lemma SlicesAround(x: string, u: string, i: nat)
    requires i < |x|
    ensures (x + [SEP] + u)[i] == x[i]
    ensures (x + [SEP] + u)[..i] == x[..i]
    ensures (x + [SEP] + u)[i + 1..] == x[i + 1..] + [SEP] + u
  {
  }

  /** Sequence concatenation regrouped, as a separate step for `FieldsAroundStep`. */
  lemma Regroup(a: seq<string>, b: seq<string>, c: seq<string>)
    ensures a + (b + c) == (a + b) + c
  {
  }

  /** The fields of `x + "_" + u` are the fields of `x` followed by those of `u`. */
  lemma {:induction false} FieldsAround(x: string, u: string)
    ensures Fields(x + [SEP] + u) == Fields(x) + Fields(u)
    decreases |x|
  {
    if Plain(x) {
      FieldsAroundPlain(x, u);
    } else {
      var i := FirstSep(x);
      FieldsAround(x[i + 1..], u);
      FieldsAroundStep(x, u, i);
    }
  }

  /** Joining separator-free pieces and splitting again gives the pieces back. */
  lemma {:induction false} FieldsJoin(parts: seq<string>)
    requires |parts| >= 1
    requires forall k :: 0 <= k < |parts| ==> Plain(parts[k])
    ensures Fields(Join(parts)) == parts
    decreases |parts|
  {
    if |parts| > 1 {
      var rest := parts[1..];
      assert forall k :: 0 <= k < |rest| ==> rest[k] == parts[k + 1];
      FieldsJoin(rest);
      assert Join(parts) == parts[0] + [SEP] + Join(rest);
      FieldsAroundPlain(parts[0], Join(rest));
      assert parts == [parts[0]] + rest;
    }
  }

  // ---------------------------------------------------------------------
  // Integer.parseInt and the %d conversion
  // ---------------------------------------------------------------------

  predicate IsDigit(c: char) {
    '0' <= c <= '9'
  }

  predicate AllDigits(d: string) {
    forall k :: 0 <= k < |d| ==> IsDigit(d[k])
  }

  function DigitValue(c: char): nat
    requires IsDigit(c)
  {
    (c as int) - ('0' as int)
  }

  /** The number a string of decimal digits denotes, most significant first. */
  function DigitsValue(d: string): nat
    requires AllDigits(d)
    decreases |d|
  {
    if d == [] then 0
    else DigitsValue(d[..|d| - 1]) * 10 + DigitValue(d[|d| - 1])
  }

  /**
   * Java's `Integer.parseInt(s)` in radix 10: an optional `+` or `-`, then at
   * least one digit, and a value that fits an `int`; anything else is a
   * `NumberFormatException`, here `None`.
   */
  function ParseInt(s: string): (r: Option<Int32>)
    ensures r.Some? ==> s != [] && (s[0] == '-' || s[0] == '+' || IsDigit(s[0]))
    ensures r.Some? ==> s != [] &&
                        (var d := if s[0] == '-' || s[0] == '+' then s[1..] else s; d != [] && AllDigits(d))
    ensures s == [] ==> r.None?
  {
    if s == [] then None
    else
      var signed := s[0] == '-' || s[0] == '+';
      var digits := if signed then s[1..] else s;
      if digits == [] || !AllDigits(digits) then None
      else
        var v: int := if s[0] == '-' then -(DigitsValue(digits) as int) else DigitsValue(digits);
        if IsInt32(v) then Some(v) else None
  }

  /** An optional sign then digits parse to their value exactly when it fits an `int`. */
  lemma ParseIntAccepts(sign: string, d: string)
    requires sign == "" || sign == "+" || sign == "-"
    requires d != [] && AllDigits(d)
    ensures var v := if sign == "-" then -(DigitsValue(d) as int) else DigitsValue(d);
      ParseInt(sign + d) == if IsInt32(v) then Some(v) else None
  {
    var s := sign + d;
    if sign == "" {
      assert s == d && IsDigit(s[0]);
    } else {
      assert s[0] == sign[0] && s[1..] == d;
    }
  }

  /**
   * A character other than a digit, except a sign in front, makes `parseInt`
   * throw; so does a sign with no digits after it.
   */
  lemma ParseIntRejects(s: string)
    ensures (exists k :: 0 <= k < |s| && !IsDigit(s[k]) && !(k == 0 && (s[0] == '-' || s[0] == '+')))
      ==> ParseInt(s).None?
    ensures (s == "-" || s == "+") ==> ParseInt(s).None?
  {
    if ParseInt(s).Some? {
      var signed := s[0] == '-' || s[0] == '+';
      var d := if signed then s[1..] else s;
      assert AllDigits(d);
      forall k | 0 <= k < |s| && !(k == 0 && signed)
        ensures IsDigit(s[k])
      {
        if signed {
          assert s[k] == d[k - 1];
        } else {
          assert s[k] == d[k];
        }
      }
    }
  }

  function DigitChar(n: nat): (c: char)
    requires n < 10
    ensures IsDigit(c) && DigitValue(c) == n
  {
    ('0' as int + n) as char
  }

  /** The decimal digits of `n`, most significant first, without leading zeros. */
  function DigitsOf(n: nat): (d: string)
    ensures |d| >= 1 && AllDigits(d)
    ensures d[0] == '0' ==> n == 0
    decreases n
  {
    if n < 10 then [DigitChar(n)]
    else DigitsOf(n / 10) + [DigitChar(n % 10)]
  }

  /** `String.format("%d", n)`: a minus sign for negative numbers, then the digits. */
  function FormatInt(n: int): (s: string)
    ensures Plain(s) && s != []
  {
    if n < 0 then "-" + DigitsOf(-n) else DigitsOf(n)
  }

  lemma {:induction false} DigitsRoundTrip(n: nat)
    ensures DigitsValue(DigitsOf(n)) == n
    decreases n
  {
    if n >= 10 {
      DigitsRoundTrip(n / 10);
      var d := DigitsOf(n);
      assert d[..|d| - 1] == DigitsOf(n / 10);
    }
  }

  /** Parsing what `%d` printed gives the number back, for every `int`. */
  lemma ParseFormatted(n: Int32)
    ensures ParseInt(FormatInt(n)) == Some(n)
  {
    var s := FormatInt(n);
    if n < 0 {
      var a: nat := -(n as int);
      DigitsRoundTrip(a);
      assert s[1..] == DigitsOf(a);
    } else {
      DigitsRoundTrip(n);
      assert IsDigit(s[0]);
    }
  }
}
