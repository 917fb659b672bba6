/**
 * The few `java.lang.String` / `Integer` / `Long` operations the core relies on,
 * written out with the semantics of the Java library: `toLowerCase(Locale.ROOT)`,
 * `startsWith`, `indexOf`, `split(" ")`, `trim`, `replace`, `Long.toString`
 * and `Integer.parseInt`.
 */
module JavaText {
  import opened Wrappers

  const INT_MIN: int := -0x8000_0000
  const INT_MAX: int := 0x7fff_ffff
  const LONG_MIN: int := -0x8000_0000_0000_0000
  const LONG_MAX: int := 0x7fff_ffff_ffff_ffff

  /** A Java `int`. */
  type Int32 = x: int | INT_MIN <= x <= INT_MAX
  /** A Java `long` (the channel ids are `Long`). */
  type Long = x: int | LONG_MIN <= x <= LONG_MAX

  /** Java's `long + long`, which wraps around modulo 2^64. */
  function AddLong(a: Long, b: Long): (r: Long)
    ensures (r - (a + b)) % 0x1_0000_0000_0000_0000 == 0
    ensures LONG_MIN <= a + b <= LONG_MAX ==> r == a + b
  {
    var s := a + b;
    if s > LONG_MAX then s - 0x1_0000_0000_0000_0000
    else if s < LONG_MIN then s + 0x1_0000_0000_0000_0000
    else s
  }

  // ---------------------------------------------------------------------------
  // Lower-casing

  /**
   * `Character.toLowerCase` on the ranges where it is a one-to-one shift:
   * ASCII capitals, Latin-1 capitals (except the multiplication sign) and the
   * basic Cyrillic capitals. Every other character is left as it is.
   */
  function LowerChar(c: char): char {
    if 'A' <= c <= 'Z' then (c as int + 32) as char
    else if '\U{00C0}' <= c <= '\U{00DE}' && c != '\U{00D7}' then (c as int + 32) as char
    else if '\U{0410}' <= c <= '\U{042F}' then (c as int + 32) as char
    else if '\U{0400}' <= c <= '\U{040F}' then (c as int + 80) as char
    else c
  }

  predicate IsUpper(c: char) {
    || 'A' <= c <= 'Z'
    || ('\U{00C0}' <= c <= '\U{00DE}' && c != '\U{00D7}')
    || '\U{0400}' <= c <= '\U{042F}'
  }

  /** A lower-cased character is never a capital, and lower-casing it again changes nothing. */
  lemma LowerCharIdempotent(c: char)
    ensures !IsUpper(LowerChar(c))
    ensures LowerChar(LowerChar(c)) == LowerChar(c)
  {
  }

  /** `s.toLowerCase(Locale.ROOT)`, character by character. */
  function ToLower(s: string): (r: string)
    ensures |r| == |s|
  {
    seq(|s|, i requires 0 <= i < |s| => LowerChar(s[i]))
  }

  lemma {:induction false} ToLowerIdempotent(s: string)
    ensures ToLower(ToLower(s)) == ToLower(s)
    ensures forall i :: 0 <= i < |s| ==> !IsUpper(ToLower(s)[i])
  {
    forall i | 0 <= i < |s|
      ensures ToLower(ToLower(s))[i] == ToLower(s)[i] && !IsUpper(ToLower(s)[i])
    {
      LowerCharIdempotent(s[i]);
    }
  }

  // ---------------------------------------------------------------------------
  // Searching and slicing

  /** `s.startsWith(p)`. */
  predicate StartsWith(s: string, p: string) {
    |p| <= |s| && s[..|p|] == p
  }

  /** `s.endsWith(p)`. */
  predicate EndsWith(s: string, p: string) {
    |p| <= |s| && s[|s| - |p|..] == p
  }

  /** `s.indexOf(c)`: the first index holding `c`, or -1. */
  function IndexOf(s: string, c: char): (r: int)
    ensures r == -1 <==> c !in s
    ensures r != -1 ==> 0 <= r < |s| && s[r] == c && c !in s[..r]
  {
    if s == [] then -1
    else if s[0] == c then 0
    else
      var k := IndexOf(s[1..], c);
      assert s[1..][..(if k == -1 then 0 else k)] == s[1..(if k == -1 then 1 else k + 1)];
      if k == -1 then -1 else k + 1
  }

  /** `s.replace(String.valueOf(c), "")`: every occurrence of `c` removed, the rest kept in order. */
  function RemoveChar(s: string, c: char): (r: string)
    ensures c !in r
    ensures forall d :: d != c ==> (d in r <==> d in s)
    ensures multiset(r) == multiset(s)[c := 0]
    ensures |r| <= |s|
  {
    if s == [] then []
    else
      assert s == [s[0]] + s[1..];
      if s[0] == c then RemoveChar(s[1..], c)
      else [s[0]] + RemoveChar(s[1..], c)
  }

  /** Removing a character works piece by piece, so the kept characters stay in their order. */
  lemma {:induction false} RemoveCharAppend(s: string, t: string, c: char)
    ensures RemoveChar(s + t, c) == RemoveChar(s, c) + RemoveChar(t, c)
  {
    if s == [] {
      assert s + t == t;
    } else {
      assert (s + t)[0] == s[0];
      assert (s + t)[1..] == s[1..] + t;
      RemoveCharAppend(s[1..], t, c);
    }
  }

  /** `s.trim()`: strips every leading and trailing character at or below U+0020. */
  function Trim(s: string): (r: string)
    ensures |r| <= |s|
    ensures r != [] ==> r[0] > ' ' && r[|r| - 1] > ' '
    ensures exists a, b :: TrimmedSlice(s, r, a, b)
  {
    var a := TrimStart(s, 0);
    var b := TrimEnd(s, a, |s|);
    assert TrimmedSlice(s, s[a..b], a, b);
    s[a..b]
  }

  /** `r` is the slice `s[a..b]`, and only characters at or below a space lie outside it. */
  predicate TrimmedSlice(s: string, r: string, a: int, b: int) {
    0 <= a <= b <= |s| && r == s[a..b]
    && (forall i :: 0 <= i < a ==> s[i] <= ' ')
    && (forall i :: b <= i < |s| ==> s[i] <= ' ')
  }

  /** The index of the first character above a space at or after `a` (or `|s|`), as the first loop of `trim` finds it. */
  function TrimStart(s: string, a: nat): (r: nat)
    requires a <= |s|
    requires forall i :: 0 <= i < a ==> s[i] <= ' '
    ensures a <= r <= |s|
    ensures forall i :: 0 <= i < r ==> s[i] <= ' '
    ensures r < |s| ==> s[r] > ' '
    decreases |s| - a
  {
    if a < |s| && s[a] <= ' ' then TrimStart(s, a + 1) else a
  }

  /** The end of the text left after dropping the characters at or below a space before `b`, but not below `a`, as the second loop of `trim` finds it. */
  function TrimEnd(s: string, a: nat, b: nat): (r: nat)
    requires a <= b <= |s|
    requires forall i :: b <= i < |s| ==> s[i] <= ' '
    ensures a <= r <= b
    ensures forall i :: r <= i < |s| ==> s[i] <= ' '
    ensures r > a ==> s[r - 1] > ' '
  {
    if b > a && s[b - 1] <= ' ' then TrimEnd(s, a, b - 1) else b
  }

  // ---------------------------------------------------------------------------
  // split(" ")

  /** The pieces of `s` between single spaces, empty pieces included. */
  function Pieces(s: string): (r: seq<string>)
    ensures |r| >= 1
  {
    if s == [] then [[]]
    else
      var rest := Pieces(s[1..]);
      if s[0] == ' ' then [[]] + rest else [[s[0]] + rest[0]] + rest[1..]
  }

  /** The pieces joined back with single spaces. */
  function Join(ps: seq<string>): string {
    if ps == [] then []
    else if |ps| == 1 then ps[0]
    else ps[0] + " " + Join(ps[1..])
  }

  /** Splitting at spaces loses nothing: joining the pieces gives the input back, and no piece holds a space. */
  lemma {:induction false} PiecesJoin(s: string)
    ensures Join(Pieces(s)) == s
    ensures forall p :: p in Pieces(s) ==> ' ' !in p
  {
    if s != [] {
      var rest := Pieces(s[1..]);
      PiecesJoin(s[1..]);
      if s[0] != ' ' {
        var ps := [[s[0]] + rest[0]] + rest[1..];
        assert ps[1..] == rest[1..];
        if |rest| > 1 {
          assert Join(rest) == rest[0] + " " + Join(rest[1..]);
        }
        assert rest[0] in rest;
        forall p | p in ps ensures ' ' !in p {
          if p != ps[0] { assert p in rest; }
        }
      } else {
        assert ([[]] + rest)[1..] == rest;
      }
    }
  }

  /** Drops the empty strings at the end of `ps`, as `split` with limit 0 does. */
  function DropTrailingEmpty(ps: seq<string>): (r: seq<string>)
    ensures |r| <= |ps| && r == ps[..|r|]
    ensures r != [] ==> r[|r| - 1] != []
    ensures forall k :: |r| <= k < |ps| ==> ps[k] == []
  {
    if ps == [] then []
    else if ps[|ps| - 1] == [] then DropTrailingEmpty(ps[..|ps| - 1])
    else ps
  }

  /**
   * `s.split(" ")`: with no space in `s` the result is `[s]` (even for the empty
   * string); otherwise the pieces between spaces with the trailing empty ones dropped.
   */
  function Split(s: string): (r: seq<string>)
    ensures ' ' !in s ==> r == [s]
    ensures forall p :: p in r ==> ' ' !in p
    ensures ' ' in s ==> |r| <= |Pieces(s)| && r == Pieces(s)[..|r|]
    ensures ' ' in s ==> (forall k :: |r| <= k < |Pieces(s)| ==> Pieces(s)[k] == []) && (r != [] ==> r[|r| - 1] != [])
  {
    PiecesJoin(s);
    if ' ' !in s then [s] else DropTrailingEmpty(Pieces(s))
  }

  // ---------------------------------------------------------------------------
  // Decimal numbers

  predicate IsDigit(c: char) { '0' <= c <= '9' }

  predicate AllDigits(s: string) {
    forall i :: 0 <= i < |s| ==> IsDigit(s[i])
  }

  function DigitChar(d: nat): (c: char)
    requires d < 10
    ensures IsDigit(c)
  {
    ('0' as int + d) as char
  }

  /** The decimal digits of `n`, most significant first, no leading zero. */
  function Digits(n: nat): (s: string)
    ensures |s| >= 1 && AllDigits(s)
  {
    if n < 10 then [DigitChar(n)] else Digits(n / 10) + [DigitChar(n % 10)]
  }

  /** The value of a string of decimal digits. */
  function DigitsValue(s: string): nat
    requires AllDigits(s)
  {
    if s == [] then 0 else DigitsValue(s[..|s| - 1]) * 10 + (s[|s| - 1] as int - '0' as int)
  }

  lemma {:induction false} DigitsRoundTrip(n: nat)
    ensures DigitsValue(Digits(n)) == n
  {
    if n >= 10 {
      var s := Digits(n / 10) + [DigitChar(n % 10)];
      assert s[..|s| - 1] == Digits(n / 10);
      DigitsRoundTrip(n / 10);
    }
  }

  /** `Long.toString(n)` and `String.valueOf(int)`: an optional minus sign and the digits. */
  function DecimalString(n: int): (s: string)
    ensures |s| >= 1
    ensures s[0] == '-' <==> n < 0
  {
    if n < 0 then "-" + Digits(-n) else Digits(n)
  }

  /** Different naturals have different digit strings. */
  lemma DigitsInjective(a: nat, b: nat)
    requires Digits(a) == Digits(b)
    ensures a == b
  {
    DigitsRoundTrip(a);
    DigitsRoundTrip(b);
  }

  /** Different numbers have different decimal strings. */
  lemma DecimalStringInjective(a: int, b: int)
    requires DecimalString(a) == DecimalString(b)
    ensures a == b
  {
    if a < 0 {
      var da, db := Digits(-a), Digits(-b);
      assert DecimalString(a) == "-" + da;
      assert DecimalString(b) == "-" + db;
      assert da == ("-" + da)[1..];
      assert db == ("-" + db)[1..];
      DigitsInjective(-a, -b);
    } else {
      DigitsInjective(a, b);
    }
  }

  /**
   * `Integer.parseInt(s)`: an optional '+' or '-' followed by at least one
   * ASCII digit, with a value that fits an `int`; None where Java throws
   * `NumberFormatException`.
   */
  function ParseInt(s: string): (r: Option<Int32>)
    ensures r.Some? ==> |s| >= 1
    ensures r.Some? && s[0] != '-' && s[0] != '+' ==> AllDigits(s) && r.value == DigitsValue(s)
    ensures r.Some? && s[0] == '-' ==> |s| >= 2 && AllDigits(s[1..]) && r.value == -(DigitsValue(s[1..]) as int)
    ensures r.Some? && '-' !in s ==> r.value >= 0
    ensures |s| >= 1 && AllDigits(s) && DigitsValue(s) <= INT_MAX ==> r == Some(DigitsValue(s))
    ensures |s| >= 2 && s[0] == '-' && AllDigits(s[1..]) && DigitsValue(s[1..]) <= -INT_MIN ==> r == Some(-(DigitsValue(s[1..]) as int))
    ensures |s| >= 2 && s[0] == '+' && AllDigits(s[1..]) && DigitsValue(s[1..]) <= INT_MAX ==> r == Some(DigitsValue(s[1..]))
  {
    if |s| == 0 then None
    else if s[0] == '-' || s[0] == '+' then
      if |s| == 1 || !AllDigits(s[1..]) then None
      else
        var v := if s[0] == '-' then -(DigitsValue(s[1..]) as int) else DigitsValue(s[1..]) as int;
        if INT_MIN <= v <= INT_MAX then Some(v) else None
    else if AllDigits(s) && DigitsValue(s) <= INT_MAX then Some(DigitsValue(s))
    else None
  }

  /** Parsing the decimal string of an `int` gives the `int` back. */
  lemma ParseIntRoundTrip(n: Int32)
    ensures ParseInt(DecimalString(n)) == Some(n)
  {
    var s := DecimalString(n);
    if n < 0 {
      assert s[1..] == Digits(-(n as int));
      DigitsRoundTrip(-(n as int));
      assert s[0] == '-' && AllDigits(s[1..]);
      assert -(DigitsValue(s[1..]) as int) == n;
    } else {
      assert s == Digits(n);
      DigitsRoundTrip(n);
      assert IsDigit(s[0]);
    }
  }

  /** A string holding a character that is no digit, past an optional sign, never parses. */
  lemma ParseIntRejectsNonDigit(s: string, i: nat)
    requires 0 < i < |s| && !IsDigit(s[i])
    ensures ParseInt(s) == None
  {
    assert s[0] == '-' || s[0] == '+' ==> !IsDigit(s[1..][i - 1]);
  }
}
