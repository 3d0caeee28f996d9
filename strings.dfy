/** String helpers that stand for the JavaScript string operations the
    application relies on: number-to-string, `toFixed(2)` on integer cents,
    ASCII case mapping, `includes`, `startsWith`, `split` and ten-based
    `parseInt`. */
module Strings {

  import opened Wrappers

  predicate IsDigit(c: char) { '0' <= c <= '9' }

  predicate AllDigits(s: string) { forall i :: 0 <= i < |s| ==> IsDigit(s[i]) }

  function DigitChar(d: nat): (c: char)
    requires d < 10
    ensures IsDigit(c) && DigitValue(c) == d
  {
    (48 + d) as char
  }

  function DigitValue(c: char): (d: nat)
    requires IsDigit(c)
    ensures d < 10
  {
    (c as int) - 48
  }

  /** Decimal rendering of a natural number, as `String(n)` does for integers. */
  function NatToString(n: nat): (s: string)
    ensures |s| >= 1 && AllDigits(s)
    ensures s[0] == '0' ==> n == 0
    decreases n
  {
    if n < 10 then [DigitChar(n)] else NatToString(n / 10) + [DigitChar(n % 10)]
  }

  /** Reads back a string of decimal digits. */
  function ParseNat(s: string): nat
    requires AllDigits(s)
  {
    if s == [] then 0 else ParseNat(s[..|s| - 1]) * 10 + DigitValue(s[|s| - 1])
  }

  lemma {:induction false} ParseNatToString(n: nat)
    ensures ParseNat(NatToString(n)) == n
    decreases n
  {
    var s := NatToString(n);
    if n >= 10 {
      assert s[..|s| - 1] == NatToString(n / 10);
      ParseNatToString(n / 10);
    }
  }

  /** `String(i)` for an integer-valued JavaScript number. */
  function IntToString(i: int): (s: string)
    ensures i >= 0 ==> s == NatToString(i)
    ensures i < 0 ==> s == "-" + NatToString(-i)
  {
    if i < 0 then "-" + NatToString(-i) else NatToString(i)
  }

  /** An unsigned amount written with exactly two fraction digits: `d+.dd`. */
  predicate IsAmountText(s: string) {
    |s| >= 4 && s[|s| - 3] == '.' && AllDigits(s[..|s| - 3]) && AllDigits(s[|s| - 2..])
  }

  /** The number of cents an amount text stands for. */
  function ParseAmount(s: string): nat
    requires IsAmountText(s)
  {
    ParseNat(s[..|s| - 3]) * 100 + ParseNat(s[|s| - 2..])
  }

  function UnsignedCents(n: nat): string {
    NatToString(n / 100) + "." + [DigitChar(n / 10 % 10), DigitChar(n % 10)]
  }

  /** `(cents / 100).toFixed(2)`, with the amount held as integer cents so no
      floating-point rounding is involved. */
  function FormatCents(cents: int): string {
    if cents < 0 then "-" + UnsignedCents(-cents) else UnsignedCents(cents)
  }

  /** Every rendered amount has exactly two fraction digits and reads back as
      the same number of cents; a leading '-' appears exactly for negatives. */
  lemma {:induction false} FormatCentsRoundTrip(cents: int)
    ensures var s := FormatCents(cents);
      if cents < 0 then s[0] == '-' && IsAmountText(s[1..]) && ParseAmount(s[1..]) == -cents
      else IsAmountText(s) && ParseAmount(s) == cents
  {
    var n: nat := if cents < 0 then -cents else cents;
    UnsignedCentsRoundTrip(n);
    if cents < 0 {
      assert FormatCents(cents)[1..] == UnsignedCents(n);
    }
  }

  lemma {:induction false} UnsignedCentsRoundTrip(n: nat)
    ensures IsAmountText(UnsignedCents(n)) && ParseAmount(UnsignedCents(n)) == n
  {
    var u := UnsignedCents(n);
    var w := NatToString(n / 100);
    var t := [DigitChar(n / 10 % 10), DigitChar(n % 10)];
    assert u == w + "." + t;
    assert u[..|u| - 3] == w;
    assert u[|u| - 3] == '.';
    assert u[|u| - 2..] == t;
    ParseNatToString(n / 100);
    TwoDigits(n / 10 % 10, n % 10);
    CentsDigits(n);
  }

  lemma CentsDigits(n: nat)
    ensures n / 100 * 100 + ((n / 10 % 10) * 10 + n % 10) == n
  {
    var m := n / 10;
    assert n == m * 10 + n % 10;
    assert m == m / 10 * 10 + m % 10;
    assert m / 10 == n / 100;
  }

  lemma TwoDigits(a: nat, b: nat)
    requires a < 10 && b < 10
    ensures ParseNat([DigitChar(a), DigitChar(b)]) == a * 10 + b
  {
    var t := [DigitChar(a), DigitChar(b)];
    assert t[..1] == [DigitChar(a)];
    assert [DigitChar(a)][..0] == [];
    assert ParseNat([DigitChar(a)]) == a;
    assert t[|t| - 1] == DigitChar(b) && t[..|t| - 1] == [DigitChar(a)];
  }

  function LowerChar(c: char): char {
    if 'A' <= c <= 'Z' then ((c as int) + 32) as char else c
  }

  function UpperChar(c: char): char {
    if 'a' <= c <= 'z' then ((c as int) - 32) as char else c
  }

  /** `toLowerCase()`, restricted to the ASCII letters. */
  function ToLower(s: string): (r: string)
    ensures |r| == |s| && forall i :: 0 <= i < |s| ==> r[i] == LowerChar(s[i])
  {
    if s == [] then [] else [LowerChar(s[0])] + ToLower(s[1..])
  }

  /** `toUpperCase()`, restricted to the ASCII letters. */
  function ToUpper(s: string): (r: string)
    ensures |r| == |s| && forall i :: 0 <= i < |s| ==> r[i] == UpperChar(s[i])
  {
    if s == [] then [] else [UpperChar(s[0])] + ToUpper(s[1..])
  }

  predicate StartsWith(s: string, prefix: string) {
    |prefix| <= |s| && s[..|prefix|] == prefix
  }

  /** `q` occurs in `s` starting at position `i`. */
  predicate OccursAt(s: string, q: string, i: int) {
    0 <= i && i + |q| <= |s| && s[i..i + |q|] == q
  }

  /** `s.includes(q)`, computed by trying each start position in turn. */
  predicate Includes(s: string, q: string)
    decreases |s|
  {
    StartsWith(s, q) || (s != [] && Includes(s[1..], q))
  }

  /** `Includes` holds exactly when `q` occurs somewhere in `s`. */
  lemma {:induction false} IncludesAt(s: string, q: string)
    ensures Includes(s, q) <==> exists i :: OccursAt(s, q, i)
    decreases |s|
  {
    if s == [] {
      if StartsWith(s, q) {
        assert OccursAt(s, q, 0);
      }
      if exists i :: OccursAt(s, q, i) {
        var i :| OccursAt(s, q, i);
        assert StartsWith(s, q);
      }
    } else {
      IncludesAt(s[1..], q);
      if Includes(s[1..], q) {
        var i :| OccursAt(s[1..], q, i);
        assert s[i + 1..i + 1 + |q|] == s[1..][i..i + |q|];
        assert OccursAt(s, q, i + 1);
      }
      if StartsWith(s, q) {
        assert OccursAt(s, q, 0);
      }
      if exists i :: OccursAt(s, q, i) {
        var i :| OccursAt(s, q, i);
        if i == 0 {
          assert StartsWith(s, q);
        } else {
          assert s[1..][i - 1..i - 1 + |q|] == s[i..i + |q|];
          assert OccursAt(s[1..], q, i - 1);
        }
      }
    }
  }

  /** `s.split(sep)` for a one-character separator: the pieces between
      separators, so "a  b" splits into "a", "" and "b", and "" into one empty piece. */
  function Split(s: string, sep: char): (pieces: seq<string>)
    ensures |pieces| >= 1
    ensures forall k :: 0 <= k < |pieces| ==> sep !in pieces[k]
    decreases |s|
  {
    if s == [] then [""]
    else if s[0] == sep then [""] + Split(s[1..], sep)
    else
      var rest := Split(s[1..], sep);
      [[s[0]] + rest[0]] + rest[1..]
  }

  function Join(pieces: seq<string>, sep: char): string
    requires |pieces| >= 1
    decreases |pieces|
  {
    if |pieces| == 1 then pieces[0] else pieces[0] + [sep] + Join(pieces[1..], sep)
  }

  /** Splitting loses nothing: joining the pieces with the separator gives back the string. */
  lemma {:induction false} JoinSplit(s: string, sep: char)
    ensures Join(Split(s, sep), sep) == s
    decreases |s|
  {
    if s != [] {
      JoinSplit(s[1..], sep);
      var rest := Split(s[1..], sep);
      if s[0] == sep {
        assert Split(s, sep)[1..] == rest;
      } else {
        var p := Split(s, sep);
        assert p[1..] == rest[1..];
        if |rest| > 1 {
          assert Join(rest, sep) == rest[0] + [sep] + Join(rest[1..], sep);
        }
      }
    }
  }
  /** A string without the separator is a single piece. */
  lemma {:induction false} SplitWhole(s: string, sep: char)
    requires sep !in s
    ensures Split(s, sep) == [s]
    decreases |s|
  {
    if s != [] {
      assert sep !in s[1..];
      SplitWhole(s[1..], sep);
      assert s[0] != sep;
      assert [s[0]] + s[1..] == s;
    }
  }

  /** The text before the first separator is the first piece, and the
      pieces after it are those of the rest. */
  lemma {:induction false} SplitFirst(a: string, sep: char, b: string)
    requires sep !in a
    ensures Split(a + [sep] + b, sep) == [a] + Split(b, sep)
    decreases |a|
  {
    var s := a + [sep] + b;
    if a == [] {
      assert s == [sep] + b;
      assert s[1..] == b;
    } else {
      assert s[0] == a[0] && s[1..] == a[1..] + [sep] + b;
      assert sep !in a[1..];
      SplitFirst(a[1..], sep, b);
      assert [a[0]] + a[1..] == a;
    }
  }

  /** The white space `parseInt` and `parseFloat` skip, restricted to the
      ASCII kinds: space, tab, line feed, vertical tab, form feed and
      carriage return. */
  predicate IsSpace(c: char) {
    c == ' ' || c == '\t' || c == '\n' || c == '\U{B}' || c == '\U{C}' || c == '\r'
  }

  function TrimStart(s: string): (r: string)
    ensures r != [] ==> !IsSpace(r[0])
    decreases |s|
  {
    if s != [] && IsSpace(s[0]) then TrimStart(s[1..]) else s
  }

  /** The longest run of decimal digits at the start of `s`. */
  function DigitPrefix(s: string): (d: string)
    ensures AllDigits(d) && |d| <= |s|
    decreases |s|
  {
    if s != [] && IsDigit(s[0]) then [s[0]] + DigitPrefix(s[1..]) else []
  }

  /** `DigitPrefix` is a prefix, and the character after it, if any, is not a digit. */
  lemma {:induction false} DigitPrefixSpec(s: string)
    ensures var d := DigitPrefix(s);
      |d| <= |s| && d == s[..|d|] && (|d| < |s| ==> !IsDigit(s[|d|]))
    decreases |s|
  {
    if s != [] && IsDigit(s[0]) {
      DigitPrefixSpec(s[1..]);
      assert [s[0]] + s[1..] == s;
    }
  }

  /** `parseInt(s)` without a radix, for decimal text: leading white space
      and one sign are skipped, then the digits up to the first other
      character are read; `None` stands for `NaN`, when there is no digit. */
  function ParseInt(s: string): Option<int> {
    ParseTrimmed(TrimStart(s))
  }

  function ParseTrimmed(t: string): Option<int> {
    if t != [] && t[0] == '-' then Negate(ParseDigits(t[1..]))
    else if t != [] && t[0] == '+' then ParseDigits(t[1..])
    else ParseDigits(t)
  }

  function ParseDigits(u: string): Option<int> {
    var d := DigitPrefix(u);
    if d == [] then None else Some(ParseNat(d))
  }

  function Negate(r: Option<int>): Option<int> {
    if r.Some? then Some(0 - r.value) else None
  }

  lemma {:induction false} DigitPrefixOfDigits(d: string, rest: string)
    requires AllDigits(d)
    requires rest != [] ==> !IsDigit(rest[0])
    ensures DigitPrefix(d + rest) == d
    decreases |d|
  {
    if d == [] {
      assert d + rest == rest;
    } else {
      assert (d + rest)[1..] == d[1..] + rest;
      DigitPrefixOfDigits(d[1..], rest);
    }
  }

  /** `parseInt` reads back what `String` wrote for an integer, and stops at
      the first character that is not a digit, so `"12abc"` reads as 12. */
  lemma ParseIntToString(i: int, rest: string)
    requires rest != [] ==> !IsDigit(rest[0])
    ensures ParseInt(IntToString(i) + rest) == Some(i)
  {
    var n: nat := if i < 0 then -i else i;
    ParseNatToString(n);
    if i < 0 {
      assert IntToString(i) + rest == "-" + (NatToString(n) + rest);
      ParseIntSigned(NatToString(n), rest);
    } else {
      ParseIntDigits(NatToString(n), rest);
    }
  }

  lemma ParseIntDigits(d: string, rest: string)
    requires d != [] && AllDigits(d)
    requires rest != [] ==> !IsDigit(rest[0])
    ensures ParseInt(d + rest) == Some(ParseNat(d))
  {
    var t := d + rest;
    assert t[0] == d[0];
    TrimStartKeeps(t);
    DigitPrefixOfDigits(d, rest);
    assert ParseDigits(t) == Some(ParseNat(d));
  }

  lemma ParseIntSigned(d: string, rest: string)
    requires d != [] && AllDigits(d)
    requires rest != [] ==> !IsDigit(rest[0])
    ensures ParseInt("-" + (d + rest)) == Some(0 - ParseNat(d))
  {
    var t := "-" + (d + rest);
    assert t[0] == '-';
    TrimStartKeeps(t);
    assert t[1..] == d + rest;
    DigitPrefixOfDigits(d, rest);
    assert ParseDigits(t[1..]) == Some(ParseNat(d));
  }

  lemma TrimStartKeeps(t: string)
    requires t != [] && !IsSpace(t[0])
    ensures TrimStart(t) == t
  {
  }

  /** Text with no digit after the white space and the sign is `NaN`. */
  lemma ParseIntBlank(s: string)
    requires s == [] || (!IsSpace(s[0]) && !IsDigit(s[0]) && s[0] != '-' && s[0] != '+')
    ensures ParseInt(s) == None
  {
    if s != [] {
      TrimStartKeeps(s);
    }
  }

  /** What the fraction digits of a decimal text add, in cents, when the
      digits after the second are all zero; `None` otherwise. */
  function FractionCents(f: string): Option<int>
    requires AllDigits(f)
  {
    if exists i :: 2 <= i < |f| && f[i] != '0' then None
    else if f == [] then Some(0)
    else if |f| == 1 then Some(DigitValue(f[0]) * 10)
    else Some(DigitValue(f[0]) * 10 + DigitValue(f[1]))
  }

  /** Digits, then optionally '.' and more digits, read as cents. */
  function UnsignedCentsOf(u: string): Option<int> {
    var w := DigitPrefix(u);
    var f := if |w| < |u| && u[|w|] == '.' then DigitPrefix(u[|w| + 1..]) else [];
    if w == [] && f == [] then None
    else
      var c := FractionCents(f);
      if c.None? then None else Some(ParseNat(w) * 100 + c.value)
  }

  /** `parseFloat(s)` for decimal text, in cents: leading white space and one
      sign are skipped, then the digits, a '.' and the fraction digits up to
      the first other character are read. `None` stands for `NaN`, when there
      is no digit, and also for a value that is not a whole number of cents. */
  function ParseFloatCents(s: string): Option<int> {
    var t := TrimStart(s);
    if t != [] && t[0] == '-' then Negate(UnsignedCentsOf(t[1..]))
    else if t != [] && t[0] == '+' then UnsignedCentsOf(t[1..])
    else UnsignedCentsOf(t)
  }

  /** `n.toFixed(2)` for a number held as cents; `NaN` is written "NaN". */
  function ToFixed(n: Option<int>): string {
    if n.None? then "NaN" else FormatCents(n.value)
  }

  /** A whole number written by `String` reads back as that many units. */
  lemma {:induction false} ParseFloatNat(n: nat)
    ensures ParseFloatCents(NatToString(n)) == Some(n * 100)
  {
    var u := NatToString(n);
    TrimStartKeeps(u);
    assert u + [] == u;
    DigitPrefixOfDigits(u, []);
    ParseNatToString(n);
  }

  /** `parseFloat` reads back what `toFixed(2)` wrote, `NaN` included. */
  lemma {:induction false} ParseFloatToFixed(n: Option<int>)
    ensures ParseFloatCents(ToFixed(n)) == n
  {
    if n.None? {
      assert DigitPrefix("NaN") == [];
    } else {
      var c := n.value;
      var m: nat := if c < 0 then -c else c;
      ReadUnsignedCents(m);
      if c < 0 {
        var s := FormatCents(c);
        assert s[0] == '-' && s[1..] == UnsignedCents(m);
        TrimStartKeeps(s);
      } else {
        TrimStartKeeps(UnsignedCents(m));
      }
    }
  }

  /** `parseFloat` of an unsigned `toFixed(2)` text gives back its cents. */
  lemma {:induction false} ReadUnsignedCents(m: nat)
    ensures UnsignedCentsOf(UnsignedCents(m)) == Some(m)
  {
    var w := NatToString(m / 100);
    var t := [DigitChar(m / 10 % 10), DigitChar(m % 10)];
    var u := UnsignedCents(m);
    assert u == w + ("." + t);
    DigitPrefixOfDigits(w, "." + t);
    assert u[|w|] == '.' && u[|w| + 1..] == t;
    assert t + [] == t;
    DigitPrefixOfDigits(t, []);
    ParseNatToString(m / 100);
    CentsDigits(m);
  }

  /** Text without a digit before or after a leading '.' is `NaN`. */
  lemma ParseFloatBlank(s: string)
    requires s == [] || (!IsSpace(s[0]) && !IsDigit(s[0]) && s[0] !in "-+.")
    ensures ParseFloatCents(s) == None
  {
    if s != [] {
      TrimStartKeeps(s);
    }
  }
}
