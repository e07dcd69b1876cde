/**
 The Python string operations the pipelines rely on: `strip()`,
 `split("\t")`, `"sep".join(...)`, `upper()`, slicing, `startswith`, `int()`
 and the ordering `sorted` uses on strings.
 */
module PyStr {
  import opened Basics

  /** The characters `str.strip()` removes: those for which `str.isspace()` holds. */
  predicate IsSpace(ch: char) {
    var n := ch as int;
    || n == 0x20 || 0x09 <= n <= 0x0D || 0x1C <= n <= 0x1F || n == 0x85 || n == 0xA0
    || n == 0x1680 || 0x2000 <= n <= 0x200A || n == 0x2028 || n == 0x2029 || n == 0x202F
    || n == 0x205F || n == 0x3000
  }

  /** An information separator, U+001C to U+001F: whitespace to `strip()`, but not to `int()`. */
  predicate IsSeparator(ch: char) {
    0x1C <= ch as int <= 0x1F
  }

  /**
   The whitespace `int()` accepts around a number: all of `IsSpace` except the
   information separators U+001C to U+001F, which `int()` rejects.
   */
  predicate IntSpace(ch: char) {
    IsSpace(ch) && !IsSeparator(ch)
  }

  /** The characters stripped: `IntSpace` for `int()`, `IsSpace` for `str.strip()`. */
  predicate StripSpace(ch: char, forInt: bool) {
    if forInt then IntSpace(ch) else IsSpace(ch)
  }

  /** The index of the first `c` in `s`, or `|s|` when there is none. */
  function IndexOf(s: string, c: char): (r: nat)
    ensures r <= |s|
    ensures r < |s| ==> s[r] == c
    ensures forall k | 0 <= k < r :: s[k] != c
  {
    if |s| == 0 then 0
    else if s[0] == c then 0
    else 1 + IndexOf(s[1..], c)
  }

  /** `sep.join(parts)`. */
  function Join(sep: string, parts: seq<string>): (r: string)
    ensures |parts| == 1 ==> r == parts[0]
  {
    if |parts| == 0 then ""
    else if |parts| == 1 then parts[0]
    else parts[0] + sep + Join(sep, parts[1..])
  }

  /** `s.split(sep)` for a one-character separator: the pieces between separators, never fewer than one. */
  function Split(s: string, sep: char): (parts: seq<string>)
    ensures |parts| >= 1
    ensures forall i | 0 <= i < |parts| :: sep !in parts[i]
    decreases |s|
  {
    var i := IndexOf(s, sep);
    if i == |s| then [s]
    else [s[..i]] + Split(s[i + 1..], sep)
  }

  /** Joining the pieces of a split with the separator gives the string back. */
  lemma {:induction false} JoinSplit(s: string, sep: char)
    ensures Join([sep], Split(s, sep)) == s
    decreases |s|
  {
    var i := IndexOf(s, sep);
    if i < |s| {
      var rest := Split(s[i + 1..], sep);
      SplitUnfold(s, sep);
      JoinSplit(s[i + 1..], sep);
      JoinCons([sep], s[..i], rest);
      SliceAround(s, i);
    }
  }

  /** Splitting a join of separator-free pieces gives the pieces back. */
  lemma {:induction false} SplitJoin(parts: seq<string>, sep: char)
    requires |parts| >= 1
    requires forall i | 0 <= i < |parts| :: sep !in parts[i]
    ensures Split(Join([sep], parts), sep) == parts
    decreases |parts|
  {
    if |parts| > 1 {
      var rest := Join([sep], parts[1..]);
      assert [parts[0]] + parts[1..] == parts;
      JoinCons([sep], parts[0], parts[1..]);
      IndexOfSeparator(parts[0], sep, rest);
      SplitUnfold(Join([sep], parts), sep);
      SplitJoin(parts[1..], sep);
    }
  }

  /** A join starts with its first piece's first character and ends with its last piece's last character. */
  lemma {:induction false} JoinEnds(sep: string, parts: seq<string>)
    requires |parts| >= 1 && |parts[|parts| - 1]| > 0
    ensures |Join(sep, parts)| > 0
    ensures |parts[0]| > 0 ==> Join(sep, parts)[0] == parts[0][0]
    ensures Join(sep, parts)[|Join(sep, parts)| - 1] == parts[|parts| - 1][|parts[|parts| - 1]| - 1]
    decreases |parts|
  {
    if |parts| > 1 {
      assert [parts[0]] + parts[1..] == parts;
      JoinCons(sep, parts[0], parts[1..]);
      JoinEnds(sep, parts[1..]);
    }
  }

  /** A split at a separator: the piece before it, then the split of what follows. */
  lemma SplitUnfold(s: string, sep: char)
    requires IndexOf(s, sep) < |s|
    ensures Split(s, sep) == [s[..IndexOf(s, sep)]] + Split(s[IndexOf(s, sep) + 1..], sep)
  {
  }

  /** A join of a first piece and at least one more. */
  lemma JoinCons(sep: string, first: string, rest: seq<string>)
    requires |rest| >= 1
    ensures Join(sep, [first] + rest) == first + sep + Join(sep, rest)
  {
    assert ([first] + rest)[1..] == rest;
  }

  /** A string is its part before index i, the character at i, and its part after. */
  lemma SliceAround(s: string, i: nat)
    requires i < |s|
    ensures s == s[..i] + [s[i]] + s[i + 1..]
  {
  }

  /** In `a + [c] + b` with no `c` in `a`, the first `c` is the one after `a`. */
  lemma IndexOfSeparator(a: string, c: char, b: string)
    requires c !in a
    ensures IndexOf(a + [c] + b, c) == |a|
    ensures (a + [c] + b)[..|a|] == a && (a + [c] + b)[|a| + 1..] == b
  {
    var s := a + [c] + b;
    forall k | 0 <= k < |a| ensures s[k] != c {
      assert s[k] == a[k];
    }
    IndexOfFirst(s, c, |a|);
  }

  lemma {:induction false} IndexOfFirst(s: string, c: char, n: nat)
    requires n < |s| && s[n] == c
    requires forall k | 0 <= k < n :: s[k] != c
    ensures IndexOf(s, c) == n
    decreases n
  {
    if n > 0 {
      IndexOfFirst(s[1..], c, n - 1);
    }
  }

  /** The bounds stripping keeps: everything outside is stripped, and the kept part neither starts nor ends with a stripped character. */
  function StripBounds(s: string, forInt: bool): (b: (nat, nat))
    ensures b.0 <= b.1 <= |s|
    ensures forall k | 0 <= k < b.0 :: StripSpace(s[k], forInt)
    ensures forall k | b.1 <= k < |s| :: StripSpace(s[k], forInt)
    ensures b.0 < b.1 ==> !StripSpace(s[b.0], forInt) && !StripSpace(s[b.1 - 1], forInt)
    ensures b.0 == b.1 ==> b.0 == 0 && b.1 == 0
  {
    var i := LeadingSpaces(s, 0, forInt);
    if i == |s| then (0, 0) else (i, TrailingEnd(s, i, |s|, forInt))
  }

  function LeadingSpaces(s: string, i: nat, forInt: bool): (r: nat)
    requires i <= |s|
    requires forall k | 0 <= k < i :: StripSpace(s[k], forInt)
    ensures i <= r <= |s|
    ensures forall k | 0 <= k < r :: StripSpace(s[k], forInt)
    ensures r < |s| ==> !StripSpace(s[r], forInt)
    decreases |s| - i
  {
    if i == |s| || !StripSpace(s[i], forInt) then i else LeadingSpaces(s, i + 1, forInt)
  }

  function TrailingEnd(s: string, lo: nat, j: nat, forInt: bool): (r: nat)
    requires lo < j <= |s| && !StripSpace(s[lo], forInt)
    requires forall k | j <= k < |s| :: StripSpace(s[k], forInt)
    ensures lo < r <= j
    ensures !StripSpace(s[r - 1], forInt)
    ensures forall k | r <= k < |s| :: StripSpace(s[k], forInt)
    decreases j
  {
    if !StripSpace(s[j - 1], forInt) then j else TrailingEnd(s, lo, j - 1, forInt)
  }

  /** Every character of `s` is whitespace. */
  predicate AllSpace(s: string) {
    forall k | 0 <= k < |s| :: IsSpace(s[k])
  }

  /** `s.strip()`: the part of `s` left when the whitespace at both ends is cut off. */
  function Strip(s: string): (r: string)
    ensures |r| <= |s|
    ensures exists i, j | 0 <= i <= j <= |s| :: r == s[i..j] && AllSpace(s[..i]) && AllSpace(s[j..])
    ensures |r| > 0 ==> !IsSpace(r[0]) && !IsSpace(r[|r| - 1])
  {
    var b := StripBounds(s, false);
    s[b.0..b.1]
  }

  /** `strip` leaves a string alone when neither end is whitespace. */
  lemma StripUnchanged(s: string)
    requires |s| > 0 && !IsSpace(s[0]) && !IsSpace(s[|s| - 1])
    ensures Strip(s) == s
  {
    assert StripBounds(s, false) == (0, |s|);
  }

  /** `startswith(prefix)`. */
  predicate StartsWith(s: string, prefix: string) {
    |prefix| <= |s| && s[..|prefix|] == prefix
  }

  function UpperChar(ch: char): char {
    if 'a' <= ch <= 'z' then (ch as int - 32) as char else ch
  }

  /** `s.upper()` on ASCII letters. */
  function Upper(s: string): (r: string)
    ensures |r| == |s|
    ensures forall i | 0 <= i < |s| :: r[i] == UpperChar(s[i])
  {
    seq(|s|, i requires 0 <= i < |s| => UpperChar(s[i]))
  }

  /**
   Upper-casing twice is upper-casing once; only letters a-z change, each to
   the capital 32 code points below it, and no letter a-z remains.
   */
  lemma UpperIdempotent(s: string)
    ensures Upper(Upper(s)) == Upper(s)
    ensures forall i | 0 <= i < |s| :: Upper(s)[i] != s[i] ==> 'a' <= s[i] <= 'z'
    ensures forall i | 0 <= i < |s| :: !('a' <= Upper(s)[i] <= 'z')
    ensures forall i | 0 <= i < |s| :: Upper(s)[i] == s[i] || Upper(s)[i] as int + 32 == s[i] as int
  {
  }

  /** `s[lo:hi]` for non-negative bounds: out-of-range bounds are clamped, never an error. */
  function Slice(s: string, lo: nat, hi: nat): (r: string)
    ensures |r| == if hi <= lo || |s| <= lo then 0 else (if hi <= |s| then hi else |s|) - lo
    ensures forall k | 0 <= k < |r| :: r[k] == s[lo + k]
  {
    var a := if lo <= |s| then lo else |s|;
    var b := if hi <= |s| then hi else |s|;
    if b <= a then "" else s[a..b]
  }

  predicate IsDigit(ch: char) {
    '0' <= ch <= '9'
  }

  /** The value of a run of decimal digits. */
  function DigitsValue(ds: string): (n: nat)
    requires forall i | 0 <= i < |ds| :: IsDigit(ds[i])
    decreases |ds|
  {
    if |ds| == 0 then 0
    else
      assert IsDigit(ds[|ds| - 1]);
      10 * DigitsValue(ds[..|ds| - 1]) + (ds[|ds| - 1] as int - '0' as int)
  }

  predicate IsNumeral(ds: string) {
    |ds| > 0 && forall i | 0 <= i < |ds| :: IsDigit(ds[i])
  }

  /** `int(s)`: optional surrounding whitespace (`IntSpace`), an optional sign, then decimal digits; anything else is a `ValueError`. */
  function ParseInt(s: string): (r: Result<int>)
    ensures r.Err? ==> r.error == ValueError
    ensures |s| > 0 && (IsSeparator(s[0]) || IsSeparator(s[|s| - 1])) ==> r.Err?
  {
    var b := StripBounds(s, true);
    var t := s[b.0..b.1];
    if |t| > 0 && (t[0] == '-' || t[0] == '+') then
      var ds := t[1..];
      if IsNumeral(ds) then
        var v: int := DigitsValue(ds);
        Ok(if t[0] == '-' then -v else v)
      else Err(ValueError)
    else if IsNumeral(t) then Ok(DigitsValue(t))
    else Err(ValueError)
  }

  /** The decimal digits of a natural number, most significant first. */
  function NatToDigits(n: nat): (ds: string)
    ensures IsNumeral(ds)
    decreases n
  {
    if n < 10 then [('0' as int + n) as char]
    else NatToDigits(n / 10) + [('0' as int + n % 10) as char]
  }

  /** `str(n)` for an integer. */
  function IntToString(n: int): string {
    if n < 0 then "-" + NatToDigits(-n) else NatToDigits(n)
  }

  lemma {:induction false} DigitsRoundTrip(n: nat)
    ensures DigitsValue(NatToDigits(n)) == n
    decreases n
  {
    if n >= 10 {
      DigitsRoundTrip(n / 10);
      var ds := NatToDigits(n);
      assert ds[..|ds| - 1] == NatToDigits(n / 10);
    }
  }

  /** `int(str(n)) == n`: every integer's decimal form parses back to it. */
  lemma ParseIntToString(n: int)
    ensures ParseInt(IntToString(n)) == Ok(n)
  {
    var s := IntToString(n);
    DigitsRoundTrip(if n < 0 then -n else n);
    assert !IntSpace(s[0]) && !IntSpace(s[|s| - 1]);
    assert StripBounds(s, true) == (0, |s|);
    assert s[0..|s|] == s;
    if n < 0 {
      assert s[1..] == NatToDigits(-n);
    }
  }

  /** Python's ordering of strings: code point by code point, a proper prefix first. */
  predicate StrLessEq(a: string, b: string)
    decreases |a|
  {
    |a| == 0 || (|b| > 0 && (a[0] < b[0] || (a[0] == b[0] && StrLessEq(a[1..], b[1..]))))
  }

  lemma {:induction false} StrLessEqTotal(a: string, b: string)
    ensures StrLessEq(a, b) || StrLessEq(b, a)
    decreases |a|
  {
    if |a| > 0 && |b| > 0 && a[0] == b[0] {
      StrLessEqTotal(a[1..], b[1..]);
    }
  }

  lemma {:induction false} StrLessEqAntisymmetric(a: string, b: string)
    requires StrLessEq(a, b) && StrLessEq(b, a)
    ensures a == b
    decreases |a|
  {
    if |a| > 0 {
      StrLessEqAntisymmetric(a[1..], b[1..]);
      assert a == [a[0]] + a[1..] && b == [b[0]] + b[1..];
    }
  }

  lemma {:induction false} StrLessEqTransitive(a: string, b: string, c: string)
    requires StrLessEq(a, b) && StrLessEq(b, c)
    ensures StrLessEq(a, c)
    decreases |a|
  {
    if |a| > 0 && a[0] == b[0] && b[0] == c[0] {
      StrLessEqTransitive(a[1..], b[1..], c[1..]);
    }
  }
}
