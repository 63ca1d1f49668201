/**
 * The handful of Python string and slice operations the modelled code relies on,
 * written out over `seq<char>`. Character classes are ASCII: `\d` is '0'..'9',
 * `str.lower`/`str.upper` fold only 'A'..'Z'/'a'..'z', `str.strip` removes ASCII
 * whitespace.
 */
module Strings {

  // ---------------------------------------------------------------- digits

  predicate IsDigit(c: char) { '0' <= c <= '9' }

  function DigitValue(c: char): (d: nat)
    requires IsDigit(c)
    ensures d < 10
  {
    c as int - '0' as int
  }

  function DigitChar(d: nat): (c: char)
    requires d < 10
    ensures IsDigit(c) && DigitValue(c) == d
  {
    (d + '0' as int) as char
  }

  predicate AllDigits(s: string) { forall i :: 0 <= i < |s| ==> IsDigit(s[i]) }

  /** `re.sub(r'\D', '', s)`: the digits of `s`, in order. */
  function OnlyDigits(s: string): (r: string)
    ensures AllDigits(r) && |r| <= |s|
  {
    if s == [] then [] else (if IsDigit(s[0]) then [s[0]] else []) + OnlyDigits(s[1..])
  }

  /** Stripping the non-digits of a string of digits changes nothing. */
  lemma {:induction false} OnlyDigitsOfDigits(s: string)
    requires AllDigits(s)
    ensures OnlyDigits(s) == s
  {
    if s != [] {
      assert AllDigits(s[1..]) by {
        forall i | 0 <= i < |s[1..]| ensures IsDigit(s[1..][i]) { assert s[1..][i] == s[i + 1]; }
      }
      OnlyDigitsOfDigits(s[1..]);
    }
  }

  /** Stripping the non-digits distributes over concatenation. */
  lemma {:induction false} OnlyDigitsAppend(a: string, b: string)
    ensures OnlyDigits(a + b) == OnlyDigits(a) + OnlyDigits(b)
  {
    if a != [] {
      assert (a + b)[1..] == a[1..] + b;
      OnlyDigitsAppend(a[1..], b);
    } else {
      assert a + b == b;
    }
  }

  /** A string without digits has no digits to keep. */
  lemma {:induction false} OnlyDigitsOfNone(s: string)
    requires forall i :: 0 <= i < |s| ==> !IsDigit(s[i])
    ensures OnlyDigits(s) == []
  {
    if s != [] { OnlyDigitsOfNone(s[1..]); }
  }

  /** Only the digit parts survive around a digit-free middle. */
  lemma DigitsAround(head: string, mid: string, tail: string)
    requires AllDigits(head) && AllDigits(tail)
    requires forall i :: 0 <= i < |mid| ==> !IsDigit(mid[i])
    ensures OnlyDigits(head + mid + tail) == head + tail
  {
    var hm := head + mid;
    assert OnlyDigits(hm) == head by {
      OnlyDigitsOfNone(mid);
      OnlyDigitsOfDigits(head);
      OnlyDigitsAppend(head, mid);
      assert head + [] == head;
    }
    assert OnlyDigits(tail) == tail by { OnlyDigitsOfDigits(tail); }
    OnlyDigitsAppend(hm, tail);
  }

  /** Only the digit part survives between digit-free text. */
  lemma DigitsBetween(pre: string, d: string, post: string)
    requires forall i :: 0 <= i < |pre| ==> !IsDigit(pre[i])
    requires AllDigits(d)
    requires forall i :: 0 <= i < |post| ==> !IsDigit(post[i])
    ensures OnlyDigits(pre + d + post) == d
  {
    OnlyDigitsOfNone(pre);
    OnlyDigitsOfNone(post);
    OnlyDigitsOfDigits(d);
    OnlyDigitsAppend(pre, d);
    assert OnlyDigits(pre + d) == [] + d;
    OnlyDigitsAppend(pre + d, post);
    assert OnlyDigits(pre + d + post) == d + [];
  }

  /** Stripping non-digits is idempotent. */
  lemma OnlyDigitsIdempotent(s: string)
    ensures OnlyDigits(OnlyDigits(s)) == OnlyDigits(s)
  {
    OnlyDigitsOfDigits(OnlyDigits(s));
  }

  // ------------------------------------------------------------ letter case

  function LowerChar(c: char): char { if 'A' <= c <= 'Z' then (c as int + 32) as char else c }

  function UpperChar(c: char): char { if 'a' <= c <= 'z' then (c as int - 32) as char else c }

  /** `str.lower()` */
  function Lower(s: string): (r: string)
    ensures |r| == |s|
  {
    seq(|s|, i requires 0 <= i < |s| => LowerChar(s[i]))
  }

  /** `str.upper()` */
  function Upper(s: string): (r: string)
    ensures |r| == |s|
  {
    seq(|s|, i requires 0 <= i < |s| => UpperChar(s[i]))
  }

  predicate IsLetter(c: char) { 'A' <= c <= 'Z' || 'a' <= c <= 'z' }

  /** `str.isupper()`: at least one cased character and no lower-case one. */
  predicate IsUpper(s: string)
  {
    (exists i :: 0 <= i < |s| && IsLetter(s[i])) && forall i :: 0 <= i < |s| ==> !('a' <= s[i] <= 'z')
  }

  // -------------------------------------------------------------- substrings

  predicate IsPrefix(p: string, s: string) { |p| <= |s| && s[..|p|] == p }

  /** Python's `sub in s`. */
  predicate Contains(s: string, sub: string)
    decreases |s|
  {
    IsPrefix(sub, s) || (s != [] && Contains(s[1..], sub))
  }

  /** `s * n` for a string `s` and an int `n`; empty when `n <= 0`. */
  function Repeat(s: string, n: int): (r: string)
    ensures |r| == if n <= 0 then 0 else n * |s|
    decreases n
  {
    if n <= 0 then [] else s + Repeat(s, n - 1)
  }

  lemma {:induction false} RepeatChar(c: char, n: int, i: int)
    requires 0 <= i < |Repeat([c], n)|
    ensures Repeat([c], n)[i] == c
    decreases n
  {
    if i > 0 { RepeatChar(c, n - 1, i - 1); }
  }

  // ------------------------------------------------------------- slicing

  /** The end index Python computes for `s[:n]` (and pandas for `head(n)`). */
  function SliceEnd(len: nat, n: int): (e: nat)
    ensures e <= len
    ensures 0 <= n ==> e == if n <= len then n else len
    ensures n < 0 ==> e == if len + n >= 0 then len + n else 0
  {
    if n >= 0 then (if n <= len then n else len) else (if len + n >= 0 then len + n else 0)
  }

  /** `s[:n]` / `series.head(n)`: a negative `n` drops the last `-n` items. */
  function PyHead<T>(s: seq<T>, n: int): seq<T>
  {
    s[..SliceEnd(|s|, n)]
  }

  /** `s[-k:]` for `k > 0`: the last `k` items, or all of `s` when it is shorter. */
  function PyLast<T>(s: seq<T>, k: nat): seq<T>
  {
    if k <= |s| then s[|s| - k..] else s
  }

  // --------------------------------------------------------- integers as text

  /** `str(n)` for a natural number. */
  function Decimal(n: nat): (r: string)
    ensures |r| >= 1 && AllDigits(r)
  {
    if n < 10 then [DigitChar(n)] else Decimal(n / 10) + [DigitChar(n % 10)]
  }

  /** The longest prefix of `s` made of digits. */
  function LeadingDigits(s: string): (r: string)
    ensures AllDigits(r) && |r| <= |s|
  {
    if s != [] && IsDigit(s[0]) then [s[0]] + LeadingDigits(s[1..]) else []
  }

  /** A digit string followed by a non-digit is read back in full. */
  lemma {:induction false} LeadingDigitsOf(d: string, rest: string)
    requires AllDigits(d)
    requires rest != [] && !IsDigit(rest[0])
    ensures LeadingDigits(d + rest) == d
  {
    if d != [] {
      assert (d + rest)[1..] == d[1..] + rest;
      LeadingDigitsOf(d[1..], rest);
    } else {
      assert d + rest == rest;
    }
  }

  /** `str(i)` / `f"{i}"` for any int. */
  function FormatInt(i: int): string
  {
    if i < 0 then "-" + Decimal(-i) else Decimal(i)
  }

  /** The value of a string of decimal digits (leading zeros allowed). */
  function ParseDigits(s: string): nat
    requires AllDigits(s)
  {
    if s == [] then 0 else ParseDigits(s[..|s| - 1]) * 10 + DigitValue(s[|s| - 1])
  }

  /** Reading back what `Decimal` wrote gives the number again. */
  lemma {:induction false} ParseDecimal(n: nat)
    ensures ParseDigits(Decimal(n)) == n
  {
    if n >= 10 {
      var d := Decimal(n / 10);
      assert (d + [DigitChar(n % 10)])[..|d|] == d;
      ParseDecimal(n / 10);
    }
  }

  function Pow10(k: nat): (p: nat)
    ensures p >= 1
  {
    if k == 0 then 1 else 10 * Pow10(k - 1)
  }

  /** A number below 10^k is written with at most k digits. */
  lemma {:induction false} DecimalLength(n: nat, k: nat)
    requires 1 <= k && n < Pow10(k)
    ensures |Decimal(n)| <= k
  {
    if n >= 10 {
      DecimalLength(n / 10, k - 1);
    }
  }

  /** `f"{s:0>w}"`: left-pad with '0' up to width `w`. */
  function ZeroPad(s: string, w: nat): (r: string)
    ensures |r| == if |s| < w then w else |s|
  {
    Repeat("0", w - |s|) + s
  }

  /** `f"{n:08d}"`, the token counter format. */
  function Pad8(n: nat): (r: string)
    ensures AllDigits(r)
  {
    var z := Repeat("0", 8 - |Decimal(n)|);
    assert AllDigits(z) by {
      forall i | 0 <= i < |z| ensures IsDigit(z[i]) { RepeatChar('0', 8 - |Decimal(n)|, i); }
    }
    z + Decimal(n)
  }

  lemma {:induction false} ParseZeros(z: string)
    requires forall i :: 0 <= i < |z| ==> z[i] == '0'
    ensures AllDigits(z) && ParseDigits(z) == 0
  {
    if z != [] { ParseZeros(z[..|z| - 1]); }
  }

  /** Leading zeros do not change the value of a digit string. */
  lemma {:induction false} ParseLeadingZeros(z: string, s: string)
    requires forall i :: 0 <= i < |z| ==> z[i] == '0'
    requires AllDigits(s)
    ensures AllDigits(z + s) && ParseDigits(z + s) == ParseDigits(s)
  {
    ParseZeros(z);
    assert AllDigits(z + s) by {
      forall i | 0 <= i < |z + s| ensures IsDigit((z + s)[i]) {
        if i < |z| { assert (z + s)[i] == z[i]; } else { assert (z + s)[i] == s[i - |z|]; }
      }
    }
    if s != [] {
      var s' := s[..|s| - 1];
      assert (z + s)[..|z + s| - 1] == z + s';
      ParseLeadingZeros(z, s');
    } else {
      assert z + s == z;
    }
  }

  /** The counter is recoverable from its zero-padded form. */
  lemma Pad8Parse(n: nat)
    ensures ParseDigits(Pad8(n)) == n
  {
    var z := Repeat("0", 8 - |Decimal(n)|);
    forall i | 0 <= i < |z| ensures z[i] == '0' { RepeatChar('0', 8 - |Decimal(n)|, i); }
    ParseLeadingZeros(z, Decimal(n));
    ParseDecimal(n);
  }

  /** Below 10^8 the padded counter is exactly eight characters long. */
  lemma Pad8Length(n: nat)
    requires n < 100000000
    ensures |Pad8(n)| == 8
  {
    assert Pow10(8) == 100000000;
    DecimalLength(n, 8);
  }

  /** The first token number. */
  lemma Pad8One()
    ensures Pad8(1) == "00000001"
  {
    assert Decimal(1) == "1";
    assert Repeat("0", 7) == "0000000";
  }

  // ------------------------------------------------------ whitespace, replace

  /** ASCII characters for which `str.isspace()` holds. */
  predicate IsSpace(c: char) { c == ' ' || 9 <= c as int <= 13 || 28 <= c as int <= 31 }

  function StripLeft(s: string): (r: string)
    ensures |r| <= |s|
  {
    if s != [] && IsSpace(s[0]) then StripLeft(s[1..]) else s
  }

  function StripRight(s: string): (r: string)
    ensures |r| <= |s|
  {
    if s != [] && IsSpace(s[|s| - 1]) then StripRight(s[..|s| - 1]) else s
  }

  /** `str.strip()` */
  function Strip(s: string): string { StripRight(StripLeft(s)) }

  /** Stripping removes only whitespace: every other character is counted as before. */
  lemma {:induction false} StripLeftCount(s: string, x: char)
    requires !IsSpace(x)
    ensures CountChar(StripLeft(s), x) == CountChar(s, x)
  {
    if s != [] && IsSpace(s[0]) {
      StripLeftCount(s[1..], x);
    }
  }

  lemma {:induction false} StripRightCount(s: string, x: char)
    requires !IsSpace(x)
    ensures CountChar(StripRight(s), x) == CountChar(s, x)
  {
    if s != [] && IsSpace(s[|s| - 1]) {
      var init := s[..|s| - 1];
      assert s == init + [s[|s| - 1]];
      CountCharAppend(init, [s[|s| - 1]], x);
      StripRightCount(init, x);
    }
  }

  lemma StripCount(s: string, x: char)
    requires !IsSpace(x)
    ensures CountChar(Strip(s), x) == CountChar(s, x)
  {
    StripLeftCount(s, x);
    StripRightCount(StripLeft(s), x);
  }

  /** A string that neither starts nor ends with whitespace is left alone by `strip`. */
  lemma StripUnpadded(s: string)
    requires s != [] ==> !IsSpace(s[0]) && !IsSpace(s[|s| - 1])
    ensures Strip(s) == s
  {
  }

  predicate AllSpace(s: string) { forall i :: 0 <= i < |s| ==> IsSpace(s[i]) }

  lemma {:induction false} StripLeftBlank(pad: string, s: string)
    requires AllSpace(pad)
    ensures StripLeft(pad + s) == StripLeft(s)
  {
    if pad != [] {
      assert (pad + s)[1..] == pad[1..] + s;
      StripLeftBlank(pad[1..], s);
    } else {
      assert pad + s == s;
    }
  }

  /** Trailing blanks survive a left strip unless the whole string was blank. */
  lemma {:induction false} StripLeftTrailing(s: string, pad: string)
    requires AllSpace(pad)
    ensures StripLeft(s + pad) == StripLeft(s) + pad || (StripLeft(s) == [] && StripLeft(s + pad) == [])
  {
    if s == [] {
      assert s + pad == pad + [];
      StripLeftBlank(pad, []);
    } else if IsSpace(s[0]) {
      assert (s + pad)[1..] == s[1..] + pad;
      StripLeftTrailing(s[1..], pad);
    }
  }

  lemma {:induction false} StripRightBlank(s: string, pad: string)
    requires AllSpace(pad)
    ensures StripRight(s + pad) == StripRight(s)
  {
    if pad == [] {
      assert s + pad == s;
    } else {
      var init := pad[..|pad| - 1];
      assert (s + pad)[..|s + pad| - 1] == s + init;
      StripRightBlank(s, init);
    }
  }

  /** `strip` ignores blanks added on either side. */
  lemma StripBlank(pad1: string, s: string, pad2: string)
    requires AllSpace(pad1) && AllSpace(pad2)
    ensures Strip(pad1 + s + pad2) == Strip(s)
  {
    assert pad1 + s + pad2 == pad1 + (s + pad2);
    StripLeftBlank(pad1, s + pad2);
    StripLeftTrailing(s, pad2);
    if StripLeft(s + pad2) == StripLeft(s) + pad2 {
      StripRightBlank(StripLeft(s), pad2);
    }
  }

  /** `s.replace(c, repl)` for a one-character pattern `c`. */
  function ReplaceChar(s: string, c: char, repl: string): string
  {
    if s == [] then [] else (if s[0] == c then repl else [s[0]]) + ReplaceChar(s[1..], c, repl)
  }

  lemma {:induction false} ReplaceAppend(a: string, b: string, c: char, repl: string)
    ensures ReplaceChar(a + b, c, repl) == ReplaceChar(a, c, repl) + ReplaceChar(b, c, repl)
  {
    if a == [] {
      assert a + b == b;
    } else {
      assert (a + b)[1..] == a[1..] + b;
      ReplaceAppend(a[1..], b, c, repl);
    }
  }

  /** A string without `c` is left alone by replacing `c`. */
  lemma {:induction false} ReplaceAbsent(s: string, c: char, repl: string)
    requires forall i :: 0 <= i < |s| ==> s[i] != c
    ensures ReplaceChar(s, c, repl) == s
  {
    if s != [] {
      ReplaceAbsent(s[1..], c, repl);
    }
  }

  /** `s.count(c)` for a one-character `c`. */
  function CountChar(s: string, c: char): nat
  {
    if s == [] then 0 else (if s[0] == c then 1 else 0) + CountChar(s[1..], c)
  }

  lemma {:induction false} CountCharAbsent(s: string, c: char)
    requires forall i :: 0 <= i < |s| ==> s[i] != c
    ensures CountChar(s, c) == 0
  {
    if s != [] { CountCharAbsent(s[1..], c); }
  }

  lemma CountCharAppend(a: string, b: string, c: char)
    ensures CountChar(a + b, c) == CountChar(a, c) + CountChar(b, c)
  {
    if a != [] {
      assert (a + b)[1..] == a[1..] + b;
      CountCharAppend(a[1..], b, c);
    } else {
      assert a + b == b;
    }
  }

  /**
   * How often `x` occurs after replacing every `c` by the one-character string
   * `[d]`: the occurrences of `c` have become occurrences of `d`.
   */
  lemma {:induction false} CountAfterReplace(s: string, c: char, d: char, x: char)
    requires c != x
    ensures CountChar(ReplaceChar(s, c, [d]), x)
         == CountChar(s, x) + (if d == x then CountChar(s, c) else 0)
  {
    if s != [] {
      var head := if s[0] == c then [d] else [s[0]];
      CountCharAppend(head, ReplaceChar(s[1..], c, [d]), x);
      CountAfterReplace(s[1..], c, d, x);
    }
  }

  /** After replacing every `c` by a different character none is left. */
  lemma {:induction false} CountReplaced(s: string, c: char, d: char)
    requires c != d
    ensures CountChar(ReplaceChar(s, c, [d]), c) == 0
  {
    if s != [] {
      var head := if s[0] == c then [d] else [s[0]];
      CountCharAppend(head, ReplaceChar(s[1..], c, [d]), c);
      CountReplaced(s[1..], c, d);
    }
  }

  /** Deleting every `c` leaves no `c`, and every other character is counted as before. */
  lemma {:induction false} CountAfterDelete(s: string, c: char, x: char)
    ensures CountChar(ReplaceChar(s, c, ""), x) == if x == c then 0 else CountChar(s, x)
  {
    if s != [] {
      var head := if s[0] == c then "" else [s[0]];
      CountCharAppend(head, ReplaceChar(s[1..], c, ""), x);
      CountAfterDelete(s[1..], c, x);
    }
  }

  // ----------------------------------------------------------------- split

  /** `s.split(c)[0]`: everything before the first `c` (all of `s` if there is none). */
  function BeforeChar(s: string, c: char): (r: string)
    ensures |r| <= |s|
    ensures forall i :: 0 <= i < |r| ==> r[i] != c
  {
    if s == [] || s[0] == c then [] else [s[0]] + BeforeChar(s[1..], c)
  }

  /** Everything after the first `c` (empty if there is none). */
  function AfterChar(s: string, c: char): (r: string)
    ensures |r| < |s| || r == []
  {
    if s == [] then [] else if s[0] == c then s[1..] else AfterChar(s[1..], c)
  }

  /** Splitting `u + [c] + rest` at the first `c`, when `u` has none. */
  lemma {:induction false} BeforeCharOf(u: string, c: char, rest: string)
    requires forall i :: 0 <= i < |u| ==> u[i] != c
    ensures BeforeChar(u + [c] + rest, c) == u
  {
    if u != [] {
      assert (u + [c] + rest)[1..] == u[1..] + [c] + rest;
      BeforeCharOf(u[1..], c, rest);
    } else {
      assert u + [c] + rest == [c] + rest;
    }
  }

  lemma {:induction false} AfterCharOf(u: string, c: char, rest: string)
    requires forall i :: 0 <= i < |u| ==> u[i] != c
    ensures AfterChar(u + [c] + rest, c) == rest
  {
    if u != [] {
      assert (u + [c] + rest)[1..] == u[1..] + [c] + rest;
      AfterCharOf(u[1..], c, rest);
    } else {
      assert u + [c] + rest == [c] + rest;
    }
  }

  /** Without a `c` the split keeps the whole string. */
  lemma {:induction false} BeforeCharNone(s: string, c: char)
    requires forall i :: 0 <= i < |s| ==> s[i] != c
    ensures BeforeChar(s, c) == s
  {
    if s != [] { BeforeCharNone(s[1..], c); }
  }

  predicate HasChar(s: string, c: char) { exists i :: 0 <= i < |s| && s[i] == c }
}
