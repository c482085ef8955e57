/**
 * String helpers with the semantics of the Python and JavaScript library calls
 * the system uses: `str.isspace`, `strip`/`lstrip`/`rstrip`, `str.split` on a
 * separator, `str.join`, `str.find`/`str.rfind`, `in` on strings, `startswith`,
 * `str(int)`, and JavaScript's `String.prototype.trim` and `split`.
 * Strings are sequences of Unicode scalar values, as `str` is in Python.
 */
module Text {

  /** Python's `str.isspace()` on one character. */
  predicate IsPySpace(c: char) {
    ('\U{9}' <= c <= '\U{D}') || ('\U{1C}' <= c <= '\U{20}') || c == '\U{85}' || c == '\U{A0}'
    || c == '\U{1680}' || ('\U{2000}' <= c <= '\U{200A}') || c == '\U{2028}' || c == '\U{2029}'
    || c == '\U{202F}' || c == '\U{205F}' || c == '\U{3000}'
  }

  /** The characters JavaScript's `trim` removes: WhiteSpace and LineTerminator of ECMA-262. */
  predicate IsJsSpace(c: char) {
    ('\U{9}' <= c <= '\U{D}') || c == ' ' || c == '\U{A0}' || c == '\U{1680}'
    || ('\U{2000}' <= c <= '\U{200A}') || c == '\U{2028}' || c == '\U{2029}'
    || c == '\U{202F}' || c == '\U{205F}' || c == '\U{3000}' || c == '\U{FEFF}'
  }

  predicate IsDigit(c: char) { '0' <= c <= '9' }

  predicate IsAsciiLetter(c: char) { ('A' <= c <= 'Z') || ('a' <= c <= 'z') }

  /** A white-space character of a regular expression's `\s` that does not end a line. */
  predicate IsLineSpace(c: char) { IsPySpace(c) && c != '\n' }

  /** The set of characters a strip call removes. */
  datatype CharSet = PySpace | JsSpace | LineSpace | Just(c: char)

  predicate InSet(c: char, k: CharSet) {
    match k
    case PySpace => IsPySpace(c)
    case JsSpace => IsJsSpace(c)
    case LineSpace => IsLineSpace(c)
    case Just(d) => c == d
  }

  predicate AllIn(s: string, k: CharSet) {
    forall i :: 0 <= i < |s| ==> InSet(s[i], k)
  }

  /** Python `lstrip(chars)`: the longest suffix of `s` that does not start with a character of `k`. */
  function TrimStart(s: string, k: CharSet): (r: string)
    ensures |r| <= |s|
    ensures r == [] || !InSet(r[0], k)
  {
    if |s| > 0 && InSet(s[0], k) then TrimStart(s[1..], k) else s
  }

  /** What `lstrip` keeps is a suffix, and what it drops all belongs to the set. */
  lemma {:induction false} TrimStartSuffix(s: string, k: CharSet)
    ensures var r := TrimStart(s, k); r == s[|s| - |r|..] && AllIn(s[..|s| - |r|], k)
    decreases |s|
  {
    if |s| > 0 && InSet(s[0], k) {
      TrimStartSuffix(s[1..], k);
      var r := TrimStart(s[1..], k);
      assert s[1..][..|s[1..]| - |r|] == s[1..|s| - |r|];
    }
  }

  /** Python `rstrip(chars)`: the longest prefix of `s` that does not end with a character of `k`. */
  function TrimEnd(s: string, k: CharSet): (r: string)
    ensures |r| <= |s|
    ensures r == [] || !InSet(r[|r| - 1], k)
  {
    if |s| > 0 && InSet(s[|s| - 1], k) then TrimEnd(s[..|s| - 1], k) else s
  }

  /** What `rstrip` keeps is a prefix, and what it drops all belongs to the set. */
  lemma {:induction false} TrimEndPrefix(s: string, k: CharSet)
    ensures var r := TrimEnd(s, k); r == s[..|r|] && AllIn(s[|r|..], k)
    decreases |s|
  {
    if |s| > 0 && InSet(s[|s| - 1], k) {
      var init := s[..|s| - 1];
      TrimEndPrefix(init, k);
      var r := TrimEnd(init, k);
      assert TrimEnd(s, k) == r;
      assert init[..|r|] == s[..|r|];
      forall i | 0 <= i < |s[|r|..]| ensures InSet(s[|r|..][i], k) {
        if |r| + i < |init| { assert s[|r|..][i] == init[|r|..][i]; }
      }
    }
  }

  /** Python `strip(chars)` (with `k == PySpace`, the argument-less `strip()`). */
  function Trim(s: string, k: CharSet): string {
    TrimEnd(TrimStart(s, k), k)
  }

  /** Python `s.strip()`. */
  function Strip(s: string): string { Trim(s, PySpace) }

  /** JavaScript `s.trim()`. */
  function JsTrim(s: string): string { Trim(s, JsSpace) }

  /** Stripping yields the empty string exactly when every character belongs to the set. */
  lemma TrimEmptyIff(s: string, k: CharSet)
    ensures Trim(s, k) == [] <==> AllIn(s, k)
  {
    var a := TrimStart(s, k);
    TrimStartSuffix(s, k);
    TrimEndPrefix(a, k);
    if Trim(s, k) == [] {
      assert a[0..] == a;
      assert s[..|s| - |a|] == s;
    }
  }

  /** A string with no character of the set at either end is its own stripped form. */
  lemma TrimNoEdge(s: string, k: CharSet)
    requires s == [] || (!InSet(s[0], k) && !InSet(s[|s| - 1], k))
    ensures Trim(s, k) == s
  {
  }

  /** A string whose first character is not in the set loses nothing on the left. */
  lemma TrimStartNoEdge(s: string, k: CharSet)
    requires s == [] || !InSet(s[0], k)
    ensures TrimStart(s, k) == s
  {
  }

  /** A leading character of the set is dropped and stripping goes on from the next one. */
  lemma TrimStartStep(s: string, k: CharSet)
    requires |s| > 0 && InSet(s[0], k)
    ensures TrimStart(s, k) == TrimStart(s[1..], k)
  {
  }

  /** Stripping is idempotent. */
  lemma TrimIdempotent(s: string, k: CharSet)
    ensures Trim(Trim(s, k), k) == Trim(s, k)
  {
    var a := TrimStart(s, k);
    var r := TrimEnd(a, k);
    TrimEndPrefix(a, k);
    assert r == [] || r[0] == a[0];
    TrimNoEdge(r, k);
  }

  /** Stripping removes only a leading and a trailing run of characters of the set. */
  lemma TrimPadded(w: string, x: string, v: string, k: CharSet)
    requires AllIn(w, k) && AllIn(v, k)
    requires x == [] || (!InSet(x[0], k) && !InSet(x[|x| - 1], k))
    ensures Trim(w + x + v, k) == x
  {
    var s := w + x + v;
    if x == [] {
      assert AllIn(s, k) by {
        forall i | 0 <= i < |s| ensures InSet(s[i], k) {
          if i < |w| { assert s[i] == w[i]; } else { assert s[i] == v[i - |w|]; }
        }
      }
      TrimEmptyIff(s, k);
    } else {
      TrimStartPadded(w, x + v, k);
      assert w + x + v == w + (x + v);
      TrimEndPadded(x, v, k);
    }
  }

  lemma {:induction false} TrimStartPadded(w: string, y: string, k: CharSet)
    requires AllIn(w, k)
    requires y != [] && !InSet(y[0], k)
    ensures TrimStart(w + y, k) == y
    decreases |w|
  {
    if w == [] {
      assert w + y == y;
    } else {
      assert (w + y)[1..] == w[1..] + y;
      TrimStartPadded(w[1..], y, k);
    }
  }

  lemma {:induction false} TrimEndPadded(y: string, v: string, k: CharSet)
    requires AllIn(v, k)
    requires y != [] && !InSet(y[|y| - 1], k)
    ensures TrimEnd(y + v, k) == y
    decreases |v|
  {
    if v == [] {
      assert y + v == y;
    } else {
      assert (y + v)[..|y + v| - 1] == y + v[..|v| - 1];
      TrimEndPadded(y, v[..|v| - 1], k);
    }
  }

  /**
   * `TrimPadded` for a string that is known to be the concatenation; stating
   * it on a plain variable keeps the concatenation out of the stripped term.
   */
  lemma TrimPaddedAt(s: string, w: string, x: string, v: string, k: CharSet)
    requires s == w + x + v
    requires AllIn(w, k) && AllIn(v, k)
    requires x == [] || (!InSet(x[0], k) && !InSet(x[|x| - 1], k))
    ensures Trim(s, k) == x
  {
    TrimPadded(w, x, v, k);
  }

  lemma TrimStartPaddedAt(s: string, w: string, y: string, k: CharSet)
    requires s == w + y
    requires AllIn(w, k)
    requires y != [] && !InSet(y[0], k)
    ensures TrimStart(s, k) == y
  {
    TrimStartPadded(w, y, k);
  }

  lemma TrimEndPaddedAt(s: string, y: string, v: string, k: CharSet)
    requires s == y + v
    requires AllIn(v, k)
    requires y != [] && !InSet(y[|y| - 1], k)
    ensures TrimEnd(s, k) == y
  {
    TrimEndPadded(y, v, k);
  }

  /** `str.join`: the parts with `sep` between neighbours. */
  function Join(parts: seq<string>, sep: string): string
  {
    if |parts| == 0 then ""
    else if |parts| == 1 then parts[0]
    else parts[0] + sep + Join(parts[1..], sep)
  }

  lemma {:induction false} JoinAppend(xs: seq<string>, ys: seq<string>, sep: string)
    requires |xs| > 0 && |ys| > 0
    ensures Join(xs + ys, sep) == Join(xs, sep) + sep + Join(ys, sep)
    decreases |xs|
  {
    if |xs| == 1 {
      assert (xs + ys)[1..] == ys;
    } else {
      assert (xs + ys)[1..] == xs[1..] + ys;
      JoinAppend(xs[1..], ys, sep);
    }
  }

  /** Python `s.split(sep)` and JavaScript `s.split(sep)` for a one-character separator. */
  function Split(s: string, sep: char): (r: seq<string>)
    ensures |r| >= 1
    ensures forall i :: 0 <= i < |r| ==> sep !in r[i]
    ensures Join(r, [sep]) == s
  {
    if |s| == 0 then [""]
    else if s[0] == sep then
      var t := Split(s[1..], sep);
      assert [""] + t == [""] + t;
      [""] + t
    else
      var t := Split(s[1..], sep);
      var r := [[s[0]] + t[0]] + t[1..];
      assert r[1..] == t[1..];
      assert Join(r, [sep]) == [s[0]] + Join(t, [sep]) by {
        if |t| > 1 { assert Join(t, [sep]) == t[0] + [sep] + Join(t[1..], [sep]); }
      }
      r
  }

  /** Splitting a join of separator-free parts gives the parts back. */
  lemma {:induction false} SplitJoin(xs: seq<string>, sep: char)
    requires |xs| >= 1
    requires forall i :: 0 <= i < |xs| ==> sep !in xs[i]
    ensures Split(Join(xs, [sep]), sep) == xs
    decreases |xs|, |xs[0]|
  {
    var s := Join(xs, [sep]);
    if xs[0] == [] {
      if |xs| == 1 {
        assert s == "";
      } else {
        assert s == [sep] + Join(xs[1..], [sep]);
        assert s[1..] == Join(xs[1..], [sep]);
        SplitJoin(xs[1..], sep);
        assert [""] + xs[1..] == xs;
      }
    } else {
      var ys := [xs[0][1..]] + xs[1..];
      assert ys[1..] == xs[1..];
      assert s == [xs[0][0]] + Join(ys, [sep]) by {
        if |xs| > 1 {
          assert Join(ys, [sep]) == xs[0][1..] + [sep] + Join(xs[1..], [sep]);
        }
        assert xs[0] == [xs[0][0]] + xs[0][1..];
      }
      assert s[0] == xs[0][0];
      assert s[1..] == Join(ys, [sep]);
      forall i | 0 <= i < |ys| ensures sep !in ys[i] {
        if i == 0 { assert forall c :: c in xs[0][1..] ==> c in xs[0]; }
      }
      SplitJoin(ys, sep);
      assert [[xs[0][0]] + ys[0]] + ys[1..] == xs;
    }
  }

  /** Splitting around a separator splits each side independently. */
  lemma SplitAround(a: string, b: string, sep: char)
    ensures Split(a + [sep] + b, sep) == Split(a, sep) + Split(b, sep)
  {
    var xs := Split(a, sep) + Split(b, sep);
    JoinAppend(Split(a, sep), Split(b, sep), [sep]);
    forall i | 0 <= i < |xs| ensures sep !in xs[i] {
      if i >= |Split(a, sep)| { assert xs[i] == Split(b, sep)[i - |Split(a, sep)|]; }
    }
    SplitJoin(xs, sep);
  }

  /** A string without the separator splits into itself alone. */
  lemma SplitNoSep(s: string, sep: char)
    requires sep !in s
    ensures Split(s, sep) == [s]
  {
    SplitJoin([s], sep);
  }

  predicate StartsWith(s: string, prefix: string) {
    |prefix| <= |s| && s[..|prefix|] == prefix
  }

  /** A string starting with a non-empty prefix starts with the prefix's first character. */
  lemma StartsWithFirst(s: string, p: string)
    requires StartsWith(s, p) && |p| > 0
    ensures s[0] == p[0]
  {
    assert s[..|p|][0] == s[0];
  }

  /** The length of the longest prefix of decimal digits. */
  function DigitRun(s: string): (n: nat)
    ensures n <= |s|
    ensures forall i :: 0 <= i < n ==> IsDigit(s[i])
    ensures n == |s| || !IsDigit(s[n])
  {
    if |s| > 0 && IsDigit(s[0]) then 1 + DigitRun(s[1..]) else 0
  }

  lemma {:induction false} DigitRunAll(s: string)
    requires forall i :: 0 <= i < |s| ==> IsDigit(s[i])
    ensures DigitRun(s) == |s|
  {
    if |s| > 0 { DigitRunAll(s[1..]); }
  }

  /** Python `sub in s`. */
  predicate Contains(s: string, sub: string)
  {
    StartsWith(s, sub) || (|s| > 0 && Contains(s[1..], sub))
  }

  /** `Contains` means an occurrence at some position. */
  lemma {:induction false} ContainsAt(s: string, sub: string, i: nat)
    requires i + |sub| <= |s| && s[i..i + |sub|] == sub
    ensures Contains(s, sub)
    decreases i
  {
    if i > 0 {
      assert s[1..][i - 1..i - 1 + |sub|] == s[i..i + |sub|];
      ContainsAt(s[1..], sub, i - 1);
    }
  }

  /** A character occurs in the hay as soon as a string containing it does. */
  lemma {:induction false} ContainsChar(s: string, sub: string, j: nat)
    requires Contains(s, sub) && j < |sub|
    ensures sub[j] in s
    decreases |s|
  {
    if StartsWith(s, sub) {
      assert s[j] == sub[j];
    } else {
      ContainsChar(s[1..], sub, j);
      assert forall c :: c in s[1..] ==> c in s;
    }
  }

  /**
   * Python `re.split(literal, s)` / `s.split(literal)` for a separator of one or
   * more characters: occurrences are taken leftmost first and do not overlap.
   */
  function SplitOn(s: string, sep: string): (r: seq<string>)
    requires |sep| > 0
    ensures |r| >= 1
    ensures Join(r, sep) == s
  {
    if |s| < |sep| then [s]
    else if s[..|sep|] == sep then
      var t := SplitOn(s[|sep|..], sep);
      assert Join([""] + t, sep) == "" + sep + Join(t, sep) by {
        assert ([""] + t)[1..] == t;
      }
      assert s == s[..|sep|] + s[|sep|..];
      [""] + t
    else
      var t := SplitOn(s[1..], sep);
      var r := [[s[0]] + t[0]] + t[1..];
      assert r[1..] == t[1..];
      assert Join(r, sep) == [s[0]] + Join(t, sep) by {
        if |t| > 1 { assert Join(t, sep) == t[0] + sep + Join(t[1..], sep); }
      }
      r
  }

  /** No non-empty proper prefix of `sep` ends `a`, so no occurrence of `sep` starts inside `a` and runs past it. */
  predicate NoPartialSep(a: string, sep: string) {
    forall k :: 0 < k < |sep| && k <= |a| ==> a[|a| - k..] != sep[..k]
  }

  /** A string without the separator splits into itself alone. */
  lemma {:induction false} SplitOnNoSep(a: string, sep: string)
    requires |sep| > 0 && !Contains(a, sep)
    ensures SplitOn(a, sep) == [a]
    decreases |a|
  {
    if |a| >= |sep| {
      SplitOnNoSep(a[1..], sep);
      assert [a[0]] + a[1..] == a;
    }
  }

  /** The first piece is everything before the first separator. */
  lemma {:induction false} SplitOnAfter(a: string, rest: string, sep: string)
    requires |sep| > 0 && !Contains(a, sep) && NoPartialSep(a, sep)
    ensures SplitOn(a + sep + rest, sep) == [a] + SplitOn(rest, sep)
    decreases |a|
  {
    var s := a + sep + rest;
    if a == [] {
      assert s == sep + rest;
      assert s[|sep|..] == rest;
    } else {
      assert s[..|sep|] != sep by {
        if |a| >= |sep| {
          assert s[..|sep|] == a[..|sep|];
        } else {
          assert a[|a| - |a|..] == a;
          assert s[..|sep|][..|a|] == a;
        }
      }
      forall k | 0 < k < |sep| && k <= |a[1..]| ensures a[1..][|a[1..]| - k..] != sep[..k] {
        assert a[1..][|a[1..]| - k..] == a[|a| - k..];
      }
      assert s[1..] == a[1..] + sep + rest;
      SplitOnAfter(a[1..], rest, sep);
      assert [a[0]] + a[1..] == a;
    }
  }

  /** Splitting a join of pieces that cannot hide a separator gives the pieces back. */
  lemma {:induction false} SplitOnJoin(xs: seq<string>, sep: string)
    requires |sep| > 0 && |xs| >= 1
    requires forall i :: 0 <= i < |xs| ==> !Contains(xs[i], sep)
    requires forall i :: 0 <= i < |xs| - 1 ==> NoPartialSep(xs[i], sep)
    ensures SplitOn(Join(xs, sep), sep) == xs
    decreases |xs|
  {
    if |xs| == 1 {
      SplitOnNoSep(xs[0], sep);
    } else {
      SplitOnAfter(xs[0], Join(xs[1..], sep), sep);
      SplitOnJoin(xs[1..], sep);
    }
  }

  /** An occurrence cannot start inside a prefix that lacks the searched string's first character. */
  lemma {:induction false} ContainsAfterPrefix(p: string, x: string, sub: string)
    requires |sub| > 0 && sub[0] !in p
    ensures Contains(p + x, sub) ==> Contains(x, sub)
    decreases |p|
  {
    if p == [] {
      assert p + x == x;
    } else {
      assert (p + x)[1..] == p[1..] + x;
      ContainsAfterPrefix(p[1..], x, sub);
    }
  }

  /** Stripping leaves no character of the set at either end. */
  lemma TrimEdges(s: string, k: CharSet)
    ensures var r := Trim(s, k); r == [] || (!InSet(r[0], k) && !InSet(r[|r| - 1], k))
  {
    var a := TrimStart(s, k);
    var r := TrimEnd(a, k);
    TrimEndPrefix(a, k);
    assert r == [] || r[0] == a[0];
  }

  /** Python `s.find(c)` for one character: the first index of `c`, or -1. */
  function Find(s: string, c: char): (r: int)
    ensures -1 <= r < |s|
    ensures r == -1 <==> c !in s
    ensures r >= 0 ==> s[r] == c && c !in s[..r]
  {
    if |s| == 0 then -1
    else if s[0] == c then 0
    else
      var t := Find(s[1..], c);
      assert s[1..] == s[1..];
      if t == -1 then
        assert forall i :: 1 <= i < |s| ==> s[i] == s[1..][i - 1];
        -1
      else
        assert s[..t + 1] == [s[0]] + s[1..][..t];
        t + 1
  }

  /** Python `s.rfind(c)` for one character: the last index of `c`, or -1. */
  function RFind(s: string, c: char): (r: int)
    ensures -1 <= r < |s|
    ensures r == -1 <==> c !in s
    ensures r >= 0 ==> s[r] == c && c !in s[r + 1..]
  {
    if |s| == 0 then -1
    else if s[|s| - 1] == c then |s| - 1
    else
      var t := RFind(s[..|s| - 1], c);
      if t == -1 then
        assert forall i :: 0 <= i < |s| - 1 ==> s[i] == s[..|s| - 1][i];
        -1
      else
        assert s[t + 1..] == s[..|s| - 1][t + 1..] + [s[|s| - 1]];
        t
  }

  function DigitChar(d: nat): (c: char)
    requires d < 10
    ensures IsDigit(c)
  {
    ['0', '1', '2', '3', '4', '5', '6', '7', '8', '9'][d]
  }

  function DigitValue(c: char): (d: nat)
    requires IsDigit(c)
    ensures d < 10 && DigitChar(d) == c
  {
    (c as int - '0' as int) as nat
  }

  /** Python `str(n)` for a non-negative integer: its decimal digits, without leading zeros. */
  function NatToString(n: nat): (r: string)
    ensures |r| >= 1
    ensures forall i :: 0 <= i < |r| ==> IsDigit(r[i])
    ensures r[0] == '0' ==> n == 0
  {
    if n < 10 then [DigitChar(n)]
    else NatToString(n / 10) + [DigitChar(n % 10)]
  }

  /** Python `str(i)` for any integer. */
  function IntToString(i: int): string {
    if i < 0 then "-" + NatToString(-i) else NatToString(i)
  }

  /** The value of a string of decimal digits. */
  function DecimalValue(s: string): nat
    requires forall i :: 0 <= i < |s| ==> IsDigit(s[i])
  {
    if |s| == 0 then 0
    else DecimalValue(s[..|s| - 1]) * 10 + DigitValue(s[|s| - 1])
  }

  /** Printing a number in decimal and reading the digits back gives the number. */
  lemma {:induction false} DecimalOfNatToString(n: nat)
    ensures DecimalValue(NatToString(n)) == n
  {
    if n >= 10 {
      var s := NatToString(n);
      assert s[..|s| - 1] == NatToString(n / 10);
      DecimalOfNatToString(n / 10);
    }
  }
}
