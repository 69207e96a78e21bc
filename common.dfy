/** Shared vocabulary: optional values, JavaScript's notion of a blank string,
    ASCII case folding, substring search and decimal printing. */
module Common {

  datatype Option<+T> = None | Some(value: T)

  datatype Result<+T, +E> = Ok(value: T) | Err(error: E)

  /** The characters that JavaScript's `trim()` and the regular-expression class
      `\s` treat as white space (ECMA-262 WhiteSpace and LineTerminator). */
  predicate IsJsWhitespace(c: char) {
    c == '\t' || c == '\n' || c == '\U{000B}' || c == '\U{000C}' || c == '\r' || c == ' '
    || c == '\U{00A0}' || c == '\U{1680}' || ('\U{2000}' <= c <= '\U{200A}')
    || c == '\U{2028}' || c == '\U{2029}' || c == '\U{202F}' || c == '\U{205F}'
    || c == '\U{3000}' || c == '\U{FEFF}'
  }

  /** `!s.trim()`: the string is empty once surrounding white space is removed. */
  predicate IsBlank(s: string) {
    forall i | 0 <= i < |s| :: IsJsWhitespace(s[i])
  }

  /** A JavaScript string used as a condition: only the empty string is falsy. */
  predicate Truthy(s: string) {
    s != []
  }

  /** An optional text field used as a condition: missing or empty is falsy. */
  predicate Present(s: Option<string>) {
    s.Some? && s.value != []
  }

  function LowerChar(c: char): (r: char)
    ensures 'A' <= c <= 'Z' ==> r as int == c as int + 32
    ensures !('A' <= c <= 'Z') ==> r == c
  {
    if 'A' <= c <= 'Z' then (c as int + 32) as char else c
  }

  /** `toLowerCase()`, restricted to the ASCII letters. */
  function Lower(s: string): (r: string)
    ensures |r| == |s|
    ensures forall i | 0 <= i < |s| :: r[i] == LowerChar(s[i])
  {
    if s == [] then [] else [LowerChar(s[0])] + Lower(s[1..])
  }

  lemma {:induction false} LowerAppend(a: string, b: string)
    ensures Lower(a + b) == Lower(a) + Lower(b)
  {
    var l, r := Lower(a + b), Lower(a) + Lower(b);
    assert |l| == |r|;
    forall i | 0 <= i < |l| ensures l[i] == r[i] {
      if i < |a| {
        assert (a + b)[i] == a[i];
      } else {
        assert (a + b)[i] == b[i - |a|];
      }
    }
  }

  lemma LowerIdempotent(s: string)
    ensures Lower(Lower(s)) == Lower(s)
  {
    var l := Lower(s);
    assert |Lower(l)| == |l|;
    forall i | 0 <= i < |l| ensures Lower(l)[i] == l[i] {
    }
  }

  /** `sub` occurs in `s` starting at index `i`. */
  predicate OccursAt(s: string, sub: string, i: int) {
    0 <= i && i + |sub| <= |s| && s[i..i + |sub|] == sub
  }

  /** `s.includes(sub)`. */
  predicate Contains(s: string, sub: string) {
    exists i | 0 <= i <= |s| :: OccursAt(s, sub, i)
  }

  /** `s.startsWith(p)`. */
  predicate StartsWith(s: string, p: string) {
    |p| <= |s| && s[..|p|] == p
  }

  lemma ContainsInLeft(a: string, b: string, sub: string)
    requires Contains(a, sub)
    ensures Contains(a + b, sub)
  {
    var i :| 0 <= i <= |a| && OccursAt(a, sub, i);
    assert (a + b)[i..i + |sub|] == a[i..i + |sub|];
    assert OccursAt(a + b, sub, i);
  }

  lemma ContainsInRight(a: string, b: string, sub: string)
    requires Contains(b, sub)
    ensures Contains(a + b, sub)
  {
    var i :| 0 <= i <= |b| && OccursAt(b, sub, i);
    assert (a + b)[|a| + i..|a| + i + |sub|] == b[i..i + |sub|];
    assert OccursAt(a + b, sub, |a| + i);
  }

  function DigitChar(d: nat): (c: char)
    requires d < 10
    ensures '0' <= c <= '9' && c as int - '0' as int == d
  {
    (d + '0' as int) as char
  }

  predicate IsDigit(c: char) {
    '0' <= c <= '9'
  }

  function DigitValue(c: char): (d: nat)
    requires IsDigit(c)
    ensures d < 10 && DigitChar(d) == c
  {
    c as int - '0' as int
  }

  predicate AllDigits(s: string) {
    forall i | 0 <= i < |s| :: IsDigit(s[i])
  }

  /** The value of a string of decimal digits. */
  function DigitsValue(s: string): (n: nat)
    requires AllDigits(s)
  {
    if s == [] then 0 else DigitsValue(s[..|s| - 1]) * 10 + DigitValue(s[|s| - 1])
  }

  /** Decimal text of a natural number, as `String(n)` prints it. */
  function NatToString(n: nat): (s: string)
    ensures s != [] && AllDigits(s)
    decreases n
  {
    if n < 10 then [DigitChar(n)] else NatToString(n / 10) + [DigitChar(n % 10)]
  }

  lemma {:induction false} NatToStringValue(n: nat)
    ensures DigitsValue(NatToString(n)) == n
    decreases n
  {
    var s := NatToString(n);
    if n < 10 {
      assert s[..|s| - 1] == [];
    } else {
      NatToStringValue(n / 10);
      assert s[..|s| - 1] == NatToString(n / 10);
    }
  }

  /** Decimal text of an integer, with a leading '-' when negative. */
  function IntToString(n: int): (s: string)
    ensures s != []
  {
    if n < 0 then "-" + NatToString(-n) else NatToString(n)
  }

  /** Two-digit zero-padded decimal text, as `strftime('%H')` and `padStart(2, "0")` give it. */
  function Pad2(n: nat): (s: string)
    requires n < 100
    ensures |s| == 2 && AllDigits(s) && DigitsValue(s) == n
  {
    var s := [DigitChar(n / 10), DigitChar(n % 10)];
    assert s[..1] == [DigitChar(n / 10)];
    assert [DigitChar(n / 10)][..0] == [];
    assert DigitsValue([DigitChar(n / 10)]) == n / 10;
    s
  }

  /** The text before the first occurrence of `sep`, or the whole text: `s.split(sep)[0]`. */
  function BeforeFirst(s: string, sep: char): (r: string)
    ensures |r| <= |s| && r == s[..|r|]
    ensures sep !in r
    ensures |r| < |s| ==> s[|r|] == sep
  {
    if s == [] then []
    else if s[0] == sep then []
    else [s[0]] + BeforeFirst(s[1..], sep)
  }

  /** The text after the first occurrence of `sep`, if there is one. */
  function AfterFirst(s: string, sep: char): (r: Option<string>)
    ensures sep !in s <==> r.None?
    ensures r.Some? ==> s == BeforeFirst(s, sep) + [sep] + r.value
  {
    if s == [] then None
    else if s[0] == sep then Some(s[1..])
    else match AfterFirst(s[1..], sep)
      case None => None
      case Some(t) => Some(t)
  }

  /** Number of elements of `s` satisfying `p`. */
  function CountWhere<T>(s: seq<T>, p: T -> bool): (n: nat)
    ensures n <= |s|
  {
    if s == [] then 0 else CountWhere(s[..|s| - 1], p) + (if p(s[|s| - 1]) then 1 else 0)
  }

  /** `s.filter(p)`. */
  function Filter<T>(s: seq<T>, p: T -> bool): (r: seq<T>)
    ensures |r| <= |s|
    ensures forall x | x in r :: x in s && p(x)
    ensures forall x | x in s && p(x) :: x in r
  {
    if s == [] then [] else Filter(s[..|s| - 1], p) + (if p(s[|s| - 1]) then [s[|s| - 1]] else [])
  }

  /** `s.filter(p).length` is the number of elements satisfying `p`. */
  lemma {:induction false} FilterCount<T>(s: seq<T>, p: T -> bool)
    ensures |Filter(s, p)| == CountWhere(s, p)
  {
    if s != [] {
      FilterCount(s[..|s| - 1], p);
    }
  }

  /** `s.slice(0, n)`. */
  function Take<T>(s: seq<T>, n: nat): (r: seq<T>)
    ensures |r| == if |s| <= n then |s| else n
    ensures r == s[..|r|]
  {
    if |s| <= n then s else s[..n]
  }

  /** The index that `splice(index, 1)` starts at: a negative index counts from the end. */
  function SpliceStart(len: nat, index: int): (k: nat)
    ensures k <= len
  {
    if index < 0 then (if len + index < 0 then 0 else len + index)
    else if index > len then len else index
  }

  /** `s.splice(index, 1)` applied to a copy of `s`: removes the element at the
      normalised index, or nothing when that index is past the end. */
  function SpliceOne<T>(s: seq<T>, index: int): (r: seq<T>)
  {
    var k := SpliceStart(|s|, index);
    if k < |s| then s[..k] + s[k + 1..] else s
  }

  /** The list editors' remove buttons: splice only while more than one entry is left.
      A list that is not empty never becomes empty, a single entry is never removed,
      and otherwise exactly the entry at the (normalised) index goes. */
  function RemoveUnlessLast<T>(s: seq<T>, index: int): (r: seq<T>)
    ensures |s| >= 1 ==> |r| >= 1
    ensures |s| <= 1 ==> r == s
    ensures |s| > 1 && 0 <= index < |s| ==> r == s[..index] + s[index + 1..]
    ensures |s| > 1 && -|s| <= index < 0 ==> r == s[..|s| + index] + s[|s| + index + 1..]
    ensures index >= |s| ==> r == s
    ensures |r| >= |s| - 1 && multiset(r) <= multiset(s)
  {
    if |s| > 1 then
      var k := SpliceStart(|s|, index);
      if k < |s| then
        assert s == s[..k] + [s[k]] + s[k + 1..];
        SpliceOne(s, index)
      else s
    else s
  }

  /** Concatenation of `f(x)` over `xs`, in order: the effect of a `forEach` that pushes. */
  function FlatMap<T, U>(xs: seq<T>, f: T -> seq<U>): seq<U> {
    if xs == [] then [] else FlatMap(xs[..|xs| - 1], f) + f(xs[|xs| - 1])
  }

  /** One more element appends its image. */
  lemma FlatMapStep<T, U>(xs: seq<T>, i: nat, f: T -> seq<U>)
    requires i < |xs|
    ensures FlatMap(xs[..i + 1], f) == FlatMap(xs[..i], f) + f(xs[i])
  {
    assert xs[..i + 1][..i] == xs[..i];
  }

  lemma {:induction false} FlatMapMembers<T, U>(xs: seq<T>, f: T -> seq<U>, y: U)
    ensures y in FlatMap(xs, f) <==> exists x | x in xs :: y in f(x)
  {
    if xs != [] {
      var init := xs[..|xs| - 1];
      FlatMapMembers(init, f, y);
      assert xs == init + [xs[|xs| - 1]];
      if y in FlatMap(xs, f) && y !in f(xs[|xs| - 1]) {
        var x :| x in init && y in f(x);
        assert x in xs;
      }
    }
  }

  /** Leaving out the entries for which `f` is empty changes nothing. */
  lemma {:induction false} FlatMapFilter<T, U>(xs: seq<T>, keep: T -> bool, f: T -> seq<U>, kept: T -> seq<U>)
    requires forall x :: kept(x) == if keep(x) then f(x) else []
    ensures FlatMap(xs, kept) == FlatMap(Filter(xs, keep), f)
  {
    if xs != [] {
      var init := xs[..|xs| - 1];
      var last := xs[|xs| - 1];
      FlatMapFilter(init, keep, f, kept);
      assert FlatMap(xs, kept) == FlatMap(init, kept) + kept(last);
      if keep(last) {
        var s := Filter(init, keep) + [last];
        assert Filter(xs, keep) == s;
        assert s[..|s| - 1] == Filter(init, keep);
        assert FlatMap(s, f) == FlatMap(Filter(init, keep), f) + f(last);
      } else {
        assert Filter(xs, keep) == Filter(init, keep);
      }
    }
  }

  lemma {:induction false} FlatMapCongruent<T, U>(xs: seq<T>, f: T -> seq<U>, g: T -> seq<U>)
    requires forall x | x in xs :: f(x) == g(x)
    ensures FlatMap(xs, f) == FlatMap(xs, g)
  {
    if xs != [] {
      FlatMapCongruent(xs[..|xs| - 1], f, g);
    }
  }

  /** `trimStart()`: drops the leading white space. */
  function TrimStart(s: string): (r: string)
    ensures |r| <= |s| && r == s[|s| - |r|..]
    ensures r == [] || !IsJsWhitespace(r[0])
    ensures forall i | 0 <= i < |s| - |r| :: IsJsWhitespace(s[i])
  {
    if s != [] && IsJsWhitespace(s[0]) then
      var r := TrimStart(s[1..]);
      assert forall i | 1 <= i < |s| - |r| :: s[i] == s[1..][i - 1];
      assert s[1..][|s| - 1 - |r|..] == s[|s| - |r|..];
      r
    else s
  }

  /** `trimEnd()`: drops the trailing white space. */
  function TrimEnd(s: string): (r: string)
    ensures |r| <= |s| && r == s[..|r|]
    ensures r == [] || !IsJsWhitespace(r[|r| - 1])
    ensures forall i | |r| <= i < |s| :: IsJsWhitespace(s[i])
  {
    if s != [] && IsJsWhitespace(s[|s| - 1]) then TrimEnd(s[..|s| - 1]) else s
  }

  /** `trim()`. */
  function Trim(s: string): string {
    TrimEnd(TrimStart(s))
  }

  /** A string is blank exactly when trimming leaves nothing. */
  lemma BlankIffTrimEmpty(s: string)
    ensures IsBlank(s) <==> Trim(s) == []
  {
    if Trim(s) == [] {
      assert TrimStart(s) == [];
    }
  }

  /** The leading run of ASCII digits. */
  function DigitPrefix(s: string): (r: string)
    ensures AllDigits(r) && |r| <= |s| && r == s[..|r|]
    ensures |r| < |s| ==> !IsDigit(s[|r|])
  {
    if s != [] && IsDigit(s[0]) then [s[0]] + DigitPrefix(s[1..]) else []
  }

  lemma {:induction false} DigitPrefixOfDigits(s: string)
    requires AllDigits(s)
    ensures DigitPrefix(s) == s
  {
    if s != [] {
      assert AllDigits(s[1..]);
      DigitPrefixOfDigits(s[1..]);
      assert s == [s[0]] + s[1..];
    }
  }

  /** A run of digits has no white space to trim. */
  lemma TrimOfDigits(s: string)
    requires AllDigits(s)
    ensures TrimStart(s) == s && Trim(s) == s
  {
    if s != [] {
      assert !IsJsWhitespace(s[0]) && !IsJsWhitespace(s[|s| - 1]);
    }
  }

  /** `Number.parseInt(s)` in base ten: leading white space and one sign are skipped,
      then the longest run of digits is read; `None` stands for `NaN`. */
  function ParseInt(s: string): (r: Option<int>)
    ensures AllDigits(s) && s != [] ==> r == Some(DigitsValue(s))
  {
    var t := TrimStart(s);
    var signed := t != [] && (t[0] == '-' || t[0] == '+');
    var body := if signed then t[1..] else t;
    var ds := DigitPrefix(body);
    var v: int := DigitsValue(ds);
    assert AllDigits(s) && s != [] ==> ds == s by {
      if AllDigits(s) && s != [] {
        TrimOfDigits(s);
        assert IsDigit(s[0]) && !signed && body == s;
        DigitPrefixOfDigits(s);
      }
    }
    if ds == [] then None
    else if signed && t[0] == '-' then Some(-v)
    else Some(v)
  }

  /** `Number(s)` for the text forms the views meet: surrounding white space is
      ignored, the empty text is 0, a run of decimal digits is its value, and
      anything else is `NaN` (`None`). */
  function NumberOf(s: string): (r: Option<int>)
    ensures IsBlank(s) ==> r == Some(0)
    ensures AllDigits(s) && s != [] ==> r == Some(DigitsValue(s))
  {
    var t := Trim(s);
    BlankIffTrimEmpty(s);
    assert AllDigits(s) ==> Trim(s) == s by {
      if AllDigits(s) { TrimOfDigits(s); }
    }
    if t == [] then Some(0)
    else if AllDigits(t) then Some(DigitsValue(t))
    else None
  }

  /** Splitting `a + [sep] + b` at its first separator gives back `a` and `b`. */
  lemma {:induction false} SplitAtFirst(a: string, sep: char, b: string)
    requires sep !in a
    ensures BeforeFirst(a + [sep] + b, sep) == a
    ensures AfterFirst(a + [sep] + b, sep) == Some(b)
  {
    if a != [] {
      assert (a + [sep] + b)[1..] == a[1..] + [sep] + b;
      SplitAtFirst(a[1..], sep, b);
    }
  }

  /** The text before the first separator of `a + rest`, when `rest` is empty or starts with it. */
  lemma {:induction false} BeforeFirstOfPrefix(a: string, sep: char, rest: string)
    requires sep !in a && (rest == [] || rest[0] == sep)
    ensures BeforeFirst(a + rest, sep) == a
  {
    if a != [] {
      assert (a + rest)[1..] == a[1..] + rest;
      BeforeFirstOfPrefix(a[1..], sep, rest);
    } else {
      assert a + rest == rest;
    }
  }

  /** `s.length` in JavaScript: code units of UTF-16, two for a character beyond the
      Basic Multilingual Plane. */
  function JsLength(s: string): (n: nat)
    ensures |s| <= n <= 2 * |s|
  {
    if s == [] then 0 else JsLength(s[..|s| - 1]) + (if s[|s| - 1] as int >= 0x1_0000 then 2 else 1)
  }

  /** A form's `handleChange` for field `name`: an error recorded for that field is
      replaced by "", and the others are kept. */
  function ClearFieldError(errors: map<string, string>, name: string): (r: map<string, string>)
    ensures r.Keys == errors.Keys
    ensures name in errors ==> r[name] == ""
    ensures forall k | k in errors && k != name :: r[k] == errors[k]
  {
    if name in errors && errors[name] != "" then errors[name := ""] else errors
  }
}
