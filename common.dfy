/** Values and helpers shared by every screen: an Option type for JavaScript's
    `undefined`/`null`, the JavaScript string operations the screens rely on
    (`trim`, `toLowerCase`, `split`, `parseInt`, `Number`, `length`), and the
    array operations `filter` and `find`. */
module Common {

  datatype Option<+T> = None | Some(value: T) {
    /** The value, or `default` when absent (JavaScript's `x ?? default`). */
    function GetOr(default: T): T {
      match this
      case Some(v) => v
      case None => default
    }
  }

  function Min(a: int, b: int): int { if a <= b then a else b }
  function Max(a: int, b: int): int { if a >= b then a else b }

  // ---------------------------------------------------------------------------
  // Characters

  /** White space as JavaScript's `String.prototype.trim` and the regular
      expression class `\s` understand it (WhiteSpace and LineTerminator). */
  predicate IsSpace(c: char) {
    || c == ' ' || c == '\t' || c == '\n' || c == '\r' || c == '\U{000B}' || c == '\U{000C}'
    || c == '\U{00A0}' || c == '\U{1680}' || ('\U{2000}' <= c <= '\U{200A}')
    || c == '\U{2028}' || c == '\U{2029}' || c == '\U{202F}' || c == '\U{205F}'
    || c == '\U{3000}' || c == '\U{FEFF}'
  }

  predicate IsDigit(c: char) { '0' <= c <= '9' }

  function DigitValue(c: char): nat
    requires IsDigit(c)
  {
    (c as int - '0' as int) as nat
  }

  function LowerChar(c: char): char {
    if 'A' <= c <= 'Z' then (c as int + 32) as char else c
  }

  /** `toLowerCase`, restricted to the ASCII letters. */
  function Lower(s: string): (r: string)
    ensures |r| == |s|
    ensures forall i :: 0 <= i < |s| ==> r[i] == LowerChar(s[i])
  {
    seq(|s|, i requires 0 <= i < |s| => LowerChar(s[i]))
  }

  // ---------------------------------------------------------------------------
  // trim

  /** Every character of `s` is white space. */
  predicate Blank(s: string) {
    forall i :: 0 <= i < |s| ==> IsSpace(s[i])
  }

  function TrimStart(s: string): (r: string)
    ensures |r| <= |s| && r == s[|s| - |r|..]
    ensures Blank(s[..|s| - |r|])
    ensures r != [] ==> !IsSpace(r[0])
  {
    if |s| > 0 && IsSpace(s[0]) then TrimStart(s[1..]) else s
  }

  function TrimEnd(s: string): (r: string)
    ensures |r| <= |s| && r == s[..|r|]
    ensures Blank(s[|r|..])
    ensures r != [] ==> !IsSpace(r[|r| - 1])
  {
    if |s| > 0 && IsSpace(s[|s| - 1]) then TrimEnd(s[..|s| - 1]) else s
  }

  /** `String.prototype.trim`: the slice of `s` left after removing leading and
      trailing white space. */
  function Trim(s: string): string {
    TrimEnd(TrimStart(s))
  }

  /** Trimming yields the empty string exactly when the input is all white space. */
  lemma TrimEmptyIffBlank(s: string)
    ensures Trim(s) == "" <==> Blank(s)
  {
    var t := TrimStart(s);
    if Trim(s) == "" {
      assert Blank(t[0..]);
      assert t == [];
      forall i | 0 <= i < |s| ensures IsSpace(s[i]) {
        assert s[i] == s[..|s|][i];
      }
    }
  }

  /** What trimming leaves has no white space at either end, and trimming it again changes nothing. */
  lemma TrimIdempotent(s: string)
    ensures Trim(Trim(s)) == Trim(s)
  {
    var t := Trim(s);
    if t != [] {
      assert !IsSpace(t[0]) && !IsSpace(t[|t| - 1]);
    }
  }

  // ---------------------------------------------------------------------------
  // Lengths in UTF-16 code units

  /** `String.prototype.length`: characters outside the Basic Multilingual Plane
      take two UTF-16 code units. */
  function Utf16Length(s: string): (n: nat)
    ensures |s| <= n <= 2 * |s|
  {
    if s == [] then 0 else Utf16Length(s[..|s| - 1]) + (if s[|s| - 1] as int > 0xFFFF then 2 else 1)
  }

  // ---------------------------------------------------------------------------
  // Decimal numerals

  predicate AllDigits(s: string) {
    forall i :: 0 <= i < |s| ==> IsDigit(s[i])
  }

  /** The value of a string of decimal digits. */
  function DecimalValue(s: string): nat
    requires AllDigits(s)
  {
    if s == [] then 0 else DecimalValue(s[..|s| - 1]) * 10 + DigitValue(s[|s| - 1])
  }

  /** The decimal numeral of `n`, as JavaScript's `String(n)` writes a safe integer. */
  function NatToString(n: nat): (s: string)
    ensures s != [] && AllDigits(s)
    ensures DecimalValue(s) == n
    ensures n > 0 ==> s[0] != '0'
  {
    var last := ['0' + (n % 10) as char];
    assert DecimalValue(last) == n % 10;
    if n < 10 then last
    else
      var s := NatToString(n / 10) + last;
      assert s[..|s| - 1] == NatToString(n / 10);
      s
  }

  /** `String(i)` for an integer. */
  function IntToString(i: int): string {
    if i < 0 then "-" + NatToString(-i) else NatToString(i)
  }

  /** Length of the longest prefix of `s` that consists of digits. */
  function DigitRun(s: string): (n: nat)
    ensures n <= |s| && AllDigits(s[..n])
    ensures n < |s| ==> !IsDigit(s[n])
  {
    if |s| > 0 && IsDigit(s[0]) then
      var n := 1 + DigitRun(s[1..]);
      assert s[..n] == [s[0]] + s[1..][..n - 1];
      n
    else 0
  }

  /** Length of the longest prefix of `s` that consists of white space. */
  function SpaceRun(s: string): (n: nat)
    ensures n <= |s| && Blank(s[..n])
    ensures n < |s| ==> !IsSpace(s[n])
  {
    if |s| > 0 && IsSpace(s[0]) then
      var n := 1 + SpaceRun(s[1..]);
      assert s[..n] == [s[0]] + s[1..][..n - 1];
      n
    else 0
  }

  /** A run of digits followed by something that does not start with a digit
      is exactly the maximal digit prefix. */
  lemma {:induction false} DigitRunOfConcat(d: string, e: string)
    requires AllDigits(d)
    requires e == [] || !IsDigit(e[0])
    ensures DigitRun(d + e) == |d|
  {
    if d != [] {
      assert (d + e)[1..] == d[1..] + e;
      DigitRunOfConcat(d[1..], e);
    }
  }

  /** The same for a run of white space. */
  lemma {:induction false} SpaceRunOfConcat(w: string, e: string)
    requires Blank(w)
    requires e == [] || !IsSpace(e[0])
    ensures SpaceRun(w + e) == |w|
  {
    if w != [] {
      assert (w + e)[1..] == w[1..] + e;
      SpaceRunOfConcat(w[1..], e);
    }
  }

  /** JavaScript's `parseInt(s, 10)`: optional leading white space, an optional
      sign, then the longest run of digits; `None` stands for `NaN`. */
  function ParseInt(s: string): (r: Option<int>)
    ensures r.None? <==> var t := TrimStart(s);
                         var body := if t != [] && (t[0] == '-' || t[0] == '+') then t[1..] else t;
                         body == [] || !IsDigit(body[0])
  {
    var t := TrimStart(s);
    var negative := t != [] && t[0] == '-';
    var body := if t != [] && (t[0] == '-' || t[0] == '+') then t[1..] else t;
    var n := DigitRun(body);
    if n == 0 then None
    else
      var v: int := DecimalValue(body[..n]);
      Some(if negative then -v else v)
  }

  /** `parseInt` reads back every numeral that `String` writes. */
  lemma ParseIntOfNatToString(n: nat)
    ensures ParseInt(NatToString(n)) == Some(n)
  {
    var s := NatToString(n);
    assert TrimStart(s) == s;
    DigitRunOfConcat(s, []);
    assert s + [] == s;
    assert s[..|s|] == s;
  }

  /** JavaScript's `Number(s)` for the strings a date or time input produces:
      a string that is blank after trimming converts to 0, a string of digits to
      its value, anything else to `NaN` (`None`). */
  function JsNumber(s: string): (r: Option<int>)
    ensures Blank(s) ==> r == Some(0)
    ensures AllDigits(s) && s != [] ==> r == Some(DecimalValue(s))
  {
    var t := Trim(s);
    TrimEmptyIffBlank(s);
    if t == "" then Some(0)
    else if AllDigits(t) then
      (assert AllDigits(s) ==> t == s by {
         if AllDigits(s) && s != [] {
           assert !IsSpace(s[0]) && !IsSpace(s[|s| - 1]);
           assert TrimStart(s) == s;
         }
       }
       Some(DecimalValue(t)))
    else None
  }

  // ---------------------------------------------------------------------------
  // split

  /** Index of the first occurrence of `c` in `s`, or `|s|` when there is none. */
  function IndexOf(s: string, c: char): (i: nat)
    ensures i <= |s|
    ensures forall k :: 0 <= k < i ==> s[k] != c
    ensures i < |s| ==> s[i] == c
  {
    if s == [] || s[0] == c then 0 else 1 + IndexOf(s[1..], c)
  }

  /** `String.prototype.split` with a one-character separator: never empty, and
      an empty string yields one empty piece. */
  function Split(s: string, sep: char): (parts: seq<string>)
    ensures |parts| >= 1
    ensures forall k :: 0 <= k < |parts| ==> sep !in parts[k]
    decreases |s|
  {
    var i := IndexOf(s, sep);
    if i == |s| then
      assert sep !in s by { forall k | 0 <= k < |s| ensures s[k] != sep { } }
      [s]
    else
      var first := s[..i];
      assert sep !in first by { forall k | 0 <= k < |first| ensures first[k] != sep { } }
      [first] + Split(s[i + 1..], sep)
  }

  /** `Array.prototype.join` with a one-character separator. */
  function Join(parts: seq<string>, sep: char): string {
    if parts == [] then ""
    else if |parts| == 1 then parts[0]
    else parts[0] + [sep] + Join(parts[1..], sep)
  }

  /** Splitting loses nothing: joining the pieces with the separator gives back the string. */
  lemma {:induction false} JoinSplit(s: string, sep: char)
    ensures Join(Split(s, sep), sep) == s
    decreases |s|
  {
    var i := IndexOf(s, sep);
    if i < |s| {
      var first, tail := s[..i], s[i + 1..];
      var rest := Split(tail, sep);
      assert Split(s, sep) == [first] + rest;
      JoinSplit(tail, sep);
      JoinCons(first, rest, sep);
      assert s == first + [sep] + tail;
    }
  }

  /** Joining a piece in front of a non-empty list puts one separator between. */
  lemma JoinCons(first: string, rest: seq<string>, sep: char)
    requires rest != []
    ensures Join([first] + rest, sep) == first + [sep] + Join(rest, sep)
  {
    assert ([first] + rest)[1..] == rest;
  }

  /** Joining pieces that do not contain the separator and splitting again
      gives back the pieces. */
  lemma {:induction false} SplitJoin(parts: seq<string>, sep: char)
    requires parts != []
    requires forall k :: 0 <= k < |parts| ==> sep !in parts[k]
    ensures Split(Join(parts, sep), sep) == parts
  {
    var p0 := parts[0];
    if |parts| > 1 {
      var rest := Join(parts[1..], sep);
      var s := p0 + [sep] + rest;
      assert s[|p0|] == sep;
      assert s[..|p0|] == p0;
      assert s[|p0| + 1..] == rest;
      SplitJoin(parts[1..], sep);
    }
  }

  // ---------------------------------------------------------------------------
  // filter / find

  /** `Array.prototype.filter`. */
  function Filter<T>(s: seq<T>, p: T -> bool): (r: seq<T>)
    ensures |r| <= |s|
    ensures forall x :: x in r ==> x in s && p(x)
    ensures forall x :: x in s && p(x) ==> x in r
    ensures multiset(r) <= multiset(s)
  {
    if s == [] then []
    else
      assert s == [s[0]] + s[1..];
      (if p(s[0]) then [s[0]] else []) + Filter(s[1..], p)
  }

  lemma {:induction false} FilterAppend<T>(a: seq<T>, b: seq<T>, p: T -> bool)
    ensures Filter(a + b, p) == Filter(a, p) + Filter(b, p)
  {
    if a == [] {
      assert a + b == b;
    } else {
      assert (a + b)[0] == a[0];
      assert (a + b)[1..] == a[1..] + b;
      FilterAppend(a[1..], b, p);
    }
  }

  /** `r` is obtained from `s` by deleting elements, keeping the order of the rest. */
  ghost predicate IsSubsequence<T>(r: seq<T>, s: seq<T>)
    decreases |s|
  {
    if s == [] then r == []
    else (r != [] && r[0] == s[0] && IsSubsequence(r[1..], s[1..])) || IsSubsequence(r, s[1..])
  }

  lemma {:induction false} EmptyIsSubsequence<T>(s: seq<T>)
    ensures IsSubsequence([], s)
    decreases |s|
  {
    if s != [] {
      EmptyIsSubsequence(s[1..]);
    }
  }

  lemma {:induction false} FilterIsSubsequence<T>(s: seq<T>, p: T -> bool)
    ensures IsSubsequence(Filter(s, p), s)
  {
    if s != [] {
      FilterIsSubsequence(s[1..], p);
      if p(s[0]) {
        assert Filter(s, p)[1..] == Filter(s[1..], p);
      } else {
        assert Filter(s, p) == Filter(s[1..], p);
      }
    }
  }

  /** A weaker filter keeps at least what a stronger one keeps, in the same order. */
  lemma {:induction false} FilterMonotone<T>(s: seq<T>, p: T -> bool, q: T -> bool)
    requires forall x :: x in s && p(x) ==> q(x)
    ensures IsSubsequence(Filter(s, p), Filter(s, q))
  {
    if s != [] {
      assert forall x :: x in s[1..] ==> x in s;
      FilterMonotone(s[1..], p, q);
      var fq := Filter(s, q);
      if p(s[0]) {
        assert Filter(s, p)[1..] == Filter(s[1..], p);
        assert fq[1..] == Filter(s[1..], q);
      } else if q(s[0]) {
        assert Filter(s, p) == Filter(s[1..], p);
        assert fq != [] && fq[1..] == Filter(s[1..], q);
      } else {
        assert Filter(s, p) == Filter(s[1..], p);
        assert fq == Filter(s[1..], q);
      }
    }
  }

  /** Filtering by `p` leaves `s` unchanged when every element satisfies `p`. */
  lemma {:induction false} FilterAll<T>(s: seq<T>, p: T -> bool)
    requires forall x :: x in s ==> p(x)
    ensures Filter(s, p) == s
  {
    if s != [] {
      FilterAll(s[1..], p);
    }
  }

  /** `Array.prototype.findIndex`: the first index whose element satisfies `p`, or `|s|`. */
  function FindIndex<T>(s: seq<T>, p: T -> bool): (i: nat)
    ensures i <= |s|
    ensures forall k :: 0 <= k < i ==> !p(s[k])
    ensures i < |s| ==> p(s[i])
  {
    if s == [] || p(s[0]) then 0 else 1 + FindIndex(s[1..], p)
  }

  /** `Array.prototype.find`: the first element satisfying `p`. */
  function Find<T>(s: seq<T>, p: T -> bool): (r: Option<T>)
    ensures r.None? <==> forall k :: 0 <= k < |s| ==> !p(s[k])
    ensures r.Some? ==> r.value in s && p(r.value)
    ensures r.Some? ==> FindIndex(s, p) < |s| && r.value == s[FindIndex(s, p)]
  {
    var i := FindIndex(s, p);
    if i < |s| then Some(s[i]) else None
  }

  /** `Array.prototype.some`. */
  predicate Exists<T>(s: seq<T>, p: T -> bool) {
    exists k :: 0 <= k < |s| && p(s[k])
  }
}
