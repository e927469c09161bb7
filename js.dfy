/** The parts of JavaScript semantics that the application code relies on:
    values and truthiness, FormData, string search and splitting, parseInt,
    Array.prototype.filter, filter-and-count and Math.round of a percentage.
    Strings are sequences of UTF-16 code units, so `|s|` is JavaScript's `.length`. */
module Js {

  datatype Option<+T> = None | Some(value: T)

  /** A JavaScript value as far as the application inspects it (arrays and
      non-integral numbers are not modelled). */
  datatype Value =
    | Undefined
    | Null
    | Bool(b: bool)
    | Num(n: int)
    | Str(s: string)
    | Obj(fields: map<string, Value>)

  /** JavaScript truthiness (`!!v`). */
  predicate Truthy(v: Value)
  {
    match v
    case Undefined => false
    case Null => false
    case Bool(b) => b
    case Num(n) => n != 0
    case Str(s) => s != ""
    case Obj(_) => true
  }

  /** Property read `o[k]`: a missing key reads as undefined. */
  function Get(m: map<string, Value>, k: string): Value
  {
    if k in m then m[k] else Undefined
  }

  /** `a || b` on optional strings, as used for `x || "default"`. */
  function OrElse(s: Option<string>, default: string): (r: string)
    ensures s.Some? && s.value != "" ==> r == s.value
    ensures s.None? || s.value == "" ==> r == default
  {
    if s.Some? && s.value != "" then s.value else default
  }

  /** Result of a server action as its caller observes it: a value, an
      `{ error }` object, a thrown exception, or a Next.js redirect. */
  datatype Outcome<+T> = Success(data: T) | Error(msg: string) | Throw(msg: string) | Redirect(url: string)

  // ---------------------------------------------------------------- FormData

  /** An entry of a multipart form: text or an uploaded file. */
  datatype FormValue = Text(text: string) | File(name: string, size: nat)

  datatype FormEntry = FormEntry(name: string, value: FormValue)

  /** A FormData is an ordered list of entries; names may repeat. */
  type FormData = seq<FormEntry>

  /** `formData.get(name)`: the value of the first entry with that name, or null. */
  function FormGet(fd: FormData, name: string): (r: Option<FormValue>)
    ensures r.Some? <==> exists i :: 0 <= i < |fd| && fd[i].name == name
    ensures r.Some? ==> exists i :: 0 <= i < |fd| && fd[i].name == name && fd[i].value == r.value &&
                                    forall j :: 0 <= j < i ==> fd[j].name != name
  {
    if fd == [] then None
    else if fd[0].name == name then Some(fd[0].value)
    else
      var r := FormGet(fd[1..], name);
      assert forall i :: 1 <= i < |fd| ==> fd[i] == fd[1..][i - 1];
      r
  }

  /** `formData.get(name) as string` as it is later used in string position:
      a file entry stringifies as "[object File]". */
  function FormText(fd: FormData, name: string): Option<string>
  {
    match FormGet(fd, name)
    case None => None
    case Some(Text(s)) => Some(s)
    case Some(File(_, _)) => Some("[object File]")
  }

  /** The JavaScript value that zod sees for `formData.get(name)`. */
  function FormValueOf(fd: FormData, name: string): Value
  {
    match FormGet(fd, name)
    case None => Null
    case Some(Text(s)) => Str(s)
    case Some(File(_, _)) => Obj(map[])
  }

  // ------------------------------------------------------- string searching

  predicate StartsWith(s: string, prefix: string)
  {
    |prefix| <= |s| && s[..|prefix|] == prefix
  }

  /** `s.includes(sub)`. */
  predicate Includes(s: string, sub: string)
    decreases |s|
  {
    StartsWith(s, sub) || (s != [] && Includes(s[1..], sub))
  }

  /** `sub` occurs in `s` at position `i`. */
  predicate OccursAt(s: string, sub: string, i: int)
  {
    0 <= i && i + |sub| <= |s| && s[i..i + |sub|] == sub
  }

  lemma {:induction false} IncludesAt(s: string, sub: string, i: nat)
    requires OccursAt(s, sub, i)
    ensures Includes(s, sub)
    decreases i
  {
    if i > 0 {
      assert s[1..][i - 1..i - 1 + |sub|] == s[i..i + |sub|];
      IncludesAt(s[1..], sub, i - 1);
    }
  }

  lemma {:induction false} IncludesWitness(s: string, sub: string) returns (i: nat)
    requires Includes(s, sub)
    ensures OccursAt(s, sub, i)
    decreases |s|
  {
    if StartsWith(s, sub) {
      i := 0;
    } else {
      var j := IncludesWitness(s[1..], sub);
      assert s[1..][j..j + |sub|] == s[j + 1..j + 1 + |sub|];
      i := j + 1;
    }
  }

  /** `includes` means: occurs at some position. */
  lemma IncludesIff(s: string, sub: string)
    ensures Includes(s, sub) <==> exists i :: OccursAt(s, sub, i)
  {
    if Includes(s, sub) {
      var i := IncludesWitness(s, sub);
    }
    if exists i :: OccursAt(s, sub, i) {
      var i :| OccursAt(s, sub, i);
      IncludesAt(s, sub, i);
    }
  }

  /** Every string includes the empty string (so an empty search matches everything). */
  lemma IncludesEmpty(s: string)
    ensures Includes(s, "")
  {
    assert OccursAt(s, "", 0);
    IncludesAt(s, "", 0);
  }

  /** Index of the first occurrence of `c`. */
  function IndexOf(s: string, c: char): (i: nat)
    requires c in s
    ensures i < |s| && s[i] == c && c !in s[..i]
  {
    if s[0] == c then 0
    else
      var j := IndexOf(s[1..], c);
      assert s[..j + 1] == [s[0]] + s[1..][..j];
      j + 1
  }

  /** The text before the first `c`, or all of `s` when there is none. */
  function UpTo(s: string, c: char): (r: string)
    ensures c !in r && StartsWith(s, r)
    ensures c in s ==> |r| < |s| && s[|r|] == c
  {
    if c in s then s[..IndexOf(s, c)] else s
  }

  /** `s.split(c)` for a one-character separator. */
  function Split(s: string, c: char): (r: seq<string>)
    ensures |r| >= 1
    ensures c in s ==> |r| >= 2
    ensures forall k :: 0 <= k < |r| ==> c !in r[k]
    decreases |s|
  {
    if c !in s then [s]
    else
      var i := IndexOf(s, c);
      [s[..i]] + Split(s[i + 1..], c)
  }

  /** The first two pieces of a split are the text up to the first separator
      and the text from there up to the second one. */
  lemma SplitFirstPieces(s: string, c: char)
    requires c in s
    ensures Split(s, c)[0] == UpTo(s, c)
    ensures Split(s, c)[1] == UpTo(s[IndexOf(s, c) + 1..], c)
  {
    var i := IndexOf(s, c);
    var rest := s[i + 1..];
    assert Split(s, c) == [s[..i]] + Split(rest, c);
    if c in rest {
      var j := IndexOf(rest, c);
      assert Split(rest, c) == [rest[..j]] + Split(rest[j + 1..], c);
    } else {
      assert Split(rest, c) == [rest];
    }
  }

  /** `s.split(c).pop()`: the last piece of a split. */
  function LastPiece(s: string, c: char): string
  {
    Split(s, c)[|Split(s, c)| - 1]
  }

  /** The last piece of a split is the part after the last separator: it has
      no separator, ends `s`, and is preceded by the separator when one occurs. */
  lemma {:induction false} LastPieceIsSuffix(s: string, c: char)
    ensures c !in LastPiece(s, c)
    ensures |LastPiece(s, c)| <= |s| && s[|s| - |LastPiece(s, c)|..] == LastPiece(s, c)
    ensures c in s ==> |LastPiece(s, c)| < |s| && s[|s| - |LastPiece(s, c)| - 1] == c
    ensures c !in s ==> LastPiece(s, c) == s
    decreases |s|
  {
    if c in s {
      var i := IndexOf(s, c);
      var rest := s[i + 1..];
      LastPieceIsSuffix(rest, c);
      var last := LastPiece(rest, c);
      assert LastPiece(s, c) == last;
      assert s[|s| - |last|..] == rest[|rest| - |last|..];
      assert s[|s| - |last| - 1] == if c in rest then rest[|rest| - |last| - 1] else s[i];
    }
  }

  // --------------------------------------------------------------- parseInt

  /** White space that parseInt skips (StrWhiteSpaceChar of ECMAScript). */
  predicate IsJsSpace(ch: char)
  {
    ch == ' ' || ch == '\t' || ch == '\n' || ch == '\r' || ch == '\U{000B}' || ch == '\U{000C}' ||
    ch == '\U{00A0}' || ch == '\U{1680}' || ('\U{2000}' <= ch <= '\U{200A}') || ch == '\U{2028}' ||
    ch == '\U{2029}' || ch == '\U{202F}' || ch == '\U{205F}' || ch == '\U{3000}' || ch == '\U{FEFF}'
  }

  function TrimStart(s: string): (r: string)
    ensures |r| <= |s| && s[|s| - |r|..] == r
    ensures r != [] ==> !IsJsSpace(r[0])
  {
    if s != [] && IsJsSpace(s[0]) then TrimStart(s[1..]) else s
  }

  /** Value of a digit in the given radix (10 or 16), or -1. */
  function DigitValue(ch: char, radix: nat): int
  {
    if '0' <= ch <= '9' then (ch - '0') as int
    else if radix == 16 && 'a' <= ch <= 'f' then (ch - 'a') as int + 10
    else if radix == 16 && 'A' <= ch <= 'F' then (ch - 'A') as int + 10
    else -1
  }

  /** Number of leading characters of `s` that are digits in `radix`. */
  function DigitRun(s: string, radix: nat): (n: nat)
    ensures n <= |s|
  {
    if s != [] && DigitValue(s[0], radix) >= 0 then 1 + DigitRun(s[1..], radix) else 0
  }

  /** Numeric value of a string of digits read left to right. */
  function DigitsValue(s: string, radix: nat): int
  {
    if s == [] then 0
    else DigitsValue(s[..|s| - 1], radix) * radix + DigitValue(s[|s| - 1], radix)
  }

  /** `parseInt(s)` with no radix: None stands for NaN. */
  function ParseInt(s: string): Option<int>
  {
    var t := TrimStart(s);
    var negative := t != [] && t[0] == '-';
    var u := if t != [] && (t[0] == '-' || t[0] == '+') then t[1..] else t;
    var hex := |u| >= 2 && u[0] == '0' && (u[1] == 'x' || u[1] == 'X');
    var radix := if hex then 16 else 10;
    var body := if hex then u[2..] else u;
    var n := DigitRun(body, radix);
    if n == 0 then None
    else
      var v := DigitsValue(body[..n], radix);
      Some(if negative then -v else v)
  }

  /** Decimal digits of a natural number, as `String(n)` prints it. */
  function DecimalString(n: nat): (r: string)
    ensures r != []
  {
    if n < 10 then [('0' as int + n) as char]
    else DecimalString(n / 10) + [('0' as int + n % 10) as char]
  }

  /** Every character `String(n)` prints is a decimal digit, and only "0" itself
      starts with '0'. */
  lemma {:induction false} DecimalDigits(n: nat)
    ensures forall i :: 0 <= i < |DecimalString(n)| ==> '0' <= DecimalString(n)[i] <= '9'
    ensures DecimalString(n)[0] == '0' ==> n == 0
  {
    if n >= 10 {
      DecimalDigits(n / 10);
      var s := DecimalString(n / 10);
      assert forall i :: 0 <= i < |s| ==> DecimalString(n)[i] == s[i];
    }
  }

  /** A string of decimal digits is read to its end. */
  lemma {:induction false} DigitRunAll(s: string)
    requires forall i :: 0 <= i < |s| ==> '0' <= s[i] <= '9'
    ensures DigitRun(s, 10) == |s|
  {
    if s != [] {
      assert forall i :: 0 <= i < |s[1..]| ==> s[1..][i] == s[i + 1];
      DigitRunAll(s[1..]);
    }
  }

  /** Reading back the digits of `String(n)` gives `n`. */
  lemma {:induction false} DigitsValueDecimal(n: nat)
    ensures DigitsValue(DecimalString(n), 10) == n
  {
    if n >= 10 {
      DigitsValueDecimal(n / 10);
      var s := DecimalString(n);
      assert s[..|s| - 1] == DecimalString(n / 10);
    }
  }

  /** A string of decimal digits without a leading zero parses as its value. */
  lemma ParseDigits(s: string)
    requires s != [] && forall i :: 0 <= i < |s| ==> '0' <= s[i] <= '9'
    requires s[0] == '0' ==> |s| == 1
    ensures ParseInt(s) == Some(DigitsValue(s, 10))
  {
    DigitRunAll(s);
    assert !IsJsSpace(s[0]);
    assert TrimStart(s) == s;
    assert s[..|s|] == s;
  }

  /** `parseInt(String(n))` is `n`: a count written with `toString` is read back whole. */
  lemma ParseDecimal(n: nat)
    ensures ParseInt(DecimalString(n)) == Some(n)
  {
    DecimalDigits(n);
    DigitsValueDecimal(n);
    if n < 10 {
      assert |DecimalString(n)| == 1;
    }
    ParseDigits(DecimalString(n));
  }

  // ------------------------------------------------------ arrays and counts

  /** `s.filter(p)`. */
  function Filter<T>(s: seq<T>, p: T -> bool): (r: seq<T>)
    ensures |r| <= |s|
  {
    if s == [] then [] else (if p(s[0]) then [s[0]] else []) + Filter(s[1..], p)
  }

  /** `a` is `b` with some elements left out, order kept. */
  predicate IsSubsequence<T(==)>(a: seq<T>, b: seq<T>)
    decreases |b|
  {
    a == [] || (b != [] && ((a[0] == b[0] && IsSubsequence(a[1..], b[1..])) || IsSubsequence(a, b[1..])))
  }

  /** An element is kept by a filter exactly when it is in the input and satisfies the predicate. */
  lemma {:induction false} FilterMembers<T>(s: seq<T>, p: T -> bool, x: T)
    ensures x in Filter(s, p) <==> x in s && p(x)
  {
    if s != [] {
      FilterMembers(s[1..], p, x);
      assert x in s <==> x == s[0] || x in s[1..];
    }
  }

  /** Every element of the filtered list satisfies the predicate; every element of
      the input that satisfies it is kept. */
  lemma FilterSound<T>(s: seq<T>, p: T -> bool)
    ensures forall x :: x in Filter(s, p) ==> p(x) && x in s
    ensures forall x :: x in s && p(x) ==> x in Filter(s, p)
  {
    forall x ensures x in Filter(s, p) <==> x in s && p(x) {
      FilterMembers(s, p, x);
    }
  }

  /** A filter keeps the input order: its result is a subsequence. */
  lemma {:induction false} FilterIsSubsequence<T>(s: seq<T>, p: T -> bool)
    ensures IsSubsequence(Filter(s, p), s)
  {
    if s != [] {
      FilterIsSubsequence(s[1..], p);
      if p(s[0]) {
        assert Filter(s, p) == [s[0]] + Filter(s[1..], p);
      } else {
        assert Filter(s, p) == Filter(s[1..], p);
      }
    }
  }

  /** A filter whose predicate accepts everything returns its input. */
  lemma {:induction false} FilterAll<T>(s: seq<T>, p: T -> bool)
    requires forall x :: x in s ==> p(x)
    ensures Filter(s, p) == s
  {
    if s != [] {
      FilterAll(s[1..], p);
    }
  }

  /** Tightening a filter never adds elements: the stricter result is a
      subsequence of the looser one. */
  lemma {:induction false} FilterMonotone<T>(s: seq<T>, strict: T -> bool, loose: T -> bool)
    requires forall x :: strict(x) ==> loose(x)
    ensures IsSubsequence(Filter(s, strict), Filter(s, loose))
  {
    if s != [] {
      FilterMonotone(s[1..], strict, loose);
      var a, b := Filter(s[1..], strict), Filter(s[1..], loose);
      if strict(s[0]) {
        assert Filter(s, strict) == [s[0]] + a;
        assert Filter(s, loose) == [s[0]] + b;
      } else if loose(s[0]) {
        assert Filter(s, loose) == [s[0]] + b;
        assert Filter(s, strict) == a;
        SubsequenceOfTail(a, b, s[0]);
      } else {
        assert Filter(s, strict) == a && Filter(s, loose) == b;
      }
    }
  }

  lemma {:induction false} SubsequenceOfTail<T>(a: seq<T>, b: seq<T>, x: T)
    requires IsSubsequence(a, b)
    ensures IsSubsequence(a, [x] + b)
  {
    if a != [] {
      assert ([x] + b)[1..] == b;
    }
  }

  /** `s.filter(p).length`. */
  function CountWhere<T>(s: seq<T>, p: T -> bool): nat
  {
    |Filter(s, p)|
  }

  /** Counts of two predicates that never hold together add up to at most the length. */
  lemma {:induction false} CountDisjoint<T>(s: seq<T>, p: T -> bool, q: T -> bool)
    requires forall x :: !(p(x) && q(x))
    ensures CountWhere(s, p) + CountWhere(s, q) <= |s|
  {
    if s != [] {
      CountDisjoint(s[1..], p, q);
      assert Filter(s, p) == (if p(s[0]) then [s[0]] else []) + Filter(s[1..], p);
      assert Filter(s, q) == (if q(s[0]) then [s[0]] else []) + Filter(s[1..], q);
    }
  }

  /** `Math.round(count / total * 100)` for `total > 0`, and 0 otherwise, computed on
      exact rationals: round half up of 100·count/total. */
  function RoundedPercent(count: nat, total: nat): (r: nat)
    ensures total == 0 ==> r == 0
    ensures total > 0 ==> 2 * total * r <= 200 * count + total < 2 * total * (r + 1)
  {
    if total > 0 then (200 * count + total) / (2 * total) else 0
  }

  /** A rate of a part of a whole lies between 0 and 100, is 0 for an empty part and 100 for the whole. */
  lemma RoundedPercentBounds(count: nat, total: nat)
    requires count <= total
    ensures RoundedPercent(count, total) <= 100
    ensures count == 0 ==> RoundedPercent(count, total) == 0
    ensures 0 < count == total ==> RoundedPercent(count, total) == 100
  {
    var r := RoundedPercent(count, total);
    if total > 0 {
      if r > 100 {
        assert 2 * total * r >= 2 * total * 101 by {
          assert r >= 101;
          MulMonotone(2 * total, 101, r);
        }
        assert false;
      }
      if count == 0 && r > 0 {
        MulMonotone(2 * total, 1, r);
        assert false;
      }
      if count == total && r < 100 {
        MulMonotone(2 * total, r + 1, 100);
        assert false;
      }
    }
  }

  lemma MulMonotone(k: nat, a: nat, b: nat)
    requires a <= b
    ensures k * a <= k * b
  {
  }
}
