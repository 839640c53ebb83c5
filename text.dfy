/** Character classes and the few Ruby String operations the program relies on:
    `split` with a regular-expression separator, `Integer#to_s` and `String#to_i`. */
module Text {

  datatype Option<+T> = None | Some(value: T)

  /** The character classes of the regular expressions in the program:
      `\s`, `\d`, a newline, a comma, a blank, and the complement of any of them
      (`\S` is `Not(Space)`, `.` is `Not(Newline)`). */
  datatype CharClass = Space | Digit | Newline | Comma | Blank | Not(of: CharClass)

  predicate InClass(c: char, k: CharClass)
  {
    match k
    case Space => c == ' ' || c == '\t' || c == '\n' || c == '\r' || c == '\U{000B}' || c == '\U{000C}'
    case Digit => '0' <= c <= '9'
    case Newline => c == '\n'
    case Comma => c == ','
    case Blank => c == ' '
    case Not(k') => !InClass(c, k')
  }

  /** The end of the longest run of characters of class `k` starting at `i`. */
  function RunEnd(s: string, i: nat, k: CharClass): (j: nat)
    requires i <= |s|
    ensures i <= j <= |s|
    decreases |s| - i
  {
    if i < |s| && InClass(s[i], k) then RunEnd(s, i + 1, k) else i
  }

  /** RunEnd stops at the first character, from `i` on, outside the class. */
  lemma {:induction false} RunEndStops(s: string, i: nat, k: CharClass)
    requires i <= |s|
    ensures forall m :: i <= m < RunEnd(s, i, k) ==> InClass(s[m], k)
    ensures RunEnd(s, i, k) == |s| || !InClass(s[RunEnd(s, i, k)], k)
    decreases |s| - i
  {
    if i < |s| && InClass(s[i], k) {
      RunEndStops(s, i + 1, k);
    }
  }

  /** A run is determined by where it stops. */
  lemma RunEndIs(s: string, i: nat, k: CharClass, j: nat)
    requires i <= j <= |s|
    requires forall m :: i <= m < j ==> InClass(s[m], k)
    requires j == |s| || !InClass(s[j], k)
    ensures RunEnd(s, i, k) == j
    decreases j - i
  {
    if i < j {
      RunEndIs(s, i + 1, k, j);
    }
  }

  /** Leading `\s*` removed. */
  function DropSpace(s: string): string
  {
    s[RunEnd(s, 0, Space)..]
  }

  // Every field of `s` separated by one character of class `sep` followed by `\s*`;
  // with `sep == Comma` this is the separator `/,\s*/`, with `sep == Space` it is `/\s+/`.
  function Fields(s: string, sep: CharClass): seq<string>
    decreases |s|
  {
    var k := RunEnd(s, 0, Not(sep));
    if k == |s| then [s] else [s[..k]] + Fields(DropSpace(s[k + 1..]), sep)
  }

  function DropTrailingEmpty(f: seq<string>): seq<string>
  {
    if f != [] && f[|f| - 1] == "" then DropTrailingEmpty(f[..|f| - 1]) else f
  }

  /** Ruby's `String#split(regexp)`: trailing empty fields are removed, so "" gives []. */
  function RubySplit(s: string, sep: CharClass): seq<string>
  {
    DropTrailingEmpty(Fields(s, sep))
  }

  /** Ruby's `Array#join(glue)`. */
  function Join(items: seq<string>, glue: string): string
  {
    if |items| == 0 then ""
    else if |items| == 1 then items[0]
    else items[0] + glue + Join(items[1..], glue)
  }

  /** A non-empty word holding neither white space nor a separator character. */
  predicate Token(t: string, sep: CharClass)
  {
    |t| > 0 && forall m :: 0 <= m < |t| ==> !InClass(t[m], Space) && !InClass(t[m], sep)
  }

  /** A glue that the separator regular expression consumes completely:
      one character of class `sep` and then white space only. */
  predicate Glue(glue: string, sep: CharClass)
  {
    |glue| > 0 && InClass(glue[0], sep) && forall m :: 1 <= m < |glue| ==> InClass(glue[m], Space)
  }

  lemma {:induction false} FieldsOfJoin(items: seq<string>, sep: CharClass, glue: string)
    requires Glue(glue, sep)
    requires forall n :: 0 <= n < |items| ==> Token(items[n], sep)
    ensures Fields(Join(items, glue), sep) == if items == [] then [""] else items
  {
    var s := Join(items, glue);
    if |items| == 0 {
      RunEndIs(s, 0, Not(sep), 0);
    } else if |items| == 1 {
      RunEndIs(s, 0, Not(sep), |s|);
    } else {
      var rest := Join(items[1..], glue);
      assert s == items[0] + glue + rest;
      assert Token(items[1], sep);
      JoinStarts(items[1..], glue);
      FieldStep(items[0], glue, rest, sep);
      FieldsOfJoin(items[1..], sep, glue);
    }
  }

  /** One field, its separator, and whatever follows: the field is cut off whole and the
      separator with the white space after it is dropped. */
  lemma FieldStep(a: string, glue: string, rest: string, sep: CharClass)
    requires Token(a, sep) && Glue(glue, sep)
    requires |rest| > 0 && !InClass(rest[0], Space)
    ensures Fields(a + glue + rest, sep) == [a] + Fields(rest, sep)
  {
    var s := a + glue + rest;
    RunEndIs(s, 0, Not(sep), |a|);
    assert s[..|a|] == a;
    var tail := s[|a| + 1..];
    assert tail == glue[1..] + rest;
    RunEndIs(tail, 0, Space, |glue| - 1);
    assert DropSpace(tail) == rest;
  }

  lemma {:induction false} JoinStarts(items: seq<string>, glue: string)
    requires |items| > 0 && |items[0]| > 0
    ensures |Join(items, glue)| > 0 && Join(items, glue)[0] == items[0][0]
  {
  }

  /** A class of characters that neither the items nor the glue contain is absent from
      the joined string. */
  lemma {:induction false} JoinAvoids(items: seq<string>, glue: string, k: CharClass)
    requires forall n, m :: 0 <= n < |items| && 0 <= m < |items[n]| ==> !InClass(items[n][m], k)
    requires forall m :: 0 <= m < |glue| ==> !InClass(glue[m], k)
    ensures forall m :: 0 <= m < |Join(items, glue)| ==> !InClass(Join(items, glue)[m], k)
  {
    if |items| > 1 {
      JoinAvoids(items[1..], glue, k);
      var rest := Join(items[1..], glue);
      assert Join(items, glue) == items[0] + glue + rest;
      forall m | 0 <= m < |Join(items, glue)|
        ensures !InClass(Join(items, glue)[m], k)
      {
        if m < |items[0]| {
        } else if m < |items[0]| + |glue| {
        } else {
          assert Join(items, glue)[m] == rest[m - |items[0]| - |glue|];
        }
      }
    }
  }

  // Splitting undoes joining: `ids.join(", ").split(/,\s*/) == ids` and
  // `members.join(" ").split(/\s+/) == members` for lists of words.
  lemma SplitJoin(items: seq<string>, sep: CharClass, glue: string)
    requires Glue(glue, sep)
    requires forall n :: 0 <= n < |items| ==> Token(items[n], sep)
    ensures RubySplit(Join(items, glue), sep) == items
  {
    FieldsOfJoin(items, sep, glue);
    if items != [] {
      assert Token(items[|items| - 1], sep);
    }
  }

  function DigitChar(d: nat): (c: char)
    requires d < 10
    ensures InClass(c, Digit)
  {
    ('0' as int + d) as char
  }

  /** Decimal notation of a natural number, most significant digit first. */
  function NatToString(n: nat): string
    decreases n
  {
    if n < 10 then [DigitChar(n)] else NatToString(n / 10) + [DigitChar(n % 10)]
  }

  /** Ruby's `Integer#to_s`. */
  function IntToString(i: int): string
  {
    if i < 0 then "-" + NatToString(-i) else NatToString(i)
  }

  predicate AllDigits(ds: string)
  {
    forall m :: 0 <= m < |ds| ==> InClass(ds[m], Digit)
  }

  /** The value of a string of decimal digits. */
  function DigitsValue(ds: string): nat
    requires AllDigits(ds)
  {
    if ds == [] then 0 else DigitsValue(ds[..|ds| - 1]) * 10 + (ds[|ds| - 1] as int - '0' as int)
  }

  /** The value of the leading decimal digits of `t`, 0 when there are none. */
  function LeadingValue(t: string): nat
  {
    var e := RunEnd(t, 0, Digit);
    RunEndStops(t, 0, Digit);
    DigitsValue(t[..e])
  }

  /** Ruby's `String#to_i`: leading white space, an optional sign, then as many digits as
      there are; anything else ends the number and no digits at all gives 0. */
  function ToI(s: string): int
  {
    var t := DropSpace(s);
    if |t| > 0 && t[0] == '-' then -(LeadingValue(t[1..]) as int)
    else if |t| > 0 && t[0] == '+' then LeadingValue(t[1..])
    else LeadingValue(t)
  }

  lemma {:induction false} NatToStringDigits(n: nat)
    ensures |NatToString(n)| > 0 && AllDigits(NatToString(n))
    ensures DigitsValue(NatToString(n)) == n
    decreases n
  {
    if n >= 10 {
      NatToStringDigits(n / 10);
      var s := NatToString(n);
      assert s[..|s| - 1] == NatToString(n / 10);
    }
  }

  lemma LeadingValueOfDigits(ds: string)
    requires AllDigits(ds)
    ensures LeadingValue(ds) == DigitsValue(ds)
  {
    RunEndIs(ds, 0, Digit, |ds|);
    assert ds[..|ds|] == ds;
  }

  /** `to_i` reads back what `to_s` wrote. */
  lemma ToIOfIntToString(i: int)
    ensures ToI(IntToString(i)) == i
  {
    var n: nat := if i < 0 then -i else i;
    NatToStringDigits(n);
    var d := NatToString(n);
    LeadingValueOfDigits(d);
    var s := IntToString(i);
    RunEndIs(s, 0, Space, 0);
    assert DropSpace(s) == s;
    if i < 0 {
      assert s[1..] == d;
    } else {
      assert s == d && !InClass(s[0], Space);
    }
  }
}
