/** The small part of JavaScript semantics the gateway relies on: the values a JSON
    request body can carry, truthiness, `Number(...)`, `String(...)`,
    `String.prototype.includes`, `startsWith` and `split` with a one-character
    separator. */
module Js {
  import opened Outcomes

  /** A JSON / JavaScript value as read from a request body or an upstream reply.
      `Num` carries integers only, `Arr` is an array and `Obj` stands for any other
      non-null object. */
  datatype Value = Undefined | Null | Bool(b: bool) | Num(n: int) | Str(s: string) | Arr(elems: seq<Value>) | Obj

  /** JavaScript truthiness: `undefined`, `null`, `false`, `0` and `""` are falsy. */
  predicate Truthy(v: Value)
  {
    match v
    case Undefined => false
    case Null => false
    case Bool(b) => b
    case Num(n) => n != 0
    case Str(s) => s != ""
    case Arr(_) => true
    case Obj => true
  }

  /** The characters matched by `\s` in a JavaScript regular expression; the same set
      is what `Number(...)` trims from a string. */
  predicate IsWhitespace(c: char)
  {
    var n := c as int;
    (9 <= n <= 13) || n == 0x20 || n == 0xA0 || n == 0x1680 || (0x2000 <= n <= 0x200A)
    || n == 0x2028 || n == 0x2029 || n == 0x202F || n == 0x205F || n == 0x3000 || n == 0xFEFF
  }

  predicate IsDigit(c: char)
  {
    '0' <= c <= '9'
  }

  predicate AllDigits(t: string)
  {
    forall k :: 0 <= k < |t| ==> IsDigit(t[k])
  }

  /** `s.includes(part)` */
  predicate Includes(s: string, part: string)
  {
    exists i :: 0 <= i <= |s| && part <= s[i..]
  }

  /** `s.startsWith(part)` */
  predicate StartsWith(s: string, part: string)
  {
    part <= s
  }

  // ---------------------------------------------------------------------------
  // Decimal text of integers, and its inverse

  function DigitChar(d: int): (c: char)
    requires 0 <= d < 10
    ensures IsDigit(c) && c as int - '0' as int == d
  {
    ('0' as int + d) as char
  }

  /** The decimal text of a natural number, without leading zeros. */
  function NatText(n: nat): (t: string)
    ensures |t| >= 1 && AllDigits(t)
    ensures n >= 10 ==> t == NatText(n / 10) + [DigitChar(n % 10)]
    decreases n
  {
    if n < 10 then [DigitChar(n)] else NatText(n / 10) + [DigitChar(n % 10)]
  }

  /** `String(n)` for an integer `n`. */
  function IntText(n: int): string
  {
    if n < 0 then "-" + NatText(-n) else NatText(n)
  }

  /** The number a string of decimal digits denotes (leading zeros allowed). */
  function DigitsValue(t: string): nat
    requires AllDigits(t)
  {
    if |t| == 0 then 0
    else DigitsValue(t[..|t| - 1]) * 10 + (t[|t| - 1] as int - '0' as int)
  }

  /** Reading back the decimal text of `n` gives `n`. */
  lemma {:induction false} DigitsValueOfNatText(n: nat)
    ensures DigitsValue(NatText(n)) == n
    decreases n
  {
    var t := NatText(n);
    if n < 10 {
      assert t[..|t| - 1] == [];
    } else {
      assert t[..|t| - 1] == NatText(n / 10);
      DigitsValueOfNatText(n / 10);
    }
  }

  /** A digit string denotes 0 exactly when every digit is '0'. */
  lemma {:induction false} DigitsValueZero(t: string)
    requires AllDigits(t)
    ensures DigitsValue(t) == 0 <==> forall k :: 0 <= k < |t| ==> t[k] == '0'
  {
    if |t| > 0 {
      var p := t[..|t| - 1];
      DigitsValueZero(p);
      assert forall k :: 0 <= k < |p| ==> p[k] == t[k];
    }
  }

  /** A digit string denotes 1 exactly when it is some zeros followed by a single '1'. */
  lemma {:induction false} DigitsValueOne(t: string)
    requires AllDigits(t)
    ensures DigitsValue(t) == 1 <==>
              (|t| >= 1 && t[|t| - 1] == '1' && forall k :: 0 <= k < |t| - 1 ==> t[k] == '0')
  {
    if |t| > 0 {
      var p := t[..|t| - 1];
      DigitsValueZero(p);
      assert forall k :: 0 <= k < |p| ==> p[k] == t[k];
    }
  }

  // ---------------------------------------------------------------------------
  // Coercions

  /** `String(v)`: the text JavaScript produces when a value is coerced to a string.
      An array's text is `elems.join(',')`, where `undefined` and `null` elements
      become empty fields. */
  function ToText(v: Value): string
    decreases v, 0
  {
    match v
    case Undefined => "undefined"
    case Null => "null"
    case Bool(b) => if b then "true" else "false"
    case Num(n) => IntText(n)
    case Str(s) => s
    case Arr(elems) =>
      Join(seq(|elems|, i requires 0 <= i < |elems| => ElementText(elems[i])), ',')
    case Obj => "[object Object]"
  }

  /** The field an array element contributes to the array's text: `undefined` and
      `null` contribute nothing. */
  function ElementText(e: Value): string
    decreases e, 1
  {
    if e.Undefined? || e.Null? then "" else ToText(e)
  }

  /** The text of an empty array is empty, and a one-element array reads as its
      element. */
  lemma SingletonArrayText(x: Value)
    requires !x.Undefined? && !x.Null?
    ensures ToText(Arr([])) == ""
    ensures ToText(Arr([x])) == ToText(x)
  {
    var fields := seq(1, i requires 0 <= i < 1 => ElementText([x][i]));
    assert fields == [ToText(x)];
  }

  function TrimStart(s: string): (r: string)
    ensures |r| <= |s| && r == s[|s| - |r|..]
    ensures |r| > 0 ==> !IsWhitespace(r[0])
    ensures forall k :: 0 <= k < |s| - |r| ==> IsWhitespace(s[k])
  {
    if |s| > 0 && IsWhitespace(s[0]) then TrimStart(s[1..]) else s
  }

  function TrimEnd(s: string): (r: string)
    ensures |r| <= |s| && r == s[..|r|]
    ensures |r| > 0 ==> !IsWhitespace(r[|r| - 1])
    ensures forall k :: |r| <= k < |s| ==> IsWhitespace(s[k])
  {
    if |s| > 0 && IsWhitespace(s[|s| - 1]) then TrimEnd(s[..|s| - 1]) else s
  }

  /** `Number(...)` of an already trimmed string, restricted to the forms this model
      reads: the empty string is 0 and a run of decimal digits is its value; every
      other string is NaN (`None`). */
  function TrimmedToNumber(t: string): Option<int>
  {
    if t == "" then Some(0)
    else if AllDigits(t) then Some(DigitsValue(t))
    else None
  }

  /** `Number(s)` for a string: whitespace is trimmed from both ends first. */
  function StringToNumber(s: string): Option<int>
  {
    TrimmedToNumber(TrimEnd(TrimStart(s)))
  }

  /** `Number(v)`; `None` is NaN. An array is read through its text. */
  function ToNumber(v: Value): Option<int>
  {
    match v
    case Undefined => None
    case Null => Some(0)
    case Bool(b) => Some(if b then 1 else 0)
    case Num(n) => Some(n)
    case Str(s) => StringToNumber(s)
    case Arr(_) => StringToNumber(ToText(v))
    case Obj => None
  }

  /** `[0, 1].includes(Number(v))` */
  predicate NumberIsZeroOrOne(v: Value)
  {
    ToNumber(v) == Some(0) || ToNumber(v) == Some(1)
  }

  /** `Number(String(n)) == n` for every non-negative integer. */
  lemma NumberOfText(n: nat)
    ensures ToNumber(Str(ToText(Num(n)))) == Some(n)
  {
    var t := NatText(n);
    assert TrimStart(t) == t by {
      assert !IsWhitespace(t[0]);
    }
    assert TrimEnd(t) == t by {
      assert !IsWhitespace(t[|t| - 1]);
    }
    DigitsValueOfNatText(n);
  }

  predicate AllZeros(t: string)
  {
    forall k :: 0 <= k < |t| ==> t[k] == '0'
  }

  predicate ZerosThenOne(t: string)
  {
    |t| >= 1 && t[|t| - 1] == '1' && forall k :: 0 <= k < |t| - 1 ==> t[k] == '0'
  }

  lemma TrimmedZeroOrOne(t: string)
    ensures (TrimmedToNumber(t) == Some(0) || TrimmedToNumber(t) == Some(1)) <==>
              AllDigits(t) && (AllZeros(t) || ZerosThenOne(t))
  {
    if AllDigits(t) {
      DigitsValueZero(t);
      DigitsValueOne(t);
    } else {
      assert t != "";
    }
  }

  /** Which strings `[0, 1].includes(Number(s))` accepts: after trimming whitespace,
      the empty string, a run of zeros, or zeros followed by one '1'. */
  lemma RoleTextAccepted(s: string)
    ensures var t := TrimEnd(TrimStart(s));
            NumberIsZeroOrOne(Str(s)) <==> AllDigits(t) && (AllZeros(t) || ZerosThenOne(t))
  {
    TrimmedZeroOrOne(TrimEnd(TrimStart(s)));
  }

  /** Which arrays `[0, 1].includes(Number(a))` accepts: those whose text is a string it
      accepts. */
  lemma ArrayRoleTextAccepted(a: Value)
    requires a.Arr?
    ensures var t := TrimEnd(TrimStart(ToText(a)));
            NumberIsZeroOrOne(a) <==> AllDigits(t) && (AllZeros(t) || ZerosThenOne(t))
  {
    var text := ToText(a);
    assert ToNumber(a) == StringToNumber(text);
    RoleTextAccepted(text);
  }

  // ---------------------------------------------------------------------------
  // Splitting on a one-character separator

  /** The position of the first `c` in `s`. */
  function IndexOf(s: string, c: char): (i: nat)
    requires c in s
    ensures i < |s| && s[i] == c && c !in s[..i]
  {
    if s[0] == c then 0 else 1 + IndexOf(s[1..], c)
  }

  /** `IndexOf` finds the first occurrence: any occurrence with none before it is it. */
  lemma {:induction false} IndexOfFirst(s: string, c: char, i: nat)
    requires i < |s| && s[i] == c && c !in s[..i]
    ensures IndexOf(s, c) == i
  {
    if i > 0 {
      assert s[..i][0] == s[0];
      assert s[1..][..i - 1] == s[..i][1..];
      IndexOfFirst(s[1..], c, i - 1);
    }
  }

  /** `s.split(sep)` for a one-character separator: the fields between consecutive
      separators, always at least one. */
  function Split(s: string, sep: char): (fields: seq<string>)
    ensures |fields| >= 1
    decreases |s|
  {
    if sep !in s then [s]
    else
      var i := IndexOf(s, sep);
      [s[..i]] + Split(s[i + 1..], sep)
  }

  /** `fields.join(sep)` */
  function Join(fields: seq<string>, sep: char): string
  {
    if |fields| == 0 then ""
    else if |fields| == 1 then fields[0]
    else fields[0] + [sep] + Join(fields[1..], sep)
  }

  predicate FieldsFree(fields: seq<string>, sep: char)
  {
    forall k :: 0 <= k < |fields| ==> sep !in fields[k]
  }

  /** Splitting loses nothing: joining the fields back gives the original text,
      and no field contains the separator. */
  lemma {:induction false} JoinSplit(s: string, sep: char)
    ensures Join(Split(s, sep), sep) == s
    ensures FieldsFree(Split(s, sep), sep)
    decreases |s|
  {
    if sep in s {
      var i := IndexOf(s, sep);
      var rest := Split(s[i + 1..], sep);
      JoinSplit(s[i + 1..], sep);
      assert Split(s, sep) == [s[..i]] + rest;
      assert (Split(s, sep))[1..] == rest;
      assert s == s[..i] + [sep] + s[i + 1..];
    }
  }

  /** Splitting undoes joining, for any non-empty list of separator-free fields. */
  lemma {:induction false} SplitJoin(fields: seq<string>, sep: char)
    requires |fields| >= 1 && FieldsFree(fields, sep)
    ensures Split(Join(fields, sep), sep) == fields
    decreases |fields|
  {
    if |fields| > 1 {
      var head := fields[0];
      var tail := Join(fields[1..], sep);
      var s := head + [sep] + tail;
      assert Join(fields, sep) == s;
      assert s[..|head|] == head;
      assert sep !in head;
      IndexOfFirst(s, sep, |head|);
      assert s[|head| + 1..] == tail;
      assert Split(s, sep) == [head] + Split(tail, sep);
      assert FieldsFree(fields[1..], sep) by {
        forall k | 0 <= k < |fields[1..]|
          ensures sep !in fields[1..][k]
        {
          assert fields[1..][k] == fields[k + 1];
        }
      }
      assert fields == [head] + fields[1..];
      SplitJoin(fields[1..], sep);
    }
  }
}
