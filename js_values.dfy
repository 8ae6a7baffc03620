/** The few JavaScript value semantics the client code leans on: a nullable
    value, division of integers (which yields NaN or an infinity on a zero
    divisor), the decimal string form of integers, the loose `==` between a
    stored string and a number, and `split`/`join` on a single character. */
module JsValues {

  /** `null`/`undefined` (None) or a present value. */
  datatype Option<+T> = None | Some(value: T)

  /** The value of an element lookup `s[i]`: undefined outside the array. */
  function OptionAt<T>(s: seq<T>, i: int): (r: Option<T>)
    ensures r.Some? <==> 0 <= i < |s|
    ensures r.Some? ==> r.value == s[i]
  {
    if 0 <= i < |s| then Some(s[i]) else None
  }

  // ---------------------------------------------------------------------
  // Division and comparison

  /** The result of `a / b` on two integral numbers in JavaScript. */
  datatype Quotient = Finite(value: real) | PositiveInfinity | NegativeInfinity | NaN

  function Divide(a: int, b: int): (q: Quotient)
    ensures b != 0 ==> q.Finite? && q.value * (b as real) == a as real
    ensures b == 0 ==> (q.NaN? <==> a == 0)
    ensures b == 0 ==> (q.PositiveInfinity? <==> a > 0)
    ensures b == 0 ==> (q.NegativeInfinity? <==> a < 0)
  {
    if b != 0 then Finite(a as real / b as real)
    else if a == 0 then NaN
    else if a > 0 then PositiveInfinity
    else NegativeInfinity
  }

  /** `q >= t` for a finite threshold `t`: false on NaN, true on +Infinity. */
  predicate AtLeast(q: Quotient, t: real)
  {
    match q
    case Finite(v) => v >= t
    case PositiveInfinity => true
    case NegativeInfinity => false
    case NaN => false
  }

  // ---------------------------------------------------------------------
  // Decimal strings

  predicate IsDigit(c: char) { '0' <= c <= '9' }

  predicate AllDigits(s: string) { forall i :: 0 <= i < |s| ==> IsDigit(s[i]) }

  function DigitChar(d: nat): (c: char)
    requires d < 10
    ensures IsDigit(c) && (c as int) - ('0' as int) == d
  {
    (('0' as int) + d) as char
  }

  /** The value of a string of decimal digits, read left to right. */
  function DigitsValue(s: string): nat
    requires AllDigits(s)
  {
    if s == [] then 0
    else DigitsValue(s[..|s| - 1]) * 10 + ((s[|s| - 1] as int) - ('0' as int))
  }

  /** `String(n)` for a non-negative integer. */
  function NatToString(n: nat): (s: string)
    ensures |s| >= 1 && AllDigits(s)
  {
    if n < 10 then [DigitChar(n)] else NatToString(n / 10) + [DigitChar(n % 10)]
  }

  /** `String(n)` for an integer: what `localStorage.setItem` stores for a number. */
  function IntToString(n: int): (s: string)
    ensures |s| >= 1
    ensures n < 0 <==> s[0] == '-'
  {
    if n < 0 then "-" + NatToString(-n) else NatToString(n)
  }

  /** `Number(s)` for the strings the model deals with: the empty string is 0,
      an optional sign followed by decimal digits is that integer, anything
      else is NaN (None). */
  function StringToNumber(s: string): Option<int>
  {
    if s == [] then Some(0)
    else if (s[0] == '-' || s[0] == '+') && |s| > 1 && AllDigits(s[1..]) then
      var v: int := DigitsValue(s[1..]);
      if s[0] == '-' then Some(-v) else Some(v)
    else if AllDigits(s) then Some(DigitsValue(s))
    else None
  }

  lemma {:induction false} DigitsValueOfNatToString(n: nat)
    ensures DigitsValue(NatToString(n)) == n
  {
    var s := NatToString(n);
    if n < 10 {
      assert s[..|s| - 1] == [];
    } else {
      DigitsValueOfNatToString(n / 10);
      assert s[..|s| - 1] == NatToString(n / 10);
    }
  }

  /** Reading back what was written gives the number again. */
  lemma NumberRoundTrip(n: int)
    ensures StringToNumber(IntToString(n)) == Some(n)
  {
    var s := IntToString(n);
    if n < 0 {
      assert s[1..] == NatToString(-n);
      DigitsValueOfNatToString(-n);
    } else {
      DigitsValueOfNatToString(n);
    }
  }

  /** `stored == n` with `stored` the result of `localStorage.getItem`
      (a string, or null when absent): null equals no number, a string is
      converted with `Number` first and NaN equals nothing. */
  predicate LooseEquals(stored: Option<string>, n: int)
  {
    match stored
    case None => false
    case Some(s) => StringToNumber(s) == Some(n)
  }

  lemma LooseEqualsWritten(n: int)
    ensures LooseEquals(Some(IntToString(n)), n)
    ensures forall m :: LooseEquals(Some(IntToString(n)), m) ==> m == n
  {
    NumberRoundTrip(n);
  }

  // ---------------------------------------------------------------------
  // split / join on one separator character

  /** `s.split(sep)`: never empty; empty pieces are kept. */
  function Split(s: string, sep: char): (r: seq<string>)
    ensures |r| >= 1
    ensures forall i :: 0 <= i < |r| ==> sep !in r[i]
  {
    if s == [] then [[]]
    else if s[0] == sep then [[]] + Split(s[1..], sep)
    else
      var rest := Split(s[1..], sep);
      [[s[0]] + rest[0]] + rest[1..]
  }

  /** `ws.join(sep)`. */
  function Join(ws: seq<string>, sep: char): string
  {
    if ws == [] then []
    else if |ws| == 1 then ws[0]
    else ws[0] + [sep] + Join(ws[1..], sep)
  }

  lemma {:induction false} JoinSplit(s: string, sep: char)
    ensures Join(Split(s, sep), sep) == s
  {
    if s == [] {
    } else if s[0] == sep {
      JoinSplit(s[1..], sep);
    } else {
      var rest := Split(s[1..], sep);
      JoinSplit(s[1..], sep);
      if |rest| == 1 {
        assert Join(rest, sep) == rest[0];
      } else {
        assert Join(rest, sep) == rest[0] + [sep] + Join(rest[1..], sep);
        assert ([[s[0]] + rest[0]] + rest[1..])[1..] == rest[1..];
      }
    }
  }

  lemma {:induction false} SplitJoin(ws: seq<string>, sep: char)
    requires |ws| >= 1
    requires forall i :: 0 <= i < |ws| ==> sep !in ws[i]
    ensures Split(Join(ws, sep), sep) == ws
  {
    if |ws| == 1 {
      SplitWord(ws[0], sep);
    } else {
      SplitJoin(ws[1..], sep);
      SplitWordThenSep(ws[0], Join(ws[1..], sep), sep);
      assert [ws[0]] + ws[1..] == ws;
    }
  }

  lemma {:induction false} SplitWord(w: string, sep: char)
    requires sep !in w
    ensures Split(w, sep) == [w]
  {
    if w != [] {
      assert w[0] in w;
      SplitWord(w[1..], sep);
      assert [w[0]] + w[1..] == w;
    }
  }

  lemma {:induction false} SplitWordThenSep(w: string, t: string, sep: char)
    requires sep !in w
    ensures Split(w + [sep] + t, sep) == [w] + Split(t, sep)
  {
    if w == [] {
      assert w + [sep] + t == [sep] + t;
      assert ([sep] + t)[1..] == t;
    } else {
      assert (w + [sep] + t)[0] == w[0];
      assert (w + [sep] + t)[1..] == w[1..] + [sep] + t;
      SplitWordThenSep(w[1..], t, sep);
      assert [w[0]] + w[1..] == w;
    }
  }
}
