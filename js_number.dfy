/** JavaScript numbers as the scraper uses them: integers obtained from
    decimal text with `Number(...)`, combined with `+` and `-`, rendered
    with a template literal, and defaulted with `x || 0`. Every such
    value is an integer or NaN, or `undefined` where a destructuring
    `[h, a]` finds no second element. */
module JsNumber {

  import opened JsString

  datatype Num = Fin(n: int) | NaN | Undefined {

    /** `this + o`: NaN unless both are numbers (`undefined` converts to NaN). */
    function Plus(o: Num): (r: Num)
      ensures r.Fin? <==> Fin? && o.Fin?
      ensures !r.Undefined?
    {
      if Fin? && o.Fin? then Fin(n + o.n) else NaN
    }

    /** `this - o`: NaN unless both are numbers. */
    function Minus(o: Num): (r: Num)
      ensures r.Fin? <==> Fin? && o.Fin?
      ensures !r.Undefined?
    {
      if Fin? && o.Fin? then Fin(n - o.n) else NaN
    }

    /** `this || 0`: NaN, `undefined` (and 0) are falsy. */
    function OrZero(): (r: int)
      ensures !Fin? ==> r == 0
    {
      if Fin? then n else 0
    }

    /** What `Number` makes of `${this}`: the value itself, except that the
        text "undefined" reads as NaN. */
    function Reparsed(): (r: Num)
      ensures !r.Undefined? && r.OrZero() == OrZero()
      ensures !Undefined? ==> r == this
    {
      if Undefined? then NaN else this
    }
  }

  function DigitValue(c: char): nat
    requires IsDigit(c)
  {
    c as int - '0' as int
  }

  function DigitChar(d: nat): (c: char)
    requires d < 10
    ensures IsDigit(c) && DigitValue(c) == d
  {
    ('0' as int + d) as char
  }

  /** The decimal value of the digits s[lo..hi]. */
  function DecimalValue(s: string, lo: nat, hi: nat): nat
    requires lo <= hi <= |s| && AllDigits(s, lo, hi)
    decreases hi - lo
  {
    if lo == hi then 0 else DecimalValue(s, lo, hi - 1) * 10 + DigitValue(s[hi - 1])
  }

  /** The value of a digit run depends only on its own characters. */
  lemma {:induction false} DecimalValueSlice(s: string, lo: nat, hi: nat)
    requires lo <= hi <= |s| && AllDigits(s, lo, hi)
    ensures AllDigits(s[lo..hi], 0, hi - lo)
    ensures DecimalValue(s, lo, hi) == DecimalValue(s[lo..hi], 0, hi - lo)
    decreases hi - lo
  {
    var t := s[lo..hi];
    assert forall k :: 0 <= k < hi - lo ==> t[k] == s[lo + k];
    if lo < hi {
      DecimalValueSlice(s, lo, hi - 1);
      DecimalValueSlice(t, 0, hi - lo - 1);
      assert t[0 .. hi - lo - 1] == s[lo .. hi - 1];
    }
  }

  /** `String(n)` for a non-negative integer: its decimal digits, without
      a leading zero. */
  function NatToString(n: nat): (r: string)
    ensures 0 < |r| && AllDigits(r, 0, |r|)
    ensures 1 < |r| ==> r[0] != '0'
    decreases n
  {
    if n < 10 then [DigitChar(n)] else NatToString(n / 10) + [DigitChar(n % 10)]
  }

  lemma {:induction false} NatToStringValue(n: nat)
    ensures DecimalValue(NatToString(n), 0, |NatToString(n)|) == n
    decreases n
  {
    if 10 <= n {
      var p := NatToString(n / 10);
      var r := NatToString(n);
      NatToStringValue(n / 10);
      assert r == p + [DigitChar(n % 10)];
      DecimalValueSlice(r, 0, |p|);
      assert r[0..|p|] == p;
    }
  }

  /** `String(n)` for any integer. */
  function IntToString(n: int): string {
    if n < 0 then "-" + NatToString(-n) else NatToString(n)
  }

  /** The template-literal rendering `${x}` of a number. */
  function ToStr(x: Num): (r: string)
    ensures 0 < |r|
  {
    match x
    case Fin(n) => IntToString(n)
    case NaN => "NaN"
    case Undefined => "undefined"
  }

  /** `Number(s)`: surrounding white space is ignored, the empty string is
      0, an optionally signed run of ASCII digits is its value, and any
      other text is NaN. */
  function ToNumber(s: string): Num {
    var t := Trim(s);
    if |t| == 0 then Fin(0)
    else if t[0] == '-' || t[0] == '+' then
      if 1 < |t| && AllDigits(t, 1, |t|) then
        var v: int := DecimalValue(t, 1, |t|);
        Fin(if t[0] == '-' then -v else v)
      else NaN
    else if AllDigits(t, 0, |t|) then Fin(DecimalValue(t, 0, |t|))
    else NaN
  }

  /** The characters a rendered number consists of: digits, '-', or
      the letters of "NaN" and "undefined". */
  lemma ToStrChars(x: Num)
    ensures 0 < |ToStr(x)|
    ensures forall k :: 0 <= k < |ToStr(x)| ==> ToStr(x)[k] != ':' && !IsSpace(ToStr(x)[k])
  {
    match x
    case NaN =>
    case Undefined =>
    case Fin(n) =>
      var d := NatToString(if n < 0 then -n else n);
      assert forall k :: 0 <= k < |d| ==> IsDigit(d[k]);
      if n < 0 {
        assert forall k :: 1 <= k < |ToStr(x)| ==> ToStr(x)[k] == d[k - 1];
      }
  }

  lemma NonNegativeRoundTrip(m: nat)
    ensures ToNumber(NatToString(m)) == Fin(m)
  {
    var d := NatToString(m);
    ToStrChars(Fin(m));
    TrimFramed([], d, []);
    assert [] + d + [] == d;
    NatToStringValue(m);
  }

  /** `Number("-" + d)` for a run of digits d. */
  lemma NegatedDigits(d: string)
    requires 0 < |d| && AllDigits(d, 0, |d|)
    ensures ToNumber("-" + d) == Fin(-(DecimalValue(d, 0, |d|) as int))
  {
    var s := "-" + d;
    assert s[1..] == d;
    assert s[|s| - 1] == d[|d| - 1];
    assert IsDigit(d[|d| - 1]);
    TrimUnpadded(s);
    assert AllDigits(s, 1, |s|) by {
      forall k | 1 <= k < |s| ensures IsDigit(s[k]) {
        assert s[k] == d[k - 1];
      }
    }
    DecimalValueSlice(s, 1, |s|);
    assert DecimalValue(s, 1, |s|) == DecimalValue(d, 0, |d|);
  }

  lemma NegativeRoundTrip(m: nat)
    requires 0 < m
    ensures ToNumber("-" + NatToString(m)) == Fin(-(m as int))
  {
    NegatedDigits(NatToString(m));
    NatToStringValue(m);
  }

  /** `Number` of a word that starts with a letter is NaN. */
  lemma WordIsNaN(w: string)
    requires 0 < |w| && !IsSpace(w[0]) && !IsSpace(w[|w| - 1])
    requires !IsDigit(w[0]) && w[0] != '-' && w[0] != '+'
    ensures ToNumber(w) == NaN
  {
    TrimUnpadded(w);
  }

  /** Reading a rendered number gives the number back; the text
      "undefined" reads as NaN. */
  lemma NumberRoundTrip(x: Num)
    ensures ToNumber(ToStr(x)) == x.Reparsed()
  {
    match x
    case NaN => WordIsNaN("NaN");
    case Undefined => WordIsNaN("undefined");
    case Fin(n) =>
      if n < 0 {
        NegativeRoundTrip(-n);
      } else {
        NonNegativeRoundTrip(n);
      }
  }

  /** `s.split(':').map(Number)` destructured as `[h, a]`. `map` calls
      `Number` only on the elements there are, so without a ':' the second
      is `undefined`; the first always exists. */
  function ScoreNumbers(s: string): (r: (Num, Num))
    ensures !r.0.Undefined?
    ensures r.1.Undefined? <==> forall k :: 0 <= k < |s| ==> s[k] != ':'
  {
    var parts := Split(s, ":");
    ColonSplit(s);
    (ToNumber(parts[0]), if 1 < |parts| then ToNumber(parts[1]) else Undefined)
  }

  /** `split(':')` yields a second element exactly when there is a ':'. */
  lemma ColonSplit(s: string)
    ensures 1 < |Split(s, ":")| <==> exists k :: 0 <= k < |s| && s[k] == ':'
  {
    forall k | 0 <= k < |s| ensures MatchesAt(s, k, ":", false) <==> s[k] == ':' {
      MatchesSingle(s, k, ':');
    }
    if forall k :: 0 <= k < |s| ==> s[k] != ':' {
      SplitNone(s, ":");
    } else {
      var k := IndexOfFrom(s, ':', 0).value;
      assert s[..k] + ":" + s[k + 1..] == s;
      SplitFirst(s[..k], ":", s[k + 1..]);
    }
  }

  /** The template `${h}:${a}`. */
  function ScoreString(p: (Num, Num)): (r: string)
    ensures 3 <= |r|
  {
    ToStr(p.0) + ":" + ToStr(p.1)
  }

  /** Rendering a pair as `h:a` and reading it back with
      `split(':').map(Number)` gives the pair back, with a rendered
      `undefined` read as NaN. */
  lemma ScoreRoundTrip(p: (Num, Num))
    ensures ScoreNumbers(ScoreString(p)) == (p.0.Reparsed(), p.1.Reparsed())
  {
    var x, y := ToStr(p.0), ToStr(p.1);
    ToStrChars(p.0);
    ToStrChars(p.1);
    forall k | 0 <= k < |x| ensures !MatchesAt(x + ":" + y, k, ":", false) {
      MatchesSingle(x + ":" + y, k, ':');
      assert (x + ":" + y)[k] == x[k];
    }
    SplitFirst(x, ":", y);
    forall k | 0 <= k < |y| ensures !MatchesAt(y, k, ":", false) {
      MatchesSingle(y, k, ':');
    }
    SplitNone(y, ":");
    NumberRoundTrip(p.0);
    NumberRoundTrip(p.1);
  }

  /** Text without ':' re-renders as its number followed by ":undefined". */
  lemma ColonlessScore(e: string)
    requires forall k :: 0 <= k < |e| ==> e[k] != ':'
    ensures ScoreString(ScoreNumbers(e)) == ToStr(ToNumber(e)) + ":undefined"
  {
    forall k | 0 <= k < |e| ensures !MatchesAt(e, k, ":", false) {
      MatchesSingle(e, k, ':');
    }
    SplitNone(e, ":");
    var r := ScoreNumbers(e);
    assert r == (ToNumber(e), Undefined);
    assert ToStr(Undefined) == "undefined";
    assert ":" + "undefined" == ":undefined";
  }
}
