/**
 * Catalog prices and the way the cart turns a price into a number
 * (App.tsx:61-70): a price is either a number or a text such as
 * "à partir de 18"; a text is stripped of every character except digits and
 * '.', and what remains is read as a decimal number, 0 when it cannot be read.
 */
module Prices {
  import opened Wrappers

  /** A `number | string` price field. */
  datatype Price = Amount(value: real) | Label(text: string)

  /** The price text that marks a product as not yet orderable. */
  const ComingSoon: string := "Bientôt disponible"

  predicate IsDigit(c: char) { '0' <= c <= '9' }

  predicate IsNumericChar(c: char) { IsDigit(c) || c == '.' }

  function DigitValue(c: char): nat
    requires IsDigit(c)
  {
    c as int - '0' as int
  }

  predicate AllDigits(s: string) { forall i :: 0 <= i < |s| ==> IsDigit(s[i]) }

  /** `s.replace(/[^0-9.]/g, '')`: the digits and dots of `s`, in order. */
  function KeepNumeric(s: string): (r: string)
    ensures forall i :: 0 <= i < |r| ==> IsNumericChar(r[i])
    ensures forall i :: 0 <= i < |s| && IsNumericChar(s[i]) ==> s[i] in r
    ensures (forall i :: 0 <= i < |s| ==> IsNumericChar(s[i])) ==> r == s
  {
    if s == [] then []
    else
      var rest := KeepNumeric(s[1..]);
      assert forall i :: 1 <= i < |s| ==> s[i] == s[1..][i - 1];
      if IsNumericChar(s[0]) then [s[0]] + rest else rest
  }

  /** Length of the run of digits at the front of `s`. */
  function LeadingDigits(s: string): (n: nat)
    ensures n <= |s| && AllDigits(s[..n])
    ensures n < |s| ==> !IsDigit(s[n])
  {
    if s == [] || !IsDigit(s[0]) then 0
    else
      var n := 1 + LeadingDigits(s[1..]);
      assert s[..n] == [s[0]] + s[1..][..n - 1];
      n
  }

  /** The whole number written by a run of digits, most significant first. */
  function DigitsValue(ds: string): nat
    requires AllDigits(ds)
  {
    if ds == [] then 0
    else 10 * DigitsValue(ds[..|ds| - 1]) + DigitValue(ds[|ds| - 1])
  }

  /** The value of the digits written after a decimal point. */
  function FractionValue(ds: string): real
    requires AllDigits(ds)
  {
    if ds == [] then 0.0
    else (DigitValue(ds[0]) as real + FractionValue(ds[1..])) / 10.0
  }

  /**
   * `parseFloat` on a text made of digits and dots: the longest prefix of the
   * form digits, optionally '.' and digits, with at least one digit; NaN
   * (here `None`) when there is none. Anything from a second '.' on is ignored.
   */
  function ParseDecimal(s: string): (r: Option<real>)
    ensures r.Some? ==> r.value >= 0.0
  {
    var n := LeadingDigits(s);
    var whole := DigitsValue(s[..n]) as real;
    if n < |s| && s[n] == '.' then
      var rest := s[n + 1..];
      var m := LeadingDigits(rest);
      FractionBounds(rest[..m]);
      if n == 0 && m == 0 then None else Some(whole + FractionValue(rest[..m]))
    else if n == 0 then None
    else Some(whole)
  }

  /** The unit price stored in a new cart line (App.tsx:61-70). */
  function ResolvePrice(p: Price): (r: real)
    ensures p.Amount? ==> r == p.value
    ensures p.Label? ==> r >= 0.0
    ensures p.Label? && (forall i :: 0 <= i < |p.text| ==> !IsDigit(p.text[i])) ==> r == 0.0
  {
    match p
    case Amount(v) => v
    case Label(text) =>
      var stripped := KeepNumeric(text);
      NoDigitsNoNumber(text);
      match ParseDecimal(stripped)
      case None => 0.0
      case Some(v) => v
  }

  /** A fraction written with digits lies in [0, 1). */
  lemma {:induction false} FractionBounds(ds: string)
    requires AllDigits(ds)
    ensures 0.0 <= FractionValue(ds) < 1.0
  {
    if ds != [] {
      FractionBounds(ds[1..]);
    }
  }

  /** A text with no digit leaves nothing `parseFloat` can read. */
  lemma NoDigitsNoNumber(text: string)
    ensures (forall i :: 0 <= i < |text| ==> !IsDigit(text[i])) ==> ParseDecimal(KeepNumeric(text)) == None
  {
    if forall i :: 0 <= i < |text| ==> !IsDigit(text[i]) {
      var s := KeepNumeric(text);
      NoDigitsKept(text);
      assert LeadingDigits(s) == 0;
      if 0 < |s| && s[0] == '.' {
        assert |s[1..]| == 0 || s[1..][0] == s[1];
      }
    }
  }

  lemma {:induction false} NoDigitsKept(text: string)
    requires forall i :: 0 <= i < |text| ==> !IsDigit(text[i])
    ensures forall i :: 0 <= i < |KeepNumeric(text)| ==> KeepNumeric(text)[i] == '.'
  {
    if text != [] {
      NoDigitsKept(text[1..]);
    }
  }

  /** Decimal notation of a whole number, as JavaScript prints one. */
  function DecimalText(n: nat): (s: string)
    ensures |s| > 0 && AllDigits(s)
  {
    var d := ['0' + (n % 10) as char];
    if n < 10 then d else DecimalText(n / 10) + d
  }

  /** Reading back the decimal notation of a whole number gives that number. */
  lemma {:induction false} DecimalTextValue(n: nat)
    ensures DigitsValue(DecimalText(n)) == n
  {
    var s := DecimalText(n);
    if n >= 10 {
      DecimalTextValue(n / 10);
      assert s[..|s| - 1] == DecimalText(n / 10);
    }
  }

  /** A price written as a whole number parses back to that number. */
  lemma ParseDecimalText(n: nat)
    ensures ParseDecimal(DecimalText(n)) == Some(n as real)
  {
    var s := DecimalText(n);
    AllDigitsLeading(s);
    assert s[..|s|] == s;
    DecimalTextValue(n);
  }

  lemma {:induction false} AllDigitsLeading(s: string)
    requires AllDigits(s)
    ensures LeadingDigits(s) == |s|
  {
    if s != [] {
      AllDigitsLeading(s[1..]);
    }
  }

  /** The run of digits `parseFloat` reads stops where the digits stop. */
  lemma {:induction false} LeadingDigitsStop(t: string, u: string)
    requires AllDigits(t) && (u == [] || !IsDigit(u[0]))
    ensures LeadingDigits(t + u) == |t|
  {
    if t == [] {
      assert t + u == u;
    } else {
      assert (t + u)[0] == t[0] && (t + u)[1..] == t[1..] + u;
      LeadingDigitsStop(t[1..], u);
    }
  }

  /**
   * A number with a fractional part, such as "12.5" or "5.", parses to its
   * whole part plus its fraction; whatever follows the fraction digits (a
   * second '.', say) is ignored.
   */
  lemma ParseDecimalPoint(n: nat, ds: string, u: string)
    requires AllDigits(ds) && (u == [] || !IsDigit(u[0]))
    ensures ParseDecimal(DecimalText(n) + "." + ds + u) == Some(n as real + FractionValue(ds))
  {
    ParseDigitsPoint(DecimalText(n), ds, u);
    DecimalTextValue(n);
  }

  /** The same for any run of digits before the point. */
  lemma ParseDigitsPoint(t: string, ds: string, u: string)
    requires AllDigits(t) && |t| > 0 && AllDigits(ds) && (u == [] || !IsDigit(u[0]))
    ensures ParseDecimal(t + "." + ds + u) == Some(DigitsValue(t) as real + FractionValue(ds))
  {
    var s := t + "." + ds + u;
    PointPieces(t, ds, u);
    LeadingDigitsStop(t, "." + ds + u);
    LeadingDigitsStop(ds, u);
    ParseWithPoint(s, |t|, t, ds);
  }

  lemma PointPieces(t: string, ds: string, u: string)
    ensures t + "." + ds + u == t + ("." + ds + u)
    ensures (t + "." + ds + u)[..|t|] == t && (t + "." + ds + u)[|t|] == '.'
    ensures (t + "." + ds + u)[|t| + 1..] == ds + u && (ds + u)[..|ds|] == ds
  {
  }

  /** How ParseDecimal reads digits, a point, then more digits. */
  lemma ParseWithPoint(s: string, k: nat, whole: string, frac: string)
    requires 0 < k < |s| && LeadingDigits(s) == k && s[k] == '.'
    requires whole == s[..k] && frac == s[k + 1..][..LeadingDigits(s[k + 1..])]
    ensures AllDigits(whole) && AllDigits(frac)
    ensures ParseDecimal(s) == Some(DigitsValue(whole) as real + FractionValue(frac))
  {
  }

  /** A number with no whole part, such as ".5", parses to its fraction. */
  lemma ParseLeadingPoint(ds: string, u: string)
    requires AllDigits(ds) && |ds| > 0 && (u == [] || !IsDigit(u[0]))
    ensures ParseDecimal("." + ds + u) == Some(FractionValue(ds))
  {
    var s := "." + ds + u;
    LeadingPointPieces(ds, u);
    LeadingDigitsStop(ds, u);
    ParseFromPoint(s, ds);
  }

  lemma LeadingPointPieces(ds: string, u: string)
    ensures ("." + ds + u)[0] == '.' && ("." + ds + u)[1..] == ds + u && (ds + u)[..|ds|] == ds
  {
  }

  /** How ParseDecimal reads a point followed by digits. */
  lemma ParseFromPoint(s: string, frac: string)
    requires 0 < |s| && s[0] == '.' && frac == s[1..][..LeadingDigits(s[1..])] && |frac| > 0
    ensures AllDigits(frac)
    ensures ParseDecimal(s) == Some(FractionValue(frac))
  {
    assert LeadingDigits(s) == 0 && s[..0] == [];
  }

  /** Words without digits or dots in front of a number are stripped away. */
  lemma StripWords(w: string, num: string)
    requires forall i :: 0 <= i < |w| ==> !IsNumericChar(w[i])
    requires forall i :: 0 <= i < |num| ==> IsNumericChar(num[i])
    ensures KeepNumeric(w + num) == num
  {
    NothingNumericKept(w);
    KeepNumericConcat(w, num);
  }

  /** Words followed by a whole number, such as "à partir de 18", resolve to that number. */
  lemma ResolveWordsThenNumber(w: string, n: nat)
    requires forall i :: 0 <= i < |w| ==> !IsNumericChar(w[i])
    ensures ResolvePrice(Label(w + DecimalText(n))) == n as real
  {
    StripWords(w, DecimalText(n));
    ParseDecimalText(n);
  }

  /** Words followed by a number with a fractional part resolve to that number. */
  lemma ResolveWordsThenDecimal(w: string, n: nat, ds: string)
    requires forall i :: 0 <= i < |w| ==> !IsNumericChar(w[i])
    requires AllDigits(ds)
    ensures ResolvePrice(Label(w + DecimalText(n) + "." + ds)) == n as real + FractionValue(ds)
  {
    var num := DecimalText(n) + "." + ds;
    assert w + DecimalText(n) + "." + ds == w + num;
    assert forall i :: 0 <= i < |num| ==> IsNumericChar(num[i]);
    StripWords(w, num);
    ParseDecimalPoint(n, ds, []);
    assert num + [] == num;
  }

  /** The catalog text "à partir de 18" resolves to 18. */
  lemma ResolveStartingAt18(words: string, digits: string)
    requires words == "à partir de " && digits == "18"
    ensures ResolvePrice(Label(words + digits)) == 18.0
  {
    assert forall i :: 0 <= i < |words| ==> !IsNumericChar(words[i]);
    assert DecimalText(18) == digits;
    ResolveWordsThenNumber(words, 18);
  }

  /** Stripping works character by character, so it distributes over concatenation. */
  lemma {:induction false} KeepNumericConcat(a: string, b: string)
    ensures KeepNumeric(a + b) == KeepNumeric(a) + KeepNumeric(b)
  {
    if a == [] {
      assert a + b == b;
    } else {
      assert (a + b)[0] == a[0] && (a + b)[1..] == a[1..] + b;
      KeepNumericConcat(a[1..], b);
    }
  }

  lemma {:induction false} NothingNumericKept(s: string)
    requires forall i :: 0 <= i < |s| ==> !IsNumericChar(s[i])
    ensures KeepNumeric(s) == []
  {
    if s != [] {
      NothingNumericKept(s[1..]);
    }
  }

  /** The not-orderable marker holds no digit, so it would resolve to 0. */
  lemma ComingSoonResolvesToZero()
    ensures ResolvePrice(Label(ComingSoon)) == 0.0
  {
    NothingNumericKept(ComingSoon);
  }
}
