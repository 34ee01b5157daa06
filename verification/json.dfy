/** JSON values as `JSON.parse` hands them to the program, plus the decimal
    property keys JavaScript gives to array and string indices. */
module Json {

  /** A parsed JSON value. Objects are maps: property order plays no part in
      validation, and `JSON.parse` has already kept only the last of any
      duplicated key. A number keeps only what the schemas look at: its integer
      part and whether it is integral (a non-integral number lies strictly
      between `whole` and `whole + 1`). */
  datatype Json =
    | JNull
    | JBool(b: bool)
    | JNumber(whole: int, integral: bool)
    | JString(str: string)
    | JArray(items: seq<Json>)
    | JObject(fields: map<string, Json>)

  predicate IsDigit(c: char) {
    '0' <= c <= '9'
  }

  function DigitChar(d: nat): (c: char)
    requires d < 10
    ensures IsDigit(c) && DigitValue(c) == d
  {
    "0123456789"[d]
  }

  function DigitValue(c: char): nat {
    if IsDigit(c) then (c as int) - ('0' as int) else 0
  }

  /** The canonical decimal spelling of `n`, which is the property key
      JavaScript uses for index `n` of an array or a string. */
  function DecimalString(n: nat): (s: string)
    ensures |s| >= 1
    ensures forall i :: 0 <= i < |s| ==> IsDigit(s[i])
    ensures |s| > 1 ==> s[0] != '0'
    decreases n
  {
    if n < 10 then [DigitChar(n)] else DecimalString(n / 10) + [DigitChar(n % 10)]
  }

  /** The number a string of decimal digits denotes: the reading that
      `DecimalString` must agree with. */
  function DecimalValue(s: string): nat
    decreases |s|
  {
    if |s| == 0 then 0 else DecimalValue(s[..|s| - 1]) * 10 + DigitValue(s[|s| - 1])
  }

  /** Reading back a rendered index yields the index. */
  lemma {:induction false} DecimalRoundTrip(n: nat)
    ensures DecimalValue(DecimalString(n)) == n
    decreases n
  {
    if n >= 10 {
      var s := DecimalString(n);
      var prefix := DecimalString(n / 10);
      assert s[..|s| - 1] == prefix;
      DecimalRoundTrip(n / 10);
    }
  }

  /** Distinct indices have distinct property keys. */
  lemma DecimalStringInjective()
    ensures forall m: nat, n: nat {:trigger DecimalString(m), DecimalString(n)} ::
      DecimalString(m) == DecimalString(n) ==> m == n
  {
    forall m: nat, n: nat | DecimalString(m) == DecimalString(n)
      ensures m == n
    {
      DecimalRoundTrip(m);
      DecimalRoundTrip(n);
    }
  }
}
