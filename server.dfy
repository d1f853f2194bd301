/** The "host:port" descriptor that STUploader::start splits before it opens any socket. */
module Server {
  import opened QInt

  datatype Option<T> = None | Some(value: T)

  /** Where every socket of a run connects to. */
  datatype Target = Target(host: string, port: int32)

  /** QString::indexOf for one character: the first position of c in s, or -1. */
  function IndexOf(s: string, c: char): (r: int)
    ensures -1 <= r < |s|
    ensures r == -1 <==> c !in s
    ensures r >= 0 ==> s[r] == c && c !in s[..r]
  {
    if |s| == 0 then -1
    else if s[0] == c then 0
    else
      var k := IndexOf(s[1..], c);
      if k < 0 then -1 else k + 1
  }

  predicate IsDigit(ch: char) {
    '0' <= ch <= '9'
  }

  predicate AllDigits(s: string) {
    forall i :: 0 <= i < |s| ==> IsDigit(s[i])
  }

  /** The value of a string of decimal digits, most significant first. */
  function DigitsValue(s: string): nat
    requires AllDigits(s)
  {
    if s == [] then 0 else DigitsValue(s[..|s| - 1]) * 10 + (s[|s| - 1] as int - '0' as int)
  }

  function DigitChar(d: nat): (ch: char)
    requires d < 10
    ensures IsDigit(ch) && ch as int - '0' as int == d
  {
    ('0' as int + d) as char
  }

  /** The shortest decimal rendering of n. */
  function Decimal(n: nat): (s: string)
    ensures |s| >= 1 && AllDigits(s)
    ensures |s| > 1 ==> s[0] != '0'
  {
    if n < 10 then [DigitChar(n)] else Decimal(n / 10) + [DigitChar(n % 10)]
  }

  lemma {:induction false} DigitsValueOfDecimal(n: nat)
    ensures DigitsValue(Decimal(n)) == n
  {
    if n >= 10 {
      var d := Decimal(n);
      assert d[..|d| - 1] == Decimal(n / 10);
      DigitsValueOfDecimal(n / 10);
    }
  }

  /** The number that QString::toInt (base 10) reads: an optional sign followed by
      at least one digit; None for anything else. */
  function SignedValue(s: string): Option<int> {
    if |s| > 0 && (s[0] == '+' || s[0] == '-') then
      var body := s[1..];
      if |body| > 0 && AllDigits(body) then
        var v: int := DigitsValue(body);
        Some(if s[0] == '-' then -v else v)
      else None
    else if |s| > 0 && AllDigits(s) then Some(DigitsValue(s))
    else None
  }

  /** QString::toInt: the number written in s, or 0 when s is not a number or the
      number does not fit a qint32. */
  function ToInt(s: string): (r: int32)
    ensures r != 0 ==> SignedValue(s) == Some(r as int)
  {
    match SignedValue(s)
    case Some(v) => if Int32Min <= v <= Int32Max then v else 0
    case None => 0
  }

  lemma ToIntOfDecimal(n: nat)
    requires n <= Int32Max
    ensures ToInt(Decimal(n)) == n
  {
    var d := Decimal(n);
    assert d[0] != '+' && d[0] != '-' by { assert IsDigit(d[0]); }
    DigitsValueOfDecimal(n);
  }

  /** An explicit plus sign is accepted and changes nothing. */
  lemma ToIntOfPlus(n: nat)
    requires n <= Int32Max
    ensures ToInt("+" + Decimal(n)) == n
  {
    assert ("+" + Decimal(n))[1..] == Decimal(n);
    DigitsValueOfDecimal(n);
  }

  /** A leading zero does not change a digit string's value. */
  lemma {:induction false} DigitsValueLeadingZero(s: string)
    requires AllDigits(s)
    ensures AllDigits("0" + s) && DigitsValue("0" + s) == DigitsValue(s)
    decreases |s|
  {
    var z := "0" + s;
    assert forall i :: 0 <= i < |z| ==> IsDigit(z[i]) by {
      forall i | 0 <= i < |z| ensures IsDigit(z[i]) {
        if i > 0 { assert z[i] == s[i - 1]; }
      }
    }
    if s != [] {
      var init := s[..|s| - 1];
      assert z[..|z| - 1] == "0" + init;
      assert AllDigits(init) by {
        forall i | 0 <= i < |init| ensures IsDigit(init[i]) { assert init[i] == s[i]; }
      }
      DigitsValueLeadingZero(init);
    }
  }

  /** Leading zeros are accepted: "007" is read as 7. */
  lemma ToIntOfLeadingZero(n: nat)
    requires n <= Int32Max
    ensures ToInt("0" + Decimal(n)) == n
  {
    var d := Decimal(n);
    DigitsValueLeadingZero(d);
    DigitsValueOfDecimal(n);
  }

  lemma ToIntOfNegative(n: nat)
    requires 0 < n <= -Int32Min
    ensures ToInt("-" + Decimal(n)) == -(n as int)
  {
    assert ("-" + Decimal(n))[1..] == Decimal(n);
    DigitsValueOfDecimal(n);
  }

  /** A number past qint32 reads as 0. */
  lemma ToIntOverflow(n: nat)
    requires n > Int32Max
    ensures ToInt(Decimal(n)) == 0
  {
    var d := Decimal(n);
    assert d[0] != '+' && d[0] != '-' by { assert IsDigit(d[0]); }
    DigitsValueOfDecimal(n);
  }

  /** Text that is not a signed run of digits reads as 0. */
  lemma ToIntRejects(s: string, i: nat)
    requires 1 <= i < |s| && !IsDigit(s[i])
    ensures ToInt(s) == 0
  {
    assert !AllDigits(s);
    assert !AllDigits(s[1..]) by { assert s[1..][i - 1] == s[i]; }
  }

  /** The host is the text before the first ':' and the port the number after it;
      a descriptor without ':' is rejected. */
  function SplitServer(s: string): (r: Option<Target>)
    ensures r.None? <==> ':' !in s
    ensures r.Some? ==>
      var h := r.value.host;
      && |h| < |s| && s[..|h|] == h && s[|h|] == ':' && ':' !in h
      && r.value.port == ToInt(s[|h| + 1..])
  {
    var idx := IndexOf(s, ':');
    if idx < 0 then None else Some(Target(s[..idx], ToInt(s[idx + 1..])))
  }

  lemma SplitServerRoundTrip(host: string, port: nat)
    requires ':' !in host && port <= Int32Max
    ensures SplitServer(host + ":" + Decimal(port)) == Some(Target(host, port))
  {
    var s := host + ":" + Decimal(port);
    assert ':' in s by { assert s[|host|] == ':'; }
    var idx := IndexOf(s, ':');
    assert idx == |host|;
    assert s[..|host|] == host;
    assert s[|host| + 1..] == Decimal(port);
    ToIntOfDecimal(port);
  }
}
