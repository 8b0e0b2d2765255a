/** The price rendering `preco.toFixed(2).replace('.', ',')` of a product
    line. A price is modelled by its amount in hundredths (centavos), that is,
    by the number after `toFixed` has rounded it to two decimals. */
module Price {
  import opened JsText

  predicate IsDigit(ch: char) {
    '0' <= ch <= '9'
  }

  predicate AllDigits(s: string) {
    forall k :: 0 <= k < |s| ==> IsDigit(s[k])
  }

  function Digit(d: nat): (ch: char)
    requires d < 10
    ensures IsDigit(ch) && ch as int - '0' as int == d
  {
    ('0' as int + d) as char
  }

  /** The number a string of decimal digits denotes, most significant first. */
  function DecimalValue(s: string): nat
    requires AllDigits(s)
  {
    if s == [] then 0
    else DecimalValue(s[..|s| - 1]) * 10 + (s[|s| - 1] as int - '0' as int)
  }

  /** The decimal numeral of `n`: digits only, no leading zero, and it
      denotes `n`. */
  function Numeral(n: nat): (r: string)
    ensures r != [] && AllDigits(r)
    ensures r[0] == '0' ==> r == "0"
    ensures DecimalValue(r) == n
  {
    if n < 10 then [Digit(n)]
    else
      var r := Numeral(n / 10) + [Digit(n % 10)];
      assert r[..|r| - 1] == Numeral(n / 10);
      r
  }

  /** The two fractional digits of a hundredths count below 100, with the
      leading zero kept. */
  function TwoDigits(n: nat): (r: string)
    requires n < 100
    ensures |r| == 2 && AllDigits(r) && DecimalValue(r) == n
  {
    var r := [Digit(n / 10), Digit(n % 10)];
    assert r[..1] == [Digit(n / 10)] && r[..1][..0] == [];
    assert DecimalValue(r[..1]) == n / 10;
    assert DecimalValue(r) == DecimalValue(r[..1]) * 10 + n % 10;
    r
  }

  function Abs(x: int): nat {
    if x < 0 then -x else x
  }

  /** `(cents / 100).toFixed(2)`: an optional minus sign, the integer part,
      a point and exactly two fractional digits. */
  function ToFixed2(cents: int): string {
    (if cents < 0 then "-" else "") + Numeral(Abs(cents) / 100) + "." + TwoDigits(Abs(cents) % 100)
  }

  /** `preco.toFixed(2).replace('.', ',')`. */
  function FormatPrice(cents: int): string {
    ReplaceFirst(ToFixed2(cents), '.', ',')
  }

  /** The decimal point of the rendering is its only one, so the replacement
      turns it into the comma separator: the rendering is the sign, the
      integer numeral, a comma and two digits, which together denote the
      amount, and it holds neither a point nor a line break. */
  lemma FormatPriceShape(cents: int)
    ensures var ip := Numeral(Abs(cents) / 100);
      var fp := TwoDigits(Abs(cents) % 100);
      && FormatPrice(cents) == (if cents < 0 then "-" else "") + ip + "," + fp
      && DecimalValue(ip) * 100 + DecimalValue(fp) == Abs(cents)
    ensures '.' !in FormatPrice(cents) && '\n' !in FormatPrice(cents)
  {
    var sign := if cents < 0 then "-" else "";
    var ip := Numeral(Abs(cents) / 100);
    var fp := TwoDigits(Abs(cents) % 100);
    assert ToFixed2(cents) == (sign + ip) + ['.'] + fp;
    ReplaceFirstAt(sign + ip, fp, '.', ',');
    var r := FormatPrice(cents);
    assert r == sign + ip + "," + fp;
    forall k | 0 <= k < |r| ensures r[k] != '.' && r[k] != '\n' {
      if k >= |sign| && k < |sign| + |ip| {
        assert r[k] == ip[k - |sign|];
        assert IsDigit(ip[k - |sign|]);
      } else if k > |sign| + |ip| {
        assert r[k] == fp[k - |sign| - |ip| - 1];
        assert IsDigit(fp[k - |sign| - |ip| - 1]);
      }
    }
  }
}
