/**
 * `getUploadURL` (src/AViShaOTA.cpp:483-485): "http://", the station's IP
 * address, ":", the port in decimal as Arduino's `String(int)` prints it,
 * and "/". The address string comes from the network stack and is a
 * parameter here. `ParseUploadUrl` reads such a URL back, which shows that
 * the URL determines the address and the port.
 */
module UploadUrl {
  import opened Optional

  const SCHEME: string := "http://"

  predicate IsDigit(c: char) {
    '0' <= c <= '9'
  }

  function DigitChar(d: nat): (c: char)
    requires d < 10
    ensures IsDigit(c) && (c as int) - ('0' as int) == d
  {
    (('0' as int) + d) as char
  }

  /** Decimal digits of `n`, most significant first, without leading zeros. */
  function NatToDecimal(n: nat): (s: string)
    ensures |s| >= 1
    ensures forall i :: 0 <= i < |s| ==> IsDigit(s[i])
    ensures s[0] == '0' ==> n == 0
    decreases n
  {
    if n < 10 then [DigitChar(n)] else NatToDecimal(n / 10) + [DigitChar(n % 10)]
  }

  /** `String(int)`: a minus sign before the digits of a negative number. */
  function IntToDecimal(n: int): string {
    if n < 0 then "-" + NatToDecimal(-n) else NatToDecimal(n)
  }

  function DecimalValue(s: string): nat
    requires forall i :: 0 <= i < |s| ==> IsDigit(s[i])
  {
    if s == [] then 0
    else 10 * DecimalValue(s[..|s| - 1]) + DigitValue(s[|s| - 1])
  }

  function DigitValue(c: char): nat
    requires IsDigit(c)
  {
    (c as int) - ('0' as int)
  }

  predicate AllDigits(s: string) {
    forall i :: 0 <= i < |s| ==> IsDigit(s[i])
  }

  function ParseInt(s: string): Option<int> {
    if |s| > 1 && s[0] == '-' && AllDigits(s[1..]) then Some(-(DecimalValue(s[1..]) as int))
    else if |s| > 0 && AllDigits(s) then Some(DecimalValue(s))
    else None
  }

  lemma {:induction false} DecimalRoundTrip(n: nat)
    ensures DecimalValue(NatToDecimal(n)) == n
    decreases n
  {
    if n >= 10 {
      var s := NatToDecimal(n);
      assert s[..|s| - 1] == NatToDecimal(n / 10);
      DecimalRoundTrip(n / 10);
    }
  }

  lemma IntRoundTrip(n: int)
    ensures ParseInt(IntToDecimal(n)) == Some(n)
  {
    var s := IntToDecimal(n);
    if n < 0 {
      assert s[1..] == NatToDecimal(-n);
      assert AllDigits(s[1..]);
      DecimalRoundTrip(-n);
    } else {
      assert IsDigit(s[0]) && AllDigits(s);
      DecimalRoundTrip(n);
    }
  }

  /** The URL `getUploadURL` builds from the local address and the server port. */
  function UploadUrl(localIp: string, port: int): (url: string)
    ensures |url| >= |SCHEME| + |localIp| + 3
    ensures url[..|SCHEME|] == SCHEME
    ensures url[|SCHEME|..|SCHEME| + |localIp|] == localIp
    ensures url[|SCHEME| + |localIp|] == ':'
    ensures url[|url| - 1] == '/'
    ensures url[|SCHEME| + |localIp| + 1..|url| - 1] == IntToDecimal(port)
  {
    SCHEME + localIp + ":" + IntToDecimal(port) + "/"
  }

  /** Position of the first ':' in `s`, or `|s|`. */
  function ColonIndex(s: string): (k: nat)
    ensures k <= |s|
    ensures forall j :: 0 <= j < k ==> s[j] != ':'
    ensures k < |s| ==> s[k] == ':'
  {
    if s == [] then 0 else if s[0] == ':' then 0 else 1 + ColonIndex(s[1..])
  }

  datatype Endpoint = Endpoint(host: string, port: int)

  /** Reads an upload URL back into the address and the port. */
  function ParseUploadUrl(url: string): Option<Endpoint> {
    if |url| < |SCHEME| + 1 || url[..|SCHEME|] != SCHEME || url[|url| - 1] != '/' then None
    else
      var rest := url[|SCHEME|..|url| - 1];
      var k := ColonIndex(rest);
      if k == |rest| then None
      else
        match ParseInt(rest[k + 1..])
        case Some(port) => Some(Endpoint(rest[..k], port))
        case None => None
  }

  /**
   * For an address without a ':' (a dotted IPv4 address, as the station
   * reports it), the URL gives back exactly the address and the port.
   */
  lemma UploadUrlRoundTrip(localIp: string, port: int)
    requires forall i :: 0 <= i < |localIp| ==> localIp[i] != ':'
    ensures ParseUploadUrl(UploadUrl(localIp, port)) == Some(Endpoint(localIp, port))
  {
    var url := UploadUrl(localIp, port);
    var rest := url[|SCHEME|..|url| - 1];
    assert rest == localIp + ":" + IntToDecimal(port);
    assert rest[..|localIp|] == localIp;
    assert ColonIndex(rest) == |localIp|;
    assert rest[|localIp| + 1..] == IntToDecimal(port);
    IntRoundTrip(port);
  }
}
