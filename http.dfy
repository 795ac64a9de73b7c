/** The HTTP vocabulary of the downloader: byte bodies, GET requests with an optional
    byte range, and the text of the Range header of section 14.1.2 of RFC 9110. */
module Http {
  import opened Wrappers
  import opened Strings

  type Byte = bv8

  /** A non-success status or a transport failure; the model keeps only a description. */
  datatype HttpError = HttpError(reason: string)

  /** The body of a successful GET, or the error that `raise_for_status` or the transport raised. */
  type Response = Result<seq<Byte>, HttpError>

  /** A GET of a file's download URL: the whole resource, or the inclusive byte range
      [first, last] of it. */
  datatype Request = Whole(url: string) | Ranged(url: string, first: nat, last: nat)

  predicate IsDigit(c: char) { '0' <= c <= '9' }

  /** The decimal numeral of `n`, as Python's f-string formatting writes it. */
  function Decimal(n: nat): (s: string)
    ensures |s| > 0
    ensures forall i :: 0 <= i < |s| ==> IsDigit(s[i])
    ensures s[0] == '0' ==> n == 0
    decreases n
  {
    if n < 10 then [DigitChar(n)] else Decimal(n / 10) + [DigitChar(n % 10)]
  }

  function DigitChar(d: nat): (c: char)
    requires d < 10
    ensures IsDigit(c) && c as int - '0' as int == d
  {
    ('0' as int + d) as char
  }

  /** The value of a non-empty string of decimal digits. */
  function ParseNat(s: string): (r: Option<nat>)
    ensures r.Some? <==> |s| > 0 && forall i :: 0 <= i < |s| ==> IsDigit(s[i])
    decreases |s|
  {
    if |s| == 0 || !IsDigit(s[|s| - 1]) then None
    else if |s| == 1 then Some(s[0] as int - '0' as int)
    else match ParseNat(s[..|s| - 1])
      case None => None
      case Some(m) => Some(10 * m + (s[|s| - 1] as int - '0' as int))
  }

  lemma {:induction false} ParseDecimal(n: nat)
    ensures ParseNat(Decimal(n)) == Some(n)
    decreases n
  {
    if n >= 10 {
      var s := Decimal(n);
      assert s[..|s| - 1] == Decimal(n / 10);
      ParseDecimal(n / 10);
    }
  }

  /** The Range header value sent for the inclusive byte range [first, last]. */
  function RangeHeader(first: nat, last: nat): string
  {
    "bytes=" + Decimal(first) + "-" + Decimal(last)
  }

  /** Reads a header value of the form bytes=<first>-<last>. */
  function ParseRangeHeader(h: string): (r: Option<(nat, nat)>)
  {
    if |h| < 6 || h[..6] != "bytes=" then None
    else
      var spec := h[6..];
      match IndexOf(spec, '-')
      case None => None
      case Some(k) =>
        match (ParseNat(spec[..k]), ParseNat(spec[k + 1..]))
        case (Some(first), Some(last)) => Some((first, last))
        case _ => None
  }

  /** The header names the range it was made from, and nothing else. This is why a ranged
      request is modelled as `Ranged(url, first, last)` rather than by its header text:
      the header sent for a chunk determines the pair, and the pair the header. */
  lemma RangeHeaderRoundTrip(first: nat, last: nat)
    ensures ParseRangeHeader(RangeHeader(first, last)) == Some((first, last))
  {
    var a, b := Decimal(first), Decimal(last);
    var h := RangeHeader(first, last);
    var spec := a + "-" + b;
    assert h[..6] == "bytes=" && h[6..] == spec;
    assert '-' !in a by {
      forall i | 0 <= i < |a| ensures a[i] != '-' { assert IsDigit(a[i]); }
    }
    IndexOfAfter(a, '-', b);
    assert spec[..|a|] == a && spec[|a| + 1..] == b;
    ParseDecimal(first);
    ParseDecimal(last);
  }
}
