/** The webhook signature header, and the parser integrators are given for it. */
module Signature {
  import opened Wrappers
  import opened Decimals
  import opened Memos

  /** A keyed hash, hex-encoded. Nothing else about HMAC-SHA256 is used. */
  type Hmac = (string, string) -> string

  ghost predicate HexValued(hmac: Hmac) {
    forall secret, text :: AllHex(hmac(secret, text))
  }

  predicate AllHex(s: string) { forall i | 0 <= i < |s| :: IsHex(s[i]) }

  /** An integer as a template literal prints it. */
  function IntText(n: int): string {
    if n < 0 then "-" + ToDecimal(-n) else ToDecimal(n)
  }

  function SignedText(timestamp: int, body: string): string { IntText(timestamp) + "." + body }

  function SignPayload(hmac: Hmac, secret: string, body: string, timestamp: int): string {
    hmac(secret, SignedText(timestamp, body))
  }

  function BuildSignatureHeader(hmac: Hmac, secret: string, body: string, timestamp: int): string {
    "t=" + IntText(timestamp) + ",v1=" + SignPayload(hmac, secret, body, timestamp)
  }

  /** `s.split(separator)` */
  function Split(s: string, separator: char): (parts: seq<string>)
    ensures |parts| >= 1
    decreases |s|
  {
    var i := IndexOf(s, separator);
    if i == |s| then [s] else [s[..i]] + Split(s[i + 1..], separator)
  }

  /** The README's `header.split(',').map((p) => p.split('=')[1])`; None where a piece is missing. */
  function ParseHeader(header: string): Option<(string, string)> {
    var parts := Split(header, ',');
    if |parts| < 2 then None
    else
      var t, v1 := Split(parts[0], '='), Split(parts[1], '=');
      if |t| < 2 || |v1| < 2 then None else Some((t[1], v1[1]))
  }

  /** The README's `verify`. */
  predicate Verify(hmac: Hmac, rawBody: string, header: string, secret: string) {
    var parsed := ParseHeader(header);
    parsed.Some? && hmac(secret, parsed.value.0 + "." + rawBody) == parsed.value.1
  }

  lemma IndexOfAbsent(s: string, c: char)
    requires forall j | 0 <= j < |s| :: s[j] != c
    ensures IndexOf(s, c) == |s|
  {
  }

  lemma SplitOnce(left: string, right: string, c: char)
    requires forall j | 0 <= j < |left| :: left[j] != c
    requires forall j | 0 <= j < |right| :: right[j] != c
    ensures Split(left + [c] + right, c) == [left, right]
  {
    var s := left + [c] + right;
    IndexOfAt(s, c, |left|);
    IndexOfAbsent(right, c);
    assert s[..|left|] == left && s[|left| + 1..] == right;
  }

  /** Numerals hold neither separator nor point, and tell integers apart. */
  lemma IntTextPlain(n: int)
    ensures forall j | 0 <= j < |IntText(n)| :: IntText(n)[j] == '-' || IsDigit(IntText(n)[j])
  {
    ToDecimalRoundTrip(if n < 0 then -n else n);
  }

  lemma IntTextInjective(m: int, n: int)
    requires IntText(m) == IntText(n)
    ensures m == n
  {
    var a: nat, b: nat := if m < 0 then -m else m, if n < 0 then -n else n;
    ToDecimalRoundTrip(a);
    ToDecimalRoundTrip(b);
    assert IsDigit(ToDecimal(a)[0]) && IsDigit(ToDecimal(b)[0]);
    assert m < 0 ==> IntText(m)[1..] == ToDecimal(a);
    assert n < 0 ==> IntText(n)[1..] == ToDecimal(b);
  }

  /** The parser recovers both parts from every header the service builds. */
  lemma HeaderRoundTrip(hmac: Hmac, secret: string, body: string, timestamp: int)
    requires HexValued(hmac)
    ensures ParseHeader(BuildSignatureHeader(hmac, secret, body, timestamp))
         == Some((IntText(timestamp), SignPayload(hmac, secret, body, timestamp)))
  {
    var t, v1 := IntText(timestamp), SignPayload(hmac, secret, body, timestamp);
    IntTextPlain(timestamp);
    assert AllHex(v1);
    var header := BuildSignatureHeader(hmac, secret, body, timestamp);
    assert header == ("t=" + t) + [','] + ("v1=" + v1);
    SplitOnce("t=" + t, "v1=" + v1, ',');
    assert "t=" + t == "t" + ['='] + t && "v1=" + v1 == "v1" + ['='] + v1;
    SplitOnce("t", t, '=');
    SplitOnce("v1", v1, '=');
  }

  /** Every signed POST verifies. */
  lemma EveryPostVerifies(hmac: Hmac, secret: string, body: string, timestamp: int)
    requires HexValued(hmac)
    ensures Verify(hmac, body, BuildSignatureHeader(hmac, secret, body, timestamp), secret)
  {
    HeaderRoundTrip(hmac, secret, body, timestamp);
  }

  /** A header built for one body and secret is accepted for another body or secret iff the two signatures are the
      same: nothing but a collision of the keyed hash on two different texts, or under two secrets, gets through. */
  lemma VerifiesIff(hmac: Hmac, secret: string, body: string, timestamp: int, secret': string, body': string)
    requires HexValued(hmac)
    ensures Verify(hmac, body', BuildSignatureHeader(hmac, secret, body, timestamp), secret') <==>
              hmac(secret', IntText(timestamp) + "." + body') == hmac(secret, IntText(timestamp) + "." + body)
    ensures IntText(timestamp) + "." + body' == IntText(timestamp) + "." + body <==> body' == body
  {
    HeaderRoundTrip(hmac, secret, body, timestamp);
    SignedTextInjective(timestamp, body', timestamp, body);
  }

  /** A timestamp is printed as the numeral of its value, with a sign if it is negative. */
  lemma IntTextIs(n: int)
    ensures n >= 0 ==>
      var s := IntText(n); AllDigits(s) && (|s| == 1 || (|s| > 1 && s[0] != '0')) && ParseNat(s) == n
    ensures n < 0 ==> IntText(n) == "-" + IntText(-n)
  {
    if n >= 0 {
      ToDecimalRoundTrip(n);
    }
  }

  /** The signed text determines timestamp and body: no other pair is covered by the same signature. */
  lemma SignedTextInjective(t: int, body: string, t': int, body': string)
    ensures SignedText(t, body) == SignedText(t', body') <==> t == t' && body == body'
  {
    if SignedText(t, body) == SignedText(t', body') {
      IntTextPlain(t);
      IntTextPlain(t');
      var s := SignedText(t, body);
      IndexOfAt(s, '.', |IntText(t)|);
      IndexOfAt(SignedText(t', body'), '.', |IntText(t')|);
      assert s[..|IntText(t)|] == IntText(t) && SignedText(t', body')[..|IntText(t')|] == IntText(t');
      IntTextInjective(t, t');
      assert s[|IntText(t)| + 1..] == body && SignedText(t', body')[|IntText(t')| + 1..] == body';
    }
  }
}
