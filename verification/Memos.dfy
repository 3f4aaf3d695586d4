/** The MEMO_ID that ties a payment to its intent. */
module Memos {
  import opened Wrappers
  import opened Decimals

  const MAX_UINT64: nat := 18446744073709551615

  type Byte = n: nat | n < 256

  function HexChar(d: nat): char
    requires d < 16
  {
    if d < 10 then '0' + d as char else 'a' + (d - 10) as char
  }

  predicate IsHex(c: char) { '0' <= c <= '9' || 'a' <= c <= 'f' }

  function HexDigitValue(c: char): (d: nat)
    requires IsHex(c)
    ensures d < 16
  {
    if c <= '9' then c as int - '0' as int else c as int - 'a' as int + 10
  }

  /** `bytes.toString('hex')` */
  function ToHex(bytes: seq<Byte>): (s: string)
    ensures |s| == 2 * |bytes|
    ensures forall i | 0 <= i < |s| :: IsHex(s[i])
  {
    if bytes == [] then ""
    else ToHex(bytes[..|bytes| - 1]) + [HexChar(bytes[|bytes| - 1] / 16), HexChar(bytes[|bytes| - 1] % 16)]
  }

  /** `BigInt('0x' + s)` */
  function HexValue(s: string): nat
    requires forall i | 0 <= i < |s| :: IsHex(s[i])
  {
    if s == "" then 0 else 16 * HexValue(s[..|s| - 1]) + HexDigitValue(s[|s| - 1])
  }

  /** The big-endian integer the bytes spell. */
  function BigEndian(bytes: seq<Byte>): nat {
    if bytes == [] then 0 else 256 * BigEndian(bytes[..|bytes| - 1]) + bytes[|bytes| - 1]
  }

  lemma {:induction false} HexRoundTrip(bytes: seq<Byte>)
    ensures HexValue(ToHex(bytes)) == BigEndian(bytes)
  {
    if bytes != [] {
      var front := bytes[..|bytes| - 1];
      HexRoundTrip(front);
      var s := ToHex(bytes);
      assert s[..|s| - 1][..|s| - 2] == ToHex(front);
    }
  }

  lemma {:induction false} BigEndianInjective(a: seq<Byte>, b: seq<Byte>)
    requires |a| == |b| && BigEndian(a) == BigEndian(b)
    ensures a == b
  {
    if a != [] {
      BigEndianInjective(a[..|a| - 1], b[..|b| - 1]);
      assert a == a[..|a| - 1] + [a[|a| - 1]] && b == b[..|b| - 1] + [b[|b| - 1]];
    }
  }

  function Pow256(k: nat): nat { if k == 0 then 1 else 256 * Pow256(k - 1) }

  lemma {:induction false} BigEndianBound(bytes: seq<Byte>)
    ensures BigEndian(bytes) < Pow256(|bytes|)
  {
    if bytes != [] {
      BigEndianBound(bytes[..|bytes| - 1]);
    }
  }

  /** The generated memo. */
  function RandomMemo(random: seq<Byte>): string { ToDecimal(HexValue(ToHex(random))) }

  /** The check on a supplied memo: digits only, at most 64 bits. */
  predicate MemoAccepted(memo: string) {
    memo != "" && AllDigits(memo) && ParseNat(memo) <= MAX_UINT64
  }

  /** `resolveMemo`: None is the BadRequest. */
  function ResolveMemo(provided: Option<string>, random: seq<Byte>): Option<string> {
    if provided.None? then Some(RandomMemo(random))
    else if MemoAccepted(provided.value) then provided else None
  }

  /** The memo a ledger reports for a transaction built with `Memo.id(memo)`: the transaction holds
      the number, so the text comes back canonical. */
  function OnChain(memo: string): string
    requires MemoAccepted(memo)
  {
    ToDecimal(ParseNat(memo))
  }

  /** Generated memos pass the service's own check, are already canonical, and tell the random bytes
      apart. */
  lemma RandomMemoRoundTrip(random: seq<Byte>, other: seq<Byte>)
    requires |random| == 8 && |other| == 8
    ensures MemoAccepted(RandomMemo(random))
    ensures OnChain(RandomMemo(random)) == RandomMemo(random)
    ensures ParseNat(RandomMemo(random)) == BigEndian(random)
    ensures RandomMemo(random) == RandomMemo(other) <==> random == other
  {
    HexRoundTrip(random);
    HexRoundTrip(other);
    BigEndianBound(random);
    assert Pow256(2) == 65536;
    assert Pow256(5) == 256 * 256 * 256 * 65536;
    ToDecimalRoundTrip(BigEndian(random));
    ToDecimalRoundTrip(BigEndian(other));
    if RandomMemo(random) == RandomMemo(other) {
      BigEndianInjective(random, other);
    }
  }

  /** A supplied memo can be matched by the transaction built from it iff it has no superfluous
      leading zero. */
  lemma SuppliedMemoMatchesIff(memo: string)
    requires MemoAccepted(memo)
    ensures OnChain(memo) == memo <==> NoLeadingZero(memo)
  {
    CanonicalIff(memo);
  }
}
