/** How an asset is resolved, stored and labelled. */
module Assets {
  import opened Wrappers

  /** The columns `asset` and `assetIssuer`. */
  datatype Asset = Asset(code: string, issuer: Option<string>)

  const NATIVE := "native"

  /** White space and line terminators, as `trim` strips them. */
  predicate IsSpace(c: char) {
    var u := c as int;
    || 9 <= u <= 13 || u == 32 || u == 0xA0 || u == 0x1680 || 0x2000 <= u <= 0x200A
    || u == 0x2028 || u == 0x2029 || u == 0x202F || u == 0x205F || u == 0x3000 || u == 0xFEFF
  }

  function TrimStart(s: string): string {
    if s != "" && IsSpace(s[0]) then TrimStart(s[1..]) else s
  }

  function TrimEnd(s: string): string {
    if s != "" && IsSpace(s[|s| - 1]) then TrimEnd(s[..|s| - 1]) else s
  }

  function Trim(s: string): string { TrimEnd(TrimStart(s)) }

  /** `toLowerCase` on the letters that can spell a name for lumens; no character outside A-Z lowers
      to one of them. */
  function LowerChar(c: char): char {
    if 'A' <= c <= 'Z' then 'a' + (c - 'A') else c
  }

  function Lower(s: string): string { seq(|s|, i requires 0 <= i < |s| => LowerChar(s[i])) }

  predicate NamesLumens(code: string) { code == "" || Lower(code) == "xlm" || Lower(code) == NATIVE }

  /** `resolveAsset`: None is the BadRequest for a missing issuer. */
  function ResolveAsset(assetCode: Option<string>, assetIssuer: Option<string>): Option<Asset> {
    var code := if assetCode.Some? then Trim(assetCode.value) else "";
    if NamesLumens(code) then Some(Asset(NATIVE, None))
    else if assetIssuer.None? || assetIssuer.value == "" then None
    else Some(Asset(code, assetIssuer))
  }

  /** What every stored row satisfies: lumens have no issuer and only one spelling. */
  predicate Stored(a: Asset) {
    && (a.code == NATIVE <==> a.issuer == None)
    && (a.code != NATIVE ==> !NamesLumens(a.code))
  }

  lemma ResolvedIsStored(assetCode: Option<string>, assetIssuer: Option<string>)
    ensures var r := ResolveAsset(assetCode, assetIssuer); r.Some? ==> Stored(r.value)
    ensures ResolveAsset(assetCode, assetIssuer) == None <==>
              assetCode.Some? && !NamesLumens(Trim(assetCode.value))
              && (assetIssuer == None || assetIssuer == Some(""))
  {
    assert Lower(NATIVE) == NATIVE;
  }

  /** A word in any mixture of cases. */
  predicate Spells(s: string, lower: string, upper: string)
    requires |lower| == |upper|
  {
    |s| == |lower| && forall i | 0 <= i < |s| :: s[i] == lower[i] || s[i] == upper[i]
  }

  lemma LowerSpells(s: string, lower: string, upper: string)
    requires |lower| == |upper|
    requires forall i | 0 <= i < |lower| ::
      'a' <= lower[i] <= 'z' && 'A' <= upper[i] <= 'Z' && lower[i] - 'a' == upper[i] - 'A'
    ensures Lower(s) == lower <==> Spells(s, lower, upper)
  {
    if Lower(s) == lower {
      forall i | 0 <= i < |s| ensures s[i] == lower[i] || s[i] == upper[i] {
        assert Lower(s)[i] == lower[i];
      }
    }
  }

  predicate AllSpace(s: string) { forall i | 0 <= i < |s| :: IsSpace(s[i]) }

  /** Neither end is a space. */
  predicate Trimmed(s: string) { s == "" || (!IsSpace(s[0]) && !IsSpace(s[|s| - 1])) }

  lemma {:induction false} TrimStartStrips(left: string, rest: string)
    requires AllSpace(left) && (rest == "" || !IsSpace(rest[0]))
    ensures TrimStart(left + rest) == rest
  {
    if left == "" {
      assert left + rest == rest;
    } else {
      TrimStartStrips(left[1..], rest);
      assert (left + rest)[1..] == left[1..] + rest;
    }
  }

  lemma {:induction false} TrimEndStrips(rest: string, right: string)
    requires AllSpace(right) && (rest == "" || !IsSpace(rest[|rest| - 1]))
    ensures TrimEnd(rest + right) == rest
  {
    if right == "" {
      assert rest + right == rest;
    } else {
      var s := rest + right;
      TrimEndStrips(rest, right[..|right| - 1]);
      assert s[..|s| - 1] == rest + right[..|right| - 1];
    }
  }

  lemma TrimStrips(left: string, core: string, right: string)
    requires AllSpace(left) && AllSpace(right) && Trimmed(core)
    ensures Trim(left + core + right) == core
  {
    assert left + core + right == left + (core + right);
    if core == "" {
      assert left + (core + right) == (left + right) + "";
      TrimStartStrips(left + right, "");
    } else {
      TrimStartStrips(left, core + right);
      TrimEndStrips(core, right);
    }
  }

  /** Every text is a trimmed one between spaces. */
  lemma {:induction false} Pads(s: string) returns (left: string, core: string, right: string)
    ensures s == left + core + right && AllSpace(left) && AllSpace(right) && Trimmed(core)
    decreases |s|
  {
    left, core, right := "", s, "";
    if s != "" && IsSpace(s[0]) {
      left, core, right := Pads(s[1..]);
      left := [s[0]] + left;
    } else if s != "" && IsSpace(s[|s| - 1]) {
      left, core, right := Pads(s[..|s| - 1]);
      right := right + [s[|s| - 1]];
    }
  }

  /** resolveAsset on a code between spaces: no code, or "xlm" or "native" in any casing, is the native asset
      whatever issuer is given; any other code is stored as it stands between the spaces, and needs an issuer. */
  lemma ResolveInFull(left: string, core: string, right: string, issuer: Option<string>)
    requires AllSpace(left) && AllSpace(right) && Trimmed(core)
    ensures ResolveAsset(Some(left + core + right), issuer) ==
              if core == "" || Spells(core, "xlm", "XLM") || Spells(core, "native", "NATIVE")
              then Some(Asset("native", None))
              else if issuer == None || issuer == Some("") then None else Some(Asset(core, issuer))
    ensures ResolveAsset(None, issuer) == Some(Asset("native", None))
  {
    TrimStrips(left, core, right);
    LowerSpells(core, "xlm", "XLM");
    LowerSpells(core, "native", "NATIVE");
  }

  /** The codes the request validation lets through hold no spaces. */
  lemma PlainCodesAreTrimmed(code: string)
    requires forall i | 0 <= i < |code| :: '0' <= code[i] <= '9' || 'A' <= code[i] <= 'Z' || 'a' <= code[i] <= 'z'
    ensures Trimmed(code) && Trim(code) == code
  {
    TrimStrips("", code, "");
    assert "" + code + "" == code;
  }

  /** `assetLabel` */
  function AssetLabel(code: string): string {
    if code == "" || code == NATIVE then "XLM" else code
  }

  /** Totals keyed by label never mix two stored codes, lumens and issued assets in particular. */
  lemma AssetLabelInjective(a: Asset, b: Asset)
    requires Stored(a) && Stored(b)
    ensures AssetLabel(a.code) == AssetLabel(b.code) <==> a.code == b.code
  {
    assert Lower("XLM") == "xlm";
  }

  /** They do mix issuers: the label keeps the code only. */
  lemma AssetLabelMergesIssuers(code: string, issuer: string, other: string)
    requires !NamesLumens(code) && issuer != other
    ensures var a, b := Asset(code, Some(issuer)), Asset(code, Some(other));
            Stored(a) && Stored(b) && a != b && AssetLabel(a.code) == AssetLabel(b.code)
  {
    assert Lower(NATIVE) == NATIVE;
  }
}
