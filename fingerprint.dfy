/** The anonymous client identity of `src/lib/fingerprint.ts`: four request
    attributes, each defaulted to "unknown", joined by '-' and hashed. */
module Fingerprint {
  import opened Common
  import opened Text

  /** Request headers by lower-case name, as `Headers.get` sees them; a header
      that is absent has no entry, one sent empty maps to "". */
  type Headers = map<string, string>

  predicate IsHexDigit(c: char)
  {
    '0' <= c <= '9' || 'a' <= c <= 'f'
  }

  /** What `digest('hex')` of a SHA-256 hash (FIPS 180-4) yields: 64 lower-case hex digits. */
  predicate IsHexDigest(s: string)
  {
    |s| == 64 && forall i :: 0 <= i < |s| ==> IsHexDigit(s[i])
  }

  type HexDigest = s: string | IsHexDigest(s)
    witness seq(64, _ => '0')

  const Unknown := "unknown"

  /** `headers.get(name) || 'unknown'`: an absent or empty header reads as "unknown". */
  function HeaderOrUnknown(h: Headers, name: string): (r: string)
    ensures r != ""
    ensures name in h && h[name] != "" ==> r == h[name]
    ensures !(name in h && h[name] != "") ==> r == Unknown
  {
    if name in h && h[name] != "" then h[name] else Unknown
  }

  /** The client address: the first entry of a non-empty `x-forwarded-for`
      (the text before its first ',', not trimmed), else `x-real-ip`, else "unknown". */
  function ClientIp(h: Headers): (ip: string)
    ensures "x-forwarded-for" in h && h["x-forwarded-for"] != "" ==>
      var fwd := h["x-forwarded-for"];
      ip <= fwd && ',' !in ip && (|ip| < |fwd| ==> fwd[|ip|] == ',')
    ensures !("x-forwarded-for" in h && h["x-forwarded-for"] != "") ==>
      ip == HeaderOrUnknown(h, "x-real-ip")
  {
    if "x-forwarded-for" in h && h["x-forwarded-for"] != "" then
      BeforeFirst(h["x-forwarded-for"], ',')
    else
      HeaderOrUnknown(h, "x-real-ip")
  }

  /** The text that is hashed: address, user agent, language and encoding, in
      that order, separated by '-'. */
  function FingerprintData(h: Headers): (data: string)
    ensures ClientIp(h) + "-" <= data
    ensures |data| == |ClientIp(h)| + |HeaderOrUnknown(h, "user-agent")|
                      + |HeaderOrUnknown(h, "accept-language")|
                      + |HeaderOrUnknown(h, "accept-encoding")| + 3
    ensures data[|data| - |HeaderOrUnknown(h, "accept-encoding")| - 1..]
            == "-" + HeaderOrUnknown(h, "accept-encoding")
    ensures data[|ClientIp(h)| + 1..|data| - |HeaderOrUnknown(h, "accept-encoding")| - 1]
            == HeaderOrUnknown(h, "user-agent") + "-" + HeaderOrUnknown(h, "accept-language")
  {
    var ip, ua, lang, enc := ClientIp(h), HeaderOrUnknown(h, "user-agent"),
      HeaderOrUnknown(h, "accept-language"), HeaderOrUnknown(h, "accept-encoding");
    DashedParts(ip, ua, lang, enc);
    ip + "-" + ua + "-" + lang + "-" + enc
  }

  /** Where each part sits in four texts joined by '-'. */
  lemma DashedParts(a: string, b: string, c: string, d: string)
    ensures var x := a + "-" + b + "-" + c + "-" + d;
      && a + "-" <= x
      && |x| == |a| + |b| + |c| + |d| + 3
      && x[|a| + 1..|x| - |d| - 1] == b + "-" + c
      && x[|x| - |d| - 1..] == "-" + d
  {
    var x := a + "-" + b + "-" + c + "-" + d;
    assert x == (a + "-") + (b + "-" + c) + ("-" + d);
  }

  /** `generateFingerprint`: the hex SHA-256 digest of `FingerprintData`. The
      hash itself is not modelled; `sha256` stands for it. */
  function GenerateFingerprint(h: Headers, sha256: string -> HexDigest): (fp: HexDigest)
    ensures |fp| == 64
  {
    sha256(FingerprintData(h))
  }

  /** The headers the fingerprint reads. */
  const FingerprintHeaders: set<string> :=
    {"x-forwarded-for", "x-real-ip", "user-agent", "accept-language", "accept-encoding"}

  /** Two requests agree on a header when it reads the same after the `||` default. */
  predicate SameHeader(h1: Headers, h2: Headers, name: string)
  {
    (name in h1 && h1[name] != "") == (name in h2 && h2[name] != "")
    && (name in h1 && h1[name] != "" ==> h1[name] == h2[name])
  }

  /** Determinism: requests that agree on the five headers read get the same
      fingerprint, whatever else differs. */
  lemma SameHeadersSameFingerprint(h1: Headers, h2: Headers, sha256: string -> HexDigest)
    requires forall name :: name in FingerprintHeaders ==> SameHeader(h1, h2, name)
    ensures GenerateFingerprint(h1, sha256) == GenerateFingerprint(h2, sha256)
  {
    assert SameHeader(h1, h2, "x-forwarded-for");
    assert SameHeader(h1, h2, "x-real-ip");
    assert SameHeader(h1, h2, "user-agent");
    assert SameHeader(h1, h2, "accept-language");
    assert SameHeader(h1, h2, "accept-encoding");
  }

  /** A request with none of the headers is still fingerprinted. */
  lemma NoHeadersFingerprint(h: Headers)
    requires forall name :: name in FingerprintHeaders ==> name !in h
    ensures FingerprintData(h) == "unknown-unknown-unknown-unknown"
  {
    assert "x-forwarded-for" !in h;
    assert "x-real-ip" !in h;
    assert "user-agent" !in h && "accept-language" !in h && "accept-encoding" !in h;
  }

  /** Only the first `x-forwarded-for` entry counts, and `x-real-ip` is then ignored. */
  lemma ForwardedFirstEntry(h: Headers, first: string, rest: string)
    requires ',' !in first && first != ""
    requires "x-forwarded-for" in h && h["x-forwarded-for"] == first + "," + rest
    ensures ClientIp(h) == first
  {
    SplitAtFirst(first, ',', rest);
  }
}
