/** The token-signing seed from the environment (server/internal/token/token.go:31-52). */
module Seed {
  import opened Bytes
  import opened Outcomes
  import opened Text
  import opened Encodings

  const SEED_SIZE: nat := 32

  datatype SigningSeed = Generated | FromEnv(seed: bytes) | Refused

  function DecodeSeed(s: string): Option<bytes> {
    match DecodeHex(s)
    case Some(b) => Some(b)
    case None => DecodeBase64(s)
  }

  function SigningSeedFromEnv(env: string): SigningSeed {
    var raw := Trim(env);
    if raw == "" then Generated
    else
      match DecodeSeed(raw)
      case Some(seed) => if |seed| == SEED_SIZE then FromEnv(seed) else Refused
      case None => Refused
  }

  /** Any text that base64-decodes to 32 bytes, canonical or not, contains '=' and so is not hex. */
  lemma Base64SeedIsNotHex(s: string)
    requires DecodeBase64(s).Some? && |DecodeBase64(s).value| == SEED_SIZE
    ensures DecodeHex(s).None?
  {
    var t := WithoutBreaks(s);
    UnevenEndsInPadding(s);
    BreaksHideNothing(s, |t| - 1);
    var i :| 0 <= i < |s| && s[i] == '=';
    if DecodeHex(s).Some? {
      HexHasOnlyDigits(s, i);
    }
  }

  /**
   No text has two readings: it yields `seed` exactly when it is `seed` in hex digits of either case, or
   base64-decodes to it; the hex-first order never hides a base64 seed.
   */
  lemma SeedReadings(env: string, seed: bytes)
    requires Trim(env) != ""
    ensures SigningSeedFromEnv(env) == FromEnv(seed) <==>
      |seed| == SEED_SIZE && (Lower(Trim(env)) == EncodeHex(seed) || DecodeBase64(Trim(env)) == Some(seed))
  {
    var raw := Trim(env);
    HexSpellings(raw, seed);
    if |seed| == SEED_SIZE && DecodeBase64(raw) == Some(seed) {
      Base64SeedIsNotHex(raw);
    }
  }

  lemma DigitsAreNotSpace(c: char)
    requires HexValue(c).Some? || Base64Value(c).Some? || c == '='
    ensures !IsSpace(c)
  {
  }

  lemma SpellingsAreTight(b: bytes)
    requires b != []
    ensures Tight(EncodeHex(b)) && Tight(EncodeBase64(b))
  {
    HexDigitsOnly(b);
    var h := EncodeHex(b);
    DigitsAreNotSpace(h[0]);
    DigitsAreNotSpace(h[|h| - 1]);
    Base64Alphabet(b);
    var t := EncodeBase64(b);
    DigitsAreNotSpace(t[0]);
    DigitsAreNotSpace(t[|t| - 1]);
  }

  /** Both standard spellings of a 32-byte seed, inside any whitespace, are read as that seed. */
  lemma BothSpellingsAreRead(seed: bytes, left: string, right: string)
    requires |seed| == SEED_SIZE && AllSpace(left) && AllSpace(right)
    ensures SigningSeedFromEnv(left + EncodeHex(seed) + right) == FromEnv(seed)
    ensures SigningSeedFromEnv(left + EncodeBase64(seed) + right) == FromEnv(seed)
  {
    SpellingsAreTight(seed);
    TrimPadding(left, EncodeHex(seed), right);
    TrimPadding(left, EncodeBase64(seed), right);
    HexDigitsOnly(seed);
    SeedReadings(left + EncodeHex(seed) + right, seed);
    Base64RoundTrip(seed);
    SeedReadings(left + EncodeBase64(seed) + right, seed);
  }

  /** A fresh key is generated exactly when the environment text is blank; any other text must be a seed. */
  lemma BlankIsGenerated(env: string)
    ensures SigningSeedFromEnv(env).Generated? <==> AllSpace(env)
  {
    TrimmedAwayIff(env);
  }
}
