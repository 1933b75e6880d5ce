/** The shared crypto helpers (packages/shared/src/crypto.ts): PEM armouring
    of DER bytes and the 16-character device serial number derived from a
    public key.  SHA-256 and base64 are not modelled; they are passed in as
    functions. */
module Crypto {
  import opened Common

  newtype byte = x: int | 0 <= x < 256

  /** A SHA-256 digest: 32 bytes. */
  type Digest = d: seq<byte> | |d| == 32 witness seq(32, _ => 0 as byte)

  datatype KeyType = Public | Private | Secret

  /** A WebCrypto key, reduced to its type and its SPKI export. */
  datatype CryptoKey = CryptoKey(keyType: KeyType, spki: seq<byte>)

  datatype CryptoError =
    | NotAPublicKey  // "The key provided is not a public key"
    | NoMatch        // `match(...)!` applied to a null match

  /** Crockford's base-32 alphabet (no I, L, O, U). */
  const SerialAlphabet: string := "0123456789ABCDEFGHJKMNPQRSTVWXYZ"
  const SerialBase: nat := 32

  const PayloadLength: nat := 15
  const SerialLength: nat := 16

  /** The characters of `SerialAlphabet`: digits and upper-case letters other than I, L, O and U. */
  predicate IsSerialChar(c: char) {
    IsDigit(c) || (IsUpper(c) && c != 'I' && c != 'L' && c != 'O' && c != 'U')
  }

  predicate InAlphabet(s: string) {
    forall i :: 0 <= i < |s| ==> IsSerialChar(s[i])
  }

  /** `SERIAL_NUMBER_ALPHABET[v % SERIAL_NUMBER_BASE]`. */
  function SerialChar(b: byte): (c: char)
    ensures c in SerialAlphabet && IsSerialChar(c)
  {
    AlphabetChars();
    SerialAlphabet[b as int % SerialBase]
  }

  /** The 15 payload characters taken from the first 15 digest bytes. */
  function Payload(hash: Digest): (p: string)
    ensures |p| == PayloadLength && InAlphabet(p)
    ensures forall i :: 0 <= i < PayloadLength ==> p[i] == SerialChar(hash[i])
  {
    seq(PayloadLength, i requires 0 <= i < PayloadLength => SerialChar(hash[i]))
  }

  /** The check character: the first byte of the SHA-256 of the payload text. */
  function Checksum(payload: string, shaText: string -> Digest): (c: char)
    ensures c in SerialAlphabet && IsSerialChar(c)
  {
    SerialChar(shaText(payload)[0])
  }

  /** `derToPem`: base64 body cut into 64-character lines between BEGIN and
      END lines; throws (null match) when the body is empty. */
  function DerToPem(der: seq<byte>, tag: string, toBase64: seq<byte> -> string): (r: Result<string, CryptoError>)
    ensures r.Err? <==> Chunks(toBase64(der), 64) == []
  {
    var lines := Chunks(toBase64(der), 64);
    if lines == [] then Err(NoMatch)
    else Ok("-----BEGIN " + tag + "-----\n" + Join(lines, "\n") + "\n-----END " + tag + "-----\n")
  }

  /** For a base64 body (no line terminators), the PEM text is the BEGIN line,
      the body cut into lines of 64 characters with a shorter last one, the
      END line, and a final newline; only an empty body fails. */
  lemma DerToPemLayout(der: seq<byte>, tag: string, toBase64: seq<byte> -> string)
    requires NoLineTerminator(toBase64(der))
    ensures var body, lines := toBase64(der), Chunks(toBase64(der), 64);
      && (DerToPem(der, tag, toBase64).Err? <==> body == [])
      && Concat(lines) == body
      && (forall i :: 0 <= i < |lines| ==> 0 < |lines[i]| <= 64)
      && (forall i :: 0 <= i < |lines| - 1 ==> |lines[i]| == 64)
      && (body != [] ==>
            DerToPem(der, tag, toBase64).value ==
            "-----BEGIN " + tag + "-----\n" + Join(lines, "\n") + "\n-----END " + tag + "-----\n")
  {
    ChunksCut(toBase64(der), 64);
  }

  /** `serialNumberFromPublicKey`: payload from the SHA-256 of the key's SPKI
      export, then the check character; non-public keys are rejected. */
  function SerialNumberFromPublicKey(key: CryptoKey, shaBytes: seq<byte> -> Digest, shaText: string -> Digest)
    : (r: Result<string, CryptoError>)
    ensures r.Err? <==> key.keyType != Public
    ensures r.Err? ==> r.error == NotAPublicKey
    ensures r.Ok? ==> |r.value| == SerialLength && InAlphabet(r.value)
    ensures r.Ok? ==> r.value[PayloadLength] == Checksum(r.value[..PayloadLength], shaText)
  {
    if key.keyType != Public then Err(NotAPublicKey)
    else
      var payload := Payload(shaBytes(key.spki));
      assert (payload + [Checksum(payload, shaText)])[..PayloadLength] == payload;
      Ok(payload + [Checksum(payload, shaText)])
  }

  /** `serialNumberReformat`: groups of up to four characters joined by "-". */
  function SerialNumberReformat(serial: string): (r: Result<string, CryptoError>)
    ensures r.Err? <==> Chunks(serial, 4) == []
  {
    var groups := Chunks(serial, 4);
    if groups == [] then Err(NoMatch) else Ok(Join(groups, "-"))
  }

  /** `serialNumberValidate`: dashes dropped, ASCII letters upper-cased,
      exactly 16 characters, and the last one the check character of the
      first 15. */
  function SerialNumberValidate(serial: string, shaText: string -> Digest): (ok: bool)
    ensures ok ==> |Without(serial, '-')| == SerialLength
  {
    var s := Upper(Without(serial, '-'));
    |s| == SerialLength && s[PayloadLength] == SerialChar(shaText(s[..PayloadLength])[0])
  }

  /** `SerialAlphabet` holds exactly the serial characters, 32 distinct ones. */
  lemma AlphabetChars()
    ensures |SerialAlphabet| == SerialBase
    ensures forall c :: c in SerialAlphabet <==> IsSerialChar(c)
  {
  }

  predicate UpperOrDigits(s: string) {
    forall i :: 0 <= i < |s| ==> IsDigit(s[i]) || IsUpper(s[i])
  }

  lemma InAlphabetIsUpperOrDigits(s: string)
    requires InAlphabet(s)
    ensures UpperOrDigits(s) && '-' !in s && NoLineTerminator(s)
  {
  }

  lemma {:induction false} UpperOfUpperOrDigits(s: string)
    requires UpperOrDigits(s)
    ensures Upper(s) == s
  {
    forall i | 0 <= i < |s| ensures Upper(s)[i] == s[i] {
      assert !IsLower(s[i]);
    }
  }

  /** One step of the `/.{1,4}/g` scan over text without line terminators. */
  lemma {:induction false} ChunksStep(s: string)
    requires |s| >= 4 && NoLineTerminator(s)
    ensures Chunks(s, 4) == [s[..4]] + Chunks(s[4..], 4)
  {
    assert !IsLineTerminator(s[0]);
    assert RunLength(s, 4) == 4;
  }

  lemma {:induction false} ChunksSixteen(s: string)
    requires |s| == SerialLength && NoLineTerminator(s)
    ensures Chunks(s, 4) == [s[0..4], s[4..8], s[8..12], s[12..16]]
  {
    ChunksStep(s);
    ChunksStep(s[4..]);
    ChunksStep(s[8..]);
    ChunksStep(s[12..]);
    assert s[4..][4..] == s[8..] && s[8..][4..] == s[12..] && s[12..][4..] == [];
    assert s[4..][..4] == s[4..8] && s[8..][..4] == s[8..12] && s[12..][..4] == s[12..16];
  }

  lemma JoinFour(a: string, b: string, c: string, d: string, sep: string)
    ensures Join([a, b, c, d], sep) == a + sep + b + sep + c + sep + d
  {
    assert [a, b, c, d][1..] == [b, c, d];
    assert [b, c, d][1..] == [c, d];
    assert [c, d][1..] == [d];
    assert Join([c, d], sep) == c + sep + d;
    assert Join([b, c, d], sep) == b + sep + (c + sep + d);
    assert Join([a, b, c, d], sep) == a + sep + (b + sep + (c + sep + d));
  }

  /** A 16-character serial in groups of four. */
  lemma {:induction false} ReformatSixteen(s: string)
    requires |s| == SerialLength && InAlphabet(s)
    ensures SerialNumberReformat(s) == Ok(s[0..4] + "-" + s[4..8] + "-" + s[8..12] + "-" + s[12..16])
  {
    InAlphabetIsUpperOrDigits(s);
    ChunksSixteen(s);
    JoinFour(s[0..4], s[4..8], s[8..12], s[12..16], "-");
  }

  /** Reformatting a serial only inserts dashes: deleting them again gives
      the serial back. */
  lemma {:induction false} ReformatOnlyInsertsDashes(s: string)
    requires |s| == SerialLength && InAlphabet(s)
    ensures SerialNumberReformat(s).Ok?
    ensures var r := SerialNumberReformat(s).value;
      |r| == 19 && r[4] == '-' && r[9] == '-' && r[14] == '-' && Without(r, '-') == s
  {
    ReformatSixteen(s);
    DashesRemoved(s);
  }

  lemma {:induction false} DashesRemoved(s: string)
    requires |s| == SerialLength && InAlphabet(s)
    ensures Without(s[0..4] + "-" + s[4..8] + "-" + s[8..12] + "-" + s[12..16], '-') == s
  {
    var g0, g1, g2, g3 := s[0..4], s[4..8], s[8..12], s[12..16];
    DashFreeGroups(s);
    JoinFour(g0, g1, g2, g3, "-");
    WithoutJoin([g0, g1, g2, g3], '-');
    ConcatFour(g0, g1, g2, g3);
    SplitSixteen(s);
  }

  lemma DashFreeGroups(s: string)
    requires |s| == SerialLength && InAlphabet(s)
    ensures '-' !in s[0..4] && '-' !in s[4..8] && '-' !in s[8..12] && '-' !in s[12..16]
  {
    assert InAlphabet(s[0..4]) && InAlphabet(s[4..8]) && InAlphabet(s[8..12]) && InAlphabet(s[12..16]);
  }

  lemma SplitSixteen(s: string)
    requires |s| == 16
    ensures s == s[0..4] + s[4..8] + s[8..12] + s[12..16]
  {
    assert s[0..8] == s[0..4] + s[4..8];
    assert s[0..12] == s[0..8] + s[8..12];
    assert s == s[0..12] + s[12..16];
  }

  lemma ConcatFour(a: string, b: string, c: string, d: string)
    ensures Concat([a, b, c, d]) == a + b + c + d
  {
    assert [a, b, c, d][1..] == [b, c, d];
    assert [b, c, d][1..] == [c, d];
    assert [c, d][1..] == [d];
    assert Concat([c, d]) == c + d;
    assert Concat([b, c, d]) == b + (c + d);
    assert Concat([a, b, c, d]) == a + (b + (c + d));
  }

  /** Exactly one alphabet character completes a 15-character payload into a
      serial the validator accepts. */
  lemma ChecksumUnique(payload: string, c: char, shaText: string -> Digest)
    requires |payload| == PayloadLength && InAlphabet(payload) && IsSerialChar(c)
    ensures SerialNumberValidate(payload + [c], shaText) <==> c == Checksum(payload, shaText)
  {
    assert InAlphabet(payload + [c]);
    InAlphabetIsUpperOrDigits(payload + [c]);
    UpperOfUpperOrDigits(payload + [c]);
    assert (payload + [c])[..PayloadLength] == payload;
  }

  /** Round trip: every generated serial validates, as generated and after
      reformatting into dash-separated groups. */
  lemma {:induction false} ValidateAcceptsGenerated(key: CryptoKey, shaBytes: seq<byte> -> Digest, shaText: string -> Digest)
    requires key.keyType == Public
    ensures var serial := SerialNumberFromPublicKey(key, shaBytes, shaText).value;
      && SerialNumberValidate(serial, shaText)
      && SerialNumberReformat(serial).Ok?
      && SerialNumberValidate(SerialNumberReformat(serial).value, shaText)
  {
    var serial := SerialNumberFromPublicKey(key, shaBytes, shaText).value;
    InAlphabetIsUpperOrDigits(serial);
    UpperOfUpperOrDigits(serial);
    ReformatOnlyInsertsDashes(serial);
  }

  /** The validator ignores dashes wherever they stand. */
  lemma {:induction false} ValidateIgnoresDash(a: string, b: string, shaText: string -> Digest)
    ensures SerialNumberValidate(a + "-" + b, shaText) == SerialNumberValidate(a + b, shaText)
  {
    WithoutAppend(a + "-", b, '-');
    WithoutAppend(a, "-", '-');
    WithoutAppend(a, b, '-');
    assert Without("-", '-') == [];
    assert Without(a + "-" + b, '-') == Without(a + b, '-');
  }

  lemma {:induction false} UpperIdempotent(s: string)
    ensures Upper(Upper(s)) == Upper(s)
  {
  }

  lemma {:induction false} WithoutUpper(s: string)
    ensures Without(Upper(s), '-') == Upper(Without(s, '-'))
  {
    if s != [] {
      WithoutUpper(s[1..]);
      assert Upper(s) == [UpperChar(s[0])] + Upper(s[1..]);
      assert UpperChar(s[0]) == '-' <==> s[0] == '-';
      if s[0] != '-' {
        UpperAppend([s[0]], Without(s[1..], '-'));
      }
    }
  }

  /** The validator ignores the letter case of its input. */
  lemma {:induction false} ValidateIgnoresCase(s: string, shaText: string -> Digest)
    ensures SerialNumberValidate(Upper(s), shaText) == SerialNumberValidate(s, shaText)
  {
    WithoutUpper(s);
    UpperIdempotent(Without(s, '-'));
  }
}

/** The backend's copy of the serial-number code
    (packages/backend/scripts/certUtils.ts), which reformats as it generates. */
module CertUtils {
  import opened Common
  import opened Crypto

  /** `generateSerialNumberFromPublicKey`: the 16 serial characters of a
      key's DER encoding, as four dash-separated groups of four. */
  function GenerateSerialNumberFromPublicKey(der: seq<byte>, shaBytes: seq<byte> -> Digest, shaText: string -> Digest)
    : (r: string)
    ensures |r| == 19 && r[4] == '-' && r[9] == '-' && r[14] == '-'
    ensures InAlphabet(Without(r, '-')) && |Without(r, '-')| == SerialLength
  {
    var payload := Payload(shaBytes(der));
    var serial := payload + [Checksum(payload, shaText)];
    ReformatOnlyInsertsDashes(serial);
    SerialNumberReformat(serial).value
  }

  /** `validateSerialNumber`: the same rule as the shared validator. */
  function ValidateSerialNumber(serial: string, shaText: string -> Digest): (ok: bool)
    ensures ok ==> |Without(serial, '-')| == SerialLength
  {
    SerialNumberValidate(serial, shaText)
  }

  /** Round trip: the validator accepts every generated serial. */
  lemma {:induction false} GeneratedValidates(der: seq<byte>, shaBytes: seq<byte> -> Digest, shaText: string -> Digest)
    ensures ValidateSerialNumber(GenerateSerialNumberFromPublicKey(der, shaBytes, shaText), shaText)
  {
    var key := CryptoKey(Public, der);
    ValidateAcceptsGenerated(key, shaBytes, shaText);
  }
}
