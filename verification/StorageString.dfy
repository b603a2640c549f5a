/** Encrypted payloads, the string they are stored as, and reading old ones after the key was rotated. */
module StorageString {
  import opened Common
  import opened Base64
  import Decimal

  datatype EncryptedPayload = EncryptedPayload(ciphertext: seq<byte>, nonce: seq<byte>, keyVersion: int)

  datatype Error =
    | NotThreeParts | BadCiphertext | BadNonce | BadVersion
    | NoKey(version: int) | KeyNotBase64(version: int) | KeyNot32Bytes(version: int)
    | NotEncodable | NotDecryptable | NotText

  // ---- Printing and reading ---------------------------------------------------------------------

  function ToStorageString(p: EncryptedPayload): string {
    Decimal.Print(p.keyVersion) + ":" + Encode(p.nonce) + ":" + Encode(p.ciphertext)
  }

  /** The position of the first colon, or the length. */
  function ColonAt(s: string): (i: nat)
    ensures i <= |s| && (i < |s| ==> s[i] == ':') && forall j :: 0 <= j < i ==> s[j] != ':'
  {
    if s == "" || s[0] == ':' then 0 else 1 + ColonAt(s[1..])
  }

  /** Cut at the first two colons. */
  function SplitTwice(s: string): Option<(string, string, string)> {
    var i := ColonAt(s);
    if i == |s| then None
    else
      var rest := s[i + 1..];
      var j := ColonAt(rest);
      if j == |rest| then None else Some((s[..i], rest[..j], rest[j + 1..]))
  }

  function FromStorageString(raw: string): Result<EncryptedPayload, Error> {
    match SplitTwice(raw)
    case None => Err(NotThreeParts)
    case Some((version, nonce, ciphertext)) => ReadParts(version, nonce, ciphertext)
  }

  function ReadParts(version: string, nonce: string, ciphertext: string): Result<EncryptedPayload, Error> {
    match Decode(ciphertext)
    case None => Err(BadCiphertext)
    case Some(c) =>
      match Decode(nonce)
      case None => Err(BadNonce)
      case Some(n) =>
        match Decimal.Parse(version)
        case None => Err(BadVersion)
        case Some(v) => Ok(EncryptedPayload(c, n, v))
  }

  lemma ColonAfter(a: string, b: string)
    requires ':' !in a
    ensures ColonAt(a + ":" + b) == |a|
  {
    var s := a + ":" + b;
    assert s[|a|] == ':';
    assert forall j :: 0 <= j < |a| ==> s[j] == a[j];
  }

  lemma SplitJoined(a: string, b: string, c: string)
    requires ':' !in a && ':' !in b
    ensures SplitTwice(a + ":" + b + ":" + c) == Some((a, b, c))
  {
    var rest := b + ":" + c;
    ColonAfter(a, rest);
    ColonAfter(b, c);
    assert a + ":" + b + ":" + c == a + ":" + rest;
    assert (a + ":" + rest)[..|a|] == a && (a + ":" + rest)[|a| + 1..] == rest;
    assert rest[..|b|] == b && rest[|b| + 1..] == c;
  }

  /** Every payload is read back as it was stored, whatever its key version, nonce and ciphertext. */
  lemma StoredIsReadBack(p: EncryptedPayload)
    ensures FromStorageString(ToStorageString(p)) == Ok(p)
  {
    Decimal.PrintIsInjective(p.keyVersion, p.keyVersion);
    Decimal.PrintedParses(p.keyVersion);
    RoundTrip(p.nonce);
    RoundTrip(p.ciphertext);
    SplitJoined(Decimal.Print(p.keyVersion), Encode(p.nonce), Encode(p.ciphertext));
  }

  /** Which part of the string is which: the version in decimal, then the nonce, then the ciphertext. */
  lemma PartsOfStored(p: EncryptedPayload)
    ensures
      exists version, nonce, ciphertext ::
        && ToStorageString(p) == version + ":" + nonce + ":" + ciphertext
        && ':' !in version && ':' !in nonce
        && Decimal.Parse(version) == Some(p.keyVersion)
        && Decode(nonce) == Some(p.nonce) && Decode(ciphertext) == Some(p.ciphertext)
  {
    var version, nonce, ciphertext := Decimal.Print(p.keyVersion), Encode(p.nonce), Encode(p.ciphertext);
    Decimal.PrintIsInjective(p.keyVersion, p.keyVersion);
    Decimal.PrintedParses(p.keyVersion);
    RoundTrip(p.nonce);
    RoundTrip(p.ciphertext);
    assert ToStorageString(p) == version + ":" + nonce + ":" + ciphertext;
  }

  /** Reading any string: the part before the first colon is the version, the one before the second the
      nonce, all the rest the ciphertext; it is refused exactly when there are fewer than two colons or one
      of the parts cannot be read. */
  lemma ReadsParts(version: string, nonce: string, ciphertext: string)
    requires ':' !in version && ':' !in nonce
    ensures
      var read := FromStorageString(version + ":" + nonce + ":" + ciphertext);
      && (read.Ok? <==> Decimal.Parse(version).Some? && Decode(nonce).Some? && Decode(ciphertext).Some?)
      && (read.Ok? ==>
            && Some(read.value.keyVersion) == Decimal.Parse(version)
            && Some(read.value.nonce) == Decode(nonce) && Some(read.value.ciphertext) == Decode(ciphertext))
  {
    SplitJoined(version, nonce, ciphertext);
  }

  lemma RefusesFewerParts(first: string, second: string)
    requires ':' !in first && ':' !in second
    ensures FromStorageString(first) == Err(NotThreeParts)
    ensures FromStorageString(first + ":" + second) == Err(NotThreeParts)
  {
    ColonAfter(first, second);
    assert (first + ":" + second)[|first| + 1..] == second;
  }

  /** Different payloads are stored as different strings. */
  lemma {:induction false} OneStringPerPayload(p: EncryptedPayload, q: EncryptedPayload)
    ensures ToStorageString(p) == ToStorageString(q) ==> p == q
  {
    StoredIsReadBack(p);
    StoredIsReadBack(q);
  }

  /** What is read from any string, however it is spelt, is stored in one way and read back from there. */
  lemma {:induction false} ReadIsStoredAgain(raw: string)
    ensures
      var read := FromStorageString(raw);
      read.Ok? ==> FromStorageString(ToStorageString(read.value)) == read
  {
    if FromStorageString(raw).Ok? {
      StoredIsReadBack(FromStorageString(raw).value);
    }
  }

  // ---- Keys -------------------------------------------------------------------------------------

  const KEY_SIZE_BYTES: nat := 32

  /** The configured keys by variable name, and the version that encrypts. */
  datatype Keys = Keys(environment: map<string, string>, current: int)

  function KeyName(version: int): string {
    "DEK_V" + Decimal.Print(version)
  }

  function GetKey(keys: Keys, version: int): Result<seq<byte>, Error> {
    var name := KeyName(version);
    if name !in keys.environment then Err(NoKey(version))
    else
      match Decode(keys.environment[name])
      case None => Err(KeyNotBase64(version))
      case Some(key) => if |key| == KEY_SIZE_BYTES then Ok(key) else Err(KeyNot32Bytes(version))
  }

  /** A key can be used exactly when the variable DEK_V with its version is set to the base64 of 32 bytes. */
  lemma KeyUsableExactlyWhen(keys: Keys, version: int, key: seq<byte>)
    ensures
      var name := "DEK_V" + Decimal.Print(version);
      GetKey(keys, version) == Ok(key) <==>
        name in keys.environment && Decode(keys.environment[name]) == Some(key) && |key| == 32
  {
  }

  lemma KeyNamesDiffer(v: int, w: int)
    ensures KeyName(v) == KeyName(w) ==> v == w
  {
    assert KeyName(v)[5..] == Decimal.Print(v) && KeyName(w)[5..] == Decimal.Print(w);
    Decimal.PrintIsInjective(v, w);
  }

  /** Configure a key and start to encrypt with it. */
  datatype Rotation = Rotation(version: int, raw: string)

  function Rotate(keys: Keys, rotations: seq<Rotation>): Keys {
    if rotations == [] then keys
    else
      var before, r := Rotate(keys, rotations[..|rotations| - 1]), rotations[|rotations| - 1];
      Keys(before.environment[KeyName(r.version) := r.raw], r.version)
  }

  /** Rotations that never configure `version` again leave its key as it was. */
  lemma {:induction false} OldKeysStay(keys: Keys, rotations: seq<Rotation>, version: int)
    requires forall i :: 0 <= i < |rotations| ==> rotations[i].version != version
    ensures GetKey(Rotate(keys, rotations), version) == GetKey(keys, version)
  {
    if rotations != [] {
      OldKeysStay(keys, rotations[..|rotations| - 1], version);
      KeyNamesDiffer(version, rotations[|rotations| - 1].version);
    }
  }

  // ---- Encryption -------------------------------------------------------------------------------

  /** AES-GCM and UTF-8, of which only these laws are used. */
  datatype Library = Library(
    seal: (seq<byte>, seq<byte>, seq<byte>, Option<seq<byte>>) -> seq<byte>,
    unseal: (seq<byte>, seq<byte>, seq<byte>, Option<seq<byte>>) -> Option<seq<byte>>,
    encode: string -> Option<seq<byte>>,
    decode: seq<byte> -> Option<string>)

  ghost predicate Lawful(lib: Library) {
    && (forall key, nonce, plain, data ::
          lib.unseal(key, nonce, lib.seal(key, nonce, plain, data), data) == Some(plain))
    && (forall s :: lib.encode(s).Some? ==> lib.decode(lib.encode(s).value) == Some(s))
  }

  function Encrypt(lib: Library, keys: Keys, nonce: seq<byte>, plain: seq<byte>, data: Option<seq<byte>>)
    : Result<EncryptedPayload, Error>
  {
    match GetKey(keys, keys.current)
    case Err(e) => Err(e)
    case Ok(key) => Ok(EncryptedPayload(lib.seal(key, nonce, plain, data), nonce, keys.current))
  }

  function Decrypt(lib: Library, keys: Keys, p: EncryptedPayload, data: Option<seq<byte>>): Result<seq<byte>, Error> {
    match GetKey(keys, p.keyVersion)
    case Err(e) => Err(e)
    case Ok(key) =>
      match lib.unseal(key, p.nonce, p.ciphertext, data)
      case None => Err(NotDecryptable)
      case Some(plain) => Ok(plain)
  }

  function EncryptString(lib: Library, keys: Keys, nonce: seq<byte>, text: string, data: Option<seq<byte>>)
    : Result<string, Error>
  {
    match lib.encode(text)
    case None => Err(NotEncodable)
    case Some(plain) =>
      match Encrypt(lib, keys, nonce, plain, data)
      case Err(e) => Err(e)
      case Ok(p) => Ok(ToStorageString(p))
  }

  function DecryptString(lib: Library, keys: Keys, stored: string, data: Option<seq<byte>>): Result<string, Error> {
    match FromStorageString(stored)
    case Err(e) => Err(e)
    case Ok(p) =>
      match Decrypt(lib, keys, p, data)
      case Err(e) => Err(e)
      case Ok(plain) =>
        match lib.decode(plain)
        case None => Err(NotText)
        case Some(text) => Ok(text)
  }

  /** An encrypted text carries the current version and the given nonce, and is sealed with the current key;
      without one, or for a text that cannot be encoded, there is none. */
  lemma EncryptsWithCurrentKey(lib: Library, keys: Keys, nonce: seq<byte>, text: string, data: Option<seq<byte>>)
    ensures
      var stored := EncryptString(lib, keys, nonce, text, data);
      && (stored.Ok? <==> lib.encode(text).Some? && GetKey(keys, keys.current).Ok?)
      && (stored.Ok? ==>
            var sealed := lib.seal(GetKey(keys, keys.current).value, nonce, lib.encode(text).value, data);
            FromStorageString(stored.value) == Ok(EncryptedPayload(sealed, nonce, keys.current)))
  {
    if lib.encode(text).Some? && GetKey(keys, keys.current).Ok? {
      StoredIsReadBack(Encrypt(lib, keys, nonce, lib.encode(text).value, data).value);
    }
  }

  /** A stored text is decrypted exactly when it can be read, the key of its version is usable, that key
      opens it with the same associated data, and what comes out is text. */
  lemma DecryptsExactlyWhen(lib: Library, keys: Keys, stored: string, data: Option<seq<byte>>, text: string)
    ensures DecryptString(lib, keys, stored, data) == Ok(text) <==>
            var read := FromStorageString(stored);
            && read.Ok? && GetKey(keys, read.value.keyVersion).Ok?
            && var key := GetKey(keys, read.value.keyVersion).value;
               var plain := lib.unseal(key, read.value.nonce, read.value.ciphertext, data);
               plain.Some? && lib.decode(plain.value) == Some(text)
  {
  }

  /** What comes back depends on the key now configured for the version that encrypted: the text if it is
      the same key, the key's own error if it is gone or broken. */
  lemma DecryptsWithTheKeyOfItsVersion(
    lib: Library, before: Keys, now: Keys, nonce: seq<byte>, text: string, data: Option<seq<byte>>)
    requires Lawful(lib) && EncryptString(lib, before, nonce, text, data).Ok?
    ensures
      var back := DecryptString(lib, now, EncryptString(lib, before, nonce, text, data).value, data);
      && (GetKey(now, before.current) == GetKey(before, before.current) ==> back == Ok(text))
      && (GetKey(now, before.current).Err? ==> back == Err(GetKey(now, before.current).error))
  {
    var plain := lib.encode(text).value;
    var p := Encrypt(lib, before, nonce, plain, data).value;
    StoredIsReadBack(p);
    if GetKey(now, before.current) == GetKey(before, before.current) {
      var key := GetKey(before, before.current).value;
      assert lib.unseal(key, nonce, lib.seal(key, nonce, plain, data), data) == Some(plain);
    }
  }

  /** Text encrypted before any number of rotations is still readable after them, as long as none of them
      configures the version it was encrypted with again. */
  lemma {:induction false} ReadableAfterRotations(
    lib: Library, keys: Keys, rotations: seq<Rotation>, nonce: seq<byte>, text: string, data: Option<seq<byte>>)
    requires Lawful(lib) && EncryptString(lib, keys, nonce, text, data).Ok?
    requires forall i :: 0 <= i < |rotations| ==> rotations[i].version != keys.current
    ensures
      var stored := EncryptString(lib, keys, nonce, text, data).value;
      DecryptString(lib, Rotate(keys, rotations), stored, data) == Ok(text)
  {
    OldKeysStay(keys, rotations, keys.current);
    DecryptsWithTheKeyOfItsVersion(lib, keys, Rotate(keys, rotations), nonce, text, data);
  }
}
