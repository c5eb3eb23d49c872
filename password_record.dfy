/** The stored password record of an account, `salt + "." + hex(key)`, where
    the salt is random bytes in hex and the key is derived from the salt and
    the password. The key derivation function itself is a parameter. */
module PasswordRecord {
  import opened Common

  type Byte = x: int | 0 <= x < 256

  /** The key derivation function, applied as the service applies it:
      first argument the hex salt, second the password. */
  type Kdf = (string, string) -> seq<Byte>

  /** Number of random bytes drawn for a salt. */
  const SaltBytes: nat := 8

  predicate IsLowerHex(c: char) {
    '0' <= c <= '9' || 'a' <= c <= 'f'
  }

  /** The lower-case hex digit of a value below 16. */
  function HexDigit(v: nat): (c: char)
    requires v < 16
    ensures IsLowerHex(c)
  {
    if v < 10 then '0' + v as char else 'a' + (v - 10) as char
  }

  /** The two hex digits of one byte, high half first. */
  function HexByte(b: Byte): (h: string)
    ensures |h| == 2 && IsLowerHex(h[0]) && IsLowerHex(h[1])
  {
    [HexDigit(b / 16), HexDigit(b % 16)]
  }

  lemma HexByteInjective(a: Byte, b: Byte)
    requires HexByte(a) == HexByte(b)
    ensures a == b
  {
    assert HexDigit(a / 16) == HexDigit(b / 16) && HexDigit(a % 16) == HexDigit(b % 16);
  }

  /** `Buffer.toString('hex')`: two lower-case hex digits per byte. */
  function Hex(bytes: seq<Byte>): (h: string)
    ensures |h| == 2 * |bytes|
    ensures forall i :: 0 <= i < |h| ==> IsLowerHex(h[i])
  {
    if bytes == [] then []
    else HexByte(bytes[0]) + Hex(bytes[1..])
  }

  /** Different bytes give different hex text. */
  lemma {:induction false} HexInjective(a: seq<Byte>, b: seq<Byte>)
    requires Hex(a) == Hex(b)
    ensures a == b
  {
    if a != [] {
      var ha, hb := Hex(a), Hex(b);
      assert ha[..2] == HexByte(a[0]) && hb[..2] == HexByte(b[0]);
      HexByteInjective(a[0], b[0]);
      assert ha[2..] == Hex(a[1..]) && hb[2..] == Hex(b[1..]);
      HexInjective(a[1..], b[1..]);
      assert a == [a[0]] + a[1..];
      assert b == [b[0]] + b[1..];
    }
  }

  /** The parts joined back with the separator between them. */
  function Join(parts: seq<string>, sep: char): string
    requires parts != []
  {
    if |parts| == 1 then parts[0] else parts[0] + [sep] + Join(parts[1..], sep)
  }

  /** `String.prototype.split` with a one-character separator: every part,
      empty ones included, in order. */
  function Split(s: string, sep: char): (parts: seq<string>)
    ensures parts != []
    ensures forall i :: 0 <= i < |parts| ==> sep !in parts[i]
    ensures Join(parts, sep) == s
  {
    if s == [] then [[]]
    else if s[0] == sep then
      var rest := Split(s[1..], sep);
      assert s == [sep] + s[1..];
      [[]] + rest
    else
      var rest := Split(s[1..], sep);
      assert s == [s[0]] + s[1..];
      [[s[0]] + rest[0]] + rest[1..]
  }

  lemma {:induction false} SplitWithoutSeparator(s: string, sep: char)
    requires sep !in s
    ensures Split(s, sep) == [s]
  {
    if s != [] {
      SplitWithoutSeparator(s[1..], sep);
      assert s == [s[0]] + s[1..];
    }
  }

  /** Splitting `a.b` on `.` gives back exactly `a` and `b` when neither holds a `.`. */
  lemma {:induction false} SplitPair(a: string, b: string, sep: char)
    requires sep !in a && sep !in b
    ensures Split(a + [sep] + b, sep) == [a, b]
  {
    var s := a + [sep] + b;
    if a == [] {
      assert s[1..] == b;
      SplitWithoutSeparator(b, sep);
    } else {
      assert s[1..] == a[1..] + [sep] + b;
      SplitPair(a[1..], b, sep);
      assert [a[0]] + a[1..] == a;
    }
  }

  /** The salt text drawn by `randomBytes(8).toString('hex')`. */
  function SaltText(salt: seq<Byte>): (t: string)
    requires |salt| == SaltBytes
    ensures |t| == 2 * SaltBytes
    ensures forall i :: 0 <= i < |t| ==> IsLowerHex(t[i])
  {
    Hex(salt)
  }

  /** The record written for a password under a salt. */
  function MakeRecord(kdf: Kdf, salt: string, password: string): string {
    salt + "." + Hex(kdf(salt, password))
  }

  /** The salt and the stored key of a record, as the destructuring of
      `record.split('.')` reads them; the key is missing when there is no `.`. */
  function ParseRecord(record: string): (r: (string, Option<string>))
  {
    var parts := Split(record, '.');
    (parts[0], if |parts| >= 2 then Some(parts[1]) else None)
  }

  /** Sign-in's check: the key re-derived from the stored salt and the
      supplied password equals the stored key. */
  predicate Verify(kdf: Kdf, record: string, password: string) {
    var (salt, stored) := ParseRecord(record);
    stored == Some(Hex(kdf(salt, password)))
  }

  /** Splitting a record written by `MakeRecord` recovers its salt and key. */
  lemma ParseMakeRecord(kdf: Kdf, salt: seq<Byte>, password: string)
    requires |salt| == SaltBytes
    ensures ParseRecord(MakeRecord(kdf, SaltText(salt), password))
            == (SaltText(salt), Some(Hex(kdf(SaltText(salt), password))))
  {
    var s, key := SaltText(salt), Hex(kdf(SaltText(salt), password));
    assert forall i :: 0 <= i < |s| ==> s[i] != '.';
    assert forall i :: 0 <= i < |key| ==> key[i] != '.';
    SplitPair(s, key, '.');
  }

  /** A password verifies against the record written for it. */
  lemma VerifyMakeRecord(kdf: Kdf, salt: seq<Byte>, password: string)
    requires |salt| == SaltBytes
    ensures Verify(kdf, MakeRecord(kdf, SaltText(salt), password), password)
  {
    ParseMakeRecord(kdf, salt, password);
  }

  /** A password verifies against a record exactly when the key function
      gives it the key the record was written with. */
  lemma VerifyIffSameKey(kdf: Kdf, salt: seq<Byte>, password: string, attempt: string)
    requires |salt| == SaltBytes
    ensures Verify(kdf, MakeRecord(kdf, SaltText(salt), password), attempt)
            <==> kdf(SaltText(salt), attempt) == kdf(SaltText(salt), password)
  {
    ParseMakeRecord(kdf, salt, password);
    var s := SaltText(salt);
    if Hex(kdf(s, attempt)) == Hex(kdf(s, password)) {
      HexInjective(kdf(s, attempt), kdf(s, password));
    }
  }

  /** A record without a `.` has no stored key, so no password verifies. */
  lemma VerifyNeedsSeparator(kdf: Kdf, record: string, password: string)
    requires '.' !in record
    ensures !Verify(kdf, record, password)
  {
    SplitWithoutSeparator(record, '.');
  }
}
