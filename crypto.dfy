/** Stand-ins for bcrypt and jsonwebtoken. Neither the cryptography nor the
    token expiry is modelled: a digest is a value that only `Compare` looks
    into, and a token is a value that carries its payload. What bcrypt does
    read of a password is modelled: the `$2b$` key schedule takes the UTF-8
    encoding capped at 72 bytes, appends a NUL byte, and reads that key over
    and over until it has 72 bytes. */
module Crypto {

  /** The cost factor passed to `bcrypt.hash`. */
  const SaltRounds: nat := 10

  /** How many bytes of the password the Blowfish key schedule reads. */
  const KeyBytes: nat := 72

  type Byte = b: int | 0 <= b < 0x100

  /** The UTF-8 encoding of one Unicode scalar value: one to four bytes. */
  function Utf8Char(c: char): (b: seq<Byte>)
    ensures 1 <= |b| <= 4
    ensures |b| == (if c as int < 0x80 then 1 else if c as int < 0x800 then 2
                    else if c as int < 0x1_0000 then 3 else 4)
  {
    var n := c as int;
    if n < 0x80 then [n]
    else if n < 0x800 then [0xC0 + n / 0x40, 0x80 + n % 0x40]
    else if n < 0x1_0000 then [0xE0 + n / 0x1000, 0x80 + n / 0x40 % 0x40, 0x80 + n % 0x40]
    else [0xF0 + n / 0x4_0000, 0x80 + n / 0x1000 % 0x40, 0x80 + n / 0x40 % 0x40, 0x80 + n % 0x40]
  }

  /** The bytes node hands to bcrypt: the UTF-8 encoding of the string. */
  function Utf8(s: string): (b: seq<Byte>)
    ensures |s| <= |b| <= 4 * |s|
  {
    if s == [] then [] else Utf8Char(s[0]) + Utf8(s[1..])
  }

  /** Encoding distributes over concatenation. */
  lemma {:induction false} Utf8Append(s: string, t: string)
    ensures Utf8(s + t) == Utf8(s) + Utf8(t)
  {
    if s == [] {
      assert s + t == t;
    } else {
      assert (s + t)[1..] == s[1..] + t;
      Utf8Append(s[1..], t);
    }
  }

  /** The scalar value the bytes of one encoded character stand for. */
  function DecodeChar(b: seq<Byte>): int
    requires 1 <= |b| <= 4
  {
    if |b| == 1 then b[0]
    else if |b| == 2 then (b[0] as int - 0xC0) * 0x40 + (b[1] as int - 0x80)
    else if |b| == 3 then (b[0] as int - 0xE0) * 0x1000 + (b[1] as int - 0x80) * 0x40 + (b[2] as int - 0x80)
    else (b[0] as int - 0xF0) * 0x4_0000 + (b[1] as int - 0x80) * 0x1000 + (b[2] as int - 0x80) * 0x40 + (b[3] as int - 0x80)
  }

  /** The first byte tells how long the encoding is, and the bytes give the character back. */
  lemma Utf8CharDecodes(c: char)
    ensures var b := Utf8Char(c);
            && (b[0] < 0x80 <==> |b| == 1)
            && (0xC0 <= b[0] < 0xE0 <==> |b| == 2)
            && (0xE0 <= b[0] < 0xF0 <==> |b| == 3)
            && (0xF0 <= b[0] <==> |b| == 4)
            && DecodeChar(b) == c as int
  {
    var n := c as int;
    assert n / 0x40 / 0x40 == n / 0x1000;
    assert n / 0x1000 / 0x40 == n / 0x4_0000;
  }

  /** Distinct strings have distinct encodings. */
  lemma {:induction false} Utf8Injective(s: string, t: string)
    requires Utf8(s) == Utf8(t)
    ensures s == t
  {
    if s != [] && t != [] {
      var bs, bt := Utf8Char(s[0]), Utf8Char(t[0]);
      Utf8CharDecodes(s[0]);
      Utf8CharDecodes(t[0]);
      assert bs[0] == Utf8(s)[0] == Utf8(t)[0] == bt[0];
      assert |bs| == |bt|;
      assert bs == Utf8(s)[..|bs|] == Utf8(t)[..|bt|] == bt;
      assert s[0] as int == DecodeChar(bs) == DecodeChar(bt) == t[0] as int;
      assert Utf8(s[1..]) == Utf8(s)[|bs|..] == Utf8(t)[|bt|..] == Utf8(t[1..]);
      Utf8Injective(s[1..], t[1..]);
      assert s == [s[0]] + s[1..] && t == [t[0]] + t[1..];
    }
  }

  /** A string of characters from U+0800 to U+FFFF, such as CJK text, takes three bytes per character. */
  lemma {:induction false} Utf8ThreeByte(s: string)
    requires forall i :: 0 <= i < |s| ==> 0x800 <= s[i] as int < 0x1_0000
    ensures |Utf8(s)| == 3 * |s|
  {
    if s != [] {
      Utf8ThreeByte(s[1..]);
    }
  }

  /** The key `$2b$` builds: the encoding capped at 72 bytes, then a NUL byte. */
  function KeyMaterial(password: string): (k: seq<Byte>)
    ensures |k| == (if |Utf8(password)| < KeyBytes then |Utf8(password)| else KeyBytes) + 1
    ensures k[|k| - 1] == 0
    ensures forall i :: 0 <= i < |k| - 1 ==> k[i] == Utf8(password)[i]
  {
    var b := Utf8(password);
    (if |b| < KeyBytes then b else b[..KeyBytes]) + [0]
  }

  /** The first `n` bytes of `k` written out over and over. */
  function Repeat(k: seq<Byte>, n: nat): (r: seq<Byte>)
    requires k != []
    ensures |r| == n
    ensures n <= |k| ==> r == k[..n]
    ensures n > |k| ==> r[..|k|] == k
  {
    if n <= |k| then k[..n] else k + Repeat(k, n - |k|)
  }

  /** A key written twice in a row repeats to the same stream as the key itself. */
  lemma {:induction false} RepeatDoubled(k: seq<Byte>, n: nat)
    requires k != []
    ensures Repeat(k + k, n) == Repeat(k, n)
  {
    if n <= |k| {
      assert (k + k)[..n] == k[..n];
    } else if n <= 2 * |k| {
      assert Repeat(k, n - |k|) == k[..n - |k|];
      assert (k + k)[..n] == k + k[..n - |k|];
    } else {
      RepeatDoubled(k, n - 2 * |k|);
      assert Repeat(k, n) == k + Repeat(k, n - |k|);
      assert Repeat(k, n - |k|) == k + Repeat(k, n - 2 * |k|);
    }
  }

  /** The 72 bytes the Blowfish key schedule reads: the key material, repeated. */
  function BcryptKey(password: string): (stream: seq<Byte>)
    ensures |stream| == KeyBytes
    ensures |Utf8(password)| >= KeyBytes ==> stream == Utf8(password)[..KeyBytes]
    ensures |Utf8(password)| < KeyBytes ==>
              && stream[..|Utf8(password)|] == Utf8(password)
              && stream[|Utf8(password)|] == 0
  {
    Repeat(KeyMaterial(password), KeyBytes)
  }

  /** A bcrypt hash string. The model treats the cipher as collision-free on
      the 72 bytes it reads, so a digest records cost, salt and those bytes. */
  datatype Digest = Digest(cost: nat, salt: nat, key: seq<Byte>)

  /** `bcrypt.hash(password, cost)` with the random salt made a parameter. */
  function Hash(password: string, cost: nat, salt: nat): (d: Digest)
    ensures d.cost == cost && d.salt == salt
  {
    Digest(cost, salt, BcryptKey(password))
  }

  /** `bcrypt.compare(password, digest)`: re-hash with the digest's own cost and salt. */
  predicate Compare(password: string, d: Digest)
  {
    Hash(password, d.cost, d.salt) == d
  }

  /** Comparing against a hash succeeds exactly when the two passwords agree
      on the bytes bcrypt reads. */
  lemma CompareHash(password: string, hashed: string, cost: nat, salt: nat)
    ensures Compare(password, Hash(hashed, cost, salt)) <==> BcryptKey(password) == BcryptKey(hashed)
  {
  }

  /** A string without U+0000 encodes to bytes none of which is zero. */
  lemma {:induction false} Utf8NoZero(s: string)
    requires forall i :: 0 <= i < |s| ==> s[i] != '\0'
    ensures forall i :: 0 <= i < |Utf8(s)| ==> Utf8(s)[i] != 0
  {
    if s != [] {
      Utf8NoZero(s[1..]);
      var b := Utf8Char(s[0]);
      assert s[0] as int != 0;
      assert forall i :: 0 <= i < |b| ==> b[i] != 0;
      forall i | 0 <= i < |Utf8(s)| ensures Utf8(s)[i] != 0 {
        if i >= |b| {
          assert Utf8(s)[i] == Utf8(s[1..])[i - |b|];
        }
      }
    }
  }

  /** A password whose encoding is shorter than another's, where that other
      has no zero byte within the 72, gets a different key: its stream has a
      NUL where the other has a byte of the password. */
  lemma ShorterKeyDiffers(shorter: string, longer: string)
    requires |Utf8(shorter)| < |Utf8(longer)| <= KeyBytes
    requires forall i :: 0 <= i < |longer| ==> longer[i] != '\0'
    ensures BcryptKey(shorter) != BcryptKey(longer)
  {
    var n := |Utf8(shorter)|;
    Utf8NoZero(longer);
    if |Utf8(longer)| < KeyBytes {
      assert BcryptKey(longer)[..|Utf8(longer)|] == Utf8(longer);
      assert BcryptKey(longer)[n] == Utf8(longer)[n];
    }
    assert BcryptKey(shorter)[n] == 0;
  }

  /** Two passwords without U+0000 whose encodings fit in the 72 bytes compare
      equal only when they are equal: the first NUL of the stream marks where
      the password ends. */
  lemma ShortPasswordsCompareExactly(password: string, hashed: string, cost: nat, salt: nat)
    requires |Utf8(password)| <= KeyBytes && |Utf8(hashed)| <= KeyBytes
    requires forall i :: 0 <= i < |password| ==> password[i] != '\0'
    requires forall i :: 0 <= i < |hashed| ==> hashed[i] != '\0'
    ensures Compare(password, Hash(hashed, cost, salt)) <==> password == hashed
  {
    if Compare(password, Hash(hashed, cost, salt)) {
      var a, b := Utf8(password), Utf8(hashed);
      var stream := BcryptKey(password);
      assert stream == BcryptKey(hashed);
      if |a| < |b| {
        ShorterKeyDiffers(password, hashed);
      } else if |b| < |a| {
        ShorterKeyDiffers(hashed, password);
      } else if |a| == KeyBytes {
        assert a == a[..KeyBytes] == b[..KeyBytes] == b;
      } else {
        assert a == stream[..|a|] == b;
      }
      Utf8Injective(password, hashed);
    }
  }

  /** The encoding of a password, U+0000 and the password again. */
  lemma Utf8NulRepeat(password: string)
    ensures Utf8(password + "\0" + password) == Utf8(password) + [0] + Utf8(password)
  {
    Utf8Append(password + "\0", password);
    Utf8Append(password, "\0");
    assert Utf8("\0") == Utf8Char('\0') + Utf8([]);
  }

  /** A password followed by U+0000 and itself again gives the same key as the
      password alone, so bcrypt matches the two: "abcdef" and "abcdef\0abcdef". */
  lemma NulRepeatCompares(password: string, cost: nat, salt: nat)
    requires 2 * |Utf8(password)| + 1 < KeyBytes
    ensures Compare(password + "\0" + password, Hash(password, cost, salt))
  {
    var b := Utf8(password);
    var k := KeyMaterial(password);
    Utf8NulRepeat(password);
    assert k == b + [0];
    assert KeyMaterial(password + "\0" + password) == k + k;
    RepeatDoubled(k, KeyBytes);
  }

  /** Passwords that share their first 72 UTF-8 bytes compare equal, however
      they differ after: 24 characters of three bytes each fill the key. */
  lemma {:induction false} SharedPrefixCompares(prefix: string, rest: string, other: string, cost: nat, salt: nat)
    requires |prefix| == 24
    requires forall i :: 0 <= i < |prefix| ==> 0x800 <= prefix[i] as int < 0x1_0000
    ensures Compare(prefix + rest, Hash(prefix + other, cost, salt))
  {
    Utf8ThreeByte(prefix);
    Utf8Append(prefix, rest);
    Utf8Append(prefix, other);
    assert (Utf8(prefix) + Utf8(rest))[..KeyBytes] == Utf8(prefix);
    assert (Utf8(prefix) + Utf8(other))[..KeyBytes] == Utf8(prefix);
  }

  /** The payload of the login token: `{ id, email, username }`. */
  datatype Claims = Claims(id: int, email: string, username: string)

  datatype Token = Jwt(payload: Claims, secret: string, expiresIn: string)

  /** `jwt.sign(payload, secret, { expiresIn })`. */
  function Sign(payload: Claims, secret: string, expiresIn: string): (t: Token)
    ensures t.payload == payload
  {
    Jwt(payload, secret, expiresIn)
  }
}
