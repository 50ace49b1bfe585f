/** The text form of what is encrypted: three hexadecimal fields with colons between them. */
module Envelope {
  import opened Text

  const IV_LENGTH := 16

  const AUTH_TAG_LENGTH := 16

  /** Sealing and opening under a key and an initialisation vector; a sealed text ends with its tag. */
  datatype Aead = Aead(seal: (Bytes, Bytes, Bytes) -> Bytes, open: (Bytes, Bytes, Bytes) -> Option<Bytes>)

  /** The tag is appended, opening undoes sealing, and nothing opens but what was sealed so. */
  ghost predicate Lawful(a: Aead) {
    && (forall key, iv, text :: |a.seal(key, iv, text)| == |text| + AUTH_TAG_LENGTH)
    && (forall key, iv, text :: a.open(key, iv, a.seal(key, iv, text)) == Some(text))
    && (forall key, iv, sealed :: a.open(key, iv, sealed).Some? ==>
          a.seal(key, iv, a.open(key, iv, sealed).value) == sealed)
  }

  // ---------------------------------------------------------------- hexadecimal

  function HexDigit(n: int): (c: char)
    requires 0 <= n < 16
    ensures c != ':'
  {
    if n < 10 then ('0' as int + n) as char else ('a' as int + n - 10) as char
  }

  function Encode(b: Bytes): (s: string)
    ensures |s| == 2 * |b| && ':' !in s
  {
    if b == [] then "" else [HexDigit(b[0] / 16), HexDigit(b[0] % 16)] + Encode(b[1..])
  }

  function Nibble(c: char): Option<int> {
    if '0' <= c <= '9' then Some(c as int - '0' as int)
    else if 'a' <= c <= 'f' then Some(c as int - 'a' as int + 10)
    else if 'A' <= c <= 'F' then Some(c as int - 'A' as int + 10)
    else None
  }

  function Decode(s: string): Option<Bytes> {
    if s == "" then Some([])
    else if |s| == 1 || Nibble(s[0]).None? || Nibble(s[1]).None? then None
    else
      var rest := Decode(s[2..]);
      if rest.None? then None else Some([16 * Nibble(s[0]).value + Nibble(s[1]).value] + rest.value)
  }

  lemma NibbleOfHex(n: int)
    requires 0 <= n < 16
    ensures Nibble(HexDigit(n)) == Some(n)
  {}

  lemma HexOfNibble(c: char)
    requires Nibble(c).Some?
    ensures 0 <= Nibble(c).value < 16 && HexDigit(Nibble(c).value) == LowerChar(c)
  {}

  lemma EncodeStep(b: Byte, rest: Bytes)
    ensures Encode([b] + rest) == [HexDigit(b / 16), HexDigit(b % 16)] + Encode(rest)
  {
    assert ([b] + rest)[1..] == rest;
  }

  lemma DecodeStep(s: string, m: int, n: int, b: Bytes)
    requires |s| >= 2 && 0 <= m < 16 && 0 <= n < 16
    requires Nibble(s[0]) == Some(m) && Nibble(s[1]) == Some(n) && Decode(s[2..]) == Some(b)
    ensures Decode(s) == Some([16 * m + n] + b)
  {
    hide Nibble;
  }

  lemma {:induction false} DecodeUndoesEncode(b: Bytes)
    ensures Decode(Encode(b)) == Some(b)
  {
    if b == [] {
      assert Encode(b) == "" && Decode("") == Some([]);
    } else {
      DecodeUndoesEncode(b[1..]);
      NibbleOfHex(b[0] / 16);
      NibbleOfHex(b[0] % 16);
      assert Encode(b) == [HexDigit(b[0] / 16), HexDigit(b[0] % 16)] + Encode(b[1..]);
      hide Decode, Encode, Nibble, HexDigit;
      assert Encode(b)[2..] == Encode(b[1..]);
      DecodeStep(Encode(b), b[0] / 16, b[0] % 16, b[1..]);
      assert [b[0]] + b[1..] == b;
    }
  }

  /** Whatever decodes is, but for the case of its digits, what its bytes encode to. */
  lemma {:induction false} EncodeUndoesDecode(s: string)
    requires Decode(s).Some?
    ensures Encode(Decode(s).value) == Lower(s)
  {
    if s == "" {
      assert Decode(s) == Some([]) && Encode([]) == "";
    } else {
      assert |s| >= 2;
      var (c, d, rest) := (s[0], s[1], s[2..]);
      assert Nibble(c).Some? && Nibble(d).Some? && Decode(rest).Some?;
      EncodeUndoesDecode(rest);
      HexOfNibble(c);
      HexOfNibble(d);
      var n := 16 * Nibble(c).value + Nibble(d).value;
      assert n / 16 == Nibble(c).value && n % 16 == Nibble(d).value;
      assert Decode(s).value == [n] + Decode(rest).value;
      EncodeStep(n, Decode(rest).value);
      hide Decode, Encode, Nibble, HexDigit;
      assert Lower(s) == [LowerChar(c), LowerChar(d)] + Lower(rest);
    }
  }

  lemma NibbleFolds(c: char)
    ensures Nibble(LowerChar(c)) == Nibble(c)
  {}

  lemma {:induction false} DecodeFolds(s: string)
    ensures Decode(Lower(s)) == Decode(s)
  {
    if |s| >= 2 {
      NibbleFolds(s[0]);
      NibbleFolds(s[1]);
      DecodeFolds(s[2..]);
      assert Lower(s)[2..] == Lower(s[2..]);
    } else if |s| == 1 {
      assert Decode(s).None?;
    }
  }

  // ---------------------------------------------------------------- fields

  /** `strings.Split(s, ":")` */
  function Split(s: string): (parts: seq<string>)
    ensures |parts| >= 1
  {
    var i := IndexOf(s, ':');
    if i == |s| then [s] else [s[..i]] + Split(s[i + 1..])
  }

  function Joined(a: string, b: string, c: string): string {
    a + ":" + b + ":" + c
  }

  lemma FirstColon(a: string, rest: string)
    requires ':' !in a
    ensures IndexOf(a + ":" + rest, ':') == |a|
  {
    var s := a + ":" + rest;
    assert s[|a|] == ':';
    assert forall i :: 0 <= i < |a| ==> s[i] == a[i];
  }

  lemma SplitOnce(a: string, rest: string)
    requires ':' !in a
    ensures Split(a + ":" + rest) == [a] + Split(rest)
  {
    var s := a + ":" + rest;
    FirstColon(a, rest);
    assert s[..|a|] == a && s[|a| + 1..] == rest;
  }

  lemma SplitsIntoThree(a: string, b: string, c: string)
    requires ':' !in a && ':' !in b && ':' !in c
    ensures Split(Joined(a, b, c)) == [a, b, c]
  {
    JoinedNests(a, b, c);
    SplitOnce(a, b + ":" + c);
    SplitOnce(b, c);
    SplitNone(c);
    hide Split, Joined;
    assert [a] + ([b] + [c]) == [a, b, c];
  }

  lemma JoinedNests(a: string, b: string, c: string)
    ensures Joined(a, b, c) == a + ":" + (b + ":" + c)
  {}

  lemma SplitNone(s: string)
    requires ':' !in s
    ensures Split(s) == [s]
  {}

  lemma SplitHead(s: string) returns (rest: string)
    requires |Split(s)| > 1
    ensures s == Split(s)[0] + ":" + rest && ':' !in Split(s)[0] && Split(rest) == Split(s)[1..]
  {
    var i := IndexOf(s, ':');
    rest := s[i + 1..];
    assert s[i] == ':';
  }

  lemma SplitWhole(s: string)
    requires |Split(s)| == 1
    ensures s == Split(s)[0] && ':' !in s
  {}

  lemma ThreePartsJoin(s: string)
    requires |Split(s)| == 3
    ensures var p := Split(s);
      s == Joined(p[0], p[1], p[2]) && ':' !in p[0] && ':' !in p[1] && ':' !in p[2]
  {
    hide Split;
    var rest := SplitHead(s);
    var last := SplitHead(rest);
    SplitWhole(last);
    var p := Split(s);
    assert p[1] == Split(rest)[0] && p[2] == Split(last)[0];
    JoinedNests(p[0], p[1], p[2]);
  }

  // ---------------------------------------------------------------- envelopes

  datatype DecryptError = BadFormat | BadIV | BadAuthTag | BadCiphertext | NotAuthentic

  function Encrypt(a: Aead, key: Bytes, iv: Bytes, plain: Bytes): Option<string> {
    var sealed := a.seal(key, iv, plain);
    var n := |sealed| - AUTH_TAG_LENGTH;
    if n < 0 then None else Some(Joined(Encode(iv), Encode(sealed[n..]), Encode(sealed[..n])))
  }

  function Decrypt(a: Aead, key: Bytes, envelope: string): Result<Bytes, DecryptError> {
    var parts := Split(envelope);
    if |parts| != 3 then Err(BadFormat)
    else
      var (iv, tag, text) := (Decode(parts[0]), Decode(parts[1]), Decode(parts[2]));
      if iv.None? || |iv.value| != IV_LENGTH then Err(BadIV)
      else if tag.None? || |tag.value| != AUTH_TAG_LENGTH then Err(BadAuthTag)
      else if text.None? then Err(BadCiphertext)
      else
        var plain := a.open(key, iv.value, text.value + tag.value);
        if plain.None? then Err(NotAuthentic) else Ok(plain.value)
  }

  /** The text is initialisation vector, tag and ciphertext in that order; the tag is the last 16 bytes sealed. */
  lemma EncryptedText(a: Aead, key: Bytes, iv: Bytes, plain: Bytes, text: Bytes, tag: Bytes)
    requires a.seal(key, iv, plain) == text + tag && |tag| == 16
    ensures Encrypt(a, key, iv, plain) == Some(Encode(iv) + ":" + Encode(tag) + ":" + Encode(text))
  {
    assert (text + tag)[|text|..] == tag && (text + tag)[..|text|] == text;
    hide Encode;
  }

  lemma DecryptUndoesEncrypt(a: Aead, key: Bytes, iv: Bytes, plain: Bytes)
    requires Lawful(a) && |iv| == IV_LENGTH
    ensures Encrypt(a, key, iv, plain).Some? && Decrypt(a, key, Encrypt(a, key, iv, plain).value) == Ok(plain)
  {
    hide Encode, Decode, Split, Joined;
    var sealed := a.seal(key, iv, plain);
    var n := |sealed| - AUTH_TAG_LENGTH;
    SplitsIntoThree(Encode(iv), Encode(sealed[n..]), Encode(sealed[..n]));
    DecodeUndoesEncode(iv);
    DecodeUndoesEncode(sealed[n..]);
    DecodeUndoesEncode(sealed[..n]);
    assert sealed[..n] + sealed[n..] == sealed;
  }

  lemma LowerJoins(a: string, b: string, c: string)
    ensures Lower(Joined(a, b, c)) == Joined(Lower(a), Lower(b), Lower(c))
  {}

  lemma LowerHasNoColon(s: string)
    ensures ':' in Lower(s) <==> ':' in s
  {
    if ':' in s {
      var i :| 0 <= i < |s| && s[i] == ':';
      assert Lower(s)[i] == ':';
    }
  }

  lemma DecryptIsEncrypted(a: Aead, key: Bytes, envelope: string, plain: Bytes) returns (iv: Bytes)
    requires Lawful(a) && Decrypt(a, key, envelope) == Ok(plain)
    ensures |iv| == IV_LENGTH && Encrypt(a, key, iv, plain) == Some(Lower(envelope))
  {
    hide Encode, Decode, Split, Joined, Lower;
    var p := Split(envelope);
    ThreePartsJoin(envelope);
    iv := Decode(p[0]).value;
    var (tag, text) := (Decode(p[1]).value, Decode(p[2]).value);
    EncodeUndoesDecode(p[0]);
    EncodeUndoesDecode(p[1]);
    EncodeUndoesDecode(p[2]);
    LowerJoins(p[0], p[1], p[2]);
    var sealed := a.seal(key, iv, plain);
    assert sealed == text + tag;
    assert sealed[|text|..] == tag && sealed[..|text|] == text;
  }

  lemma JoinedSlices(a: string, b: string, c: string)
    ensures var s := Joined(a, b, c);
      var (i, j) := (|a|, |a| + 1 + |b|);
      && |s| == j + 1 + |c| && s[..i] == a && s[i] == ':' && s[i + 1..j] == b && s[j] == ':' && s[j + 1..] == c
  {}

  lemma LowerSlice(s: string, i: nat, j: nat)
    requires i <= j <= |s|
    ensures Lower(s[i..j]) == Lower(s)[i..j]
  {}

  lemma Slices(s: string, i: nat, j: nat)
    requires i < j < |s| && s[i] == ':' && s[j] == ':'
    ensures s == Joined(s[..i], s[i + 1..j], s[j + 1..])
  {}

  /** Folding a joined text folds its three parts. */
  lemma LowerOfJoined(s: string, a: string, b: string, c: string) returns (x: string, y: string, z: string)
    requires Lower(s) == Joined(a, b, c)
    ensures s == Joined(x, y, z) && Lower(x) == a && Lower(y) == b && Lower(z) == c
  {
    hide Joined, Lower;
    var (i, j) := (|a|, |a| + 1 + |b|);
    JoinedSlices(a, b, c);
    ColonAt(s, i);
    ColonAt(s, j);
    x, y, z := s[..i], s[i + 1..j], s[j + 1..];
    Slices(s, i, j);
    LowerSlice(s, 0, i);
    LowerSlice(s, i + 1, j);
    LowerSlice(s, j + 1, |s|);
    assert s[0..i] == x && s[j + 1..|s|] == z;
    assert Lower(s)[0..i] == a && Lower(s)[j + 1..|s|] == c;
  }

  lemma ColonAt(s: string, i: nat)
    requires i < |s| && Lower(s)[i] == ':'
    ensures s[i] == ':'
  {
    assert LowerChar(s[i]) == ':';
  }

  lemma SplitFolds(s: string)
    requires |Split(Lower(s))| == 3
    ensures var (p, q) := (Split(s), Split(Lower(s)));
      |p| == 3 && Lower(p[0]) == q[0] && Lower(p[1]) == q[1] && Lower(p[2]) == q[2]
  {
    hide Split, Joined, Lower;
    ThreePartsJoin(Lower(s));
    var q := Split(Lower(s));
    var x, y, z := LowerOfJoined(s, q[0], q[1], q[2]);
    LowerHasNoColon(x);
    LowerHasNoColon(y);
    LowerHasNoColon(z);
    SplitsIntoThree(x, y, z);
  }

  lemma DecryptFolds(a: Aead, key: Bytes, envelope: string)
    requires Decrypt(a, key, Lower(envelope)).Ok?
    ensures Decrypt(a, key, envelope) == Decrypt(a, key, Lower(envelope))
  {
    hide Decode, Split, Lower;
    SplitFolds(envelope);
    var p := Split(envelope);
    DecodeFolds(p[0]);
    DecodeFolds(p[1]);
    DecodeFolds(p[2]);
  }

  /** A text opens exactly when it is, but for the case of its digits, an encryption of what it opens to. */
  lemma OpensExactlyEncryptions(a: Aead, key: Bytes, envelope: string, plain: Bytes)
    requires Lawful(a)
    ensures Decrypt(a, key, envelope) == Ok(plain) <==>
      exists iv: Bytes :: |iv| == IV_LENGTH && Encrypt(a, key, iv, plain) == Some(Lower(envelope))
  {
    if Decrypt(a, key, envelope) == Ok(plain) {
      var iv := DecryptIsEncrypted(a, key, envelope, plain);
    }
    if iv: Bytes :| |iv| == IV_LENGTH && Encrypt(a, key, iv, plain) == Some(Lower(envelope)) {
      DecryptUndoesEncrypt(a, key, iv, plain);
      DecryptFolds(a, key, envelope);
    }
  }
}
