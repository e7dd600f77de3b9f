/** The versioned text envelope around encrypted fields, and the admin user name that travels in it. */
module Envelope {
  import opened Common

  type Byte = b: int | 0 <= b < 256
  type Bytes = seq<Byte>

  const IV_LENGTH: nat := 12
  const LEGACY_IV_LENGTH: nat := 16
  const AUTH_TAG_LENGTH: nat := 16

  // ---------------------------------------------------------------------
  // Hexadecimal
  // ---------------------------------------------------------------------

  function DigitOf(c: char): Option<int> {
    if '0' <= c <= '9' then Some(c as int - '0' as int)
    else if 'a' <= c <= 'f' then Some(c as int - 'a' as int + 10)
    else if 'A' <= c <= 'F' then Some(c as int - 'A' as int + 10)
    else None
  }

  function HexOf(bs: Bytes): string {
    if bs == [] then "" else [HexDigit(bs[0] / 16), HexDigit(bs[0] % 16)] + HexOf(bs[1..])
  }

  /** `Buffer.from(s, 'hex')`: pairs of digits up to the first pair that is not one. */
  function FromHex(s: string): Bytes {
    if |s| < 2 || DigitOf(s[0]).None? || DigitOf(s[1]).None? then []
    else [16 * DigitOf(s[0]).value + DigitOf(s[1]).value] + FromHex(s[2..])
  }

  lemma {:induction false} HexRoundTrip(bs: Bytes)
    ensures FromHex(HexOf(bs)) == bs
    ensures ':' !in HexOf(bs) && (HexOf(bs) != "" ==> HexOf(bs)[0] != 'v')
  {
    if bs != [] {
      HexRoundTrip(bs[1..]);
      var h, l := bs[0] / 16, bs[0] % 16;
      assert DigitOf(HexDigit(h)) == Some(h) && DigitOf(HexDigit(l)) == Some(l) && 16 * h + l == bs[0];
      assert HexOf(bs)[2..] == HexOf(bs[1..]);
    }
  }

  // ---------------------------------------------------------------------
  // Printing and parsing
  // ---------------------------------------------------------------------

  function PrintVersioned(iv: Bytes, tag: Bytes, ct: Bytes): string {
    "v1" + [':'] + (HexOf(iv) + [':'] + (HexOf(tag) + [':'] + HexOf(ct)))
  }

  /** The format written before key versions existed. */
  function PrintLegacy(iv: Bytes, tag: Bytes, ct: Bytes): string {
    HexOf(iv) + [':'] + (HexOf(tag) + [':'] + HexOf(ct))
  }

  datatype Parsed =
    | Parsed(iv: Bytes, authTag: Bytes, ciphertext: string)
    | UnsupportedVersion | InvalidFormat | InvalidIvLength | InvalidTagLength

  /** White space and line terminators, as `trim` and `parseInt` skip them. */
  predicate IsSpace(c: char) {
    '\U{0009}' <= c <= '\U{000D}' || c == ' ' || c == '\U{00A0}' || c == '\U{1680}' || '\U{2000}' <= c <= '\U{200A}'
    || c == '\U{2028}' || c == '\U{2029}' || c == '\U{202F}' || c == '\U{205F}' || c == '\U{3000}' || c == '\U{FEFF}'
  }

  function TrimStart(s: string): string {
    if s != "" && IsSpace(s[0]) then TrimStart(s[1..]) else s
  }

  function TrimEnd(s: string): string {
    if s != "" && IsSpace(s[|s| - 1]) then TrimEnd(s[..|s| - 1]) else s
  }

  function Trim(s: string): string {
    TrimEnd(TrimStart(s))
  }

  /** The value of the leading decimal digits, continuing from `acc`. */
  function LeadingDigits(s: string, acc: nat): nat {
    if s != "" && '0' <= s[0] <= '9' then LeadingDigits(s[1..], 10 * acc + (s[0] as int - '0' as int)) else acc
  }

  /** `parseInt(s, 10)`: blanks, a sign, then as many digits as follow; None is NaN. */
  function ParseInt(s: string): Option<int> {
    var t := TrimStart(s);
    var negative := t != "" && t[0] == '-';
    var u := if t != "" && (t[0] == '-' || t[0] == '+') then t[1..] else t;
    if u == "" || !('0' <= u[0] <= '9') then None
    else
      var v: int := LeadingDigits(u, 0);
      Some(if negative then -v else v)
  }

  function Validated(iv: Bytes, tag: Bytes, ciphertext: string): Parsed {
    if |iv| != IV_LENGTH && |iv| != LEGACY_IV_LENGTH then InvalidIvLength
    else if |tag| != AUTH_TAG_LENGTH then InvalidTagLength
    else Parsed(iv, tag, ciphertext)
  }

  function ParseVersionedText(parts: seq<string>): Parsed
    requires |parts| == 4 && parts[0] != ""
  {
    if ParseInt(parts[0][1..]) != Some(1) then UnsupportedVersion
    else Validated(FromHex(parts[1]), FromHex(parts[2]), parts[3])
  }

  function ParseLegacyText(parts: seq<string>): Parsed {
    if |parts| != 3 then InvalidFormat
    else Validated(FromHex(parts[0]), FromHex(parts[1]), parts[2])
  }

  function ParseEncryptedText(text: string): Parsed {
    var parts := Split(text, ':');
    if |parts| == 4 && parts[0] != "" && parts[0][0] == 'v' then ParseVersionedText(parts) else ParseLegacyText(parts)
  }

  lemma SplitLegacy(iv: Bytes, tag: Bytes, ct: Bytes)
    ensures Split(PrintLegacy(iv, tag, ct), ':') == [HexOf(iv), HexOf(tag), HexOf(ct)]
  {
    HexRoundTrip(iv);
    HexRoundTrip(tag);
    HexRoundTrip(ct);
    SplitAtFirst(HexOf(iv), ':', HexOf(tag) + [':'] + HexOf(ct));
    SplitAtFirst(HexOf(tag), ':', HexOf(ct));
    SplitWhole(HexOf(ct), ':');
  }

  /** Parsing undoes printing for every IV, tag and ciphertext, the empty ciphertext included. */
  lemma ParseUndoesPrint(iv: Bytes, tag: Bytes, ct: Bytes)
    requires |iv| == IV_LENGTH || |iv| == LEGACY_IV_LENGTH
    requires |tag| == AUTH_TAG_LENGTH
    ensures ParseEncryptedText(PrintVersioned(iv, tag, ct)) == Parsed(iv, tag, HexOf(ct))
    ensures ParseEncryptedText(PrintLegacy(iv, tag, ct)) == Parsed(iv, tag, HexOf(ct))
    ensures FromHex(HexOf(ct)) == ct
  {
    ParseUndoesVersioned(iv, tag, ct);
    ParseUndoesLegacy(iv, tag, ct);
    HexRoundTrip(ct);
  }

  lemma ParseUndoesLegacy(iv: Bytes, tag: Bytes, ct: Bytes)
    requires (|iv| == IV_LENGTH || |iv| == LEGACY_IV_LENGTH) && |tag| == AUTH_TAG_LENGTH
    ensures ParseEncryptedText(PrintLegacy(iv, tag, ct)) == Parsed(iv, tag, HexOf(ct))
  {
    SplitLegacy(iv, tag, ct);
    HexRoundTrip(iv);
    HexRoundTrip(tag);
  }

  lemma ParseUndoesVersioned(iv: Bytes, tag: Bytes, ct: Bytes)
    requires (|iv| == IV_LENGTH || |iv| == LEGACY_IV_LENGTH) && |tag| == AUTH_TAG_LENGTH
    ensures ParseEncryptedText(PrintVersioned(iv, tag, ct)) == Parsed(iv, tag, HexOf(ct))
  {
    SplitVersioned(iv, tag, ct);
    HexRoundTrip(iv);
    HexRoundTrip(tag);
    OneDigit('1');
    assert "v1"[1..] == ['1'];
  }

  lemma SplitVersioned(iv: Bytes, tag: Bytes, ct: Bytes)
    ensures Split(PrintVersioned(iv, tag, ct), ':') == ["v1", HexOf(iv), HexOf(tag), HexOf(ct)]
  {
    SplitLegacy(iv, tag, ct);
    SplitAtFirst("v1", ':', PrintLegacy(iv, tag, ct));
  }

  /** Whatever parses has an IV of twelve or sixteen bytes and a tag of sixteen, from three pieces or from
      four of which the first is a version. */
  lemma ParsedIsValid(text: string)
    requires ParseEncryptedText(text).Parsed?
    ensures var p, parts := ParseEncryptedText(text), Split(text, ':');
            && (|p.iv| == 12 || |p.iv| == 16) && |p.authTag| == 16
            && (|parts| == 3 || (|parts| == 4 && parts[0] != "" && parts[0][0] == 'v'))
  {
  }

  /** Printed with any other lengths, or under another version digit, it does not. */
  lemma OthersAreRefused(version: char, iv: Bytes, tag: Bytes, ct: Bytes)
    requires '0' <= version <= '9' && (version != '1' || (|iv| != 12 && |iv| != 16) || |tag| != 16)
    ensures !ParseEncryptedText(['v', version] + [':'] + PrintLegacy(iv, tag, ct)).Parsed?
  {
    SplitLegacy(iv, tag, ct);
    SplitAtFirst(['v', version], ':', PrintLegacy(iv, tag, ct));
    HexRoundTrip(iv);
    HexRoundTrip(tag);
    OneDigit(version);
    assert ['v', version][1..] == [version];
  }

  lemma OneDigit(d: char)
    requires '0' <= d <= '9'
    ensures ParseInt([d]) == Some(d as int - '0' as int)
  {
    assert !IsSpace(d);
    assert TrimStart([d]) == [d];
    assert LeadingDigits([d], 0) == LeadingDigits([d][1..], d as int - '0' as int);
  }

  /** Legacy and versioned texts are never confused: no string is both, whatever the parts. */
  lemma FormatsAreDisjoint(iv: Bytes, tag: Bytes, ct: Bytes, iv': Bytes, tag': Bytes, ct': Bytes)
    ensures PrintVersioned(iv, tag, ct) != PrintLegacy(iv', tag', ct')
  {
    SplitLegacy(iv, tag, ct);
    SplitLegacy(iv', tag', ct');
    SplitAtFirst("v1", ':', PrintLegacy(iv, tag, ct));
  }

  // ---------------------------------------------------------------------
  // Encrypting and decrypting over an abstract authenticated cipher
  // ---------------------------------------------------------------------

  type Key = Bytes

  datatype Sealed = Sealed(ciphertext: Bytes, tag: Bytes)

  datatype Cipher = Cipher(seal: (Key, Bytes, string) -> Sealed, unseal: (Key, Bytes, Sealed) -> Option<string>)

  /** What GCM promises (NIST SP 800-38D, sections 7.1 and 7.2): decryption inverts encryption under
      the same key and IV, with a 16-byte tag. */
  ghost predicate IsCipher(c: Cipher) {
    forall k, iv, text :: |c.seal(k, iv, text).tag| == AUTH_TAG_LENGTH
      && c.unseal(k, iv, c.seal(k, iv, text)) == Some(text)
  }

  function Encrypt(c: Cipher, key: Key, iv: Bytes, text: string): string {
    var s := c.seal(key, iv, text);
    PrintVersioned(iv, s.tag, s.ciphertext)
  }

  /** None is the thrown error, of parsing or of authentication. */
  function Decrypt(c: Cipher, key: Key, text: string): Option<string> {
    match ParseEncryptedText(text)
    case Parsed(iv, tag, ciphertext) => c.unseal(key, iv, Sealed(FromHex(ciphertext), tag))
    case _ => None
  }

  lemma DecryptUndoesEncrypt(c: Cipher, key: Key, iv: Bytes, text: string)
    requires IsCipher(c) && |iv| == IV_LENGTH
    ensures Decrypt(c, key, Encrypt(c, key, iv, text)) == Some(text)
  {
    var s := c.seal(key, iv, text);
    ParseUndoesPrint(iv, s.tag, s.ciphertext);
  }

  // ---------------------------------------------------------------------
  // Admin user names
  // ---------------------------------------------------------------------

  datatype Name = Name(first: string, last: string)

  /** The position of the first blank, or the length. */
  function BlankIndex(s: string): (i: nat)
    ensures i <= |s| && (i < |s| ==> s[i] == ' ')
  {
    if s == "" || s[0] == ' ' then 0 else 1 + BlankIndex(s[1..])
  }

  function SplitName(name: string): Name {
    var trimmed := Trim(name);
    var i := BlankIndex(trimmed);
    if i == |trimmed| then Name(trimmed, "") else Name(trimmed[..i], trimmed[i + 1..])
  }

  function DecryptSafe(c: Cipher, key: Key, value: string): string {
    if value == "" then "" else match Decrypt(c, key, value) case Some(s) => s case None => ""
  }

  function BuildName(first: string, last: string): string {
    var joined := if first == "" then last else if last == "" then first else first + " " + last;
    if joined == "" then "Unnamed" else joined
  }

  /** What listing shows of a user created under `name`, with a fresh IV for each half. */
  function CreatedName(c: Cipher, key: Key, ivFirst: Bytes, ivLast: Bytes, name: string): string {
    var n := SplitName(name);
    BuildName(DecryptSafe(c, key, Encrypt(c, key, ivFirst, n.first)),
      DecryptSafe(c, key, Encrypt(c, key, ivLast, n.last)))
  }

  lemma {:induction false} TrimEndEdges(s: string)
    ensures var t := TrimEnd(s);
            t <= s && (t != "" ==> !IsSpace(t[|t| - 1]))
  {
    if s != "" && IsSpace(s[|s| - 1]) {
      TrimEndEdges(s[..|s| - 1]);
    }
  }

  lemma {:induction false} TrimStartEdge(s: string)
    ensures TrimStart(s) != "" ==> !IsSpace(TrimStart(s)[0])
  {
    if s != "" && IsSpace(s[0]) {
      TrimStartEdge(s[1..]);
    }
  }

  predicate AllSpaces(s: string) {
    forall i :: 0 <= i < |s| ==> IsSpace(s[i])
  }

  lemma {:induction false} TrimStartCuts(s: string) returns (a: string)
    ensures AllSpaces(a) && s == a + TrimStart(s)
  {
    if s != "" && IsSpace(s[0]) {
      var rest := TrimStartCuts(s[1..]);
      a := [s[0]] + rest;
    } else {
      a := "";
    }
  }

  lemma {:induction false} TrimEndCuts(s: string) returns (b: string)
    ensures AllSpaces(b) && s == TrimEnd(s) + b
  {
    if s != "" && IsSpace(s[|s| - 1]) {
      var rest := TrimEndCuts(s[..|s| - 1]);
      b := rest + [s[|s| - 1]];
    } else {
      b := "";
    }
  }

  /** Trimming takes blanks off both ends, all of them and nothing else. */
  lemma TrimIsCore(s: string) returns (a: string, b: string)
    ensures s == a + Trim(s) + b && AllSpaces(a) && AllSpaces(b)
    ensures Trim(s) != "" ==> !IsSpace(Trim(s)[0]) && !IsSpace(Trim(s)[|Trim(s)| - 1])
  {
    a := TrimStartCuts(s);
    b := TrimEndCuts(TrimStart(s));
    TrimStartEdge(s);
    TrimEndEdges(TrimStart(s));
  }

  /** Splitting at the first blank and joining again restores a trimmed name; a blank one is Unnamed. */
  lemma NameRejoins(name: string)
    ensures var n := SplitName(name);
            BuildName(n.first, n.last) == if Trim(name) == "" then "Unnamed" else Trim(name)
  {
    var t := Trim(name);
    TrimStartEdge(name);
    TrimEndEdges(TrimStart(name));
    var i := BlankIndex(t);
    if i < |t| {
      assert IsSpace(t[i]);
      assert t == t[..i] + " " + t[i + 1..];
    }
  }

  /** The first name is what comes before the first blank of the trimmed name, the last name the rest. */
  lemma NameSplits(name: string)
    ensures var n := SplitName(name);
            && ' ' !in n.first
            && (' ' in Trim(name) ==> Trim(name) == n.first + " " + n.last)
            && (' ' !in Trim(name) ==> n == Name(Trim(name), ""))
  {
    var t := Trim(name);
    FirstBlank(t);
    var i := BlankIndex(t);
    if i < |t| {
      assert t == t[..i] + " " + t[i + 1..];
    }
  }

  lemma {:induction false} FirstBlank(s: string)
    ensures ' ' !in s[..BlankIndex(s)] && (BlankIndex(s) == |s| <==> ' ' !in s)
  {
    if s != "" && s[0] != ' ' {
      FirstBlank(s[1..]);
      assert s[..BlankIndex(s)] == [s[0]] + s[1..][..BlankIndex(s[1..])];
    }
  }

  /** Halves that cannot be decrypted, or are missing, count as empty; a user with neither is Unnamed. */
  lemma UnreadableIsUnnamed(c: Cipher, key: Key, first: string, last: string)
    requires first == "" || Decrypt(c, key, first).None?
    requires last == "" || Decrypt(c, key, last).None?
    ensures BuildName(DecryptSafe(c, key, first), DecryptSafe(c, key, last)) == "Unnamed"
  {
  }

  /** A created user's name reads back as its trimmed input, or Unnamed when that is blank. */
  lemma CreatedNameReadsBack(c: Cipher, key: Key, ivFirst: Bytes, ivLast: Bytes, name: string)
    requires IsCipher(c) && |ivFirst| == IV_LENGTH && |ivLast| == IV_LENGTH
    ensures CreatedName(c, key, ivFirst, ivLast, name) == if Trim(name) == "" then "Unnamed" else Trim(name)
  {
    var n := SplitName(name);
    DecryptUndoesEncrypt(c, key, ivFirst, n.first);
    DecryptUndoesEncrypt(c, key, ivLast, n.last);
    NameRejoins(name);
  }
}
