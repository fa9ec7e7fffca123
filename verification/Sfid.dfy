/** Salesforce IDs and their case checksum. Model of canonicalSFID, Canonical, Validate and
    SameEntity in backend/internal/domain/models/initiative.go. An ID is its bytes. */
module Sfid {
  import opened Options

  const ALPHABET := "ABCDEFGHIJKLMNOPQRSTUVWXYZ012345"

  predicate IsUpper(c: char) {
    'A' <= c <= 'Z'
  }

  predicate IsLower(c: char) {
    'a' <= c <= 'z'
  }

  predicate Alphanumeric(c: char) {
    IsUpper(c) || IsLower(c) || '0' <= c <= '9'
  }

  function ToLower(c: char): char {
    if IsUpper(c) then c + ' ' else c
  }

  function ToUpper(c: char): char {
    if IsLower(c) then c - ' ' else c
  }

  function Fold(s: string): (r: string)
    ensures |r| == |s|
    ensures forall i :: 0 <= i < |s| ==> r[i] == ToLower(s[i])
  {
    seq(|s|, i requires 0 <= i < |s| => ToLower(s[i]))
  }

  /* ---- bits of a chunk ---- */

  function Pow2(i: nat): nat {
    if i == 0 then 1 else 2 * Pow2(i - 1)
  }

  predicate Bit(n: nat, i: nat) {
    if i == 0 then n % 2 == 1 else Bit(n / 2, i - 1)
  }

  /** n | 1<<i */
  function SetBit(n: nat, i: nat): nat {
    if i == 0 then n / 2 * 2 + 1 else SetBit(n / 2, i - 1) * 2 + n % 2
  }

  lemma {:induction false} SetBitMeans(n: nat, i: nat, j: nat)
    ensures Bit(SetBit(n, i), j) <==> j == i || Bit(n, j)
  {
    if i > 0 && j > 0 { SetBitMeans(n / 2, i - 1, j - 1); }
  }

  lemma {:induction false} SetBitBelow(n: nat, i: nat, k: nat)
    requires n < Pow2(k) && i < k
    ensures SetBit(n, i) < Pow2(k)
  {
    var half, rest := n / 2, n % 2;
    assert n == 2 * half + rest && Pow2(k) == 2 * Pow2(k - 1);
    if i > 0 {
      SetBitBelow(half, i - 1, k - 1);
      assert SetBit(n, i) == 2 * SetBit(half, i - 1) + rest;
    }
  }

  /** A number below 2^k is its k bits. */
  lemma {:induction false} BitsDetermine(m: nat, n: nat, k: nat)
    requires m < Pow2(k) && n < Pow2(k)
    requires forall i :: 0 <= i < k ==> (Bit(m, i) <==> Bit(n, i))
    ensures m == n
  {
    if k > 0 {
      assert Bit(m, 0) <==> Bit(n, 0);
      forall i | 0 <= i < k - 1 ensures Bit(m / 2, i) <==> Bit(n / 2, i) {
        assert Bit(m, i + 1) <==> Bit(n, i + 1);
      }
      BitsDetermine(m / 2, n / 2, k - 1);
    }
  }

  /** Which letters of a chunk are upper case, as a number. */
  function Mask(chunk: string): (n: nat)
    ensures n < Pow2(|chunk|)
  {
    if chunk == [] then 0 else (if IsUpper(chunk[0]) then 1 else 0) + 2 * Mask(chunk[1..])
  }

  lemma {:induction false} MaskBits(chunk: string, i: nat)
    requires i < |chunk|
    ensures Bit(Mask(chunk), i) <==> IsUpper(chunk[i])
  {
    var rest := Mask(chunk[1..]);
    assert Mask(chunk) / 2 == rest && (Mask(chunk) % 2 == 1 <==> IsUpper(chunk[0]));
    if i > 0 {
      MaskBits(chunk[1..], i - 1);
      assert Bit(rest, i - 1) <==> IsUpper(chunk[i]);
    }
  }

  lemma {:induction false} ZeroHasNoBits(i: nat)
    ensures !Bit(0, i)
  {
    if i > 0 { ZeroHasNoBits(i - 1); }
  }

  /* ---- canonicalSFID ---- */

  /** The checksum character of the c-th chunk of five. */
  function Check(id: string, c: nat): char
    requires |id| == 15 && c < 3
  {
    assert Pow2(5) == 32;
    ALPHABET[Mask(id[c * 5..c * 5 + 5])]
  }

  function Canonical(id: string): string {
    if |id| == 15 then id + [Check(id, 0), Check(id, 1), Check(id, 2)] else id
  }

  /** What a letter at this place of its chunk adds to the chunk's number. */
  function Weight(c: char, weight: nat): nat {
    if 'A' <= c <= 'Z' then weight else 0
  }

  /** The number of a chunk, written out. */
  function Number(id: string, at: nat): (n: nat)
    requires at + 5 <= |id|
    ensures n < 32
  {
    Weight(id[at], 1) + Weight(id[at+1], 2) + Weight(id[at+2], 4) + Weight(id[at+3], 8) + Weight(id[at+4], 16)
  }

  /** The checksum characters are the upper-case letters for 0 to 25 and the digits from there on. */
  lemma CheckMeans(id: string, c: nat)
    requires |id| == 15 && c < 3
    ensures var n := Number(id, c * 5);
      Check(id, c) as int == if n < 26 then 'A' as int + n else '0' as int + n - 26
  {
    MaskIsNumber(id, c * 5);
    AlphabetInOrder(Number(id, c * 5));
  }

  /** The suffix, character by character. */
  lemma SuffixMeans(id: string)
    requires |id| == 15
    ensures var (full, a, b, c) := (Canonical(id), Number(id, 0), Number(id, 5), Number(id, 10));
      && |full| == 18 && full[..15] == id
      && full[15] as int == (if a < 26 then 'A' as int + a else '0' as int + a - 26)
      && full[16] as int == (if b < 26 then 'A' as int + b else '0' as int + b - 26)
      && full[17] as int == (if c < 26 then 'A' as int + c else '0' as int + c - 26)
  {
    CheckMeans(id, 0);
    CheckMeans(id, 1);
    CheckMeans(id, 2);
  }

  lemma MaskIsNumber(id: string, at: nat)
    requires at + 5 <= |id|
    ensures Mask(id[at..at + 5]) == Number(id, at)
  {
    var s := id[at..at + 5];
    assert s == [id[at], id[at+1], id[at+2], id[at+3], id[at+4]];
    assert Mask(s[5..]) == 0;
    assert s[1..][1..] == s[2..] && s[2..][1..] == s[3..] && s[3..][1..] == s[4..] && s[4..][1..] == s[5..];
    assert Mask(s[4..]) == Weight(s[4], 1);
    assert Mask(s[3..]) == Weight(s[3], 1) + 2 * Mask(s[4..]);
    assert Mask(s[2..]) == Weight(s[2], 1) + 2 * Mask(s[3..]);
    assert Mask(s[1..]) == Weight(s[1], 1) + 2 * Mask(s[2..]);
  }

  lemma AlphabetInOrder(n: nat)
    requires n < 32
    ensures ALPHABET[n] as int == if n < 26 then 'A' as int + n else '0' as int + n - 26
  {
  }

  method CanonicalSFID(id: string) returns (full: string)
    ensures full == Canonical(id)
    ensures |id| != 15 ==> full == id
    ensures |id| == 15 ==> |full| == 18 && full[..15] == id
  {
    if |id| != 15 { return id; }
    full := id;
    for chunk := 0 to 3
      invariant full == id + [Check(id, 0), Check(id, 1), Check(id, 2)][..chunk]
    {
      var idx: nat := 0;
      ghost var letters := id[chunk * 5..chunk * 5 + 5];
      forall j | 0 <= j < 5 ensures !Bit(0, j) { ZeroHasNoBits(j); }
      assert Pow2(5) == 32;
      for i := 0 to 5
        invariant idx < 32
        invariant forall j: nat :: j < 5 ==> (Bit(idx, j) <==> j < i && IsUpper(letters[j]))
      {
        var c := id[chunk * 5 + i];
        if IsUpper(c) {
          SetBitBelow(idx, i, 5);
          forall j: nat | j < 5 ensures Bit(SetBit(idx, i), j) <==> j < i + 1 && IsUpper(letters[j]) {
            SetBitMeans(idx, i, j);
          }
          idx := SetBit(idx, i);
        }
      }
      forall j: nat | j < 5 ensures Bit(idx, j) <==> Bit(Mask(letters), j) { MaskBits(letters, j); }
      BitsDetermine(idx, Mask(letters), 5);
      full := full + [ALPHABET[idx]];
    }
  }

  /* ---- surviving case folding ---- */

  /** The position in the alphabet of a checksum character in either case. */
  function Decode(c: char): nat {
    var u := ToUpper(c);
    if IsUpper(u) then (u - 'A') as nat else if '0' <= u <= '5' then (u - '0') as nat + 26 else 0
  }

  /** The 15-character ID behind any case variant of an 18-character one. */
  function Restored(s: string): (id: string)
    requires |s| == 18
    ensures |id| == 15
  {
    seq(15, i requires 0 <= i < 15 => if Bit(Decode(s[15 + i / 5]), i % 5) then ToUpper(s[i]) else ToLower(s[i]))
  }

  lemma AlphabetAt(n: nat)
    requires n < 32
    ensures ALPHABET[n] == if n < 26 then 'A' + n as char else '0' + (n - 26) as char
  {
  }

  lemma DecodeAlphabet(n: nat, c: char)
    requires n < 32 && ToLower(c) == ToLower(ALPHABET[n])
    ensures Decode(c) == n
  {
    AlphabetAt(n);
  }

  /** Each checksum character, in either case, still says which letters of its chunk were upper case. */
  lemma ChecksumReads(id: string, c: nat, check: char, j: nat)
    requires |id| == 15 && c < 3 && j < 5 && ToLower(check) == ToLower(Check(id, c))
    ensures Bit(Decode(check), j) <==> IsUpper(id[c * 5 + j])
  {
    var chunk := id[c * 5..c * 5 + 5];
    assert Pow2(5) == 32;
    DecodeAlphabet(Mask(chunk), check);
    MaskBits(chunk, j);
  }

  lemma LetterReads(letter: char, seen: char)
    requires Alphanumeric(letter) && ToLower(seen) == ToLower(letter)
    ensures (if IsUpper(letter) then ToUpper(seen) else ToLower(seen)) == letter
  {
  }

  lemma FoldAt(s: string, t: string, i: nat)
    requires Fold(s) == Fold(t) && i < |t|
    ensures i < |s| && ToLower(s[i]) == ToLower(t[i])
  {
    assert |s| == |Fold(s)| == |Fold(t)|;
    assert Fold(s)[i] == Fold(t)[i];
  }

  lemma ChunkOf(c: nat, j: nat)
    requires c < 3 && j < 5
    ensures (c * 5 + j) / 5 == c && (c * 5 + j) % 5 == j
  {
  }

  lemma RestoredAt(id: string, s: string, c: nat, j: nat)
    requires |id| == 15 && |s| == 18 && c < 3 && j < 5 && Alphanumeric(id[c * 5 + j])
    requires ToLower(s[15 + c]) == ToLower(Check(id, c)) && ToLower(s[c * 5 + j]) == ToLower(id[c * 5 + j])
    ensures Restored(s)[c * 5 + j] == id[c * 5 + j]
  {
    ChunkOf(c, j);
    ChecksumReads(id, c, s[15 + c], j);
    LetterReads(id[c * 5 + j], s[c * 5 + j]);
  }

  lemma RestoredFrom(id: string, s: string, i: nat)
    requires |id| == 15 && |s| == 18 && i < 15 && Alphanumeric(id[i])
    requires Fold(s) == Fold(Canonical(id))
    ensures Restored(s)[i] == id[i]
  {
    var c, j := i / 5, i % 5;
    assert Canonical(id)[i] == id[i] && Canonical(id)[15 + c] == Check(id, c);
    FoldAt(s, Canonical(id), 15 + c);
    FoldAt(s, Canonical(id), i);
    RestoredAt(id, s, c, j);
  }

  /** From any case variant of the canonical form the original ID is recoverable. */
  lemma SurvivesCaseFolding(id: string, s: string)
    requires |id| == 15 && (forall i :: 0 <= i < 15 ==> Alphanumeric(id[i]))
    requires Fold(s) == Fold(Canonical(id))
    ensures |s| == 18 && Restored(s) == id
  {
    FoldAt(s, Canonical(id), 0);
    assert |s| == |Fold(s)| == 18;
    forall i: nat | i < 15 ensures Restored(s)[i] == id[i] { RestoredFrom(id, s, i); }
  }

  /** So two IDs that differ only by case never become one FGA object, however its name is folded. */
  lemma NeverCollides(a: string, b: string)
    requires |a| == |b| == 15
    requires forall i :: 0 <= i < 15 ==> Alphanumeric(a[i]) && Alphanumeric(b[i])
    requires Fold(Canonical(a)) == Fold(Canonical(b))
    ensures a == b
  {
    SurvivesCaseFolding(a, Canonical(b));
    SurvivesCaseFolding(b, Canonical(b));
  }

  lemma CanonicalTwice(id: string)
    ensures Canonical(Canonical(id)) == Canonical(id)
  {
  }

  /* ---- attributions ---- */

  datatype Kind = Personal | Organization | Project | Unknown

  predicate SfidPattern(s: string) {
    (|s| == 15 || |s| == 18) && forall i :: 0 <= i < |s| ==> Alphanumeric(s[i])
  }

  lemma SfidPatternMeans(s: string)
    ensures SfidPattern(s) <==>
      && (|s| == 15 || |s| == 18)
      && forall i :: 0 <= i < |s| ==> 'a' <= s[i] <= 'z' || 'A' <= s[i] <= 'Z' || '0' <= s[i] <= '9'
  {
  }

  /** uuid.Parse, giving the canonical spelling. */
  type UuidParser = string -> Option<string>

  ghost predicate Stable(parse: UuidParser) {
    forall s :: parse(s).Some? ==> parse(parse(s).value) == parse(s) && parse(s).value != ""
  }

  /** The stored spelling of an entity, or None when Validate refuses it. */
  function Accepted(kind: Kind, uid: string, parse: UuidParser): Option<string> {
    match kind
    case Unknown => None
    case Personal => if uid == "" then Some("") else None
    case Organization => if SfidPattern(uid) then Some(Canonical(uid)) else None
    case Project => if uid == "" then None else parse(uid)
  }

  const MAX_NAME := 255
  const MAX_LOGO_URL := 2048

  /** What url.Parse tells of a URL. */
  datatype Url = Url(scheme: string, host: string)
  type UrlParser = string -> Option<Url>

  /** The display fields may be shown publicly: a short name, and no logo or an https one. */
  predicate Displayable(name: string, logoURL: string, url: UrlParser) {
    |name| <= MAX_NAME && (logoURL != "" ==> Https(url(logoURL)) && |logoURL| <= MAX_LOGO_URL)
  }

  /** It is never asked for more. */
  lemma DisplayableMeans(name: string, logoURL: string, url: UrlParser)
    ensures Displayable(name, logoURL, url) <==>
      |name| <= 255 && (logoURL == "" || (|logoURL| <= 2048 && exists host :: host != "" && url(logoURL) == Some(Url("https", host))))
  {
    if url(logoURL).Some? { assert url(logoURL) == Some(Url(url(logoURL).value.scheme, url(logoURL).value.host)); }
  }

  predicate Https(u: Option<Url>) {
    u.Some? && u.value.scheme == "https" && u.value.host != ""
  }

  /** A name is its runes, a logo URL its bytes. */
  class Attribution {
    var kind: Kind
    var entityUID: string
    var name: string
    var logoURL: string

    constructor (kind: Kind, entityUID: string, name: string, logoURL: string)
      ensures this.kind == kind && this.entityUID == entityUID && this.name == name && this.logoURL == logoURL
    {
      this.kind, this.entityUID, this.name, this.logoURL := kind, entityUID, name, logoURL;
    }

    method Validate(parse: UuidParser, url: UrlParser) returns (ok: bool)
      modifies this
      ensures kind == old(kind)
      ensures ok <==> Accepted(kind, old(entityUID), parse).Some? && (kind.Personal? || Displayable(old(name), old(logoURL), url))
      ensures ok ==> Accepted(kind, old(entityUID), parse) == Some(entityUID)
      // A person has no entity, an organization a Salesforce ID, a project a UUID; and what is
      // shown of the latter two is a short name and no logo or an https one.
      ensures ok && kind.Personal? ==> old(entityUID) == entityUID == ""
      ensures ok && kind.Organization? ==>
        && (|old(entityUID)| == 15 || |old(entityUID)| == 18) && |entityUID| == 18 && entityUID[..15] == old(entityUID)[..15]
        && forall c :: c in old(entityUID) ==> 'a' <= c <= 'z' || 'A' <= c <= 'Z' || '0' <= c <= '9'
      ensures ok && kind.Project? ==> old(entityUID) != "" && parse(old(entityUID)) == Some(entityUID)
      ensures ok && !kind.Personal? ==>
        && |name| <= 255
        && (logoURL != "" ==> |logoURL| <= 2048 && exists u :: url(logoURL) == Some(u) && u.scheme == "https" && u.host != "")
      // Such ones are accepted.
      ensures kind.Personal? && old(entityUID) == "" ==> ok
      ensures kind.Organization? && SfidPattern(old(entityUID)) && Displayable(old(name), old(logoURL), url) ==> ok
      ensures kind.Project? && old(entityUID) != "" && Displayable(old(name), old(logoURL), url) ==>
        (ok <==> parse(old(entityUID)).Some?)
      ensures ok && kind.Personal? ==> name == "" && logoURL == ""
      ensures !(ok && kind.Personal?) ==> name == old(name) && logoURL == old(logoURL)
    {
      if kind.Unknown? { return false; }
      if kind.Personal? {
        if entityUID != "" { return false; }
        name, logoURL := "", "";
        return true;
      }
      if entityUID == "" { return false; }
      if kind.Organization? {
        if !SfidPattern(entityUID) { return false; }
        entityUID := CanonicalSFID(entityUID);
      } else {
        var parsed := parse(entityUID);
        if parsed.None? { return false; }
        entityUID := parsed.value;
      }
      if |name| > MAX_NAME { return false; }
      if logoURL != "" {
        var u := url(logoURL);
        if u.None? || u.value.scheme != "https" || u.value.host == "" || |logoURL| > MAX_LOGO_URL { return false; }
      }
      ok := true;
    }
  }

  /** What Validate stores it accepts again, unchanged, so validating twice is validating once. */
  lemma AcceptedIsStable(kind: Kind, uid: string, parse: UuidParser)
    requires Stable(parse) && Accepted(kind, uid, parse).Some?
    ensures Accepted(kind, Accepted(kind, uid, parse).value, parse) == Accepted(kind, uid, parse)
  {
    if kind.Organization? && |uid| == 15 { CanonicalKeepsPattern(uid); }
  }

  lemma CanonicalKeepsPattern(uid: string)
    requires SfidPattern(uid) && |uid| == 15
    ensures SfidPattern(Canonical(uid)) && |Canonical(uid)| == 18
  {
    CheckIsAlphanumeric(uid, 0);
    CheckIsAlphanumeric(uid, 1);
    CheckIsAlphanumeric(uid, 2);
  }

  lemma CheckIsAlphanumeric(uid: string, c: nat)
    requires |uid| == 15 && c < 3
    ensures Alphanumeric(Check(uid, c))
  {
    AlphabetIsAlphanumeric(Mask(uid[c * 5..c * 5 + 5]));
  }

  lemma AlphabetIsAlphanumeric(n: nat)
    ensures n < Pow2(5) ==> n < 32 && Alphanumeric(ALPHABET[n])
  {
    assert Pow2(5) == 32;
  }

  /** An 18-character form that ends in the checksum of its first 15 characters. */
  ghost predicate RightlySpelled(long: string)
    requires |long| == 18
  {
    forall c: nat :: c < 3 ==> long[15 + c] == Check(long[..15], c)
  }

  lemma RightSpellingAgrees(long: string)
    requires |long| == 18 && RightlySpelled(long)
    ensures Canonical(long[..15]) == long
  {
    var checks := [Check(long[..15], 0), Check(long[..15], 1), Check(long[..15], 2)];
    assert long[15 + 0] == checks[0] && long[15 + 1] == checks[1] && long[15 + 2] == checks[2];
    assert long[15..] == checks;
    assert long == long[..15] + long[15..];
  }

  lemma WrongSpellingDiffers(long: string, c: nat)
    requires |long| == 18 && c < 3 && long[15 + c] != Check(long[..15], c)
    ensures Canonical(long[..15]) != long
  {
    assert Canonical(long[..15])[15 + c] == Check(long[..15], c);
  }

  /** The 15- and 18-character spellings of one record become one entity exactly when the
      18-character one carries the right checksum in upper case; it is taken as it is. */
  lemma SpellingsAgreeIff(long: string)
    requires SfidPattern(long) && |long| == 18
    ensures Canonical(long[..15]) == Canonical(long) <==> RightlySpelled(long)
  {
    if RightlySpelled(long) {
      RightSpellingAgrees(long);
    } else {
      var c: nat :| c < 3 && long[15 + c] != Check(long[..15], c);
      WrongSpellingDiffers(long, c);
    }
  }
}
