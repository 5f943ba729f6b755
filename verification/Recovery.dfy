/** The recovery key: how it is printed, and which inputs are read back as which secret. */
module Recovery {
  import opened Prelude
  import opened Text
  import opened Bits
  import opened Base32

  /** SHA-256, of which only the output length matters here. */
  type Digest = sha: seq<Byte> -> seq<Byte> | forall d :: |sha(d)| == 32 witness d => seq(32, _ => 0)

  const SECRET_LEN: nat := 25

  datatype RecoveryError = InvalidRecoveryKey

  predicate IsLower(c: char) {
    'a' <= c <= 'z'
  }

  predicate IsAlnum(c: char) {
    IsLower(c) || 'A' <= c <= 'Z' || '0' <= c <= '9'
  }

  function ToUpper(c: char): char {
    if IsLower(c) then c - 'a' + 'A' else c
  }

  function NormalizeChar(c: char): char {
    if c == 'O' then '0' else if c == 'I' || c == 'L' then '1' else if c == 'U' then 'V' else c
  }

  function CleanChar(c: char): string {
    if IsAlnum(c) then [NormalizeChar(ToUpper(c))] else []
  }

  /** Separators dropped, case and look-alikes folded. */
  function Clean(input: string): string {
    if input == [] then [] else CleanChar(input[0]) + Clean(input[1..])
  }

  function Checksum(sha: Digest, secret: seq<Byte>): (s: string)
    ensures |s| == 4 && forall c :: c in s ==> IsSymbol(c)
  {
    var digest := sha(secret)[..3];
    EncodedBits(ByteBits(digest));
    Encoded(digest)[..4]
  }

  /** The four symbols of the checksum are the first twenty bits of the digest. */
  lemma ChecksumIs(sha: Digest, secret: seq<Byte>)
    ensures SymbolBits(Checksum(sha, secret)) == ByteBits(sha(secret))[..20]
  {
    hide ByteBits, SymbolBits, Encode, IsSymbol;
    var digest, rest := sha(secret)[..3], sha(secret)[3..];
    var bits, symbols := ByteBits(digest), Encoded(digest);
    assert sha(secret) == digest + rest;
    ByteBitsConcat(digest, rest);
    EncodedBits(bits);
    assert symbols == symbols[..4] + symbols[4..];
    SymbolBitsConcat(symbols[..4], symbols[4..]);
    assert SymbolBits(symbols[..4]) == SymbolBits(symbols)[..20];
  }

  /** `chunks(5)`. */
  function Chunks(s: string): seq<string>
    decreases |s|
  {
    if s == [] then [] else if |s| <= 5 then [s] else [s[..5]] + Chunks(s[5..])
  }

  function Format(sha: Digest, secret: seq<Byte>): string {
    Join(Chunks(Encoded(secret)) + [Checksum(sha, secret)], "-")
  }

  function Parse(sha: Digest, input: string): Result<seq<Byte>, RecoveryError> {
    var cleaned := Clean(input);
    if |cleaned| != 44 then Err(InvalidRecoveryKey)
    else
      match Decoded(cleaned[..40])
      case None => Err(InvalidRecoveryKey)
      case Some(secret) => if Checksum(sha, secret) != cleaned[40..] then Err(InvalidRecoveryKey) else Ok(secret)
  }

  // ------------------------------------------------------------------ what is accepted

  lemma CleanCharIsSymbol(c: char)
    requires IsAlnum(c)
    ensures IsSymbol(NormalizeChar(ToUpper(c)))
  {
  }

  lemma {:induction false} CleanIsSymbols(input: string)
    ensures forall c :: c in Clean(input) ==> IsSymbol(c)
  {
    if input != [] {
      CleanIsSymbols(input[1..]);
      if IsAlnum(input[0]) {
        CleanCharIsSymbol(input[0]);
      }
    }
  }

  /** After cleaning, only the length and the checksum can be wrong: decoding never fails. */
  lemma RejectedOnlyForLengthOrChecksum(sha: Digest, input: string)
    requires |Clean(input)| == 44
    ensures Decoded(Clean(input)[..40]).Some? && |Decoded(Clean(input)[..40]).value| == SECRET_LEN
    ensures Parse(sha, input).Err? <==> Checksum(sha, Decoded(Clean(input)[..40]).value) != Clean(input)[40..]
  {
    hide Checksum, IsSymbol;
    var cleaned := Clean(input);
    CleanIsSymbols(input);
    assert forall c :: c in cleaned[..40] ==> c in cleaned;
    EncodeDecode40(cleaned[..40]);
  }

  lemma EncodedLength(secret: seq<Byte>)
    requires |secret| == SECRET_LEN
    ensures |Encoded(secret)| == 40
  {
    EncodedBits(ByteBits(secret));
  }

  /** Parsing is exactly cleaning, then comparing with the printed symbols of a 25-byte secret. */
  lemma ParseIff(sha: Digest, input: string, secret: seq<Byte>)
    ensures Parse(sha, input) == Ok(secret) <==>
            |secret| == SECRET_LEN && Clean(input) == Encoded(secret) + Checksum(sha, secret)
  {
    hide Clean, Encoded, Decoded, Checksum, IsSymbol;
    var cleaned := Clean(input);
    if Parse(sha, input) == Ok(secret) {
      RejectedOnlyForLengthOrChecksum(sha, input);
      CleanIsSymbols(input);
      assert forall c :: c in cleaned[..40] ==> c in cleaned;
      EncodeDecode40(cleaned[..40]);
      assert cleaned == cleaned[..40] + cleaned[40..];
    }
    if |secret| == SECRET_LEN && cleaned == Encoded(secret) + Checksum(sha, secret) {
      EncodedLength(secret);
      DecodeEncode(secret);
      assert cleaned[..40] == Encoded(secret) && cleaned[40..] == Checksum(sha, secret);
    }
  }

  // ------------------------------------------------------------------ printing and respelling

  lemma {:induction false} CleanConcat(a: string, b: string)
    ensures Clean(a + b) == Clean(a) + Clean(b)
  {
    hide CleanChar;
    if a == [] {
      assert a + b == b;
      assert Clean(a) + Clean(b) == Clean(b);
    } else {
      var t := a + b;
      assert t[0] == a[0] && t[1..] == a[1..] + b;
      CleanConcat(a[1..], b);
      assert CleanChar(a[0]) + (Clean(a[1..]) + Clean(b)) == CleanChar(a[0]) + Clean(a[1..]) + Clean(b);
    }
  }

  lemma CleanSymbol(c: char)
    requires IsSymbol(c)
    ensures Clean([c]) == [c]
  {
    var i :| 0 <= i < |ALPHABET| && ALPHABET[i] == c;
    assert c != 'O' && c != 'I' && c != 'L' && c != 'U' && IsAlnum(c) && !IsLower(c);
    assert [c][1..] == [];
  }

  lemma {:induction false} CleanSymbols(s: string)
    requires forall c :: c in s ==> IsSymbol(c)
    ensures Clean(s) == s
  {
    hide IsSymbol;
    if s != [] {
      CleanSymbols(s[1..]);
      assert s == [s[0]] + s[1..];
      assert s[0] in s;
      CleanSymbol(s[0]);
      CleanConcat([s[0]], s[1..]);
    }
  }

  function Concat(parts: seq<string>): string {
    if parts == [] then "" else parts[0] + Concat(parts[1..])
  }

  lemma {:induction false} CleanJoin(parts: seq<string>)
    requires forall p, c :: p in parts && c in p ==> IsSymbol(c)
    ensures Clean(Join(parts, "-")) == Concat(parts)
  {
    hide IsSymbol;
    if parts != [] {
      assert parts[0] in parts;
      CleanSymbols(parts[0]);
      if |parts| == 1 {
        assert Concat(parts[1..]) == "" && parts[0] + "" == parts[0];
      } else {
        CleanJoin(parts[1..]);
        CleanConcat(parts[0] + "-", Join(parts[1..], "-"));
        CleanConcat(parts[0], "-");
        assert Clean("-") == "" by { assert "-"[1..] == ""; }
        assert parts[0] + "" == parts[0];
      }
    }
  }

  lemma {:induction false} ConcatAppend(parts: seq<string>, tail: string)
    ensures Concat(parts + [tail]) == Concat(parts) + tail
  {
    if parts == [] {
      assert parts + [tail] == [tail] && [tail][1..] == [];
      assert Concat([tail]) == tail + "" == tail;
    } else {
      assert (parts + [tail])[1..] == parts[1..] + [tail];
      ConcatAppend(parts[1..], tail);
      assert parts[0] + (Concat(parts[1..]) + tail) == parts[0] + Concat(parts[1..]) + tail;
    }
  }

  lemma {:induction false} ConcatChunks(s: string)
    ensures Concat(Chunks(s)) == s
    decreases |s|
  {
    if s == [] {
    } else if |s| <= 5 {
      assert [s][1..] == [] && s + "" == s;
    } else {
      ConcatChunks(s[5..]);
      assert Chunks(s)[1..] == Chunks(s[5..]);
      assert s[..5] + s[5..] == s;
    }
  }

  lemma {:induction false} ChunksChars(s: string, p: string, c: char)
    requires p in Chunks(s) && c in p
    ensures c in s
    decreases |s|
  {
    if |s| > 5 && p != s[..5] {
      ChunksChars(s[5..], p, c);
    }
  }

  /** The printed key cleans to the secret's symbols followed by the checksum. */
  lemma CleanFormat(sha: Digest, secret: seq<Byte>)
    ensures Clean(Format(sha, secret)) == Encoded(secret) + Checksum(sha, secret)
  {
    hide Clean, Encoded, Checksum, IsSymbol, Chunks;
    var body, check := Encoded(secret), Checksum(sha, secret);
    ConcatChunks(body);
    ConcatAppend(Chunks(body), check);
    var parts := Chunks(body) + [check];
    forall p, c | p in parts && c in p ensures IsSymbol(c) {
      if p in Chunks(body) {
        ChunksChars(body, p, c);
      }
    }
    CleanJoin(parts);
  }

  /** Ways in which a user's copy may differ from the printed key. */
  datatype Edit = Insert(at: nat, c: char) | Remove(at: nat) | Respell(at: nat, c: char)

  /** Same character, same letter in the other case (which in ASCII is 32 away), or the same look-alike group. */
  predicate Alike(c: char, d: char) {
    || c == d || IsRecased(c, d) || IsRecased(d, c)
    || (c in {'O', 'o', '0'} && d in {'O', 'o', '0'})
    || (c in {'I', 'i', 'L', 'l', '1'} && d in {'I', 'i', 'L', 'l', '1'})
    || (c in {'U', 'u', 'V', 'v'} && d in {'U', 'u', 'V', 'v'})
  }

  predicate IsRecased(lower: char, upper: char) {
    97 <= lower as int <= 122 && upper as int == lower as int - 32
  }

  /** Separators come and go; letters and digits change only within their group. */
  predicate Harmless(text: string, e: Edit) {
    match e
    case Insert(at, c) => at <= |text| && !IsAsciiAlphanumeric(c)
    case Remove(at) => at < |text| && !IsAsciiAlphanumeric(text[at])
    case Respell(at, c) => at < |text| && IsAsciiAlphanumeric(text[at]) && Alike(text[at], c)
  }

  function Apply(text: string, e: Edit): string
    requires Harmless(text, e)
  {
    match e
    case Insert(at, c) => text[..at] + [c] + text[at..]
    case Remove(at) => text[..at] + text[at + 1..]
    case Respell(at, c) => text[..at] + [c] + text[at + 1..]
  }

  /** Apply the edits that are harmless where they are made; the others are skipped. */
  function ApplyAll(text: string, edits: seq<Edit>): string
    decreases |edits|
  {
    if edits == [] then text
    else ApplyAll(if Harmless(text, edits[0]) then Apply(text, edits[0]) else text, edits[1..])
  }

  lemma CleanParts(a: string, b: string, c: string)
    ensures Clean(a + b + c) == Clean(a) + Clean(b) + Clean(c)
  {
    hide Clean;
    CleanConcat(a + b, c);
    CleanConcat(a, b);
  }

  lemma AlikeClean(c: char, d: char)
    requires IsAsciiAlphanumeric(c) && Alike(c, d)
    ensures Clean([c]) == Clean([d])
  {
    assert [c][1..] == [] && [d][1..] == [];
  }

  /** Nothing else is folded: two letters or digits are cleaned to the same symbol only if they are alike. */
  lemma AlikeIff(c: char, d: char)
    requires IsAsciiAlphanumeric(c) && IsAsciiAlphanumeric(d)
    ensures Clean([c]) == Clean([d]) <==> Alike(c, d)
  {
    hide Alike, NormalizeChar, ToUpper, IsAsciiAlphanumeric;
    CleanOne(c);
    CleanOne(d);
    FoldedIff(c, d);
  }

  lemma CleanOne(c: char)
    requires IsAsciiAlphanumeric(c)
    ensures Clean([c]) == [NormalizeChar(ToUpper(c))]
  {
    assert [c][1..] == [];
  }

  lemma UpperIs(c: char)
    requires IsAsciiAlphanumeric(c)
    ensures ToUpper(c) as int == if c as int >= 97 then c as int - 32 else c as int
  {
  }

  lemma FoldedIff(c: char, d: char)
    requires IsAsciiAlphanumeric(c) && IsAsciiAlphanumeric(d)
    ensures NormalizeChar(ToUpper(c)) == NormalizeChar(ToUpper(d)) <==> Alike(c, d)
  {
    hide ToUpper;
    UpperIs(c);
    UpperIs(d);
  }

  lemma SeparatorClean(c: char)
    requires !IsAsciiAlphanumeric(c)
    ensures Clean([c]) == []
  {
    assert [c][1..] == [];
  }

  lemma EditKeepsClean(text: string, e: Edit)
    requires Harmless(text, e)
    ensures Clean(Apply(text, e)) == Clean(text)
  {
    hide Clean, Alike, IsAsciiAlphanumeric;
    var at := e.at;
    match e {
      case Insert(_, c) =>
        SeparatorClean(c);
        CleanParts(text[..at], [c], text[at..]);
        CleanConcat(text[..at], text[at..]);
        assert text[..at] + text[at..] == text;
        assert Clean(text[..at]) + [] == Clean(text[..at]);
      case Remove(_) =>
        SeparatorClean(text[at]);
        CleanParts(text[..at], [text[at]], text[at + 1..]);
        CleanConcat(text[..at], text[at + 1..]);
        assert text[..at] + [text[at]] + text[at + 1..] == text;
        assert Clean(text[..at]) + [] == Clean(text[..at]);
      case Respell(_, c) =>
        AlikeClean(text[at], c);
        CleanParts(text[..at], [text[at]], text[at + 1..]);
        CleanParts(text[..at], [c], text[at + 1..]);
        assert text[..at] + [text[at]] + text[at + 1..] == text;
    }
  }

  lemma {:induction false} EditsKeepClean(text: string, edits: seq<Edit>)
    ensures Clean(ApplyAll(text, edits)) == Clean(text)
    decreases |edits|
  {
    hide Clean, Apply, Harmless;
    if edits != [] {
      if Harmless(text, edits[0]) {
        EditKeepsClean(text, edits[0]);
      }
      EditsKeepClean(if Harmless(text, edits[0]) then Apply(text, edits[0]) else text, edits[1..]);
    }
  }

  /** Every respelling of the printed key of a 25-byte secret is read back as that secret. */
  lemma RespellingsParse(sha: Digest, secret: seq<Byte>, edits: seq<Edit>)
    requires |secret| == SECRET_LEN
    ensures Parse(sha, ApplyAll(Format(sha, secret), edits)) == Ok(secret)
  {
    hide Clean, Format, ApplyAll, Parse;
    CleanFormat(sha, secret);
    EditsKeepClean(Format(sha, secret), edits);
    ParseIff(sha, ApplyAll(Format(sha, secret), edits), secret);
  }

  lemma {:induction false} ChunksLength(s: string)
    requires |s| % 5 == 0
    ensures |Chunks(s)| == |s| / 5 && forall i :: 0 <= i < |Chunks(s)| ==> |Chunks(s)[i]| == 5
    decreases |s|
  {
    if |s| > 5 {
      ChunksLength(s[5..]);
    }
  }

  lemma {:induction false} JoinFives(parts: seq<string>, last: string)
    requires forall i :: 0 <= i < |parts| ==> |parts[i]| == 5
    requires forall p, c :: p in parts && c in p ==> IsSymbol(c)
    requires forall c :: c in last ==> IsSymbol(c)
    ensures var text := Join(parts + [last], "-");
            && |text| == 6 * |parts| + |last|
            && forall i :: 0 <= i < |text| ==> (text[i] == '-' <==> i < 6 * |parts| && i % 6 == 5)
  {
    hide IsSymbol;
    NoDash();
    if parts == [] {
      assert parts + [last] == [last];
    } else {
      assert parts[0] in parts;
      JoinFives(parts[1..], last);
      assert (parts + [last])[1..] == parts[1..] + [last];
      var rest := Join(parts[1..] + [last], "-");
      var text := Join(parts + [last], "-");
      assert text == parts[0] + "-" + rest;
      forall i | 0 <= i < |text| ensures text[i] == '-' <==> i < 6 * |parts| && i % 6 == 5 {
        if i < 5 {
          assert text[i] == parts[0][i] && parts[0][i] in parts[0];
        } else if i > 5 {
          assert text[i] == rest[i - 6];
        }
      }
    }
  }

  lemma NoDash()
    ensures !IsSymbol('-')
  {
  }

  /** A printed key is eight groups of five and one of four, with a hyphen between any two. */
  lemma FormatLooks(sha: Digest, secret: seq<Byte>)
    requires |secret| == SECRET_LEN
    ensures var text := Format(sha, secret);
            |text| == 52 && forall i :: 0 <= i < 52 ==> (text[i] == '-' <==> i % 6 == 5)
  {
    hide Encoded, Checksum, IsSymbol, Chunks, Join;
    var body := Encoded(secret);
    EncodedLength(secret);
    ChunksLength(body);
    forall p, c | p in Chunks(body) && c in p ensures IsSymbol(c) {
      ChunksChars(body, p, c);
    }
    JoinFives(Chunks(body), Checksum(sha, secret));
  }
}
