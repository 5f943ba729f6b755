/** Crockford base32 over a truncating 32-bit accumulator, and the bit strings it stands for. */
module Base32 {
  import opened Prelude
  import opened Bits

  const ALPHABET: string := "0123456789ABCDEFGHJKMNPQRSTVWXYZ"

  predicate IsSymbol(c: char) {
    c in ALPHABET
  }

  /** The first index of `c` in `s`. */
  function IndexIn(s: string, c: char): Option<nat> {
    if s == [] then None
    else if s[0] == c then Some(0)
    else
      match IndexIn(s[1..], c)
      case None => None
      case Some(k) => Some(k + 1)
  }

  /** `ALPHABET.iter().position(..)`. */
  function Index(c: char): Option<nat> {
    IndexIn(ALPHABET, c)
  }

  lemma {:induction false} IndexInIs(s: string, c: char)
    ensures match IndexIn(s, c)
            case None => c !in s
            case Some(k) => k < |s| && s[k] == c
  {
    if s != [] {
      IndexInIs(s[1..], c);
    }
  }

  lemma IndexIs(c: char)
    ensures Index(c).Some? <==> IsSymbol(c)
    ensures Index(c).Some? ==> Index(c).value < 32 && ALPHABET[Index(c).value] == c
  {
    hide IndexIn;
    IndexInIs(ALPHABET, c);
  }

  lemma AlphabetDistinct(i: nat)
    requires i < 32
    ensures Index(ALPHABET[i]) == Some(i)
  {
    hide Index;
    IndexIs(ALPHABET[i]);
    assert ALPHABET[i] in ALPHABET;
    DistinctSymbols(Index(ALPHABET[i]).value, i);
  }

  /** The alphabet is in increasing order. */
  lemma AlphabetIncreases(i: nat)
    requires i < 31
    ensures ALPHABET[i] < ALPHABET[i + 1]
  {
  }

  lemma {:induction false} Increasing(i: nat, j: nat)
    requires i < j < 32
    ensures ALPHABET[i] < ALPHABET[j]
    decreases j - i
  {
    AlphabetIncreases(j - 1);
    if i + 1 < j {
      Increasing(i, j - 1);
    }
  }

  lemma DistinctSymbols(i: nat, j: nat)
    requires i < 32 && j < 32 && ALPHABET[i] == ALPHABET[j]
    ensures i == j
  {
    if i < j {
      Increasing(i, j);
    } else if j < i {
      Increasing(j, i);
    }
  }

  // ------------------------------------------------------------------ the bits of bytes and of symbols

  function ByteBits(data: seq<Byte>): (r: seq<bool>)
    ensures |r| == 8 * |data|
  {
    if data == [] then [] else LowBits(data[0], 8) + ByteBits(data[1..])
  }

  function SymbolBits(s: string): (r: seq<bool>)
    requires forall c :: c in s ==> IsSymbol(c)
    ensures |r| == 5 * |s|
  {
    if s == [] then []
    else
      IndexIs(s[0]);
      LowBits(Index(s[0]).value, 5) + SymbolBits(s[1..])
  }

  function Symbol(bits: seq<bool>): (c: char)
    requires |bits| == 5
    ensures IsSymbol(c)
  {
    ValueBound(bits);
    Pow2Values();
    ALPHABET[Value(bits)]
  }

  /** Five bits to a symbol, the last group filled up with zeros. */
  function Encode(bits: seq<bool>): (s: string)
    ensures forall c :: c in s ==> IsSymbol(c)
    decreases |bits|
  {
    if bits == [] then []
    else if |bits| < 5 then [Symbol(bits + Zeros(5 - |bits|))]
    else [Symbol(bits[..5])] + Encode(bits[5..])
  }

  /** Eight bits to a byte, the last incomplete group dropped. */
  function Decode(bits: seq<bool>): (d: seq<Byte>)
    ensures |d| == |bits| / 8
    decreases |bits|
  {
    if |bits| < 8 then []
    else
      ValueBound(bits[..8]);
      Pow2Values();
      [Value(bits[..8])] + Decode(bits[8..])
  }

  lemma Associative(a: seq<bool>, b: seq<bool>, c: seq<bool>)
    ensures a + (b + c) == a + b + c
  {
  }

  lemma {:induction false} ByteBitsConcat(a: seq<Byte>, b: seq<Byte>)
    ensures ByteBits(a + b) == ByteBits(a) + ByteBits(b)
  {
    if a == [] {
      assert a + b == b;
    } else {
      assert (a + b)[1..] == a[1..] + b;
      ByteBitsConcat(a[1..], b);
    }
  }

  lemma {:induction false} SymbolBitsConcat(a: string, b: string)
    requires forall c :: c in a + b ==> IsSymbol(c)
    ensures forall c :: c in a ==> IsSymbol(c)
    ensures forall c :: c in b ==> IsSymbol(c)
    ensures SymbolBits(a + b) == SymbolBits(a) + SymbolBits(b)
  {
    hide LowBits, Index, IsSymbol;
    assert forall c :: c in a ==> c in a + b;
    assert forall c :: c in b ==> c in a + b;
    if a == [] {
      assert a + b == b;
      assert SymbolBits(a) + SymbolBits(b) == SymbolBits(b);
    } else {
      assert (a + b)[0] == a[0] && (a + b)[1..] == a[1..] + b;
      SymbolBitsConcat(a[1..], b);
      IndexIs(a[0]);
      Associative(LowBits(Index(a[0]).value, 5), SymbolBits(a[1..]), SymbolBits(b));
    }
  }

  lemma SymbolOf(bits: seq<bool>)
    requires |bits| == 5
    ensures SymbolBits([Symbol(bits)]) == bits
    ensures Index(Symbol(bits)) == Some(Value(bits))
  {
    ValueBound(bits);
    Pow2Values();
    AlphabetDistinct(Value(bits));
    LowBitsValue(bits);
    assert [Symbol(bits)][1..] == [];
  }

  /** Encoding keeps every bit and adds fewer than five zeros. */
  lemma {:induction false} EncodedBits(bits: seq<bool>)
    ensures |bits| <= 5 * |Encode(bits)| < |bits| + 5
    ensures SymbolBits(Encode(bits)) == bits + Zeros(5 * |Encode(bits)| - |bits|)
    decreases |bits|
  {
    hide Symbol, LowBits, Index, IsSymbol;
    if bits == [] {
    } else if |bits| < 5 {
      SymbolOf(bits + Zeros(5 - |bits|));
    } else {
      SymbolOf(bits[..5]);
      EncodedBits(bits[5..]);
      var head, rest := [Symbol(bits[..5])], Encode(bits[5..]);
      SymbolBitsConcat(head, rest);
      Associative(bits[..5], bits[5..], Zeros(5 * |rest| - |bits[5..]|));
      assert bits == bits[..5] + bits[5..];
    }
  }

  /** Complete bytes are read back whatever fewer than eight bits follow. */
  lemma {:induction false} DecodeBytes(data: seq<Byte>, tail: seq<bool>)
    requires |tail| < 8
    ensures Decode(ByteBits(data) + tail) == data
  {
    if data == [] {
      assert ByteBits(data) + tail == tail;
    } else {
      var bits := ByteBits(data) + tail;
      Pow2Values();
      ValueLowBits(data[0], 8);
      assert bits[..8] == LowBits(data[0], 8);
      assert bits[8..] == ByteBits(data[1..]) + tail;
      DecodeBytes(data[1..], tail);
    }
  }

  lemma {:induction false} DecodedBits(bits: seq<bool>)
    ensures ByteBits(Decode(bits)) == bits[..8 * (|bits| / 8)]
    decreases |bits|
  {
    if |bits| >= 8 {
      DecodedBits(bits[8..]);
      LowBitsValue(bits[..8]);
      var d := Decode(bits);
      assert d[1..] == Decode(bits[8..]);
      assert bits[..8 * (|bits| / 8)] == bits[..8] + bits[8..][..8 * (|bits[8..]| / 8)];
    }
  }

  lemma {:induction false} SymbolBitsInjective(a: string, b: string)
    requires forall c :: c in a ==> IsSymbol(c)
    requires forall c :: c in b ==> IsSymbol(c)
    requires SymbolBits(a) == SymbolBits(b)
    ensures a == b
  {
    assert |a| == |b|;
    if a != [] {
      IndexIs(a[0]);
      IndexIs(b[0]);
      Pow2Values();
      assert SymbolBits(a)[..5] == LowBits(Index(a[0]).value, 5);
      assert SymbolBits(b)[..5] == LowBits(Index(b[0]).value, 5);
      ValueLowBits(Index(a[0]).value, 5);
      ValueLowBits(Index(b[0]).value, 5);
      assert SymbolBits(a)[5..] == SymbolBits(a[1..]);
      assert SymbolBits(b)[5..] == SymbolBits(b[1..]);
      SymbolBitsInjective(a[1..], b[1..]);
      assert a == [a[0]] + a[1..] && b == [b[0]] + b[1..];
    }
  }

  // ------------------------------------------------------------------ the codec

  function Encoded(data: seq<Byte>): (s: string)
    ensures forall c :: c in s ==> IsSymbol(c)
  {
    Encode(ByteBits(data))
  }

  /** `None` exactly when a character is outside the alphabet. */
  function Decoded(s: string): Option<seq<Byte>> {
    if forall c :: c in s ==> IsSymbol(c) then Some(Decode(SymbolBits(s))) else None
  }

  /** Every byte string of every length survives encoding. */
  lemma DecodeEncode(data: seq<Byte>)
    ensures Decoded(Encoded(data)) == Some(data)
  {
    var bits := ByteBits(data);
    EncodedBits(bits);
    DecodeBytes(data, Zeros(5 * |Encode(bits)| - |bits|));
  }

  /** A symbol string is what its decoding encodes to exactly when the bits decoding drops are
      fewer than five and all zero. */
  lemma EncodeDecode(s: string)
    requires forall c :: c in s ==> IsSymbol(c)
    ensures var bits := SymbolBits(s);
            var whole := 8 * (|bits| / 8);
            Encoded(Decoded(s).value) == s <==> |bits| - whole < 5 && bits[whole..] == Zeros(|bits| - whole)
  {
    hide Encode, SymbolBits, Decode, ByteBits, IsSymbol;
    var bits := SymbolBits(s);
    var whole := 8 * (|bits| / 8);
    DecodedBits(bits);
    var kept, dropped := bits[..whole], bits[whole..];
    assert bits == kept + dropped;
    var again := Encode(kept);
    EncodedBits(kept);
    if again == s {
      assert SymbolBits(again) == kept + Zeros(|dropped|);
      assert dropped == (kept + dropped)[whole..] == (kept + Zeros(|dropped|))[whole..] == Zeros(|dropped|);
    }
    if |dropped| < 5 && dropped == Zeros(|dropped|) {
      assert 5 * |again| == |bits|;
      SymbolBitsInjective(again, s);
    }
  }

  /** In particular every 40-symbol string, since 200 bits are whole bytes. */
  lemma EncodeDecode40(s: string)
    requires |s| == 40 && forall c :: c in s ==> IsSymbol(c)
    ensures Encoded(Decoded(s).value) == s && |Decoded(s).value| == 25
  {
    hide SymbolBits, Encode, Decode, ByteBits, IsSymbol;
    EncodeDecode(s);
    assert SymbolBits(s)[200..] == Zeros(0);
    DecodedBits(SymbolBits(s));
  }

  lemma EncodeStep(head: seq<bool>, rest: seq<bool>)
    requires |head| == 5
    ensures Encode(head + rest) == [Symbol(head)] + Encode(rest)
  {
    hide Symbol;
    assert (head + rest)[..5] == head && (head + rest)[5..] == rest;
  }

  lemma SymbolAgain(c: char)
    requires IsSymbol(c)
    ensures Index(c).Some?
    ensures Symbol(LowBits(Index(c).value, 5)) == c
  {
    IndexIs(c);
    Pow2Values();
    ValueLowBits(Index(c).value, 5);
  }

  lemma {:induction false} EncodeAfter(s: string, tail: seq<bool>)
    requires forall c :: c in s ==> IsSymbol(c)
    ensures Encode(SymbolBits(s) + tail) == s + Encode(tail)
  {
    hide Index, LowBits, Symbol, Encode, IsSymbol;
    if s == [] {
      assert SymbolBits(s) + tail == tail;
      assert s + Encode(tail) == Encode(tail);
    } else {
      var c, rest := s[0], s[1..];
      assert c in s;
      assert forall d :: d in rest ==> d in s;
      SymbolAgain(c);
      var head := LowBits(Index(c).value, 5);
      Associative(head, SymbolBits(rest), tail);
      EncodeStep(head, SymbolBits(rest) + tail);
      EncodeAfter(rest, tail);
      PrependSymbol(c, rest, Encode(tail));
      assert s == [c] + rest;
    }
  }

  lemma PrependSymbol(c: char, s: string, t: string)
    ensures [c] + (s + t) == [c] + s + t
  {
  }

  /** Placing bits below others in an empty low part: `|` is `+` there. */
  lemma PadBits(buffer: nat, bits: nat)
    requires 0 < bits < 5
    ensures Shl(buffer, 5 - bits) % 32 < 32
    ensures Value(LowBits(buffer, bits) + Zeros(5 - bits)) == Shl(buffer, 5 - bits) % 32
  {
    var n := 5 - bits;
    Pow2Values();
    ShiftIn(buffer, 0, bits, n);
    ZeroBits(n);
    LowBitsMask(Shl(buffer, n));
    ValueLowBits(Shl(buffer, n) % 32, 5);
  }

  lemma {:induction false} ZeroBits(n: nat)
    ensures LowBits(0, n) == Zeros(n)
  {
    if n > 0 {
      ZeroBits(n - 1);
    }
  }

  lemma OneSymbol(v: nat)
    requires v < 32
    ensures IsSymbol(ALPHABET[v]) && SymbolBits([ALPHABET[v]]) == LowBits(v, 5)
  {
    AlphabetDistinct(v);
    assert IsSymbol(ALPHABET[v]);
    assert [ALPHABET[v]][1..] == [];
  }

  lemma EmitSymbol(out: string, buffer: nat, bits: nat)
    requires forall c :: c in out ==> IsSymbol(c)
    ensures Shr(buffer, bits) % 32 < 32
    ensures var c := ALPHABET[Shr(buffer, bits) % 32];
            && (forall d :: d in out + [c] ==> IsSymbol(d))
            && SymbolBits(out) + LowBits(buffer, bits + 5) == SymbolBits(out + [c]) + LowBits(buffer, bits)
  {
    var v := Shr(buffer, bits) % 32;
    var c := ALPHABET[v];
    Pow2Values();
    hide Shr, LowBits, SymbolBits, Index;
    ShiftOut(buffer, bits, 5);
    LowBitsMask(Shr(buffer, bits));
    OneSymbol(v);
    SymbolBitsConcat(out, [c]);
    Associative(SymbolBits(out), LowBits(v, 5), LowBits(buffer, bits));
  }

  /** The encoder's loop: the symbols so far and the low `bits` bits of the accumulator are the bits read. */
  method Base32Encode(data: seq<Byte>) returns (out: string)
    ensures out == Encoded(data)
  {
    hide Shl, Shr, SymbolBits, Encode, ByteBits, LowBits, IsSymbol, Pow2;
    Pow2Values();
    out := "";
    var buffer: nat := 0;
    var bits: nat := 0;
    EmptyBits();
    for i := 0 to |data|
      invariant bits < 5
      invariant forall c :: c in out ==> IsSymbol(c)
      invariant SymbolBits(out) + LowBits(buffer, bits) == ByteBits(data[..i])
    {
      ShiftIn(buffer, data[i], bits, 8);
      AppendByte(data, i);
      Associative(SymbolBits(out), LowBits(buffer, bits), LowBits(data[i], 8));
      buffer := Shl(buffer, 8) + data[i];
      bits := bits + 8;
      while bits >= 5
        invariant bits <= 12
        invariant forall c :: c in out ==> IsSymbol(c)
        invariant SymbolBits(out) + LowBits(buffer, bits) == ByteBits(data[..i + 1])
      {
        bits := bits - 5;
        EmitSymbol(out, buffer, bits);
        out := out + [ALPHABET[Shr(buffer, bits) % 32]];
      }
    }
    assert data[..|data|] == data;
    EncodeAfter(out, LowBits(buffer, bits));
    if bits > 0 {
      PadBits(buffer, bits);
      LastSymbol(LowBits(buffer, bits));
      out := out + [ALPHABET[Shl(buffer, 5 - bits) % 32]];
    } else {
      NoSymbol();
      assert out + [] == out;
    }
  }

  lemma EmptyBits()
    ensures SymbolBits("") == [] && ByteBits([]) == [] && LowBits(0, 0) == []
  {
  }

  lemma NoSymbol()
    ensures Encode([]) == []
  {
  }

  lemma LastSymbol(bits: seq<bool>)
    requires 0 < |bits| < 5
    ensures Value(bits + Zeros(5 - |bits|)) < 32
    ensures Encode(bits) == [ALPHABET[Value(bits + Zeros(5 - |bits|))]]
  {
    ValueBound(bits + Zeros(5 - |bits|));
    Pow2Values();
  }

  lemma AppendByte(data: seq<Byte>, i: nat)
    requires i < |data|
    ensures ByteBits(data[..i + 1]) == ByteBits(data[..i]) + LowBits(data[i], 8)
  {
    LastByte(data[..i], data[i]);
    assert data[..i + 1] == data[..i] + [data[i]];
  }

  lemma AppendSymbol(s: string, i: nat)
    requires i < |s| && forall c :: c in s[..i + 1] ==> IsSymbol(c)
    ensures forall c :: c in s[..i] ==> IsSymbol(c)
    ensures Index(s[i]).Some?
    ensures SymbolBits(s[..i + 1]) == SymbolBits(s[..i]) + LowBits(Index(s[i]).value, 5)
  {
    assert s[..i + 1] == s[..i] + [s[i]];
    SymbolBitsConcat(s[..i], [s[i]]);
    IndexIs(s[i]);
    assert [s[i]][1..] == [];
  }

  lemma LastByte(out: seq<Byte>, b: Byte)
    ensures ByteBits(out + [b]) == ByteBits(out) + LowBits(b, 8)
  {
    ByteBitsConcat(out, [b]);
    assert [b][1..] == [];
  }

  lemma EmitByte(out: seq<Byte>, buffer: nat, bits: nat)
    ensures var b := Shr(buffer, bits) % 256;
            ByteBits(out) + LowBits(buffer, bits + 8) == ByteBits(out + [b]) + LowBits(buffer, bits)
  {
    var b := Shr(buffer, bits) % 256;
    Pow2Values();
    hide Shr, LowBits, ByteBits;
    ShiftOut(buffer, bits, 8);
    LowBitsMask(Shr(buffer, bits));
    LastByte(out, b);
    Associative(ByteBits(out), LowBits(b, 8), LowBits(buffer, bits));
  }

  /** The decoder's loop, the other way round. */
  method Base32Decode(s: string) returns (r: Option<seq<Byte>>)
    ensures r == Decoded(s)
  {
    hide Shl, Shr, SymbolBits, ByteBits, Decode, Index, IsSymbol, LowBits, Pow2;
    Pow2Values();
    var out: seq<Byte> := [];
    var buffer: nat := 0;
    var bits: nat := 0;
    EmptyBits();
    for i := 0 to |s|
      invariant bits < 8
      invariant forall c :: c in s[..i] ==> IsSymbol(c)
      invariant ByteBits(out) + LowBits(buffer, bits) == SymbolBits(s[..i])
    {
      var val := Index(s[i]);
      IndexIs(s[i]);
      if val.None? {
        assert s[i] in s;
        return None;
      }
      assert s[..i + 1] == s[..i] + [s[i]];
      AppendSymbol(s, i);
      ShiftIn(buffer, val.value, bits, 5);
      Associative(ByteBits(out), LowBits(buffer, bits), LowBits(val.value, 5));
      buffer := Shl(buffer, 5) + val.value;
      bits := bits + 5;
      if bits >= 8 {
        bits := bits - 8;
        EmitByte(out, buffer, bits);
        out := out + [Shr(buffer, bits) % 256];
      }
    }
    assert s[..|s|] == s;
    DecodeBytes(out, LowBits(buffer, bits));
    return Some(out);
  }
}
