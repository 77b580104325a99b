/** The base64 text of section 4 of RFC 4648, which carries a shard inside a reply. */
module Base64 {
  import opened Hashing
  import opened Outcomes

  type Sextet = n: int | 0 <= n < 64

  function Symbol(v: Sextet): char {
    if v < 26 then 'A' + v as char
    else if v < 52 then 'a' + (v - 26) as char
    else if v < 62 then '0' + (v - 52) as char
    else if v == 62 then '+' else '/'
  }

  function Value(c: char): Option<Sextet> {
    if 'A' <= c <= 'Z' then Some((c - 'A') as int)
    else if 'a' <= c <= 'z' then Some((c - 'a') as int + 26)
    else if '0' <= c <= '9' then Some((c - '0') as int + 52)
    else if c == '+' then Some(62)
    else if c == '/' then Some(63)
    else None
  }

  const PAD := '='

  function Quad(a: Byte, b: Byte, c: Byte): (q: string)
    ensures |q| == 4
  {
    [Symbol(a / 4), Symbol(a % 4 * 16 + b / 16), Symbol(b % 16 * 4 + c / 64), Symbol(c % 64)]
  }

  function Encode(data: Bytes): string {
    if data == [] then ""
    else if |data| == 1 then Quad(data[0], 0, 0)[..2] + [PAD, PAD]
    else if |data| == 2 then Quad(data[0], data[1], 0)[..3] + [PAD]
    else Quad(data[0], data[1], data[2]) + Encode(data[3..])
  }

  /** The three bytes of four symbols. */
  function Triple(q: string): Option<Bytes>
    requires |q| == 4
  {
    match (Value(q[0]), Value(q[1]), Value(q[2]), Value(q[3]))
    case (Some(w), Some(x), Some(y), Some(z)) =>
      Some([(w as int) * 4 + x / 16, (x as int) % 16 * 16 + y / 4, (y as int) % 4 * 64 + z])
    case _ => None
  }

  /** Groups of four symbols; padding only in the last one, at its end. */
  function Decode(text: string): Option<Bytes> {
    if text == "" then Some([])
    else if |text| < 4 then None
    else if |text| == 4 && text[3] == PAD then
      if text[2] == PAD then Cut(Triple([text[0], text[1], 'A', 'A']), 1)
      else Cut(Triple([text[0], text[1], text[2], 'A']), 2)
    else match (Triple(text[..4]), Decode(text[4..]))
         case (Some(head), Some(tail)) => Some(head + tail)
         case _ => None
  }

  function Cut(r: Option<Bytes>, n: nat): Option<Bytes> {
    if r.Some? && n <= |r.value| then Some(r.value[..n]) else None
  }

  lemma SymbolHasValue(v: Sextet)
    ensures Value(Symbol(v)) == Some(v) && Symbol(v) != PAD
  {
  }

  lemma QuadIsTriple(a: Byte, b: Byte, c: Byte)
    ensures Triple(Quad(a, b, c)) == Some([a, b, c])
    ensures Quad(a, b, c)[2] != PAD && Quad(a, b, c)[3] != PAD
  {
    hide Symbol, Value;
    SymbolHasValue(a / 4);
    SymbolHasValue(a % 4 * 16 + b / 16);
    SymbolHasValue(b % 16 * 4 + c / 64);
    SymbolHasValue(c % 64);
    SextetsSpell(a, b, c);
  }

  lemma SextetsSpell(a: int, b: int, c: int)
    requires 0 <= a && 0 <= b < 256 && 0 <= c < 256
    ensures a / 4 * 4 + (a % 4 * 16 + b / 16) / 16 == a
    ensures (a % 4 * 16 + b / 16) % 16 * 16 + (b % 16 * 4 + c / 64) / 4 == b
    ensures (b % 16 * 4 + c / 64) % 4 * 64 + c % 64 == c
  {
    assert (a % 4 * 16 + b / 16) / 16 == a % 4 && (a % 4 * 16 + b / 16) % 16 == b / 16;
    assert (b % 16 * 4 + c / 64) / 4 == b % 16 && (b % 16 * 4 + c / 64) % 4 == c / 64;
  }

  lemma ZeroSymbol()
    ensures Symbol(0) == 'A'
  {
  }

  lemma OneByte(a: Byte)
    ensures Decode(Encode([a])) == Some([a])
  {
    hide Symbol, Value, Triple;
    var q, text := Quad(a, 0, 0), Encode([a]);
    QuadIsTriple(a, 0, 0);
    ZeroSymbol();
    assert text == [q[0], q[1], PAD, PAD];
    assert [text[0], text[1], 'A', 'A'] == q;
    assert [a, 0, 0][..1] == [a];
  }

  lemma TwoBytes(a: Byte, b: Byte)
    ensures Decode(Encode([a, b])) == Some([a, b])
  {
    hide Symbol, Value, Triple;
    var q, text := Quad(a, b, 0), Encode([a, b]);
    QuadIsTriple(a, b, 0);
    ZeroSymbol();
    assert text == [q[0], q[1], q[2], PAD];
    assert [text[0], text[1], text[2], 'A'] == q;
    assert [a, b, 0][..2] == [a, b];
  }

  /** Every shard survives the text form. */
  lemma {:induction false} EncodeDecodes(data: Bytes)
    ensures Decode(Encode(data)) == Some(data)
  {
    hide Quad, Triple;
    if |data| == 1 {
      OneByte(data[0]);
      assert data == [data[0]];
    } else if |data| == 2 {
      TwoBytes(data[0], data[1]);
      assert data == [data[0], data[1]];
    } else if |data| >= 3 {
      var quad, rest := Quad(data[0], data[1], data[2]), Encode(data[3..]);
      QuadIsTriple(data[0], data[1], data[2]);
      EncodeDecodes(data[3..]);
      assert (quad + rest)[..4] == quad && (quad + rest)[4..] == rest && (quad + rest)[3] == quad[3];
      assert [data[0], data[1], data[2]] + data[3..] == data;
    }
  }

  lemma {:induction false} EncodedLength(data: Bytes)
    ensures |Encode(data)| == 4 * ((|data| + 2) / 3)
  {
    hide Quad;
    if |data| >= 3 { EncodedLength(data[3..]); }
  }

  const SHARD_SIZE: nat := 1024 * 1024

  /** A full default shard becomes 1,398,104 symbols, and no shard more. */
  lemma ShardTextLength(shard: Bytes)
    requires |shard| <= SHARD_SIZE
    ensures |Encode(shard)| <= 1_398_104 && (|shard| == SHARD_SIZE ==> |Encode(shard)| == 1_398_104)
  {
    EncodedLength(shard);
  }

  // ---------------------------------------------------------------- symbol by symbol

  /** The alphabet of table 1 of RFC 4648, by the codes of its characters. */
  predicate InAlphabet(c: char, v: int) {
    || (0 <= v < 26 && c as int == 65 + v) || (26 <= v < 52 && c as int == 97 + (v - 26))
    || (52 <= v < 62 && c as int == 48 + (v - 52)) || (v == 62 && c as int == 43) || (v == 63 && c as int == 47)
  }

  predicate IsSymbol(c: char) { exists v :: 0 <= v < 64 && InAlphabet(c, v) }

  lemma SymbolIs(v: Sextet)
    ensures InAlphabet(Symbol(v), v)
  {
  }

  lemma ValueIs(c: char)
    ensures Value(c).Some? ==> InAlphabet(c, Value(c).value)
    ensures forall v: Sextet :: InAlphabet(c, v) ==> Value(c) == Some(v)
    ensures Value(c).Some? <==> IsSymbol(c)
  {
    if Value(c).Some? { assert InAlphabet(c, Value(c).value); }
  }

  /** Byte i, with zeros after the end. */
  function At(data: Bytes, i: nat): Byte { if i < |data| then data[i] else 0 }

  /** Symbol j of group g stands for six bits of the three bytes of that group. */
  function Bits(data: Bytes, g: nat, j: nat): int
    requires j < 4
  {
    var a, b, c := At(data, 3 * g), At(data, 3 * g + 1), At(data, 3 * g + 2);
    if j == 0 then a / 4 else if j == 1 then a % 4 * 16 + b / 16 else if j == 2 then b % 16 * 4 + c / 64 else c % 64
  }

  /** Symbol j of group g is the one of its six bits, or `=` where the group has fewer than j bytes. */
  lemma {:induction false} EncodeIs(data: Bytes, g: nat, j: nat)
    requires j < 4 && 3 * g < |data|
    ensures |Encode(data)| > 4 * g + j
    ensures var c := Encode(data)[4 * g + j];
      if j >= 2 && 3 * g + j > |data| then c == '=' else InAlphabet(c, Bits(data, g, j))
  {
    hide Symbol, InAlphabet, Quad, Encode;
    EncodedLength(data);
    if g == 0 {
      FirstSymbols(data, j);
    } else {
      EncodeIs(data[3..], g - 1, j);
      assert Encode(data)[4 * g + j] == Encode(data[3..])[4 * (g - 1) + j] by { LaterGroup(data); }
      assert forall i: nat :: At(data[3..], i) == At(data, i + 3);
    }
  }

  lemma LaterGroup(data: Bytes)
    requires |data| > 3
    ensures |Encode(data)| == 4 + |Encode(data[3..])|
    ensures forall i :: 0 <= i < |Encode(data[3..])| ==> Encode(data)[4 + i] == Encode(data[3..])[i]
  {
    hide Quad;
  }

  lemma FirstSymbols(data: Bytes, j: nat)
    requires j < 4 && data != []
    ensures |Encode(data)| >= 4
    ensures var c := Encode(data)[j]; if j >= 2 && j > |data| then c == '=' else InAlphabet(c, Bits(data, 0, j))
  {
    hide Symbol, InAlphabet, Encode;
    var a, b, c := At(data, 0), At(data, 1), At(data, 2);
    SymbolIs(a / 4);
    SymbolIs(a % 4 * 16 + b / 16);
    SymbolIs(b % 16 * 4 + c / 64);
    SymbolIs(c % 64);
    FirstGroup(data);
    assert Encode(data)[j] == Encode(data)[..4][j];
  }

  lemma FirstGroup(data: Bytes)
    requires data != []
    ensures |Encode(data)| >= 4
    ensures Encode(data)[..4] ==
      if |data| == 1 then Quad(data[0], 0, 0)[..2] + ['=', '=']
      else if |data| == 2 then Quad(data[0], data[1], 0)[..3] + ['=']
      else Quad(data[0], data[1], data[2])
  {
    hide Quad;
  }

  /** Legal texts: groups of four symbols, at most two of the last group being `=`, at its end. */
  ghost predicate Legal(text: string, pads: nat) {
    && |text| % 4 == 0 && pads <= 2 && pads <= |text|
    && (forall i :: 0 <= i < |text| - pads ==> IsSymbol(text[i]))
    && (forall i :: |text| - pads <= i < |text| ==> text[i] == '=')
  }

  lemma PadIsNoSymbol()
    ensures !IsSymbol('=') && Value('=') == None && IsSymbol('A')
  {
    assert InAlphabet('A', 0);
  }

  /** Exactly the legal texts decode. */
  lemma {:induction false} DecodesIff(text: string)
    ensures Decode(text).Some? <==> exists pads :: Legal(text, pads)
  {
    hide Value, IsSymbol, InAlphabet, Triple, Cut, Decode, Legal;
    DecodeStep(text);
    if text == "" {
      assert Legal(text, 0) by { NothingIsLegal(); }
    } else if |text| < 4 {
      TooShort(text);
    } else if |text| == 4 && text[3] == '=' {
      LastGroup(text);
    } else {
      DecodesIff(text[4..]);
      FirstFour(text[..4]);
      forall pads ensures Legal(text, pads) <==> AllSymbols(text[..4]) && Legal(text[4..], pads) {
        MoreGroups(text, pads);
      }
    }
  }

  ghost predicate AllSymbols(q: string) { forall c :: c in q ==> IsSymbol(c) }

  lemma DecodeStep(text: string)
    ensures text == "" ==> Decode(text).Some?
    ensures text != "" && |text| < 4 ==> Decode(text).None?
    ensures |text| >= 4 && !(|text| == 4 && text[3] == '=') ==>
      (Decode(text).Some? <==> Triple(text[..4]).Some? && Decode(text[4..]).Some?)
  {
    hide Triple;
  }

  lemma NothingIsLegal()
    ensures Legal("", 0)
  {
  }

  lemma TooShort(text: string)
    requires 0 < |text| < 4
    ensures forall pads :: !Legal(text, pads)
  {
  }

  lemma FirstFour(q: string)
    requires |q| == 4
    ensures Triple(q).Some? <==> AllSymbols(q)
  {
    hide Value, IsSymbol, InAlphabet;
    forall c ensures Value(c).Some? <==> IsSymbol(c) { ValueIs(c); }
  }

  lemma MoreGroups(text: string, pads: nat)
    requires |text| >= 4 && !(|text| == 4 && text[3] == '=')
    ensures Legal(text, pads) <==> AllSymbols(text[..4]) && Legal(text[4..], pads)
  {
    hide IsSymbol, InAlphabet;
    if Legal(text, pads) {
      assert pads > 0 ==> text[|text| - 1] == '=';
      assert |text| == 4 ==> pads == 0;
      forall c | c in text[..4] ensures IsSymbol(c) {
        var i :| 0 <= i < 4 && text[i] == c;
      }
    }
    if AllSymbols(text[..4]) && Legal(text[4..], pads) {
      forall i | 0 <= i < |text| - pads ensures IsSymbol(text[i]) {
        if i < 4 { assert text[i] == text[..4][i]; } else { assert text[i] == text[4..][i - 4]; }
      }
      forall i | |text| - pads <= i < |text| ensures text[i] == '=' {
        assert text[i] == text[4..][i - 4];
      }
    }
  }

  lemma LastGroup(text: string)
    requires |text| == 4 && text[3] == '='
    ensures Decode(text).Some? <==> exists pads :: Legal(text, pads)
  {
    hide Value, IsSymbol, InAlphabet;
    PadIsNoSymbol();
    forall c ensures Value(c).Some? <==> IsSymbol(c) { ValueIs(c); }
    if Decode(text).Some? { assert Legal(text, if text[2] == '=' then 2 else 1); }
  }
}
