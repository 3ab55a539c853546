/** The hand-written base64 encoder of the terminal client, and a decoder that
    follows section 4 of RFC 4648.  The encoder works on 32-bit words exactly as
    the original does; the decoder is an independent definition, and
    `DecodingIffEncoding` shows that each is the inverse of the other. */
module Base64 {
  import opened Wrappers

  type Byte = bv8
  type Sextet = bv6

  // ---------------------------------------------------------------- alphabet

  /** Table 1 of RFC 4648, in rows of eight symbols. */
  const TABLE: seq<string> :=
    ["ABCDEFGH", "IJKLMNOP", "QRSTUVWX", "YZabcdef", "ghijklmn", "opqrstuv", "wxyz0123", "456789+/"]

  function SymbolAt(k: nat): char
    requires k < 64
  {
    TABLE[k / 8][k % 8]
  }

  function Symbol(x: Sextet): char {
    SymbolAt(x as int)
  }

  /** The place of a symbol in the alphabet, or -1 for any other character. */
  function Position(c: char): (k: int)
    ensures -1 <= k < 64
  {
    if 'A' <= c <= 'Z' then c as int - 'A' as int
    else if 'a' <= c <= 'z' then c as int - 'a' as int + 26
    else if '0' <= c <= '9' then c as int - '0' as int + 52
    else if c == '+' then 62
    else if c == '/' then 63
    else -1
  }

  function Value(c: char): Sextet
    requires Position(c) >= 0
  {
    Position(c) as bv6
  }

  lemma PositionOfSymbolAt(k: nat)
    requires k < 64
    ensures Position(SymbolAt(k)) == k
  {
    assert k == k / 8 * 8 + k % 8;
    assert k % 8 == 0 || k % 8 == 1 || k % 8 == 2 || k % 8 == 3 || k % 8 == 4 || k % 8 == 5 || k % 8 == 6 || k % 8 == 7;
    assert k / 8 == 0 || k / 8 == 1 || k / 8 == 2 || k / 8 == 3 || k / 8 == 4 || k / 8 == 5 || k / 8 == 6 || k / 8 == 7;
  }

  lemma PositionInjective(c: char, d: char)
    requires Position(c) == Position(d) >= 0
    ensures c == d
  {
  }

  lemma SymbolPosition(x: Sextet)
    ensures Position(Symbol(x)) == x as int && Value(Symbol(x)) == x
  {
    PositionOfSymbolAt(x as int);
  }

  lemma IndexOfSextet(k: nat)
    requires k < 64
    ensures (k as bv6) as int == k
  {
  }

  lemma SymbolOfIndex(k: nat)
    requires k < 64
    ensures Symbol(k as bv6) == SymbolAt(k)
  {
    IndexOfSextet(k);
  }

  lemma PositionSymbol(c: char)
    requires Position(c) >= 0
    ensures Symbol(Value(c)) == c
  {
    var k := Position(c);
    SymbolOfIndex(k);
    assert SymbolAt(k) == c by {
      PositionOfSymbolAt(k);
      PositionInjective(SymbolAt(k), c);
    }
  }

  // ----------------------------------------------------------------- encoder

  function Word(a: Byte, b: Byte, c: Byte): bv32 {
    ((a as bv32) << 16) | ((b as bv32) << 8) | (c as bv32)
  }

  /** The four sextets of a 24-bit word, from the left. */
  function Sextet0(n: bv32): Sextet {
    ((n >> 18) & 0x3F) as bv6
  }

  function Sextet1(n: bv32): Sextet {
    ((n >> 12) & 0x3F) as bv6
  }

  function Sextet2(n: bv32): Sextet {
    ((n >> 6) & 0x3F) as bv6
  }

  function Sextet3(n: bv32): Sextet {
    (n & 0x3F) as bv6
  }

  /** What the encoder writes for a group of three, two or one bytes. */
  function Group(data: seq<Byte>): string {
    if |data| == 0 then ""
    else if |data| == 1 then
      var n := Word(data[0], 0, 0);
      [Symbol(Sextet0(n)), Symbol(Sextet1(n)), '=', '=']
    else if |data| == 2 then
      var n := Word(data[0], data[1], 0);
      [Symbol(Sextet0(n)), Symbol(Sextet1(n)), Symbol(Sextet2(n)), '=']
    else
      var n := Word(data[0], data[1], data[2]);
      [Symbol(Sextet0(n)), Symbol(Sextet1(n)), Symbol(Sextet2(n)), Symbol(Sextet3(n))]
  }

  function Min(a: nat, b: nat): nat {
    if a <= b then a else b
  }

  /** `write` applied to each three bytes of `data` in turn. */
  function InGroups(write: seq<Byte> -> string, data: seq<Byte>): string {
    if data == [] then ""
    else write(data[..Min(3, |data|)]) + InGroups(write, data[Min(3, |data|)..])
  }

  lemma {:induction false} InGroupsAppend(write: seq<Byte> -> string, a: seq<Byte>, b: seq<Byte>)
    requires |a| % 3 == 0
    ensures InGroups(write, a + b) == InGroups(write, a) + InGroups(write, b)
  {
    if a == [] {
      assert a + b == b;
    } else {
      InGroupsAppend(write, a[3..], b);
      assert (a + b)[3..] == a[3..] + b;
      assert (a + b)[..3] == a[..3];
    }
  }

  lemma InGroupsNext(write: seq<Byte> -> string, data: seq<Byte>, i: nat)
    requires i < |data| && i % 3 == 0
    ensures InGroups(write, data[..Min(i + 3, |data|)])
         == InGroups(write, data[..i]) + write(data[i..Min(i + 3, |data|)])
  {
    var group := data[i..Min(i + 3, |data|)];
    InGroupsAppend(write, data[..i], group);
    assert data[..i] + group == data[..Min(i + 3, |data|)];
    assert group[..|group|] == group;
  }

  function Encoding(data: seq<Byte>): string {
    InGroups(Group, data)
  }

  /** One round of the loop. */
  method EncodeAt(data: seq<Byte>, i: nat) returns (symbols: string)
    requires i < |data|
    ensures symbols == Group(data[i..Min(i + 3, |data|)])
  {
    var remaining := |data| - i;
    if remaining >= 3 {
      var n := Word(data[i], data[i + 1], data[i + 2]);
      symbols := [Symbol(Sextet0(n)), Symbol(Sextet1(n)), Symbol(Sextet2(n)), Symbol(Sextet3(n))];
    } else if remaining == 2 {
      var n := Word(data[i], data[i + 1], 0);
      symbols := [Symbol(Sextet0(n)), Symbol(Sextet1(n)), Symbol(Sextet2(n)), '='];
    } else {
      var n := Word(data[i], 0, 0);
      symbols := [Symbol(Sextet0(n)), Symbol(Sextet1(n)), '=', '='];
    }
  }

  method Encode(data: seq<Byte>) returns (text: string)
    ensures text == Encoding(data)
  {
    text := "";
    var i := 0;
    while i < |data|
      invariant 0 <= i && i % 3 == 0
      invariant text == Encoding(data[..Min(i, |data|)])
    {
      var symbols := EncodeAt(data, i);
      InGroupsNext(Group, data, i);
      text := text + symbols;
      i := i + 3;
    }
    assert data[..|data|] == data;
  }

  // ----------------------------------------------------------------- decoder

  function First(p: Sextet, q: Sextet): Byte {
    ((p as bv8) << 2) | ((q as bv8) >> 4)
  }

  function Second(q: Sextet, r: Sextet): Byte {
    ((q as bv8) << 4) | ((r as bv8) >> 2)
  }

  function Third(r: Sextet, s: Sextet): Byte {
    ((r as bv8) << 6) | (s as bv8)
  }

  predicate InAlphabet(text: string) {
    forall i | 0 <= i < |text| :: Position(text[i]) >= 0
  }

  /** Four symbols without padding: a quantum of 24 bits. */
  function Quantum(text: string): Option<seq<Byte>> {
    if |text| == 4 && InAlphabet(text) then
      var p, q, r, s := Value(text[0]), Value(text[1]), Value(text[2]), Value(text[3]);
      Some([First(p, q), Second(q, r), Third(r, s)])
    else None
  }

  /** The final quantum, which may be padded; the bits under the padding must
      be zero (section 3.5 of RFC 4648). */
  function FinalQuantum(text: string): Option<seq<Byte>> {
    if |text| != 4 then None
    else if text[3] != '=' then Quantum(text)
    else if text[2] != '=' then
      if InAlphabet(text[..3]) then
        var p, q, r := Value(text[0]), Value(text[1]), Value(text[2]);
        if r & 3 == 0 then Some([First(p, q), Second(q, r)]) else None
      else None
    else
      if InAlphabet(text[..2]) then
        var p, q := Value(text[0]), Value(text[1]);
        if q & 15 == 0 then Some([First(p, q)]) else None
      else None
  }

  /** Reads four characters at a time, the last four with `final`. */
  function InQuanta(full: string -> Option<seq<Byte>>, final: string -> Option<seq<Byte>>, text: string)
    : Option<seq<Byte>>
  {
    if text == "" then Some([])
    else if |text| <= 4 then final(text)
    else
      match (full(text[..4]), InQuanta(full, final, text[4..]))
      case (Some(head), Some(tail)) => Some(head + tail)
      case _ => None
  }

  function Decoding(text: string): Option<seq<Byte>> {
    InQuanta(Quantum, FinalQuantum, text)
  }

  // -------------------------------------------------------- bits of one group

  lemma SplitBits(a: Byte, b: Byte, c: Byte)
    ensures var n := Word(a, b, c);
            First(Sextet0(n), Sextet1(n)) == a &&
            Second(Sextet1(n), Sextet2(n)) == b &&
            Third(Sextet2(n), Sextet3(n)) == c
  {
  }

  lemma PaddingBits(a: Byte, b: Byte)
    ensures Sextet2(Word(a, b, 0)) & 3 == 0
    ensures Sextet1(Word(a, 0, 0)) & 15 == 0
  {
  }

  lemma JoinBits(p: Sextet, q: Sextet, r: Sextet, s: Sextet)
    ensures var n := Word(First(p, q), Second(q, r), Third(r, s));
            Sextet0(n) == p && Sextet1(n) == q && Sextet2(n) == r && Sextet3(n) == s
  {
  }

  lemma JoinPaddedBits(p: Sextet, q: Sextet, r: Sextet)
    ensures r & 3 == 0 ==>
              var n := Word(First(p, q), Second(q, r), 0);
              Sextet0(n) == p && Sextet1(n) == q && Sextet2(n) == r
    ensures q & 15 == 0 ==>
              var n := Word(First(p, q), 0, 0);
              Sextet0(n) == p && Sextet1(n) == q
  {
  }

  // ------------------------------------------------------------ one group and back

  /** The `=` of a group: one for each byte missing from three. */
  predicate Padded(text: string, symbols: nat) {
    |text| == 4 && symbols <= 4 &&
    forall i | 0 <= i < 4 :: if i < symbols then Position(text[i]) >= 0 else text[i] == '='
  }

  lemma GroupOfThree(data: seq<Byte>)
    requires |data| == 3
    ensures Padded(Group(data), 4) && Quantum(Group(data)) == Some(data)
  {
    var n := Word(data[0], data[1], data[2]);
    SplitBits(data[0], data[1], data[2]);
    SymbolPosition(Sextet0(n));
    SymbolPosition(Sextet1(n));
    SymbolPosition(Sextet2(n));
    SymbolPosition(Sextet3(n));
    assert data == [data[0], data[1], data[2]];
  }

  lemma GroupOfTwo(data: seq<Byte>)
    requires |data| == 2
    ensures Padded(Group(data), 3) && FinalQuantum(Group(data)) == Some(data)
  {
    var n := Word(data[0], data[1], 0);
    SplitBits(data[0], data[1], 0);
    PaddingBits(data[0], data[1]);
    SymbolPosition(Sextet0(n));
    SymbolPosition(Sextet1(n));
    SymbolPosition(Sextet2(n));
    assert data == [data[0], data[1]];
    assert Group(data)[..3] == [Symbol(Sextet0(n)), Symbol(Sextet1(n)), Symbol(Sextet2(n))];
  }

  lemma GroupOfOne(data: seq<Byte>)
    requires |data| == 1
    ensures Padded(Group(data), 2) && FinalQuantum(Group(data)) == Some(data)
  {
    var n := Word(data[0], 0, 0);
    SplitBits(data[0], 0, 0);
    PaddingBits(data[0], 0);
    SymbolPosition(Sextet0(n));
    SymbolPosition(Sextet1(n));
    assert data == [data[0]];
    assert Group(data)[..2] == [Symbol(Sextet0(n)), Symbol(Sextet1(n))];
  }

  lemma QuantumIsFinal(text: string)
    requires Padded(text, 4) || Quantum(text).Some?
    ensures |text| == 4 && FinalQuantum(text) == Quantum(text)
    ensures Quantum(text).Some? ==> |Quantum(text).value| == 3
  {
  }

  /** What the group writer and the two quantum readers promise each other. */
  ghost predicate GroupLaws(write: seq<Byte> -> string,
                            full: string -> Option<seq<Byte>>, final: string -> Option<seq<Byte>>)
  {
    && (forall data | 1 <= |data| <= 3 :: Padded(write(data), |data| + 1) && final(write(data)) == Some(data))
    && (forall data | |data| == 3 :: full(write(data)) == Some(data))
    && (forall text | full(text).Some? :: |text| == 4 && |full(text).value| == 3 && write(full(text).value) == text)
    && (forall text | final(text).Some? :: |text| == 4 && 1 <= |final(text).value| <= 3 && write(final(text).value) == text)
  }

  /** The first `k` characters are of the alphabet, so that each is the symbol of its
      value. */
  lemma ValuesRead(text: string, k: nat)
    requires k <= |text| && InAlphabet(text[..k])
    ensures forall i | 0 <= i < k :: Position(text[i]) >= 0 && Symbol(Value(text[i])) == text[i]
  {
    forall i | 0 <= i < k ensures Position(text[i]) >= 0 && Symbol(Value(text[i])) == text[i] {
      assert text[i] == text[..k][i];
      PositionSymbol(text[i]);
    }
  }

  lemma FullInverse(text: string)
    requires FinalQuantum(text).Some? && text[3] != '='
    ensures |FinalQuantum(text).value| == 3 && Group(FinalQuantum(text).value) == text
  {
    assert InAlphabet(text[..4]);
    ValuesRead(text, 4);
    JoinBits(Value(text[0]), Value(text[1]), Value(text[2]), Value(text[3]));
  }

  lemma OnePadInverse(text: string)
    requires FinalQuantum(text).Some? && text[3] == '=' && text[2] != '='
    ensures |FinalQuantum(text).value| == 2 && Group(FinalQuantum(text).value) == text
  {
    assert InAlphabet(text[..3]);
    ValuesRead(text, 3);
    JoinPaddedBits(Value(text[0]), Value(text[1]), Value(text[2]));
  }

  lemma TwoPadsInverse(text: string)
    requires FinalQuantum(text).Some? && text[3] == '=' && text[2] == '='
    ensures |FinalQuantum(text).value| == 1 && Group(FinalQuantum(text).value) == text
  {
    assert InAlphabet(text[..2]);
    ValuesRead(text, 2);
    JoinPaddedBits(Value(text[0]), Value(text[1]), 0);
  }

  lemma FinalQuantumInverse(text: string)
    requires FinalQuantum(text).Some?
    ensures |text| == 4 && 1 <= |FinalQuantum(text).value| <= 3 && Group(FinalQuantum(text).value) == text
  {
    if text[3] != '=' {
      FullInverse(text);
    } else if text[2] != '=' {
      OnePadInverse(text);
    } else {
      TwoPadsInverse(text);
    }
  }

  lemma GroupLawsHold()
    ensures GroupLaws(Group, Quantum, FinalQuantum)
  {
    forall data: seq<Byte> | 1 <= |data| <= 3
      ensures Padded(Group(data), |data| + 1) && FinalQuantum(Group(data)) == Some(data)
      ensures |data| == 3 ==> Quantum(Group(data)) == Some(data)
    {
      GroupLawsAt(data);
    }
    forall text | FinalQuantum(text).Some?
      ensures |text| == 4 && 1 <= |FinalQuantum(text).value| <= 3 && Group(FinalQuantum(text).value) == text
    {
      FinalQuantumInverse(text);
    }
    forall text | Quantum(text).Some?
      ensures |text| == 4 && |Quantum(text).value| == 3 && Group(Quantum(text).value) == text
    {
      QuantumIsFinal(text);
      FinalQuantumInverse(text);
    }
  }

  lemma GroupLawsAt(data: seq<Byte>)
    requires 1 <= |data| <= 3
    ensures Padded(Group(data), |data| + 1) && FinalQuantum(Group(data)) == Some(data)
    ensures |data| == 3 ==> Quantum(Group(data)) == Some(data)
  {
    if |data| == 1 {
      GroupOfOne(data);
    } else if |data| == 2 {
      GroupOfTwo(data);
    } else {
      GroupOfThree(data);
      QuantumIsFinal(Group(data));
    }
  }

  lemma {:induction false} QuantaOfGroups(write: seq<Byte> -> string,
                                          full: string -> Option<seq<Byte>>, final: string -> Option<seq<Byte>>,
                                          data: seq<Byte>)
    requires GroupLaws(write, full, final)
    ensures InQuanta(full, final, InGroups(write, data)) == Some(data)
    ensures data != [] ==> InGroups(write, data) != ""
  {
    if data != [] {
      var k := Min(3, |data|);
      var text := InGroups(write, data);
      assert Padded(write(data[..k]), k + 1);
      assert text[..4] == write(data[..k]) && text[4..] == InGroups(write, data[k..]);
      if |data| <= 3 {
        assert data[..k] == data && text == write(data);
      } else {
        QuantaOfGroups(write, full, final, data[k..]);
        assert data == data[..k] + data[k..];
      }
    }
  }

  lemma {:induction false} GroupsOfQuanta(write: seq<Byte> -> string,
                                          full: string -> Option<seq<Byte>>, final: string -> Option<seq<Byte>>,
                                          text: string)
    requires GroupLaws(write, full, final) && InQuanta(full, final, text).Some?
    ensures InGroups(write, InQuanta(full, final, text).value) == text
  {
    var data := InQuanta(full, final, text).value;
    if |text| > 4 {
      GroupsOfQuanta(write, full, final, text[4..]);
      var head := full(text[..4]).value;
      assert data[..3] == head && data[3..] == InQuanta(full, final, text[4..]).value;
      assert text == text[..4] + text[4..];
    } else if text != "" {
      assert data[..|data|] == data;
    }
  }

  // ------------------------------------------------------------ main results

  /** Decoding undoes the encoder on every input, and the decoder accepts
      nothing but encodings: the two are inverse bijections. */
  lemma DecodingIffEncoding(text: string, data: seq<Byte>)
    ensures Decoding(text) == Some(data) <==> text == Encoding(data)
  {
    GroupLawsHold();
    QuantaOfGroups(Group, Quantum, FinalQuantum, data);
    if Decoding(text) == Some(data) {
      GroupsOfQuanta(Group, Quantum, FinalQuantum, text);
    }
  }

  /** How many bytes the last group lacks. */
  function Missing(n: nat): nat {
    (3 - n % 3) % 3
  }

  ghost predicate WellPadded(text: string, pad: nat) {
    pad <= |text| &&
    forall i | 0 <= i < |text| :: if i < |text| - pad then Position(text[i]) >= 0 else text[i] == '='
  }

  lemma {:induction false} InGroupsShape(write: seq<Byte> -> string, data: seq<Byte>)
    requires forall group | 1 <= |group| <= 3 :: Padded(write(group), |group| + 1)
    ensures WellPadded(InGroups(write, data), Missing(|data|))
  {
    if data != [] {
      var k := Min(3, |data|);
      assert Padded(write(data[..k]), k + 1);
      InGroupsShape(write, data[k..]);
      PaddedAppend(write(data[..k]), k + 1, InGroups(write, data[k..]), Missing(|data| - k));
      assert k == 3 ==> Missing(|data|) == Missing(|data| - k);
    }
  }

  lemma {:induction false} InGroupsLength(write: seq<Byte> -> string, data: seq<Byte>)
    requires forall group | 1 <= |group| <= 3 :: |write(group)| == 4
    ensures |InGroups(write, data)| == (|data| + 2) / 3 * 4
  {
    if data != [] {
      InGroupsLength(write, data[Min(3, |data|)..]);
    }
  }

  lemma PaddedAppend(head: string, symbols: nat, tail: string, pad: nat)
    requires Padded(head, symbols) && WellPadded(tail, pad) && (symbols == 4 || tail == "")
    ensures WellPadded(head + tail, if symbols == 4 then pad else 4 - symbols)
  {
  }

  /** Four symbols for every started group of three bytes; `=` stands only in
      the last two places, once for each byte missing from the last group, and
      everything before it is in the alphabet. */
  lemma EncodingShape(data: seq<Byte>)
    ensures |Encoding(data)| == (|data| + 2) / 3 * 4
    ensures Missing(|data|) <= 2 && WellPadded(Encoding(data), Missing(|data|))
  {
    GroupLawsHold();
    InGroupsShape(Group, data);
    InGroupsLength(Group, data);
  }

  lemma OneGroup(data: seq<Byte>)
    requires 1 <= |data| <= 3
    ensures Encoding(data) == Group(data)
  {
    assert data[..|data|] == data && data[|data|..] == [];
    assert InGroups(Group, []) == "";
  }

  lemma TwoGroups(a: seq<Byte>, b: seq<Byte>)
    requires |a| == 3 && 1 <= |b| <= 3
    ensures Encoding(a + b) == Group(a) + Group(b)
  {
    InGroupsAppend(Group, a, b);
    OneGroup(a);
    OneGroup(b);
  }

  lemma VectorGroups()
    ensures Group([0x66]) == "Zg==" && Group([0x66, 0x6F]) == "Zm8="
    ensures Group([0x62]) == "Yg==" && Group([0x62, 0x61]) == "YmE="
  {
  }

  lemma VectorFullGroups()
    ensures Group([0x66, 0x6F, 0x6F]) == "Zm9v" && Group([0x62, 0x61, 0x72]) == "YmFy"
  {
  }

  /** The test vectors of section 10 of RFC 4648. */
  lemma TestVectors()
    ensures Encoding([]) == ""
    ensures Encoding([0x66]) == "Zg==" && Encoding([0x66, 0x6F]) == "Zm8="
    ensures Encoding([0x66, 0x6F, 0x6F]) == "Zm9v"
    ensures Encoding([0x66, 0x6F, 0x6F] + [0x62]) == "Zm9v" + "Yg=="
    ensures Encoding([0x66, 0x6F, 0x6F] + [0x62, 0x61]) == "Zm9v" + "YmE="
    ensures Encoding([0x66, 0x6F, 0x6F] + [0x62, 0x61, 0x72]) == "Zm9v" + "YmFy"
  {
    VectorGroups();
    VectorFullGroups();
    OneGroup([0x66]);
    OneGroup([0x66, 0x6F]);
    OneGroup([0x66, 0x6F, 0x6F]);
    TwoGroups([0x66, 0x6F, 0x6F], [0x62]);
    TwoGroups([0x66, 0x6F, 0x6F], [0x62, 0x61]);
    TwoGroups([0x66, 0x6F, 0x6F], [0x62, 0x61, 0x72]);
  }
}
