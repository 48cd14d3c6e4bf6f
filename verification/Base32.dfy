/**
 * The hand-written base32 codec behind the TOTP secrets (section 6 of RFC 4648).
 *
 * The code builds strings of '0' and '1' and cuts them into groups; here a bit string is a
 * `seq<bool>`, most significant bit first, and a byte is a number below 256.
 */
module Base32 {
  import opened Wrappers

  type Byte = b: nat | b < 256
  type Bits = seq<bool>

  const ALPHABET: string := "ABCDEFGHIJKLMNOPQRSTUVWXYZ234567"

  // ---------------------------------------------------------------- numbers and bits

  function Pow2(w: nat): nat {
    if w == 0 then 1 else 2 * Pow2(w - 1)
  }

  /** `n.toString(2).padStart(w, '0')` for an `n` that fits. */
  function ToBits(n: nat, w: nat): (b: Bits)
    ensures |b| == w
    decreases n + w
  {
    if w == 0 then [] else ToBits(n / 2, w - 1) + [n % 2 == 1]
  }

  /** `parseInt(b, 2)`. */
  function Value(b: Bits): (n: nat)
    ensures n < Pow2(|b|)
  {
    if b == [] then 0 else 2 * Value(b[..|b| - 1]) + if b[|b| - 1] then 1 else 0
  }

  lemma {:induction false} ValueOfToBits(n: nat, w: nat)
    requires n < Pow2(w)
    ensures Value(ToBits(n, w)) == n
  {
    if w == 0 {
    } else {
      ValueOfToBits(n / 2, w - 1);
      assert ToBits(n, w)[..w - 1] == ToBits(n / 2, w - 1);
    }
  }

  lemma {:induction false} ToBitsOfValue(b: Bits)
    ensures ToBits(Value(b), |b|) == b
  {
    if b == [] {
    } else {
      ToBitsOfValue(b[..|b| - 1]);
      assert b == b[..|b| - 1] + [b[|b| - 1]];
    }
  }

  lemma Widths()
    ensures Pow2(5) == 32 && Pow2(8) == 256
  {
    assert Pow2(2) == 4;
    assert Pow2(4) == 16;
    assert Pow2(6) == 64;
  }

  function Zeros(k: nat): (z: Bits)
    ensures |z| == k && forall i | 0 <= i < k :: !z[i]
  {
    seq(k, _ => false)
  }

  lemma Assoc(a: Bits, b: Bits, c: Bits)
    ensures a + (b + c) == (a + b) + c
  {
  }

  // ---------------------------------------------------------------- the alphabet

  predicate IsSymbol(c: char) {
    'A' <= c <= 'Z' || '2' <= c <= '7'
  }

  predicate AllSymbols(s: string) {
    forall i | 0 <= i < |s| :: IsSymbol(s[i])
  }

  predicate AllPads(s: string) {
    forall i | 0 <= i < |s| :: s[i] == '='
  }

  function SymbolAt(i: nat): (c: char)
    requires i < 32
    ensures IsSymbol(c)
  {
    if i < 26 then 'A' + i as char else '2' + (i - 26) as char
  }

  function SymbolIndex(c: char): (i: int)
    ensures -1 <= i < 32
    ensures i == -1 <==> !IsSymbol(c)
    ensures i >= 0 ==> SymbolAt(i) == c
  {
    if 'A' <= c <= 'Z' then c as int - 'A' as int
    else if '2' <= c <= '7' then c as int - '2' as int + 26
    else -1
  }

  /** The ranges above are the alphabet string: indexing and `indexOf` agree with them. */
  lemma AlphabetTable()
    ensures |ALPHABET| == 32
    ensures forall i | 0 <= i < 32 :: ALPHABET[i] == SymbolAt(i)
    ensures forall c | SymbolIndex(c) >= 0 :: ALPHABET[SymbolIndex(c)] == c && forall j | 0 <= j < SymbolIndex(c) :: ALPHABET[j] != c
    ensures forall c | SymbolIndex(c) < 0 :: SymbolIndex(c) == -1 && forall j | 0 <= j < 32 :: ALPHABET[j] != c
  {
  }

  function Symbol(chunk: Bits): (c: char)
    requires |chunk| == 5
    ensures IsSymbol(c)
  {
    Widths();
    SymbolAt(Value(chunk))
  }

  /** How many zero bits complete a group of five. */
  function Fill(n: nat): (k: nat)
    ensures k < 5 && (n + k) % 5 == 0
    ensures n <= 5 ==> k == if n == 0 then 0 else 5 - n
  {
    (5 - n % 5) % 5
  }

  lemma FillUnique(n: nat, k: nat)
    requires k < 5 && (n + k) % 5 == 0
    ensures Fill(n) == k
  {
  }

  // ---------------------------------------------------------------- what encode and decode compute

  function DataBits(data: seq<Byte>): (b: Bits)
    ensures |b| == 8 * |data|
  {
    if data == [] then [] else ToBits(data[0], 8) + DataBits(data[1..])
  }

  /** `bits.slice(i, i + 5).padEnd(5, '0')` for the bits from `i` on. */
  function Group(bits: Bits): (g: Bits)
    ensures |g| == 5
  {
    if |bits| < 5 then bits + Zeros(5 - |bits|) else bits[..5]
  }

  function AfterGroup(bits: Bits): (rest: Bits)
    ensures |rest| == if |bits| <= 5 then 0 else |bits| - 5
  {
    if |bits| <= 5 then [] else bits[5..]
  }

  function Symbols(bits: Bits): (s: string)
    ensures |bits| <= 5 * |s| < |bits| + 5
    ensures AllSymbols(s)
    decreases |bits|
  {
    if bits == [] then "" else [Symbol(Group(bits))] + Symbols(AfterGroup(bits))
  }

  function Padding(n: nat): (p: string)
    ensures |p| == (8 - n % 8) % 8 && (n + |p|) % 8 == 0
    ensures AllPads(p)
  {
    seq((8 - n % 8) % 8, _ => '=')
  }

  function Encoded(data: seq<Byte>, padding: bool): string {
    var s := Symbols(DataBits(data));
    if padding then s + Padding(|s|) else s
  }

  function SymbolBits(s: string): (r: Result<Bits, char>)
    ensures r.Ok? ==> |r.value| == 5 * |s|
    ensures r.Ok? <==> AllSymbols(s)
  {
    if s == "" then Ok([])
    else
      var index := SymbolIndex(s[0]);
      if index == -1 then Err(s[0])
      else
        match SymbolBits(s[1..])
        case Err(c) => Err(c)
        case Ok(rest) => Ok(ToBits(index, 5) + rest)
  }

  function ByteOf(group: Bits): Byte
    requires |group| == 8
  {
    Widths();
    Value(group)
  }

  lemma ByteOfBits(group: Bits)
    requires |group| == 8
    ensures ToBits(ByteOf(group), 8) == group
  {
    ToBitsOfValue(group);
  }

  function Bytes(bits: Bits): (data: seq<Byte>)
    ensures 8 * |data| <= |bits| < 8 * |data| + 8
  {
    if |bits| < 8 then [] else [ByteOf(bits[..8])] + Bytes(bits[8..])
  }

  /** The bits after the last whole byte. */
  function Leftover(bits: Bits): (rest: Bits)
    ensures |rest| < 8
  {
    if |bits| < 8 then bits else Leftover(bits[8..])
  }

  function UpperChar(c: char): char {
    if 'a' <= c <= 'z' then ('A' as int + (c as int - 'a' as int)) as char else c
  }

  /** `toUpperCase` on the ASCII letters. */
  function Upper(s: string): (u: string)
    ensures |u| == |s|
  {
    seq(|s|, i requires 0 <= i < |s| => UpperChar(s[i]))
  }

  /** `replace(/=+$/, '')`. */
  function StripPadding(s: string): string {
    if s != "" && s[|s| - 1] == '=' then StripPadding(s[..|s| - 1]) else s
  }

  function Decoded(str: string): Result<seq<Byte>, char> {
    match SymbolBits(StripPadding(Upper(str)))
    case Err(c) => Err(c)
    case Ok(bits) => Ok(Bytes(bits))
  }

  // ---------------------------------------------------------------- the two loops

  method Encode(data: seq<Byte>, padding: bool) returns (output: string)
    ensures output == Encoded(data, padding)
  {
    var bits := BitString(data);
    output := SymbolString(bits);
    if padding {
      output := Pad(output);
    }
  }

  /** The first loop of `encode`. */
  method BitString(data: seq<Byte>) returns (bits: Bits)
    ensures bits == DataBits(data)
  {
    bits := [];
    assert data[0..] == data;
    for n := 0 to |data|
      invariant bits + DataBits(data[n..]) == DataBits(data)
    {
      assert data[n..][1..] == data[n + 1..];
      bits := bits + ToBits(data[n], 8);
    }
  }

  /** `bits.slice(i, i + 5).padEnd(5, '0')`. */
  function GroupAt(bits: Bits, i: nat): (g: Bits)
    requires i < |bits|
    ensures g == Group(bits[i..])
  {
    var chunk := bits[i..if i + 5 <= |bits| then i + 5 else |bits|];
    var rest := bits[i..];
    assert chunk == if |rest| < 5 then rest else rest[..5];
    if |chunk| < 5 then chunk + Zeros(5 - |chunk|) else chunk
  }

  lemma AfterGroupAt(bits: Bits, i: nat)
    requires i < |bits|
    ensures AfterGroup(bits[i..]) == if i + 5 < |bits| then bits[i + 5..] else []
  {
  }

  /** The second loop of `encode`. */
  method SymbolString(bits: Bits) returns (output: string)
    ensures output == Symbols(bits)
  {
    output := "";
    var i := 0;
    ghost var left := bits;
    while i < |bits|
      invariant left == if i < |bits| then bits[i..] else []
      invariant output + Symbols(left) == Symbols(bits)
    {
      AfterGroupAt(bits, i);
      output := output + [Symbol(GroupAt(bits, i))];
      i := i + 5;
      left := AfterGroup(left);
    }
  }

  /** The `while (output.length % 8 !== 0)` loop of `encode`. */
  method Pad(s: string) returns (output: string)
    ensures output == s + Padding(|s|)
  {
    output := s;
    while |output| % 8 != 0
      invariant |s| <= |output| <= |s| + |Padding(|s|)|
      invariant output == s + Padding(|s|)[..|output| - |s|]
      decreases |s| + 8 - |output|
    {
      output := output + "=";
    }
  }

  method Decode(str: string) returns (r: Result<seq<Byte>, char>)
    ensures r == Decoded(str)
  {
    var cleaned := StripPadding(Upper(str));
    var bits: Bits := [];
    assert cleaned[0..] == cleaned;
    assert forall rest: Bits :: bits + rest == rest;
    for n := 0 to |cleaned|
      invariant match SymbolBits(cleaned[n..])
                case Ok(rest) => SymbolBits(cleaned) == Ok(bits + rest)
                case Err(c) => SymbolBits(cleaned) == Err(c)
    {
      assert cleaned[n..][1..] == cleaned[n + 1..];
      var index := SymbolIndex(cleaned[n]);
      if index == -1 {
        return Err(cleaned[n]);
      }
      ghost var before := bits;
      bits := bits + ToBits(index, 5);
      assert forall rest: Bits :: before + (ToBits(index, 5) + rest) == bits + rest;
    }
    assert cleaned[|cleaned|..] == "" && bits + [] == bits;
    assert SymbolBits(cleaned) == Ok(bits);
    var bytes := ByteList(bits);
    r := Ok(bytes);
  }

  /** The second loop of `decode`: whole bytes only, leftover bits are dropped. */
  method ByteList(bits: Bits) returns (bytes: seq<Byte>)
    ensures bytes == Bytes(bits)
  {
    bytes := [];
    var i := 0;
    assert bits[0..] == bits;
    while i + 8 <= |bits|
      invariant 0 <= i <= |bits|
      invariant bytes + Bytes(bits[i..]) == Bytes(bits)
    {
      ghost var left := bits[i..];
      assert left[..8] == bits[i..i + 8] && left[8..] == bits[i + 8..];
      bytes := bytes + [ByteOf(bits[i..i + 8])];
      i := i + 8;
    }
  }

  // ---------------------------------------------------------------- encode then decode

  lemma FilledGroups(bits: Bits)
    requires bits != []
    ensures bits + Zeros(Fill(|bits|)) == Group(bits) + (AfterGroup(bits) + Zeros(Fill(|AfterGroup(bits)|)))
  {
    if |bits| > 5 {
      FillUnique(|bits|, Fill(|AfterGroup(bits)|));
    }
  }

  /** Symbol j carries bits 5j .. 5j+4 of the data, and the last symbol is filled with zeros. */
  lemma {:induction false} SymbolsCarryTheBits(bits: Bits)
    ensures SymbolBits(Symbols(bits)) == Ok(bits + Zeros(Fill(|bits|)))
    decreases |bits|
  {
    Widths();
    if bits == [] {
      assert bits + Zeros(Fill(|bits|)) == [];
    } else {
      var chunk, rest := Group(bits), AfterGroup(bits);
      ToBitsOfValue(chunk);
      var s := Symbols(bits);
      assert s[0] == Symbol(chunk) && SymbolIndex(s[0]) == Value(chunk);
      assert s[1..] == Symbols(rest);
      SymbolsCarryTheBits(rest);
      assert SymbolBits(s) == Ok(chunk + (rest + Zeros(Fill(|rest|))));
      FilledGroups(bits);
    }
  }

  lemma FirstByte(data: seq<Byte>) returns (head: Bits)
    requires data != []
    ensures |head| == 8 && DataBits(data) == head + DataBits(data[1..]) && ByteOf(head) == data[0]
  {
    Widths();
    head := ToBits(data[0], 8);
    ValueOfToBits(data[0], 8);
  }

  lemma BytesFrom(head: Bits, rest: Bits)
    requires |head| == 8
    ensures Bytes(head + rest) == [ByteOf(head)] + Bytes(rest) && Leftover(head + rest) == Leftover(rest)
  {
    assert (head + rest)[..8] == head && (head + rest)[8..] == rest;
  }

  lemma {:induction false} BytesOfDataBits(data: seq<Byte>, tail: Bits)
    requires |tail| < 8
    ensures Bytes(DataBits(data) + tail) == data && Leftover(DataBits(data) + tail) == tail
  {
    if data == [] {
      assert DataBits(data) + tail == tail;
    } else {
      var head := FirstByte(data);
      BytesOfDataBits(data[1..], tail);
      Assoc(head, DataBits(data[1..]), tail);
      BytesFrom(head, DataBits(data[1..]) + tail);
      assert data == [data[0]] + data[1..];
    }
  }

  lemma UpperKeepsSymbols(s: string)
    requires forall i | 0 <= i < |s| :: IsSymbol(s[i]) || s[i] == '='
    ensures Upper(s) == s
  {
    forall i | 0 <= i < |s| ensures Upper(s)[i] == s[i] {
    }
  }

  lemma {:induction false} StripUndoesPadding(s: string, p: string)
    requires AllSymbols(s)
    requires AllPads(p)
    ensures StripPadding(s + p) == s
  {
    if p == "" {
      assert s + p == s;
    } else {
      assert (s + p)[..|s + p| - 1] == s + p[..|p| - 1];
      StripUndoesPadding(s, p[..|p| - 1]);
    }
  }

  /** Decoding what was encoded gives the data back, for every byte sequence, padded or not. */
  lemma RoundTrip(data: seq<Byte>, padding: bool)
    ensures Decoded(Encoded(data, padding)) == Ok(data)
  {
    var s := Symbols(DataBits(data));
    var p := if padding then Padding(|s|) else "";
    assert Encoded(data, padding) == s + p;
    UpperKeepsSymbols(s + p);
    StripUndoesPadding(s, p);
    SymbolsCarryTheBits(DataBits(data));
    BytesOfDataBits(data, Zeros(Fill(|DataBits(data)|)));
  }

  /** ceil(8n/5) symbols without padding; with padding, the next multiple of eight. */
  lemma EncodedLength(data: seq<Byte>)
    ensures 8 * |data| <= 5 * |Encoded(data, false)| < 8 * |data| + 5
    ensures |Encoded(data, true)| % 8 == 0
    ensures |Encoded(data, false)| <= |Encoded(data, true)| < |Encoded(data, false)| + 8
  {
  }

  /** Encoding never merges two inputs. */
  lemma EncodedInjective(a: seq<Byte>, b: seq<Byte>, padding: bool)
    requires Encoded(a, padding) == Encoded(b, padding)
    ensures a == b
  {
    RoundTrip(a, padding);
    RoundTrip(b, padding);
  }

  // ---------------------------------------------------------------- decode then encode

  predicate AllZero(bits: Bits) {
    forall i | 0 <= i < |bits| :: !bits[i]
  }

  /** Alphabet symbols only, a length some byte sequence has, and no stray trailing bits. */
  predicate Canonical(s: string) {
    && AllSymbols(s)
    && |s| % 8 in {0, 2, 4, 5, 7}
    && AllZero(Leftover(SymbolBits(s).value))
  }

  lemma {:induction false} SymbolsOfSymbolBits(s: string)
    requires AllSymbols(s)
    ensures Symbols(SymbolBits(s).value) == s
  {
    Widths();
    if s == "" {
    } else {
      var index := SymbolIndex(s[0]);
      var head, rest := ToBits(index, 5), SymbolBits(s[1..]).value;
      var bits := SymbolBits(s).value;
      assert bits == head + rest;
      ValueOfToBits(index, 5);
      assert Symbol(head) == s[0];
      SymbolsOfSymbolBits(s[1..]);
      assert Group(bits) == head && AfterGroup(bits) == rest;
      assert s == [s[0]] + s[1..];
    }
  }

  lemma {:induction false} DataBitsOfBytes(bits: Bits)
    ensures bits == DataBits(Bytes(bits)) + Leftover(bits)
  {
    if |bits| < 8 {
    } else {
      var first, others := bits[..8], bits[8..];
      DataBitsOfBytes(others);
      ByteOfBits(first);
      assert Bytes(bits)[1..] == Bytes(others);
      calc {
        bits;
        first + others;
        first + (DataBits(Bytes(others)) + Leftover(others));
        { Assoc(first, DataBits(Bytes(others)), Leftover(others)); }
        (first + DataBits(Bytes(others))) + Leftover(others);
        DataBits(Bytes(bits)) + Leftover(bits);
      }
    }
  }

  lemma {:induction false} SymbolsIgnoreZeroFill(x: Bits)
    ensures Symbols(x + Zeros(Fill(|x|))) == Symbols(x)
    decreases |x|
  {
    var full := x + Zeros(Fill(|x|));
    if x == [] {
      assert full == x;
    } else {
      var rest := AfterGroup(x);
      if |x| > 5 {
        FillUnique(|x|, Fill(|rest|));
      }
      assert Group(full) == Group(x);
      assert AfterGroup(full) == rest + Zeros(Fill(|rest|));
      SymbolsIgnoreZeroFill(rest);
    }
  }

  /** `m` symbols for `n` bytes and `k` spare bits: the length is legal when `k` is a fill. */
  lemma LegalLengths(n: nat, m: nat, k: nat)
    requires 5 * m == 8 * n + k && k < 8
    ensures m % 8 in {0, 2, 4, 5, 7} <==> k < 5
  {
    var q, r := m / 8, m % 8;
    assert 8 * (n - 5 * q) + k == 5 * r;
  }

  lemma OnlyCanonicalSurvives(s: string, data: seq<Byte>)
    requires Encoded(data, false) == s
    ensures Canonical(s)
  {
    var bits, k := DataBits(data), Fill(8 * |data|);
    SymbolsCarryTheBits(bits);
    BytesOfDataBits(data, Zeros(k));
    assert |bits + Zeros(k)| == 5 * |s|;
    LegalLengths(|data|, |s|, k);
  }

  lemma DecodedSymbols(s: string)
    requires AllSymbols(s)
    ensures Decoded(s) == Ok(Bytes(SymbolBits(s).value))
  {
    UpperKeepsSymbols(s);
    StripUndoesPadding(s, "");
    assert s + "" == s;
  }

  lemma ZeroTailIsFill(x: Bits, rest: Bits, m: nat)
    requires AllZero(rest) && |rest| < 5 && |x| + |rest| == 5 * m
    ensures rest == Zeros(Fill(|x|))
  {
    FillUnique(|x|, |rest|);
  }

  lemma CanonicalSurvives(s: string)
    requires Canonical(s)
    ensures Encoded(Bytes(SymbolBits(s).value), false) == s
  {
    var bits := SymbolBits(s).value;
    var data, rest := Bytes(bits), Leftover(bits);
    DataBitsOfBytes(bits);
    assert 5 * |s| == 8 * |data| + |rest|;
    LegalLengths(|data|, |s|, |rest|);
    ZeroTailIsFill(DataBits(data), rest, |s|);
    SymbolsIgnoreZeroFill(DataBits(data));
    SymbolsOfSymbolBits(s);
  }

  /** Decoding accepts `s` and encoding gives `s` back exactly when `s` is canonical. */
  lemma DecodeThenEncode(s: string)
    ensures Decoded(s).Ok? && Encoded(Decoded(s).value, false) == s <==> Canonical(s)
  {
    if Decoded(s).Ok? && Encoded(Decoded(s).value, false) == s {
      OnlyCanonicalSurvives(s, Decoded(s).value);
    }
    if Canonical(s) {
      DecodedSymbols(s);
      CanonicalSurvives(s);
    }
  }

  /** A canonical text followed by exactly its padding. */
  predicate CanonicalPadded(s: string) {
    var text := StripPadding(s);
    Canonical(text) && s == text + Padding(|text|)
  }

  /** Decoding accepts `s` and encoding with padding gives `s` back exactly when `s` is canonical and exactly padded. */
  lemma DecodeThenEncodePadded(s: string)
    ensures Decoded(s).Ok? && Encoded(Decoded(s).value, true) == s <==> CanonicalPadded(s)
  {
    var text := StripPadding(s);
    if Decoded(s).Ok? && Encoded(Decoded(s).value, true) == s {
      var data := Decoded(s).value;
      var symbols := Symbols(DataBits(data));
      StripUndoesPadding(symbols, Padding(|symbols|));
      OnlyCanonicalSurvives(symbols, data);
    }
    if CanonicalPadded(s) {
      UpperKeepsSymbols(s);
      CanonicalSurvives(text);
    }
  }

  // ---------------------------------------------------------------- bit by bit

  /** Binary digit `k` of a number, counted from the lowest: its parity after `k` halvings. */
  function BinaryDigit(n: nat, k: nat): (d: nat)
    ensures d <= 1
  {
    if k == 0 then n % 2 else BinaryDigit(n / 2, k - 1)
  }

  lemma {:induction false} BitIs(n: nat, w: nat, i: nat)
    requires i < w
    ensures ToBits(n, w)[i] == (BinaryDigit(n, w - 1 - i) == 1)
    decreases w
  {
    if i < w - 1 {
      BitIs(n / 2, w - 1, i);
    }
  }

  /** Bit `i` of the data, the highest of each byte first; zeros after the last byte. */
  function DataBit(data: seq<Byte>, i: nat): nat {
    if data == [] then 0
    else if i < 8 then BinaryDigit(data[0], 7 - i)
    else DataBit(data[1..], i - 8)
  }

  lemma {:induction false} SymbolsFrom(bits: Bits, j: nat)
    requires 5 * j < |bits|
    ensures j < |Symbols(bits)| && Symbols(bits)[j] == Symbol(Group(bits[5 * j..]))
    decreases j
  {
    if j == 0 {
      assert bits[0..] == bits;
    } else {
      SymbolsFrom(AfterGroup(bits), j - 1);
      assert AfterGroup(bits)[5 * (j - 1)..] == bits[5 * j..];
    }
  }

  function One(b: bool): nat {
    if b then 1 else 0
  }

  lemma OneBitMore(b: Bits, n: nat)
    requires n < |b|
    ensures Value(b[..n + 1]) == 2 * Value(b[..n]) + One(b[n])
  {
    assert b[..n + 1][..n] == b[..n];
  }

  lemma ValueOfFive(g: Bits)
    requires |g| >= 5
    ensures Value(g[..5]) == 16 * One(g[0]) + 8 * One(g[1]) + 4 * One(g[2]) + 2 * One(g[3]) + One(g[4])
  {
    OneBitMore(g, 0);
    OneBitMore(g, 1);
    OneBitMore(g, 2);
    OneBitMore(g, 3);
    OneBitMore(g, 4);
  }

  lemma ValueOfEight(g: Bits)
    requires |g| == 8
    ensures Value(g) == 128 * One(g[0]) + 64 * One(g[1]) + 32 * One(g[2])
                        + 16 * One(g[3]) + 8 * One(g[4]) + 4 * One(g[5]) + 2 * One(g[6]) + One(g[7])
  {
    ValueOfFive(g);
    OneBitMore(g, 5);
    OneBitMore(g, 6);
    OneBitMore(g, 7);
    assert g[..8] == g;
  }

  lemma GroupBitAt(bits: Bits, n: nat, k: nat)
    requires n < |bits| && k < 5
    ensures Group(bits[n..])[k] == (n + k < |bits| && bits[n + k])
  {
  }

  lemma {:induction false} DataBitAt(data: seq<Byte>, i: nat)
    ensures DataBit(data, i) == One(i < 8 * |data| && DataBits(data)[i])
  {
    if data != [] {
      if i < 8 {
        BitIs(data[0], 8, i);
      } else {
        DataBitAt(data[1..], i - 8);
      }
    }
  }

  lemma GroupBit(data: seq<Byte>, n: nat, k: nat)
    requires n < 8 * |data| && k < 5
    ensures One(Group(DataBits(data)[n..])[k]) == DataBit(data, n + k)
  {
    var bits := DataBits(data);
    GroupBitAt(bits, n, k);
    DataBitAt(data, n + k);
  }

  /** The number five bits stand for, given by their positions. */
  function Five(bit: nat -> nat, n: nat): nat {
    16 * bit(n) + 8 * bit(n + 1) + 4 * bit(n + 2) + 2 * bit(n + 3) + bit(n + 4)
  }

  function Eight(bit: nat -> nat, n: nat): nat {
    8 * Five(bit, n) + 4 * bit(n + 5) + 2 * bit(n + 6) + bit(n + 7)
  }

  lemma FiveIs(g: Bits, bit: nat -> nat, n: nat)
    requires |g| == 5 && forall k | 0 <= k < 5 :: One(g[k]) == bit(n + k)
    ensures Value(g) == Five(bit, n)
  {
    ValueOfFive(g);
    assert g[..5] == g;
  }

  lemma EightIs(g: Bits, bit: nat -> nat, n: nat)
    requires |g| == 8 && forall k | 0 <= k < 8 :: One(g[k]) == bit(n + k)
    ensures Value(g) == Eight(bit, n)
  {
    ValueOfEight(g);
  }

  lemma GroupIs(data: seq<Byte>, n: nat)
    requires n < 8 * |data|
    ensures Value(Group(DataBits(data)[n..])) == Five(i => DataBit(data, i), n)
  {
    var g, bit := Group(DataBits(data)[n..]), (i: nat) => DataBit(data, i);
    forall k | 0 <= k < 5 ensures One(g[k]) == bit(n + k) {
      GroupBit(data, n, k);
    }
    FiveIs(g, bit, n);
  }

  lemma SymbolIs(g: Bits)
    requires |g| == 5
    ensures Value(g) < 32 == |ALPHABET| && Symbol(g) == ALPHABET[Value(g)]
  {
    Widths();
    AlphabetTable();
  }

  /** The text, symbol by symbol: each is the alphabet's entry for five bits of the data, the highest first, filled with zeros at the end. */
  lemma EncodedExactly(data: seq<Byte>, j: nat)
    requires j < |Encoded(data, false)|
    ensures var n := Five(i => DataBit(data, i), 5 * j);
            n < 32 == |ALPHABET| && Encoded(data, false)[j] == ALPHABET[n]
  {
    SymbolsFrom(DataBits(data), j);
    GroupIs(data, 5 * j);
    SymbolIs(Group(DataBits(data)[5 * j..]));
  }

  /** Padding is as many '=' as reach the next multiple of eight. */
  lemma PaddedExactly(data: seq<Byte>)
    ensures var text, padded := Encoded(data, false), Encoded(data, true);
            && |padded| % 8 == 0 && |text| <= |padded| < |text| + 8 && padded[..|text|] == text
            && forall i | |text| <= i < |padded| :: padded[i] == '='
  {
  }

  /** Bit `i` of a text, the highest of each symbol's five first. */
  function TextBit(s: string, i: nat): nat
    requires AllSymbols(s)
  {
    if s == "" then 0
    else if i < 5 then BinaryDigit(SymbolIndex(s[0]), 4 - i)
    else TextBit(s[1..], i - 5)
  }

  lemma {:induction false} TextBitIs(s: string, i: nat)
    requires AllSymbols(s) && i < 5 * |s|
    ensures One(SymbolBits(s).value[i]) == TextBit(s, i)
  {
    if i < 5 {
      BitIs(SymbolIndex(s[0]), 5, i);
    } else {
      TextBitIs(s[1..], i - 5);
    }
  }

  lemma {:induction false} BytesAt(bits: Bits, k: nat)
    requires 8 * k + 8 <= |bits|
    ensures k < |Bytes(bits)| && Bytes(bits)[k] == ByteOf(bits[8 * k..8 * k + 8])
    decreases k
  {
    if k == 0 {
      assert bits[0..8] == bits[..8];
    } else {
      BytesAt(bits[8..], k - 1);
      assert bits[8..][8 * (k - 1)..8 * (k - 1) + 8] == bits[8 * k..8 * k + 8];
    }
  }

  /** What a text of symbols decodes to, byte by byte: eight of its bits each, the highest first; leftover bits are dropped. */
  lemma DecodedExactly(s: string, k: nat)
    requires AllSymbols(s) && k < 5 * |s| / 8
    ensures Decoded(s).Ok? && |Decoded(s).value| == 5 * |s| / 8
    ensures Decoded(s).value[k] == Eight(i => TextBit(s, i), 8 * k)
  {
    var bits, bit := SymbolBits(s).value, (i: nat) => TextBit(s, i);
    var g := bits[8 * k..8 * k + 8];
    DecodedSymbols(s);
    BytesAt(bits, k);
    forall n: nat | n < 8 ensures One(g[n]) == bit(8 * k + n) {
      TextBitIs(s, 8 * k + n);
    }
    EightIs(g, bit, 8 * k);
  }

  /** A lower-case letter reads as its capital. */
  predicate SameButCase(s: string, t: string) {
    |s| == |t| && forall i | 0 <= i < |s| :: s[i] == t[i] || ('a' <= s[i] <= 'z' && s[i] as int == t[i] as int + 32)
  }

  lemma CaseIsIgnored(s: string, t: string)
    requires SameButCase(s, t)
    ensures Decoded(s) == Decoded(t)
  {
    forall i | 0 <= i < |s| ensures UpperChar(s[i]) == UpperChar(t[i]) {
    }
    assert Upper(s) == Upper(t);
  }

  lemma PaddingIsIgnored(s: string)
    ensures Decoded(s + "=") == Decoded(s)
  {
    assert Upper(s + "=") == Upper(s) + "=";
    assert (Upper(s) + "=")[..|s|] == Upper(s);
  }

  /** A text that does not end in padding decodes exactly when every character is a letter of either case or a digit from 2 to 7. */
  lemma AcceptsExactly(s: string)
    requires s != "" ==> s[|s| - 1] != '='
    ensures Decoded(s).Ok? <==> forall i | 0 <= i < |s| :: 'A' <= s[i] <= 'Z' || 'a' <= s[i] <= 'z' || '2' <= s[i] <= '7'
  {
    var u := Upper(s);
    assert StripPadding(u) == u;
    forall i | 0 <= i < |s| ensures IsSymbol(u[i]) <==> 'A' <= s[i] <= 'Z' || 'a' <= s[i] <= 'z' || '2' <= s[i] <= '7' {
    }
  }

  lemma {:induction false} FirstStranger(s: string, i: nat)
    requires i < |s| && !IsSymbol(s[i]) && forall j | 0 <= j < i :: IsSymbol(s[j])
    ensures SymbolBits(s) == Err(s[i])
  {
    if i > 0 {
      assert forall j | 0 <= j < i - 1 :: s[1..][j] == s[j + 1];
      FirstStranger(s[1..], i - 1);
    }
  }

  /** The error names the first character that is none of these. */
  lemma RefusesExactly(s: string, i: nat)
    requires i < |s| && s[|s| - 1] != '='
    requires forall j | 0 <= j < i :: 'A' <= s[j] <= 'Z' || 'a' <= s[j] <= 'z' || '2' <= s[j] <= '7'
    requires !('A' <= s[i] <= 'Z' || 'a' <= s[i] <= 'z' || '2' <= s[i] <= '7')
    ensures Decoded(s) == Err(s[i])
  {
    var u := Upper(s);
    assert StripPadding(u) == u && u[i] == s[i];
    FirstStranger(u, i);
  }
}
