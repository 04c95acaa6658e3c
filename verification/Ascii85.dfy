// extract/pdfobj.go: the ASCII85Decode filter (section 7.4.3 of ISO 32000-1).
module Ascii85 {
  type Byte = b: int | 0 <= b < 256
  type Digit = d: int | 0 <= d < 85

  const WORD := 0x1_0000_0000
  const EOD: seq<Byte> := [126, 62]

  // ---- Words, bytes and digits.

  function Word(b: seq<Byte>): nat
    requires |b| == 4
  {
    var first: int, second: int, third: int, last: int := b[0], b[1], b[2], b[3];
    ((first * 256 + second) * 256 + third) * 256 + last
  }

  // The four bytes of a word, the most significant first.
  function BigEndian(v: nat): (r: seq<Byte>)
    requires v < WORD
    ensures |r| == 4
  {
    var high := v / 256;
    var higher := high / 256;
    [higher / 256, higher % 256, high % 256, v % 256]
  }

  function Value(group: seq<Digit>): nat {
    if group == [] then 0 else Value(group[..|group| - 1]) * 85 + group[|group| - 1]
  }

  function Digits(v: nat): (r: seq<Digit>)
    ensures |r| == 5
  {
    var v1 := v / 85;
    var v2 := v1 / 85;
    var v3 := v2 / 85;
    [v3 / 85 % 85, v3 % 85, v2 % 85, v1 % 85, v % 85]
  }

  function Nines(n: nat): seq<Digit> {
    seq(n, _ => 84)
  }

  // What base85 answers: the group read as one 32 bit word, cut to n - 1 bytes.
  function GroupBytes(group: seq<Digit>, n: nat): (r: seq<Byte>)
    requires |group| == 5 && 1 <= n <= 5
  {
    BigEndian(Value(group) % WORD)[..n - 1]
  }

  // ---- The decoder, as written, and the recursion it computes.

  function Decode(pending: seq<Digit>, data: seq<Byte>): seq<Byte>
    requires |pending| < 5
    decreases |data|
  {
    if data == [] then
      if |pending| > 1 then GroupBytes(pending + Nines(5 - |pending|), |pending|) else []
    else if data[0] == 122 && pending == [] then [0, 0, 0, 0] + Decode([], data[1..])
    else if data[0] < 33 || data[0] > 117 then Decode(pending, data[1..])
    else
      var group := pending + [data[0] - 33];
      if |group| < 5 then Decode(group, data[1..])
      else GroupBytes(group, 5) + Decode([], data[1..])
  }

  // bytes.Index and the slice before it.
  function Cut(data: seq<Byte>): seq<Byte> {
    if data == [] || EOD <= data then [] else [data[0]] + Cut(data[1..])
  }

  lemma Wraps(v: nat, d: Digit)
    ensures (v % WORD * 85 + d) % WORD == (v * 85 + d) % WORD
  {
    var q, x := v / WORD, v % WORD * 85 + d;
    assert v * 85 + d == (q * 85) * WORD + x;
    WrapsOff(q * 85, x);
  }

  lemma WrapsOff(k: int, x: int)
    ensures (k * WORD + x) % WORD == x % WORD
  {
    assert k * WORD + x == (k + x / WORD) * WORD + x % WORD;
  }

  // The accumulator is a uint32 that wraps at every step.
  method Base85(group: seq<Digit>, n: nat) returns (out: seq<Byte>)
    requires |group| == 5 && 1 <= n <= 5
    ensures out == GroupBytes(group, n)
  {
    var v := 0;
    for i := 0 to 5
      invariant v == Value(group[..i]) % WORD
    {
      assert group[..i+1][..i] == group[..i];
      Wraps(Value(group[..i]), group[i]);
      v := (v * 85 + group[i]) % WORD;
    }
    assert group[..5] == group;
    var b := BigEndian(v);
    return b[..n - 1];
  }

  // One byte of the data, and the end of it.
  lemma DecodeStep(pending: seq<Digit>, data: seq<Byte>, k: nat)
    requires |pending| < 5 && k < |data|
    ensures Decode(pending, data[k..]) ==
            if data[k] == 122 && pending == [] then [0, 0, 0, 0] + Decode([], data[k + 1..])
            else if data[k] < 33 || data[k] > 117 then Decode(pending, data[k + 1..])
            else if |pending| < 4 then Decode(pending + [data[k] - 33], data[k + 1..])
            else GroupBytes(pending + [data[k] - 33], 5) + Decode([], data[k + 1..])
  {
    hide GroupBytes;
    assert data[k..][0] == data[k] && data[k..][1..] == data[k + 1..];
  }

  lemma DecodeEnd(pending: seq<Digit>)
    requires |pending| < 5
    ensures Decode(pending, []) == if |pending| > 1 then GroupBytes(pending + Nines(5 - |pending|), |pending|) else []
  {
  }

  // A short last group, filled up with the highest digit.
  method Pad(group: array<Digit>, n: nat)
    requires group.Length == 5 && n <= 5
    modifies group
    ensures group[..] == old(group[..n]) + Nines(5 - n)
  {
    for i := n to 5
      invariant group[..i] == old(group[..n]) + Nines(i - n)
    {
      group[i] := 84;
      assert group[..i + 1] == group[..i] + [84];
    }
    assert group[..] == group[..5];
  }

  lemma Regroup(a: seq<Byte>, b: seq<Byte>, c: seq<Byte>)
    ensures a + (b + c) == (a + b) + c
  {
  }

  method Unascii85(input: seq<Byte>) returns (out: seq<Byte>)
    ensures out == Decode([], Cut(input))
  {
    hide Decode, GroupBytes, Cut;
    var data := Cut(input);
    out := [];
    var group := new Digit[5](_ => 0);
    var n := 0;
    ghost var pending: seq<Digit> := [];
    assert data[0..] == data;
    for k := 0 to |data|
      invariant 0 <= n < 5 && group[..n] == pending
      invariant out + Decode(pending, data[k..]) == Decode([], data)
    {
      var c := data[k];
      DecodeStep(pending, data, k);
      if c == 122 && n == 0 {
        Regroup(out, [0, 0, 0, 0], Decode([], data[k + 1..]));
        out := out + [0, 0, 0, 0];
        continue;
      }
      if c < 33 || c > 117 {
        continue;
      }
      group[n] := c - 33;
      n := n + 1;
      pending := pending + [c - 33];
      assert group[..n] == pending;
      if n < 5 {
        continue;
      }
      assert group[..] == pending;
      var word := Base85(group[..], 5);
      Regroup(out, word, Decode([], data[k + 1..]));
      out := out + word;
      n, pending := 0, [];
    }
    assert data[|data|..] == [];
    DecodeEnd(pending);
    if n > 1 {
      Pad(group, n);
      var word := Base85(group[..], n);
      out := out + word;
    }
  }

  // ---- The standard encoding: full groups, z for a zero group, a short last group.

  function Printable(digits: seq<Digit>): seq<Byte> {
    seq(|digits|, i requires 0 <= i < |digits| => digits[i] as int + 33)
  }

  function Zeros(n: nat): seq<Byte> {
    seq(n, _ => 0)
  }

  function Encode(b: seq<Byte>): seq<Byte> {
    if b == [] then []
    else if |b| < 4 then Printable(Digits(Word(b + Zeros(4 - |b|)))[..|b| + 1])
    else if Word(b[..4]) == 0 then [122] + Encode(b[4..])
    else Printable(Digits(Word(b[..4]))) + Encode(b[4..])
  }

  // ---- The arithmetic the round trip rests on.

  lemma LowByte(a: int, b: Byte)
    ensures (a * 256 + b) / 256 == a && (a * 256 + b) % 256 == b
  {
  }

  lemma WordRoundTrip(b: seq<Byte>)
    requires |b| == 4
    ensures Word(b) < WORD && BigEndian(Word(b)) == b
    ensures Word(b) == 0 ==> b == [0, 0, 0, 0]
  {
    var first: int, second: int, third: int, last: int := b[0], b[1], b[2], b[3];
    LowByte((first * 256 + second) * 256 + third, b[3]);
    LowByte(first * 256 + second, b[2]);
    LowByte(first, b[1]);
  }

  lemma BytesRoundTrip(v: nat)
    requires v < WORD
    ensures Word(BigEndian(v)) == v
  {
  }

  lemma ValueUnfolds(g: seq<Digit>)
    requires |g| == 5
    ensures var a: int, b: int, c: int, d: int, e: int := g[0], g[1], g[2], g[3], g[4];
            Value(g) == (((a * 85 + b) * 85 + c) * 85 + d) * 85 + e
  {
    assert g[..4][..3] == g[..3] && g[..3][..2] == g[..2] && g[..2][..1] == g[..1] && g[..1][..0] == [];
    assert Value(g) == Value(g[..4]) * 85 + g[4];
    assert Value(g[..4]) == Value(g[..3]) * 85 + g[3];
    assert Value(g[..3]) == Value(g[..2]) * 85 + g[2];
    assert Value(g[..2]) == Value(g[..1]) * 85 + g[1];
    assert Value(g[..1]) == Value([]) * 85 + g[0];
  }

  lemma DigitsRoundTrip(v: nat)
    requires v < WORD
    ensures Value(Digits(v)) == v
  {
    ValueUnfolds(Digits(v));
  }

  // Padding a group cut to n + 1 digits with 84s moves its word up by less than
  // 85^k where k = 4 - n bytes were dropped; 85^k <= 256^k, so no kept byte
  // changes and nothing overflows 32 bits.
  lemma ShortGroup(b: seq<Byte>)
    requires 1 <= |b| <= 3
    ensures var digits := Digits(Word(b + Zeros(4 - |b|)))[..|b| + 1];
            && Value(digits + Nines(4 - |b|)) < WORD
            && GroupBytes(digits + Nines(4 - |b|), |b| + 1) == b
  {
    hide Value, Word, BigEndian, Digits;
    WordRoundTrip(b + Zeros(4 - |b|));
    var v := Word(b + Zeros(4 - |b|));
    PaddedValue(Digits(v), |b| + 1);
    DigitsRoundTrip(v);
    KeptBytes(b, v, Value(Digits(v)[..|b| + 1] + Nines(4 - |b|)));
  }

  lemma PaddedValue(g: seq<Digit>, n: nat)
    requires |g| == 5 && 2 <= n <= 4
    ensures Value(g) <= Value(g[..n] + Nines(5 - n)) <
            Value(g) + (if n == 2 then 614125 else if n == 3 then 7225 else 85)
  {
    ValueUnfolds(g);
    ValueUnfolds(g[..n] + Nines(5 - n));
  }

  lemma KeptBytes(b: seq<Byte>, v: nat, w: nat)
    requires 1 <= |b| <= 3 && v == Word(b + Zeros(4 - |b|))
    requires v <= w < v + (if |b| == 1 then 0x100_0000 else if |b| == 2 then 0x1_0000 else 0x100)
    ensures w < WORD && BigEndian(w)[..|b|] == b
  {
    BytesRoundTrip(w);
    var k := BigEndian(w);
    var kept: int, held: int := k[0], b[0];
    if |b| == 2 {
      var k1: int, b1: int := k[1], b[1];
      assert kept * 256 + k1 == held * 256 + b1;
    } else if |b| == 3 {
      var k1: int, k2: int, b1: int, b2: int := k[1], k[2], b[1], b[2];
      assert (kept * 256 + k1) * 256 + k2 == (held * 256 + b1) * 256 + b2;
    }
  }

  // ---- Decoding what was encoded.

  lemma {:induction false} DecodePrintable(pending: seq<Digit>, digits: seq<Digit>, rest: seq<Byte>)
    requires |pending| + |digits| <= 5 && |pending| < 5
    ensures Decode(pending, Printable(digits) + rest) ==
            if |pending + digits| == 5 then GroupBytes(pending + digits, 5) + Decode([], rest)
            else Decode(pending + digits, rest)
    decreases |digits|
  {
    if digits == [] {
      assert Printable(digits) + rest == rest && pending + digits == pending;
    } else {
      var data := Printable(digits) + rest;
      assert data[1..] == Printable(digits[1..]) + rest;
      assert pending + [digits[0]] + digits[1..] == pending + digits;
      if |pending| < 4 {
        DecodePrintable(pending + [digits[0]], digits[1..], rest);
      } else {
        assert Printable(digits[1..]) + rest == rest;
      }
    }
  }

  lemma {:induction false} DecodeEncode(b: seq<Byte>)
    ensures Decode([], Encode(b)) == b
  {
    hide Value, Word, BigEndian, Digits, Decode;
    if b == [] {
      DecodeEnd([]);
    } else if |b| < 4 {
      var digits := Digits(Word(b + Zeros(4 - |b|)))[..|b| + 1];
      DecodePrintable([], digits, []);
      assert Printable(digits) + [] == Encode(b) && [] + digits == digits;
      DecodeEnd(digits);
      ShortGroup(b);
    } else {
      DecodeEncode(b[4..]);
      WordRoundTrip(b[..4]);
      assert b == b[..4] + b[4..];
      if Word(b[..4]) == 0 {
        DecodeStep([], Encode(b), 0);
        assert Encode(b)[0..] == Encode(b) && Encode(b)[1..] == Encode(b[4..]);
      } else {
        var digits := Digits(Word(b[..4]));
        DigitsRoundTrip(Word(b[..4]));
        DecodePrintable([], digits, Encode(b[4..]));
        assert [] + digits == digits;
      }
    }
  }

  // ---- White space anywhere, and whatever follows the end marker.

  // A byte the decoder skips wherever it stands. (122, the letter z, is skipped
  // only inside a group.)
  predicate Skipped(c: Byte) {
    c < 33 || (c > 117 && c != 122)
  }

  function Strip(data: seq<Byte>): seq<Byte> {
    if data == [] then []
    else if Skipped(data[0]) then Strip(data[1..])
    else [data[0]] + Strip(data[1..])
  }

  lemma {:induction false} SkippedIgnored(pending: seq<Digit>, data: seq<Byte>)
    requires |pending| < 5
    ensures Decode(pending, data) == Decode(pending, Strip(data))
    decreases |data|
  {
    if data != [] {
      if Skipped(data[0]) {
        SkippedIgnored(pending, data[1..]);
      } else {
        assert Strip(data)[0] == data[0] && Strip(data)[1..] == Strip(data[1..]);
        if data[0] == 122 {
          SkippedIgnored(pending, data[1..]);
        } else if |pending| < 4 {
          SkippedIgnored(pending + [data[0] - 33], data[1..]);
        } else {
          SkippedIgnored([], data[1..]);
        }
      }
    }
  }

  ghost predicate Unmarked(body: seq<Byte>) {
    forall i :: 0 <= i < |body| - 1 ==> !(body[i] == 126 && body[i + 1] == 62)
  }

  lemma {:induction false} CutShape(data: seq<Byte>)
    ensures Unmarked(Cut(data)) && Cut(data) <= data
    ensures data == Cut(data) || Cut(data) + EOD <= data
  {
    if data != [] && !(EOD <= data) {
      CutShape(data[1..]);
      var rest := Cut(data[1..]);
      assert data == [data[0]] + data[1..];
      if data[1..] != rest { assert [data[0]] + (rest + EOD) == Cut(data) + EOD; }
      if data[0] == 126 && rest != [] { assert data[1] == rest[0]; }
    }
  }

  lemma {:induction false} CutFinds(data: seq<Byte>, body: seq<Byte>)
    requires Unmarked(body) && (data == body || body + EOD <= data)
    ensures Cut(data) == body
  {
    if body != [] {
      var longer := if data == body then body else body + EOD;
      assert longer <= data && (|data| >= 2 ==> longer[..2] == data[..2]);
      assert data[1..] == body[1..] || body[1..] + EOD <= data[1..] by {
        if data != body { assert (body + EOD)[1..] == body[1..] + EOD; }
      }
      CutFinds(data[1..], body[1..]);
    }
  }

  // The text is cut at its first marker; a lone tilde is no marker.
  lemma CutIff(data: seq<Byte>, body: seq<Byte>)
    ensures Cut(data) == body <==> Unmarked(body) && (data == body || body + EOD <= data)
  {
    hide Cut, Unmarked;
    CutShape(data);
    if Unmarked(body) && (data == body || body + EOD <= data) {
      CutFinds(data, body);
    }
  }

  // Any byte string, encoded, with bytes the decoder skips put in any way at all
  // that spells no marker, with or without the end marker and anything after it,
  // decodes to itself.
  lemma RoundTrip(b: seq<Byte>, body: seq<Byte>, tail: seq<Byte>)
    requires Strip(body) == Encode(b) && Unmarked(body)
    ensures Decode([], Cut(body)) == b
    ensures Decode([], Cut(body + EOD + tail)) == b
  {
    hide Decode, Encode, Strip, Cut, Unmarked;
    CutIff(body, body);
    CutIff(body + EOD + tail, body);
    SkippedIgnored([], body);
    DecodeEncode(b);
  }
}
