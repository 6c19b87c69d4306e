/**
 Base64 as the node prints and reads identifiers.  Strings are sequences of character
 codes.  The reference is section 4 of RFC 4648: the bit string of the input, cut into
 groups of six.
 */
module Base64 {
  import opened Common
  import opened Bytes

  type Text = seq<byte>
  type sextet = x: int | 0 <= x < 64

  const PAD: byte := '=' as int

  const UPPER := "ABCDEFGHIJKLMNOPQRSTUVWXYZ"
  const LOWER := "abcdefghijklmnopqrstuvwxyz"
  const DIGITS := "0123456789"
  /** The tables of sections 4 and 5 of RFC 4648. */
  const STANDARD := UPPER + LOWER + DIGITS + "+/"
  const URL_SAFE := UPPER + LOWER + DIGITS + "-_"

  function Table(url: bool): string {
    if url then URL_SAFE else STANDARD
  }

  /** The character a digit is printed as: the tables' letters and figures come in the order of their codes. */
  function Alphabet(url: bool, d: sextet): byte {
    if d < 26 then 'A' as int + d
    else if d < 52 then 'a' as int + (d - 26)
    else if d < 62 then '0' as int + (d - 52)
    else if d == 62 then if url then '-' as int else '+' as int
    else if url then '_' as int else '/' as int
  }

  lemma LettersInOrder(d: int)
    requires 0 <= d < 26
    ensures UPPER[d] as int == 'A' as int + d && LOWER[d] as int == 'a' as int + d
  {
  }

  lemma FiguresInOrder(d: int)
    requires 0 <= d < 10
    ensures DIGITS[d] as int == '0' as int + d
  {
  }

  /** That is the character of the table. */
  lemma AlphabetIsTable(url: bool, d: sextet)
    ensures |Table(url)| == 64 && Table(url)[d] as int == Alphabet(url, d)
  {
    assert |UPPER| == 26 && |LOWER| == 26 && |DIGITS| == 10;
    if d < 26 {
      LettersInOrder(d);
    } else if d < 52 {
      LettersInOrder(d - 26);
    } else if d < 62 {
      FiguresInOrder(d - 52);
    }
    hide UPPER, LOWER, DIGITS;
  }

  function Print(url: bool, digits: seq<sextet>): (r: Text)
    ensures |r| == |digits|
  {
    if digits == [] then [] else [Alphabet(url, digits[0])] + Print(url, digits[1..])
  }

  // ----- the reference: bits in groups of six -----

  type Bit = x: int | x == 0 || x == 1
  type Bits = seq<Bit>

  function Pow2(k: nat): nat {
    if k == 0 then 1 else 2 * Pow2(k - 1)
  }

  /** The `k` lowest bits of a number, the most significant first. */
  function BitsOf(n: nat, k: nat): (r: Bits)
    ensures |r| == k
    decreases k
  {
    if k == 0 then [] else BitsOf(n / 2, k - 1) + [n % 2]
  }

  function Value(bits: Bits): nat {
    if bits == [] then 0 else 2 * Value(bits[..|bits| - 1]) + bits[|bits| - 1]
  }

  function BitString(bin: Binary): Bits {
    if bin == [] then [] else BitsOf(bin[0], 8) + BitString(bin[1..])
  }

  /** Values of consecutive groups of six bits, the last filled up with zeros. */
  function Groups(bits: Bits): seq<nat>
    decreases |bits|
  {
    if bits == [] then []
    else if |bits| < 6 then [Value(bits + BitsOf(0, 6 - |bits|))]
    else [Value(bits[..6])] + Groups(bits[6..])
  }

  // ----- the code's arithmetic on three bytes at a time -----

  function Digit1(a: int): sextet
    requires 0 <= a < 256
  {
    a / 4
  }

  function Digit2(a: int, b: int): sextet
    requires 0 <= a < 256 && 0 <= b < 256
  {
    a % 4 * 16 + b / 16
  }

  function Digit3(b: int, c: int): sextet
    requires 0 <= b < 256 && 0 <= c < 256
  {
    b % 16 * 4 + c / 64
  }

  function Digit4(c: int): sextet
    requires 0 <= c < 256
  {
    c % 64
  }

  function Sextets(bin: Binary): seq<sextet> {
    if bin == [] then []
    else if |bin| == 1 then [Digit1(bin[0]), Digit2(bin[0], 0)]
    else if |bin| == 2 then [Digit1(bin[0]), Digit2(bin[0], bin[1]), Digit3(bin[1], 0)]
    else [Digit1(bin[0]), Digit2(bin[0], bin[1]), Digit3(bin[1], bin[2]), Digit4(bin[2])] + Sextets(bin[3..])
  }

  function Padding(bin: Binary): Text {
    if |bin| % 3 == 1 then [PAD, PAD] else if |bin| % 3 == 2 then [PAD] else []
  }

  function Encode(bin: Binary, url: bool, padding: bool): Text {
    Print(url, Sextets(bin)) + if padding then Padding(bin) else []
  }

  lemma {:induction false} SplitBits(h: nat, l: nat, j: nat, k: nat)
    requires l < Pow2(k)
    ensures BitsOf(h * Pow2(k) + l, j + k) == BitsOf(h, j) + BitsOf(l, k)
    decreases k
  {
    if k == 0 {
      assert BitsOf(l, k) == [] && h * Pow2(k) + l == h;
    } else {
      var n := h * Pow2(k) + l;
      assert Pow2(k) == 2 * Pow2(k - 1);
      BitsStep(n, j + k);
      BitsStep(l, k);
      hide *;
      Halve(h, Pow2(k - 1), l);
      SplitBits(h, l / 2, j, k - 1);
      assert (j + k) - 1 == j + (k - 1);
      assert BitsOf(h, j) + (BitsOf(l / 2, k - 1) + [l % 2]) == BitsOf(h, j) + BitsOf(l / 2, k - 1) + [l % 2];
    }
  }

  lemma BitsStep(n: nat, k: nat)
    requires k > 0
    ensures BitsOf(n, k) == BitsOf(n / 2, k - 1) + [n % 2]
  {
  }

  lemma Halve(h: nat, p: nat, l: nat)
    ensures (h * (2 * p) + l) / 2 == h * p + l / 2 && (h * (2 * p) + l) % 2 == l % 2
  {
    var x := h * p;
    assert h * (2 * p) == 2 * x;
  }

  lemma ValueStep(bits: Bits, b: Bit)
    ensures Value(bits + [b]) == 2 * Value(bits) + b
  {
    assert (bits + [b])[..|bits|] == bits;
  }

  lemma {:induction false} ValueAppend(a: Bits, l: nat, k: nat)
    requires l < Pow2(k)
    ensures Value(a + BitsOf(l, k)) == Value(a) * Pow2(k) + l
    decreases k
  {
    if k == 0 {
      assert a + BitsOf(l, k) == a;
    } else {
      assert Pow2(k) == 2 * Pow2(k - 1) && BitsOf(l, k) == BitsOf(l / 2, k - 1) + [l % 2];
      hide *;
      ValueAppend(a, l / 2, k - 1);
      ValueStep(a + BitsOf(l / 2, k - 1), l % 2);
      assert a + BitsOf(l, k) == a + BitsOf(l / 2, k - 1) + [l % 2];
      Twice(Value(a), Pow2(k - 1), l);
    }
  }

  lemma Twice(v: nat, p: nat, l: nat)
    ensures 2 * (v * p + l / 2) + l % 2 == v * (2 * p) + l
  {
  }

  lemma SmallPowers()
    ensures Pow2(2) == 4 && Pow2(4) == 16 && Pow2(6) == 64
  {
    assert Pow2(1) == 2 && Pow2(3) == 8 && Pow2(5) == 32;
  }

  /** A byte cut into its higher and its `k` lower bits. */
  lemma CutByte(d: byte, k: nat, high: nat, low: nat)
    requires k <= 8 && d == high * Pow2(k) + low && low < Pow2(k)
    ensures BitsOf(d, 8) == BitsOf(high, 8 - k) + BitsOf(low, k)
  {
    hide *;
    SplitBits(high, low, 8 - k, k);
  }

  lemma {:induction false} Pow2Positive(k: nat)
    ensures Pow2(k) > 0
  {
    if k > 0 { Pow2Positive(k - 1); }
  }

  /** Two runs of bits that make up one sextet. */
  lemma JoinBits(h: nat, l: nat, j: nat, k: nat)
    requires h < Pow2(j) && l < Pow2(k)
    ensures Value(BitsOf(h, j) + BitsOf(l, k)) == h * Pow2(k) + l
  {
    ValueOf(h, j);
    hide *;
    ValueAppend(BitsOf(h, j), l, k);
  }

  lemma ValueOf(n: nat, k: nat)
    requires n < Pow2(k)
    ensures Value(BitsOf(n, k)) == n
  {
    assert Value([]) == 0;
    hide *;
    ValueAppend([], n, k);
    assert [] + BitsOf(n, k) == BitsOf(n, k);
  }

  lemma GroupsStep(group: Bits, rest: Bits)
    requires |group| == 6
    ensures Groups(group + rest) == [Value(group)] + Groups(rest)
  {
    var bits := group + rest;
    assert bits[..6] == group && bits[6..] == rest;
  }

  lemma LastGroup(h: nat, j: nat)
    requires 0 < j < 6 && h < Pow2(j)
    ensures Groups(BitsOf(h, j)) == [h * Pow2(6 - j)]
  {
    assert Groups(BitsOf(h, j)) == [Value(BitsOf(h, j) + BitsOf(0, 6 - j))];
    hide *;
    Pow2Positive(6 - j);
    JoinBits(h, 0, j, 6 - j);
  }

  /** A sextet that ends inside the byte `d`: `over` is what the byte before left. */
  lemma CutGroups(over: nat, j: nat, high: nat, low: nat, d: byte, rest: Bits)
    requires j <= 4 && over < Pow2(j) && high < Pow2(6 - j) && low < Pow2(2 + j) && d == high * Pow2(2 + j) + low
    ensures Groups(BitsOf(over, j) + (BitsOf(d, 8) + rest))
            == [over * Pow2(6 - j) + high] + Groups(BitsOf(low, 2 + j) + rest)
  {
    hide *;
    CutByte(d, 2 + j, high, low);
    var o, a, b := BitsOf(over, j), BitsOf(high, 6 - j), BitsOf(low, 2 + j);
    assert o + ((a + b) + rest) == (o + a) + (b + rest);
    GroupsStep(o + a, b + rest);
    JoinBits(over, high, j, 6 - j);
  }

  lemma CutFirst(high: nat, low: nat, d: byte, rest: Bits)
    requires high < 64 && low < 4 && d == high * 4 + low
    ensures Groups(BitsOf(d, 8) + rest) == [high] + Groups(BitsOf(low, 2) + rest)
  {
    SmallPowers();
    assert Pow2(0) == 1 && BitsOf(0, 0) == [];
    hide *;
    CutGroups(0, 0, high, low, d, rest);
    assert [] + (BitsOf(d, 8) + rest) == BitsOf(d, 8) + rest;
  }

  lemma CutSecond(over: nat, high: nat, low: nat, d: byte, rest: Bits)
    requires over < 4 && high < 16 && low < 16 && d == high * 16 + low
    ensures Groups(BitsOf(over, 2) + (BitsOf(d, 8) + rest)) == [over * 16 + high] + Groups(BitsOf(low, 4) + rest)
  {
    SmallPowers();
    hide *;
    CutGroups(over, 2, high, low, d, rest);
  }

  lemma CutThird(over: nat, high: nat, low: nat, d: byte, rest: Bits)
    requires over < 16 && high < 4 && low < 64 && d == high * 64 + low
    ensures Groups(BitsOf(over, 4) + (BitsOf(d, 8) + rest)) == [over * 4 + high] + Groups(BitsOf(low, 6) + rest)
  {
    SmallPowers();
    hide *;
    CutGroups(over, 4, high, low, d, rest);
  }

  /** What the bits left over at the end of the input make, filled up with zeros. */
  lemma Leftover(over: nat, j: nat)
    requires j == 2 || j == 4 || j == 6
    requires over < Pow2(j)
    ensures j == 2 ==> Groups(BitsOf(over, j) + []) == [over * 16]
    ensures j == 4 ==> Groups(BitsOf(over, j) + []) == [over * 4]
  {
    SmallPowers();
    hide *;
    assert BitsOf(over, j) + [] == BitsOf(over, j);
    if j < 6 { LastGroup(over, j); }
  }

  lemma WholeGroup(over: nat, rest: Bits)
    requires over < 64
    ensures Groups(BitsOf(over, 6) + rest) == [over] + Groups(rest)
  {
    SmallPowers();
    hide *;
    GroupsStep(BitsOf(over, 6), rest);
    ValueOf(over, 6);
  }

  lemma BitStringStep(bin: Binary)
    requires bin != []
    ensures BitString(bin) == BitsOf(bin[0], 8) + BitString(bin[1..])
  {
  }

  lemma NoGroups()
    ensures BitString([]) == [] && Groups([]) == [] && Sextets([]) == []
  {
  }

  /** What the code prints are the groups of six of the bit string. */
  lemma {:induction false} SextetsAreGroups(bin: Binary)
    ensures Sextets(bin) == Groups(BitString(bin))
    decreases |bin|
  {
    hide *;
    NoGroups();
    if bin != [] {
      FirstByte(bin);
      SextetsShort(bin);
      if |bin| == 1 {
        LastOfOne(bin[0]);
        assert bin[1..] == [];
      } else {
        SecondByte(bin[1..], bin[0]);
        if |bin| > 2 {
          SextetsStep(bin);
          assert bin[1..][2..] == bin[3..];
        }
      }
    }
  }

  lemma LastOfOne(d: byte)
    ensures Groups(BitsOf(d % 4, 2) + []) == [Digit2(d, 0)]
  {
    SmallPowers();
    hide Groups, BitsOf, Pow2;
    Leftover(d % 4, 2);
  }

  lemma LastOfTwo(d: byte)
    ensures Groups(BitsOf(d % 16, 4) + []) == [Digit3(d, 0)]
  {
    SmallPowers();
    hide Groups, BitsOf, Pow2;
    Leftover(d % 16, 4);
  }

  lemma FirstByte(bin: Binary)
    requires bin != []
    ensures Groups(BitString(bin)) == [Digit1(bin[0])] + Groups(BitsOf(bin[0] % 4, 2) + BitString(bin[1..]))
  {
    BitStringStep(bin);
    hide Groups, BitString, BitsOf;
    CutFirst(bin[0] / 4, bin[0] % 4, bin[0], BitString(bin[1..]));
  }

  /** The two bits left over from the byte before, and the second byte. */
  lemma {:induction false} SecondByte(bin: Binary, before: byte)
    requires bin != []
    ensures Groups(BitsOf(before % 4, 2) + BitString(bin))
            == [Digit2(before, bin[0])]
               + if |bin| == 1 then [Digit3(bin[0], 0)]
                 else [Digit3(bin[0], bin[1]), Digit4(bin[1])] + Sextets(bin[2..])
    decreases |bin|
  {
    LastOfTwo(bin[0]);
    assert BitString([]) == [];
    hide *;
    SecondCut(bin[0], BitString(bin[1..]), before);
    assert BitString(bin) == BitsOf(bin[0], 8) + BitString(bin[1..]) by { BitStringStep(bin); }
    if |bin| > 1 {
      ThirdByte(bin[1..], bin[0]);
      assert bin[1..][1..] == bin[2..];
    }
  }

  lemma SecondCut(d: byte, rest: Bits, before: byte)
    ensures Groups(BitsOf(before % 4, 2) + (BitsOf(d, 8) + rest))
            == [Digit2(before, d)] + Groups(BitsOf(d % 16, 4) + rest)
  {
    hide Groups, BitString, BitsOf;
    CutSecond(before % 4, d / 16, d % 16, d, rest);
  }

  /** The four bits left over from the byte before, and the third byte. */
  lemma {:induction false} ThirdByte(bin: Binary, before: byte)
    requires bin != []
    ensures Groups(BitsOf(before % 16, 4) + BitString(bin))
            == [Digit3(before, bin[0]), Digit4(bin[0])] + Sextets(bin[1..])
    decreases |bin|
  {
    SextetsAreGroups(bin[1..]);
    hide *;
    ThirdCut(bin[0], BitString(bin[1..]), before);
    assert BitString(bin) == BitsOf(bin[0], 8) + BitString(bin[1..]) by { BitStringStep(bin); }
  }

  lemma ThirdCut(d: byte, rest: Bits, before: byte)
    ensures Groups(BitsOf(before % 16, 4) + (BitsOf(d, 8) + rest)) == [Digit3(before, d), Digit4(d)] + Groups(rest)
  {
    hide Groups, BitString, BitsOf;
    CutThird(before % 16, d / 64, d % 64, d, rest);
    WholeGroup(d % 64, rest);
  }

  /** The encoding that sections 4 and 5 of RFC 4648 describe. */
  function Reference(bin: Binary, url: bool, padding: bool): Text {
    var groups := Groups(BitString(bin));
    Printed(url, groups) + if padding then Fill((4 - |groups| % 4) % 4) else []
  }

  function Printed(url: bool, groups: seq<nat>): Text {
    seq(|groups|, i requires 0 <= i < |groups| => CharacterOf(url, groups[i]))
  }

  /** The character the table has for a group. */
  function CharacterOf(url: bool, group: nat): byte {
    if group < |Table(url)| && Table(url)[group] as int < 256 then Table(url)[group] as int else PAD
  }

  function Fill(n: nat): Text {
    seq(n, i => PAD)
  }

  lemma {:induction false} PrintAt(url: bool, digits: seq<sextet>, i: nat)
    requires i < |digits|
    ensures Print(url, digits)[i] == Alphabet(url, digits[i])
  {
    if i > 0 { PrintAt(url, digits[1..], i - 1); }
  }

  lemma {:induction false} SextetLength(bin: Binary, q: nat)
    requires 3 * q <= |bin| < 3 * q + 3
    ensures |Sextets(bin)| == 4 * q + if |bin| == 3 * q then 0 else |bin| - 3 * q + 1
    decreases q
  {
    if q > 0 {
      SextetsStep(bin);
      hide Sextets;
      SextetLength(bin[3..], q - 1);
    }
  }

  lemma PaddingFills(bin: Binary)
    ensures Padding(bin) == Fill((4 - |Sextets(bin)| % 4) % 4)
  {
    hide Sextets;
    SextetLength(bin, |bin| / 3);
  }

  lemma EncodesByTheReference(bin: Binary, url: bool, padding: bool)
    ensures Encode(bin, url, padding) == Reference(bin, url, padding)
  {
    SextetsAreGroups(bin);
    PaddingFills(bin);
    var digits := Sextets(bin);
    hide Sextets, Groups, BitString, Padding, Fill, Alphabet, Print, Table;
    forall i | 0 <= i < |digits| ensures Print(url, digits)[i] == CharacterOf(url, digits[i]) {
      PrintAt(url, digits, i);
      AlphabetIsTable(url, digits[i]);
    }
    assert Print(url, digits) == Printed(url, Groups(BitString(bin)));
  }

  /** The encoder's loop. */
  method ToBase64(bin: Binary, url: bool, padding: bool) returns (out: Text)
    ensures out == Encode(bin, url, padding)
  {
    out := [];
    var i := 0;
    while |bin| - i >= 3
      invariant 0 <= i <= |bin|
      invariant Encode(bin, url, padding) == out + Encode(bin[i..], url, padding)
    {
      hide *;
      out := EncodeThree(bin, url, padding, i, out);
      i := i + 3;
    }
    out := EncodeTail(bin, url, padding, i, out);
  }

  /** One turn of the loop: four characters for three bytes. */
  method EncodeThree(bin: Binary, url: bool, ghost padding: bool, i: nat, before: Text) returns (out: Text)
    requires i + 3 <= |bin|
    ensures out + Encode(bin[i + 3..], url, padding) == before + Encode(bin[i..], url, padding)
  {
    hide *;
    var d0, d1, d2 := bin[i], bin[i + 1], bin[i + 2];
    DigitsMean(d0, d1, d2);
    EncodeStepAt(bin, i, url, padding);
    out := before + [Alphabet(url, d0 / 4)];
    out := out + [Alphabet(url, d0 % 4 * 16 + d1 / 16)];
    out := out + [Alphabet(url, d1 % 16 * 4 + d2 / 64)];
    out := out + [Alphabet(url, d2 % 64)];
    AppendFour(before, Alphabet(url, Digit1(d0)), Alphabet(url, Digit2(d0, d1)),
               Alphabet(url, Digit3(d1, d2)), Alphabet(url, Digit4(d2)), Encode(bin[i + 3..], url, padding));
  }

  lemma EncodeStepAt(bin: Binary, i: nat, url: bool, padding: bool)
    requires i + 3 <= |bin|
    ensures Encode(bin[i..], url, padding)
            == [Alphabet(url, Digit1(bin[i])), Alphabet(url, Digit2(bin[i], bin[i + 1])),
                Alphabet(url, Digit3(bin[i + 1], bin[i + 2])), Alphabet(url, Digit4(bin[i + 2]))]
               + Encode(bin[i + 3..], url, padding)
  {
    hide *;
    assert bin[i..][3..] == bin[i + 3..];
    EncodeStep(bin[i..], url, padding);
  }

  /** The one or two bytes the loop leaves. */
  method EncodeTail(bin: Binary, url: bool, padding: bool, i: nat, before: Text) returns (out: Text)
    requires i <= |bin| < i + 3
    ensures out == before + Encode(bin[i..], url, padding)
  {
    out := before;
    EncodeLast(bin[i..], url, padding);
    hide *;
    var left := |bin| - i;
    if left != 0 {
      var d0 := bin[i];
      DigitsMean(d0, 0, 0);
      out := out + [Alphabet(url, d0 / 4)];
      if left == 1 {
        out := out + [Alphabet(url, d0 % 4 * 16)];
        AppendTwo(before, Alphabet(url, Digit1(d0)), Alphabet(url, Digit2(d0, 0)));
        if padding {
          out := out + [PAD];
          out := out + [PAD];
        }
      } else {
        var d1 := bin[i + 1];
        out := EncodeSecond(url, d0, d1, before, out);
        if padding { out := out + [PAD]; }
      }
    }
  }

  /** The rest of two bytes, after their first character. */
  method EncodeSecond(url: bool, d0: byte, d1: byte, ghost before: Text, first: Text) returns (out: Text)
    requires first == before + [Alphabet(url, Digit1(d0))]
    ensures out == before + [Alphabet(url, Digit1(d0)), Alphabet(url, Digit2(d0, d1)), Alphabet(url, Digit3(d1, 0))]
  {
    DigitsMean(d0, d1, 0);
    hide *;
    out := first + [Alphabet(url, d0 % 4 * 16 + d1 / 16)];
    out := out + [Alphabet(url, d1 % 16 * 4)];
  }

  lemma AppendTwo(s: Text, a: byte, b: byte)
    ensures s + [a] + [b] == s + [a, b]
  {
  }

  lemma AppendFour(s: Text, a: byte, b: byte, c: byte, d: byte, rest: Text)
    ensures s + ([a, b, c, d] + rest) == s + [a] + [b] + [c] + [d] + rest
  {
  }

  lemma EncodeStep(bin: Binary, url: bool, padding: bool)
    requires |bin| >= 3
    ensures Encode(bin, url, padding)
            == [Alphabet(url, Digit1(bin[0])), Alphabet(url, Digit2(bin[0], bin[1])),
                Alphabet(url, Digit3(bin[1], bin[2])), Alphabet(url, Digit4(bin[2]))]
               + Encode(bin[3..], url, padding)
  {
    hide Digit1, Digit2, Digit3, Digit4, Alphabet;
    var d := [Digit1(bin[0]), Digit2(bin[0], bin[1]), Digit3(bin[1], bin[2]), Digit4(bin[2])];
    SextetsStep(bin);
    PrintAppend(url, d, Sextets(bin[3..]));
    PrintFour(url, d);
    hide Sextets, Print;
    assert Padding(bin) == Padding(bin[3..]);
  }

  lemma PrintFour(url: bool, d: seq<sextet>)
    ensures |d| == 2 ==> Print(url, d) == [Alphabet(url, d[0]), Alphabet(url, d[1])]
    ensures |d| == 3 ==> Print(url, d) == [Alphabet(url, d[0]), Alphabet(url, d[1]), Alphabet(url, d[2])]
    ensures |d| == 4 ==>
              Print(url, d) == [Alphabet(url, d[0]), Alphabet(url, d[1]), Alphabet(url, d[2]), Alphabet(url, d[3])]
  {
    hide Alphabet();
    if 2 <= |d| <= 4 {
      forall i | 0 <= i < |d| ensures Print(url, d)[i] == Alphabet(url, d[i]) { PrintAt(url, d, i); }
    }
  }

  lemma {:induction false} PrintAppend(url: bool, a: seq<sextet>, b: seq<sextet>)
    ensures Print(url, a + b) == Print(url, a) + Print(url, b)
  {
    if a == [] {
      assert a + b == b;
    } else {
      assert (a + b)[1..] == a[1..] + b;
      PrintAppend(url, a[1..], b);
    }
  }

  lemma EncodeLast(bin: Binary, url: bool, padding: bool)
    requires |bin| < 3
    ensures Encode(bin, url, padding)
            == (if |bin| == 0 then []
                else if |bin| == 1 then [Alphabet(url, Digit1(bin[0])), Alphabet(url, Digit2(bin[0], 0))]
                else [Alphabet(url, Digit1(bin[0])), Alphabet(url, Digit2(bin[0], bin[1])),
                      Alphabet(url, Digit3(bin[1], 0))])
               + if !padding || |bin| == 0 then [] else if |bin| == 1 then [PAD, PAD] else [PAD]
  {
    hide Digit1, Digit2, Digit3, Digit4, Alphabet;
    PrintFour(url, Sextets(bin));
  }

  /** The shifts and masks that pick a sextet out of neighbouring bytes. */
  lemma DigitsMean(a: int, b: int, c: int)
    requires 0 <= a < 256 && 0 <= b < 256 && 0 <= c < 256
    ensures a / 4 == Digit1(a) && a % 4 * 16 + b / 16 == Digit2(a, b)
    ensures b % 16 * 4 + c / 64 == Digit3(b, c) && c % 64 == Digit4(c)
    ensures a % 4 * 16 == Digit2(a, 0) && b % 16 * 4 == Digit3(b, 0)
  {
  }

  // ----- reading -----

  function Digit(c: byte): Option<sextet> {
    if 65 <= c <= 90 then Some(c - 65)
    else if 97 <= c <= 122 then Some(c - 71)
    else if 48 <= c <= 57 then Some(c + 4)
    else if c == 43 || c == 45 then Some(62)
    else if c == 47 || c == 95 then Some(63)
    else None
  }

  predicate IsSpace(c: byte) {
    c == 32 || 9 <= c <= 13
  }

  /** `Hangs` is a call that never returns: the loop meets a space and does not step over it. */
  datatype Decoded = Bytes(bin: Binary) | Invalid | Hangs

  /** The digits a text starts with. */
  function Digits(s: Text): (r: seq<sextet>)
    ensures |r| <= |s|
  {
    if s != [] && Digit(s[0]).Some? then [Digit(s[0]).value] + Digits(s[1..]) else []
  }

  /** Four digits give three bytes; of a last partial group every digit gives a byte. */
  function Joined(d: seq<sextet>): Binary {
    if d == [] then []
    else if |d| == 1 then [First(d[0], 0)]
    else if |d| == 2 then [First(d[0], d[1]), Second(d[1], 0)]
    else if |d| == 3 then [First(d[0], d[1]), Second(d[1], d[2]), Third(d[2], 0)]
    else [First(d[0], d[1]), Second(d[1], d[2]), Third(d[2], d[3])] + Joined(d[4..])
  }

  /** The three bytes that four sextets make. */
  function First(a: int, b: int): byte
    requires 0 <= a < 64 && 0 <= b < 64
  {
    a * 4 + b / 16
  }

  function Second(b: int, c: int): byte
    requires 0 <= b < 64 && 0 <= c < 64
  {
    b % 16 * 16 + c / 4
  }

  function Third(c: int, d: int): byte
    requires 0 <= c < 64 && 0 <= d < 64
  {
    c % 4 * 64 + d
  }

  function Decode(s: Text): Decoded {
    var d := Digits(s);
    if |d| == |s| || s[|d|] == PAD then Bytes(Joined(d))
    else if IsSpace(s[|d|]) then Hangs
    else Invalid
  }

  lemma {:induction false} DigitsAppend(a: Text, b: Text)
    requires forall i :: 0 <= i < |a| ==> Digit(a[i]).Some?
    ensures |Digits(a)| == |a|
    ensures Digits(a + b) == Digits(a) + Digits(b)
  {
    if a == [] {
      assert a + b == b;
    } else {
      assert (a + b)[1..] == a[1..] + b;
      hide Digit();
      DigitsAppend(a[1..], b);
    }
  }

  lemma {:induction false} JoinedAppend(a: seq<sextet>, b: seq<sextet>)
    requires |a| % 4 == 0
    ensures Joined(a + b) == Joined(a) + Joined(b)
  {
    if a == [] {
      assert a + b == b;
    } else {
      assert (a + b)[4..] == a[4..] + b;
      JoinedAppend(a[4..], b);
    }
  }

  /** Reading a character: the digit it stands for in either table, and none for any other. */
  lemma DigitExactly(c: byte, d: sextet)
    ensures |STANDARD| == 64 == |URL_SAFE|
    ensures Digit(c) == Some(d) <==> STANDARD[d] as int == c || URL_SAFE[d] as int == c
  {
    AlphabetIsTable(false, d);
    AlphabetIsTable(true, d);
    hide UPPER, LOWER, DIGITS, STANDARD, URL_SAFE;
  }

  lemma DigitOfAlphabet(url: bool, d: sextet)
    ensures Digit(Alphabet(url, d)) == Some(d)
  {
  }

  lemma {:induction false} DigitsOfPrint(url: bool, d: seq<sextet>, end: Text)
    requires end == [] || Digit(end[0]).None?
    ensures Digits(Print(url, d) + end) == d
  {
    if d == [] {
      assert Print(url, d) + end == end;
    } else {
      PrintStep(url, d, end);
      DigitOfAlphabet(url, d[0]);
      hide *;
      DigitsOfPrint(url, d[1..], end);
      DigitsStep(Alphabet(url, d[0]), d[0], Print(url, d[1..]) + end);
    }
  }

  lemma PrintStep(url: bool, d: seq<sextet>, end: Text)
    requires d != []
    ensures Print(url, d) + end == [Alphabet(url, d[0])] + (Print(url, d[1..]) + end)
  {
    hide Alphabet;
  }

  lemma DigitsStep(c: byte, d: sextet, rest: Text)
    requires Digit(c) == Some(d)
    ensures Digits([c] + rest) == [d] + Digits(rest)
  {
    hide Digit;
    assert ([c] + rest)[1..] == rest;
  }

  lemma ThreeBytes(a: byte, b: byte, c: byte)
    ensures First(Digit1(a), Digit2(a, b)) == a
    ensures Second(Digit2(a, b), Digit3(b, c)) == b
    ensures Third(Digit3(b, c), Digit4(c)) == c
    ensures Second(Digit2(a, 0), 0) == 0 && Third(Digit3(b, 0), 0) == 0
  {
  }

  function Extra(bin: Binary): Binary {
    if |bin| % 3 == 0 then [] else [0]
  }

  lemma ExtraStep(bin: Binary)
    requires |bin| >= 3
    ensures Extra(bin[3..]) == Extra(bin)
  {
  }

  lemma {:induction false} JoinedSextets(bin: Binary)
    ensures Joined(Sextets(bin)) == bin + Extra(bin)
  {
    ExtraMeans(bin);
    assert Sextets([]) == [] && Joined([]) == [];
    hide *;
    if |bin| == 0 {
      assert bin == [];
    } else if |bin| == 1 {
      JoinedOne(bin);
    } else if |bin| == 2 {
      JoinedTwo(bin);
    } else {
      JoinedSextets(bin[3..]);
      JoinedStep(bin);
      ExtraStep(bin);
      FirstThree(bin, Extra(bin));
    }
  }

  lemma ExtraMeans(bin: Binary)
    ensures |bin| == 0 ==> Extra(bin) == []
    ensures |bin| == 1 || |bin| == 2 ==> Extra(bin) == [0]
  {
  }

  lemma FirstThree(bin: Binary, end: Binary)
    requires |bin| >= 3
    ensures [bin[0], bin[1], bin[2]] + (bin[3..] + end) == bin + end
  {
  }

  lemma JoinedOne(bin: Binary)
    requires |bin| == 1
    ensures Joined(Sextets(bin)) == bin + [0]
  {
    SextetsShort(bin);
    hide *;
    BackToOne(bin[0]);
    assert bin + [0] == [bin[0], 0];
  }

  lemma BackToOne(a: byte)
    ensures Joined([Digit1(a), Digit2(a, 0)]) == [a, 0]
  {
    hide *;
    OneByte(a);
    JoinedPair(Digit1(a), Digit2(a, 0));
  }

  lemma JoinedTwo(bin: Binary)
    requires |bin| == 2
    ensures Joined(Sextets(bin)) == bin + [0]
  {
    SextetsShort(bin);
    hide *;
    BackToTwo(bin[0], bin[1]);
    assert bin + [0] == [bin[0], bin[1], 0];
  }

  lemma BackToTwo(a: byte, b: byte)
    ensures Joined([Digit1(a), Digit2(a, b), Digit3(b, 0)]) == [a, b, 0]
  {
    hide *;
    ThreeBytes(a, b, 0);
    JoinedTriple(Digit1(a), Digit2(a, b), Digit3(b, 0));
  }

  lemma SextetsShort(bin: Binary)
    ensures |bin| == 1 ==> Sextets(bin) == [Digit1(bin[0]), Digit2(bin[0], 0)]
    ensures |bin| == 2 ==> Sextets(bin) == [Digit1(bin[0]), Digit2(bin[0], bin[1]), Digit3(bin[1], 0)]
  {
    hide Digit1, Digit2, Digit3, Digit4;
  }

  lemma JoinedPair(a: sextet, b: sextet)
    ensures Joined([a, b]) == [First(a, b), Second(b, 0)]
  {
    hide First, Second, Third;
  }

  lemma JoinedTriple(a: sextet, b: sextet, c: sextet)
    ensures Joined([a, b, c]) == [First(a, b), Second(b, c), Third(c, 0)]
  {
    hide First, Second, Third;
  }

  lemma OneByte(a: byte)
    ensures First(Digit1(a), Digit2(a, 0)) == a && Second(Digit2(a, 0), 0) == 0
  {
    ThreeBytes(a, 0, 0);
    hide *;
  }

  lemma JoinedStep(bin: Binary)
    requires |bin| >= 3
    ensures Joined(Sextets(bin)) == [bin[0], bin[1], bin[2]] + Joined(Sextets(bin[3..]))
  {
    hide Digit1, Digit2, Digit3, Digit4, First, Second, Third;
    SextetsStep(bin);
    ThreeBytes(bin[0], bin[1], bin[2]);
    hide *;
    JoinedFour(Digit1(bin[0]), Digit2(bin[0], bin[1]), Digit3(bin[1], bin[2]), Digit4(bin[2]), Sextets(bin[3..]));
  }

  lemma SextetsStep(bin: Binary)
    requires |bin| >= 3
    ensures Sextets(bin)
            == [Digit1(bin[0]), Digit2(bin[0], bin[1]), Digit3(bin[1], bin[2]), Digit4(bin[2])] + Sextets(bin[3..])
  {
    hide Digit1, Digit2, Digit3, Digit4;
  }

  lemma JoinedFour(a: sextet, b: sextet, c: sextet, d: sextet, rest: seq<sextet>)
    ensures Joined([a, b, c, d] + rest) == [First(a, b), Second(b, c), Third(c, d)] + Joined(rest)
  {
    hide First, Second, Third;
    assert ([a, b, c, d] + rest)[4..] == rest;
  }

  // ----- the reference for reading: the digits' bits in groups of eight -----

  function DigitBits(d: seq<sextet>): Bits {
    if d == [] then [] else BitsOf(d[0], 6) + DigitBits(d[1..])
  }

  /** Values of consecutive groups of eight bits. */
  function Octets(bits: Bits): seq<nat>
    decreases |bits|
  {
    if |bits| < 8 then [] else [Value(bits[..8])] + Octets(bits[8..])
  }

  lemma OctetStep(d: byte, rest: Bits)
    ensures Octets(BitsOf(d, 8) + rest) == [d] + Octets(rest)
  {
    SmallPowers();
    assert Pow2(7) == 128 && Pow2(8) == 256;
    ValueOf(d, 8);
    var bits := BitsOf(d, 8) + rest;
    assert bits[..8] == BitsOf(d, 8) && bits[8..] == rest;
    hide BitsOf, Value, Pow2;
  }

  /** A byte that ends inside the digit `e`, or with it: `over` is what the digit before left. */
  lemma OctetAt(x: byte, over: nat, j: nat, e: nat, high: nat, low: nat, rest: Bits)
    requires 2 <= j <= 6 && high < Pow2(8 - j) && low < Pow2(j - 2)
    requires x == over * Pow2(8 - j) + high && e == high * Pow2(j - 2) + low
    ensures Octets(BitsOf(over, j) + (BitsOf(e, 6) + rest)) == [x] + Octets(BitsOf(low, j - 2) + rest)
  {
    hide *;
    SplitBits(high, low, 8 - j, j - 2);
    SplitBits(over, high, j, 8 - j);
    var o, h, l := BitsOf(over, j), BitsOf(high, 8 - j), BitsOf(low, j - 2);
    assert o + ((h + l) + rest) == (o + h) + (l + rest);
    OctetStep(x, l + rest);
  }

  lemma FirstOctet(a: sextet, b: int, rest: Bits)
    requires 0 <= b < 64
    ensures Octets(BitsOf(a, 6) + (BitsOf(b, 6) + rest)) == [First(a, b)] + Octets(BitsOf(b % 16, 4) + rest)
  {
    SmallPowers();
    hide Octets, BitsOf, Pow2;
    OctetAt(First(a, b), a, 6, b, b / 16, b % 16, rest);
  }

  lemma SecondOctet(b: int, c: int, rest: Bits)
    requires 0 <= b < 64 && 0 <= c < 64
    ensures Octets(BitsOf(b % 16, 4) + (BitsOf(c, 6) + rest)) == [Second(b, c)] + Octets(BitsOf(c % 4, 2) + rest)
  {
    SmallPowers();
    hide Octets, BitsOf, Pow2;
    OctetAt(Second(b, c), b % 16, 4, c, c / 4, c % 4, rest);
  }

  lemma ThirdOctet(c: int, d: int, rest: Bits)
    requires 0 <= c < 64 && 0 <= d < 64
    ensures Octets(BitsOf(c % 4, 2) + (BitsOf(d, 6) + rest)) == [Third(c, d)] + Octets(rest)
  {
    SmallPowers();
    assert Pow2(0) == 1 && BitsOf(0, 0) == [] && [] + rest == rest;
    hide Octets, BitsOf, Pow2;
    OctetAt(Third(c, d), c % 4, 2, d, d, 0, rest);
  }

  /** What a digit leaves, filled up with zeros. */
  lemma LastOctet(over: nat, j: nat, x: byte)
    requires j <= 8 && x == over * Pow2(8 - j) && over < Pow2(j)
    ensures Octets(BitsOf(over, j) + BitsOf(0, 8 - j)) == [x]
  {
    assert Octets([]) == [];
    hide *;
    Pow2Positive(8 - j);
    SplitBits(over, 0, j, 8 - j);
    OctetStep(x, []);
    assert BitsOf(x, 8) + [] == BitsOf(x, 8);
  }

  lemma {:induction false} DigitBitsAppend(d: seq<sextet>, e: seq<sextet>)
    ensures DigitBits(d + e) == DigitBits(d) + DigitBits(e)
  {
    if d == [] {
      assert d + e == e;
    } else {
      assert (d + e)[1..] == d[1..] + e;
      hide BitsOf;
      DigitBitsAppend(d[1..], e);
    }
  }

  /** Four digits are three bytes. */
  lemma FourDigits(a: sextet, b: sextet, c: sextet, d: sextet, rest: Bits)
    ensures Octets(BitsOf(a, 6) + (BitsOf(b, 6) + (BitsOf(c, 6) + (BitsOf(d, 6) + rest))))
            == [First(a, b), Second(b, c), Third(c, d)] + Octets(rest)
  {
    hide *;
    FirstOctet(a, b, BitsOf(c, 6) + (BitsOf(d, 6) + rest));
    SecondOctet(b, c, BitsOf(d, 6) + rest);
    ThirdOctet(c, d, rest);
  }

  lemma BitsOfOne(a: sextet)
    ensures DigitBits([a]) == BitsOf(a, 6)
  {
    assert [a][1..] == [] && DigitBits([]) == [];
    hide BitsOf;
  }

  lemma OneDigit(a: sextet)
    ensures Octets(DigitBits([a]) + BitsOf(0, 2)) == [First(a, 0)]
  {
    SmallPowers();
    BitsOfOne(a);
    hide Octets, BitsOf, Pow2, DigitBits;
    LastOctet(a, 6, First(a, 0));
  }

  lemma TwoDigits(a: sextet, b: sextet)
    ensures Octets(DigitBits([a, b]) + BitsOf(0, 4)) == [First(a, b), Second(b, 0)]
  {
    SmallPowers();
    BitsOfOne(a);
    BitsOfOne(b);
    DigitBitsAppend([a], [b]);
    assert [a] + [b] == [a, b];
    hide Octets, BitsOf, Pow2, DigitBits;
    FirstOctet(a, b, BitsOf(0, 4));
    LastOctet(b % 16, 4, Second(b, 0));
    assert BitsOf(a, 6) + (BitsOf(b, 6) + BitsOf(0, 4)) == BitsOf(a, 6) + BitsOf(b, 6) + BitsOf(0, 4);
  }

  lemma ThreeDigits(a: sextet, b: sextet, c: sextet)
    ensures Octets(DigitBits([a, b, c]) + BitsOf(0, 6)) == [First(a, b), Second(b, c), Third(c, 0)]
  {
    SmallPowers();
    BitsOfOne(a);
    BitsOfOne(b);
    BitsOfOne(c);
    DigitBitsAppend([a], [b]);
    DigitBitsAppend([a, b], [c]);
    assert [a] + [b] == [a, b] && [a, b] + [c] == [a, b, c];
    hide Octets, BitsOf, Pow2, DigitBits;
    FirstOctet(a, b, BitsOf(c, 6) + BitsOf(0, 6));
    SecondOctet(b, c, BitsOf(0, 6));
    LastOctet(c % 4, 2, Third(c, 0));
    assert BitsOf(a, 6) + (BitsOf(b, 6) + (BitsOf(c, 6) + BitsOf(0, 6)))
        == BitsOf(a, 6) + BitsOf(b, 6) + BitsOf(c, 6) + BitsOf(0, 6);
  }

  lemma FourBits(a: sextet, b: sextet, c: sextet, d: sextet, rest: seq<sextet>, end: Bits)
    ensures Octets(DigitBits([a, b, c, d] + rest) + end)
            == [First(a, b), Second(b, c), Third(c, d)] + Octets(DigitBits(rest) + end)
  {
    BitsOfOne(a);
    BitsOfOne(b);
    BitsOfOne(c);
    BitsOfOne(d);
    hide *;
    DigitBitsAppend([a], [b]);
    DigitBitsAppend([a, b], [c]);
    DigitBitsAppend([a, b, c], [d]);
    DigitBitsAppend([a, b, c, d], rest);
    assert [a] + [b] == [a, b] && [a, b] + [c] == [a, b, c] && [a, b, c] + [d] == [a, b, c, d];
    FourDigits(a, b, c, d, DigitBits(rest) + end);
    FiveParts(BitsOf(a, 6), BitsOf(b, 6), BitsOf(c, 6), BitsOf(d, 6), DigitBits(rest), end);
  }

  lemma FiveParts(a: Bits, b: Bits, c: Bits, d: Bits, e: Bits, f: Bits)
    ensures a + b + c + d + e + f == a + (b + (c + (d + (e + f))))
  {
  }

  lemma JoinedNone()
    ensures Joined([]) == [] == Octets(DigitBits([]) + BitsOf(0, 0))
  {
  }

  lemma JoinedSingle(a: sextet)
    ensures Joined([a]) == [First(a, 0)]
  {
    hide First, Second, Third;
  }

  lemma JoinsPartial(d: seq<sextet>)
    requires |d| < 4
    ensures Joined(d) == Octets(DigitBits(d) + BitsOf(0, 2 * |d|))
  {
    hide *;
    if |d| == 0 {
      JoinedNone();
      assert d == [];
    } else if |d| == 1 {
      JoinedSingle(d[0]);
      OneDigit(d[0]);
      assert d == [d[0]];
    } else if |d| == 2 {
      JoinedPair(d[0], d[1]);
      TwoDigits(d[0], d[1]);
      assert d == [d[0], d[1]];
    } else {
      JoinedTriple(d[0], d[1], d[2]);
      ThreeDigits(d[0], d[1], d[2]);
      assert d == [d[0], d[1], d[2]];
    }
  }

  /**
   What reading makes of any digits: their bits in groups of eight, where a last group of fewer
   than four digits gets as many bytes as it has digits, filled up with zeros.
   */
  lemma {:induction false} JoinsByTheReference(d: seq<sextet>)
    ensures Joined(d) == Octets(DigitBits(d) + BitsOf(0, 2 * (|d| % 4)))
    decreases |d|
  {
    hide *;
    if |d| < 4 {
      JoinsPartial(d);
    } else {
      JoinsByTheReference(d[4..]);
      JoinsFour(d, BitsOf(0, 2 * (|d| % 4)));
      assert |d[4..]| % 4 == |d| % 4;
    }
  }

  lemma JoinsFour(d: seq<sextet>, end: Bits)
    requires |d| >= 4 && Joined(d[4..]) == Octets(DigitBits(d[4..]) + end)
    ensures Joined(d) == Octets(DigitBits(d) + end)
  {
    hide *;
    assert d == [d[0], d[1], d[2], d[3]] + d[4..];
    JoinedFour(d[0], d[1], d[2], d[3], d[4..]);
    FourBits(d[0], d[1], d[2], d[3], d[4..], end);
  }

  /** Decoding restores whole groups exactly, and adds one zero byte after a partial group. */
  lemma DecodeOfEncode(bin: Binary, url: bool, padding: bool)
    ensures Decode(Encode(bin, url, padding)) == Bytes(bin + if |bin| % 3 == 0 then [] else [0])
  {
    var s := Encode(bin, url, padding);
    var end := if padding then Padding(bin) else [];
    assert s == Print(url, Sextets(bin)) + end;
    DigitsOfPrint(url, Sextets(bin), end);
    JoinedSextets(bin);
    hide Sextets(), Joined(), Print();
  }

  lemma RoundTripExactly(bin: Binary, url: bool, padding: bool)
    ensures Decode(Encode(bin, url, padding)) == Bytes(bin) <==> |bin| % 3 == 0
  {
    DecodeOfEncode(bin, url, padding);
    hide *;
    if |bin| % 3 != 0 { assert |bin + [0]| != |bin|; }
  }

  /** Identifiers have 33 bytes. */
  lemma IdentifiersRoundTrip(id: Binary, url: bool, padding: bool)
    requires |id| == 33
    ensures Decode(Encode(id, url, padding)) == Bytes(id)
  {
    RoundTripExactly(id, url, padding);
  }

  lemma {:induction false} DigitsAreFirst(s: Text)
    ensures forall i :: 0 <= i < |Digits(s)| ==> Digit(s[i]).Some?
    ensures |Digits(s)| < |s| ==> Digit(s[|Digits(s)|]).None?
  {
    hide Digit();
    if s != [] && Digit(s[0]).Some? {
      DigitsAreFirst(s[1..]);
      forall i | 0 <= i < |Digits(s)| ensures Digit(s[i]).Some? {
        if i > 0 { assert s[i] == s[1..][i - 1]; }
      }
    }
  }

  /** Decoding fails to return exactly on texts with a space before any other non-digit. */
  lemma HangsExactly(s: Text)
    ensures Decode(s) == Hangs
            <==> exists i :: 0 <= i < |s| && IsSpace(s[i]) && forall k :: 0 <= k < i ==> Digit(s[k]).Some?
  {
    DigitsAreFirst(s);
    NonDigits();
    var n := |Digits(s)|;
    hide Digits, Digit, IsSpace, Joined;
    if i: nat :| i < |s| && IsSpace(s[i]) && forall k :: 0 <= k < i ==> Digit(s[k]).Some? {
      assert !(i < n);
      assert !(n < i);
    }
  }

  /** Reading fails exactly on texts whose first non-digit is neither a space nor the padding character. */
  lemma InvalidExactly(s: Text)
    ensures Decode(s) == Invalid
            <==> exists i :: 0 <= i < |s| && Digit(s[i]).None? && !IsSpace(s[i]) && s[i] != PAD
                             && forall k :: 0 <= k < i ==> Digit(s[k]).Some?
  {
    DigitsAreFirst(s);
    NonDigits();
    var n := |Digits(s)|;
    hide Digits, Digit, IsSpace, Joined;
    if i: nat :| i < |s| && Digit(s[i]).None? && !IsSpace(s[i]) && s[i] != PAD
                 && forall k :: 0 <= k < i ==> Digit(s[k]).Some? {
      assert !(i < n);
      assert !(n < i);
    }
  }

  lemma NonDigits()
    ensures Digit(PAD).None?
    ensures forall c: byte :: IsSpace(c) ==> Digit(c).None? && c != PAD
  {
  }

  predicate AllDigits(s: Text, i: nat)
  {
    i <= |s| && forall k :: 0 <= k < i ==> Digit(s[k]).Some?
  }

  lemma OneMore(s: Text, i: nat)
    requires AllDigits(s, i) && i < |s| && Digit(s[i]).Some?
    ensures AllDigits(s, i + 1)
    ensures Digits(s[..i + 1]) == Digits(s[..i]) + [Digit(s[i]).value]
  {
    assert s[..i + 1] == s[..i] + [s[i]];
    hide Digit();
    DigitsAppend(s[..i], [s[i]]);
    DigitsAppend([s[i]], []);
    assert Digits([s[i]]) == [Digit(s[i]).value] + Digits([]);
  }

  lemma Stops(s: Text, i: nat)
    requires AllDigits(s, i)
    requires i < |s| ==> Digit(s[i]).None?
    ensures Decode(s) == if i == |s| || s[i] == PAD then Bytes(Joined(Digits(s[..i])))
                         else if IsSpace(s[i]) then Hangs else Invalid
    ensures |Digits(s[..i])| == i
  {
    hide Digit(), Joined(), IsSpace();
    assert s == s[..i] + s[i..];
    DigitsAppend(s[..i], s[i..]);
    DigitsAppend(s[..i], []);
    assert s[..i] + [] == s[..i];
    assert Digits(s[i..]) == [];
  }

  lemma CountDigits(s: Text, i: nat)
    requires AllDigits(s, i)
    ensures |Digits(s[..i])| == i
  {
    hide Digit();
    DigitsAppend(s[..i], []);
  }

  /** What one turn of the outer loop adds to the output. */
  function Added(tab: seq<sextet>, j: nat): Binary
    requires |tab| == 4
  {
    if j <= 1 then [First(tab[0], tab[1])]
    else if j == 2 then [First(tab[0], tab[1]), Second(tab[1], tab[2])]
    else [First(tab[0], tab[1]), Second(tab[1], tab[2]), Third(tab[2], tab[3])]
  }

  lemma OneGroup(before: seq<sextet>, tab: seq<sextet>, j: nat)
    requires |before| % 4 == 0 && 0 < j <= |tab| == 4
    requires forall k :: j <= k < 4 ==> tab[k] == 0
    ensures Joined(before + tab[..j]) == Joined(before) + Added(tab, j)
  {
    JoinedGroup(tab, j);
    hide *;
    JoinedAppend(before, tab[..j]);
  }

  lemma JoinedGroup(tab: seq<sextet>, j: nat)
    requires 0 < j <= |tab| == 4
    requires forall k :: j <= k < 4 ==> tab[k] == 0
    ensures Joined(tab[..j]) == Added(tab, j)
  {
    hide First, Second, Third;
    assert j == 4 ==> tab[..j][4..] == [] && tab[..j] == tab;
  }

  method AddBytes(bin: Binary, tab: seq<sextet>, j: nat) returns (out: Binary)
    requires |tab| == 4 && 0 < j <= 4
    ensures out == bin + Added(tab, j)
  {
    var a: int, b: int, c: int, d: int := tab[0], tab[1], tab[2], tab[3];
    Shifts(a, b, c, d);
    hide First, Second, Third;
    out := bin + [(a * 4) % 256 + b / 16];
    if j > 1 {
      out := out + [(b * 16) % 256 + c / 4];
      if j > 2 { out := out + [(c * 64) % 256 + d]; }
    }
  }

  /** The shifts of a byte drop what does not fit. */
  lemma Shifts(a: int, b: int, c: int, d: int)
    requires 0 <= a < 64 && 0 <= b < 64 && 0 <= c < 64 && 0 <= d < 64
    ensures First(a, b) == (a * 4) % 256 + b / 16
    ensures Second(b, c) == (b * 16) % 256 + c / 4
    ensures Third(c, d) == (c * 64) % 256 + d
  {
  }

  /** How the inner loop ended. */
  datatype Ending = Complete | Space | Other

  /** The inner loop: up to four digits; a turn that changes nothing is reported as `Space`. */
  method ReadGroup(s: Text, start: nat, ghost before: seq<sextet>) returns (tab: seq<sextet>, j: nat, ending: Ending)
    requires start < |s| && s[start] != PAD && AllDigits(s, start) && before == Digits(s[..start])
    ensures |tab| == 4 && j <= 4 && start + j <= |s| && AllDigits(s, start + j)
    ensures Digits(s[..start + j]) == before + tab[..j] && forall k :: j <= k < 4 ==> tab[k] == 0
    ensures ending.Complete? ==> j == 4 || start + j == |s| || s[start + j] == PAD
    ensures ending.Complete? ==> j > 0
    ensures ending.Space? ==> start + j < |s| && IsSpace(s[start + j])
    ensures ending.Other? ==> start + j < |s| && !IsSpace(s[start + j]) && s[start + j] != PAD
                              && Digit(s[start + j]).None?
  {
    hide *;
    tab := [0, 0, 0, 0];
    j := 0;
    assert before + tab[..0] == before;
    while start + j < |s| && j < 4
      invariant start + j <= |s| && AllDigits(s, start + j) && |tab| == 4 && j <= 4
      invariant Digits(s[..start + j]) == before + tab[..j]
      invariant forall k :: j <= k < 4 ==> tab[k] == 0
      invariant j == 0 ==> s[start] != PAD
    {
      var c := s[start + j];
      if IsSpace(c) { return tab, j, Space; }
      if c == PAD { break; }
      if Digit(c).None? { return tab, j, Other; }
      OneMore(s, start + j);
      assert before + tab[..j] + [Digit(c).value] == before + tab[j := Digit(c).value][..j + 1];
      tab := tab[j := Digit(c).value];
      j := j + 1;
    }
    ending := Complete;
  }

  /** The output so far is what the digits so far come to. */
  ghost predicate ReadSoFar(s: Text, i: nat, bin: Binary) {
    && AllDigits(s, i) && bin == Joined(Digits(s[..i]))
    && (i % 4 == 0 || i == |s| || s[i] == PAD)
  }

  lemma ReadMore(s: Text, i: nat, bin: Binary, tab: seq<sextet>, j: nat)
    requires ReadSoFar(s, i, bin) && i < |s| && s[i] != PAD
    requires |tab| == 4 && 0 < j <= 4 && AllDigits(s, i + j) && (j == 4 || i + j == |s| || s[i + j] == PAD)
    requires Digits(s[..i + j]) == Digits(s[..i]) + tab[..j] && forall k :: j <= k < 4 ==> tab[k] == 0
    ensures ReadSoFar(s, i + j, bin + Added(tab, j))
  {
    hide Joined, Digits, Added, AllDigits;
    CountDigits(s, i);
    OneGroup(Digits(s[..i]), tab, j);
  }

  lemma ReadSoFarMeans(s: Text, i: nat, bin: Binary)
    requires ReadSoFar(s, i, bin)
    ensures i <= |s| && AllDigits(s, i) && bin == Joined(Digits(s[..i]))
  {
  }

  /** The decoder's loops. */
  method FromBase64(s: Text) returns (out: Decoded)
    ensures out == Decode(s)
  {
    NonDigits();
    var bin: Binary := [];
    var i := 0;
    assert ReadSoFar(s, i, bin);
    hide *;
    while i < |s| && s[i] != PAD
      invariant i <= |s| && ReadSoFar(s, i, bin)
    {
      ReadSoFarMeans(s, i, bin);
      var tab, j, ending := ReadGroup(s, i, Digits(s[..i]));
      if ending != Complete {
        Stops(s, i + j);
        return if ending == Space then Hangs else Invalid;
      }
      ReadMore(s, i, bin, tab, j);
      bin := AddBytes(bin, tab, j);
      i := i + j;
    }
    ReadSoFarMeans(s, i, bin);
    Stops(s, i);
    out := Bytes(bin);
  }
}
