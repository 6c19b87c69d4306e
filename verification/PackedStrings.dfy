/** Zero-terminated strings one after the other, and an array of `c` strings read back. */
module PackedStrings {
  import opened Bytes

  type Text = seq<byte>

  function Pack(strs: seq<Text>): Binary {
    if strs == [] then [] else strs[0] + [0] + Pack(strs[1..])
  }

  /** Where the first zero is, or the end. */
  function FirstZero(bin: Binary): (n: nat)
    ensures n <= |bin| && (n < |bin| ==> bin[n] == 0)
    ensures forall i :: 0 <= i < n ==> bin[i] != 0
  {
    if bin == [] || bin[0] == 0 then 0 else 1 + FirstZero(bin[1..])
  }

  function Behind(bin: Binary): Binary {
    if FirstZero(bin) < |bin| then bin[FirstZero(bin) + 1..] else []
  }

  function Unpack(bin: Binary, c: nat): (strs: seq<Text>)
    ensures |strs| == c
    decreases c
  {
    if c == 0 then [] else [bin[..FirstZero(bin)]] + Unpack(Behind(bin), c - 1)
  }

  predicate ZeroFree(strs: seq<Text>) {
    forall j :: 0 <= j < |strs| ==> 0 !in strs[j]
  }

  function Zeros(bin: Binary): nat {
    if bin == [] then 0 else (if bin[0] == 0 then 1 else 0) + Zeros(bin[1..])
  }

  /** The bytes that a list of `c` strings packs to. */
  predicate IsPacked(bin: Binary, c: nat) {
    Zeros(bin) == c && (bin == [] || bin[|bin| - 1] == 0)
  }

  method PackStrings(strs: seq<Text>) returns (result: Binary)
    ensures result == Pack(strs)
  {
    result := [];
    for k := 0 to |strs|
      invariant Pack(strs) == result + Pack(strs[k..])
    {
      assert strs[k..][1..] == strs[k + 1..];
      result := result + strs[k];
      result := result + [0];
    }
  }

  lemma {:induction false} StopsAt(bin: Binary, i: nat, k: nat)
    requires i <= k <= |bin|
    requires forall m :: i <= m < k ==> bin[m] != 0
    requires k < |bin| ==> bin[k] == 0
    ensures FirstZero(bin[i..]) == k - i
  {
    assert forall m :: i <= m < |bin| ==> bin[m] == bin[i..][m - i];
  }

  lemma {:induction false} UnpackNothing(c: nat)
    ensures Unpack([], c) == seq(c, j => [])
  {
    if c > 0 { UnpackNothing(c - 1); }
  }

  /** The inner loop: the bytes up to the next zero, or to the end. */
  method ReadString(bin: Binary, start: nat) returns (str: Text, i: nat)
    requires start <= |bin|
    ensures start <= i <= |bin| && str == bin[start..i] && (i < |bin| ==> bin[i] == 0)
    ensures forall m :: start <= m < i ==> bin[m] != 0
  {
    str, i := [], start;
    while i < |bin| && bin[i] != 0
      invariant start <= i <= |bin| && str == bin[start..i]
      invariant forall m :: start <= m < i ==> bin[m] != 0
    {
      str := str + [bin[i]];
      i := i + 1;
    }
  }

  method UnpackStrings(bin: Binary, c: nat) returns (result: seq<Text>)
    ensures result == Unpack(bin, c)
  {
    result := seq(c, j => []);
    var i, j := 0, 0;
    assert Unpacked(bin, result, 0, 0) by {
      NothingUnpacked(bin, result);
    }
    hide *;
    while i < |bin| && j < c
      invariant j <= c == |result| && i <= |bin| + 1
      invariant Unpacked(bin, result, i, j)
    {
      ghost var start := i;
      var str;
      str, i := ReadString(bin, i);
      OneMore(bin, result, start, i, j);
      result := result[j := str];
      i := i + 1;
      j := j + 1;
    }
    AllUnpacked(bin, result, i, j);
  }

  /** The strings before `j` are read, the others still empty, and the bytes from `i` on make the rest. */
  ghost predicate Unpacked(bin: Binary, result: seq<Text>, i: nat, j: nat) {
    && j <= |result| && BlankFrom(result, j)
    && Unpack(bin, |result|) == result[..j] + Unpack(From(bin, i), |result| - j)
  }

  lemma NothingUnpacked(bin: Binary, result: seq<Text>)
    requires BlankFrom(result, 0)
    ensures Unpacked(bin, result, 0, 0)
  {
    assert From(bin, 0) == bin && result[..0] == [];
  }

  lemma OneMore(bin: Binary, result: seq<Text>, i: nat, k: nat, j: nat)
    requires Unpacked(bin, result, i, j) && i <= k <= |bin| && j < |result|
    requires forall m :: i <= m < k ==> bin[m] != 0
    requires k < |bin| ==> bin[k] == 0
    ensures Unpacked(bin, result[j := bin[i..k]], k + 1, j + 1)
  {
    hide Unpack, From, BlankFrom;
    OneString(bin, result, i, k, j);
    StillBlank(result, j, bin[i..k]);
  }

  lemma AllUnpacked(bin: Binary, result: seq<Text>, i: nat, j: nat)
    requires Unpacked(bin, result, i, j) && (i >= |bin| || j == |result|)
    ensures result == Unpack(bin, |result|)
  {
    hide Unpack, From, BlankFrom;
    NoMoreStrings(bin, result, i, j);
  }

  predicate BlankFrom(result: seq<Text>, j: nat) {
    forall m :: j <= m < |result| ==> result[m] == []
  }

  /** The bytes from position `i` on; the code steps over a zero that is not there. */
  function From(bin: Binary, i: nat): Binary {
    if i <= |bin| then bin[i..] else []
  }

  lemma NoMoreStrings(bin: Binary, result: seq<Text>, i: nat, j: nat)
    requires j <= |result| && (i >= |bin| || j == |result|)
    requires BlankFrom(result, j)
    ensures result[..j] + Unpack(From(bin, i), |result| - j) == result
  {
    if j < |result| { UnpackNothing(|result| - j); }
  }

  lemma StillBlank(result: seq<Text>, j: nat, str: Text)
    requires j < |result| && BlankFrom(result, j)
    ensures BlankFrom(result[j := str], j + 1)
  {
  }

  lemma OneString(bin: Binary, result: seq<Text>, i: nat, k: nat, j: nat)
    requires i <= k <= |bin| && j < |result|
    requires forall m :: i <= m < k ==> bin[m] != 0
    requires k < |bin| ==> bin[k] == 0
    ensures result[..j] + Unpack(From(bin, i), |result| - j)
            == result[j := bin[i..k]][..j + 1] + Unpack(From(bin, k + 1), |result| - j - 1)
  {
    hide *;
    StopsAt(bin, i, k);
    OneCut(bin, result, i, k, j);
  }

  lemma OneCut(bin: Binary, result: seq<Text>, i: nat, k: nat, j: nat)
    requires i <= k <= |bin| && j < |result| && FirstZero(bin[i..]) == k - i
    ensures result[..j] + Unpack(From(bin, i), |result| - j)
            == result[j := bin[i..k]][..j + 1] + Unpack(From(bin, k + 1), |result| - j - 1)
  {
    hide *;
    UnpackStep(bin, i, k, |result| - j);
    Slide(result, j, bin[i..k], Unpack(From(bin, k + 1), |result| - j - 1));
  }

  lemma Slide(result: seq<Text>, j: nat, str: Text, rest: seq<Text>)
    requires j < |result|
    ensures result[..j] + ([str] + rest) == result[j := str][..j + 1] + rest
  {
    assert result[..j] + [str] == result[j := str][..j + 1];
  }

  lemma UnpackStep(bin: Binary, i: nat, k: nat, c: nat)
    requires i <= k <= |bin| && c > 0 && FirstZero(bin[i..]) == k - i
    ensures Unpack(From(bin, i), c) == [bin[i..k]] + Unpack(From(bin, k + 1), c - 1)
  {
    assert From(bin, i) == bin[i..] && bin[i..][..k - i] == bin[i..k];
    hide *;
    BehindIs(bin, i, k);
    UnpackMeans(bin[i..], c);
  }

  lemma UnpackMeans(bin: Binary, c: nat)
    requires c > 0
    ensures Unpack(bin, c) == [bin[..FirstZero(bin)]] + Unpack(Behind(bin), c - 1)
  {
  }

  lemma BehindIs(bin: Binary, i: nat, k: nat)
    requires i <= k <= |bin| && FirstZero(bin[i..]) == k - i
    ensures Behind(bin[i..]) == From(bin, k + 1)
  {
    hide FirstZero;
    if k < |bin| { assert bin[i..][k - i + 1..] == bin[k + 1..]; }
  }

  lemma {:induction false} UnpackIsZeroFree(bin: Binary, c: nat)
    ensures ZeroFree(Unpack(bin, c))
    decreases c
  {
    if c > 0 { UnpackIsZeroFree(Behind(bin), c - 1); }
  }

  lemma PackStep(strs: seq<Text>)
    requires strs != [] && ZeroFree(strs)
    ensures Pack(strs) == strs[0] + [0] + Pack(strs[1..])
    ensures ZeroFree(strs[1..]) && 0 !in strs[0]
  {
  }

  /** The first string is read up to its own zero. */
  lemma UnpackCut(str: Text, rest: Binary, c: nat)
    requires 0 !in str && c > 0
    ensures Unpack(str + [0] + rest, c) == [str] + Unpack(rest, c - 1)
  {
    var bin := str + [0] + rest;
    assert From(bin, 0) == bin && From(bin, |str| + 1) == bin[|str| + 1..];
    assert bin[0..] == bin;
    StopsAt(bin, 0, |str|);
    UnpackStep(bin, 0, |str|, c);
    hide *;
    assert bin[0..|str|] == str && bin[|str| + 1..] == rest;
  }

  lemma {:induction false} UnpackOfPack(strs: seq<Text>)
    requires ZeroFree(strs)
    ensures Unpack(Pack(strs), |strs|) == strs
  {
    if strs != [] {
      PackStep(strs);
      UnpackOfPack(strs[1..]);
      hide *;
      UnpackCut(strs[0], Pack(strs[1..]), |strs|);
    }
  }

  /** Packing loses nothing exactly when no string holds a zero. */
  lemma UnpackInvertsPack(strs: seq<Text>)
    ensures Unpack(Pack(strs), |strs|) == strs <==> ZeroFree(strs)
  {
    UnpackIsZeroFree(Pack(strs), |strs|);
    if ZeroFree(strs) { UnpackOfPack(strs); }
  }

  lemma {:induction false} ZerosAppend(a: Binary, b: Binary)
    ensures Zeros(a + b) == Zeros(a) + Zeros(b)
  {
    if a == [] {
      assert a + b == b;
    } else {
      assert (a + b)[1..] == a[1..] + b;
      ZerosAppend(a[1..], b);
    }
  }

  lemma {:induction false} NoZeros(a: Binary)
    requires 0 !in a
    ensures Zeros(a) == 0
  {
    if a != [] { NoZeros(a[1..]); }
  }

  lemma {:induction false} PackIsPacked(strs: seq<Text>)
    requires ZeroFree(strs)
    ensures IsPacked(Pack(strs), |strs|)
  {
    if strs != [] {
      PackIsPacked(strs[1..]);
      NoZeros(strs[0]);
      ZerosAppend(strs[0], [0] + Pack(strs[1..]));
      assert strs[0] + [0] + Pack(strs[1..]) == strs[0] + ([0] + Pack(strs[1..]));
      ZerosAppend([0], Pack(strs[1..]));
    }
  }

  lemma HasAZero(bin: Binary)
    requires Zeros(bin) > 0
    ensures FirstZero(bin) < |bin| && Behind(bin) == bin[FirstZero(bin) + 1..]
  {
    if FirstZero(bin) == |bin| { NoZeros(bin); }
  }

  /** Cutting a packed sequence behind its first zero. */
  lemma CutPacked(bin: Binary, c: nat)
    requires IsPacked(bin, c) && c > 0
    ensures bin == bin[..FirstZero(bin)] + [0] + Behind(bin)
    ensures IsPacked(Behind(bin), c - 1)
  {
    HasAZero(bin);
    var n := FirstZero(bin);
    hide FirstZero, Behind, Zeros;
    CutAt(bin, n);
    CutZeros(bin[..n], bin[n + 1..]);
  }

  lemma CutAt(bin: Binary, n: nat)
    requires n < |bin| && bin[n] == 0
    ensures bin == bin[..n] + [0] + bin[n + 1..]
  {
  }

  lemma CutZeros(a: Binary, b: Binary)
    requires 0 !in a
    ensures Zeros(a + [0] + b) == 1 + Zeros(b)
  {
    NoZeros(a);
    ZerosAppend(a + [0], b);
    ZerosAppend(a, [0]);
  }

  lemma {:induction false} PackOfUnpack(bin: Binary, c: nat)
    requires IsPacked(bin, c)
    ensures Pack(Unpack(bin, c)) == bin
  {
    if c > 0 {
      CutPacked(bin, c);
      UnpackMeans(bin, c);
      hide *;
      PackOfUnpack(Behind(bin), c - 1);
      PackMeans(bin[..FirstZero(bin)], Unpack(Behind(bin), c - 1));
    } else if bin != [] {
      LastZeroCounts(bin);
    }
  }

  lemma PackMeans(str: Text, strs: seq<Text>)
    ensures Pack([str] + strs) == str + [0] + Pack(strs)
  {
    assert ([str] + strs)[1..] == strs;
  }

  lemma LastZeroCounts(bin: Binary)
    requires bin != [] && bin[|bin| - 1] == 0
    ensures Zeros(bin) > 0
  {
    ZerosAppend(bin[..|bin| - 1], [0]);
    assert bin == bin[..|bin| - 1] + [0];
  }

  /** Each string is written with one zero behind it, in the order of the list. */
  lemma {:induction false} PackExactly(a: seq<Text>, str: Text, b: seq<Text>)
    ensures Pack([]) == [] && Pack(a + [str] + b) == Pack(a) + str + [0] + Pack(b)
    decreases a
  {
    if a == [] {
      assert [] + [str] + b == [str] + b;
      PackMeans(str, b);
    } else {
      assert a == [a[0]] + a[1..] && a + [str] + b == [a[0]] + (a[1..] + [str] + b);
      PackExactly(a[1..], str, b);
      hide *;
      PackMeans(a[0], a[1..]);
      PackMeans(a[0], a[1..] + [str] + b);
    }
  }

  /**
   The strings are the front of the bytes, string by string.  When there are fewer zeros than
   strings, the string after the last zero is the rest, and the strings after it are empty.
   */
  predicate AreRead(strs: seq<Text>, bin: Binary, zeros: nat) {
    if |strs| <= zeros then Pack(strs) <= bin
    else bin == Pack(strs[..zeros]) + strs[zeros] && BlankFrom(strs, zeros + 1)
  }

  lemma UnpackLast(bin: Binary, c: nat)
    requires c > 0 && FirstZero(bin) == |bin|
    ensures Zeros(bin) == 0 && AreRead(Unpack(bin, c), bin, 0)
  {
    NoZeros(bin);
    UnpackNothing(c - 1);
    assert bin[..|bin|] == bin;
  }

  lemma UnpackNone(bin: Binary)
    ensures AreRead(Unpack(bin, 0), bin, Zeros(bin))
  {
    assert Pack([]) == [];
  }

  /** Whatever the bytes, what is read is what they hold, and no string contains a zero. */
  lemma {:induction false} UnpackExactly(bin: Binary, c: nat)
    ensures |Unpack(bin, c)| == c && ZeroFree(Unpack(bin, c)) && AreRead(Unpack(bin, c), bin, Zeros(bin))
    decreases c
  {
    hide *;
    UnpackIsZeroFree(bin, c);
    var n := FirstZero(bin);
    if c == 0 {
      UnpackNone(bin);
    } else if n == |bin| {
      UnpackLast(bin, c);
    } else {
      UnpackMeans(bin, c);
      HasAZeroAt(bin);
      CutZerosAt(bin, n);
      UnpackExactly(bin[n + 1..], c - 1);
      ReadsOneMore(bin, n, Unpack(bin[n + 1..], c - 1), Zeros(bin[n + 1..]));
    }
  }

  lemma HasAZeroAt(bin: Binary)
    requires FirstZero(bin) < |bin|
    ensures Behind(bin) == bin[FirstZero(bin) + 1..]
  {
  }

  lemma CutZerosAt(bin: Binary, n: nat)
    requires n == FirstZero(bin) && n < |bin|
    ensures bin[n] == 0 && Zeros(bin) == 1 + Zeros(bin[n + 1..])
  {
    CutAt(bin, n);
    assert 0 !in bin[..n];
    hide *;
    CutZeros(bin[..n], bin[n + 1..]);
  }

  lemma ReadsOneMore(bin: Binary, n: nat, rest: seq<Text>, zeros: nat)
    requires n < |bin| && bin[n] == 0 && AreRead(rest, bin[n + 1..], zeros)
    ensures AreRead([bin[..n]] + rest, bin, zeros + 1)
  {
    hide Pack;
    CutAt(bin, n);
    if |rest| <= zeros {
      PackMeans(bin[..n], rest);
    } else {
      assert ([bin[..n]] + rest)[..zeros + 1] == [bin[..n]] + rest[..zeros];
      PackMeans(bin[..n], rest[..zeros]);
    }
  }

  /** Bytes survive reading `c` strings and writing them again exactly when `c` strings made them. */
  lemma PackInvertsUnpack(bin: Binary, c: nat)
    ensures Pack(Unpack(bin, c)) == bin <==> IsPacked(bin, c)
  {
    UnpackIsZeroFree(bin, c);
    PackIsPacked(Unpack(bin, c));
    if IsPacked(bin, c) { PackOfUnpack(bin, c); }
  }
}
