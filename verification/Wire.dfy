/** Bytes, the host's byte order, and the reader and writer every wire format is built with. */
module Bytes {
  import opened Common
  import opened Sequence

  type byte = x: int | 0 <= x < 256
  type Binary = seq<byte>
  type uint16 = x: int | 0 <= x < 0x1_0000

  /** How the host lays integers out in memory. */
  datatype Order = Little | Big

  /** The bits above the lowest eight: how often 256 fits. */
  function High(n: nat): nat {
    if n < 256 then 0 else 1 + High(n - 256)
  }

  /** The lowest eight bits: what is left then. */
  function Low(n: nat): byte {
    if n < 256 then n else Low(n - 256)
  }

  function Big16(n: uint16): (b: Binary)
    ensures |b| == 2
  {
    [Low(High(n)), Low(n)]
  }

  function Big32(n: uint32): (b: Binary)
    ensures |b| == 4
  {
    [Low(High(High(High(n)))), Low(High(High(n))), Low(High(n)), Low(n)]
  }

  function Memory16(o: Order, n: uint16): (b: Binary) {
    if o == Big then Big16(n) else [Low(n), Low(High(n))]
  }

  function Memory32(o: Order, n: uint32): (b: Binary) {
    if o == Big then Big32(n) else [Low(n), Low(High(n)), Low(High(High(n))), Low(High(High(High(n))))]
  }

  /** The number with these bits above the lowest eight, and these lowest eight. */
  function Pair(high: nat, low: byte): (n: nat) {
    if high == 0 then low else 256 + Pair(high - 1, low)
  }

  lemma {:induction false} PairMultiplies(high: nat, low: byte)
    ensures Pair(high, low) == high * 256 + low
  {
    if high > 0 { PairMultiplies(high - 1, low); }
  }

  function Number2(b0: byte, b1: byte): uint16 {
    PairMultiplies(b0, b1);
    Pair(b0, b1)
  }

  function Number4(b0: byte, b1: byte, b2: byte, b3: byte): uint32 {
    PairMultiplies(Pair(Pair(b0, b1), b2), b3);
    PairMultiplies(Pair(b0, b1), b2);
    PairMultiplies(b0, b1);
    Pair(Pair(Pair(b0, b1), b2), b3)
  }

  function Load16(o: Order, b: Binary): uint16
    requires |b| == 2
  {
    if o == Big then Number2(b[0], b[1]) else Number2(b[1], b[0])
  }

  function Load32(o: Order, b: Binary): uint32
    requires |b| == 4
  {
    if o == Big then Number4(b[0], b[1], b[2], b[3]) else Number4(b[3], b[2], b[1], b[0])
  }

  /** Reads the bytes of an integer in memory as a big-endian number; used in both directions. */
  function Swap16(o: Order, n: uint16): uint16 {
    Load16(Big, Memory16(o, n))
  }

  function Swap32(o: Order, n: uint32): uint32 {
    Load32(Big, Memory32(o, n))
  }

  lemma {:induction false} ShiftDivides(n: nat)
    ensures High(n) == n / 256 && Low(n) == n % 256
  {
    if n >= 256 { ShiftDivides(n - 256); }
  }

  lemma PairSplits(high: nat, low: byte)
    ensures High(Pair(high, low)) == high && Low(Pair(high, low)) == low
  {
    ShiftDivides(Pair(high, low));
    PairMultiplies(high, low);
  }

  lemma SplitPairs(n: nat)
    ensures Pair(High(n), Low(n)) == n && (n < 0x1_0000 ==> Low(High(n)) == High(n))
  {
    ShiftDivides(n);
    ShiftDivides(High(n));
    PairMultiplies(High(n), Low(n));
  }

  lemma Split4(n: uint32)
    ensures Pair(Pair(Pair(Low(High(High(High(n)))), Low(High(High(n)))), Low(High(n))), Low(n)) == n
  {
    hide High, Low, Pair;
    ShiftDivides(n);
    ShiftDivides(High(n));
    SplitPairs(n);
    SplitPairs(High(n));
    SplitPairs(High(High(n)));
  }

  lemma LowOfByte(b: byte)
    ensures Low(b) == b
  {
  }

  /** Big-endian: the first byte is worth the most, and in the memory of a little-endian host the last. */
  lemma BytesMean(n: uint16, m: uint32)
    ensures var b := Big16(n); |b| == 2 && b[0] as int * 0x100 + b[1] as int == n
    ensures var b := Big32(m);
            && |b| == 4
            && b[0] as int * 0x100_0000 + b[1] as int * 0x1_0000 + b[2] as int * 0x100 + b[3] as int == m
    ensures var b := Memory16(Little, n); |b| == 2 && b[1] as int * 0x100 + b[0] as int == n
    ensures var b := Memory32(Little, m);
            && |b| == 4
            && b[3] as int * 0x100_0000 + b[2] as int * 0x1_0000 + b[1] as int * 0x100 + b[0] as int == m
    ensures Memory16(Big, n) == Big16(n) && Memory32(Big, m) == Big32(m)
  {
    hide Low, High, Pair;
    SplitPairs(n);
    PairMultiplies(Low(High(n)), Low(n));
    Split4(m);
    NumbersMean(Low(High(High(High(m)))), Low(High(High(m))), Low(High(m)), Low(m));
  }

  lemma NumbersMean(b0: byte, b1: byte, b2: byte, b3: byte)
    ensures Number2(b0, b1) as int == b0 as int * 0x100 + b1 as int
    ensures Number4(b0, b1, b2, b3) as int
            == b0 as int * 0x100_0000 + b1 as int * 0x1_0000 + b2 as int * 0x100 + b3 as int
  {
    hide Pair;
    PairMultiplies(Pair(Pair(b0, b1), b2), b3);
    PairMultiplies(Pair(b0, b1), b2);
    PairMultiplies(b0, b1);
  }

  /** Whatever the host, what goes out is big-endian, and what comes in is read back as it was. */
  lemma NetworkOrder16(o: Order, n: uint16, b: Binary)
    requires |b| == 2
    ensures Memory16(o, Swap16(o, n)) == Big16(n)
    ensures Swap16(o, Load16(o, b)) == Load16(Big, b)
    ensures Load16(Big, Big16(n)) == n && Big16(Load16(Big, b)) == b
  {
    hide High, Low, Pair;
    SplitPairs(n);
    PairSplits(Low(n), Low(High(n)));
    PairSplits(b[0], b[1]);
    PairSplits(b[1], b[0]);
    LowOfByte(Low(n));
    LowOfByte(b[0]);
    LowOfByte(b[1]);
  }

  /** The four bytes of the number of four bytes. */
  lemma Quad(b0: byte, b1: byte, b2: byte, b3: byte)
    ensures var m := Number4(b0, b1, b2, b3);
            Low(High(High(High(m)))) == b0 && Low(High(High(m))) == b1 && Low(High(m)) == b2 && Low(m) == b3
  {
    hide High, Low, Pair;
    PairSplits(Pair(Pair(b0, b1), b2), b3);
    PairSplits(Pair(b0, b1), b2);
    PairSplits(b0, b1);
    LowOfByte(b0);
  }

  lemma NetworkOrder32(o: Order, n: uint32, b: Binary)
    requires |b| == 4
    ensures Memory32(o, Swap32(o, n)) == Big32(n)
    ensures Swap32(o, Load32(o, b)) == Load32(Big, b)
    ensures Load32(Big, Big32(n)) == n && Big32(Load32(Big, b)) == b
  {
    hide High, Low, Pair;
    Split4(n);
    Quad(b[0], b[1], b[2], b[3]);
    Quad(b[3], b[2], b[1], b[0]);
    Quad(Low(n), Low(High(n)), Low(High(High(n))), Low(High(High(High(n)))));
  }
}

/** Messages on the wire. */
module Wire {
  import opened Common
  import opened Sequence
  import opened Limits
  import opened Bytes

  function Pow256(k: nat): (r: nat)
    ensures r > 0
  {
    if k == 0 then 1 else 256 * Pow256(k - 1)
  }

  /** A public key; an identifier is one.  There are no more than fit the bytes they are encoded in. */
  type Id = x: int | 0 <= x < Pow256(ID_SIZE)
  type KeyPair = nat

  const HEADER_SIZE := 8

  /**
   The cryptography, left open: how identifiers are encoded and recognised, whose identifier
   a key pair has, how it signs (with a nonce), and what verifies.
   */
  datatype Scheme = Scheme(
    encode: Id -> Binary,
    decode: Binary -> Option<Id>,
    owner: KeyPair -> Id,
    sign: (KeyPair, Binary, nat) -> Binary,
    verify: (Id, Binary, Binary) -> bool)

  ghost predicate Sound(c: Scheme) {
    && (forall id: Id :: |c.encode(id)| == ID_SIZE && c.decode(c.encode(id)) == Some(id))
    && (forall pair: KeyPair, bin: Binary, nonce: nat :: c.verify(c.owner(pair), bin, c.sign(pair, bin, nonce)))
  }

  // ----- a scheme that is sound -----

  /** The `k` lowest digits of a number to the base 256, the highest first. */
  function Digits(n: nat, k: nat): (b: Binary)
    ensures |b| == k
    decreases k
  {
    if k == 0 then [] else Digits(n / 256, k - 1) + [n % 256]
  }

  function Number(b: Binary): nat {
    if b == [] then 0 else 256 * Number(b[..|b| - 1]) + b[|b| - 1]
  }

  lemma {:induction false} NumberOfDigits(n: nat, k: nat)
    requires n < Pow256(k)
    ensures Number(Digits(n, k)) == n
    decreases k
  {
    if k > 0 {
      NumberOfDigits(n / 256, k - 1);
      var b := Digits(n, k);
      assert b[..|b| - 1] == Digits(n / 256, k - 1);
    }
  }

  /** Identifiers written as numbers; a signature is the signer's identifier and what was signed. */
  function Plain(): Scheme {
    Scheme((id: Id) => Digits(id, ID_SIZE),
           (bin: Binary) => if Number(bin) < Pow256(ID_SIZE) then Some(Number(bin)) else None,
           (pair: KeyPair) => if pair < Pow256(ID_SIZE) then pair else 0,
           (pair: KeyPair, bin: Binary, nonce: nat) =>
             Digits(if pair < Pow256(ID_SIZE) then pair else 0, ID_SIZE) + bin,
           (id: Id, bin: Binary, signature: Binary) => signature == Digits(id, ID_SIZE) + bin)
  }

  lemma PlainDecodes(id: Id)
    ensures |Plain().encode(id)| == ID_SIZE && Plain().decode(Plain().encode(id)) == Some(id)
  {
    NumberOfDigits(id, ID_SIZE);
    hide Number, Digits, Pow256;
  }

  lemma PlainVerifies(id: Id, pair: KeyPair, bin: Binary, nonce: nat)
    ensures Plain().verify(id, bin, Plain().sign(pair, bin, nonce)) <==> id == Plain().owner(pair)
  {
    var owner := Plain().owner(pair);
    NumberOfDigits(id, ID_SIZE);
    NumberOfDigits(owner, ID_SIZE);
    SameFrontOnly(Digits(id, ID_SIZE), Digits(owner, ID_SIZE), bin);
    hide Number, Digits, Pow256;
  }

  /** What is assumed of a scheme can be met, by one whose signatures are accepted for the signer only. */
  lemma SomeSchemeIsSound()
    ensures Sound(Plain())
    ensures forall id: Id, pair: KeyPair, bin: Binary, nonce: nat ::
              Plain().verify(id, bin, Plain().sign(pair, bin, nonce)) <==> id == Plain().owner(pair)
  {
    hide Plain;
    forall id: Id
      ensures |Plain().encode(id)| == ID_SIZE && Plain().decode(Plain().encode(id)) == Some(id)
    {
      PlainDecodes(id);
    }
    forall id: Id, pair: KeyPair, bin: Binary, nonce: nat
      ensures Plain().verify(id, bin, Plain().sign(pair, bin, nonce)) <==> id == Plain().owner(pair)
    {
      PlainVerifies(id, pair, bin, nonce);
    }
  }

  lemma SameFrontOnly(a: Binary, b: Binary, rest: Binary)
    requires |a| == |b|
    ensures a + rest == b + rest <==> a == b
  {
    if a + rest == b + rest {
      assert a == (a + rest)[..|a|] && b == (b + rest)[..|b|];
    }
  }

  datatype Message = Message(kind: byte, sequence: uint32, source: Option<Id>, destination: Option<Id>,
                             body: Binary, signature: Binary)

  function FlagsOf(m: Message): byte {
    (if m.source.Some? then 1 else 0) + (if m.destination.Some? then 2 else 0)
  }

  function Header(o: Order, m: Message): Binary
    requires |m.body| <= MAX_BODY
  {
    [m.kind, FlagsOf(m)] + Memory16(o, Swap16(o, |m.body|)) + Memory32(o, Swap32(o, m.sequence))
  }

  function Field(c: Scheme, id: Option<Id>): Binary {
    if id.Some? then c.encode(id.value) else []
  }

  /** The message without its signature: what is signed. */
  function Prefix(o: Order, c: Scheme, m: Message): Binary
    requires |m.body| <= MAX_BODY
  {
    Header(o, m) + Field(c, m.source) + Field(c, m.destination) + m.body
  }

  function Serialize(o: Order, c: Scheme, m: Message): Result<Binary> {
    if |m.body| > MAX_BODY then Thrown else Ok(Prefix(o, c, m) + m.signature)
  }

  /** An identifier read off the front, when a flag asks for one, and what is left. */
  function ReadField(c: Scheme, present: bool, bin: Binary): (r: Result<(Option<Id>, Binary)>)
    ensures r.Ok? ==> |r.value.1| <= |bin|
  {
    if !present then Ok((None, bin))
    else if |bin| < ID_SIZE then Thrown
    else
      match c.decode(bin[..ID_SIZE])
      case None => Thrown
      case Some(id) => Ok((Some(id), bin[ID_SIZE..]))
  }

  /** What follows the header, once the header is read. */
  function ParseRest(c: Scheme, bin: Binary, length: uint16, sequence: uint32): Result<Message>
    requires HEADER_SIZE <= |bin|
  {
    match ReadField(c, bin[1] % 2 == 1, bin[HEADER_SIZE..])
    case Thrown => Thrown
    case Ok((source, rest)) =>
      match ReadField(c, bin[1] / 2 % 2 == 1, rest)
      case Thrown => Thrown
      case Ok((destination, left)) => ParseLast(c, bin, length, sequence, source, destination, left)
  }

  /** What follows the identifiers: the body and the signature, which must verify when there is a source. */
  function ParseLast(c: Scheme, bin: Binary, length: uint16, sequence: uint32, source: Option<Id>,
                     destination: Option<Id>, left: Binary): Result<Message>
    requires HEADER_SIZE <= |bin| && |left| <= |bin|
  {
    if |left| < length then Thrown
    else
      var m := Message(bin[0], sequence, source, destination, left[..length], left[length..]);
      if source.Some? && !c.verify(source.value, bin[..|bin| - (|left| - length)], m.signature) then Thrown
      else Ok(m)
  }

  function LengthIn(o: Order, bin: Binary): uint16
    requires HEADER_SIZE <= |bin|
  {
    Swap16(o, Load16(o, bin[2..4]))
  }

  function SequenceIn(o: Order, bin: Binary): uint32
    requires HEADER_SIZE <= |bin|
  {
    Swap32(o, Load32(o, bin[4..8]))
  }

  function Parse(o: Order, c: Scheme, bin: Binary): Result<Message> {
    if |bin| < HEADER_SIZE then Thrown else ParseRest(c, bin, LengthIn(o, bin), SequenceIn(o, bin))
  }

  function Sign(o: Order, c: Scheme, pair: KeyPair, nonce: nat, m: Message): Result<Message> {
    if |m.body| > MAX_BODY then Thrown
    else
      var named := m.(source := Some(c.owner(pair)), signature := []);
      Ok(named.(signature := c.sign(pair, Prefix(o, c, named), nonce)))
  }

  // ----- the header is the same on every host -----

  lemma HeaderIsPortable(o: Order, m: Message)
    requires |m.body| <= MAX_BODY
    ensures Header(o, m) == [m.kind, FlagsOf(m)] + Big16(|m.body|) + Big32(m.sequence)
    ensures |Header(o, m)| == HEADER_SIZE
  {
    NetworkOrder16(o, |m.body|, [0, 0]);
    NetworkOrder32(o, m.sequence, [0, 0, 0, 0]);
  }

  lemma FieldsArePortable(o: Order, bin: Binary)
    requires HEADER_SIZE <= |bin|
    ensures LengthIn(o, bin) == Load16(Big, bin[2..4]) && SequenceIn(o, bin) == Load32(Big, bin[4..8])
  {
    hide Swap16, Swap32, Load16, Load32;
    NetworkOrder16(o, 0, bin[2..4]);
    NetworkOrder32(o, 0, bin[4..8]);
  }

  lemma ParseIsPortable(o: Order, p: Order, c: Scheme, bin: Binary)
    ensures Parse(o, c, bin) == Parse(p, c, bin)
  {
    hide ParseRest, LengthIn, SequenceIn;
    if HEADER_SIZE <= |bin| {
      FieldsArePortable(o, bin);
      FieldsArePortable(p, bin);
    }
  }

  // ----- parsing inverts serialising -----

  lemma ReadFieldBack(c: Scheme, id: Option<Id>, rest: Binary)
    requires Sound(c)
    ensures ReadField(c, id.Some?, Field(c, id) + rest) == Ok((id, rest))
  {
    if id.Some? {
      var bin := c.encode(id.value) + rest;
      assert bin[..ID_SIZE] == c.encode(id.value) && bin[ID_SIZE..] == rest;
    } else {
      assert Field(c, id) + rest == rest;
    }
  }

  /** A message that verifies, or bears no source. */
  ghost predicate Genuine(o: Order, c: Scheme, m: Message)
    requires |m.body| <= MAX_BODY
  {
    m.source.Some? ==> c.verify(m.source.value, Prefix(o, c, m), m.signature)
  }

  /** What the parser sees in the first bytes of a serialised message. */
  lemma HeaderRead(o: Order, p: Order, m: Message, rest: Binary)
    requires |m.body| <= MAX_BODY
    ensures var bin := Header(o, m) + rest;
            && HEADER_SIZE <= |bin| && bin[0] == m.kind && bin[1] == FlagsOf(m) && bin[HEADER_SIZE..] == rest
            && LengthIn(p, bin) == |m.body| && SequenceIn(p, bin) == m.sequence
  {
    hide Header, FlagsOf, Big16, Big32, Load16, Load32, Swap16, Swap32;
    HeaderIsPortable(o, m);
    var bin := Header(o, m) + rest;
    assert bin[2..4] == Big16(|m.body|) && bin[4..8] == Big32(m.sequence);
    NetworkOrder16(p, |m.body|, bin[2..4]);
    NetworkOrder32(p, m.sequence, bin[4..8]);
  }

  lemma FlagsTell(m: Message)
    ensures FlagsOf(m) % 2 == 1 <==> m.source.Some?
    ensures FlagsOf(m) / 2 % 2 == 1 <==> m.destination.Some?
    ensures FlagsOf(m) <= 3
  {
  }

  lemma RestRead(o: Order, c: Scheme, m: Message)
    requires Sound(c) && |m.body| <= MAX_BODY
    requires var bin := Prefix(o, c, m) + m.signature;
             && HEADER_SIZE <= |bin| && bin[0] == m.kind && bin[1] == FlagsOf(m)
             && bin[HEADER_SIZE..] == Field(c, m.source) + (Field(c, m.destination) + (m.body + m.signature))
    ensures ParseRest(c, Prefix(o, c, m) + m.signature, |m.body|, m.sequence)
            == if Genuine(o, c, m) then Ok(m) else Thrown
  {
    var last := m.body + m.signature;
    var bin := Prefix(o, c, m) + m.signature;
    FlagsTell(m);
    ReadFieldBack(c, m.source, Field(c, m.destination) + last);
    ReadFieldBack(c, m.destination, last);
    assert last[..|m.body|] == m.body && last[|m.body|..] == m.signature;
    assert bin[..|bin| - |m.signature|] == Prefix(o, c, m);
  }

  /** What one host serialises, another parses back, exactly when it is genuine. */
  lemma ParseInvertsSerialize(o: Order, p: Order, c: Scheme, m: Message)
    requires Sound(c) && |m.body| <= MAX_BODY
    ensures Serialize(o, c, m) == Ok(Prefix(o, c, m) + m.signature)
    ensures Parse(p, c, Prefix(o, c, m) + m.signature) == if Genuine(o, c, m) then Ok(m) else Thrown
  {
    var rest := Field(c, m.source) + (Field(c, m.destination) + (m.body + m.signature));
    PrefixIs(o, c, m);
    HeaderRead(o, p, m, rest);
    RestRead(o, c, m);
    hide Header, Prefix, Field, Genuine, ParseRest, FlagsOf, LengthIn, SequenceIn;
  }

  lemma PrefixIs(o: Order, c: Scheme, m: Message)
    requires |m.body| <= MAX_BODY
    ensures Prefix(o, c, m) + m.signature
            == Header(o, m) + (Field(c, m.source) + (Field(c, m.destination) + (m.body + m.signature)))
  {
    hide Header, Field;
  }

  // ----- serialising inverts parsing, when nothing was lost on the way in -----

  /** The identifiers the message carries are in the encoding that serialising gives them. */
  ghost predicate Canonical(c: Scheme, present: bool, bin: Binary) {
    present ==> ID_SIZE <= |bin| && c.decode(bin[..ID_SIZE]).Some?
                && c.encode(c.decode(bin[..ID_SIZE]).value) == bin[..ID_SIZE]
  }

  /** The bytes after a field that was read. */
  function After(present: bool, bin: Binary): Binary
    requires present ==> ID_SIZE <= |bin|
  {
    if present then bin[ID_SIZE..] else bin
  }

  /** Flags the format knows, and canonical identifiers. */
  ghost predicate Faithful(c: Scheme, bin: Binary) {
    && HEADER_SIZE <= |bin| && bin[1] <= 3
    && Canonical(c, bin[1] % 2 == 1, bin[HEADER_SIZE..])
    && Canonical(c, bin[1] / 2 % 2 == 1, After(bin[1] % 2 == 1, bin[HEADER_SIZE..]))
  }

  /** A field put back is what was read exactly when it was canonical. */
  lemma FieldBack(c: Scheme, present: bool, bin: Binary)
    requires Sound(c) && ReadField(c, present, bin).Ok?
    ensures var r := ReadField(c, present, bin).value;
            && (r.0.Some? <==> present) && (present ==> ID_SIZE <= |bin|) && r.1 == After(present, bin)
            && |Field(c, r.0)| + |r.1| == |bin|
            && (Canonical(c, present, bin) <==> Field(c, r.0) + r.1 == bin)
  {
    if present {
      var r := ReadField(c, present, bin).value;
      var put := Field(c, r.0) + r.1;
      assert put[..ID_SIZE] == Field(c, r.0) && put[ID_SIZE..] == r.1;
      assert bin == bin[..ID_SIZE] + bin[ID_SIZE..];
    }
  }

  lemma FlagsBack(m: Message, flags: byte)
    requires m.source.Some? <==> flags % 2 == 1
    requires m.destination.Some? <==> flags / 2 % 2 == 1
    ensures FlagsOf(m) == flags <==> flags <= 3
  {
  }

  lemma HeaderBack(o: Order, m: Message, bin: Binary)
    requires HEADER_SIZE <= |bin| && |m.body| == LengthIn(o, bin) && m.sequence == SequenceIn(o, bin)
             && m.kind == bin[0]
    ensures Header(o, m) == bin[..HEADER_SIZE] <==> FlagsOf(m) == bin[1]
  {
    hide Header, FlagsOf, LengthIn, SequenceIn, Big16, Big32, Load16, Load32;
    HeaderIsPortable(o, m);
    FieldsArePortable(o, bin);
    NetworkOrder16(o, 0, bin[2..4]);
    NetworkOrder32(o, 0, bin[4..8]);
    var head := [m.kind, FlagsOf(m)] + bin[2..4] + bin[4..8];
    assert bin[..HEADER_SIZE] == [bin[0], bin[1]] + bin[2..4] + bin[4..8];
    assert head[1] == FlagsOf(m) && bin[..HEADER_SIZE][1] == bin[1];
  }

  /** What a parsed message is made of. */
  lemma Parsed(o: Order, c: Scheme, bin: Binary)
    requires Parse(o, c, bin).Ok?
    ensures HEADER_SIZE <= |bin| && ReadField(c, bin[1] % 2 == 1, bin[HEADER_SIZE..]).Ok?
    ensures var first := ReadField(c, bin[1] % 2 == 1, bin[HEADER_SIZE..]).value;
            var m := Parse(o, c, bin).value;
            && ReadField(c, bin[1] / 2 % 2 == 1, first.1).Ok?
            && var second := ReadField(c, bin[1] / 2 % 2 == 1, first.1).value;
            && m.source == first.0 && m.destination == second.0 && m.body + m.signature == second.1
            && m.kind == bin[0] && |m.body| == LengthIn(o, bin) && m.sequence == SequenceIn(o, bin)
  {
    hide ReadField, LengthIn, SequenceIn;
    var first := ReadField(c, bin[1] % 2 == 1, bin[HEADER_SIZE..]);
    var left := ReadField(c, bin[1] / 2 % 2 == 1, first.value.1).value.1;
    var m := Parse(o, c, bin).value;
    assert |left| >= LengthIn(o, bin);
    assert left[..|m.body|] + left[|m.body|..] == left;
  }

  /** The parts a message serialises to, after its header. */
  function Tail(c: Scheme, m: Message): Binary {
    Field(c, m.source) + (Field(c, m.destination) + (m.body + m.signature))
  }

  lemma TailBack(o: Order, c: Scheme, bin: Binary)
    requires Sound(c) && Parse(o, c, bin).Ok?
    ensures var m := Parse(o, c, bin).value;
            && HEADER_SIZE <= |bin| && |Tail(c, m)| == |bin| - HEADER_SIZE
            && (m.source.Some? <==> bin[1] % 2 == 1) && (m.destination.Some? <==> bin[1] / 2 % 2 == 1)
            && (bin[1] % 2 == 1 ==> ID_SIZE <= |bin[HEADER_SIZE..]|)
            && (Tail(c, m) == bin[HEADER_SIZE..] <==>
                  Canonical(c, bin[1] % 2 == 1, bin[HEADER_SIZE..])
                  && Canonical(c, bin[1] / 2 % 2 == 1, After(bin[1] % 2 == 1, bin[HEADER_SIZE..])))
  {
    hide Parse, Canonical, ReadField, Field;
    Parsed(o, c, bin);
    var whole := bin[HEADER_SIZE..];
    var first := ReadField(c, bin[1] % 2 == 1, whole).value;
    var second := ReadField(c, bin[1] / 2 % 2 == 1, first.1).value;
    FieldBack(c, bin[1] % 2 == 1, whole);
    FieldBack(c, bin[1] / 2 % 2 == 1, first.1);
    var put := Field(c, second.0) + second.1;
    SameFront(Field(c, first.0), put, first.1, whole);
  }

  /** Two strings with the same front are equal exactly when their backs are, if the whole matches the front. */
  lemma SameFront(front: Binary, put: Binary, back: Binary, whole: Binary)
    requires |put| == |back| && |front| + |back| == |whole| && whole[|front|..] == back
    ensures front + put == whole <==> front + back == whole && put == back
  {
    var all := front + put;
    assert all[|front|..] == put && all[..|front|] == front;
    assert whole == whole[..|front|] + whole[|front|..];
  }

  /**
   What a parser accepted serialises to the very bytes it came from, on any host, exactly
   when its flags are ones the format knows and its identifiers were canonical.
   */
  lemma SerializeInvertsParse(o: Order, p: Order, c: Scheme, bin: Binary)
    requires Sound(c) && Parse(o, c, bin).Ok?
    ensures Serialize(p, c, Parse(o, c, bin).value) == Ok(bin) <==> Faithful(c, bin)
  {
    hide Parse, Header, Field, Canonical, ReadField, FlagsOf, Prefix, Tail, LengthIn, SequenceIn;
    ParseIsPortable(o, p, c, bin);
    var m := Parse(p, c, bin).value;
    TailBack(p, c, bin);
    Parsed(p, c, bin);
    FlagsBack(m, bin[1]);
    HeaderBack(p, m, bin);
    HeaderIsPortable(p, m);
    TwoParts(p, c, m);
    SameParts(Header(p, m), Tail(c, m), bin);
  }

  lemma TwoParts(o: Order, c: Scheme, m: Message)
    requires |m.body| <= MAX_BODY
    ensures Prefix(o, c, m) + m.signature == Header(o, m) + Tail(c, m)
  {
    hide Header, Field;
  }

  lemma SameParts(head: Binary, tail: Binary, bin: Binary)
    requires |head| <= |bin| && |head| + |tail| == |bin|
    ensures head + tail == bin <==> head == bin[..|head|] && tail == bin[|head|..]
  {
    assert (head + tail)[..|head|] == head && (head + tail)[|head|..] == tail;
    assert bin == bin[..|head|] + bin[|head|..];
  }

  /** A relay parses and serialises again. */
  function Relay(o: Order, c: Scheme, bin: Binary): Result<Binary> {
    match Parse(o, c, bin)
    case Thrown => Thrown
    case Ok(m) => Serialize(o, c, m)
  }

  function RelayAll(hosts: seq<Order>, c: Scheme, bin: Binary): Result<Binary>
    decreases |hosts|
  {
    if hosts == [] then Ok(bin)
    else
      match Relay(hosts[0], c, bin)
      case Thrown => Thrown
      case Ok(again) => RelayAll(hosts[1..], c, again)
  }

  /** What is serialised is canonical and has known flags. */
  lemma SerializedIsFaithful(o: Order, c: Scheme, m: Message)
    requires Sound(c) && |m.body| <= MAX_BODY && Genuine(o, c, m)
    ensures Faithful(c, Prefix(o, c, m) + m.signature)
  {
    var bin := Prefix(o, c, m) + m.signature;
    ParseInvertsSerialize(o, o, c, m);
    SerializeInvertsParse(o, o, c, bin);
  }

  /** Any number of relays, on hosts of either byte order, passes a genuine message on unchanged. */
  lemma {:induction false} RelaysChangeNothing(hosts: seq<Order>, o: Order, c: Scheme, m: Message)
    requires Sound(c) && |m.body| <= MAX_BODY && Genuine(o, c, m)
    ensures RelayAll(hosts, c, Prefix(o, c, m) + m.signature) == Ok(Prefix(o, c, m) + m.signature)
    decreases |hosts|
  {
    if hosts != [] {
      var bin := Prefix(o, c, m) + m.signature;
      ParseInvertsSerialize(o, hosts[0], c, m);
      SerializedIsFaithful(o, c, m);
      SerializeInvertsParse(hosts[0], hosts[0], c, bin);
      RelaysChangeNothing(hosts[1..], o, c, m);
    }
  }

  /** Signing sets the source and the signature, which is of the message with that source, and nothing else. */
  lemma SignKeeps(o: Order, c: Scheme, pair: KeyPair, nonce: nat, m: Message)
    requires |m.body| <= MAX_BODY
    ensures var signed := Sign(o, c, pair, nonce, m);
            && signed.Ok? && signed.value.source == Some(c.owner(pair))
            && signed.value.kind == m.kind && signed.value.sequence == m.sequence
            && signed.value.destination == m.destination && signed.value.body == m.body
            && signed.value.signature == c.sign(pair, Prefix(o, c, signed.value), nonce)
  {
    var named := m.(source := Some(c.owner(pair)), signature := []);
    assert Prefix(o, c, Sign(o, c, pair, nonce, m).value) == Prefix(o, c, named);
  }

  /** Every message signed by its source passes the parser's verification, on any host. */
  lemma SignedIsAccepted(o: Order, p: Order, c: Scheme, pair: KeyPair, nonce: nat, m: Message)
    requires Sound(c) && |m.body| <= MAX_BODY
    ensures var signed := Sign(o, c, pair, nonce, m);
            && signed.Ok?
            && signed.value == m.(source := Some(c.owner(pair)), signature := signed.value.signature)
            && Parse(p, c, Prefix(o, c, signed.value) + signed.value.signature) == signed
  {
    SignKeeps(o, c, pair, nonce, m);
    ParseInvertsSerialize(o, p, c, Sign(o, c, pair, nonce, m).value);
  }

  // ----- the format, byte by byte -----

  /** Where the destination begins, after eight header bytes and the source if there is one. */
  function SecondField(source: bool): nat {
    if source then 8 + 33 else 8
  }

  function BodyAt(source: bool, destination: bool): nat {
    SecondField(source) + if destination then 33 else 0
  }

  /** What stands in the eight header bytes. */
  ghost predicate HeaderIs(bin: Binary, m: Message) {
    && 8 <= |bin| && bin[0] == m.kind
    && bin[1] == (if m.source.Some? then 1 else 0) + (if m.destination.Some? then 2 else 0)
    && Number2(bin[2], bin[3]) == |m.body|
    && Number4(bin[4], bin[5], bin[6], bin[7]) == m.sequence
  }

  /** What a serialised message holds at which place. */
  ghost predicate LaidOut(c: Scheme, bin: Binary, m: Message) {
    var a, b := SecondField(m.source.Some?), BodyAt(m.source.Some?, m.destination.Some?);
    && |bin| == b + |m.body| + |m.signature| && HeaderIs(bin, m)
    && (m.source.Some? ==> bin[8..a] == c.encode(m.source.value))
    && (m.destination.Some? ==> bin[a..b] == c.encode(m.destination.value))
    && bin[b..b + |m.body|] == m.body && bin[b + |m.body|..] == m.signature
  }

  lemma HeaderMeans(o: Order, m: Message)
    requires |m.body| <= MAX_BODY
    ensures |Header(o, m)| == 8 && HeaderIs(Header(o, m), m)
  {
    HeaderIsPortable(o, m);
    NetworkOrder16(o, |m.body|, [0, 0]);
    NetworkOrder32(o, m.sequence, [0, 0, 0, 0]);
    hide Header, Big16, Big32, Swap16, Swap32, Memory16, Memory32, Number2, Number4;
    HeaderPlaces(m.kind, FlagsOf(m), Big16(|m.body|), Big32(m.sequence));
  }

  lemma HeaderInFront(h: Binary, bin: Binary, m: Message)
    requires |h| == 8 && 8 <= |bin| && bin[..8] == h && HeaderIs(h, m)
    ensures HeaderIs(bin, m)
  {
    assert forall i | 0 <= i < 8 :: bin[i] == bin[..8][i];
    hide Number2, Number4;
  }

  lemma HeaderPlaces(kind: byte, flags: byte, length: Binary, sequence: Binary)
    requires |length| == 2 && |sequence| == 4
    ensures var h := [kind, flags] + length + sequence;
            && |h| == 8 && h[0] == kind && h[1] == flags && h[2] == length[0] && h[3] == length[1]
            && h[4] == sequence[0] && h[5] == sequence[1] && h[6] == sequence[2] && h[7] == sequence[3]
  {
  }

  lemma FiveParts(h: Binary, s: Binary, d: Binary, body: Binary, signature: Binary)
    ensures var bin := h + s + d + body + signature;
            var a, b := |h| + |s|, |h| + |s| + |d|;
            && |bin| == b + |body| + |signature| && bin[..|h|] == h
            && bin[|h|..a] == s && bin[a..b] == d && bin[b..b + |body|] == body && bin[b + |body|..] == signature
            && bin[..b + |body|] == h + s + d + body
  {
  }

  /** Every serialised message has this layout, and what is signed is all before the signature. */
  lemma SerializedIsLaidOut(o: Order, c: Scheme, m: Message)
    requires Sound(c) && |m.body| <= MAX_BODY
    ensures var bin := Prefix(o, c, m) + m.signature;
            LaidOut(c, bin, m) && Prefix(o, c, m) == bin[..|bin| - |m.signature|]
  {
    HeaderMeans(o, m);
    FieldSize(c, m.source);
    FieldSize(c, m.destination);
    hide *;
    PrefixMeans(o, c, m);
    FiveParts(Header(o, m), Field(c, m.source), Field(c, m.destination), m.body, m.signature);
    PartsAreLaidOut(c, m, Header(o, m), Field(c, m.source), Field(c, m.destination));
  }

  lemma PrefixMeans(o: Order, c: Scheme, m: Message)
    requires |m.body| <= MAX_BODY
    ensures Prefix(o, c, m) == Header(o, m) + Field(c, m.source) + Field(c, m.destination) + m.body
  {
  }

  lemma PartsAreLaidOut(c: Scheme, m: Message, h: Binary, s: Binary, d: Binary)
    requires |h| == 8 && HeaderIs(h, m)
    requires if m.source.Some? then |s| == 33 && s == c.encode(m.source.value) else s == []
    requires if m.destination.Some? then |d| == 33 && d == c.encode(m.destination.value) else d == []
    ensures LaidOut(c, h + s + d + m.body + m.signature, m)
  {
    hide HeaderIs;
    FiveParts(h, s, d, m.body, m.signature);
    HeaderInFront(h, h + s + d + m.body + m.signature, m);
  }

  lemma FieldSize(c: Scheme, id: Option<Id>)
    requires Sound(c)
    ensures |Field(c, id)| == (if id.Some? then 33 else 0)
    ensures id.Some? ==> Field(c, id) == c.encode(id.value)
  {
  }

  /** What a parser must find to read `m`: enough bytes, identifiers that decode, and a signature that verifies. */
  ghost predicate ReadsAs(c: Scheme, bin: Binary, m: Message) {
    && 8 <= |bin|
    && (m.source.Some? <==> bin[1] % 2 == 1) && (m.destination.Some? <==> bin[1] / 2 % 2 == 1)
    && var a, b := SecondField(m.source.Some?), BodyAt(m.source.Some?, m.destination.Some?);
    var length := Number2(bin[2], bin[3]);
    && b + length <= |bin|
    && m.kind == bin[0] && m.sequence == Number4(bin[4], bin[5], bin[6], bin[7])
    && (m.source.Some? ==> c.decode(bin[8..a]) == m.source)
    && (m.destination.Some? ==> c.decode(bin[a..b]) == m.destination)
    && m.body == bin[b..b + length] && m.signature == bin[b + length..]
    && (m.source.Some? ==> c.verify(m.source.value, bin[..b + length], m.signature))
  }

  lemma FieldsMean(o: Order, bin: Binary)
    requires 8 <= |bin|
    ensures LengthIn(o, bin) == Number2(bin[2], bin[3])
    ensures SequenceIn(o, bin) == Number4(bin[4], bin[5], bin[6], bin[7])
  {
    FieldsArePortable(o, bin);
    hide Load16, Load32, LengthIn, SequenceIn;
  }

  lemma ReadFieldAt(c: Scheme, present: bool, bin: Binary, at: nat, id: Option<Id>, rest: Binary)
    requires at <= |bin|
    ensures ReadField(c, present, bin[at..]) == Ok((id, rest))
            <==> && (id.Some? <==> present)
                 && (present ==> at + 33 <= |bin| && c.decode(bin[at..at + 33]) == id && rest == bin[at + 33..])
                 && (!present ==> rest == bin[at..])
  {
    if at + 33 <= |bin| {
      assert bin[at..][..33] == bin[at..at + 33] && bin[at..][33..] == bin[at + 33..];
    }
  }

  lemma ReadsLast(c: Scheme, bin: Binary, length: uint16, sequence: uint32, source: Option<Id>,
                  destination: Option<Id>, b: nat, m: Message)
    requires HEADER_SIZE <= |bin| && b <= |bin|
    ensures ParseLast(c, bin, length, sequence, source, destination, bin[b..]) == Ok(m)
            <==> && b + length <= |bin| && m.kind == bin[0] && m.sequence == sequence
                 && m.source == source && m.destination == destination
                 && m.body == bin[b..b + length] && m.signature == bin[b + length..]
                 && (source.Some? ==> c.verify(source.value, bin[..b + length], m.signature))
  {
    if b + length <= |bin| {
      assert bin[b..][..length] == bin[b..b + length] && bin[b..][length..] == bin[b + length..];
    }
  }

  /** A parser reads `m` exactly when the bytes read as `m`, on any host; otherwise it throws. */
  lemma ParsesExactly(o: Order, c: Scheme, bin: Binary, m: Message)
    ensures Parse(o, c, bin) == Ok(m) <==> ReadsAs(c, bin, m)
  {
    if 8 <= |bin| {
      FieldsMean(o, bin);
      RestReadsAs(c, bin, LengthIn(o, bin), SequenceIn(o, bin), m);
      hide ParseRest, LengthIn, SequenceIn;
    }
  }

  lemma RestReadsAs(c: Scheme, bin: Binary, length: uint16, sequence: uint32, m: Message)
    requires 8 <= |bin| && length == Number2(bin[2], bin[3])
    requires sequence == Number4(bin[4], bin[5], bin[6], bin[7])
    ensures ParseRest(c, bin, length, sequence) == Ok(m) <==> ReadsAs(c, bin, m)
  {
    var first, second := bin[1] % 2 == 1, bin[1] / 2 % 2 == 1;
    var a, b := SecondField(first), BodyAt(first, second);
    hide ReadField, ParseLast, Number2, Number4;
    match ReadField(c, first, bin[HEADER_SIZE..]) {
      case Thrown =>
        if ReadsAs(c, bin, m) { ReadFieldAt(c, first, bin, 8, m.source, bin[a..]); }
      case Ok((source, rest)) =>
        ReadFieldAt(c, first, bin, 8, source, rest);
        assert a <= |bin| && rest == bin[a..];
        match ReadField(c, second, rest) {
          case Thrown =>
            if ReadsAs(c, bin, m) { ReadFieldAt(c, second, bin, a, m.destination, bin[b..]); }
          case Ok((destination, left)) =>
            ReadFieldAt(c, second, bin, a, destination, left);
            assert b <= |bin| && left == bin[b..];
            ReadsLast(c, bin, length, sequence, source, destination, b, m);
        }
    }
  }
}
