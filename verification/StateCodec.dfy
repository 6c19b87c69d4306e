/** The reader and writer of binary strings, and the messages and link states built with them. */
module StateCodec {
  import opened Common
  import opened Sequence
  import opened Bytes
  import opened Wire
  import opened Limits

  const STATE_KIND: byte := 2

  class BinaryReader {
    const bin: Binary
    var position: nat

    constructor (bin: Binary)
      ensures this.bin == bin && position == 0
    {
      this.bin, position := bin, 0;
    }

    ghost predicate Valid()
      reads this
    {
      position <= |bin|
    }

    /** What has not been read yet. */
    function Rest(): Binary
      requires Valid()
      reads this
    {
      bin[position..]
    }

    method Read(size: nat) returns (r: Result<Binary>)
      requires Valid()
      modifies this`position
      ensures Valid()
      ensures r == if size <= |old(Rest())| then Ok(old(Rest())[..size]) else Thrown
      ensures Rest() == if size <= |old(Rest())| then old(Rest())[size..] else old(Rest())
    {
      if position + size > |bin| {
        return Thrown;
      }
      r := Ok(bin[position..position + size]);
      assert bin[position..][..size] == bin[position..position + size];
      assert bin[position..][size..] == bin[position + size..];
      position := position + size;
    }
  }

  class BinaryWriter {
    var bin: Binary

    constructor ()
      ensures bin == []
    {
      bin := [];
    }

    method Write(data: Binary)
      modifies this
      ensures bin == old(bin) + data
    {
      bin := bin + data;
    }
  }

  // ----- messages -----

  method ReadId(c: Scheme, reader: BinaryReader, present: bool) returns (r: Result<Option<Id>>)
    requires reader.Valid()
    modifies reader`position
    ensures reader.Valid()
    ensures match ReadField(c, present, old(reader.Rest()))
            case Thrown => r == Thrown
            case Ok((id, rest)) => r == Ok(id) && reader.Rest() == rest
  {
    if !present {
      return Ok(None);
    }
    var bin := reader.Read(ID_SIZE);
    match bin {
      case Thrown => r := Thrown;
      case Ok(b) =>
        match c.decode(b) {
          case None => r := Thrown;
          case Some(id) => r := Ok(Some(id));
        }
    }
  }

  /** Reads everything after the header. */
  method ParseFields(c: Scheme, reader: BinaryReader, header: Binary, length: uint16, sequence: uint32)
    returns (r: Result<Message>)
    requires HEADER_SIZE == |header| <= |reader.bin| && header == reader.bin[..HEADER_SIZE]
    requires reader.Valid() && reader.position == HEADER_SIZE
    modifies reader`position
    ensures r == ParseRest(c, reader.bin, length, sequence)
  {
    hide ReadField, ParseLast;
    var source := ReadId(c, reader, header[1] % 2 == 1);
    if source == Thrown {
      return Thrown;
    }
    var destination := ReadId(c, reader, header[1] / 2 % 2 == 1);
    if destination == Thrown {
      return Thrown;
    }
    r := ParseEnd(c, reader, header[0], length, sequence, source.value, destination.value);
  }

  /** Reads the body, takes the rest for the signature, and verifies it. */
  method ParseEnd(c: Scheme, reader: BinaryReader, kind: byte, length: uint16, sequence: uint32,
                  source: Option<Id>, destination: Option<Id>)
    returns (r: Result<Message>)
    requires reader.Valid() && HEADER_SIZE <= |reader.bin| && kind == reader.bin[0]
    modifies reader`position
    ensures r == ParseLast(c, reader.bin, length, sequence, source, destination, old(reader.Rest()))
  {
    var body := reader.Read(length);
    if body == Thrown {
      return Thrown;
    }
    var signature := reader.Rest();
    if source.Some? && !c.verify(source.value, reader.bin[..|reader.bin| - |signature|], signature) {
      return Thrown;
    }
    r := Ok(Message(kind, sequence, source, destination, body.value, signature));
  }

  /** Takes a message apart with a reader that walks over it. */
  method ParseMessage(o: Order, c: Scheme, bin: Binary) returns (r: Result<Message>)
    ensures r == Parse(o, c, bin)
  {
    hide Swap16, Swap32, Load16, Load32, ParseRest;
    var reader := new BinaryReader(bin);
    assert reader.Rest() == bin;
    var header := reader.Read(HEADER_SIZE);
    if header == Thrown {
      return Thrown;
    }
    assert header.value[2..4] == bin[2..4] && header.value[4..8] == bin[4..8];
    assert |reader.Rest()| == |bin| - HEADER_SIZE;
    r := ParseFields(c, reader, header.value, Swap16(o, Load16(o, header.value[2..4])),
                     Swap32(o, Load32(o, header.value[4..8])));
  }

  method SerializeMessage(o: Order, c: Scheme, m: Message) returns (r: Result<Binary>)
    ensures r == Serialize(o, c, m)
  {
    hide Header;
    if |m.body| > MAX_BODY {
      return Thrown;
    }
    var writer := new BinaryWriter();
    writer.Write(Header(o, m));
    assert writer.bin == Header(o, m);
    if m.source.Some? {
      writer.Write(c.encode(m.source.value));
    }
    assert writer.bin == Header(o, m) + Field(c, m.source);
    if m.destination.Some? {
      writer.Write(c.encode(m.destination.value));
    }
    assert writer.bin == Header(o, m) + Field(c, m.source) + Field(c, m.destination);
    writer.Write(m.body);
    writer.Write(m.signature);
    r := Ok(writer.bin);
  }

  // ----- link states -----

  datatype State = State(id: Id, sequence: uint32, key: Binary, neighbors: set<Id>)

  function EncodeIds(c: Scheme, ids: seq<Id>): Binary {
    if ids == [] then [] else EncodeIds(c, ids[..|ids| - 1]) + c.encode(ids[|ids| - 1])
  }

  /** Identifiers read off the front, as many as fit; fewer bytes than one takes are left over. */
  function DecodeIds(c: Scheme, bin: Binary): Result<set<Id>> {
    if |bin| < ID_SIZE then Ok({})
    else
      match c.decode(bin[..ID_SIZE])
      case None => Thrown
      case Some(id) =>
        match DecodeIds(c, bin[ID_SIZE..])
        case Thrown => Thrown
        case Ok(ids) => Ok({id} + ids)
  }

  function Gathered(ids: set<Id>, more: Result<set<Id>>): Result<set<Id>> {
    match more
    case Thrown => Thrown
    case Ok(others) => Ok(ids + others)
  }

  lemma GatherOne(c: Scheme, ids: set<Id>, bin: Binary)
    ensures Gathered({}, DecodeIds(c, bin)) == DecodeIds(c, bin)
    ensures |bin| >= ID_SIZE ==>
              Gathered(ids, DecodeIds(c, bin))
              == match c.decode(bin[..ID_SIZE])
                 case None => Thrown
                 case Some(id) => Gathered(ids + {id}, DecodeIds(c, bin[ID_SIZE..]))
  {
    if |bin| >= ID_SIZE && c.decode(bin[..ID_SIZE]).Some? {
      var id := c.decode(bin[..ID_SIZE]).value;
      assert forall others: set<Id> :: ids + ({id} + others) == (ids + {id}) + others;
    }
    assert forall others: set<Id> :: {} + others == others;
  }

  /** A list of the members of a set, each once: the order a set is iterated in. */
  ghost predicate Lists(order: seq<Id>, ids: set<Id>) {
    && (forall i, j :: 0 <= i < j < |order| ==> order[i] != order[j])
    && (forall id :: id in order <==> id in ids)
  }

  function Unsigned(c: Scheme, s: State, order: seq<Id>): Message {
    Message(STATE_KIND, s.sequence, None, None, s.key + EncodeIds(c, order), [])
  }

  function FromMessage(c: Scheme, m: Message): Result<State> {
    if m.kind != STATE_KIND || m.source.None? || |m.body| < KEY_SIZE then Thrown
    else
      match DecodeIds(c, m.body[KEY_SIZE..])
      case Thrown => Thrown
      case Ok(ids) => Ok(State(m.source.value, m.sequence, m.body[..KEY_SIZE], ids))
  }

  /** Appends the neighbours one by one and signs the message. */
  method ToMessage(o: Order, c: Scheme, s: State, pair: KeyPair, nonce: nat)
    returns (r: Result<Message>, ghost order: seq<Id>)
    ensures Lists(order, s.neighbors)
    ensures r == Wire.Sign(o, c, pair, nonce, Unsigned(c, s, order))
  {
    var writer := new BinaryWriter();
    writer.Write(s.key);
    var rest := s.neighbors;
    order := [];
    assert writer.bin == s.key + EncodeIds(c, order) && Lists(order, s.neighbors - rest);
    while rest != {}
      invariant rest <= s.neighbors && Lists(order, s.neighbors - rest)
      invariant writer.bin == s.key + EncodeIds(c, order)
    {
      hide *;
      var id :| id in rest;
      ghost var before := writer.bin;
      writer.Write(c.encode(id));
      OneMoreId(c, order, id);
      OneMoreListed(order, s.neighbors, rest, id);
      assert before + c.encode(id) == s.key + (EncodeIds(c, order) + c.encode(id));
      order, rest := order + [id], rest - {id};
    }
    assert s.neighbors - {} == s.neighbors;
    r := Wire.Sign(o, c, pair, nonce, Message(STATE_KIND, s.sequence, None, None, writer.bin, []));
  }

  lemma OneMoreId(c: Scheme, order: seq<Id>, id: Id)
    ensures EncodeIds(c, order + [id]) == EncodeIds(c, order) + c.encode(id)
  {
    assert (order + [id])[..|order|] == order;
  }

  lemma OneMoreListed(order: seq<Id>, ids: set<Id>, rest: set<Id>, id: Id)
    requires Lists(order, ids - rest) && id in rest && rest <= ids
    ensures Lists(order + [id], ids - (rest - {id}))
  {
  }

  /** Reads the key and then identifiers as long as one fits. */
  method ReadState(c: Scheme, m: Message) returns (r: Result<State>)
    ensures r == FromMessage(c, m)
  {
    if m.kind != STATE_KIND || m.source.None? {
      return Thrown;
    }
    var reader := new BinaryReader(m.body);
    assert reader.Rest() == m.body;
    var key := reader.Read(KEY_SIZE);
    if key == Thrown {
      return Thrown;
    }
    var neighbors: set<Id> := {};
    GatherOne(c, neighbors, m.body[KEY_SIZE..]);
    while |reader.bin| - reader.position >= ID_SIZE
      invariant reader.Valid() && reader.bin == m.body
      invariant DecodeIds(c, m.body[KEY_SIZE..]) == Gathered(neighbors, DecodeIds(c, reader.Rest()))
      decreases |reader.bin| - reader.position
    {
      GatherOne(c, neighbors, reader.Rest());
      var bin := reader.Read(ID_SIZE);
      match c.decode(bin.value) {
        case None => return Thrown;
        case Some(id) => neighbors := neighbors + {id};
      }
    }
    assert neighbors + {} == neighbors;
    r := Ok(State(m.source.value, m.sequence, key.value, neighbors));
  }

  lemma {:induction false} EncodedLength(c: Scheme, ids: seq<Id>)
    requires Sound(c)
    ensures |EncodeIds(c, ids)| == ID_SIZE * |ids|
  {
    if ids != [] {
      EncodedLength(c, ids[..|ids| - 1]);
    }
  }

  lemma {:induction false} EncodeFront(c: Scheme, ids: seq<Id>)
    requires ids != []
    ensures EncodeIds(c, ids) == c.encode(ids[0]) + EncodeIds(c, ids[1..])
  {
    if |ids| > 1 {
      EncodeFront(c, ids[..|ids| - 1]);
      assert ids[..|ids| - 1][1..] == ids[1..][..|ids[1..]| - 1];
    }
  }

  function SetOf(ids: seq<Id>): set<Id> {
    set id | id in ids
  }

  /** Identifiers written one after another are read back as the same set, whatever short rest follows. */
  lemma {:induction false} DecodeInvertsEncode(c: Scheme, ids: seq<Id>, junk: Binary)
    requires Sound(c) && |junk| < ID_SIZE
    ensures DecodeIds(c, EncodeIds(c, ids) + junk) == Ok(SetOf(ids))
    decreases |ids|
  {
    var bin := EncodeIds(c, ids) + junk;
    if ids == [] {
      assert bin == junk && SetOf(ids) == {};
    } else {
      EncodeFront(c, ids);
      var tail := EncodeIds(c, ids[1..]) + junk;
      assert bin == c.encode(ids[0]) + tail;
      assert bin[..ID_SIZE] == c.encode(ids[0]) && bin[ID_SIZE..] == tail;
      assert c.decode(bin[..ID_SIZE]) == Some(ids[0]);
      DecodeInvertsEncode(c, ids[1..], junk);
      assert SetOf(ids) == {ids[0]} + SetOf(ids[1..]);
    }
  }

  lemma {:induction false} ListLength(order: seq<Id>, ids: set<Id>)
    requires Lists(order, ids)
    ensures |order| == |ids|
    decreases |order|
  {
    if order == [] {
      assert ids == {};
    } else {
      var last := order[|order| - 1];
      var front := order[..|order| - 1];
      assert forall id :: id in order <==> id in front || id == last;
      ListLength(front, ids - {last});
      assert ids == (ids - {last}) + {last};
    }
  }

  // ----- the body of a state message, byte by byte -----

  /** The `i`-th piece of 33 bytes lies within. */
  predicate Fits(bin: Binary, i: int) {
    0 <= i && 33 * i + 33 <= |bin|
  }

  function Piece(bin: Binary, i: int): Binary
    requires Fits(bin, i)
  {
    bin[33 * i..33 * i + 33]
  }

  lemma {:induction false} EncodedPieces(c: Scheme, ids: seq<Id>, i: nat)
    requires Sound(c) && i < |ids|
    ensures |EncodeIds(c, ids)| == 33 * |ids| && Fits(EncodeIds(c, ids), i)
    ensures Piece(EncodeIds(c, ids), i) == c.encode(ids[i])
    decreases |ids|
  {
    EncodedLength(c, ids);
    var front := ids[..|ids| - 1];
    EncodedLength(c, front);
    if i < |front| {
      EncodedPieces(c, front, i);
    }
  }

  /** A state message is of type 2 and holds the key and then each neighbour, in 33 bytes each. */
  lemma StateIsLaidOut(c: Scheme, s: State, order: seq<Id>, i: nat)
    requires Sound(c) && |s.key| == KEY_SIZE && Lists(order, s.neighbors) && i < |order|
    ensures var m := Unsigned(c, s, order);
            && m.kind == 2 && m.sequence == s.sequence && m.source == None && m.destination == None
            && |m.body| == 65 + 33 * |s.neighbors| && m.body[..65] == s.key
            && 65 + 33 * i + 33 <= |m.body| && m.body[65 + 33 * i..65 + 33 * i + 33] == c.encode(order[i])
            && order[i] in s.neighbors
  {
    EncodedPieces(c, order, i);
    ListLength(order, s.neighbors);
    var body, ids := s.key + EncodeIds(c, order), EncodeIds(c, order);
    assert body[..65] == s.key && body[65 + 33 * i..65 + 33 * i + 33] == ids[33 * i..33 * i + 33];
  }

  /** All pieces are identifiers, and these are they; up to 32 bytes at the end are ignored. */
  ghost predicate Pieces(c: Scheme, bin: Binary, ids: set<Id>) {
    && (forall i :: Fits(bin, i) ==> c.decode(Piece(bin, i)).Some?)
    && (forall id :: id in ids <==> exists i :: Fits(bin, i) && c.decode(Piece(bin, i)) == Some(id))
  }

  lemma PiecesBehind(bin: Binary)
    requires |bin| >= 33
    ensures Fits(bin, 0) && Piece(bin, 0) == bin[..33]
    ensures forall i :: Fits(bin[33..], i) ==> Fits(bin, i + 1) && Piece(bin, i + 1) == Piece(bin[33..], i)
    ensures forall i :: Fits(bin, i) && i > 0 ==> Fits(bin[33..], i - 1) && Piece(bin, i) == Piece(bin[33..], i - 1)
  {
  }

  /** Reading identifiers throws exactly when some piece is none, and otherwise gives the set of them. */
  lemma {:induction false} DecodesPieces(c: Scheme, bin: Binary, ids: set<Id>)
    ensures DecodeIds(c, bin) == Ok(ids) <==> Pieces(c, bin, ids)
    decreases |bin|
  {
    if |bin| < 33 {
      if Pieces(c, bin, ids) {
        assert forall id :: id !in ids;
        assert ids == {};
      }
    } else {
      PiecesBehind(bin);
      var rest := bin[33..];
      var first := c.decode(bin[..33]);
      if first.Some? {
        if DecodeIds(c, rest).Ok? {
          DecodesPieces(c, rest, DecodeIds(c, rest).value);
          OneMorePiece(c, bin, first.value, DecodeIds(c, rest).value, ids);
        }
        if Pieces(c, bin, ids) {
          var others := set i | 0 <= i < |rest| && Fits(rest, i) :: c.decode(Piece(rest, i)).value;
          DecodesPieces(c, rest, others);
        }
      }
    }
  }

  lemma OneMorePiece(c: Scheme, bin: Binary, id: Id, others: set<Id>, ids: set<Id>)
    requires |bin| >= 33 && c.decode(bin[..33]) == Some(id) && Pieces(c, bin[33..], others)
    ensures Pieces(c, bin, ids) <==> ids == {id} + others
  {
    PiecesBehind(bin);
    hide Fits, Piece;
    var rest := bin[33..];
    assert Pieces(c, bin, {id} + others);
  }

  /** Which messages are read as which state; all others throw. */
  lemma ReadsExactly(c: Scheme, m: Message, s: State)
    ensures FromMessage(c, m) == Ok(s)
            <==> && m.kind == 2 && m.source == Some(s.id) && m.sequence == s.sequence && 65 <= |m.body|
                 && m.body[..65] == s.key && Pieces(c, m.body[65..], s.neighbors)
  {
    if 65 <= |m.body| {
      DecodesPieces(c, m.body[65..], s.neighbors);
    }
    hide DecodeIds, Pieces;
  }

  /**
   A state of at most 1983 neighbours survives being made a message, sent to any host and
   read back: source, sequence, key and neighbours.  A state with more neighbours always exceeds the body
   limit and throws.
   */
  lemma StateRoundTrip(o: Order, p: Order, c: Scheme, s: State, pair: KeyPair, nonce: nat, order: seq<Id>)
    requires Sound(c) && |s.key| == KEY_SIZE && Lists(order, s.neighbors) && c.owner(pair) == s.id
    ensures var r := Wire.Sign(o, c, pair, nonce, Unsigned(c, s, order));
            if |s.neighbors| > MAX_NEIGHBORS then r == Thrown
            else
              && r.Ok? && FromMessage(c, r.value) == Ok(s)
              && |r.value.body| <= MAX_BODY && Parse(p, c, Prefix(o, c, r.value) + r.value.signature) == r
  {
    EncodedLength(c, order);
    ListLength(order, s.neighbors);
    var body := s.key + EncodeIds(c, order);
    assert body[..KEY_SIZE] == s.key && body[KEY_SIZE..] == EncodeIds(c, order) + [];
    DecodeInvertsEncode(c, order, []);
    assert SetOf(order) == s.neighbors;
    if |s.neighbors| <= MAX_NEIGHBORS {
      SignedIsAccepted(o, p, c, pair, nonce, Unsigned(c, s, order));
    }
  }
}
