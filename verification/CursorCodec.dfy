/** The nine-byte catalog cursor (contracts/prompt-hash/src/pagination.rs). */
module CursorCodec {
  import opened Options

  newtype byte = x: int | 0 <= x < 256

  const CURSOR_LEN := 9
  const U64_LIMIT := 0x1_0000_0000_0000_0000

  newtype u64 = x: int | 0 <= x < U64_LIMIT

  datatype IndexType = Creator | Category | Tag | Active | All | Buyer
  datatype Cursor = Cursor(lastId: u64, indexType: IndexType)
  datatype Result = Ok(cursor: Cursor) | InvalidCursor

  function FromU8(v: byte): Option<IndexType> {
    match v
    case 0 => Some(Creator)
    case 1 => Some(Category)
    case 2 => Some(Tag)
    case 3 => Some(Active)
    case 4 => Some(All)
    case 5 => Some(Buyer)
    case _ => None
  }

  function ToU8(t: IndexType): byte {
    match t
    case Creator => 0
    case Category => 1
    case Tag => 2
    case Active => 3
    case All => 4
    case Buyer => 5
  }

  // The first width bytes of n, most significant first.
  function BigEndian(n: nat, width: nat): (bytes: seq<byte>)
    ensures |bytes| == width
  {
    if width == 0 then [] else BigEndian(n / 256, width - 1) + [(n % 256) as byte]
  }

  function Value(bytes: seq<byte>): nat {
    if bytes == [] then 0 else Value(bytes[..|bytes| - 1]) * 256 + bytes[|bytes| - 1] as nat
  }

  function Pow256(width: nat): nat {
    if width == 0 then 1 else Pow256(width - 1) * 256
  }

  lemma {:induction false} ValueBound(bytes: seq<byte>)
    ensures Value(bytes) < Pow256(|bytes|)
  {
    if bytes != [] {
      ValueBound(bytes[..|bytes| - 1]);
    }
  }

  lemma {:induction false} ValueOfBigEndian(n: nat, width: nat)
    requires n < Pow256(width)
    ensures Value(BigEndian(n, width)) == n
  {
    if width > 0 {
      ValueOfBigEndian(n / 256, width - 1);
      var bytes := BigEndian(n, width);
      assert bytes[..width - 1] == BigEndian(n / 256, width - 1);
    }
  }

  lemma {:induction false} BigEndianOfValue(bytes: seq<byte>)
    ensures BigEndian(Value(bytes), |bytes|) == bytes
  {
    if bytes != [] {
      var front := bytes[..|bytes| - 1];
      BigEndianOfValue(front);
      assert Value(bytes) / 256 == Value(front) && Value(bytes) % 256 == bytes[|bytes| - 1] as nat;
      assert bytes == front + [bytes[|bytes| - 1]];
    }
  }

  lemma EightBytes()
    ensures Pow256(8) == U64_LIMIT
  {
    assert Pow256(4) == 0x1_0000_0000;
    assert Pow256(8) == Pow256(4) * 0x1_0000_0000;
  }

  function Encode(lastId: u64, indexType: IndexType): seq<byte> {
    BigEndian(lastId as nat, 8) + [ToU8(indexType)]
  }

  function Decode(cursor: seq<byte>): Result {
    if |cursor| != CURSOR_LEN then InvalidCursor
    else
      EightBytes();
      ValueBound(cursor[..8]);
      match FromU8(cursor[8])
      case None => InvalidCursor
      case Some(t) => Ok(Cursor(Value(cursor[..8]) as u64, t))
  }

  method EncodeCursor(lastId: u64, indexType: IndexType) returns (cursor: seq<byte>)
    ensures cursor == Encode(lastId, indexType)
    ensures Decode(cursor) == Ok(Cursor(lastId, indexType))
  {
    var bytes := new byte[CURSOR_LEN];
    var rest := lastId as nat;
    for k := 0 to 8
      invariant BigEndian(lastId as nat, 8) == BigEndian(rest, 8 - k) + bytes[8 - k..8]
    {
      assert BigEndian(rest, 8 - k) == BigEndian(rest / 256, 7 - k) + [(rest % 256) as byte];
      bytes[7 - k] := (rest % 256) as byte;
      rest := rest / 256;
    }
    bytes[8] := ToU8(indexType);
    cursor := bytes[..];
    assert cursor == bytes[0..8] + [bytes[8]];
    DecodeUndoesEncode(lastId, indexType);
  }

  method DecodeCursor(cursor: seq<byte>) returns (result: Result)
    ensures result == Decode(cursor)
    ensures result.Ok? ==> Encode(result.cursor.lastId, result.cursor.indexType) == cursor
  {
    if |cursor| != CURSOR_LEN {
      return InvalidCursor;
    }
    var buf := new byte[CURSOR_LEN](i requires 0 <= i < |cursor| => cursor[i]);
    var lastId := 0;
    for k := 0 to 8
      invariant lastId == Value(cursor[..k])
    {
      assert cursor[..k + 1][..k] == cursor[..k];
      lastId := lastId * 256 + buf[k] as nat;
    }
    EightBytes();
    ValueBound(cursor[..8]);
    var indexType := FromU8(buf[8]);
    if indexType.None? {
      return InvalidCursor;
    }
    result := Ok(Cursor(lastId as u64, indexType.value));
    EncodeUndoesDecode(cursor);
  }

  // ---------- the layout ----------

  lemma Longer(bytes: seq<byte>, k: nat)
    requires k < |bytes|
    ensures Value(bytes[..k + 1]) == Value(bytes[..k]) * 256 + bytes[k] as nat
  {
    assert bytes[..k + 1][..k] == bytes[..k];
  }

  // The number of four bytes, most significant first.
  function Four(a: byte, b: byte, c: byte, d: byte): nat {
    ((a as nat * 256 + b as nat) * 256 + c as nat) * 256 + d as nat
  }

  lemma ValueOfEight(bytes: seq<byte>)
    requires |bytes| >= 8
    ensures Value(bytes[..8]) == Four(bytes[0], bytes[1], bytes[2], bytes[3]) * 0x1_0000_0000
                                 + Four(bytes[4], bytes[5], bytes[6], bytes[7])
  {
    assert Value(bytes[..0]) == 0;
    Longer(bytes, 0);
    Longer(bytes, 1);
    Longer(bytes, 2);
    Longer(bytes, 3);
    assert Value(bytes[..4]) == Four(bytes[0], bytes[1], bytes[2], bytes[3]);
    Longer(bytes, 4);
    Longer(bytes, 5);
    Longer(bytes, 6);
    Longer(bytes, 7);
  }

  // Nine bytes: the id in the first eight, most significant first, and the index type's number in the last.
  lemma Layout(id: u64, t: IndexType)
    ensures var c := Encode(id, t);
            && |c| == 9
            && id as nat == Four(c[0], c[1], c[2], c[3]) * 0x1_0000_0000 + Four(c[4], c[5], c[6], c[7])
            && c[8] == if t.Creator? then 0 else if t.Category? then 1 else if t.Tag? then 2
                       else if t.Active? then 3 else if t.All? then 4 else 5
  {
    var c := Encode(id, t);
    EightBytes();
    ValueOfBigEndian(id as nat, 8);
    assert c[..8] == BigEndian(id as nat, 8);
    ValueOfEight(c);
  }

  // ---------- the bijection ----------

  lemma DecodeUndoesEncode(lastId: u64, indexType: IndexType)
    ensures Decode(Encode(lastId, indexType)) == Ok(Cursor(lastId, indexType))
  {
    EightBytes();
    ValueOfBigEndian(lastId as nat, 8);
    assert Encode(lastId, indexType)[..8] == BigEndian(lastId as nat, 8);
  }

  lemma EncodeUndoesDecode(cursor: seq<byte>)
    requires Decode(cursor).Ok?
    ensures var c := Decode(cursor).cursor; Encode(c.lastId, c.indexType) == cursor
  {
    EightBytes();
    ValueBound(cursor[..8]);
    BigEndianOfValue(cursor[..8]);
    assert cursor == cursor[..8] + [cursor[8]];
  }

  // Exactly the nine-byte strings ending in a known index type are accepted; they are the encodings.
  lemma AcceptedAreTheEncodings(cursor: seq<byte>)
    ensures Decode(cursor).Ok? <==> |cursor| == 9 && cursor[8] <= 5
    ensures Decode(cursor).Ok? <==> exists id, t :: cursor == Encode(id, t)
  {
    if Decode(cursor).Ok? {
      EncodeUndoesDecode(cursor);
    }
    forall id, t | cursor == Encode(id, t)
      ensures Decode(cursor).Ok?
    {
      DecodeUndoesEncode(id, t);
    }
  }

  // No two cursors share an encoding.
  lemma EncodingIsInjective(id: u64, t: IndexType, id': u64, t': IndexType)
    requires Encode(id, t) == Encode(id', t')
    ensures id == id' && t == t'
  {
    DecodeUndoesEncode(id, t);
    DecodeUndoesEncode(id', t');
  }
}
