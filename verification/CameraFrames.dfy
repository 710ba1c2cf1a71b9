/** Camera framing (hcics_protocol_camera_feed): nine-byte frames AA mode xh xl yh yl
    width type 55 in a byte stream. */
module CameraFrames {
  import opened Common

  const HEAD: byte := 0xAA
  const TAIL: byte := 0x55
  const FRAME_LEN: nat := 9

  type byte = x: int | 0 <= x < 256

  datatype Target = Target(mode: byte, x: nat, y: nat, width: byte, kind: byte)

  predicate Known(t: Target) {
    (t.mode == 1 || t.mode == 2) && t.x < 0x1_0000 && t.y < 0x1_0000
  }

  function Word(h: byte, l: byte): nat {
    var high: int := h;
    high * 256 + l
  }

  /** What nine buffered bytes say. */
  function Decode(buf: seq<byte>): Option<Target>
    requires |buf| == FRAME_LEN
  {
    if buf[8] != TAIL || (buf[1] != 1 && buf[1] != 2) then None
    else Some(Target(buf[1], Word(buf[2], buf[3]), Word(buf[4], buf[5]), buf[6], buf[7]))
  }

  function Encode(t: Target): seq<byte>
    requires Known(t)
  {
    [HEAD, t.mode, t.x / 256, t.x % 256, t.y / 256, t.y % 256, t.width, t.kind, TAIL]
  }

  /** A frame means a target exactly when it is that target's encoding. */
  lemma DecodeExact(buf: seq<byte>, t: Target)
    requires |buf| == FRAME_LEN && buf[0] == HEAD
    ensures Decode(buf) == Some(t) <==> Known(t) && buf == Encode(t)
  {
    if Decode(buf) == Some(t) {
      Halves(buf[2], buf[3]);
      Halves(buf[4], buf[5]);
      assert buf == Encode(t);
    }
  }

  lemma Halves(h: byte, l: byte)
    ensures Word(h, l) / 256 == h && Word(h, l) % 256 == l && Word(h, l) < 0x1_0000
  {
  }

  /** The bytes buffered so far, and what one more does to them. */
  function Grow(pending: seq<byte>, b: byte): seq<byte> {
    if pending == [] then if b == HEAD then [b] else []
    else if |pending| < FRAME_LEN - 1 then pending + [b] else []
  }

  function Emit(pending: seq<byte>, b: byte): Option<Target>
    requires |pending| < FRAME_LEN
  {
    if |pending| == FRAME_LEN - 1 then Decode(pending + [b]) else None
  }

  ghost predicate Partial(pending: seq<byte>) {
    |pending| < FRAME_LEN && (pending != [] ==> pending[0] == HEAD)
  }

  ghost function Pending(stream: seq<byte>): (p: seq<byte>)
    ensures Partial(p)
    decreases |stream|
  {
    if |stream| == 0 then [] else Grow(Pending(stream[..|stream| - 1]), stream[|stream| - 1])
  }

  ghost function Emitted(stream: seq<byte>): seq<Target>
    decreases |stream|
  {
    if |stream| == 0 then []
    else
      var before := stream[..|stream| - 1];
      match Emit(Pending(before), stream[|stream| - 1])
      case None => Emitted(before)
      case Some(t) => Emitted(before) + [t]
  }

  lemma FeedOne(stream: seq<byte>, b: byte)
    ensures Pending(stream + [b]) == Grow(Pending(stream), b)
    ensures Emitted(stream + [b]) ==
            Emitted(stream) + match Emit(Pending(stream), b) case None => [] case Some(t) => [t]
  {
    assert (stream + [b])[..|stream|] == stream;
  }

  /** What a stream is made of: stray bytes between frames, and nine-byte stretches that
      begin with the head byte, whatever else is in them. */
  datatype Item = Stray(b: byte) | Frame(buf: seq<byte>)

  ghost predicate WellFormed(item: Item) {
    match item
    case Stray(b) => b != HEAD
    case Frame(buf) => |buf| == FRAME_LEN && buf[0] == HEAD
  }

  ghost function Bytes(items: seq<Item>): seq<byte>
    decreases |items|
  {
    if |items| == 0 then []
    else Bytes(items[..|items| - 1]) + match items[|items| - 1] case Stray(b) => [b] case Frame(buf) => buf
  }

  /** The targets of the intact frames, in order. */
  ghost function Targets(items: seq<Item>): seq<Target>
    requires forall i :: 0 <= i < |items| ==> WellFormed(items[i])
    decreases |items|
  {
    if |items| == 0 then []
    else
      var before := Targets(items[..|items| - 1]);
      assert WellFormed(items[|items| - 1]);
      match items[|items| - 1]
      case Stray(_) => before
      case Frame(buf) => match Decode(buf) case None => before case Some(t) => before + [t]
  }

  lemma AddItem(items: seq<Item>, item: Item)
    requires (forall i :: 0 <= i < |items| ==> WellFormed(items[i])) && WellFormed(item)
    ensures forall i :: 0 <= i <= |items| ==> WellFormed((items + [item])[i])
    ensures Bytes(items + [item]) == Bytes(items) + match item case Stray(b) => [b] case Frame(buf) => buf
    ensures Targets(items + [item]) ==
            match item
            case Stray(_) => Targets(items)
            case Frame(buf) => (match Decode(buf) case None => Targets(items) case Some(t) => Targets(items) + [t])
  {
    hide Decode;
    assert (items + [item])[..|items|] == items;
  }

  lemma {:induction false} FeedFrame(stream: seq<byte>, buf: seq<byte>, n: nat)
    requires Pending(stream) == [] && |buf| == FRAME_LEN && buf[0] == HEAD && n < FRAME_LEN
    ensures Pending(stream + buf[..n]) == buf[..n] && Emitted(stream + buf[..n]) == Emitted(stream)
    decreases n
  {
    hide Pending, Emitted, Decode;
    if n == 0 {
      assert stream + buf[..0] == stream;
    } else {
      FeedFrame(stream, buf, n - 1);
      FeedOne(stream + buf[..n - 1], buf[n - 1]);
      assert buf[..n] == buf[..n - 1] + [buf[n - 1]];
      assert stream + buf[..n] == stream + buf[..n - 1] + [buf[n - 1]];
    }
  }

  lemma FeedWhole(stream: seq<byte>, buf: seq<byte>)
    requires Pending(stream) == [] && |buf| == FRAME_LEN && buf[0] == HEAD
    ensures Pending(stream + buf) == []
    ensures Emitted(stream + buf) == Emitted(stream) + match Decode(buf) case None => [] case Some(t) => [t]
  {
    hide Decode, Pending, Emitted;
    var n := FRAME_LEN - 1;
    FeedFrame(stream, buf, n);
    FeedOne(stream + buf[..n], buf[n]);
    assert buf == buf[..n] + [buf[n]];
    assert stream + buf == stream + buf[..n] + [buf[n]];
  }

  lemma FeedStray(stream: seq<byte>, b: byte)
    requires Pending(stream) == [] && b != HEAD
    ensures Pending(stream + [b]) == [] && Emitted(stream + [b]) == Emitted(stream)
  {
    FeedOne(stream, b);
  }

  /** Fed the bytes of any items, the parser emits the targets of the intact frames, in
      order, and is ready for the next frame. */
  lemma {:induction false} Framing(items: seq<Item>)
    requires forall i :: 0 <= i < |items| ==> WellFormed(items[i])
    ensures Emitted(Bytes(items)) == Targets(items) && Pending(Bytes(items)) == []
    decreases |items|
  {
    hide Decode;
    if |items| > 0 {
      var before := items[..|items| - 1];
      Framing(before);
      match items[|items| - 1] {
        case Stray(b) => FeedStray(Bytes(before), b);
        case Frame(buf) => FeedWhole(Bytes(before), buf);
      }
    }
  }

  lemma NothingYet()
    ensures Pending([]) == [] && Emitted([]) == [] && Bytes([]) == [] && Targets([]) == []
  {
  }

  /** Every stream is the bytes of some items and the beginning of a frame: so what is
      emitted is always the targets of the stream's items. */
  lemma {:induction false} Splits(stream: seq<byte>) returns (items: seq<Item>)
    ensures forall i :: 0 <= i < |items| ==> WellFormed(items[i])
    ensures stream == Bytes(items) + Pending(stream)
    ensures Emitted(stream) == Targets(items)
    decreases |stream|
  {
    hide Decode, Pending, Emitted, Bytes, Targets;
    if |stream| == 0 {
      NothingYet();
      return [];
    }
    var before := stream[..|stream| - 1];
    var b := stream[|stream| - 1];
    items := Splits(before);
    var p := Pending(before);
    FeedOne(before, b);
    assert before + [b] == stream;
    if p == [] && b != HEAD {
      AddItem(items, Stray(b));
      items := items + [Stray(b)];
    } else if |p| == FRAME_LEN - 1 {
      AddItem(items, Frame(p + [b]));
      items := items + [Frame(p + [b])];
    }
  }

  class CameraParser {
    var state: nat
    var index: nat
    const buf: array<byte>

    ghost predicate Valid()
      reads this
    {
      && buf.Length == FRAME_LEN
      && (state == 0 || (state == 1 && 1 <= index < FRAME_LEN))
    }

    ghost function Buffered(): seq<byte>
      reads this, buf
      requires Valid()
    {
      if state == 0 then [] else buf[..index]
    }

    /** hcics_protocol_camera_parser_init */
    constructor ()
      ensures Valid() && fresh(buf) && Buffered() == Pending([])
    {
      state, index := 0, 0;
      buf := new byte[FRAME_LEN](_ => 0);
    }

    /** hcics_protocol_camera_feed; `stream` is everything fed before. */
    method Feed(b: byte, ghost stream: seq<byte>) returns (target: Option<Target>)
      requires Valid() && Buffered() == Pending(stream)
      modifies this, buf
      ensures Valid() && Buffered() == Pending(stream + [b])
      ensures Emitted(stream + [b]) == Emitted(stream) + match target case None => [] case Some(t) => [t]
    {
      hide Pending, Emitted;
      FeedOne(stream, b);
      if state == 0 {
        if b == HEAD {
          buf[0] := b;
          index, state := 1, 1;
        }
        return None;
      }
      ghost var p := Buffered();
      buf[index] := b;
      index := index + 1;
      assert buf[..index] == p + [b];
      if index < FRAME_LEN {
        return None;
      }
      state, index := 0, 0;
      assert buf[..] == p + [b];
      if buf[8] != TAIL {
        return None;
      }
      var t := Target(buf[1], Word(buf[2], buf[3]), Word(buf[4], buf[5]), buf[6], buf[7]);
      target := if t.mode == 1 || t.mode == 2 then Some(t) else None;
    }
  }
}
