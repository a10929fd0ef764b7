/** What the SLIP decoder (routes/qlab.go) makes of any bytes at all, well formed or not. */
module SlipStream {
  import opened Slip

  /** One thing a stream says: the end of a packet, or one byte of it. */
  datatype Sign = Break | Data(b: Byte)

  /** bytes is one way to say sign; an escape before any other byte is just that byte. */
  predicate Spells(bytes: seq<Byte>, sign: Sign) {
    match sign
    case Break => bytes == [END]
    case Data(b) =>
      || (bytes == [b] && b != END && b != ESC)
      || (bytes == [ESC, ESC_END] && b == END)
      || (bytes == [ESC, ESC_ESC] && b == ESC)
      || (bytes == [ESC, b] && b != ESC_END && b != ESC_ESC)
  }

  /** The last k bytes say the last sign, and the ones before them the rest. */
  ghost predicate Says(stream: seq<Byte>, signs: seq<Sign>)
    decreases |signs|
  {
    if |signs| == 0 then stream == []
    else exists k :: 1 <= k <= 2 && k <= |stream| && SaysLast(stream, signs, k)
  }

  ghost predicate SaysLast(stream: seq<Byte>, signs: seq<Sign>, k: nat)
    requires |signs| > 0 && k <= |stream|
    decreases |signs|, 0
  {
    Spells(stream[|stream| - k..], signs[|signs| - 1]) && Says(stream[..|stream| - k], signs[..|signs| - 1])
  }

  /** The bytes since the last end of a packet. */
  function Open(signs: seq<Sign>): seq<Byte> {
    if |signs| == 0 then []
    else match signs[|signs| - 1]
      case Break => []
      case Data(b) => Open(signs[..|signs| - 1]) + [b]
  }

  /** The packets between the ends, without the empty ones and those past the cap. */
  function Frames(signs: seq<Sign>): seq<seq<Byte>> {
    if |signs| == 0 then []
    else
      var p := Open(signs[..|signs| - 1]);
      Frames(signs[..|signs| - 1]) + if signs[|signs| - 1].Break? && 1 <= |p| <= MAX_PACKET then [p] else []
  }

  function Waiting(open: seq<Byte>): State {
    if |open| > MAX_PACKET then State([], false, true) else State(open, false, false)
  }

  lemma PutWaits(open: seq<Byte>, b: Byte)
    ensures Put(Waiting(open), b) == Waiting(open + [b])
  {
  }

  lemma SignFed(open: seq<Byte>, bytes: seq<Byte>, sign: Sign)
    requires Spells(bytes, sign)
    ensures sign.Break? ==> Feed(Waiting(open), bytes) == Fed(Waiting([]), if 1 <= |open| <= MAX_PACKET then [open] else [])
    ensures sign.Data? ==> Feed(Waiting(open), bytes) == Fed(Waiting(open + [sign.b]), [])
  {
    var st := Waiting(open);
    if sign.Data? { PutWaits(open, sign.b); }
    if |bytes| == 1 {
      FeedOne(st, bytes[0]);
      assert bytes == [bytes[0]];
    } else {
      assert bytes == [ESC] + [bytes[1]];
      FeedOne(st, ESC);
      FeedOne(st.(esc := true), bytes[1]);
      FeedTwo(st, [ESC], [bytes[1]], st.(esc := true), Waiting(open + [sign.b]), []);
    }
  }

  lemma NextSign(head: seq<Byte>, init: seq<Sign>, tail: seq<Byte>, sign: Sign)
    requires Spells(tail, sign) && Feed(IDLE, head) == Fed(Waiting(Open(init)), Frames(init))
    ensures var signs := init + [sign]; Feed(IDLE, head + tail) == Fed(Waiting(Open(signs)), Frames(signs))
  {
    var open, signs := Open(init), init + [sign];
    assert signs[..|signs| - 1] == init;
    SignFed(open, tail, sign);
    FeedAppend(IDLE, head, tail);
  }

  lemma LastSign(stream: seq<Byte>, signs: seq<Sign>) returns (head: seq<Byte>, tail: seq<Byte>)
    requires |signs| > 0 && Says(stream, signs)
    ensures stream == head + tail && Says(head, signs[..|signs| - 1]) && Spells(tail, signs[|signs| - 1])
  {
    var k :| 1 <= k <= 2 && k <= |stream| && SaysLast(stream, signs, k);
    head, tail := stream[..|stream| - k], stream[|stream| - k..];
  }

  /** Whatever a stream says, and however it spells it: the packets that come out are the
      ones between its ends, and what follows the last end is waited on. */
  lemma {:induction false} FeedsWhatItSays(stream: seq<Byte>, signs: seq<Sign>)
    requires Says(stream, signs)
    ensures Feed(IDLE, stream) == Fed(Waiting(Open(signs)), Frames(signs))
    decreases |signs|
  {
    if |signs| > 0 {
      var init, sign := signs[..|signs| - 1], signs[|signs| - 1];
      var head, tail := LastSign(stream, signs);
      FeedsWhatItSays(head, init);
      NextSign(head, init, tail, sign);
      assert signs == init + [sign];
    }
  }

  function Meant(b: Byte): Byte {
    if b == ESC_END then END else if b == ESC_ESC then ESC else b
  }

  lemma SaysMore(head: seq<Byte>, signs: seq<Sign>, tail: seq<Byte>, sign: Sign)
    requires Says(head, signs) && Spells(tail, sign)
    ensures Says(head + tail, signs + [sign])
  {
    var stream, more, k := head + tail, signs + [sign], |tail|;
    var n := |stream| - k;
    assert n == |head| && stream[n..] == tail && stream[..n] == head;
    assert more[..|more| - 1] == signs && more[|more| - 1] == sign;
    assert SaysLast(stream, more, k);
  }

  /** Every stream says something, but for an escape that may end it. */
  lemma {:induction false} EveryStreamSays(stream: seq<Byte>) returns (signs: seq<Sign>, escaping: bool)
    ensures if escaping then |stream| > 0 && stream[|stream| - 1] == ESC && Says(stream[..|stream| - 1], signs) else Says(stream, signs)
  {
    if |stream| == 0 {
      signs, escaping := [], false;
    } else {
      var head, b := stream[..|stream| - 1], stream[|stream| - 1];
      signs, escaping := EveryStreamSays(head);
      assert stream == head + [b];
      if escaping {
        assert stream == head[..|head| - 1] + [ESC, b];
        SaysMore(head[..|head| - 1], signs, [ESC, b], Data(Meant(b)));
        signs, escaping := signs + [Data(Meant(b))], false;
      } else if b == ESC {
        escaping := true;
      } else {
        var sign := if b == END then Break else Data(b);
        SaysMore(head, signs, [b], sign);
        signs := signs + [sign];
      }
    }
  }

  /** So any stream whatever gives the packets between the ends it says, and at most an
      escape at its end is still open. */
  lemma AnyStreamDecodes(stream: seq<Byte>) returns (signs: seq<Sign>, escaping: bool)
    ensures escaping ==> |stream| > 0 && stream[|stream| - 1] == ESC
    ensures Says(if escaping then stream[..|stream| - 1] else stream, signs)
    ensures Feed(IDLE, stream) == Fed(Waiting(Open(signs)).(esc := escaping), Frames(signs))
  {
    signs, escaping := EveryStreamSays(stream);
    if escaping {
      var head := stream[..|stream| - 1];
      FeedsWhatItSays(head, signs);
      FeedOne(Waiting(Open(signs)), ESC);
      FeedAppend(IDLE, head, [ESC]);
      assert stream == head + [ESC];
    } else {
      FeedsWhatItSays(stream, signs);
    }
  }
}
