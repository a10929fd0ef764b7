/** The streaming SLIP decoder (routes/qlab.go) and the framing of RFC 1055. */
module Slip {

  type Byte = b: int | 0 <= b < 256

  const END: Byte := 0xC0
  const ESC: Byte := 0xDB
  const ESC_END: Byte := 0xDC
  const ESC_ESC: Byte := 0xDD

  const MAX_PACKET := 0x10000

  datatype State = State(buf: seq<Byte>, esc: bool, overflow: bool)

  datatype Fed = Fed(st: State, packets: seq<seq<Byte>>)

  const IDLE := State([], false, false)

  /** put: one decoded byte; past the cap the packet is dropped up to its end. */
  function Put(st: State, b: Byte): State {
    if st.overflow then st
    else if |st.buf| >= MAX_PACKET then st.(buf := [], overflow := true)
    else st.(buf := st.buf + [b])
  }

  function One(st: State, b: Byte): Fed {
    if st.esc then
      Fed(Put(st.(esc := false), if b == ESC_END then END else if b == ESC_ESC then ESC else b), [])
    else if b == ESC then Fed(st.(esc := true), [])
    else if b == END then
      Fed(State([], false, false), if |st.buf| > 0 && !st.overflow then [st.buf] else [])
    else Fed(Put(st, b), [])
  }

  /** feed, as a function of the decoder's state and the bytes. */
  function Feed(st: State, chunk: seq<Byte>): Fed {
    if |chunk| == 0 then Fed(st, [])
    else
      var f := Feed(st, chunk[..|chunk| - 1]);
      var g := One(f.st, chunk[|chunk| - 1]);
      Fed(g.st, f.packets + g.packets)
  }

  // -------------------------------------------------------- any byte stream

  /** How the stream is cut into reads does not matter. */
  lemma {:induction false} FeedAppend(st: State, a: seq<Byte>, b: seq<Byte>)
    ensures Feed(st, a + b) ==
      var f := Feed(st, a); var g := Feed(f.st, b); Fed(g.st, f.packets + g.packets)
  {
    if |b| == 0 {
      assert a + b == a;
    } else {
      FeedAppend(st, a, b[..|b| - 1]);
      assert (a + b)[..|a + b| - 1] == a + b[..|b| - 1];
      Associate(Feed(st, a).packets, Feed(Feed(st, a).st, b[..|b| - 1]).packets,
                One(Feed(Feed(st, a).st, b[..|b| - 1]).st, b[|b| - 1]).packets);
    }
  }

  lemma Associate(a: seq<seq<Byte>>, b: seq<seq<Byte>>, c: seq<seq<Byte>>)
    ensures (a + b) + c == a + (b + c)
  {
  }

  function Joined(chunks: seq<seq<Byte>>): seq<Byte> {
    if |chunks| == 0 then [] else Joined(chunks[..|chunks| - 1]) + chunks[|chunks| - 1]
  }

  function FeedEach(st: State, chunks: seq<seq<Byte>>): Fed {
    if |chunks| == 0 then Fed(st, [])
    else
      var f := FeedEach(st, chunks[..|chunks| - 1]);
      var g := Feed(f.st, chunks[|chunks| - 1]);
      Fed(g.st, f.packets + g.packets)
  }

  lemma {:induction false} ChunksDoNotMatter(st: State, chunks: seq<seq<Byte>>)
    ensures FeedEach(st, chunks) == Feed(st, Joined(chunks))
  {
    if |chunks| > 0 {
      ChunksDoNotMatter(st, chunks[..|chunks| - 1]);
      FeedAppend(st, Joined(chunks[..|chunks| - 1]), chunks[|chunks| - 1]);
    }
  }

  /** Nothing beyond the cap is ever buffered, and an overflowed packet holds nothing. */
  ghost predicate Bounded(st: State) {
    |st.buf| <= MAX_PACKET && (st.overflow ==> st.buf == [])
  }

  /** Whatever the peer sends, the buffer stays within the cap, and so does every
      packet handed on; none is empty. */
  lemma {:induction false} FeedBounded(st: State, chunk: seq<Byte>)
    requires Bounded(st)
    ensures Bounded(Feed(st, chunk).st)
    ensures forall i :: 0 <= i < |Feed(st, chunk).packets| ==> 1 <= |Feed(st, chunk).packets[i]| <= MAX_PACKET
  {
    if |chunk| > 0 { FeedBounded(st, chunk[..|chunk| - 1]); }
  }

  // ------------------------------------------------- the encoder of RFC 1055

  function EscapedByte(b: Byte): seq<Byte> {
    if b == END then [ESC, ESC_END] else if b == ESC then [ESC, ESC_ESC] else [b]
  }

  function Escaped(p: seq<Byte>): seq<Byte> {
    if |p| == 0 then [] else Escaped(p[..|p| - 1]) + EscapedByte(p[|p| - 1])
  }

  /** send_packet: an END to flush the line, the packet, an END. */
  function Sent(p: seq<Byte>): seq<Byte> {
    [END] + Escaped(p) + [END]
  }

  function Stream(packets: seq<seq<Byte>>): seq<Byte> {
    if |packets| == 0 then [] else Stream(packets[..|packets| - 1]) + Sent(packets[|packets| - 1])
  }

  /** The decoder after the bytes of p, already decoded, have been put. */
  function Putting(st: State, p: seq<Byte>): State {
    if |p| == 0 then st else Put(Putting(st, p[..|p| - 1]), p[|p| - 1])
  }

  lemma {:induction false} PuttingFits(st: State, p: seq<Byte>)
    requires !st.overflow && |st.buf| + |p| <= MAX_PACKET
    ensures Putting(st, p) == st.(buf := st.buf + p)
  {
    if |p| == 0 {
      assert st.buf + p == st.buf;
    } else {
      PuttingFits(st, p[..|p| - 1]);
      assert (st.buf + p[..|p| - 1]) + [p[|p| - 1]] == st.buf + p;
    }
  }

  lemma {:induction false} PuttingOverflows(p: seq<Byte>)
    requires |p| > MAX_PACKET
    ensures Putting(IDLE, p) == State([], false, true)
  {
    if |p| - 1 > MAX_PACKET {
      PuttingOverflows(p[..|p| - 1]);
    } else {
      PuttingFits(IDLE, p[..|p| - 1]);
    }
  }

  lemma FeedOne(st: State, b: Byte)
    ensures Feed(st, [b]) == One(st, b)
  {
    assert [b][..0] == [];
    assert Feed(st, []) == Fed(st, []);
    assert [] + One(st, b).packets == One(st, b).packets;
  }

  lemma FeedEscapedByte(st: State, b: Byte)
    requires !st.esc
    ensures Feed(st, EscapedByte(b)) == Fed(Put(st, b), [])
  {
    if b == END || b == ESC {
      var second := if b == END then ESC_END else ESC_ESC;
      assert EscapedByte(b) == [ESC] + [second];
      FeedAppend(st, [ESC], [second]);
      FeedOne(st, ESC);
      FeedOne(st.(esc := true), second);
    } else {
      FeedOne(st, b);
    }
  }

  lemma FeedTwo(st: State, a: seq<Byte>, b: seq<Byte>, s1: State, s2: State, packets: seq<seq<Byte>>)
    requires Feed(st, a) == Fed(s1, []) && Feed(s1, b) == Fed(s2, packets)
    ensures Feed(st, a + b) == Fed(s2, packets)
  {
    FeedAppend(st, a, b);
    assert [] + packets == packets;
  }

  lemma {:induction false} PuttingEsc(st: State, p: seq<Byte>)
    requires !st.esc
    ensures !Putting(st, p).esc
  {
    if |p| > 0 { PuttingEsc(st, p[..|p| - 1]); }
  }

  lemma {:induction false} FeedEscaped(st: State, p: seq<Byte>)
    requires !st.esc
    ensures Feed(st, Escaped(p)) == Fed(Putting(st, p), [])
  {
    if |p| > 0 {
      var init := p[..|p| - 1];
      FeedEscaped(st, init);
      PuttingEsc(st, init);
      FeedEscapedByte(Putting(st, init), p[|p| - 1]);
      FeedTwo(st, Escaped(init), EscapedByte(p[|p| - 1]), Putting(st, init), Putting(st, p), []);
    }
  }

  /** The packets a receiver gets: those of 1 .. MAX_PACKET bytes. */
  function Deliverable(packets: seq<seq<Byte>>): seq<seq<Byte>> {
    if |packets| == 0 then []
    else
      var last := packets[|packets| - 1];
      Deliverable(packets[..|packets| - 1]) + (if 1 <= |last| <= MAX_PACKET then [last] else [])
  }

  lemma DeliverableOne(p: seq<Byte>)
    ensures Deliverable([p]) == if 1 <= |p| <= MAX_PACKET then [p] else []
  {
    var none: seq<seq<Byte>> := [p][..0];
    assert Deliverable(none) == [];
  }

  lemma FeedSent(p: seq<Byte>)
    ensures Feed(IDLE, Sent(p)) == Fed(IDLE, Deliverable([p]))
  {
    assert Sent(p) == [END] + (Escaped(p) + [END]);
    DeliverableOne(p);
    FeedEscaped(IDLE, p);
    if |p| <= MAX_PACKET {
      PuttingFits(IDLE, p);
      assert [] + p == p;
    } else {
      PuttingOverflows(p);
    }
    FeedOne(Putting(IDLE, p), END);
    FeedTwo(IDLE, Escaped(p), [END], Putting(IDLE, p), IDLE, Deliverable([p]));
    FeedOne(IDLE, END);
    FeedTwo(IDLE, [END], Escaped(p) + [END], IDLE, IDLE, Deliverable([p]));
  }

  /** From an idle decoder an encoded stream of any packets yields exactly those of
      deliverable length, intact and in order: an oversized packet takes none of its
      neighbours with it. */
  lemma {:induction false} StreamDecodes(packets: seq<seq<Byte>>)
    ensures Feed(IDLE, Stream(packets)) == Fed(IDLE, Deliverable(packets))
  {
    if |packets| > 0 {
      var init := packets[..|packets| - 1];
      StreamDecodes(init);
      FeedAppend(IDLE, Stream(init), Sent(packets[|packets| - 1]));
      FeedSent(packets[|packets| - 1]);
      DeliverableOne(packets[|packets| - 1]);
    }
  }

  /** Decoding inverts encoding for packets of 1 .. MAX_PACKET bytes. */
  lemma {:induction false} RoundTrip(packets: seq<seq<Byte>>)
    requires forall i :: 0 <= i < |packets| ==> 1 <= |packets[i]| <= MAX_PACKET
    ensures Feed(IDLE, Stream(packets)) == Fed(IDLE, packets)
  {
    StreamDecodes(packets);
    AllDeliverable(packets);
  }

  lemma {:induction false} AllDeliverable(packets: seq<seq<Byte>>)
    requires forall i :: 0 <= i < |packets| ==> 1 <= |packets[i]| <= MAX_PACKET
    ensures Deliverable(packets) == packets
  {
    if |packets| > 0 {
      AllDeliverable(packets[..|packets| - 1]);
      assert packets == packets[..|packets| - 1] + [packets[|packets| - 1]];
    }
  }

  /** From any state outside an escape, an overflowed one included, the leading END
      of a stream finishes what was there: all its packets are delivered, after at
      most one left over. */
  lemma ResyncUnlessEscaping(st: State, packets: seq<seq<Byte>>)
    requires |packets| > 0 && !st.esc
    ensures Feed(st, Stream(packets)) == Fed(IDLE, One(st, END).packets + Deliverable(packets))
  {
    LeadingEnd(packets);
    var rest :| Stream(packets) == [END] + rest;
    FeedAppend(st, [END], rest);
    FeedOne(st, END);
    FeedAppend(IDLE, [END], rest);
    FeedOne(IDLE, END);
    StreamDecodes(packets);
    assert [] + Feed(IDLE, rest).packets == Feed(IDLE, rest).packets;
  }

  lemma {:induction false} LeadingEnd(packets: seq<seq<Byte>>)
    requires |packets| > 0
    ensures exists rest :: Stream(packets) == [END] + rest
  {
    var init := packets[..|packets| - 1];
    var last := Sent(packets[|packets| - 1]);
    if |init| == 0 {
      assert Stream(packets) == last;
      assert last == [END] + (Escaped(packets[|packets| - 1]) + [END]);
    } else {
      LeadingEnd(init);
      var rest :| Stream(init) == [END] + rest;
      assert Stream(packets) == [END] + (rest + last);
    }
  }

  lemma {:induction false} PuttingIs(st: State, p: seq<Byte>)
    requires Bounded(st)
    ensures Putting(st, p) ==
      if st.overflow || |st.buf| + |p| > MAX_PACKET then State([], st.esc, true) else st.(buf := st.buf + p)
  {
    if |p| == 0 {
      assert st.buf + p == st.buf;
    } else {
      PuttingIs(st, p[..|p| - 1]);
      assert (st.buf + p[..|p| - 1]) + [p[|p| - 1]] == st.buf + p;
    }
  }

  lemma {:induction false} StreamCons(packets: seq<seq<Byte>>)
    requires |packets| > 0
    ensures Stream(packets) == Sent(packets[0]) + Stream(packets[1..])
  {
    var last := Sent(packets[|packets| - 1]);
    if |packets| == 1 {
      assert Stream(packets[..0]) == [] && Stream(packets[1..]) == [];
      assert [] + last == last && last + [] == last;
    } else {
      var init := packets[..|packets| - 1];
      StreamCons(init);
      assert packets[1..][..|packets| - 2] == init[1..];
      assert Stream(packets[1..]) == Stream(init[1..]) + last;
      Regroup(Sent(packets[0]), Stream(init[1..]), last);
    }
  }

  lemma Regroup(a: seq<Byte>, b: seq<Byte>, c: seq<Byte>)
    ensures (a + b) + c == a + (b + c)
  {
  }

  /** With an escape open, whatever is buffered: the END that opens the next packet is
      taken as data, so that packet comes out joined to it and to what was buffered, or
      not at all when that is too long or the rest was dropped already. */
  lemma OpenEscapeJoins(st: State, p: seq<Byte>)
    requires st.esc && Bounded(st)
    ensures var joined := st.buf + [END] + p;
      Feed(st, Sent(p)) == Fed(IDLE, if st.overflow || |joined| > MAX_PACKET then [] else [joined])
  {
    var one := Put(st.(esc := false), END);
    var full := Putting(one, p);
    var out := One(full, END).packets;
    assert Sent(p) == [END] + (Escaped(p) + [END]);
    FeedOne(st, END);
    FeedEscaped(one, p);
    PuttingIs(one, p);
    FeedOne(full, END);
    FeedTwo(one, Escaped(p), [END], full, IDLE, out);
    FeedTwo(st, [END], Escaped(p) + [END], one, IDLE, out);
  }

  /** And the packets after it are all delivered. */
  lemma OpenEscapeSwallowsEnd(st: State, packets: seq<seq<Byte>>)
    requires st.esc && Bounded(st) && |packets| > 0
    ensures var joined := st.buf + [END] + packets[0];
      Feed(st, Stream(packets)) ==
        Fed(IDLE, (if st.overflow || |joined| > MAX_PACKET then [] else [joined]) + Deliverable(packets[1..]))
  {
    StreamCons(packets);
    OpenEscapeJoins(st, packets[0]);
    FeedAppend(st, Sent(packets[0]), Stream(packets[1..]));
    StreamDecodes(packets[1..]);
  }

  // ------------------------------------------------------------ the decoder

  class Decoder {
    var buf: seq<Byte>
    var esc: bool
    var overflow: bool

    function Now(): State
      reads this
    {
      State(buf, esc, overflow)
    }

    constructor ()
      ensures Now() == IDLE
    {
      buf, esc, overflow := [], false, false;
    }

    method PutByte(b: Byte)
      modifies this`buf, this`overflow
      ensures Now() == Put(old(Now()), b)
    {
      if overflow { return; }
      if |buf| >= MAX_PACKET {
        overflow := true;
        buf := [];
        return;
      }
      buf := buf + [b];
    }

    method FeedByte(b: Byte) returns (packets: seq<seq<Byte>>)
      modifies this
      ensures Fed(Now(), packets) == One(old(Now()), b)
    {
      packets := [];
      if esc {
        esc := false;
        if b == ESC_END {
          PutByte(END);
        } else if b == ESC_ESC {
          PutByte(ESC);
        } else {
          PutByte(b);
        }
      } else if b == ESC {
        esc := true;
      } else if b == END {
        if |buf| > 0 && !overflow { packets := [buf]; }
        buf := [];
        overflow := false;
      } else {
        PutByte(b);
      }
    }

    /** feed. */
    method FeedChunk(chunk: seq<Byte>) returns (packets: seq<seq<Byte>>)
      modifies this
      ensures Fed(Now(), packets) == Feed(old(Now()), chunk)
    {
      packets := [];
      for i := 0 to |chunk|
        invariant Fed(Now(), packets) == Feed(old(Now()), chunk[..i])
      {
        assert chunk[..i + 1][..i] == chunk[..i];
        var more := FeedByte(chunk[i]);
        packets := packets + more;
      }
      assert chunk[..|chunk|] == chunk;
    }
  }
}
