// The byte stream: status bits, transmit side, and the receive state machine with line framing.

module Streams {
  import opened Basics
  import opened Text

  // ---------- Status bits ----------

  /** The status byte, bit by bit: 0x01, 0x02, 0x04, 0x08 and 0x10. The other bits mean nothing. */
  datatype Bits = Bits(overflow: bool, rxBusy: bool, hwBusy: bool, noResponse: bool, error: bool)

  const CLEAN := Bits(false, false, false, false, false)

  function ConvertStatus(s: Bits): Status {
    if s.error then ERROR
    else if s.noResponse then NO_RESPONSE
    else if s.hwBusy || s.rxBusy then BUSY
    else if s.overflow then NO_RESOURCE
    else OK
  }

  /** Which code each bit gives, and which bit goes first: error, no response, either kind of busy, overflow. */
  lemma StatusCodes(s: Bits)
    ensures ConvertStatus(s) in {0, 1, 7, 3, 8}
    ensures ConvertStatus(s) == 1 <==> s.error
    ensures ConvertStatus(s) == 7 <==> !s.error && s.noResponse
    ensures ConvertStatus(s) == 3 <==> !s.error && !s.noResponse && (s.hwBusy || s.rxBusy)
    ensures ConvertStatus(s) == 8 <==> s.overflow && !s.error && !s.noResponse && !s.hwBusy && !s.rxBusy
    ensures ConvertStatus(s) == 0 <==> s == CLEAN
  {}

  /** The driver's status with the sticky overflow bit of the stored one. */
  function Sticky(hw: Bits, stored: Bits): Bits {
    hw.(overflow := hw.overflow || stored.overflow)
  }

  /** Reading the status: the value read, and the status stored afterwards. */
  datatype Reading = Reading(value: Bits, stored: Bits)

  function ReadStatus(stored: Bits): Reading {
    Reading(stored, stored)
  }

  /** What the header announces: the same value, and the sticky flag cleared by reading it. */
  function AnnouncedRead(stored: Bits): Reading {
    Reading(stored, stored.(overflow := false))
  }

  /** Reading does not clear the sticky flag: it is clear afterwards if and only if it was clear before,
      which is also exactly when the announced and the actual reading agree. */
  lemma ReadingKeepsFlag(stored: Bits)
    ensures !ReadStatus(stored).stored.overflow <==> !stored.overflow
    ensures ReadStatus(stored) == AnnouncedRead(stored) <==> !stored.overflow
  {
    if ReadStatus(stored) == AnnouncedRead(stored) {
      assert stored == stored.(overflow := false);
    }
  }

  lemma ReadingKeepsSetFlag()
    ensures var sticky := CLEAN.(overflow := true);
      ReadStatus(sticky).stored.overflow && !AnnouncedRead(sticky).stored.overflow
  {}

  // ---------- The transmit side ----------

  /** What a write can see and change: accepted bytes, sink room, driver status and stored status. */
  datatype Link = Link(out: string, room: nat, hw: Bits, status: Bits, canWrite: bool)

  datatype Sent = Sent(link: Link, status: Status)

  function Refresh(l: Link): Link {
    l.(status := Sticky(l.hw, l.status))
  }

  function Accept(l: Link, data: string): Link {
    l.(out := l.out + Cut(data, l.room), room := l.room - Min(|data|, l.room))
  }

  function Write(l: Link, data: string): Sent {
    if !l.canWrite then Sent(l, NOT_SUPPORTED)
    else
      var l' := Refresh(Accept(l, data));
      Sent(l', ConvertStatus(l'.status))
  }

  /** Nothing is amiss: the driver reports nothing, and no overflow is stored. */
  ghost predicate Sound(hw: Bits, stored: Bits) {
    && !hw.error && !hw.noResponse && !hw.hwBusy && !hw.rxBusy && !hw.overflow
    && !stored.overflow
  }

  /** A write always sends what the sink takes, whatever it then reports; it reports success if and only if
      the driver can write and nothing is amiss, and otherwise the code of the first bit that is. */
  lemma WriteReports(l: Link, data: string)
    ensures var w := Write(l, data);
      var n := if !l.canWrite then 0 else if |data| <= l.room then |data| else l.room;
      && w.link.out == l.out + data[..n] && w.link.room == l.room - n
      && w.link.hw == l.hw && w.link.canWrite == l.canWrite
      && (w.status == OK <==> l.canWrite && Sound(l.hw, l.status))
      && (!l.canWrite ==> w.status == NOT_SUPPORTED && w.link.status == l.status)
      && (l.canWrite ==> w.status == ConvertStatus(w.link.status))
      && (l.canWrite ==> w.link.status == l.hw.(overflow := l.hw.overflow || l.status.overflow))
  {
    if !l.canWrite {
      NilUnit(l.out);
    }
    StatusCodes(Sticky(l.hw, l.status));
  }

  lemma ReadyIff(l: Link)
    ensures Ready(l) <==> l.canWrite && Sound(l.hw, l.status)
  {
    StatusCodes(Sticky(l.hw, l.status));
  }

  /** Formatted output goes through the transmit buffer, which cuts it. */
  function Printf(l: Link, txLen: nat, text: string): Sent
    requires txLen > 0
  {
    if text == "" then Sent(l, OK) else Write(l, Cut(text, txLen - 1))
  }

  /** The buffer holds one character less than its length, the rest of the text is lost. */
  lemma PrintfCuts(l: Link, txLen: nat, text: string)
    requires txLen > 0 && l.canWrite && l.room >= |text|
    ensures var n := if |text| < txLen then |text| else txLen - 1;
      Printf(l, txLen, text).link.out == l.out + text[..n]
  {
    if text == "" {
      NilUnit(l.out);
    } else {
      WriteReports(l, Cut(text, txLen - 1));
    }
  }

  /** Writes in order, given up at the first one that reports an error. */
  function SendAll(l: Link, pieces: seq<string>): Sent
    decreases |pieces|
  {
    if pieces == [] then Sent(l, OK)
    else
      var first := Write(l, pieces[0]);
      if first.status != OK then first else SendAll(first.link, pieces[1..])
  }

  function Concat(pieces: seq<string>): string {
    if pieces == [] then "" else pieces[0] + Concat(pieces[1..])
  }

  /** Every write reports success. */
  predicate Ready(l: Link) {
    l.canWrite && ConvertStatus(Sticky(l.hw, l.status)) == OK
  }

  lemma {:induction false} ConcatAppend(a: seq<string>, b: seq<string>)
    ensures Concat(a + b) == Concat(a) + Concat(b)
  {
    if a == [] {
      assert a + b == b;
    } else {
      assert (a + b)[1..] == a[1..] + b;
      ConcatAppend(a[1..], b);
      Assoc(a[0], Concat(a[1..]), Concat(b));
    }
  }

  lemma CutConcat(a: string, b: string, n: nat)
    ensures Cut(a + b, n) == Cut(a, n) + Cut(b, n - Min(|a|, n))
  {}

  /** On a ready link all pieces go out, cut only by the room in the sink. */
  lemma {:induction false} SendAllReady(l: Link, pieces: seq<string>)
    requires Ready(l)
    ensures var s := SendAll(l, pieces);
      && s.status == OK && Ready(s.link) && s.link.hw == l.hw
      && s.link.out == l.out + Cut(Concat(pieces), l.room)
      && s.link.room == l.room - Min(|Concat(pieces)|, l.room)
      && s.link.status.overflow == l.status.overflow
    decreases |pieces|
  {
    if pieces != [] {
      var l' := Write(l, pieces[0]).link;
      SendAllReady(l', pieces[1..]);
      var rest := Concat(pieces[1..]);
      CutConcat(pieces[0], rest, l.room);
      Assoc(l.out, Cut(pieces[0], l.room), Cut(rest, l'.room));
    } else {
      NilUnit(l.out);
    }
  }

  /** On any other link only the first piece is attempted. */
  lemma SendAllNotReady(l: Link, pieces: seq<string>)
    requires !Ready(l) && pieces != []
    ensures SendAll(l, pieces) == Write(l, pieces[0]) && SendAll(l, pieces).status != OK
  {}

  /** Writing never touches the overflow bit of a driver that does not report it. */
  lemma {:induction false} SendAllKeepsOverflow(l: Link, pieces: seq<string>)
    ensures var l' := SendAll(l, pieces).link;
      && l'.hw == l.hw && l'.canWrite == l.canWrite
      && (!l.hw.overflow ==> l'.status.overflow == l.status.overflow)
    decreases |pieces|
  {
    if pieces != [] {
      SendAllKeepsOverflow(Write(l, pieces[0]).link, pieces[1..]);
    }
  }

  // ---------- The receive loop ----------

  datatype Mode = TextLine | BinaryStream

  predicate IsBreak(c: char) {
    c == '\n' || c == '\r'
  }

  lemma BreaksExactly(c: char)
    ensures IsBreak(c) <==> c in "\r\n"
  {}

  /** One call's receive loop: final buffer, unread input, and what became of the bytes read. */
  datatype Received = Received(buf: string, rest: string, ready: bool, stored: nat, dropped: nat, breaks: nat)

  function Receive(mode: Mode, cap: nat, buf: string, input: string): (r: Received)
    decreases |input|
  {
    if input == "" then Received(buf, "", false, 0, 0, 0)
    else
      var c, rest := input[0], input[1..];
      if mode.TextLine? && IsBreak(c) then
        if buf != "" then Received(buf, rest, true, 0, 0, 1)
        else
          var r := Receive(mode, cap, buf, rest);
          r.(breaks := r.breaks + 1)
      else if |buf| < cap then
        var r := Receive(mode, cap, buf + [c], rest);
        r.(stored := r.stored + 1, ready := r.ready || mode.BinaryStream?)
      else
        var r := Receive(mode, cap, buf, rest);
        r.(dropped := r.dropped + 1, ready := r.ready || mode.BinaryStream?)
  }

  /** Every byte read is stored, dropped or a consumed line break, and the unread input is a suffix. */
  lemma {:induction false} BytesAccounted(mode: Mode, cap: nat, buf: string, input: string)
    ensures var r := Receive(mode, cap, buf, input);
      && |input| - |r.rest| == r.stored + r.dropped + r.breaks
      && |r.buf| == |buf| + r.stored
      && r.rest == input[|input| - |r.rest|..]
      && (!r.ready ==> r.rest == "")
      && (input != "" ==> |r.rest| < |input|)
      && (|buf| <= cap ==> |r.buf| <= cap)
    decreases |input|
  {
    if input != "" {
      var c, rest := input[0], input[1..];
      if mode.TextLine? && IsBreak(c) {
        BytesAccounted(mode, cap, buf, rest);
      } else if |buf| < cap {
        BytesAccounted(mode, cap, buf + [c], rest);
      } else {
        BytesAccounted(mode, cap, buf, rest);
      }
    }
  }

  /** Binary mode reads everything and delivers whenever it read anything. */
  lemma {:induction false} BinaryReceive(cap: nat, buf: string, input: string)
    requires |buf| <= cap
    ensures var r := Receive(BinaryStream, cap, buf, input);
      r.buf == Cut(buf + input, cap) && r.rest == "" && r.ready == (input != "")
    decreases |input|
  {
    if input == "" {
      NilUnit(buf);
    } else {
      var c, rest := input[0], input[1..];
      if |buf| < cap {
        assert buf + [c] + rest == buf + input;
        BinaryReceive(cap, buf + [c], rest);
      } else {
        BinaryReceive(cap, buf, rest);
        assert Cut(buf + rest, cap) == buf == Cut(buf + input, cap);
      }
    }
  }

  // ---------- One update ----------

  /** The effect of the registered callbacks on their own context and, through writes, on the link. */
  type Listener<!W> = (W, Link, string) -> (W, Link)

  datatype Port = Port(mode: Mode, cap: nat, canRead: bool)

  datatype State<W> = State(app: W, buf: string, inbox: string, link: Link)

  /** The new state, the returned status, and the message delivered, if any. */
  datatype Updated<W> = Updated(state: State<W>, status: Status, message: Option<string>)

  function AfterReceive(l: Link, r: Received): Link {
    if r.dropped > 0 then l.(status := l.status.(overflow := true)) else l
  }

  function AfterDispatch(l: Link, was: bool, r: Received): Link {
    if was && r.dropped == 0 then l.(status := l.status.(overflow := false)) else l
  }

  function Update<W>(port: Port, s: State<W>, listener: Listener<W>): Updated<W> {
    if !port.canRead then Updated(s, NOT_SUPPORTED, None)
    else
      var was := s.link.status.overflow;
      var r := Receive(port.mode, port.cap, s.buf, s.inbox);
      var l := AfterReceive(s.link, r);
      if r.ready then
        var (app', l') := listener(s.app, l, r.buf);
        var l'' := Refresh(AfterDispatch(l', was, r));
        Updated(State(app', "", r.rest, l''), ConvertStatus(l''.status), Some(r.buf))
      else
        var l' := Refresh(l);
        Updated(State(s.app, r.buf, r.rest, l'), ConvertStatus(l'.status), None)
  }

  /** An update that can read reports success if and only if, in the end, the driver reports nothing and no
      overflow is stored; otherwise the code of the first bit that is set. One that cannot read does nothing. */
  lemma UpdateReports<W>(port: Port, s: State<W>, listener: Listener<W>)
    ensures var u := Update(port, s, listener);
      && (!port.canRead ==> u == Updated(s, NOT_SUPPORTED, None))
      && (port.canRead ==>
            && u.status == ConvertStatus(u.state.link.status)
            && (u.status == OK <==> Sound(u.state.link.hw, u.state.link.status))
            && u.state.link.status ==
                 u.state.link.hw.(overflow := u.state.link.hw.overflow || u.state.link.status.overflow))
  {
    StatusCodes(Update(port, s, listener).state.link.status);
  }

  /** A listener that notes the message and the overflow bit it is handed. */
  function Probe(): Listener<(string, bool)> {
    (w: (string, bool), l: Link, msg: string) => ((msg, l.status.overflow), l)
  }

  /** The callback is handed the buffer, and already sees the overflow bit of this very call. */
  lemma CallbackSees(port: Port, s: State<(string, bool)>)
    requires port.canRead
    ensures var r := Receive(port.mode, port.cap, s.buf, s.inbox);
      var u := Update(port, s, Probe());
      && u.state.app == (if r.ready then (r.buf, r.dropped > 0 || s.link.status.overflow) else s.app)
      && u.message == (if r.ready then Some(r.buf) else None)
  {}

  /** A listener whose effect on the link is that of writes: hardware status and overflow bit stay. */
  ghost predicate OnlyWrites<W(!new)>(listener: Listener<W>) {
    forall w: W, l: Link, msg: string :: Quiet(listener, w, l, msg)
  }

  ghost predicate Quiet<W>(listener: Listener<W>, w: W, l: Link, msg: string) {
    var l' := listener(w, l, msg).1;
    && l'.hw == l.hw && l'.canWrite == l.canWrite
    && (!l.hw.overflow ==> l'.status.overflow == l.status.overflow)
  }

  /** After a call that dispatches, the stored bit says whether a byte was dropped in that same call;
      a call that does not dispatch never clears it. */
  lemma OverflowBit<W(!new)>(port: Port, s: State<W>, listener: Listener<W>)
    requires port.canRead && OnlyWrites(listener) && !s.link.hw.overflow
    ensures var u := Update(port, s, listener);
      var dropped := Receive(port.mode, port.cap, s.buf, s.inbox).dropped;
      u.state.link.status.overflow <==>
        if u.message.Some? then dropped > 0 else dropped > 0 || s.link.status.overflow
  {
    var r := Receive(port.mode, port.cap, s.buf, s.inbox);
    var l := AfterReceive(s.link, r);
    if r.ready {
      assert Quiet(listener, s.app, l, r.buf);
    }
  }
}
