// The stream object over its driver, method by method against the specification in Streams.

module StreamDevice {
  import opened Basics
  import opened Text
  import opened Streams

  /** A byte device: unread input, a sink with finite room, and a status register. */
  class Driver {
    var inbox: string
    var outbox: string
    var room: nat
    var hw: Bits
    const canRead: bool
    const canWrite: bool

    constructor (canRead: bool, canWrite: bool, room: nat)
      ensures inbox == "" && outbox == "" && this.room == room && hw == CLEAN
      ensures this.canRead == canRead && this.canWrite == canWrite
    {
      inbox, outbox, hw := "", "", CLEAN;
      this.room, this.canRead, this.canWrite := room, canRead, canWrite;
    }

    method ReadChar() returns (ok: bool, c: char)
      modifies this`inbox
      ensures ok == (old(inbox) != "")
      ensures ok ==> c == old(inbox)[0] && inbox == old(inbox)[1..]
      ensures !ok ==> inbox == old(inbox)
    {
      ok, c := false, '\0';
      if inbox != "" {
        ok, c, inbox := true, inbox[0], inbox[1..];
      }
    }

    method WriteChar(c: char) returns (ok: bool)
      modifies this`outbox, this`room
      ensures ok == (old(room) > 0)
      ensures ok ==> outbox == old(outbox) + [c] && room == old(room) - 1
      ensures !ok ==> outbox == old(outbox) && room == old(room)
    {
      ok := room > 0;
      if ok {
        outbox, room := outbox + [c], room - 1;
      }
    }
  }

  class Stream {
    const driver: Driver
    const rxBuffer: array<char>
    const txLen: nat
    var rxIndex: nat
    var status: Bits
    var mode: Mode

    constructor (driver: Driver, rxBuffer: array<char>, txLen: nat, mode: Mode)
      requires txLen > 0
      ensures this.driver == driver && this.rxBuffer == rxBuffer && this.txLen == txLen && this.mode == mode
      ensures Valid() && Buffer() == "" && status == CLEAN
    {
      this.driver, this.rxBuffer, this.txLen, this.mode := driver, rxBuffer, txLen, mode;
      rxIndex, status := 0, CLEAN;
    }

    function Cap(): nat {
      if rxBuffer.Length == 0 then 0 else rxBuffer.Length - 1
    }

    ghost predicate Valid()
      reads this
    {
      txLen > 0 && rxIndex <= Cap()
    }

    ghost function Buffer(): string
      requires Valid()
      reads this, rxBuffer
    {
      rxBuffer[..rxIndex]
    }

    function Side(): Link
      reads this, driver
    {
      Link(driver.outbox, driver.room, driver.hw, status, driver.canWrite)
    }

    function Setup(): Port
      reads this
    {
      Port(mode, Cap(), driver.canRead)
    }

    ghost function Snapshot<W>(app: W): State<W>
      requires Valid()
      reads this, driver, rxBuffer
    {
      State(app, Buffer(), driver.inbox, Side())
    }

    method GetStatus() returns (r: Bits)
      ensures Reading(r, status) == ReadStatus(old(status)) && unchanged(this)
    {
      r := status;
    }

    method UpdateStatus()
      modifies this`status
      ensures Side() == Refresh(old(Side()))
    {
      var overflow := status.overflow;
      status := driver.hw.(overflow := driver.hw.overflow || overflow);
    }

    method Write(data: string) returns (r: Status)
      modifies this`status, driver`outbox, driver`room
      ensures Sent(Side(), r) == Streams.Write(old(Side()), data)
    {
      if !driver.canWrite {
        return NOT_SUPPORTED;
      }
      var i := 0;
      while i < |data|
        invariant 0 <= i <= |data| && i <= old(driver.room) && status == old(status)
        invariant driver.outbox == old(driver.outbox) + data[..i] && driver.room == old(driver.room) - i
      {
        var ok := driver.WriteChar(data[i]);
        if !ok {
          break;
        }
        i := i + 1;
      }
      assert i == Min(|data|, old(driver.room)) && data[..i] == Cut(data, old(driver.room));
      UpdateStatus();
      r := ConvertStatus(status);
    }

    method Printf(text: string) returns (r: Status)
      requires Valid()
      modifies this`status, driver`outbox, driver`room
      ensures Sent(Side(), r) == Streams.Printf(old(Side()), txLen, text)
    {
      r := OK;
      if |text| > 0 {
        var len := if |text| < txLen then |text| else txLen - 1;
        assert text[..len] == Cut(text, txLen - 1);
        r := Write(text[..len]);
      }
    }

    /** One byte of the read loop: `stop` when it completes a line. */
    method Take(c: char, ghost rest: string) returns (stop: bool, dropped: bool)
      requires Valid()
      modifies this`rxIndex, this`status, rxBuffer
      ensures Valid() && status == if dropped then old(status).(overflow := true) else old(status)
      ensures var now := Receive(mode, Cap(), old(Buffer()), [c] + rest);
        var next := Receive(mode, Cap(), Buffer(), rest);
        && (stop ==> now == Received(Buffer(), rest, true, 0, 0, 1) && !dropped && mode.TextLine?)
        && (!stop ==> Resumes(now, next, mode.BinaryStream?, dropped))
      ensures stop ==> CStr(rxBuffer[..]) == CStr(Buffer())
    {
      ghost var buf := Buffer();
      assert ([c] + rest)[1..] == rest;
      stop, dropped := false, false;
      var isBreak := c == '\n' || c == '\r';
      if mode == TextLine && isBreak {
        if rxIndex > 0 {
          rxBuffer[rxIndex] := '\0';
          stop := true;
          assert Buffer() == buf;
          assert rxBuffer[..] == buf + "\0" + rxBuffer[rxIndex + 1..];
          CStrTerminated(buf, rxBuffer[rxIndex + 1..]);
        }
      } else if rxIndex < rxBuffer.Length - 1 {
        rxBuffer[rxIndex] := c;
        rxIndex := rxIndex + 1;
        assert Buffer() == buf + [c];
      } else {
        status := status.(overflow := true);
        dropped := true;
      }
    }

    /** The read loop of an update. */
    method ReceiveLoop() returns (ready: bool, overflow: bool)
      requires Valid()
      modifies this`rxIndex, this`status, driver`inbox, rxBuffer
      ensures Valid()
      ensures var r := Receive(mode, Cap(), old(Buffer()), old(driver.inbox));
        && Buffer() == r.buf && driver.inbox == r.rest && ready == r.ready && overflow == (r.dropped > 0)
        && Side() == AfterReceive(old(Side()), r)
        && (ready && mode.TextLine? ==> CStr(rxBuffer[..]) == CStr(Buffer()))
    {
      ghost var goal := Receive(mode, Cap(), Buffer(), driver.inbox);
      ready, overflow := false, false;
      var ok, c := driver.ReadChar();
      ghost var input := if ok then [c] + driver.inbox else "";
      while ok
        invariant Valid() && input == if ok then [c] + driver.inbox else driver.inbox
        invariant !ok ==> input == ""
        invariant status == if overflow then old(status).(overflow := true) else old(status)
        invariant mode.TextLine? ==> !ready
        invariant Resumes(goal, Receive(mode, Cap(), Buffer(), input), ready, overflow)
        decreases |input|
      {
        var stop, dropped := Take(c, driver.inbox);
        overflow := overflow || dropped;
        if stop {
          ready := true;
          break;
        }
        if mode == BinaryStream {
          ready := true;
        }
        input := driver.inbox;
        ok, c := driver.ReadChar();
      }
    }

    /** The end of an update: the overflow bit, and the status returned. */
    method Finish(dispatched: bool, was: bool, overflow: bool) returns (r: Status)
      modifies this`status
      ensures var l := old(Side());
        Side() == Refresh(if dispatched && was && !overflow then l.(status := l.status.(overflow := false)) else l)
      ensures r == ConvertStatus(status)
    {
      if dispatched && was && !overflow {
        status := status.(overflow := false);
      }
      UpdateStatus();
      r := ConvertStatus(status);
    }

    /** One update, for callbacks given by their effect. */
    method Update<W>(app: W, listener: Listener<W>) returns (app': W, r: Status)
      requires Valid()
      requires forall l: Link, m: string :: listener(app, l, m).1.canWrite == l.canWrite
      modifies this, driver, rxBuffer
      ensures Valid() && mode == old(mode)
      ensures var u := Streams.Update(Setup(), old(Snapshot(app)), listener);
        Snapshot(app') == u.state && r == u.status
    {
      app' := app;
      if !driver.canRead {
        return app', NOT_SUPPORTED;
      }
      var was := status.overflow;
      var ready, overflow := ReceiveLoop();
      if ready {
        var after := listener(app, Side(), rxBuffer[..rxIndex]);
        app' := after.0;
        Absorb(after.1);
        rxIndex := 0;
      }
      r := Finish(ready, was, overflow);
    }

    /** What the callbacks' writes left behind. */
    method Absorb(l: Link)
      requires l.canWrite == driver.canWrite
      modifies this`status, driver`outbox, driver`room, driver`hw
      ensures Side() == l
    {
      driver.outbox, driver.room, driver.hw, status := l.out, l.room, l.hw, l.status;
    }
  }

  /** What is still to be received, added to what this loop has noted, is the whole. */
  ghost predicate Resumes(goal: Received, now: Received, ready: bool, overflow: bool) {
    && goal.buf == now.buf && goal.rest == now.rest
    && goal.ready == (ready || now.ready)
    && (goal.dropped > 0) == (overflow || now.dropped > 0)
  }
}
