/**
 * DoScpSink as the session object runs it: control lines gather in a fixed
 * message buffer whose newline is overwritten by the terminator, the fields they
 * set change one by one, and file parts go to the callback at the running
 * offset. Each pass is proved to be a step of the sink machine.
 */
module ScpSinkMachine {
  import opened Bytes
  import opened ScpText
  import opened ScpTree
  import opened ScpSink

  lemma {:induction false} RunExtends(r: Run, ios: seq<Io>, k: nat)
    requires Runs(r, ios) && k < |ios|
    ensures Runs(r, ios[..k]) && Runs(r, ios[..k + 1])
    ensures Fits(Final(r, ios[..k]).s, ios[k])
    ensures Final(r, ios[..k + 1]) == After(Final(r, ios[..k]), ios[k])
    decreases k
  {
    hide Fits, After, Step, Refused;
    if k == 0 {
      assert ios[..0] == [] && ios[..1][1..] == [];
    } else {
      RunExtends(After(r, ios[0]), ios[1..], k - 1);
      assert ios[..k][1..] == ios[1..][..k - 1] && ios[..k + 1][1..] == ios[1..][..k];
    }
  }

  class Machine {
    var state: State
    var next: State
    var aborting: bool
    var name: seq<byte>
    var mode: nat
    var mtime: nat
    var atime: nat
    var size: nat
    var offset: nat
    const msg: array<byte>
    var msgSz: nat
    var depth: nat
    ghost var log: seq<Event>

    ghost predicate Valid()
      reads this
    {
      msg.Length == MSG_SZ && msgSz <= MSG_SZ
    }

    ghost function View(): Sink
      reads this, msg
      requires Valid()
    {
      Sink(state, next, aborting, name, mode, mtime, atime, size, offset, msg[..msgSz], depth, log)
    }

    constructor ()
      ensures Valid() && View() == START && fresh(msg)
    {
      state, next, aborting, name, mode, mtime, atime := Begin, Done, false, [], 0, 0, 0;
      size, offset, msgSz, depth, log := 0, 0, 0, 0, [];
      msg := new byte[MSG_SZ](_ => 0);
    }

    /** One call of the receive callback. */
    method Callback(e: Event, accept: bool)
      requires Valid()
      modifies `aborting, `depth, `log
      ensures Valid() && View() == MakeCall(old(View()), e, accept)
    {
      if !accept || (e.EndDir? && depth == 0) {
        aborting := true;
      } else {
        aborting, log := false, log + [e];
        if e.NewRequest? {
          depth := 0;
        } else if e.NewDir? {
          depth := depth + 1;
        } else if e.EndDir? {
          depth := depth - 1;
        }
      }
    }

    /** The read appends behind what the buffer holds. */
    method Append(data: seq<byte>)
      requires Valid() && msgSz + |data| <= MSG_SZ
      modifies msg, `msgSz
      ensures Valid() && msg[..msgSz] == old(msg[..msgSz]) + data
    {
      ghost var was := msg[..msgSz];
      for i := 0 to |data|
        modifies msg
        invariant msg[..msgSz + i] == was + data[..i]
      {
        msg[msgSz + i] := data[i];
      }
      msgSz := msgSz + |data|;
    }

    /** The newline is replaced by the terminator in place, and the line parsed. */
    method Parse() returns (m: Result<Message, TextError>)
      requires Valid() && msgSz > 0
      modifies msg
      ensures Valid() && m == ParseMessage(Seal(old(msg[..msgSz])))
    {
      ghost var line: seq<byte> := msg[..msgSz];
      msg[msgSz - 1] := NUL;
      assert msg[..msgSz] == Seal(line);
      m := ParseMessage(msg[..msgSz]);
    }

    /** A parsed line sets its fields and makes its callback. */
    method Carry(m: Message, accept: bool)
      requires Valid()
      modifies this
      ensures Valid() && View() == Obey(old(View()), m, accept)
    {
      hide MakeCall;
      if m.FileMsg? {
        mode, size, name := m.mode, m.size, m.name;
        Callback(NewFile(name, mode, mtime, atime, size), accept);
        next := ReceiveFile;
      } else if m.DirMsg? {
        mode, size, name := m.mode, m.size, m.name;
        Callback(NewDir(name, mode), accept);
        next := ReceiveMessage;
      } else if m.EndDirMsg? {
        Callback(EndDir, accept);
        next := ReceiveMessage;
      } else {
        mtime, atime := m.mtime, m.atime;
        next := ReceiveMessage;
      }
      state := SendConfirmation;
    }

    /** SCP_RECEIVE_MESSAGE: one read towards a control line. */
    method DoMessage(io: Io) returns (ret: Ret)
      requires Valid() && state.ReceiveMessage?
      requires (io.Got? && 0 < |io.data| <= MSG_SZ - msgSz) || io.Want? || io.Eof? || io.Broken?
      modifies this, msg
      ensures Valid() && Fits(old(View()), io)
      ensures var o := TakeMessage(old(View()), io); View() == o.s && o.sent == [] && ret == o.ret
    {
      hide Obey, ParseMessage;
      ret := Going;
      assert |msg[..msgSz]| == msgSz;
      if msgSz >= MSG_SZ - 1 || io.Broken? {
        ret := Fatal;
      } else if io.Want? {
        ret := WantIo;
      } else if io.Eof? {
        state := Done;
      } else {
        Append(io.data);
        ghost var line := msg[..msgSz];
        assert line[|line| - 1] == msg[msgSz - 1];
        if msg[msgSz - 1] == NEWLINE {
          var m := Parse();
          msgSz := 0;
          assert msg[..0] == [];
          if m.Err? {
            ret := Fatal;
          } else {
            Carry(m.value, io.accept);
          }
        }
      }
    }

    /** SCP_RECEIVE_FILE: one part, and after the last one the file is done. */
    method DoPart(data: seq<byte>, accept: bool, acceptDone: bool)
      requires Valid()
      modifies this
      ensures Valid() && View() == TakePart(old(View()), data, accept, acceptDone)
    {
      hide MakeCall;
      Callback(FilePart(data, offset), accept);
      offset := offset + |data|;
      if aborting {
        state, next := SendConfirmation, Done;
      } else if offset < size {
        next := ReceiveFile;
      } else {
        Callback(FileDone(mtime, atime), acceptDone);
        offset, atime, mtime := 0, 0, 0;
        state, next := SendConfirmation, ReceiveConfirmation;
      }
    }

    method DoConfirm(io: Io) returns (sent: seq<byte>, ret: Ret)
      requires Valid() && state.SendConfirmation? && Fits(View(), io)
      modifies this
      ensures Valid()
      ensures var o := Step(old(View()), io); View() == o.s && sent == o.sent && ret == o.ret
    {
      sent, ret := [], Fatal;
      if io.Want? {
        ret := WantIo;
      } else if io.Took? && io.n == 1 {
        sent := [if aborting then CONFIRM_ERR else CONFIRM_OK];
        if !aborting {
          ret, state := Going, next;
        }
      }
    }

    method DoReceipt(io: Io) returns (ret: Ret)
      requires Valid() && state.ReceiveConfirmation? && Fits(View(), io)
      modifies this
      ensures Valid()
      ensures var o := Step(old(View()), io); View() == o.s && o.sent == [] && ret == o.ret
    {
      ret := Fatal;
      if io.Want? {
        ret := WantIo;
      } else if io.Got? && io.data[0] == 0 {
        ret, state := Going, ReceiveMessage;
      }
    }

    /** One pass through the switch. */
    method Pass(io: Io) returns (sent: seq<byte>, ret: Ret)
      requires Valid() && Fits(View(), io)
      modifies this, msg
      ensures Valid()
      ensures var o := Step(old(View()), io); View() == o.s && sent == o.sent && ret == o.ret
    {
      hide TakeMessage, TakePart, MakeCall;
      sent, ret := [], Going;
      assert |View().msg| == msgSz;
      if state.Begin? {
        Callback(NewRequest, io.accept);
        state, next := SendConfirmation, ReceiveMessage;
      } else if state.ReceiveMessage? {
        ret := DoMessage(io);
      } else if state.SendConfirmation? {
        sent, ret := DoConfirm(io);
      } else if state.ReceiveConfirmation? {
        ret := DoReceipt(io);
      } else if state.ReceiveFile? {
        if io.Want? {
          ret := WantIo;
        } else if io.Got? {
          DoPart(io.data, io.accept, io.acceptDone);
        } else {
          ret := Fatal;
        }
      }
    }

    /** DoScpSink over any run: passes until the transfer is done, must wait or has
        failed, and none after that. */
    method DoScpSink(ios: seq<Io>, ghost h: Hist) returns (used: nat, sent: seq<byte>, ret: Ret)
      requires Valid() && Runs(Run(View(), h, [], Going), ios)
      modifies this, msg
      ensures Valid() && used <= |ios| && Runs(Run(old(View()), h, [], Going), ios[..used])
      ensures var r := Final(Run(old(View()), h, [], Going), ios[..used]);
              View() == r.s && sent == r.sent && ret == r.ret
      ensures used < |ios| ==> ret != Going || state.Done?
      ensures forall k :: 0 <= k < used ==>
                && Runs(Run(old(View()), h, [], Going), ios[..k])
                && var r := Final(Run(old(View()), h, [], Going), ios[..k]); r.ret == Going && !r.s.state.Done?
    {
      hide Fits, Step, Observe, Refused;
      ghost var r0 := Run(View(), h, [], Going);
      used, sent, ret := 0, [], Going;
      assert ios[..0] == [];
      while used < |ios| && ret.Going? && !state.Done?
        invariant Valid() && used <= |ios|
        invariant Runs(r0, ios[..used])
        invariant var r := Final(r0, ios[..used]); r.s == View() && r.sent == sent && r.ret == ret
        invariant forall k :: 0 <= k < used ==>
                    Runs(r0, ios[..k]) && Final(r0, ios[..k]).ret == Going && !Final(r0, ios[..k]).s.state.Done?
        decreases |ios| - used
      {
        RunExtends(r0, ios, used);
        var out;
        out, ret := Pass(ios[used]);
        sent := sent + out;
        used := used + 1;
      }
    }
  }
}
