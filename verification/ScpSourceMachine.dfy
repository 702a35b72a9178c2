/**
 * DoScpSource as the session object runs it: its fields change pass by pass, the
 * file buffer is filled behind what is still in it and shifted down in place
 * after a short send. Each pass is proved to be a step of the source machine.
 */
module ScpSourceMachine {
  import opened Bytes
  import opened ScpText
  import opened ScpSource

  /** A run cut in two. */
  lemma {:induction false} RunSplits(r: Run, ios: seq<Io>, k: nat)
    requires Runs(r, ios) && k <= |ios|
    ensures Runs(r, ios[..k]) && Runs(Final(r, ios[..k]), ios[k..])
    decreases k
  {
    hide Fits, After;
    if k == 0 {
      assert ios[..0] == [] && ios[0..] == ios;
    } else {
      RunSplits(After(r, ios[0]), ios[1..], k - 1);
      assert ios[..k][1..] == ios[1..][..k - 1] && ios[1..][k - 1..] == ios[k..];
    }
  }

  lemma {:induction false} RunExtends(r: Run, ios: seq<Io>, k: nat)
    requires Runs(r, ios) && k < |ios|
    ensures Runs(r, ios[..k]) && Runs(r, ios[..k + 1])
    ensures Fits(Final(r, ios[..k]).s, ios[k])
    ensures Final(r, ios[..k + 1]) == After(Final(r, ios[..k]), ios[k])
    decreases k
  {
    hide Fits, After;
    RunSplits(r, ios, k);
    RunSplits(r, ios, k + 1);
    if k == 0 {
      assert ios[..0] == [] && ios[..1][1..] == [];
    } else {
      RunExtends(After(r, ios[0]), ios[1..], k - 1);
      assert ios[..k][1..] == ios[1..][..k - 1] && ios[..k + 1][1..] == ios[1..][..k];
    }
  }

  class Machine {
    var state: State
    var next: State
    var request: Request
    var aborting: bool
    const recursive: bool
    const preserve: bool
    var name: seq<byte>
    var mode: nat
    var mtime: nat
    var atime: nat
    var size: nat
    const buffer: array<byte>
    var bufferedSz: nat
    var offset: nat
    var headerSent: bool
    var noProgress: bool

    ghost predicate Valid()
      reads this
    {
      buffer.Length == BUFFER_SZ && bufferedSz <= BUFFER_SZ
    }

    ghost function View(): Source
      reads this, buffer
      requires Valid()
    {
      Source(state, next, request, aborting, recursive, preserve, name, mode, mtime, atime, size,
             buffer[..bufferedSz], offset, headerSent, noProgress)
    }

    constructor (recursive: bool, preserve: bool)
      ensures Valid() && View() == Start(recursive, preserve) && fresh(buffer)
    {
      state, next, request, aborting := Begin, Done, if recursive then Recursive else Single, false;
      this.recursive, this.preserve := recursive, preserve;
      name, mode, mtime, atime, size := [], 0, 0, 0, 0;
      buffer := new byte[BUFFER_SZ](_ => 0);
      bufferedSz, offset, headerSent, noProgress := 0, 0, false, false;
    }

    /** The callback writes into the room behind the buffered data. */
    method Fill(data: seq<byte>)
      requires Valid() && bufferedSz + |data| <= BUFFER_SZ
      modifies buffer, `bufferedSz
      ensures Valid() && buffer[..bufferedSz] == old(buffer[..bufferedSz]) + data
    {
      ghost var was := buffer[..bufferedSz];
      for i := 0 to |data|
        modifies buffer
        invariant buffer[..bufferedSz + i] == was + data[..i]
      {
        buffer[bufferedSz + i] := data[i];
      }
      bufferedSz := bufferedSz + |data|;
    }

    /** Moves what was not sent to the front. */
    method Shift(sent: nat)
      requires Valid() && sent <= bufferedSz
      modifies buffer, `bufferedSz
      ensures Valid() && buffer[..bufferedSz] == old(buffer[..bufferedSz])[sent..]
    {
      if sent != bufferedSz {
        var left := bufferedSz - sent;
        for i := 0 to left
          modifies buffer
          invariant forall k :: 0 <= k < i ==> buffer[k] == old(buffer[sent + k])
          invariant forall k :: i <= k < bufferedSz ==> buffer[k] == old(buffer[k])
        {
          buffer[i] := buffer[sent + i];
        }
      }
      bufferedSz := bufferedSz - sent;
    }

    /** SCP_TRANSFER: dispatch on what the callback answered. */
    method DoTransfer(a: Answer) returns (ret: Ret)
      requires Valid() && state.Transfer? && bufferedSz == 0 && !a.Accept?
      requires a.Fresh? || a.More? ==> |a.data| <= BUFFER_SZ
      modifies this, buffer
      ensures Valid() && View() == Dispatch(old(View()), a).s && ret == Dispatch(old(View()), a).ret
    {
      ret := Going;
      if a.EnterDir? {
        name, mode, state := a.name, a.mode, SendEnterDir;
      } else if a.ExitDir? {
        state := SendExitDir;
      } else if a.ExitDirFinal? {
        state := SendExitDirFinal;
      } else if a.Complete? {
        state := Done;
      } else if a.Abort? {
        aborting, state, next := true, SendConfirmation, Done;
      } else if a.Failed? {
        ret := Fatal;
      } else {
        TakeData(a);
      }
    }

    /** File data, with the metadata of a new file. */
    method TakeData(a: Answer)
      requires Valid() && state.Transfer? && bufferedSz == 0 && (a.Fresh? || a.More?) && |a.data| <= BUFFER_SZ
      modifies this, buffer
      ensures Valid() && View() == Dispatch(old(View()), a).s
    {
      if a.Fresh? {
        name, mode, mtime, atime, size := a.name, a.mode, a.mtime, a.atime, a.size;
      }
      Fill(a.data);
      aborting := false;
      state := if headerSent then SendFile else if preserve then SendTimestamp else SendFileHeader;
    }

    /** SCP_SEND_FILE once the channel has taken what it takes. */
    method RouteOn() returns (ret: Ret)
      requires Valid() && state.SendFile?
      modifies this
      ensures Valid()
      ensures var o := Route(old(View()), []); View() == o.s && ret == o.ret
    {
      ret := Going;
      assert |buffer[..bufferedSz]| == bufferedSz;
      if bufferedSz > 0 {
        // still data to send: repeat this state
      } else if offset < size {
        if noProgress {
          ret := Fatal;
        } else {
          noProgress, state, request := true, Transfer, Continue;
        }
      } else {
        state := ConfirmWithReceipt;
        if recursive {
          offset, bufferedSz, headerSent, noProgress, atime, mtime := 0, 0, false, false, 0, 0;
          next, request := Transfer, Recursive;
        } else {
          next := Done;
        }
      }
    }

    /** The channel took n octets. */
    method Took(n: nat) returns (sent: seq<byte>)
      requires Valid() && n <= bufferedSz
      modifies this, buffer
      ensures Valid() && sent == old(buffer[..n]) && View() == Shifted(old(View()), n)
    {
      sent := buffer[..n];
      offset := offset + n;
      if n > 0 {
        noProgress := false;
      }
      Shift(n);
    }

    /** SCP_SEND_FILE */
    method DoSendFile(io: Io) returns (sent: seq<byte>, ret: Ret)
      requires Valid() && state.SendFile?
      requires if bufferedSz == 0 then io.Tick?
               else (io.Took? && io.n <= bufferedSz) || io.Want? || io.ExtData? || io.Broken?
      modifies this, buffer
      ensures Valid()
      ensures Fits(old(View()), io)
      ensures var o := SendData(old(View()), io); View() == o.s && sent == o.sent && ret == o.ret
    {
      hide Route;
      sent, ret := [], Going;
      assert |buffer[..bufferedSz]| == bufferedSz;
      if io.Took? {
        assert buffer[..io.n] == buffer[..bufferedSz][..io.n];
        sent := Took(io.n);
        ghost var mid := View();
        ret := RouteOn();
        RouteSends(mid, sent);
      } else if io.Tick? {
        ghost var was := View();
        ret := RouteOn();
        RouteSends(was, []);
      } else if io.Want? {
        ret := WantIo;
      } else if io.ExtData? {
        ret := Stderr;
      } else {
        ret := Fatal;
      }
    }

    /** Where the machine goes once its line is out. */
    method Advance()
      requires Valid() && ScpSource.SendsLine(state)
      modifies this
      ensures Valid() && View() == AfterLine(old(View()))
    {
      if state.SendTimestamp? {
        state, next := RecvConfirmation, SendFileHeader;
      } else if state.SendEnterDir? || state.SendExitDir? {
        state, next := RecvConfirmation, Transfer;
      } else if state.SendExitDirFinal? {
        state, next := RecvConfirmation, Done;
      } else if state.SendFileHeader? {
        headerSent, state, next := true, RecvConfirmation, SendFile;
      } else if state.ConfirmWithReceipt? {
        state := RecvConfirmation;
      } else {
        state := next;
      }
    }

    method BuildLine() returns (line: seq<byte>)
      requires Valid() && ScpSource.SendsLine(state)
      ensures line == LineOf(View())
    {
      if state.SendTimestamp? {
        line := TimeLine(mtime, atime);
      } else if state.SendEnterDir? {
        line := DirLine(mode, name);
      } else if state.SendFileHeader? {
        line := FileLine(mode, size, name);
      } else if SendsConfirmation(state) {
        line := if aborting then [1] else [0];
      } else {
        line := END_LINE;
      }
    }

    /** The states that send one control line or a confirmation. */
    method DoSendLine(io: Io) returns (sent: seq<byte>, ret: Ret)
      requires Valid() && ScpSource.SendsLine(state) && Fits(View(), io)
      modifies this
      ensures Valid()
      ensures var o := SendLine(old(View()), io); View() == o.s && sent == o.sent && ret == o.ret
    {
      hide LineOf, AfterLine;
      var line := BuildLine();
      sent, ret := [], Fatal;
      if io.Want? {
        ret := WantIo;
      } else if io.Took? {
        sent := line[..io.n];
        if io.n == |line| && !(aborting && SendsConfirmation(state)) {
          assert sent == line;
          ret := Going;
          Advance();
        }
      }
    }

    /** The states that wait for a confirmation. */
    method DoReceive(io: Io) returns (ret: Ret)
      requires Valid() && ScpSource.Receives(state) && Fits(View(), io)
      modifies this
      ensures Valid()
      ensures var o := ReceiveConfirmation(old(View()), io); View() == o.s && o.sent == [] && ret == o.ret
    {
      ret := Going;
      if io.Want? {
        ret := WantIo;
      } else if io.Got? && io.data[0] == 0 {
        state := if state.RecvConfirmation? then next else SendConfirmation;
      } else {
        ret := Fatal;
      }
    }

    /** The states before the first confirmation. */
    method DoStart(io: Io)
      requires Valid() && (state.Begin? || state.Init?) && Fits(View(), io)
      modifies this
      ensures Valid() && View() == Step(old(View()), io).s
    {
      if state.Init? {
        offset, bufferedSz, headerSent, noProgress := 0, 0, false, false;
        state, next := RecvConfirmation, Transfer;
      } else if io.answer.Abort? {
        aborting, state, next := true, RecvConfirmWithReceipt, Done;
      } else {
        aborting, state := false, Init;
      }
    }

    /** One pass through the switch. */
    method Pass(io: Io) returns (sent: seq<byte>, ret: Ret)
      requires Valid() && Fits(View(), io) && (state.Transfer? ==> bufferedSz == 0)
      modifies this, buffer
      ensures Valid()
      ensures var o := Step(old(View()), io); View() == o.s && sent == o.sent && ret == o.ret
    {
      hide LineOf, Dispatch, SendData, SendLine, ReceiveConfirmation;
      sent, ret := [], Going;
      ghost var was := View();
      assert |was.buffer| == bufferedSz;
      if state.Transfer? {
        ret := DoTransfer(io.answer);
        TransferSendsNothing(was, io.answer);
      } else if state.SendFile? {
        sent, ret := DoSendFile(io);
      } else if ScpSource.SendsLine(state) {
        sent, ret := DoSendLine(io);
      } else if ScpSource.Receives(state) {
        ret := DoReceive(io);
      } else if !state.Done? {
        DoStart(io);
      }
    }

    /** DoScpSource: passes until the transfer is done, must wait, has drained stderr
        or has failed. Called again after a want or a stderr packet it goes on where
        it was. */
    method DoScpSource(ios: seq<Io>, ghost h: Hist) returns (used: nat, sent: seq<byte>, ret: Ret)
      requires Valid() && Conserved(View(), h) && Paced(View(), h) && Runs(Run(View(), h, [], Going), ios)
      modifies this, buffer
      ensures Valid() && used <= |ios| && Runs(Run(old(View()), h, [], Going), ios[..used])
      ensures var r := Final(Run(old(View()), h, [], Going), ios[..used]);
              View() == r.s && sent == r.sent && ret == r.ret
      ensures used < |ios| ==> ret != Going || state.Done?
      ensures forall k :: 0 <= k < used ==>
                && Runs(Run(old(View()), h, [], Going), ios[..k])
                && var r := Final(Run(old(View()), h, [], Going), ios[..k]); r.ret == Going && !r.s.state.Done?
    {
      hide Fits, Step, Conserved, Paced, Observe;
      ghost var r0 := Run(View(), h, [], Going);
      used, sent, ret := 0, [], Going;
      assert ios[..0] == [];
      while used < |ios| && ret.Going? && !state.Done?
        invariant Valid() && used <= |ios|
        invariant Runs(r0, ios[..used])
        invariant var r := Final(r0, ios[..used]); r.s == View() && r.sent == sent && r.ret == ret
        invariant forall k :: 0 <= k < used ==>
                    Runs(r0, ios[..k]) && Final(r0, ios[..k]).ret == Going && !Final(r0, ios[..k]).s.state.Done?
        decreases |ios| - used
      {
        RunExtends(r0, ios, used);
        RunConserves(r0, ios[..used]);
        if state.Transfer? {
          TransferFindsEmptyBuffer(View(), Final(r0, ios[..used]).h);
        }
        var out;
        out, ret := Pass(ios[used]);
        sent := sent + out;
        used := used + 1;
      }
    }
  }

  lemma TransferSendsNothing(s: Source, a: Answer)
    requires s.state.Transfer? && !a.Accept?
    ensures Dispatch(s, a).sent == []
  {
  }

  lemma RouteSends(s: Source, sent: seq<byte>)
    requires s.state.SendFile?
    ensures Route(s, sent) == Route(s, []).(sent := sent)
  {
  }

  lemma TransferFindsEmptyBuffer(s: Source, h: Hist)
    requires Conserved(s, h) && s.state.Transfer?
    ensures s.buffer == []
  {
  }
}
