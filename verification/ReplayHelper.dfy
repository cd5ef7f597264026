/** src/replay-helper.c: the helper half of the playback protocol, on top of a device player
    that has at most one file open. */
module ReplayHelpers {
  import opened Common

  datatype Reply = PlayReply(serial: nat, ok: bool) | StopReply(ok: bool)

  datatype Helper = Helper(
    invocation: Option<nat>,   // the Play call that has not been answered
    playing: Option<string>)   // the file the device player has open

  const IDLE_HELPER := Helper(None, None)

  /** The handler of the device player's "finished": it answers the Play call. */
  function AnswerPlay(h: Helper): (Helper, seq<Reply>)
    requires h.invocation.Some?
  {
    (h.(invocation := None), [PlayReply(h.invocation.value, true)])
  }

  /** The device player closes its file and emits "finished", handled if a Play is open. */
  function StopDevice(h: Helper): (Helper, seq<Reply>) {
    var closed := h.(playing := None);
    if closed.invocation.Some? then AnswerPlay(closed) else (closed, [])
  }

  function HandlePlay(h: Helper, serial: nat, file: string): (Helper, seq<Reply>) {
    if h.invocation.Some? then (h, [PlayReply(serial, false)])
    else (Helper(Some(serial), Some(file)), [])
  }

  function HandleStop(h: Helper): (Helper, seq<Reply>) {
    if h.invocation.None? then (h, [StopReply(false)])
    else (StopDevice(h).0, StopDevice(h).1 + [StopReply(true)])
  }

  class ReplayHelper {
    var invocation: Option<nat>
    var finishedConnection: nat      // 0 when the handler is not connected
    var playing: Option<string>
    var replies: seq<Reply>          // everything sent back

    ghost predicate Valid()
      reads this
    {
      finishedConnection != 0 <==> invocation.Some?
    }

    function Value(): Helper
      reads this
    {
      Helper(invocation, playing)
    }

    constructor ()
      ensures Valid() && Value() == IDLE_HELPER && replies == []
    {
      invocation, finishedConnection, playing, replies := None, 0, None, [];
    }

    method OnPlayerFinished()
      requires Valid() && invocation.Some?
      modifies this
      ensures Valid()
      ensures Value() == AnswerPlay(old(Value())).0
      ensures replies == old(replies) + AnswerPlay(old(Value())).1
    {
      finishedConnection := 0;
      replies := replies + [PlayReply(invocation.value, true)];
      invocation := None;
    }

    /** Stopping the device player; also what its timer does at the end of the file. */
    method StopDevicePlayer()
      requires Valid()
      modifies this
      ensures Valid()
      ensures Value() == StopDevice(old(Value())).0
      ensures replies == old(replies) + StopDevice(old(Value())).1
    {
      playing := None;
      if finishedConnection != 0 {
        OnPlayerFinished();
      }
    }

    method HandlePlayCall(serial: nat, file: string)
      requires Valid()
      modifies this
      ensures Valid()
      ensures Value() == HandlePlay(old(Value()), serial, file).0
      ensures replies == old(replies) + HandlePlay(old(Value()), serial, file).1
    {
      if invocation.Some? {
        replies := replies + [PlayReply(serial, false)];
        return;
      }
      playing := Some(file);
      invocation := Some(serial);
      finishedConnection := 1;
    }

    method HandleStopCall()
      requires Valid()
      modifies this
      ensures Valid()
      ensures Value() == HandleStop(old(Value())).0
      ensures replies == old(replies) + HandleStop(old(Value())).1
    {
      if invocation.None? {
        replies := replies + [StopReply(false)];
        return;
      }
      StopDevicePlayer();
      replies := replies + [StopReply(true)];
    }
  }
}
