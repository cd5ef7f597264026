/** src/remote-player.c: the client half of the playback protocol. A file stands for the file
    descriptor opened on it. `Play` is asynchronous and its reply is the "finished" signal;
    `Stop` is a synchronous call. */
module RemotePlayers {
  import opened Common

  /** Method calls on the helper; the n-th Play of a client carries serial n. */
  datatype Request = Play(serial: nat, file: string) | Stop

  datatype Client = Client(
    ready: bool,             // the player proxy exists and the player said it is ready
    pending: Option<string>, // the pending file descriptor
    started: bool,
    plays: nat,              // how many Play calls have been made
    criticals: nat)          // how often "Player is already playing" was logged

  const NEW_CLIENT := Client(false, None, false, 0, 0)

  /** Makes the Play call if the player is ready and a file is pending. */
  function MaybeStart(c: Client): (Client, seq<Request>) {
    if c.ready && c.pending.Some? then
      (c.(pending := None, started := true, plays := c.plays + 1), [Play(c.plays, c.pending.value)])
    else
      (c, [])
  }

  function PlayFile(c: Client, file: string): (Client, seq<Request>) {
    if c.pending.Some? || c.started then (c.(criticals := c.criticals + 1), [])
    else MaybeStart(c.(pending := Some(file)))
  }

  /** A file that is still pending is dropped without any call, and without a signal. */
  function StopPlaying(c: Client): (Client, seq<Request>) {
    if c.pending.Some? then (c.(pending := None), []) else (c, [Stop])
  }

  class RemotePlayer {
    var ready: bool
    var pendingFd: Option<string>
    var started: bool
    var plays: nat
    var criticals: nat
    var sent: seq<Request>   // everything put on the bus
    var finished: nat        // how often "finished" was emitted

    function Value(): Client
      reads this
    {
      Client(ready, pendingFd, started, plays, criticals)
    }

    constructor ()
      ensures Value() == NEW_CLIENT && sent == [] && finished == 0
    {
      ready, pendingFd, started, plays, criticals, sent, finished := false, None, false, 0, 0, [], 0;
    }

    method RemotePlayerMaybeStart()
      modifies this`pendingFd, this`sent, this`plays, this`started
      ensures Value() == MaybeStart(old(Value())).0
      ensures sent == old(sent) + MaybeStart(old(Value())).1
    {
      if ready && pendingFd.Some? {
        var file := pendingFd.value;
        pendingFd := None;
        sent := sent + [Play(plays, file)];
        plays := plays + 1;
        started := true;
      }
    }

    method OnProxyReady()
      modifies this`ready, this`pendingFd, this`sent, this`plays, this`started
      ensures Value() == MaybeStart(old(Value()).(ready := true)).0
      ensures sent == old(sent) + MaybeStart(old(Value()).(ready := true)).1
    {
      ready := true;
      RemotePlayerMaybeStart();
    }

    method PlayFd(file: string)
      modifies this`pendingFd, this`sent, this`plays, this`started, this`criticals
      ensures Value() == PlayFile(old(Value()), file).0
      ensures sent == old(sent) + PlayFile(old(Value()), file).1
    {
      if pendingFd.Some? || started {
        criticals := criticals + 1;
        return;
      }
      pendingFd := Some(file);
      RemotePlayerMaybeStart();
    }

    method StopPlayer()
      modifies this`pendingFd, this`sent
      ensures Value() == StopPlaying(old(Value())).0
      ensures sent == old(sent) + StopPlaying(old(Value())).1
    {
      if pendingFd.Some? {
        pendingFd := None;
      } else {
        sent := sent + [Stop];
      }
    }

    /** The reply of a Play call, an error reply included, except when the call was cancelled. */
    method OnPlayReply(cancelled: bool)
      modifies this`started, this`finished
      ensures Value() == if cancelled then old(Value()) else old(Value()).(started := false)
      ensures finished == old(finished) + if cancelled then 0 else 1
    {
      if cancelled {
        return;
      }
      started := false;
      finished := finished + 1;
    }
  }
}
