/** The two halves of the player under any sequence of calls, not only those of the test runner:
    a helper that is called while it is busy or idle, and a client whose player is not ready. */
module PlayerCalls {
  import opened Common
  import opened RemotePlayers
  import opened ReplayHelpers

  // ---------------------------------------------------------------------------------
  // The helper answers every call

  datatype Call = CallPlay(serial: nat, file: string) | CallStop | DeviceEnds

  /** The helper after some calls, and everything it has replied. */
  datatype Served = Served(helper: Helper, replies: seq<Reply>)

  /** The end of a file reaches the helper only while the device plays. */
  function Serve(h: Helper, c: Call): Served {
    var (h', replies) :=
      match c
      case CallPlay(serial, file) => HandlePlay(h, serial, file)
      case CallStop => HandleStop(h)
      case DeviceEnds => if h.playing.Some? then StopDevice(h) else (h, []);
    Served(h', replies)
  }

  function ServeAll(calls: seq<Call>): Served {
    if calls == [] then Served(IDLE_HELPER, [])
    else
      var before := ServeAll(calls[..|calls| - 1]);
      var last := Serve(before.helper, calls[|calls| - 1]);
      Served(last.helper, before.replies + last.replies)
  }

  /** How often Play has been called with a serial. */
  function Called(calls: seq<Call>, n: nat): nat {
    if calls == [] then 0 else Called(calls[..|calls| - 1], n) + CalledBy(calls[|calls| - 1], n)
  }

  function CalledBy(c: Call, n: nat): nat {
    if c.CallPlay? && c.serial == n then 1 else 0
  }

  function Stops(calls: seq<Call>): nat {
    if calls == [] then 0 else Stops(calls[..|calls| - 1]) + if calls[|calls| - 1].CallStop? then 1 else 0
  }

  /** How often a Play with a serial has been answered. */
  function Answered(replies: seq<Reply>, n: nat): nat {
    if replies == [] then 0
    else
      var r := replies[|replies| - 1];
      Answered(replies[..|replies| - 1], n) + if r.PlayReply? && r.serial == n then 1 else 0
  }

  function StopReplies(replies: seq<Reply>): nat {
    if replies == [] then 0
    else StopReplies(replies[..|replies| - 1]) + if replies[|replies| - 1].StopReply? then 1 else 0
  }

  function Outstanding(h: Helper, n: nat): nat {
    if h.invocation == Some(n) then 1 else 0
  }

  lemma AnsweredSnoc(a: seq<Reply>, r: Reply, n: nat)
    ensures Answered(a + [r], n) == Answered(a, n) + if r.PlayReply? && r.serial == n then 1 else 0
    ensures StopReplies(a + [r]) == StopReplies(a) + if r.StopReply? then 1 else 0
  {
    assert (a + [r])[..|a|] == a;
  }

  predicate Consistent(h: Helper) {
    h.invocation.Some? <==> h.playing.Some?
  }

  /** One call, whom it answers and whom it ends, from the state of the helper. */
  lemma ServeOne(h: Helper, c: Call)
    requires Consistent(h)
    ensures var s := Serve(h, c);
            && (c.CallPlay? && h.invocation.Some? ==> s == Served(h, [PlayReply(c.serial, false)]))
            && (c.CallPlay? && h.invocation.None? ==> s == Served(Helper(Some(c.serial), Some(c.file)), []))
            && (c.CallStop? && h.invocation.None? ==> s == Served(h, [StopReply(false)]))
            && (c.CallStop? && h.invocation.Some? ==>
                  s == Served(IDLE_HELPER, [PlayReply(h.invocation.value, true), StopReply(true)]))
            && (c.DeviceEnds? && h.invocation.None? ==> s == Served(h, []))
            && (c.DeviceEnds? && h.invocation.Some? ==> s == Served(IDLE_HELPER, [PlayReply(h.invocation.value, true)]))
  {
  }

  predicate Balanced(s: Served, calls: seq<Call>, n: nat) {
    && Consistent(s.helper)
    && Answered(s.replies, n) + Outstanding(s.helper, n) == Called(calls, n)
    && StopReplies(s.replies) == Stops(calls)
  }

  lemma {:induction false} RepliesAppend(a: seq<Reply>, b: seq<Reply>, n: nat)
    ensures Answered(a + b, n) == Answered(a, n) + Answered(b, n)
    ensures StopReplies(a + b) == StopReplies(a) + StopReplies(b)
    decreases |b|
  {
    if b == [] {
      assert a + b == a;
    } else {
      var front, last := b[..|b| - 1], b[|b| - 1];
      RepliesAppend(a, front, n);
      AnsweredSnoc(a + front, last, n);
      assert a + b == a + front + [last];
    }
  }

  lemma OneOrTwo(r: Reply, q: Reply, n: nat)
    ensures Answered([r], n) == if r.PlayReply? && r.serial == n then 1 else 0
    ensures Answered([r, q], n) == Answered([r], n) + if q.PlayReply? && q.serial == n then 1 else 0
    ensures StopReplies([r]) == if r.StopReply? then 1 else 0
    ensures StopReplies([r, q]) == StopReplies([r]) + if q.StopReply? then 1 else 0
  {
    AnsweredSnoc([r], q, n);
    assert [r] + [q] == [r, q];
  }

  lemma OneBalanced(h: Helper, c: Call, n: nat)
    requires Consistent(h)
    ensures var s := Serve(h, c);
            && Consistent(s.helper)
            && Answered(s.replies, n) + Outstanding(s.helper, n) == Outstanding(h, n) + CalledBy(c, n)
            && StopReplies(s.replies) == (if c.CallStop? then 1 else 0)
  {
    ServeOne(h, c);
    if c.CallPlay? {
      OneOrTwo(PlayReply(c.serial, false), StopReply(false), n);
    } else if h.invocation.Some? {
      OneOrTwo(PlayReply(h.invocation.value, true), StopReply(true), n);
    } else {
      OneOrTwo(StopReply(false), StopReply(false), n);
    }
  }

  lemma BalancedStep(before: Served, front: seq<Call>, c: Call, last: Served, n: nat)
    requires Balanced(before, front, n) && last == Serve(before.helper, c)
    ensures Balanced(Served(last.helper, before.replies + last.replies), front + [c], n)
  {
    OneBalanced(before.helper, c, n);
    RepliesAppend(before.replies, last.replies, n);
    assert (front + [c])[..|front|] == front;
  }

  /** Whatever the calls, every Play is answered exactly once, except the one that is playing, and
      every Stop once; and the device plays exactly while a Play is open. */
  lemma {:induction false} EveryCallIsAnswered(calls: seq<Call>, n: nat)
    ensures var s := ServeAll(calls);
            && Consistent(s.helper)
            && Answered(s.replies, n) + Outstanding(s.helper, n) == Called(calls, n)
            && StopReplies(s.replies) == Stops(calls)
  {
    if calls != [] {
      var front, c := calls[..|calls| - 1], calls[|calls| - 1];
      EveryCallIsAnswered(front, n);
      assert calls == front + [c];
      BalancedStep(ServeAll(front), front, c, Serve(ServeAll(front).helper, c), n);
    }
  }

  // ---------------------------------------------------------------------------------
  // A client whose player is not ready

  /** The client after these files have been given to it, and what it has sent. */
  function PlayAll(c: Client, files: seq<string>): (Client, seq<Request>) {
    if files == [] then (c, [])
    else
      var (before, sent) := PlayAll(c, files[..|files| - 1]);
      var (after, more) := PlayFile(before, files[|files| - 1]);
      (after, sent + more)
  }

  /** Before the player is ready nothing is sent: the first file waits, and every other is refused
      with a message. */
  lemma {:induction false} FirstFileWaits(c: Client, files: seq<string>)
    requires !c.ready && c.pending.None? && !c.started && files != []
    ensures PlayAll(c, files).0 == c.(pending := Some(files[0]), criticals := c.criticals + (|files| - 1))
    ensures PlayAll(c, files).1 == []
  {
    var front := files[..|files| - 1];
    if front == [] {
      assert PlayAll(c, front) == (c, []);
    } else {
      FirstFileWaits(c, front);
    }
  }

  /** When the player becomes ready, that file is played, unless a stop has dropped it; then
      nothing is. */
  lemma WaitingFileIsPlayedOrDropped(c: Client, files: seq<string>)
    requires !c.ready && c.pending.None? && !c.started && files != []
    ensures var waiting := PlayAll(c, files).0;
            && MaybeStart(waiting.(ready := true)).1 == [Play(c.plays, files[0])]
            && MaybeStart(waiting.(ready := true)).0.started && MaybeStart(waiting.(ready := true)).0.pending.None?
            && StopPlaying(waiting).1 == []
            && MaybeStart(StopPlaying(waiting).0.(ready := true)).1 == []
            && !StopPlaying(waiting).0.started
  {
    FirstFileWaits(c, files);
  }
}
