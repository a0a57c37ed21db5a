/** cmd/pocket-tail/main.go: the check that the credentials file is private,
    and the poll loop that prints the URL of every new item. Reading the file,
    sleeping and the requests are left to the caller: the loop runs over the
    replies it receives, in order. */
module PocketTail {
  import opened Wrappers
  import opened GoLib
  import Pocket

  /** The tag every poll asks for. */
  const DefaultTag: string := "rm"

  /** os.FileMode.Perm: the nine rwx bits of a file mode. */
  function Perm(mode: bv32): bv32
  {
    mode & 0x1FF
  }

  function GroupBits(perm: bv32): bv32
  {
    (perm >> 3) & 7
  }

  function OtherBits(perm: bv32): bv32
  {
    perm & 7
  }

  /** The credentials file is refused when `perm & 0b000111111` is non-zero:
      exactly when the group or the others have any permission on it. */
  function TooOpen(mode: bv32): (refused: bool)
    ensures refused <==> GroupBits(Perm(mode)) != 0 || OtherBits(Perm(mode)) != 0
  {
    Perm(mode) & 0x3F != 0
  }

  /** 0600, 0400 and 0700 are accepted; 0640 and 0604 are refused (in hexadecimal). */
  lemma TooOpenExamples()
    ensures !TooOpen(0x180) && !TooOpen(0x100) && !TooOpen(0x1C0)
    ensures TooOpen(0x1A0) && TooOpen(0x184)
  {
  }

  /** The options of a poll: Since(since), WithTag("rm") and Unread, in that order. */
  function Request(since: int64): (o: Pocket.Options)
    ensures o == Pocket.Defaults.(state := "unread", tag := DefaultTag, since := since)
  {
    var opts := [Pocket.Since(since), Pocket.WithTag(DefaultTag), Pocket.Unread];
    var o1 := Pocket.Applied(Pocket.Defaults, opts[0]);
    var o2 := Pocket.Applied(o1, opts[1]);
    assert opts[1..] == [Pocket.WithTag(DefaultTag), Pocket.Unread];
    assert opts[1..][1..] == [Pocket.Unread];
    assert opts[1..][1..][1..] == [];
    assert Pocket.AppliedAll(o2, opts[1..][1..]) == Pocket.Applied(o2, Pocket.Unread);
    assert Pocket.AppliedAll(o1, opts[1..]) == Pocket.AppliedAll(o2, opts[1..][1..]);
    Pocket.AppliedAll(Pocket.Defaults, opts)
  }

  /** What one poll returns: Retrieve's result, or its error (with a nil result). */
  type Reply = Result<Pocket.RetrieveResult, Pocket.Error>

  /** How far the loop as written gets over a run of replies: the polls made,
      and whether the last of them crashed it. */
  datatype Outcome = Outcome(polls: nat, crashed: bool)

  /** The loop as written reads `res.Since` before it looks at the error, and
      Retrieve returns a nil result with every error: the first failed poll
      dereferences nil and ends the program. */
  function PollsAsWritten(replies: seq<Reply>): Outcome
  {
    if replies == [] then Outcome(0, false)
    else if replies[0].Failure? then Outcome(1, true)
    else
      var o := PollsAsWritten(replies[1..]);
      Outcome(o.polls + 1, o.crashed)
  }

  /** As written, the loop crashes exactly when some poll fails, at the first failure. */
  lemma {:induction false} CrashAtFirstFailure(replies: seq<Reply>)
    ensures var o := PollsAsWritten(replies);
            && o.polls <= |replies|
            && (o.crashed <==> exists i :: 0 <= i < |replies| && replies[i].Failure?)
            && (o.crashed ==> 0 < o.polls && replies[o.polls - 1].Failure?)
            && (forall i :: 0 <= i < o.polls - 1 ==> replies[i].Success?)
            && (!o.crashed ==> o.polls == |replies|)
  {
    if replies != [] && replies[0].Success? {
      var rest := replies[1..];
      CrashAtFirstFailure(rest);
      var o := PollsAsWritten(rest);
      if o.crashed {
        var i :| 0 <= i < |rest| && rest[i].Failure?;
        assert replies[i + 1].Failure?;
      }
      forall i | 0 <= i < o.polls
        ensures replies[i].Success?
      {
        if i > 0 {
          assert replies[i] == rest[i - 1];
        }
      }
      if exists i :: 0 <= i < |replies| && replies[i].Failure? {
        var i :| 0 <= i < |replies| && replies[i].Failure?;
        assert rest[i - 1].Failure?;
      }
    }
  }

  /** A single poll that fails because the service cannot be reached. */
  lemma UnreachableServiceCrashes()
    ensures PollsAsWritten([Failure(Pocket.RequestFailed("connection refused"))]) == Outcome(1, true)
  {
  }

  /** The cursor of the i-th poll as evidently intended: 0 first, the last
      reply's since + 1 after a successful poll, unchanged after a failed one
      (as Auth.Tail does). */
  function Cursor(replies: seq<Reply>, i: nat): int64
    requires i <= |replies|
  {
    if i == 0 then 0
    else if replies[i - 1].Success? then Inc(replies[i - 1].value.since)
    else Cursor(replies, i - 1)
  }

  /** The cursor is 0 until a poll succeeds. */
  lemma {:induction false} CursorBeforeAnySuccess(replies: seq<Reply>, i: nat)
    requires i <= |replies|
    requires forall j :: 0 <= j < i ==> replies[j].Failure?
    ensures Cursor(replies, i) == 0
  {
    if i > 0 {
      CursorBeforeAnySuccess(replies, i - 1);
    }
  }

  /** After a successful poll j, the cursor is its since + 1 until the next
      successful poll. */
  lemma {:induction false} CursorFollowsLastSuccess(replies: seq<Reply>, i: nat, j: nat)
    requires j < i <= |replies| && replies[j].Success?
    requires forall k :: j < k < i ==> replies[k].Failure?
    ensures Cursor(replies, i) == Inc(replies[j].value.since)
  {
    if j < i - 1 {
      CursorFollowsLastSuccess(replies, i - 1, j);
    }
  }

  /** The pause before the i-th poll: none first, then the interval. */
  function Pause(interval: nat, i: nat): nat
  {
    if i == 0 then 0 else interval
  }

  /** The line printed for each item, in order. */
  function TargetUrls(items: seq<Pocket.Item>): (urls: seq<string>)
    ensures |urls| == |items|
    ensures forall i :: 0 <= i < |items| ==>
              urls[i] == FirstNonEmpty([items[i].resolvedUrl, items[i].givenUrl])
  {
    seq(|items|, i requires 0 <= i < |items| => Pocket.TargetUrl(items[i]))
  }

  /** Everything printed for a run of replies: the URLs of the successful
      polls' items; a failed poll prints nothing. */
  function Printed(replies: seq<Reply>): seq<string>
  {
    if replies == [] then []
    else
      var last := replies[|replies| - 1];
      Printed(replies[..|replies| - 1]) + (if last.Success? then TargetUrls(last.value.items) else [])
  }

  /** The poll loop of main as evidently intended, one iteration per reply:
      the pauses taken, the requests made and the lines printed; a failed poll
      is logged and leaves the cursor alone. */
  method PollLoop(interval: nat, replies: seq<Reply>)
    returns (pauses: seq<nat>, requests: seq<Pocket.Options>, printed: seq<string>)
    ensures |pauses| == |replies| && |requests| == |replies|
    ensures forall i :: 0 <= i < |replies| ==> pauses[i] == Pause(interval, i)
    ensures forall i :: 0 <= i < |replies| ==> requests[i] == Request(Cursor(replies, i))
    ensures printed == Printed(replies)
  {
    var since: int64 := 0;
    var sleepInterval := 0;
    pauses, requests, printed := [], [], [];
    for i := 0 to |replies|
      invariant |pauses| == i && |requests| == i
      invariant since == Cursor(replies, i) && sleepInterval == Pause(interval, i)
      invariant forall j :: 0 <= j < i ==> pauses[j] == Pause(interval, j)
      invariant forall j :: 0 <= j < i ==> requests[j] == Request(Cursor(replies, j))
      invariant printed == Printed(replies[..i])
    {
      assert replies[..i + 1][..i] == replies[..i];
      pauses := pauses + [sleepInterval];
      requests := requests + [Request(since)];
      var res := replies[i];
      sleepInterval := interval;
      if res.Failure? {
        continue;
      }
      since := Inc(res.value.since);
      var items := res.value.items;
      ghost var before := printed;
      for k := 0 to |items|
        invariant printed == before + TargetUrls(items[..k])
      {
        assert TargetUrls(items[..k + 1]) == TargetUrls(items[..k]) + [Pocket.TargetUrl(items[k])];
        printed := printed + [Pocket.TargetUrl(items[k])];
      }
      assert items[..|items|] == items;
    }
    assert replies[..|replies|] == replies;
  }
}
