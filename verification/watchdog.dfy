/**
 * The stream liveness watchdog of `start`: one shared `time` cell, written by
 * the stream's data handler and read and reset by the once-a-second poll
 * `forceStreamAlive`, which reconnects the stream when it has been silent for
 * longer than the configured timeout. The clock is passed in as `now`
 * (milliseconds); `0` means "no data seen since the last (re)connect".
 */
module StreamWatchdog {

  const Unset := 0

  /** The kinds of stream message the data handler tells apart: a disconnect
      notice, which is only logged; a tweet, which `filter` handles; and any
      other message without a `text` (a stall warning, a limit notice), which
      is handed to `filter` but makes it throw at `tweet.text.match`, so the
      handler never reaches its update of `time`. */
  datatype MessageKind = Disconnect | TweetMessage | NoText

  /** The data handler's update of `time`: only a tweet that `filter`
      handled stamps it with `now`; every other message leaves it alone. */
  function DataStep(time: int, now: int, kind: MessageKind): int
  {
    if kind == TweetMessage then now else time
  }

  /** One poll: the new `time` and whether the stream is reconnected. */
  function PollStep(time: int, now: int, timeout: int): (int, bool)
  {
    if time != Unset && now - time > timeout then (Unset, true) else (time, false)
  }

  /** What reaches the watchdog: a stream message, or a poll tick. */
  datatype Event = Data(now: int, kind: MessageKind) | Tick(now: int)

  /** The state after a run of events, and how many reconnects it made. */
  function Run(time: int, events: seq<Event>, timeout: int): (int, nat)
    decreases |events|
  {
    if |events| == 0 then (time, 0)
    else
      match events[0]
      case Data(now, kind) =>
        Run(DataStep(time, now, kind), events[1..], timeout)
      case Tick(now) =>
        var (t, reconnect) := PollStep(time, now, timeout);
        var (t', n) := Run(t, events[1..], timeout);
        (t', n + (if reconnect then 1 else 0))
  }

  /** No tweet arrives: every message is a disconnect notice or has no text. */
  predicate Silent(events: seq<Event>)
  {
    forall k :: 0 <= k < |events| ==> events[k].Data? ==> events[k].kind != TweetMessage
  }

  /** Some poll tick of the run sees the stream silent for too long,
      measured from `time`. */
  predicate SomeTickExpires(time: int, events: seq<Event>, timeout: int)
  {
    exists k :: 0 <= k < |events| && events[k].Tick? && events[k].now - time > timeout
  }

  /** While `time` is unset, polling never reconnects and never changes it. */
  lemma {:induction false} UnsetNeverReconnects(events: seq<Event>, timeout: int)
    requires Silent(events)
    ensures Run(Unset, events, timeout) == (Unset, 0)
    decreases |events|
  {
    if |events| > 0 {
      assert Silent(events[1..]) by {
        forall k | 0 <= k < |events[1..]| && events[1..][k].Data? ensures events[1..][k].kind != TweetMessage {
          assert events[1..][k] == events[k + 1];
        }
      }
      UnsetNeverReconnects(events[1..], timeout);
    }
  }

  /** A silent stream whose `time` was set is reconnected exactly once when
      some poll sees it expired, and not at all otherwise: after the
      reconnect `time` is unset, so no later poll reconnects again until new
      data arrives. */
  lemma {:induction false} SilentReconnectsOnce(time: int, events: seq<Event>, timeout: int)
    requires time != Unset
    requires Silent(events)
    ensures Run(time, events, timeout).1 == (if SomeTickExpires(time, events, timeout) then 1 else 0)
    ensures Run(time, events, timeout).0 == (if SomeTickExpires(time, events, timeout) then Unset else time)
    decreases |events|
  {
    if |events| > 0 {
      var rest := events[1..];
      assert Silent(rest) by {
        forall k | 0 <= k < |rest| && rest[k].Data? ensures rest[k].kind != TweetMessage {
          assert rest[k] == events[k + 1];
        }
      }
      assert SomeTickExpires(time, rest, timeout) ==> SomeTickExpires(time, events, timeout) by {
        if SomeTickExpires(time, rest, timeout) {
          var k :| 0 <= k < |rest| && rest[k].Tick? && rest[k].now - time > timeout;
          assert events[k + 1] == rest[k];
        }
      }
      if events[0].Tick? && events[0].now - time > timeout {
        UnsetNeverReconnects(rest, timeout);
        assert SomeTickExpires(time, events, timeout);
      } else {
        SilentReconnectsOnce(time, rest, timeout);
        assert SomeTickExpires(time, events, timeout) ==> SomeTickExpires(time, rest, timeout) by {
          if SomeTickExpires(time, events, timeout) {
            var k :| 0 <= k < |events| && events[k].Tick? && events[k].now - time > timeout;
            assert k > 0;
            assert rest[k - 1] == events[k];
          }
        }
      }
    }
  }

  /** In any run without new data, the watchdog reconnects at most once. */
  lemma SilentAtMostOnce(time: int, events: seq<Event>, timeout: int)
    requires Silent(events)
    ensures Run(time, events, timeout).1 <= 1
  {
    if time == Unset {
      UnsetNeverReconnects(events, timeout);
    } else {
      SilentReconnectsOnce(time, events, timeout);
    }
  }

  /** A tweet re-arms the watchdog with its own time, whatever came before;
      a disconnect notice or a message without text leaves the state as it
      was. */
  lemma DataRearms(time: int, now: int, kind: MessageKind, events: seq<Event>, timeout: int)
    ensures kind == TweetMessage ==> Run(time, [Data(now, kind)] + events, timeout) == Run(now, events, timeout)
    ensures kind != TweetMessage ==> Run(time, [Data(now, kind)] + events, timeout) == Run(time, events, timeout)
  {
  }

  /** The watchdog state of one started data source. */
  class Watchdog {
    /** Time of the last tweet handled, or `Unset`. */
    var time: int
    /** `twitter.timeout`, in milliseconds. */
    const timeout: int

    /** `start`: `time` begins unset. */
    constructor (timeout: int)
      ensures this.timeout == timeout && time == Unset
    {
      this.timeout := timeout;
      time := Unset;
    }

    /** The stream's `data` handler. The message is handed to `filter`
        exactly when it is not a disconnect notice; `time` is set only when
        `filter` returns, which is for a tweet and not for a message without
        text. */
    method OnData(now: int, kind: MessageKind) returns (dispatch: bool)
      modifies this
      ensures dispatch == (kind != Disconnect)
      ensures kind == TweetMessage ==> time == now
      ensures kind != TweetMessage ==> time == old(time)
      ensures time == DataStep(old(time), now, kind)
    {
      dispatch := kind != Disconnect;
      if kind == TweetMessage {
        time := now;
      }
    }

    /** `forceStreamAlive`: with `time` set and more than `timeout`
        elapsed, unset `time` and reconnect; otherwise do nothing. */
    method Poll(now: int) returns (reconnect: bool)
      modifies this
      ensures reconnect <==> old(time) != Unset && now - old(time) > timeout
      ensures time == if reconnect then Unset else old(time)
      ensures (time, reconnect) == PollStep(old(time), now, timeout)
    {
      reconnect := false;
      if time != Unset {
        if now - time > timeout {
          time := Unset;
          reconnect := true;
        }
      }
    }
  }

  /** Two polls with no data between them: the first reconnects an expired
      stream, the second does not reconnect it again. */
  method PollTwice(w: Watchdog, first: int, second: int) returns (r1: bool, r2: bool)
    requires w.time != Unset && first - w.time > w.timeout
    modifies w
    ensures r1 && !r2 && w.time == Unset
  {
    r1 := w.Poll(first);
    r2 := w.Poll(second);
  }
}
