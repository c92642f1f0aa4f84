/** What `wid_wrapper` makes of a window lookup: it sleeps 100 ms, probes,
    and reads the clock, until a probe finds the window or more than five
    seconds have passed since the start. The clock is checked after the
    probe, so a probe that finds the window only once the five seconds are
    over is discarded. Time is an integer number of milliseconds. */
module Polling {
  import opened Common
  import opened Logs

  /** Milliseconds after which the wrapper gives up. */
  const Deadline := 5000
  /** Milliseconds slept before every probe. */
  const Tick := 100
  /** The loop runs at most this many times: the 51st sleep takes the
      clock past the deadline. */
  const MaxProbes := 51

  /** Clock readings, one per iteration, in milliseconds since the start:
      reading `k` is taken after `k + 1` sleeps. Enough readings are
      supplied for any run of the loop. */
  predicate ClockAdvances(clock: seq<int>) {
    |clock| >= MaxProbes && forall k | 0 <= k < |clock| :: clock[k] >= Tick * (k + 1)
  }

  /** The iteration the loop leaves at, starting from iteration `k`. */
  function StopFrom(probes: seq<Option<Wid>>, clock: seq<int>, k: nat): (r: nat)
    requires ClockAdvances(clock) && |probes| >= MaxProbes && k < MaxProbes
    ensures k <= r < MaxProbes
    ensures clock[r] > Deadline || probes[r].Some?
    ensures forall j | k <= j < r :: clock[j] <= Deadline && probes[j].None?
    decreases MaxProbes - k
  {
    if clock[k] > Deadline || probes[k].Some? then k else StopFrom(probes, clock, k + 1)
  }

  /** What the wrapped `get_wid` returns. */
  function PollResult(probes: seq<Option<Wid>>, clock: seq<int>): Option<Wid>
    requires ClockAdvances(clock) && |probes| >= MaxProbes
  {
    var k := StopFrom(probes, clock, 0);
    if clock[k] > Deadline then None else probes[k]
  }

  /** What the wrapper logs: the window id when found; otherwise an error,
      the window list and a warning that posting will not work. */
  function PollLog(title: string, probes: seq<Option<Wid>>, clock: seq<int>): seq<LogRecord>
    requires ClockAdvances(clock) && |probes| >= MaxProbes
  {
    match PollResult(probes, clock)
    case Some(w) => [FoundWindow(title, w)]
    case None => [CantGetWindow(title), WindowListDump, CommunicationWillNotWork(title)]
  }

  /** Polling returns a window exactly when some probe finds it in time and
      every earlier probe, also in time, found nothing; it is that window. */
  lemma PollFindsFirstInTime(probes: seq<Option<Wid>>, clock: seq<int>, w: Wid)
    requires ClockAdvances(clock) && |probes| >= MaxProbes
    ensures PollResult(probes, clock) == Some(w) <==>
      exists k | 0 <= k < MaxProbes ::
        && clock[k] <= Deadline && probes[k] == Some(w)
        && forall j | 0 <= j < k :: clock[j] <= Deadline && probes[j].None?
  {
    var r := StopFrom(probes, clock, 0);
    if PollResult(probes, clock) == Some(w) {
      assert clock[r] <= Deadline && probes[r] == Some(w);
    }
    if exists k | 0 <= k < MaxProbes ::
        && clock[k] <= Deadline && probes[k] == Some(w)
        && forall j | 0 <= j < k :: clock[j] <= Deadline && probes[j].None?
    {
      var k :| 0 <= k < MaxProbes
        && clock[k] <= Deadline && probes[k] == Some(w)
        && forall j | 0 <= j < k :: clock[j] <= Deadline && probes[j].None?;
      assert r == k;
    }
  }

  /** Polling gives up exactly when the deadline passes before any probe
      has found the window. */
  lemma PollTimesOut(probes: seq<Option<Wid>>, clock: seq<int>)
    requires ClockAdvances(clock) && |probes| >= MaxProbes
    ensures PollResult(probes, clock).None? <==>
      exists k | 0 <= k < MaxProbes ::
        && clock[k] > Deadline
        && forall j | 0 <= j < k :: clock[j] <= Deadline && probes[j].None?
  {
    var r := StopFrom(probes, clock, 0);
    if exists k | 0 <= k < MaxProbes ::
        && clock[k] > Deadline
        && forall j | 0 <= j < k :: clock[j] <= Deadline && probes[j].None?
    {
      var k :| 0 <= k < MaxProbes
        && clock[k] > Deadline
        && forall j | 0 <= j < k :: clock[j] <= Deadline && probes[j].None?;
      assert r == k;
    }
  }

  /** A window seen by a probe after which the clock is past the deadline
      is not reported, when every earlier probe was in time and found
      nothing. */
  lemma LateWindowIsDiscarded(probes: seq<Option<Wid>>, clock: seq<int>, k: nat)
    requires ClockAdvances(clock) && |probes| >= MaxProbes && k < MaxProbes
    requires probes[k].Some? && clock[k] > Deadline
    requires forall j | 0 <= j < k :: clock[j] <= Deadline && probes[j].None?
    ensures PollResult(probes, clock) == None
  {
    StopAtFirst(probes, clock, k);
  }

  /** The loop leaves at the first iteration that finds the window or
      runs out the clock. */
  lemma StopAtFirst(probes: seq<Option<Wid>>, clock: seq<int>, k: nat)
    requires ClockAdvances(clock) && |probes| >= MaxProbes && k < MaxProbes
    requires clock[k] > Deadline || probes[k].Some?
    requires forall j | 0 <= j < k :: clock[j] <= Deadline && probes[j].None?
    ensures StopFrom(probes, clock, 0) == k
  {
  }
}
