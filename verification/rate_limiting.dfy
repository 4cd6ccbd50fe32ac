/**
 * RateLimitingService: a sliding-window limiter that keeps, per client key,
 * the list of instants at which requests were admitted.
 */
module RateLimiting {
  import opened Clock

  const MaxRequests: nat := 10
  const TimeWindow: int := TicksPerMinute

  /** The log as `RemoveAll(request => request < cutoff)` leaves it: the entries not
      strictly older than `cutoff`, each with all its repeats, in their original
      order. */
  function Recent(log: seq<int>, cutoff: int): (r: seq<int>)
    ensures |r| <= |log|
    ensures forall t :: t in r <==> t in log && t >= cutoff
    ensures forall t :: multiset(r)[t] == if t >= cutoff then multiset(log)[t] else 0
    decreases |log|
  {
    if log == [] then []
    else
      var init, last := log[..|log| - 1], log[|log| - 1];
      assert log == init + [last];
      Recent(init, cutoff) + (if last < cutoff then [] else [last])
  }

  /** The log of `clientKey`, a fresh empty list for a key never seen before. */
  function LogOf(requests: map<string, seq<int>>, clientKey: string): seq<int> {
    if clientKey in requests then requests[clientKey] else []
  }

  /** Verdict of one call and the client's log after it. */
  datatype Decision = Decision(allowed: bool, log: seq<int>)

  /** One call of IsRequestAllowed at instant `now` on the log of one client. */
  function Admit(log: seq<int>, now: int): (d: Decision)
    ensures d.allowed <==> |Recent(log, now - TimeWindow)| < MaxRequests
    ensures !d.allowed ==> d.log == Recent(log, now - TimeWindow)
    ensures d.allowed ==> d.log == Recent(log, now - TimeWindow) + [now]
    ensures |log| <= MaxRequests ==> |d.log| <= MaxRequests
  {
    var kept := Recent(log, now - TimeWindow);
    if |kept| >= MaxRequests then Decision(false, kept) else Decision(true, kept + [now])
  }

  class RateLimitingService {
    var requests: map<string, seq<int>>

    /** No client's log ever holds more than MaxRequests instants. */
    ghost predicate Valid()
      reads this
    {
      forall k :: k in requests ==> |requests[k]| <= MaxRequests
    }

    constructor ()
      ensures Valid() && requests == map[]
    {
      requests := map[];
    }

    /** Decides one request of `clientKey` at instant `now`; only the log of
        `clientKey` changes, and it changes exactly as Admit says. */
    method IsRequestAllowed(clientKey: string, now: int) returns (allowed: bool)
      requires Valid()
      modifies this
      ensures Valid()
      ensures clientKey in requests
      ensures allowed == Admit(LogOf(old(requests), clientKey), now).allowed
      ensures requests == old(requests)[clientKey := Admit(LogOf(old(requests), clientKey), now).log]
    {
      if clientKey !in requests {
        requests := requests[clientKey := []];
      }

      // RemoveAll, in place: keep the entries that are not older than the window
      var log := requests[clientKey];
      var cutoff := now - TimeWindow;
      var kept := [];
      var i := 0;
      while i < |log|
        invariant 0 <= i <= |log|
        invariant kept == Recent(log[..i], cutoff)
      {
        if !(log[i] < cutoff) {
          kept := kept + [log[i]];
        }
        assert log[..i + 1][..i] == log[..i];
        i := i + 1;
      }
      assert log[..i] == log;
      requests := requests[clientKey := kept];

      if |requests[clientKey]| >= MaxRequests {
        return false;
      }

      requests := requests[clientKey := requests[clientKey] + [now]];
      return true;
    }
  }

  /** Verdicts of a series of calls for one client, and its log afterwards. */
  datatype Trace = Trace(verdicts: seq<bool>, log: seq<int>)

  /** Calls IsRequestAllowed at each instant of `times` in turn, starting from `log`. */
  function Replay(log: seq<int>, times: seq<int>): (r: Trace)
    ensures |r.verdicts| == |times|
    decreases |times|
  {
    if times == [] then Trace([], log)
    else
      var d := Admit(log, times[0]);
      var rest := Replay(d.log, times[1..]);
      Trace([d.allowed] + rest.verdicts, rest.log)
  }

  /** An entry exactly at the cutoff survives pruning; one a tick older does not. */
  lemma BoundaryEntryKept(log: seq<int>, now: int)
    ensures now - TimeWindow in log ==> now - TimeWindow in Recent(log, now - TimeWindow)
    ensures now - TimeWindow - 1 !in Recent(log, now - TimeWindow)
  {
  }

  /** Pruning keeps a log whose entries are all recent enough unchanged. */
  lemma {:induction false} RecentKeepsAll(log: seq<int>, cutoff: int)
    requires forall t :: t in log ==> t >= cutoff
    ensures Recent(log, cutoff) == log
    decreases |log|
  {
    if log != [] {
      var init := log[..|log| - 1];
      assert forall t :: t in init ==> t in log;
      RecentKeepsAll(init, cutoff);
      assert log[|log| - 1] in log;
      assert init + [log[|log| - 1]] == log;
    }
  }

  /** Pruning empties a log whose entries are all older than the window. */
  lemma {:induction false} RecentDropsAll(log: seq<int>, cutoff: int)
    requires forall t :: t in log ==> t < cutoff
    ensures Recent(log, cutoff) == []
    decreases |log|
  {
    if log != [] {
      var init := log[..|log| - 1];
      assert forall t :: t in init ==> t in log;
      assert log[|log| - 1] in log;
      RecentDropsAll(init, cutoff);
    }
  }

  /** Within one window, starting from a log whose entries lie in that window,
      a call is admitted exactly while fewer than MaxRequests have been admitted. */
  lemma {:induction false} ReplayWithinWindow(log: seq<int>, times: seq<int>, lo: int)
    requires forall t :: t in log ==> lo <= t
    requires forall i :: 0 <= i < |times| ==> lo <= times[i] <= lo + TimeWindow
    ensures forall i :: 0 <= i < |times| ==> (Replay(log, times).verdicts[i] <==> |log| + i < MaxRequests)
    decreases |times|
  {
    if times != [] {
      var now, rest := times[0], times[1..];
      RecentKeepsAll(log, now - TimeWindow);
      var d := Admit(log, now);
      assert d.allowed <==> |log| < MaxRequests;
      assert d.log == if d.allowed then log + [now] else log;
      assert forall t :: t in d.log ==> lo <= t;
      assert forall i :: 0 <= i < |rest| ==> lo <= rest[i] <= lo + TimeWindow by {
        forall i | 0 <= i < |rest|
          ensures lo <= rest[i] <= lo + TimeWindow
        {
          assert rest[i] == times[i + 1];
        }
      }
      ReplayWithinWindow(d.log, rest, lo);
      var tail := Replay(d.log, rest).verdicts;
      assert Replay(log, times).verdicts == [d.allowed] + tail;
      forall i | 0 <= i < |times|
        ensures Replay(log, times).verdicts[i] <==> |log| + i < MaxRequests
      {
        if i > 0 {
          assert Replay(log, times).verdicts[i] == tail[i - 1];
        }
      }
    }
  }

  /** A fresh client calling MaxRequests + 1 times within one window: the first ten
      calls are admitted and the eleventh is refused. */
  lemma EleventhCallRefused(times: seq<int>)
    requires |times| == MaxRequests + 1
    requires forall i :: 0 <= i < |times| ==> times[0] <= times[i] <= times[0] + TimeWindow
    ensures forall i :: 0 <= i < MaxRequests ==> Replay([], times).verdicts[i]
    ensures !Replay([], times).verdicts[MaxRequests]
  {
    ReplayWithinWindow([], times, times[0]);
  }

  /** Once every logged instant has fallen out of the window, the client is treated
      exactly like one never seen before. */
  lemma {:induction false} ExpiredLogForgotten(log: seq<int>, times: seq<int>)
    requires |times| > 0
    requires forall t :: t in log ==> t < times[0] - TimeWindow
    ensures Replay(log, times) == Replay([], times)
  {
    RecentDropsAll(log, times[0] - TimeWindow);
    assert Admit(log, times[0]) == Admit([], times[0]);
  }

  /** A client that was at budget gets MaxRequests admissions again within a later
      window that begins after all its logged instants have expired. */
  lemma AdmittedAgainAfterWindow(log: seq<int>, times: seq<int>)
    requires |times| > 0
    requires forall t :: t in log ==> t < times[0] - TimeWindow
    requires forall i :: 0 <= i < |times| ==> times[0] <= times[i] <= times[0] + TimeWindow
    ensures forall i :: 0 <= i < |times| ==> (Replay(log, times).verdicts[i] <==> i < MaxRequests)
  {
    ExpiredLogForgotten(log, times);
    ReplayWithinWindow([], times, times[0]);
  }
}
