/**
 * The swap monitor of the client's `SwapService`: after a swap is sent,
 * the client polls the backend's `requests` endpoint on an interval and
 * moves the swap's displayed status along. Each poll is one `Tick`; the
 * reply of the backend (or the exception of the call) is its input.
 */
module SwapMonitor {
  import opened Wrappers

  /** Milliseconds between polls. */
  const POLLING_INTERVAL: nat := 500

  /** Polls before the monitor gives up. */
  const MAX_ATTEMPTS: nat := 30

  // ---------------------------------------------------------------------
  // The polling interval
  // ---------------------------------------------------------------------

  /**
   * The service's single interval slot: the handle it holds, the intervals
   * the runtime is running, and the next handle the runtime hands out.
   */
  datatype Poller = Poller(interval: Option<nat>, running: set<nat>, next_handle: nat)

  /** The slot and the runtime agree: what runs is exactly what the slot holds. */
  predicate Tidy(p: Poller) {
    && p.running == (if p.interval.Some? then {p.interval.value} else {})
    && (p.interval.Some? ==> p.interval.value < p.next_handle)
  }

  /** `stopPolling`: clear the held interval, if any, and empty the slot. */
  function StopPolling(p: Poller): (r: Poller)
    ensures r.interval.None?
    ensures p.interval.Some? ==> r.running == p.running - {p.interval.value}
    ensures p.interval.None? ==> r == p
    ensures Tidy(p) ==> Tidy(r) && r.running == {}
  {
    match p.interval
    case None => p
    case Some(h) => p.(interval := None, running := p.running - {h})
  }

  /** Stopping twice is stopping once. */
  lemma StopIsIdempotent(p: Poller)
    ensures StopPolling(StopPolling(p)) == StopPolling(p)
  {
  }

  /** `monitorTransaction`'s start: stop any interval held, then start a new one and hold it. */
  function StartPolling(p: Poller): (r: Poller)
    ensures r.interval == Some(StopPolling(p).next_handle)
    ensures r.running == StopPolling(p).running + {StopPolling(p).next_handle}
  {
    var q := StopPolling(p);
    Poller(Some(q.next_handle), q.running + {q.next_handle}, q.next_handle + 1)
  }

  /** From a tidy slot, starting a monitor leaves exactly one polling loop running. */
  lemma StartLeavesOneLoop(p: Poller)
    requires Tidy(p)
    ensures Tidy(StartPolling(p))
    ensures |StartPolling(p).running| == 1
  {
    var q := StopPolling(p);
    assert q.running == {};
    assert StartPolling(p).running == {q.next_handle};
  }

  // ---------------------------------------------------------------------
  // One poll
  // ---------------------------------------------------------------------

  /** The fields of the stored swap the monitor writes. */
  datatype SwapView = SwapView(status: string, is_processing: bool, error: Option<string>, refresh_quote: bool)

  /**
   * What one call of `requests` gave: an exception, a reply with no request
   * record, or the record's status strings and, if the reply is a swap
   * reply, the swap's status.
   */
  datatype Fetch = Threw | NoReply | Replied(statuses: seq<string>, swap_status: Option<string>)

  /** The monitor's state: polls made, whether it still polls, and the swap as shown. */
  datatype Monitor = Monitor(attempts: nat, polling: bool, view: SwapView)

  /** A fresh monitor. */
  function Start(view: SwapView): Monitor {
    Monitor(0, true, view)
  }

  /** `s.includes(t)`. */
  function HasInfix(s: string, t: string): bool
    decreases |s|
  {
    if |s| < |t| then false
    else s[..|t|] == t || HasInfix(s[1..], t)
  }

  /** `t` occurs in `s` starting at position `i`. */
  predicate OccursAt(s: string, t: string, i: int) {
    0 <= i && i + |t| <= |s| && s[i..i + |t|] == t
  }

  /** `HasInfix` holds exactly when `t` occurs in `s` at some position. */
  lemma {:induction false} HasInfixIff(s: string, t: string)
    ensures HasInfix(s, t) <==> exists i :: OccursAt(s, t, i)
    decreases |s|
  {
    if |s| >= |t| {
      if s[..|t|] == t {
        assert OccursAt(s, t, 0);
      } else {
        assert |s| > 0;
        HasInfixIff(s[1..], t);
        if HasInfix(s[1..], t) {
          var i :| OccursAt(s[1..], t, i);
          assert s[i + 1..i + 1 + |t|] == s[1..][i..i + |t|];
          assert OccursAt(s, t, i + 1);
        }
        if exists i :: OccursAt(s, t, i) {
          var i :| OccursAt(s, t, i);
          assert i != 0;
          assert s[1..][i - 1..i - 1 + |t|] == s[i..i + |t|];
          assert OccursAt(s[1..], t, i - 1);
        }
      }
    }
  }

  /** `statuses.find(s => s.includes("Failed"))`: the first status mentioning a failure. */
  function FirstFailed(statuses: seq<string>): (r: Option<string>)
    ensures r.None? <==> forall i :: 0 <= i < |statuses| ==> !HasInfix(statuses[i], "Failed")
    ensures r.Some? ==> r.value in statuses && HasInfix(r.value, "Failed")
    ensures r.Some? && statuses != [] && HasInfix(statuses[0], "Failed") ==> r.value == statuses[0]
  {
    if statuses == [] then None
    else if HasInfix(statuses[0], "Failed") then Some(statuses[0])
    else FirstFailed(statuses[1..])
  }

  /** `statuses[i]` mentions a failure and no earlier status does. */
  predicate FirstFailedAt(statuses: seq<string>, i: int) {
    0 <= i < |statuses| && HasInfix(statuses[i], "Failed")
    && forall j :: 0 <= j < i ==> !HasInfix(statuses[j], "Failed")
  }

  /** The status `FirstFailed` finds is the first one mentioning a failure, like `find`. */
  lemma {:induction false} FirstFailedIsFirst(statuses: seq<string>)
    ensures FirstFailed(statuses).Some? ==>
      exists i :: FirstFailedAt(statuses, i) && statuses[i] == FirstFailed(statuses).value
  {
    if statuses != [] && !HasInfix(statuses[0], "Failed") {
      var rest := statuses[1..];
      FirstFailedIsFirst(rest);
      if FirstFailed(rest).Some? {
        var i :| FirstFailedAt(rest, i) && rest[i] == FirstFailed(rest).value;
        assert statuses[i + 1] == rest[i];
        forall j | 0 <= j < i + 1 ensures !HasInfix(statuses[j], "Failed") {
          if j > 0 { assert statuses[j] == rest[j - 1]; }
        }
        assert FirstFailedAt(statuses, i + 1);
      }
    } else if statuses != [] {
      assert FirstFailedAt(statuses, 0);
    }
  }

  /**
   * The reply part of a poll: a failed status marks the swap as errored and
   * stops polling; a swap reply then writes its status over the view, and a
   * final "Success" or "Failed" stops polling.
   */
  function AfterReply(polling: bool, view: SwapView, f: Fetch): (bool, SwapView) {
    if !f.Replied? then (polling, view)
    else
      var failed := FirstFailed(f.statuses);
      var (p1, v1) := if failed.Some? then (false, view.(status := "Error", is_processing := false, error := failed))
                      else (polling, view);
      match f.swap_status
      case None => (p1, v1)
      case Some(st) =>
        var v2 := v1.(status := st, is_processing := true, error := None);
        if st == "Success" then (false, v2.(status := "Success", is_processing := false, refresh_quote := true))
        else if st == "Failed" then (false, v2.(status := "Failed", is_processing := false, error := Some("Swap failed")))
        else (p1, v2)
  }

  /**
   * One poll. An exception stops polling with an error and does not count
   * as an attempt. Otherwise the reply is applied, then the attempt budget
   * is checked (before the count is incremented), so the timeout fires on
   * the poll after the thirtieth and overrides whatever the reply wrote.
   */
  function Tick(m: Monitor, f: Fetch): (r: Monitor)
    ensures r.polling ==> m.polling
    ensures f.Threw? ==> r == Monitor(m.attempts, false, m.view.(status := "Error", is_processing := false, error := Some("Failed to monitor swap status")))
    ensures !f.Threw? ==> r.attempts == m.attempts + 1
    ensures !f.Threw? && m.attempts >= MAX_ATTEMPTS ==>
      !r.polling && r.view.status == "Timeout" && !r.view.is_processing && r.view.error == Some("Swap timed out")
    ensures f.NoReply? && m.attempts < MAX_ATTEMPTS ==> r.polling == m.polling && r.view == m.view
    ensures f.Replied? && f.swap_status == Some("Success") && m.attempts < MAX_ATTEMPTS ==>
      !r.polling && r.view.status == "Success" && !r.view.is_processing && r.view.refresh_quote
    ensures f.Replied? && f.swap_status == Some("Failed") && m.attempts < MAX_ATTEMPTS ==>
      !r.polling && r.view.status == "Failed" && r.view.error == Some("Swap failed")
    ensures f.Replied? && f.swap_status.Some? && f.swap_status.value !in {"Success", "Failed"} && m.attempts < MAX_ATTEMPTS ==>
      r.view.status == f.swap_status.value && r.view.is_processing
      && (r.polling <==> m.polling && FirstFailed(f.statuses).None?)
    ensures f.Replied? && f.swap_status.None? && FirstFailed(f.statuses).Some? && m.attempts < MAX_ATTEMPTS ==>
      !r.polling && r.view.status == "Error" && r.view.error == FirstFailed(f.statuses)
  {
    match f
    case Threw =>
      Monitor(m.attempts, false, m.view.(status := "Error", is_processing := false, error := Some("Failed to monitor swap status")))
    case _ =>
      var (polling, view) := AfterReply(m.polling, m.view, f);
      if m.attempts >= MAX_ATTEMPTS
      then Monitor(m.attempts + 1, false, view.(status := "Timeout", is_processing := false, error := Some("Swap timed out")))
      else Monitor(m.attempts + 1, polling, view)
  }

  /** Polls run while the monitor polls; once it stops, later replies change nothing. */
  function Run(m: Monitor, fs: seq<Fetch>): Monitor
    decreases |fs|
  {
    if fs == [] || !m.polling then m else Run(Tick(m, fs[0]), fs[1..])
  }

  /** A poll that neither fails nor finishes the swap. */
  predicate Quiet(f: Fetch) {
    || f.NoReply?
    || (f.Replied? && FirstFailed(f.statuses).None? && (f.swap_status.None? || f.swap_status.value !in {"Success", "Failed"}))
  }

  /** Quiet polls within the budget keep the monitor polling and count one attempt each. */
  lemma {:induction false} QuietPollsContinue(m: Monitor, fs: seq<Fetch>)
    requires m.polling && m.attempts + |fs| <= MAX_ATTEMPTS
    requires forall i :: 0 <= i < |fs| ==> Quiet(fs[i])
    ensures Run(m, fs).polling && Run(m, fs).attempts == m.attempts + |fs|
    decreases |fs|
  {
    if fs != [] {
      var next := Tick(m, fs[0]);
      assert next.polling && next.attempts == m.attempts + 1 by {
        assert Quiet(fs[0]);
      }
      QuietPollsContinue(next, fs[1..]);
    }
  }

  /** With only quiet replies, the monitor polls thirty times and times out on the thirty-first poll. */
  lemma TimeoutOnThirtyFirstPoll(view: SwapView, fs: seq<Fetch>)
    requires |fs| == MAX_ATTEMPTS + 1
    requires forall i :: 0 <= i < |fs| ==> Quiet(fs[i])
    ensures Run(Start(view), fs[..MAX_ATTEMPTS]).polling
    ensures var last := Run(Start(view), fs);
            !last.polling && last.view.status == "Timeout" && last.attempts == MAX_ATTEMPTS + 1
  {
    var head := fs[..MAX_ATTEMPTS];
    QuietPollsContinue(Start(view), head);
    RunSplit(Start(view), head, fs[MAX_ATTEMPTS..]);
    assert head + fs[MAX_ATTEMPTS..] == fs;
    var m := Run(Start(view), head);
    assert fs[MAX_ATTEMPTS..] == [fs[MAX_ATTEMPTS]];
    assert Run(m, fs[MAX_ATTEMPTS..]) == Run(Tick(m, fs[MAX_ATTEMPTS]), []);
  }

  /** Running two batches of polls is running their concatenation. */
  lemma {:induction false} RunSplit(m: Monitor, a: seq<Fetch>, b: seq<Fetch>)
    ensures Run(Run(m, a), b) == Run(m, a + b)
    decreases |a|
  {
    if a == [] {
      assert a + b == b;
    } else if m.polling {
      RunSplit(Tick(m, a[0]), a[1..], b);
      assert (a + b)[1..] == a[1..] + b;
    } else {
      if b != [] {
        assert (a + b) != [];
      }
    }
  }

  /** A success within the budget is final: whatever replies follow, the swap stays "Success". */
  lemma SuccessIsFinal(m: Monitor, statuses: seq<string>, rest: seq<Fetch>)
    requires m.polling && m.attempts < MAX_ATTEMPTS
    ensures var last := Run(m, [Replied(statuses, Some("Success"))] + rest);
            last.view.status == "Success" && !last.polling && last.attempts == m.attempts + 1
  {
    var fs := [Replied(statuses, Some("Success"))] + rest;
    var next := Tick(m, fs[0]);
    assert fs[1..] == rest;
    assert Run(m, fs) == Run(next, rest);
    if rest != [] {
      assert Run(next, rest) == next;
    }
  }

  /** On the poll past the budget even a success reply ends as "Timeout". */
  lemma LateSuccessShowsTimeout(m: Monitor, statuses: seq<string>)
    requires m.attempts == MAX_ATTEMPTS
    ensures Tick(m, Replied(statuses, Some("Success"))).view.status == "Timeout"
  {
  }

  /**
   * A failed status stops polling, but a swap reply in the same poll then
   * writes its own status: the view shows "Pending" on a stopped monitor.
   */
  lemma FailedStatusIsOverwritten(m: Monitor)
    requires m.polling && m.attempts < MAX_ATTEMPTS
    ensures var r := Tick(m, Replied(["Swap Failed"], Some("Pending")));
            !r.polling && r.view.status == "Pending" && r.view.error.None?
  {
    assert HasInfix("Swap Failed", "Failed") by {
      HasInfixIff("Swap Failed", "Failed");
      assert OccursAt("Swap Failed", "Failed", 5);
    }
  }

  /** An exception ends monitoring at once, with no retry and no attempt counted. */
  lemma ExceptionEndsMonitoring(m: Monitor, rest: seq<Fetch>)
    requires m.polling
    ensures var last := Run(m, [Threw] + rest);
            !last.polling && last.view.status == "Error" && last.attempts == m.attempts
  {
    var fs := [Threw] + rest;
    assert fs[1..] == rest;
    assert Run(m, fs) == Run(Tick(m, Threw), rest);
    if rest != [] {
      assert Run(Tick(m, Threw), rest) == Tick(m, Threw);
    }
  }
}
