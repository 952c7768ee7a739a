/**
 * `handle_sync_status`: fetches the sync status of a deployment and prints
 * one line per successful fetch. Without `rolling` it stops after one line; with it, it
 * sleeps `interval` seconds and repeats until stopped from outside, tagging
 * the n-th line with ` [n]`. A failed fetch ends it with that error.
 */
module Poller {
  import opened Types
  import opened Api
  import opened Text

  /** How a poll that did not fail ended: on its own after one tick, or
    * interrupted from outside once the observed answers ran out. */
  datatype PollEnd = Finished | Interrupted

  datatype PollRun = PollRun(result: Result<PollEnd>, trace: seq<Event>)

  /** The tick tag of a status line. */
  function TickSuffix(rolling: bool, tick: nat): string {
    if rolling then " [" + Decimal(tick) + "]" else ""
  }

  function LineOf(s: DeploymentStatus, suffix: string): StatusLine {
    StatusLine(s.totalEntities, s.targetBlock, s.processingBlock, suffix)
  }

  /** The poll run from tick `tick` on, against the answers still to come. */
  function Poll(key: string, id: nat, rolling: bool, interval: nat,
                answers: seq<Answer<DeploymentStatus>>, tick: nat): (r: PollRun)
    // a poll fails only by a failed fetch
    ensures r.result.Err? ==> r.result.error.Upstream?
    decreases |answers|
  {
    if answers == [] then PollRun(Ok(Interrupted), [])
    else
      var fetched := [StatusFetched(key, id)];
      match answers[0]
      case CallFailed(reason) => PollRun(Err(Upstream(reason)), fetched)
      case Answer(status) =>
        var printed := fetched + [Printed(LineOf(status, TickSuffix(rolling, tick)))];
        if !rolling then PollRun(Ok(Finished), printed)
        else
          var rest := Poll(key, id, rolling, interval, answers[1..], tick + 1);
          PollRun(rest.result, printed + [Slept(interval)] + rest.trace)
  }

  /** A tick whose fetch fails ends the poll with that fetch's reason. */
  lemma FailedTick(key: string, id: nat, rolling: bool, interval: nat,
                   answers: seq<Answer<DeploymentStatus>>, tick: nat)
    requires answers != [] && answers[0].CallFailed?
    ensures Poll(key, id, rolling, interval, answers, tick) ==
            PollRun(Err(Upstream(answers[0].reason)), [StatusFetched(key, id)])
  {
  }

  /** Without rolling, an answered tick prints its line and finishes the poll. */
  lemma LastTick(key: string, id: nat, interval: nat,
                 answers: seq<Answer<DeploymentStatus>>, tick: nat)
    requires answers != [] && answers[0].Answer?
    ensures Poll(key, id, false, interval, answers, tick) ==
            PollRun(Ok(Finished), [StatusFetched(key, id), Printed(LineOf(answers[0].value, TickSuffix(false, tick)))])
  {
  }

  /** Without rolling a poll makes at most one fetch and prints at most one
    * line, untagged, and never sleeps. */
  lemma NoRollingOnce(key: string, id: nat, interval: nat,
                      answers: seq<Answer<DeploymentStatus>>, tick: nat)
    ensures |Poll(key, id, false, interval, answers, tick).trace| <= 2
    ensures forall i :: 0 <= i < |Poll(key, id, false, interval, answers, tick).trace| ==>
              !Poll(key, id, false, interval, answers, tick).trace[i].Slept?
    ensures answers != [] && answers[0].Answer? ==>
              Poll(key, id, false, interval, answers, tick) ==
              PollRun(Ok(Finished), [StatusFetched(key, id), Printed(LineOf(answers[0].value, ""))])
  {
  }

  /** With rolling, an answered tick prints its tagged line, sleeps, and goes
    * on with the next tick. */
  lemma RollingTick(key: string, id: nat, interval: nat,
                    answers: seq<Answer<DeploymentStatus>>, tick: nat)
    requires answers != [] && answers[0].Answer?
    ensures Poll(key, id, true, interval, answers, tick) ==
            PollRun(Poll(key, id, true, interval, answers[1..], tick + 1).result,
                    [StatusFetched(key, id), Printed(LineOf(answers[0].value, TickSuffix(true, tick))), Slept(interval)]
                    + Poll(key, id, true, interval, answers[1..], tick + 1).trace)
  {
  }

  /** A poll does at most three things per answer supplied: fetch, print, sleep. */
  lemma {:induction false} PollLength(key: string, id: nat, rolling: bool, interval: nat,
                                      answers: seq<Answer<DeploymentStatus>>, tick: nat)
    ensures |Poll(key, id, rolling, interval, answers, tick).trace| <= 3 * |answers|
    decreases |answers|
  {
    if answers != [] {
      PollLength(key, id, rolling, interval, answers[1..], tick + 1);
    }
  }

  predicate AllAnswered(answers: seq<Answer<DeploymentStatus>>) {
    forall i :: 0 <= i < |answers| ==> answers[i].Answer?
  }

  /** A poll ends by itself exactly when it is not rolling and its one fetch
    * succeeds; it is stopped from outside exactly when the answers run out
    * first, which a rolling poll whose fetches all succeed always does. */
  lemma {:induction false} PollEnds(key: string, id: nat, rolling: bool, interval: nat,
                                    answers: seq<Answer<DeploymentStatus>>, tick: nat)
    ensures var r := Poll(key, id, rolling, interval, answers, tick);
            && (r.result == Ok(Finished) <==> !rolling && answers != [] && answers[0].Answer?)
            && (r.result == Ok(Interrupted) <==> answers == [] || (rolling && AllAnswered(answers)))
    decreases |answers|
  {
    if answers != [] && rolling && answers[0].Answer? {
      PollEnds(key, id, rolling, interval, answers[1..], tick + 1);
      assert AllAnswered(answers) <==> AllAnswered(answers[1..]) by {
        assert forall i :: 1 <= i < |answers| ==> answers[i] == answers[1..][i - 1];
      }
    }
  }

  /** A failed poll failed at its first failed fetch, with that fetch's reason,
    * and does nothing after that fetch. */
  lemma {:induction false} PollFailure(key: string, id: nat, rolling: bool, interval: nat,
                                       answers: seq<Answer<DeploymentStatus>>, tick: nat)
    ensures var r := Poll(key, id, rolling, interval, answers, tick);
            r.result.Err? ==>
              && r.result.error.Upstream?
              && (exists j :: 0 <= j < |answers| && answers[j] == CallFailed(r.result.error.message)
                              && AllAnswered(answers[..j]))
              && r.trace != [] && r.trace[|r.trace| - 1] == StatusFetched(key, id)
    decreases |answers|
  {
    var r := Poll(key, id, rolling, interval, answers, tick);
    if answers != [] && r.result.Err? {
      if answers[0].CallFailed? {
        assert AllAnswered(answers[..0]);
      } else {
        var rest := answers[1..];
        PollFailure(key, id, rolling, interval, rest, tick + 1);
        var rr := Poll(key, id, rolling, interval, rest, tick + 1);
        var j :| 0 <= j < |rest| && rest[j] == CallFailed(rr.result.error.message) && AllAnswered(rest[..j]);
        assert answers[j + 1] == rest[j];
        assert answers[..j + 1] == [answers[0]] + rest[..j];
      }
    }
  }

  /** The events a poll of deployment `id` of project `key` may produce. */
  predicate IsPollEvent(key: string, id: nat, e: Event) {
    e == StatusFetched(key, id) || e.Printed? || e.Slept?
  }

  /** A poll only fetches the status of its own deployment, prints and sleeps. */
  lemma {:induction false} PollOnlyPolls(key: string, id: nat, rolling: bool, interval: nat,
                                         answers: seq<Answer<DeploymentStatus>>, tick: nat)
    ensures forall i :: 0 <= i < |Poll(key, id, rolling, interval, answers, tick).trace| ==>
              IsPollEvent(key, id, Poll(key, id, rolling, interval, answers, tick).trace[i])
    decreases |answers|
  {
    if answers != [] && rolling && answers[0].Answer? {
      PollOnlyPolls(key, id, rolling, interval, answers[1..], tick + 1);
      var r := Poll(key, id, rolling, interval, answers, tick);
      var rr := Poll(key, id, rolling, interval, answers[1..], tick + 1);
      assert r.trace == [StatusFetched(key, id), Printed(LineOf(answers[0].value, TickSuffix(rolling, tick))),
                         Slept(interval)] + rr.trace;
      assert forall i :: 3 <= i < |r.trace| ==> r.trace[i] == rr.trace[i - 3];

    }
  }

  /** With rolling on and every fetch answered, tick j (counted from `tick`)
    * is a fetch, a line tagged ` [tick + j]`, and a sleep of `interval`. */
  lemma {:induction false} RollingTicks(key: string, id: nat, interval: nat,
                                        answers: seq<Answer<DeploymentStatus>>, tick: nat)
    requires AllAnswered(answers)
    ensures var r := Poll(key, id, true, interval, answers, tick);
            && |r.trace| == 3 * |answers|
            && forall j :: 0 <= j < |answers| ==>
                 && r.trace[3 * j] == StatusFetched(key, id)
                 && r.trace[3 * j + 1] == Printed(LineOf(answers[j].value, " [" + Decimal(tick + j) + "]"))
                 && r.trace[3 * j + 2] == Slept(interval)
    decreases |answers|
  {
    if answers != [] {
      RollingTicks(key, id, interval, answers[1..], tick + 1);
      RollingTick(key, id, interval, answers, tick);
      TicksCons(key, id, interval, answers, tick, Poll(key, id, true, interval, answers[1..], tick + 1).trace);
    }
  }

  /** Putting the first tick's three events before the ticks of the rest of
    * the answers gives the ticks of all of them. */
  lemma TicksCons(key: string, id: nat, interval: nat,
                  answers: seq<Answer<DeploymentStatus>>, tick: nat, rest: seq<Event>)
    requires AllAnswered(answers) && answers != []
    requires |rest| == 3 * (|answers| - 1)
    requires forall k :: 0 <= k < |answers| - 1 ==>
               && rest[3 * k] == StatusFetched(key, id)
               && rest[3 * k + 1] == Printed(LineOf(answers[1..][k].value, " [" + Decimal(tick + 1 + k) + "]"))
               && rest[3 * k + 2] == Slept(interval)
    ensures var t := [StatusFetched(key, id), Printed(LineOf(answers[0].value, TickSuffix(true, tick))), Slept(interval)] + rest;
            && |t| == 3 * |answers|
            && forall j :: 0 <= j < |answers| ==>
                 && t[3 * j] == StatusFetched(key, id)
                 && t[3 * j + 1] == Printed(LineOf(answers[j].value, " [" + Decimal(tick + j) + "]"))
                 && t[3 * j + 2] == Slept(interval)
  {
    var t := [StatusFetched(key, id), Printed(LineOf(answers[0].value, TickSuffix(true, tick))), Slept(interval)] + rest;
    forall j | 0 <= j < |answers|
      ensures && t[3 * j] == StatusFetched(key, id)
              && t[3 * j + 1] == Printed(LineOf(answers[j].value, " [" + Decimal(tick + j) + "]"))
              && t[3 * j + 2] == Slept(interval)
    {
      if j > 0 {
        var k := j - 1;
        assert answers[j] == answers[1..][k];
        assert 3 * j == 3 * k + 3;
      }
    }
  }

  /** A rolling poll whose fetches succeed up to a failed one prints the tagged
    * lines of the answered ticks, then makes the failing fetch and stops with
    * its reason, whatever answers would have followed. */
  lemma {:induction false} RollingUntilFailure(key: string, id: nat, interval: nat,
                                               answered: seq<Answer<DeploymentStatus>>, reason: string,
                                               later: seq<Answer<DeploymentStatus>>, tick: nat)
    requires AllAnswered(answered)
    ensures Poll(key, id, true, interval, answered + [CallFailed(reason)] + later, tick) ==
            PollRun(Err(Upstream(reason)), Poll(key, id, true, interval, answered, tick).trace + [StatusFetched(key, id)])
    decreases |answered|
  {
    var all := answered + [CallFailed(reason)] + later;
    if answered != [] {
      assert all[1..] == answered[1..] + [CallFailed(reason)] + later;
      RollingUntilFailure(key, id, interval, answered[1..], reason, later, tick + 1);
    }
  }

  /** `handle_sync_status`: the tick counter starts at 0 and is incremented at
    * the top of every iteration, so the first line is tick 1. */
  method HandleSyncStatus(key: string, id: nat, rolling: bool, interval: nat,
                          answers: seq<Answer<DeploymentStatus>>)
    returns (result: Result<PollEnd>, trace: seq<Event>)
    ensures PollRun(result, trace) == Poll(key, id, rolling, interval, answers, 1)
    // without rolling: at most one fetch and one line, and never a sleep
    ensures !rolling ==> |trace| <= 2 && forall i :: 0 <= i < |trace| ==> !trace[i].Slept?
    ensures !rolling && answers != [] && answers[0].Answer? ==>
              && result == Ok(Finished)
              && trace == [StatusFetched(key, id), Printed(LineOf(answers[0].value, ""))]
    ensures answers != [] && answers[0].CallFailed? ==>
              result == Err(Upstream(answers[0].reason)) && trace == [StatusFetched(key, id)]
  {
    if answers != [] && answers[0].CallFailed? {
      FailedTick(key, id, rolling, interval, answers, 1);
    }
    if !rolling {
      NoRollingOnce(key, id, interval, answers, 1);
    }
    var times := 0;
    var next := 0;
    trace := [];
    result := Ok(Interrupted);
    while next < |answers|
      invariant 0 <= next <= |answers| && times == next
      invariant rolling || next == 0
      invariant var rest := Poll(key, id, rolling, interval, answers[next..], times + 1);
                Poll(key, id, rolling, interval, answers, 1) == PollRun(rest.result, trace + rest.trace)
      decreases |answers| - next
    {
      times := times + 1;
      ghost var before := trace;
      var pending := answers[next..];
      assert pending[1..] == answers[next + 1..];
      trace := trace + [StatusFetched(key, id)];
      var status := answers[next];
      next := next + 1;
      if status.CallFailed? {
        FailedTick(key, id, rolling, interval, pending, times);
        return Err(Upstream(status.reason)), trace;
      }
      trace := trace + [Printed(LineOf(status.value, TickSuffix(rolling, times)))];
      if !rolling {
        LastTick(key, id, interval, pending, times);
        result := Ok(Finished);
        break;
      }
      RollingTick(key, id, interval, pending, times);
      trace := trace + [Slept(interval)];
      Regroup(before, [StatusFetched(key, id), Printed(LineOf(status.value, TickSuffix(rolling, times))), Slept(interval)],
              Poll(key, id, rolling, interval, answers[next..], times + 1).trace);
    }
  }

  /** Appending one tick's events, then the rest of the run, is appending the
    * tick's run. */
  lemma Regroup(t: seq<Event>, tick: seq<Event>, rest: seq<Event>)
    requires |tick| == 3
    ensures (t + [tick[0]] + [tick[1]] + [tick[2]]) + rest == t + (tick + rest)
  {
    assert t + [tick[0]] + [tick[1]] + [tick[2]] == t + tick;
  }

  /** Three answered fetches in rolling mode print the tags [1], [2], [3] in order. */
  method RollingExample(s: DeploymentStatus) {
    var answers := [Answer(s), Answer(s), Answer(s)];
    var result, trace := HandleSyncStatus("org/key", 7, true, 0, answers);
    RollingTicks("org/key", 7, 0, answers, 1);
    PollEnds("org/key", 7, true, 0, answers, 1);
    assert Decimal(1) == "1" && Decimal(2) == "2" && Decimal(3) == "3";
    assert result == Ok(Interrupted);
    assert trace[1] == Printed(LineOf(s, " [1]"));
    assert trace[4] == Printed(LineOf(s, " [2]"));
    assert trace[7] == Printed(LineOf(s, " [3]"));
  }
}
