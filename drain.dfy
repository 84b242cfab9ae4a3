/** The drain: records move from the intake queue to the staging queue for
    at most one window of time. Each round checks the clock against the
    deadline, lets producers add that round's arrivals, then takes the oldest
    intake record; when there is none, it stops if nothing is staged yet and
    otherwise backs off and polls again until the deadline. */
module Drain {

  datatype StopReason = DeadlineReached | NothingPending

  /** The queues after a drain, the records producers added meanwhile, the
      number of rounds run, and why the drain stopped. */
  datatype Drained = Drained(staging: seq<string>, intake: seq<string>, arrived: seq<string>,
                             rounds: nat, stop: StopReason)

  /** The clock readings of one drain: the first fixes the deadline, the
      later ones are the loop's checks, and the last is past the deadline. */
  predicate CoversWindow(readings: seq<int>, window: int)
  {
    |readings| >= 2 && readings[|readings| - 1] >= readings[0] + window
  }

  /** The records producers add during round k + 1. */
  function RoundArrivals(arrivals: seq<seq<string>>, k: nat): seq<string>
  {
    if k < |arrivals| then arrivals[k] else []
  }

  /** The records producers add during rounds lo + 1 to hi. */
  function ArrivedDuring(arrivals: seq<seq<string>>, lo: nat, hi: nat): seq<string>
    decreases hi - lo
  {
    if lo >= hi then [] else RoundArrivals(arrivals, lo) + ArrivedDuring(arrivals, lo + 1, hi)
  }

  predicate NoArrivals(arrivals: seq<seq<string>>)
  {
    forall k :: 0 <= k < |arrivals| ==> arrivals[k] == []
  }

  /** The drain from round i on, where `readings[i]` is the clock check of round i. */
  function DrainFrom(staging: seq<string>, intake: seq<string>, readings: seq<int>,
                     arrivals: seq<seq<string>>, deadline: int, i: nat): (r: Drained)
    requires 1 <= i < |readings| && readings[|readings| - 1] >= deadline
    ensures i - 1 <= r.rounds && r.rounds + 1 < |readings|
    decreases |readings| - i
  {
    if readings[i] >= deadline then Drained(staging, intake, [], i - 1, DeadlineReached)
    else
      var incoming := RoundArrivals(arrivals, i - 1);
      var queued := intake + incoming;
      var rest :=
        if queued != [] then DrainFrom(staging + [queued[0]], queued[1..], readings, arrivals, deadline, i + 1)
        else if staging == [] then Drained(staging, queued, [], i, NothingPending)
        else DrainFrom(staging, queued, readings, arrivals, deadline, i + 1);
      rest.(arrived := incoming + rest.arrived)
  }

  /** Two drain outcomes that agree on the queues, the round count and the stop reason. */
  predicate SameQueues(a: Drained, b: Drained)
  {
    a.staging == b.staging && a.intake == b.intake && a.rounds == b.rounds && a.stop == b.stop
  }

  /** One round of the drain, for a round that starts before the deadline. */
  lemma DrainStep(staging: seq<string>, intake: seq<string>, readings: seq<int>,
                  arrivals: seq<seq<string>>, deadline: int, i: nat)
    requires 1 <= i < |readings| && readings[|readings| - 1] >= deadline && readings[i] < deadline
    ensures i + 1 < |readings|
    ensures var queued := intake + RoundArrivals(arrivals, i - 1);
            var r := DrainFrom(staging, intake, readings, arrivals, deadline, i);
            && (queued != [] ==>
                  SameQueues(r, DrainFrom(staging + [queued[0]], queued[1..], readings, arrivals, deadline, i + 1)))
            && (queued == [] && staging == [] ==> r == Drained([], [], RoundArrivals(arrivals, i - 1), i, NothingPending))
            && (queued == [] && staging != [] ==>
                  SameQueues(r, DrainFrom(staging, queued, readings, arrivals, deadline, i + 1)))
  {
  }

  /** The whole drain, with the deadline one window after the first reading. */
  function DrainAll(staging: seq<string>, intake: seq<string>, readings: seq<int>,
                    arrivals: seq<seq<string>>, window: int): Drained
    requires CoversWindow(readings, window)
  {
    DrainFrom(staging, intake, readings, arrivals, readings[0] + window, 1)
  }

  /** The staging queue only grows, at its end. */
  lemma {:induction false} DrainKeepsStaged(staging: seq<string>, intake: seq<string>, readings: seq<int>,
                                            arrivals: seq<seq<string>>, deadline: int, i: nat)
    requires 1 <= i < |readings| && readings[|readings| - 1] >= deadline
    ensures staging <= DrainFrom(staging, intake, readings, arrivals, deadline, i).staging
    decreases |readings| - i
  {
    if readings[i] < deadline {
      var queued := intake + RoundArrivals(arrivals, i - 1);
      if queued != [] {
        DrainKeepsStaged(staging + [queued[0]], queued[1..], readings, arrivals, deadline, i + 1);
        assert staging <= staging + [queued[0]];
      } else if staging != [] {
        DrainKeepsStaged(staging, queued, readings, arrivals, deadline, i + 1);
      }
    }
  }

  /** Moving the oldest queued record to the end of the staging queue keeps
      staged-then-queued unchanged. */
  lemma QueueShift(staging: seq<string>, intake: seq<string>, incoming: seq<string>, later: seq<string>)
    requires intake + incoming != []
    ensures var queued := intake + incoming;
            staging + [queued[0]] + queued[1..] + later == staging + intake + (incoming + later)
  {
    var queued := intake + incoming;
    assert [queued[0]] + queued[1..] == queued;
  }

  /** Nothing is lost, duplicated or reordered: the staging queue only grows
      at its end, and staged-then-queued is what was there plus what arrived. */
  lemma {:induction false} DrainConserves(staging: seq<string>, intake: seq<string>, readings: seq<int>,
                                          arrivals: seq<seq<string>>, deadline: int, i: nat)
    requires 1 <= i < |readings| && readings[|readings| - 1] >= deadline
    ensures var r := DrainFrom(staging, intake, readings, arrivals, deadline, i);
            staging <= r.staging && r.staging + r.intake == staging + intake + r.arrived
    decreases |readings| - i
  {
    DrainKeepsStaged(staging, intake, readings, arrivals, deadline, i);
    if readings[i] < deadline {
      var incoming := RoundArrivals(arrivals, i - 1);
      var queued := intake + incoming;
      if queued != [] {
        var rest := DrainFrom(staging + [queued[0]], queued[1..], readings, arrivals, deadline, i + 1);
        DrainConserves(staging + [queued[0]], queued[1..], readings, arrivals, deadline, i + 1);
        QueueShift(staging, intake, incoming, rest.arrived);
      } else if staging != [] {
        DrainConserves(staging, queued, readings, arrivals, deadline, i + 1);
        assert intake == [] && incoming == [];
      }
    }
  }

  /** The arrivals taken in are exactly those of the rounds that ran. */
  lemma {:induction false} DrainArrivals(staging: seq<string>, intake: seq<string>, readings: seq<int>,
                                         arrivals: seq<seq<string>>, deadline: int, i: nat)
    requires 1 <= i < |readings| && readings[|readings| - 1] >= deadline
    ensures var r := DrainFrom(staging, intake, readings, arrivals, deadline, i);
            r.arrived == ArrivedDuring(arrivals, i - 1, r.rounds)
    decreases |readings| - i
  {
    if readings[i] < deadline {
      var queued := intake + RoundArrivals(arrivals, i - 1);
      if queued != [] {
        DrainArrivals(staging + [queued[0]], queued[1..], readings, arrivals, deadline, i + 1);
      } else if staging != [] {
        DrainArrivals(staging, queued, readings, arrivals, deadline, i + 1);
      } else {
        assert ArrivedDuring(arrivals, i, i) == [];
      }
    }
  }

  /** A check below the deadline extends a run of checks below it by one. */
  lemma RoundsBelowDeadline(readings: seq<int>, deadline: int, i: nat, rounds: nat)
    requires 1 <= i < |readings| && rounds < |readings| && readings[i] < deadline
    requires forall j :: i + 1 <= j <= rounds ==> readings[j] < deadline
    ensures forall j :: i <= j <= rounds ==> readings[j] < deadline
  {
  }

  /** Every round of the drain starts before the deadline. */
  lemma {:induction false} DrainRoundsBeforeDeadline(staging: seq<string>, intake: seq<string>,
                                                     readings: seq<int>, arrivals: seq<seq<string>>,
                                                     deadline: int, i: nat)
    requires 1 <= i < |readings| && readings[|readings| - 1] >= deadline
    ensures var r := DrainFrom(staging, intake, readings, arrivals, deadline, i);
            forall j :: i <= j <= r.rounds ==> readings[j] < deadline
    decreases |readings| - i
  {
    if readings[i] < deadline {
      var r := DrainFrom(staging, intake, readings, arrivals, deadline, i);
      var incoming := RoundArrivals(arrivals, i - 1);
      var queued := intake + incoming;
      if queued != [] {
        var rest := DrainFrom(staging + [queued[0]], queued[1..], readings, arrivals, deadline, i + 1);
        assert r.rounds == rest.rounds;
        DrainRoundsBeforeDeadline(staging + [queued[0]], queued[1..], readings, arrivals, deadline, i + 1);
        RoundsBelowDeadline(readings, deadline, i, r.rounds);
      } else if staging != [] {
        var rest := DrainFrom(staging, queued, readings, arrivals, deadline, i + 1);
        assert r.rounds == rest.rounds;
        DrainRoundsBeforeDeadline(staging, queued, readings, arrivals, deadline, i + 1);
        RoundsBelowDeadline(readings, deadline, i, r.rounds);
      }
    }
  }

  /** A drain that stopped at the deadline read a clock value at or past it. */
  lemma {:induction false} DrainDeadlineRead(staging: seq<string>, intake: seq<string>,
                                            readings: seq<int>, arrivals: seq<seq<string>>,
                                            deadline: int, i: nat)
    requires 1 <= i < |readings| && readings[|readings| - 1] >= deadline
    ensures var r := DrainFrom(staging, intake, readings, arrivals, deadline, i);
            r.stop == DeadlineReached ==> readings[r.rounds + 1] >= deadline
    decreases |readings| - i
  {
    var r := DrainFrom(staging, intake, readings, arrivals, deadline, i);
    if readings[i] >= deadline {
      assert r.rounds + 1 == i;
    } else {
      var incoming := RoundArrivals(arrivals, i - 1);
      var queued := intake + incoming;
      if queued != [] {
        var rest := DrainFrom(staging + [queued[0]], queued[1..], readings, arrivals, deadline, i + 1);
        assert r.rounds == rest.rounds && r.stop == rest.stop;
        DrainDeadlineRead(staging + [queued[0]], queued[1..], readings, arrivals, deadline, i + 1);
      } else if staging != [] {
        var rest := DrainFrom(staging, queued, readings, arrivals, deadline, i + 1);
        assert r.rounds == rest.rounds && r.stop == rest.stop;
        DrainDeadlineRead(staging, queued, readings, arrivals, deadline, i + 1);
      }
    }
  }

  /** A drain that stopped early ran at least its starting round. */
  lemma {:induction false} DrainEarlyStopRan(staging: seq<string>, intake: seq<string>,
                                            readings: seq<int>, arrivals: seq<seq<string>>,
                                            deadline: int, i: nat)
    requires 1 <= i < |readings| && readings[|readings| - 1] >= deadline
    ensures var r := DrainFrom(staging, intake, readings, arrivals, deadline, i);
            r.stop == NothingPending ==> r.rounds >= i
    decreases |readings| - i
  {
    if readings[i] < deadline {
      var r := DrainFrom(staging, intake, readings, arrivals, deadline, i);
      var incoming := RoundArrivals(arrivals, i - 1);
      var queued := intake + incoming;
      if queued != [] {
        var rest := DrainFrom(staging + [queued[0]], queued[1..], readings, arrivals, deadline, i + 1);
        assert r.rounds == rest.rounds && r.stop == rest.stop;
        DrainEarlyStopRan(staging + [queued[0]], queued[1..], readings, arrivals, deadline, i + 1);
      } else if staging != [] {
        var rest := DrainFrom(staging, queued, readings, arrivals, deadline, i + 1);
        assert r.rounds == rest.rounds && r.stop == rest.stop;
        DrainEarlyStopRan(staging, queued, readings, arrivals, deadline, i + 1);
      }
    }
  }

  /** Every round starts before the deadline; a drain that reached the
      deadline read a clock value at or past it. */
  lemma DrainWithinWindow(staging: seq<string>, intake: seq<string>, readings: seq<int>,
                          arrivals: seq<seq<string>>, deadline: int, i: nat)
    requires 1 <= i < |readings| && readings[|readings| - 1] >= deadline
    ensures var r := DrainFrom(staging, intake, readings, arrivals, deadline, i);
            && (forall j :: i <= j <= r.rounds ==> readings[j] < deadline)
            && (r.stop == DeadlineReached ==> readings[r.rounds + 1] >= deadline)
            && (r.stop == NothingPending ==> r.rounds >= i)
  {
    DrainRoundsBeforeDeadline(staging, intake, readings, arrivals, deadline, i);
    DrainDeadlineRead(staging, intake, readings, arrivals, deadline, i);
    DrainEarlyStopRan(staging, intake, readings, arrivals, deadline, i);
  }

  /** The drain gives up early only when nothing was ever staged and nothing
      is queued; once a record is staged it polls until the deadline. */
  lemma {:induction false} DrainStopsEarlyOnlyWhenIdle(staging: seq<string>, intake: seq<string>,
                                                       readings: seq<int>, arrivals: seq<seq<string>>,
                                                       deadline: int, i: nat)
    requires 1 <= i < |readings| && readings[|readings| - 1] >= deadline
    ensures var r := DrainFrom(staging, intake, readings, arrivals, deadline, i);
            && (r.stop == NothingPending ==> staging == [] && r.staging == [] && r.intake == [])
            && (r.staging != [] ==> r.stop == DeadlineReached)
    decreases |readings| - i
  {
    if readings[i] < deadline {
      var queued := intake + RoundArrivals(arrivals, i - 1);
      if queued != [] {
        DrainStopsEarlyOnlyWhenIdle(staging + [queued[0]], queued[1..], readings, arrivals, deadline, i + 1);
      } else if staging != [] {
        DrainStopsEarlyOnlyWhenIdle(staging, queued, readings, arrivals, deadline, i + 1);
      }
    }
  }

  /** With both queues empty and nobody emitting, the drain stops in its
      first round, before the deadline, and changes nothing. */
  lemma DrainIdleExitsAtOnce(readings: seq<int>, arrivals: seq<seq<string>>, window: int)
    requires CoversWindow(readings, window)
    requires readings[1] < readings[0] + window && RoundArrivals(arrivals, 0) == []
    ensures DrainAll([], [], readings, arrivals, window) == Drained([], [], [], 1, NothingPending)
  {
  }

  /** Without producer activity, a drain whose first |intake| clock checks
      all come before the deadline empties the intake queue. */
  lemma {:induction false} DrainFlushes(staging: seq<string>, intake: seq<string>, readings: seq<int>,
                                        arrivals: seq<seq<string>>, deadline: int, i: nat)
    requires 1 <= i < |readings| && readings[|readings| - 1] >= deadline
    requires NoArrivals(arrivals)
    requires forall j :: i <= j < i + |intake| && j < |readings| ==> readings[j] < deadline
    ensures DrainFrom(staging, intake, readings, arrivals, deadline, i).intake == []
    decreases |readings| - i
  {
    if readings[i] < deadline {
      var queued := intake + RoundArrivals(arrivals, i - 1);
      assert queued == intake;
      if queued != [] {
        DrainFlushes(staging + [queued[0]], queued[1..], readings, arrivals, deadline, i + 1);
      } else if staging != [] {
        DrainFlushes(staging, queued, readings, arrivals, deadline, i + 1);
      }
    } else {
      assert |intake| == 0;
    }
  }

  /** Staging the oldest queued record, then n - 1 more, stages the first n
      records of the intake queue. */
  lemma PrefixShift(staging: seq<string>, intake: seq<string>, incoming: seq<string>, n: nat)
    requires 0 < n <= |intake|
    ensures var queued := intake + incoming;
            staging + [queued[0]] + queued[1..][..n - 1] == staging + intake[..n]
  {
    var queued := intake + incoming;
    assert queued[0] == intake[0] && queued[1..][..n - 1] == intake[1..n];
    assert [intake[0]] + intake[1..n] == intake[..n];
  }

  /** While the clock stays inside the window, each round takes the oldest
      queued record, so the first n records of the intake queue are staged,
      in order, behind what was already staged. */
  lemma {:induction false} DrainTakesPrefix(staging: seq<string>, intake: seq<string>, readings: seq<int>,
                                            arrivals: seq<seq<string>>, deadline: int, i: nat, n: nat)
    requires 1 <= i < |readings| && readings[|readings| - 1] >= deadline
    requires n <= |intake|
    requires forall j :: i <= j < i + n && j < |readings| ==> readings[j] < deadline
    ensures staging + intake[..n] <= DrainFrom(staging, intake, readings, arrivals, deadline, i).staging
    decreases n
  {
    if n > 0 {
      DrainStep(staging, intake, readings, arrivals, deadline, i);
      var queued := intake + RoundArrivals(arrivals, i - 1);
      DrainTakesPrefix(staging + [queued[0]], queued[1..], readings, arrivals, deadline, i + 1, n - 1);
      PrefixShift(staging, intake, RoundArrivals(arrivals, i - 1), n);
    } else {
      DrainKeepsStaged(staging, intake, readings, arrivals, deadline, i);
      assert staging + intake[..0] == staging;
    }
  }

  /** A whole drain whose first |intake| clock checks fall inside the window
      stages the whole intake queue behind what was already staged, whatever
      producers add meanwhile. */
  lemma DrainAllTakesQueued(staging: seq<string>, intake: seq<string>, readings: seq<int>,
                            arrivals: seq<seq<string>>, window: int)
    requires CoversWindow(readings, window)
    ensures (forall j :: 1 <= j <= |intake| && j < |readings| ==> readings[j] < readings[0] + window)
            ==> staging + intake <= DrainAll(staging, intake, readings, arrivals, window).staging
  {
    if forall j :: 1 <= j <= |intake| && j < |readings| ==> readings[j] < readings[0] + window {
      DrainTakesPrefix(staging, intake, readings, arrivals, readings[0] + window, 1, |intake|);
      assert intake[..|intake|] == intake;
    }
  }

  /** The same, for a whole drain, stated for all inputs. */
  lemma DrainAllFlushes(staging: seq<string>, intake: seq<string>, readings: seq<int>,
                        arrivals: seq<seq<string>>, window: int)
    requires CoversWindow(readings, window)
    ensures NoArrivals(arrivals)
            && (forall j :: 1 <= j <= |intake| && j < |readings| ==> readings[j] < readings[0] + window)
            ==> DrainAll(staging, intake, readings, arrivals, window).intake == []
  {
    if NoArrivals(arrivals)
       && (forall j :: 1 <= j <= |intake| && j < |readings| ==> readings[j] < readings[0] + window)
    {
      DrainFlushes(staging, intake, readings, arrivals, readings[0] + window, 1);
    }
  }

  /** Without producer activity nothing arrives, however many rounds run. */
  lemma {:induction false} NothingArrivedDuring(arrivals: seq<seq<string>>, lo: nat, hi: nat)
    requires NoArrivals(arrivals)
    ensures ArrivedDuring(arrivals, lo, hi) == []
    decreases hi - lo
  {
    if lo < hi {
      NothingArrivedDuring(arrivals, lo + 1, hi);
    }
  }
}
