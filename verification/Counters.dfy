/** check.go, UpdateCheck: the anti-flapping counters and the critical-time record of one check. */
module Counters {
  import opened Options
  import opened Definitions

  /** passing_threshold and critical_threshold; ValidateConfig rejects negative ones. */
  datatype Thresholds = Thresholds(passing: nat, critical: nat)

  /** The mutable part of a tracked check. */
  datatype Local = Local(status: string, output: string, fails: int, succs: int)

  datatype Verdict = Idempotent | Counted | Accepted

  /** What a result amounts to: no news, counted towards a threshold, or accepted. */
  function Judge(th: Thresholds, l: Local, status: string, output: string): Verdict {
    if l.status == status && l.output == output then Idempotent
    else if status == CRITICAL then (if l.fails < th.critical then Counted else Accepted)
    else if l.succs < th.passing then Counted
    else Accepted
  }

  function DecrementCounter(count: int): int {
    if count == 0 then 0 else count - 1
  }

  /** The counters after a result. */
  function Count(th: Thresholds, l: Local, status: string, output: string): Local {
    match Judge(th, l, status, output)
    case Idempotent => l.(fails := DecrementCounter(l.fails), succs := DecrementCounter(l.succs))
    case Counted => if status == CRITICAL then l.(fails := l.fails + 1) else l.(succs := l.succs + 1)
    case Accepted => if status == CRITICAL then l.(fails := 0) else l.(succs := 0)
  }

  /** The record of when the check became critical: written once, kept by later critical results,
      removed by an accepted non-critical one. */
  function TrackCritical(critical: Option<int>, v: Verdict, status: string, now: int): Option<int> {
    if v == Counted then critical
    else if status == CRITICAL then (if critical.Some? then critical else Some(now))
    else if v == Accepted then None
    else critical
  }

  ghost predicate Bounded(th: Thresholds, l: Local) {
    0 <= l.fails <= th.critical && 0 <= l.succs <= th.passing
  }

  // ---------------------------------------------------------------- whole runs of one check

  datatype CheckState = CheckState(local: Local, critical: Option<int>)

  /** What can happen to a check. An accepted result sticks when it becomes the local state (optimistically, by a
      successful push, or as a deferred output). A rewrite is a resync from the catalog or a revert. A restart is the
      check leaving the list and coming back. */
  datatype Event =
    | Result(status: string, output: string, now: int, sticks: bool)
    | Rewrite(status: string, output: string)
    | Restart(status: string, output: string)

  function Step(th: Thresholds, s: CheckState, e: Event): CheckState {
    match e
    case Result(status, output, now, sticks) =>
      var v := Judge(th, s.local, status, output);
      var l := Count(th, s.local, status, output);
      CheckState(if v == Accepted && sticks then l.(status := status, output := output) else l,
                 TrackCritical(s.critical, v, status, now))
    case Rewrite(status, output) => s.(local := s.local.(status := status, output := output))
    case Restart(status, output) => CheckState(Local(status, output, 0, 0), None)
  }

  function Run(th: Thresholds, s: CheckState, es: seq<Event>): CheckState {
    if es == [] then s else Step(th, Run(th, s, es[..|es| - 1]), es[|es| - 1])
  }

  /** The state in which event i happens. */
  function Before(th: Thresholds, s: CheckState, es: seq<Event>, i: nat): CheckState
    requires i <= |es|
  {
    Run(th, s, es[..i])
  }

  lemma {:induction false} StaysBounded(th: Thresholds, s: CheckState, es: seq<Event>)
    requires Bounded(th, s.local)
    ensures Bounded(th, Run(th, s, es).local)
  {
    if es != [] {
      StaysBounded(th, s, es[..|es| - 1]);
    }
  }

  predicate IsResult(e: Event, critical: bool) {
    e.Result? && (e.status == CRITICAL) == critical
  }

  /** Results received, critical or not. */
  function Received(es: seq<Event>, critical: bool): nat {
    if es == [] then 0
    else Received(es[..|es| - 1], critical) + (if IsResult(es[|es| - 1], critical) then 1 else 0)
  }

  /** Results of that sort that were accepted. */
  function AcceptedCount(th: Thresholds, s: CheckState, es: seq<Event>, critical: bool): nat {
    if es == [] then 0
    else
      var e := es[|es| - 1];
      AcceptedCount(th, s, es[..|es| - 1], critical)
      + if && IsResult(e, critical)
           && Judge(th, Run(th, s, es[..|es| - 1]).local, e.status, e.output) == Accepted then 1 else 0
  }

  /** The counter of critical (or other) results, and its threshold. */
  function CounterOf(l: Local, critical: bool): int {
    if critical then l.fails else l.succs
  }

  function ThresholdOf(th: Thresholds, critical: bool): nat {
    if critical then th.critical else th.passing
  }

  function CounterFor(l: Local, status: string): int {
    CounterOf(l, status == CRITICAL)
  }

  function ThresholdFor(th: Thresholds, status: string): nat {
    ThresholdOf(th, status == CRITICAL)
  }

  /** What these have cost, at threshold + 1 results each. */
  function Spent(th: Thresholds, s: CheckState, es: seq<Event>, critical: bool): nat {
    AcceptedCount(th, s, es, critical) * (ThresholdOf(th, critical) + 1)
  }

  lemma OneMore(a: nat, t: nat)
    ensures (a + 1) * (t + 1) == a * (t + 1) + t + 1
  {
  }

  /** One result moves its counter by at most one, and empties a full one when it is accepted. */
  lemma CounterMoves(th: Thresholds, s: CheckState, e: Event, critical: bool)
    requires Bounded(th, s.local)
    ensures var c0, c1 := CounterOf(s.local, critical), CounterOf(Step(th, s, e).local, critical);
      if IsResult(e, critical) then
        if Judge(th, s.local, e.status, e.output) == Accepted then c0 == ThresholdOf(th, critical) && c1 == 0
        else c1 <= c0 + 1
      else c1 <= c0
  {
  }

  /** No flapping: over any run, with resyncs, reverts and restarts anywhere in it, each accepted update is paid for by
      threshold + 1 results of its sort, and what the counter holds is paid for on top. */
  lemma {:induction false} AcceptedArePaidFor(th: Thresholds, s: CheckState, es: seq<Event>, critical: bool)
    requires Bounded(th, s.local) && s.local.fails == 0 && s.local.succs == 0
    ensures Spent(th, s, es, critical) + CounterOf(Run(th, s, es).local, critical) <= Received(es, critical)
  {
    if es != [] {
      var before := es[..|es| - 1];
      AcceptedArePaidFor(th, s, before, critical);
      StaysBounded(th, s, before);
      CounterMoves(th, Run(th, s, before), es[|es| - 1], critical);
      OneMore(AcceptedCount(th, s, before, critical), ThresholdOf(th, critical));
    }
  }

  /** The result says what is known already. */
  predicate IsRepeat(l: Local, e: Event) {
    e.Result? && e.status == l.status && e.output == l.output
  }

  /** Results of that sort that were no repeats. */
  function News(th: Thresholds, s: CheckState, es: seq<Event>, critical: bool): nat {
    if es == [] then 0
    else
      var before, e := es[..|es| - 1], es[|es| - 1];
      News(th, s, before, critical)
      + if e.Result? && (e.status == CRITICAL) == critical && !IsRepeat(Run(th, s, before).local, e) then 1 else 0
  }

  /** Repeats, of either sort, that found something counted. */
  function TakenBack(th: Thresholds, s: CheckState, es: seq<Event>, critical: bool): nat {
    if es == [] then 0
    else
      var before, e := es[..|es| - 1], es[|es| - 1];
      var l := Run(th, s, before).local;
      TakenBack(th, s, before, critical) + if IsRepeat(l, e) && CounterOf(l, critical) > 0 then 1 else 0
  }

  lemma OneEventBalances(th: Thresholds, s: CheckState, e: Event, critical: bool)
    requires Bounded(th, s.local) && !e.Restart?
    ensures var c0, c1 := CounterOf(s.local, critical), CounterOf(Step(th, s, e).local, critical);
            var news := e.Result? && (e.status == CRITICAL) == critical && !IsRepeat(s.local, e);
            var accepted := IsResult(e, critical) && Judge(th, s.local, e.status, e.output) == Accepted;
            var back := IsRepeat(s.local, e) && c0 > 0;
      c0 + (if news then 1 else 0)
      == c1 + (if accepted then ThresholdOf(th, critical) + 1 else 0) + if back then 1 else 0
  {
  }

  /** The exact account, over any run without restarts: of each sort, what was counted before and the results that
      were no repeats make up what accepted updates have cost, at threshold + 1 each, what repeats have taken back,
      and what is counted now. Nothing else moves a counter. */
  lemma {:induction false} AccountBalances(th: Thresholds, s: CheckState, es: seq<Event>, critical: bool)
    requires Bounded(th, s.local) && forall e | e in es :: !e.Restart?
    ensures CounterOf(s.local, critical) + News(th, s, es, critical)
            == Spent(th, s, es, critical) + TakenBack(th, s, es, critical) + CounterOf(Run(th, s, es).local, critical)
  {
    if es != [] {
      var before, e := es[..|es| - 1], es[|es| - 1];
      assert e in es && forall o | o in before :: o in es;
      AccountBalances(th, s, before, critical);
      StaysBounded(th, s, before);
      OneEventBalances(th, Run(th, s, before), e, critical);
      OneMore(AcceptedCount(th, s, before, critical), ThresholdOf(th, critical));
    }
  }

  /** n copies of one result, none of which is undone. */
  function Repeated(status: string, output: string, now: int, n: nat): seq<Event> {
    seq(n, _ => Result(status, output, now, true))
  }

  /** Identical results with a new status are counted until the threshold, accepted once, and are no news after that:
      threshold + 1 of them are enough from any counter value. */
  lemma {:induction false} CatchesUp(th: Thresholds, s: CheckState, status: string, output: string, now: int, n: nat)
    requires Bounded(th, s.local) && s.local.status != status
    ensures var r := Run(th, s, Repeated(status, output, now, n)).local;
            var missing := ThresholdFor(th, status) - CounterFor(s.local, status);
      && missing <= ThresholdFor(th, status)
      && (n <= missing ==> r.status == s.local.status && CounterFor(r, status) == CounterFor(s.local, status) + n)
      && (n > missing ==> r.status == status && r.output == output)
  {
    if n > 0 {
      CatchesUp(th, s, status, output, now, n - 1);
      assert Repeated(status, output, now, n)[..n - 1] == Repeated(status, output, now, n - 1);
    }
  }

  /** Repeats of what is known already take both counters back, by one each until they are zero, and change nothing
      else. */
  lemma {:induction false} RepeatsTakeBack(th: Thresholds, s: CheckState, now: int, n: nat)
    requires Bounded(th, s.local)
    ensures var l := s.local; var r := Run(th, s, Repeated(l.status, l.output, now, n)).local;
      && r.status == l.status && r.output == l.output
      && r.fails == (if n < l.fails then l.fails - n else 0)
      && r.succs == (if n < l.succs then l.succs - n else 0)
  {
    if n > 0 {
      var status, output := s.local.status, s.local.output;
      RepeatsTakeBack(th, s, now, n - 1);
      assert Repeated(status, output, now, n)[..n - 1] == Repeated(status, output, now, n - 1);
    }
  }

  /** So results that come and go do not add up: a new output that was counted once is forgotten after one repeat of the
      known one, however often the two alternate. */
  lemma {:induction false} AlternatingIsNotAccepted(th: Thresholds, s: CheckState, output: string, now: int, n: nat)
    requires Bounded(th, s.local) && CounterFor(s.local, s.local.status) == 0 < ThresholdFor(th, s.local.status)
    requires output != s.local.output
    ensures var r := Run(th, s, Alternating(s.local.status, output, s.local.output, now, n)).local;
      && r.status == s.local.status && r.output == s.local.output && Bounded(th, r)
      && CounterFor(r, s.local.status) == 0
  {
    if n > 0 {
      var l, es := s.local, Alternating(s.local.status, output, s.local.output, now, n);
      AlternatingIsNotAccepted(th, s, output, now, n - 1);
      assert es[..|es| - 1][..|es| - 2] == Alternating(l.status, output, l.output, now, n - 1);
    }
  }

  /** n times a new output and then the known one. */
  function Alternating(status: string, output: string, known: string, now: int, n: nat): seq<Event> {
    if n == 0 then []
    else
      Alternating(status, output, known, now, n - 1)
      + [Result(status, output, now, true), Result(status, known, now, true)]
  }

  // ---------------------------------------------------------------- the critical-time record

  /** Event i is a critical result that says what is known already, or finds the counter at the threshold. */
  predicate RecordsAt(th: Thresholds, s: CheckState, es: seq<Event>, i: nat)
    requires i < |es|
  {
    var l, e := Before(th, s, es, i).local, es[i];
    e.Result? && e.status == CRITICAL && ((l.status == e.status && l.output == e.output) || l.fails >= th.critical)
  }

  /** Event i is a non-critical result that brings something new and finds the counter at the threshold, or the check is
      dropped. */
  predicate ClearsAt(th: Thresholds, s: CheckState, es: seq<Event>, i: nat)
    requires i < |es|
  {
    var l, e := Before(th, s, es, i).local, es[i];
    || e.Restart?
    || (e.Result? && e.status != CRITICAL && !(l.status == e.status && l.output == e.output) && l.succs >= th.passing)
  }

  /** Event i starts the current spell: it records, nothing clears later, and everything recorded before it was
      cleared. */
  ghost predicate StartsSpell(th: Thresholds, s: CheckState, es: seq<Event>, i: nat)
    requires i < |es|
  {
    && RecordsAt(th, s, es, i)
    && (forall j | i < j < |es| :: !ClearsAt(th, s, es, j))
    && (forall j | 0 <= j < i && RecordsAt(th, s, es, j) :: exists k :: j < k < i && ClearsAt(th, s, es, k))
  }

  /** Every record has been cleared since. */
  ghost predicate AllCleared(th: Thresholds, s: CheckState, es: seq<Event>) {
    forall j | 0 <= j < |es| && RecordsAt(th, s, es, j) :: exists k :: j < k < |es| && ClearsAt(th, s, es, k)
  }

  /** What happened before the last event does not depend on it. */
  lemma PastIsFixed(th: Thresholds, s: CheckState, es: seq<Event>)
    requires es != []
    ensures var before := es[..|es| - 1];
      forall i | 0 <= i < |before| ::
        RecordsAt(th, s, es, i) == RecordsAt(th, s, before, i) && ClearsAt(th, s, es, i) == ClearsAt(th, s, before, i)
  {
    var before := es[..|es| - 1];
    forall i | 0 <= i < |before|
      ensures RecordsAt(th, s, es, i) == RecordsAt(th, s, before, i)
      ensures ClearsAt(th, s, es, i) == ClearsAt(th, s, before, i)
    {
      assert before[..i] == es[..i];
    }
  }

  /** A spell goes on until something clears it. */
  lemma SpellGoesOn(th: Thresholds, s: CheckState, es: seq<Event>, i: nat)
    requires es != [] && i < |es| - 1
    ensures StartsSpell(th, s, es, i)
            <==> StartsSpell(th, s, es[..|es| - 1], i) && !ClearsAt(th, s, es, |es| - 1)
  {
    PastIsFixed(th, s, es);
  }

  /** The last event starts a spell exactly when it records and all before it was cleared. */
  lemma SpellStartsNow(th: Thresholds, s: CheckState, es: seq<Event>)
    requires es != []
    ensures StartsSpell(th, s, es, |es| - 1)
            <==> RecordsAt(th, s, es, |es| - 1) && AllCleared(th, s, es[..|es| - 1])
    ensures AllCleared(th, s, es)
            <==> ClearsAt(th, s, es, |es| - 1)
                 || (!RecordsAt(th, s, es, |es| - 1) && AllCleared(th, s, es[..|es| - 1]))
  {
    PastIsFixed(th, s, es);
    if AllCleared(th, s, es) && !ClearsAt(th, s, es, |es| - 1) {
      assert AllCleared(th, s, es[..|es| - 1]);
    }
  }

  lemma LastEventTells(th: Thresholds, s: CheckState, es: seq<Event>)
    requires es != []
    ensures var n := |es| - 1; var c0 := Run(th, s, es[..n]).critical;
      Run(th, s, es).critical
      == if RecordsAt(th, s, es, n) then (if c0.Some? then c0 else Some(es[n].now))
         else if ClearsAt(th, s, es, n) then None else c0
  {
  }

  /** Over any run: nothing is recorded exactly when every critical result has been cleared since; otherwise the
      recorded time is that of the first critical result of the current spell, and it is never overwritten. */
  lemma {:induction false} CriticalTimeIsSpellStart(th: Thresholds, s: CheckState, es: seq<Event>)
    requires s.critical == None
    ensures var c := Run(th, s, es).critical;
      && (c == None <==> AllCleared(th, s, es))
      && (c.Some? ==> exists i :: 0 <= i < |es| && StartsSpell(th, s, es, i))
      && (forall i | 0 <= i < |es| && StartsSpell(th, s, es, i) :: c == Some(es[i].now))
  {
    if es != [] {
      var n := |es| - 1;
      var before := es[..n];
      CriticalTimeIsSpellStart(th, s, before);
      LastEventTells(th, s, es);
      SpellStartsNow(th, s, es);
      forall i | 0 <= i < n
        ensures StartsSpell(th, s, es, i) <==> StartsSpell(th, s, before, i) && !ClearsAt(th, s, es, n)
      {
        SpellGoesOn(th, s, es, i);
      }
      var c0, c := Run(th, s, before).critical, Run(th, s, es).critical;
      if c.Some? && c0.Some? {
        var i :| 0 <= i < n && StartsSpell(th, s, before, i);
        assert StartsSpell(th, s, es, i);
      }
    }
  }

  /** A non-critical result removes the record exactly when it is accepted. */
  lemma WhatClears(th: Thresholds, s: CheckState, status: string, output: string, now: int, sticks: bool)
    requires status != CRITICAL
    ensures Step(th, s, Result(status, output, now, sticks)).critical == None
            <==> s.critical == None || Judge(th, s.local, status, output) == Accepted
  {
  }

  /** So a check may stay recorded as critical while it passes: one critical result whose push fails, and then passing
      results with the output known from before, for as long as they go on. */
  lemma {:induction false} PassingButStillRecorded(n: nat)
    ensures var es := [Result(CRITICAL, "down", 7, false)] + Repeated(PASSING, "ok", 8, n);
      Run(Thresholds(0, 0), CheckState(Local(PASSING, "ok", 0, 0), None), es)
      == CheckState(Local(PASSING, "ok", 0, 0), Some(7))
  {
    var first := [Result(CRITICAL, "down", 7, false)];
    var th, s := Thresholds(0, 0), CheckState(Local(PASSING, "ok", 0, 0), None);
    var es := first + Repeated(PASSING, "ok", 8, n);
    if n == 0 {
      assert es[..0] == [];
      assert es[0] == first[0] && |es| == 1;
    } else {
      PassingButStillRecorded(n - 1);
      assert es[..|es| - 1] == first + Repeated(PASSING, "ok", 8, n - 1);
    }
  }

  // ---------------------------------------------------------------- the documented counter

  /** The README's counter: up on a result opposite to the current status, down on an equal one, and a flip and a reset
      when it passes the threshold. */
  datatype Documented = Documented(status: string, c: nat)

  function DocumentedStep(th: Thresholds, d: Documented, status: string): Documented {
    if status == d.status then d.(c := if d.c == 0 then 0 else d.c - 1)
    else if d.c + 1 > ThresholdFor(th, status) then Documented(status, 0)
    else d.(c := d.c + 1)
  }

  function DocumentedRun(th: Thresholds, d: Documented, statuses: seq<string>): Documented {
    if statuses == [] then d
    else DocumentedStep(th, DocumentedRun(th, d, statuses[..|statuses| - 1]), statuses[|statuses| - 1])
  }

  predicate TwoValued(status: string) {
    status == PASSING || status == CRITICAL
  }

  function Opposite(status: string): string {
    if status == CRITICAL then PASSING else CRITICAL
  }

  /** The counter of the opposite status is the documented one, and the other is zero. */
  predicate Refines(l: Local, d: Documented) {
    && l.status == d.status
    && CounterFor(l, Opposite(d.status)) == d.c
    && CounterFor(l, d.status) == 0
  }

  /** One result, accepted updates sticking: the two counters follow the documented one exactly when the result does not
      bring a new output for the current status (or, if it does, finds a zero threshold and a zero counter). */
  lemma RefinesOneStep(th: Thresholds, l: Local, d: Documented, status: string, output: string, now: int)
    requires TwoValued(l.status) && TwoValued(status) && Refines(l, d)
    ensures var l' := Step(th, CheckState(l, None), Result(status, output, now, true)).local;
      Refines(l', DocumentedStep(th, d, status))
      <==> || status != l.status
           || output == l.output
           || (ThresholdFor(th, status) == 0 && d.c == 0)
  {
  }

  /** The results that a sequence of statuses gives when the output is a function of the status. */
  function Outputs(statuses: seq<string>, out: string -> string, now: int): seq<Event> {
    seq(|statuses|, i requires 0 <= i < |statuses| => Result(statuses[i], out(statuses[i]), now, true))
  }

  /** When the output is a function of the status and pushes succeed, the two counters simulate the documented one over
      whole runs, flipping on the same results. */
  lemma {:induction false} RefinesWholeRuns(
      th: Thresholds, s: CheckState, d: Documented, statuses: seq<string>, out: string -> string, now: int)
    requires TwoValued(s.local.status) && s.local.output == out(s.local.status) && Refines(s.local, d)
    requires forall i | 0 <= i < |statuses| :: TwoValued(statuses[i])
    ensures var r := Run(th, s, Outputs(statuses, out, now)).local;
      Refines(r, DocumentedRun(th, d, statuses)) && TwoValued(r.status) && r.output == out(r.status)
  {
    if statuses != [] {
      var n := |statuses| - 1;
      RefinesWholeRuns(th, s, d, statuses[..n], out, now);
      assert Outputs(statuses, out, now)[..n] == Outputs(statuses[..n], out, now);
      var r := Run(th, s, Outputs(statuses[..n], out, now));
      RefinesOneStep(th, r.local, DocumentedRun(th, d, statuses[..n]), statuses[n], out(statuses[n]), now);
    }
  }
}
