/** What the load generator's numbers mean, counted from the events of a run. */
module LoadSenderExact {
  import opened Common
  import opened LoadSender
  import opened LoadSenderSafety

  // ---------------------------------------------------------------------
  // Outcomes
  // ---------------------------------------------------------------------

  datatype Kind = Succeeded | Errored | RanOutOfTime

  /** How an ending is to be counted: by its status, or by the exception. */
  predicate IsOf(ending: Ending, kind: Kind) {
    match kind
    case Succeeded => ending.Answered? && ending.status < 400
    case Errored => (ending.Answered? && ending.status >= 400) || (ending.Raised? && !ending.timedOut)
    case RanOutOfTime => ending.Raised? && ending.timedOut
  }

  /** How many running requests ended in this way over a run. */
  function EndsOf(cfg: Config, s: State, run: seq<Moment>, kind: Kind): nat {
    if |run| == 0 then 0
    else
      var init, e := run[..|run| - 1], run[|run| - 1].event;
      EndsOf(cfg, s, init, kind) +
      if e.End? && e.id in After(cfg, s, init).running && IsOf(e.ending, kind) then 1 else 0
  }

  function CountOf(c: Counters, kind: Kind): int {
    match kind
    case Succeeded => c.completed
    case Errored => c.failed
    case RanOutOfTime => c.timedOut
  }

  lemma StepCounts(cfg: Config, s: State, now: real, e: Event, kind: Kind)
    ensures CountOf(Step(cfg, s, now, e).count, kind) ==
            CountOf(s.count, kind) + if e.End? && e.id in s.running && IsOf(e.ending, kind) then 1 else 0
  {
  }

  lemma {:induction false} KindIsCounted(cfg: Config, clock: real, run: seq<Moment>, kind: Kind)
    ensures CountOf(After(cfg, Initial(cfg, clock), run).count, kind) == EndsOf(cfg, Initial(cfg, clock), run, kind)
  {
    if |run| > 0 {
      var init, last := run[..|run| - 1], run[|run| - 1];
      KindIsCounted(cfg, clock, init, kind);
      StepCounts(cfg, After(cfg, Initial(cfg, clock), init), last.now, last.event, kind);
    }
  }

  /**
    Over every run: completed counts the requests answered with a status below 400, failed those
    answered with another status or ended by an exception other than a timeout, and timed out the timeouts.
  */
  lemma OutcomesExactly(cfg: Config, clock: real, run: seq<Moment>)
    ensures var c, s := After(cfg, Initial(cfg, clock), run).count, Initial(cfg, clock);
      && c.completed == EndsOf(cfg, s, run, Succeeded)
      && c.failed == EndsOf(cfg, s, run, Errored)
      && c.timedOut == EndsOf(cfg, s, run, RanOutOfTime)
  {
    KindIsCounted(cfg, clock, run, Succeeded);
    KindIsCounted(cfg, clock, run, Errored);
    KindIsCounted(cfg, clock, run, RanOutOfTime);
  }

  // ---------------------------------------------------------------------
  // Launches and depth
  // ---------------------------------------------------------------------

  /** How many requests were scheduled over a run. */
  function LaunchesOf(cfg: Config, s: State, run: seq<Moment>): nat {
    if |run| == 0 then 0
    else
      var init := run[..|run| - 1];
      LaunchesOf(cfg, s, init) +
      if run[|run| - 1].event.Launch? && !After(cfg, s, init).schedulingComplete then 1 else 0
  }

  /** The greatest depth of the backlog at any point of a run. */
  function PeakDepth(cfg: Config, s: State, run: seq<Moment>): nat {
    var depth := |After(cfg, s, run).backlog|;
    if |run| == 0 then depth
    else
      var before := PeakDepth(cfg, s, run[..|run| - 1]);
      if depth > before then depth else before
  }

  lemma StepSchedules(cfg: Config, s: State, now: real, e: Event)
    requires s.count.scheduled >= 0
    ensures Step(cfg, s, now, e).count.scheduled ==
            s.count.scheduled + if e.Launch? && !s.schedulingComplete then 1 else 0
  {
  }

  lemma LaunchDeepens(cfg: Config, s: State, now: real)
    requires |s.backlog| <= s.count.backlogMaxDepth
    ensures var t := Step(cfg, s, now, Launch);
      t.count.backlogMaxDepth == Max(s.count.backlogMaxDepth, |t.backlog|)
  {
  }

  lemma StepDeepens(cfg: Config, s: State, now: real, e: Event)
    requires |s.backlog| <= s.count.backlogMaxDepth
    ensures var t := Step(cfg, s, now, e);
      t.count.backlogMaxDepth == Max(s.count.backlogMaxDepth, |t.backlog|)
  {
    if e.Launch? {
      LaunchDeepens(cfg, s, now);
    } else {
      var t := Step(cfg, s, now, e);
      assert |t.backlog| <= |s.backlog| && t.count.backlogMaxDepth == s.count.backlogMaxDepth;
    }
  }

  /** The scheduled counter counts the launches, and the maximum depth is the peak of the run. */
  lemma {:induction false} SchedulesExactly(cfg: Config, clock: real, run: seq<Moment>)
    ensures var c, s := After(cfg, Initial(cfg, clock), run).count, Initial(cfg, clock);
      c.scheduled == LaunchesOf(cfg, s, run) && c.backlogMaxDepth == PeakDepth(cfg, s, run)
  {
    if |run| > 0 {
      var init, last := run[..|run| - 1], run[|run| - 1];
      SchedulesExactly(cfg, clock, init);
      var s := After(cfg, Initial(cfg, clock), init);
      RunKeeps(cfg, clock, init);
      StepSchedules(cfg, s, last.now, last.event);
      StepDeepens(cfg, s, last.now, last.event);
    }
  }

  /** A launch takes a free token, else a place in the backlog, else it is dropped: never anything else. */
  lemma LaunchExactly(cfg: Config, s: State, now: real)
    requires Inv(cfg, s) && !s.schedulingComplete
    ensures var t, id := Step(cfg, s, now, Launch), s.count.scheduled;
      if s.tokens > 0 then
        && t.running == s.running + {id} && t.tokens == s.tokens - 1 && t.backlog == s.backlog
        && t.count.startedImmediate == s.count.startedImmediate + 1
        && t.count.droppedCapacity == s.count.droppedCapacity
      else if |s.backlog| < cfg.backlogCapacity then
        && t.backlog == s.backlog + [Item(id, if now > s.clock then now else s.clock)]
        && t.running == s.running && t.count.enqueued == s.count.enqueued + 1
        && t.count.droppedCapacity == s.count.droppedCapacity
      else
        && t.backlog == s.backlog && t.running == s.running
        && t.count.droppedCapacity == s.count.droppedCapacity + 1
  {
  }

  /** The backlog loop at the top: it returns when all is done, waits when there is nothing yet, drops a
      head that is too old without taking a token, and otherwise asks for one. */
  lemma LoopTopExactly(cfg: Config, s: State, now: real)
    requires Inv(cfg, s) && s.loop == AtTop
    ensures var t, clock := Step(cfg, s, now, LoopStep), if now > s.clock then now else s.clock;
      && t.tokens == s.tokens && t.running == s.running
      && if |s.backlog| == 0 then
           t.backlog == [] && t.loop == if s.schedulingComplete then Returned else AwaitingWork
         else if clock - s.backlog[0].enqueuedAt > cfg.maxAge then
           && t.backlog == s.backlog[1..] && t.loop == AtTop
           && t.count.backlogExpired == s.count.backlogExpired + 1
         else t.backlog == s.backlog && t.loop == AwaitingToken
  {
  }

  /** The backlog loop with a token: the head is started if it is young enough, and dropped if not. */
  lemma LoopWithTokenExactly(cfg: Config, s: State, now: real)
    requires Inv(cfg, s) && s.loop == AwaitingToken && s.tokens > 0
    ensures var t, clock := Step(cfg, s, now, TakeToken), if now > s.clock then now else s.clock;
      && t.backlog == s.backlog[1..] && t.loop == AtTop
      && if clock - s.backlog[0].enqueuedAt > cfg.maxAge then
           t.running == s.running && t.tokens == s.tokens && t.count.backlogExpired == s.count.backlogExpired + 1
         else
           && t.running == s.running + {s.backlog[0].id} && t.tokens == s.tokens - 1
           && t.count.startedFromBacklog == s.count.startedFromBacklog + 1
  {
  }
}
