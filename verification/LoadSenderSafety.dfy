/** What every interleaving of the load generator keeps. */
module LoadSenderSafety {
  import opened Common
  import opened LoadSender

  /** What the source reports as in flight: the tokens that are out. */
  function Inflight(cfg: Config, s: State): int { cfg.maxInflight - s.tokens }

  /** The balance of the counters at every await point. A request whose outcome is counted but whose
      response is still being closed is in flight as well, so it is taken off once. */
  predicate Books(cfg: Config, s: State) {
    var c := s.count;
    && c.scheduled == c.completed + c.failed + c.timedOut + (Inflight(cfg, s) - |s.closing|)
                      + |s.backlog| + c.droppedCapacity
    && c.enqueued == c.startedFromBacklog + c.backlogExpired + |s.backlog|
    && c.started == c.startedImmediate + c.startedFromBacklog
    && c.started == c.completed + c.failed + c.timedOut + (Inflight(cfg, s) - |s.closing|)
    && c.droppedBacklogFull == (if cfg.backlogCapacity > 0 then c.droppedCapacity - c.backlogExpired else 0)
    && c.completed >= 0 && c.failed >= 0 && c.timedOut >= 0 && c.droppedCapacity >= 0
  }

  /** Free tokens, running requests and responses being closed make up the pool; the backlog stays
      inside its capacity. */
  predicate Pool(cfg: Config, s: State) {
    && s.tokens >= 0 && s.tokens + |s.running| + |s.closing| == cfg.maxInflight
    && |s.backlog| <= s.count.backlogMaxDepth <= cfg.backlogCapacity
  }

  function Items(taken: seq<Taken>): seq<Item> {
    seq(|taken|, i requires 0 <= i < |taken| => taken[i].item)
  }

  /** The backlog is a queue: what arrived is what was taken followed by what still waits. */
  predicate Fifo(s: State) {
    && s.arrived == Items(s.taken) + s.backlog
    && (forall i, j :: 0 <= i < j < |s.arrived| ==>
          s.arrived[i].id < s.arrived[j].id && s.arrived[i].enqueuedAt <= s.arrived[j].enqueuedAt)
    && (forall i :: 0 <= i < |s.arrived| ==> s.arrived[i].id < s.count.scheduled && s.arrived[i].enqueuedAt <= s.clock)
  }

  predicate Identities(s: State) {
    && s.count.scheduled >= 0
    && (forall id :: id in s.running ==> id < s.count.scheduled)
    && (forall i :: 0 <= i < |s.backlog| ==> s.backlog[i].id !in s.running)
    && s.closing !! s.running
    && (forall id :: id in s.closing ==> id < s.count.scheduled)
    && (forall i :: 0 <= i < |s.backlog| ==> s.backlog[i].id !in s.closing)
  }

  /** An item is started exactly when it has not outlived the maximum age. */
  predicate Aged(cfg: Config, s: State) {
    && (forall i :: 0 <= i < |s.taken| ==>
          (s.taken[i].started <==> s.taken[i].at - s.taken[i].item.enqueuedAt <= cfg.maxAge))
    && s.count.startedFromBacklog == StartedAmong(s.taken, |s.taken|)
  }

  function StartedAmong(taken: seq<Taken>, n: nat): int
    requires n <= |taken|
  {
    if n == 0 then 0 else StartedAmong(taken, n - 1) + if taken[n - 1].started then 1 else 0
  }

  predicate LoopInv(s: State) {
    && (s.loop == AwaitingToken ==> |s.backlog| > 0)
    && (s.loop == Returned ==> s.schedulingComplete && |s.backlog| == 0)
  }

  predicate Inv(cfg: Config, s: State) {
    Books(cfg, s) && Pool(cfg, s) && Fifo(s) && Identities(s) && Aged(cfg, s) && LoopInv(s)
  }

  lemma {:induction false} StartedAmongAppend(taken: seq<Taken>, t: Taken, n: nat)
    requires n <= |taken|
    ensures StartedAmong(taken + [t], n) == StartedAmong(taken, n)
  {
    if n > 0 {
      StartedAmongAppend(taken, t, n - 1);
    }
  }

  lemma WaitingIds(s: State)
    requires Fifo(s)
    ensures forall i :: 0 <= i < |s.backlog| ==> s.backlog[i].id < s.count.scheduled
  {
    forall i | 0 <= i < |s.backlog| ensures s.backlog[i].id < s.count.scheduled {
      assert s.arrived[|s.taken| + i] == s.backlog[i];
    }
  }

  lemma InitialInv(cfg: Config, clock: real)
    ensures Inv(cfg, Initial(cfg, clock))
  {
  }

  lemma ImmediateLaunchKeeps(cfg: Config, s: State)
    requires Inv(cfg, s) && Enabled(s, Launch) && s.tokens > 0
    ensures Inv(cfg, LaunchOrBacklog(cfg, s))
  {
    var id: nat := s.count.scheduled;
    var t := LaunchOrBacklog(cfg, s);
    assert id !in s.running && id !in s.closing;
    WaitingIds(s);
    assert |t.running| == |s.running| + 1;
  }

  lemma BackloggedLaunchKeeps(cfg: Config, s: State)
    requires Inv(cfg, s) && Enabled(s, Launch) && s.tokens == 0
    ensures Inv(cfg, LaunchOrBacklog(cfg, s))
  {
    var id: nat := s.count.scheduled;
    var t := LaunchOrBacklog(cfg, s);
    assert id !in s.running && id !in s.closing;
    WaitingIds(s);
    if |s.backlog| < cfg.backlogCapacity {
      assert t.arrived == Items(t.taken) + t.backlog;
    }
  }

  lemma LaunchKeeps(cfg: Config, s: State)
    requires Inv(cfg, s) && Enabled(s, Launch)
    ensures Inv(cfg, LaunchOrBacklog(cfg, s))
  {
    if s.tokens > 0 {
      ImmediateLaunchKeeps(cfg, s);
    } else {
      BackloggedLaunchKeeps(cfg, s);
    }
  }

  lemma DropHeadKeeps(cfg: Config, s: State)
    requires Books(cfg, s) && Pool(cfg, s) && Fifo(s) && Identities(s) && Aged(cfg, s)
    requires |s.backlog| > 0 && Expired(cfg, s.backlog[0], s.clock)
    ensures var t := DropExpiredHead(s);
      Books(cfg, t) && Pool(cfg, t) && Fifo(t) && Identities(t) && Aged(cfg, t)
  {
    var t := DropExpiredHead(s);
    TakeHeadKeepsFifo(s, t, false);
    StartedAmongAppend(s.taken, Taken(s.backlog[0], s.clock, false), |s.taken|);
  }

  lemma TakeHeadKeepsFifo(s: State, t: State, started: bool)
    requires Fifo(s) && |s.backlog| > 0
    requires t.arrived == s.arrived && t.clock == s.clock && t.count.scheduled == s.count.scheduled
    requires t.backlog == s.backlog[1..] && t.taken == s.taken + [Taken(s.backlog[0], s.clock, started)]
    ensures Fifo(t)
  {
    assert Items(t.taken) == Items(s.taken) + [s.backlog[0]];
    assert s.backlog == [s.backlog[0]] + t.backlog;
    assert Items(t.taken) + t.backlog == Items(s.taken) + s.backlog;
  }

  lemma HeadIsUnique(s: State)
    requires Fifo(s) && |s.backlog| > 0
    ensures forall i :: 1 <= i < |s.backlog| ==> s.backlog[i].id != s.backlog[0].id
  {
    var k := |s.taken|;
    forall i | 1 <= i < |s.backlog| ensures s.backlog[i].id != s.backlog[0].id {
      assert s.arrived[k] == s.backlog[0] && s.arrived[k + i] == s.backlog[i];
    }
  }

  lemma StartHeadKeeps(cfg: Config, s: State)
    requires Inv(cfg, s) && s.tokens > 0
    requires |s.backlog| > 0 && !Expired(cfg, s.backlog[0], s.clock)
    ensures Inv(cfg, StartHead(s.(loop := AtTop, tokens := s.tokens - 1)))
  {
    var t := StartHead(s.(loop := AtTop, tokens := s.tokens - 1));
    TakeHeadKeepsFifo(s, t, true);
    HeadIsUnique(s);
    WaitingIds(s);
    StartedAmongAppend(s.taken, Taken(s.backlog[0], s.clock, true), |s.taken|);
    assert |t.running| == |s.running| + 1;
    forall i | 0 <= i < |t.backlog| ensures t.backlog[i].id !in t.running && t.backlog[i].id !in t.closing {
      assert t.backlog[i] == s.backlog[i + 1];
    }
  }

  lemma AnswerKeeps(cfg: Config, s: State, id: nat, status: int)
    requires Inv(cfg, s) && id in s.running
    ensures Inv(cfg, EndRequest(s, id, Answered(status)))
  {
    assert |s.running - {id}| == |s.running| - 1;
    assert id !in s.closing;
    assert |s.closing + {id}| == |s.closing| + 1;
  }

  lemma RaiseKeeps(cfg: Config, s: State, id: nat, timedOut: bool)
    requires Inv(cfg, s) && id in s.running
    ensures Inv(cfg, EndRequest(s, id, Raised(timedOut)))
  {
    assert |s.running - {id}| == |s.running| - 1;
  }

  lemma EndKeeps(cfg: Config, s: State, id: nat, ending: Ending)
    requires Inv(cfg, s) && id in s.running
    ensures Inv(cfg, EndRequest(s, id, ending))
  {
    match ending {
      case Answered(status) => AnswerKeeps(cfg, s, id, status);
      case Raised(timedOut) => RaiseKeeps(cfg, s, id, timedOut);
    }
  }

  lemma CloseKeeps(cfg: Config, s: State, id: nat)
    requires Inv(cfg, s) && id in s.closing
    ensures Inv(cfg, CloseRequest(s, id))
  {
    assert |s.closing - {id}| == |s.closing| - 1;
  }

  lemma ClockKeeps(cfg: Config, s: State, now: real)
    requires Inv(cfg, s)
    ensures Inv(cfg, At(s, now))
  {
  }

  lemma LoopIterationKeeps(cfg: Config, s: State)
    requires Inv(cfg, s) && Enabled(s, LoopStep)
    ensures Inv(cfg, LoopIteration(cfg, s))
  {
    if s.loop == AtTop && |s.backlog| > 0 && Expired(cfg, s.backlog[0], s.clock) {
      DropHeadKeeps(cfg, s);
    }
  }

  lemma LoopWithTokenKeeps(cfg: Config, s: State)
    requires Inv(cfg, s) && Enabled(s, TakeToken)
    ensures Inv(cfg, LoopWithToken(cfg, s))
  {
    if Expired(cfg, s.backlog[0], s.clock) {
      DropHeadKeeps(cfg, s.(loop := AtTop));
    } else {
      StartHeadKeeps(cfg, s);
      assert LoopWithToken(cfg, s) == StartHead(s.(loop := AtTop, tokens := s.tokens - 1));
    }
  }

  lemma FireKeeps(cfg: Config, s: State, e: Event)
    requires Inv(cfg, s) && Enabled(s, e)
    ensures Inv(cfg, Fire(cfg, s, e))
  {
    match e {
      case Launch => LaunchKeeps(cfg, s);
      case LoopStep => LoopIterationKeeps(cfg, s);
      case TakeToken => LoopWithTokenKeeps(cfg, s);
      case End(id, ending) => EndKeeps(cfg, s, id, ending);
      case Close(id) => CloseKeeps(cfg, s, id);
      case EndScheduling =>
    }
  }

  /** Every atomic step of every task keeps the invariant. */
  lemma StepKeeps(cfg: Config, s: State, now: real, e: Event)
    requires Inv(cfg, s)
    ensures Inv(cfg, Step(cfg, s, now, e))
  {
    ClockKeeps(cfg, s, now);
    if Enabled(At(s, now), e) {
      FireKeeps(cfg, At(s, now), e);
    }
  }

  /**
    At every await point of every interleaving: each scheduled request is completed, failed, timed
    out, in flight, in the backlog or dropped; the token pool balances; the backlog is a bounded
    queue whose items are started in order and never past the maximum age.
  */
  lemma {:induction false} RunKeeps(cfg: Config, clock: real, run: seq<Moment>)
    ensures Inv(cfg, After(cfg, Initial(cfg, clock), run))
  {
    if |run| == 0 {
      InitialInv(cfg, clock);
    } else {
      RunKeeps(cfg, clock, run[..|run| - 1]);
      StepKeeps(cfg, After(cfg, Initial(cfg, clock), run[..|run| - 1]), run[|run| - 1].now, run[|run| - 1].event);
    }
  }

  // ---------------------------------------------------------------------
  // Consequences
  // ---------------------------------------------------------------------

  /** The balance as the progress report shows it, with every token that is out counted as in flight. */
  predicate ReportedBalance(cfg: Config, s: State) {
    var c := s.count;
    c.scheduled == c.completed + c.failed + c.timedOut + Inflight(cfg, s) + |s.backlog| + c.droppedCapacity
  }

  /** The reported numbers add up exactly while no response is being closed. */
  lemma ReportedBalanceExactly(cfg: Config, clock: real, run: seq<Moment>)
    ensures var s := After(cfg, Initial(cfg, clock), run); ReportedBalance(cfg, s) <==> s.closing == {}
  {
    RunKeeps(cfg, clock, run);
  }

  /** A step when the exit of the response context does not suspend: an answered task runs on to its end. */
  function PromptStep(cfg: Config, s: State, now: real, e: Event): State {
    var t := Step(cfg, s, now, e);
    if e.End? && e.ending.Answered? && e.id in t.closing then CloseRequest(t, e.id) else t
  }

  function PromptAfter(cfg: Config, s: State, run: seq<Moment>, n: nat): State
    requires n <= |run|
  {
    if n == 0 then s else PromptStep(cfg, PromptAfter(cfg, s, run, n - 1), run[n - 1].now, run[n - 1].event)
  }

  lemma StepClosesAtMostOne(cfg: Config, s: State, now: real, e: Event)
    requires s.closing == {}
    ensures Step(cfg, s, now, e).closing <= if e.End? && e.ending.Answered? then {e.id} else {}
  {
  }

  lemma PromptStepKeeps(cfg: Config, s: State, now: real, e: Event)
    requires Inv(cfg, s) && s.closing == {}
    ensures Inv(cfg, PromptStep(cfg, s, now, e)) && PromptStep(cfg, s, now, e).closing == {}
  {
    var t := Step(cfg, s, now, e);
    StepKeeps(cfg, s, now, e);
    StepClosesAtMostOne(cfg, s, now, e);
    if e.End? && e.ending.Answered? && e.id in t.closing {
      CloseKeeps(cfg, t, e.id);
    }
  }

  lemma {:induction false} PromptRunKeeps(cfg: Config, clock: real, run: seq<Moment>, n: nat)
    requires n <= |run|
    ensures var s := PromptAfter(cfg, Initial(cfg, clock), run, n); Inv(cfg, s) && s.closing == {}
  {
    if n == 0 {
      InitialInv(cfg, clock);
    } else {
      PromptRunKeeps(cfg, clock, run, n - 1);
      PromptStepKeeps(cfg, PromptAfter(cfg, Initial(cfg, clock), run, n - 1), run[n - 1].now, run[n - 1].event);
    }
  }

  /** If the exit of the response context never suspends, the reported numbers add up at every await of every run. */
  lemma PromptRunsBalance(cfg: Config, clock: real, run: seq<Moment>, n: nat)
    requires n <= |run|
    ensures ReportedBalance(cfg, PromptAfter(cfg, Initial(cfg, clock), run, n))
  {
    PromptRunKeeps(cfg, clock, run, n);
  }

  /** If it does suspend, the answered request whose response is not closed yet is reported twice. */
  lemma ClosingIsCountedTwice(cfg: Config, clock: real)
    requires cfg.maxInflight > 0
    ensures var run := [Moment(clock, Launch), Moment(clock, End(0, Answered(200)))];
      !ReportedBalance(cfg, After(cfg, Initial(cfg, clock), run))
  {
    var launch, answer := Moment(clock, Launch), Moment(clock, End(0, Answered(200)));
    var s := Initial(cfg, clock);
    assert [launch][..0] == [] && [launch, answer][..1] == [launch];
    assert After(cfg, s, [launch]) == Step(cfg, s, clock, Launch);
    assert After(cfg, s, [launch, answer]) == Step(cfg, Step(cfg, s, clock, Launch), clock, End(0, Answered(200)));
    ReportedBalanceExactly(cfg, clock, [launch, answer]);
    assert 0 in After(cfg, s, [launch, answer]).closing;
  }

  lemma TokenIsOut(cfg: Config, s: State, id: nat)
    requires Inv(cfg, s) && (id in s.running || id in s.closing)
    ensures s.tokens < cfg.maxInflight
  {
    if id in s.running {
      assert {id} <= s.running;
    } else {
      assert {id} <= s.closing;
    }
  }

  lemma ReturnsFitAt(cfg: Config, s: State)
    requires Inv(cfg, s)
    ensures Enabled(s, TakeToken) ==> 0 <= s.tokens - 1 < cfg.maxInflight && |s.backlog| > 0
    ensures forall id :: id in s.running || id in s.closing ==> s.tokens < cfg.maxInflight
  {
    forall id | id in s.running || id in s.closing ensures s.tokens < cfg.maxInflight {
      TokenIsOut(cfg, s, id);
    }
  }

  /**
    Every return of a token finds room in the queue: those of the backlog loop, which has just taken
    the token it gives back, whether the head had expired or not, and those of a task, from an
    exception or after closing its response. The loop's branch for an empty backlog is never taken.
  */
  lemma TokenReturnsFit(cfg: Config, clock: real, run: seq<Moment>)
    ensures var s := After(cfg, Initial(cfg, clock), run);
      && (Enabled(s, TakeToken) ==> 0 <= s.tokens - 1 < cfg.maxInflight && |s.backlog| > 0)
      && (forall id, ending :: Enabled(s, End(id, ending)) ==> s.tokens < cfg.maxInflight)
      && (forall id :: Enabled(s, Close(id)) ==> s.tokens < cfg.maxInflight)
  {
    RunKeeps(cfg, clock, run);
    ReturnsFitAt(cfg, After(cfg, Initial(cfg, clock), run));
  }

  /** One step takes at most one item, and takes it from the head. */
  lemma StepTakes(cfg: Config, s: State, now: real, e: Event)
    requires Inv(cfg, s)
    ensures var t := Step(cfg, s, now, e);
      && (s.schedulingComplete ==> t.schedulingComplete && t.arrived == s.arrived)
      && |t.taken| <= |s.taken| + 1 && s.taken <= t.taken
  {
  }

  lemma {:induction false} SameArrivals(cfg: Config, s: State, run: seq<Moment>)
    requires Inv(cfg, s) && s.schedulingComplete
    ensures var t := After(cfg, s, run);
      Inv(cfg, t) && t.schedulingComplete && t.arrived == s.arrived && s.taken <= t.taken
  {
    if |run| > 0 {
      SameArrivals(cfg, s, run[..|run| - 1]);
      var u := After(cfg, s, run[..|run| - 1]);
      StepKeeps(cfg, u, run[|run| - 1].now, run[|run| - 1].event);
      StepTakes(cfg, u, run[|run| - 1].now, run[|run| - 1].event);
    }
  }

  lemma SuffixOfArrivals(s: State, t: State)
    requires Fifo(s) && Fifo(t) && t.arrived == s.arrived && |s.taken| <= |t.taken|
    ensures (|t.taken| - |s.taken|) + |t.backlog| == |s.backlog|
    ensures Items(t.taken)[|s.taken|..] + t.backlog == s.backlog
  {
    var n := |s.taken|;
    assert s.backlog == s.arrived[n..];
    assert (Items(t.taken) + t.backlog)[n..] == Items(t.taken)[n..] + t.backlog;
  }

  /** Once scheduling ended nothing arrives: over any run the items taken, in order, and those that
      still wait are exactly what was waiting, so draining takes as many pops as there were items. */
  lemma DrainConserves(cfg: Config, s: State, run: seq<Moment>)
    requires Inv(cfg, s) && s.schedulingComplete
    ensures var t := After(cfg, s, run);
      && |s.taken| <= |t.taken|
      && (|t.taken| - |s.taken|) + |t.backlog| == |s.backlog|
      && Items(t.taken)[|s.taken|..] + t.backlog == s.backlog
  {
    SameArrivals(cfg, s, run);
    SuffixOfArrivals(s, After(cfg, s, run));
  }

  /** With a token free, one round of the backlog loop takes exactly one item. */
  lemma RoundTakesOne(cfg: Config, s: State, first: real, second: real)
    requires Inv(cfg, s) && s.loop == AtTop && |s.backlog| > 0 && s.tokens > 0
    ensures var t := Step(cfg, Step(cfg, s, first, LoopStep), second, TakeToken);
      t.loop == AtTop && |t.backlog| == |s.backlog| - 1 && t.tokens >= s.tokens - 1
  {
  }

  /** When the backlog loop has returned and no request runs, every scheduled request has an outcome. */
  lemma FinalAccount(cfg: Config, clock: real, run: seq<Moment>)
    ensures var s := After(cfg, Initial(cfg, clock), run); var c := s.count;
      s.loop == Returned && |s.running| == 0 && |s.closing| == 0 ==>
        && c.scheduled == c.completed + c.failed + c.timedOut + c.droppedCapacity
        && c.started == c.completed + c.failed + c.timedOut
        && c.enqueued == c.startedFromBacklog + c.backlogExpired
        && s.tokens == cfg.maxInflight
  {
    RunKeeps(cfg, clock, run);
  }
}
