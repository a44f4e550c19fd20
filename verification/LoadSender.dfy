/**
  The load generator's token pool, bounded backlog and counters. Each stretch between two awaits
  is one atomic step; dispatcher, backlog loop and request tasks interleave freely.
*/
module LoadSender {
  import opened Common

  datatype Config = Config(maxInflight: nat, backlogCapacity: nat, maxAge: real)

  /** A request waiting in the backlog; requests are numbered in scheduling order. */
  datatype Item = Item(id: nat, enqueuedAt: real)

  /** How a request ends: answered, with a status that counts as completed or failed, or by an
      exception, which counts as failed or timed out. */
  datatype Ending = Answered(status: int) | Raised(timedOut: bool)

  /** Where the backlog loop stands: at the top of its loop, suspended on the event, suspended on
      the token queue with a live head item, or returned. */
  datatype LoopPoint = AtTop | AwaitingWork | AwaitingToken | Returned

  datatype Counters = Counters(
    scheduled: int, enqueued: int,
    started: int, startedImmediate: int, startedFromBacklog: int,
    completed: int, failed: int, timedOut: int,
    droppedCapacity: int, droppedBacklogFull: int, backlogExpired: int, backlogMaxDepth: int)

  /** One item taken off the backlog: started, or dropped because it had expired. */
  datatype Taken = Taken(item: Item, at: real, started: bool)

  datatype State = State(
    clock: real,
    tokens: int,
    backlog: seq<Item>,
    running: set<nat>,
    closing: set<nat>,
    count: Counters,
    loop: LoopPoint,
    schedulingComplete: bool,
    arrived: seq<Item>,
    taken: seq<Taken>)

  datatype Event =
    | Launch
    | LoopStep
    | TakeToken
    | End(id: nat, ending: Ending)
    | Close(id: nat)
    | EndScheduling

  const NO_COUNTS := Counters(0, 0, 0, 0, 0, 0, 0, 0, 0, 0, 0, 0)

  function Initial(cfg: Config, clock: real): State {
    State(clock, cfg.maxInflight, [], {}, {}, NO_COUNTS, AtTop, false, [], [])
  }

  predicate Expired(cfg: Config, item: Item, now: real) {
    now - item.enqueuedAt > cfg.maxAge
  }

  // ---------------------------------------------------------------------
  // Steps
  // ---------------------------------------------------------------------

  function StartTask(s: State, id: nat, fromBacklog: bool): State {
    var c := s.count.(started := s.count.started + 1);
    s.(running := s.running + {id},
       count := if fromBacklog then c.(startedFromBacklog := c.startedFromBacklog + 1)
                else c.(startedImmediate := c.startedImmediate + 1))
  }

  function EnqueueOrDrop(cfg: Config, s: State, id: nat): State {
    if |s.backlog| < cfg.backlogCapacity then
      var item := Item(id, s.clock);
      s.(backlog := s.backlog + [item], arrived := s.arrived + [item],
         count := s.count.(enqueued := s.count.enqueued + 1,
                           backlogMaxDepth := Max(s.count.backlogMaxDepth, |s.backlog| + 1)))
    else
      s.(count := s.count.(droppedCapacity := s.count.droppedCapacity + 1,
                           droppedBacklogFull := s.count.droppedBacklogFull + if cfg.backlogCapacity > 0 then 1 else 0))
  }

  function LaunchOrBacklog(cfg: Config, s: State): State
    requires s.count.scheduled >= 0
  {
    var id: nat := s.count.scheduled;
    var t := s.(count := s.count.(scheduled := s.count.scheduled + 1));
    if s.tokens > 0 then StartTask(t.(tokens := t.tokens - 1), id, false) else EnqueueOrDrop(cfg, t, id)
  }

  function DropExpiredHead(s: State): State
    requires |s.backlog| > 0
  {
    s.(backlog := s.backlog[1..], taken := s.taken + [Taken(s.backlog[0], s.clock, false)],
       count := s.count.(droppedCapacity := s.count.droppedCapacity + 1, backlogExpired := s.count.backlogExpired + 1))
  }

  function StartHead(s: State): State
    requires |s.backlog| > 0
  {
    var t := s.(backlog := s.backlog[1..], taken := s.taken + [Taken(s.backlog[0], s.clock, true)]);
    StartTask(t, s.backlog[0].id, true)
  }

  /** The backlog loop from the top, or from the event, to its next await. */
  function LoopIteration(cfg: Config, s: State): State {
    if s.loop == AwaitingWork then s.(loop := AtTop)
    else if |s.backlog| == 0 then s.(loop := if s.schedulingComplete then Returned else AwaitingWork)
    else if Expired(cfg, s.backlog[0], s.clock) then DropExpiredHead(s).(loop := AtTop)
    else s.(loop := AwaitingToken)
  }

  /** The backlog loop once it gets a token. */
  function LoopWithToken(cfg: Config, s: State): State {
    var t := s.(loop := AtTop);
    if |s.backlog| == 0 then t
    else if Expired(cfg, s.backlog[0], s.clock) then DropExpiredHead(t)
    else StartHead(t.(tokens := t.tokens - 1))
  }

  function Counted(c: Counters, ending: Ending): Counters {
    match ending
    case Answered(status) =>
      if status >= 400 then c.(failed := c.failed + 1) else c.(completed := c.completed + 1)
    case Raised(timedOut) =>
      if timedOut then c.(timedOut := c.timedOut + 1) else c.(failed := c.failed + 1)
  }

  /** The outcome is counted. After an answer the response is still to be closed, which may suspend
      the task with its token; after an exception the token goes back at once. */
  function EndRequest(s: State, id: nat, ending: Ending): State {
    var t := s.(running := s.running - {id}, count := Counted(s.count, ending));
    if ending.Answered? then t.(closing := t.closing + {id}) else t.(tokens := t.tokens + 1)
  }

  /** The response is closed and the token goes back. */
  function CloseRequest(s: State, id: nat): State {
    s.(closing := s.closing - {id}, tokens := s.tokens + 1)
  }

  predicate Enabled(s: State, e: Event) {
    match e
    case Launch => !s.schedulingComplete && s.count.scheduled >= 0
    case LoopStep => s.loop == AtTop || s.loop == AwaitingWork
    case TakeToken => s.loop == AwaitingToken && s.tokens > 0
    case End(id, _) => id in s.running
    case Close(id) => id in s.closing
    case EndScheduling => true
  }

  function At(s: State, now: real): State {
    s.(clock := if now > s.clock then now else s.clock)
  }

  function Fire(cfg: Config, s: State, e: Event): State
    requires Enabled(s, e)
  {
    match e
    case Launch => LaunchOrBacklog(cfg, s)
    case LoopStep => LoopIteration(cfg, s)
    case TakeToken => LoopWithToken(cfg, s)
    case End(id, ending) => EndRequest(s, id, ending)
    case Close(id) => CloseRequest(s, id)
    case EndScheduling => s.(schedulingComplete := true)
  }

  /** The clock moves, then one atomic step happens if it can. */
  function Step(cfg: Config, s: State, now: real, e: Event): State {
    var t := At(s, now);
    if Enabled(t, e) then Fire(cfg, t, e) else t
  }

  datatype Moment = Moment(now: real, event: Event)

  /** Any interleaving of the three kinds of tasks. */
  function After(cfg: Config, s: State, run: seq<Moment>): State {
    if |run| == 0 then s
    else Step(cfg, After(cfg, s, run[..|run| - 1]), run[|run| - 1].now, run[|run| - 1].event)
  }

  // ---------------------------------------------------------------------
  // The sender object
  // ---------------------------------------------------------------------

  class LoadSender {
    const config: Config
    var clock: real
    var tokens: int
    var backlogQueue: seq<Item>
    // The tasks before their outcome is counted, and those that only have to close their response.
    var inflightTasks: set<nat>
    var closingTasks: set<nat>
    var loopPoint: LoopPoint
    var schedulingComplete: bool
    var scheduledRequests: int
    var enqueuedRequests: int
    var startedRequests: int
    var startedImmediateRequests: int
    var startedFromBacklogRequests: int
    var completedRequests: int
    var failedRequests: int
    var timedOutRequests: int
    var droppedDueToCapacity: int
    var droppedBacklogFullRequests: int
    var backlogExpiredRequests: int
    var backlogMaxDepth: int
    ghost var arrived: seq<Item>
    ghost var taken: seq<Taken>

    ghost function View(): State
      reads this
    {
      State(clock, tokens, backlogQueue, inflightTasks, closingTasks,
            Counters(scheduledRequests, enqueuedRequests, startedRequests, startedImmediateRequests,
                     startedFromBacklogRequests, completedRequests, failedRequests, timedOutRequests,
                     droppedDueToCapacity, droppedBacklogFullRequests, backlogExpiredRequests, backlogMaxDepth),
            loopPoint, schedulingComplete, arrived, taken)
    }

    constructor (config: Config, now: real)
      ensures this.config == config && View() == Initial(config, now)
    {
      this.config := config;
      clock := now;
      tokens := config.maxInflight;
      backlogQueue, inflightTasks, closingTasks := [], {}, {};
      loopPoint, schedulingComplete := AtTop, false;
      scheduledRequests, enqueuedRequests, startedRequests := 0, 0, 0;
      startedImmediateRequests, startedFromBacklogRequests := 0, 0;
      completedRequests, failedRequests, timedOutRequests := 0, 0, 0;
      droppedDueToCapacity, droppedBacklogFullRequests, backlogExpiredRequests := 0, 0, 0;
      backlogMaxDepth := 0;
      arrived, taken := [], [];
    }

    method LaunchOrBacklogRequest()
      requires scheduledRequests >= 0
      modifies this
      ensures View() == LaunchOrBacklog(config, old(View()))
    {
      var id := scheduledRequests;
      scheduledRequests := scheduledRequests + 1;
      if tokens <= 0 {
        EnqueueOrDropRequest(id);
        return;
      }
      tokens := tokens - 1;
      StartRequestTask(id, false);
    }

    method EnqueueOrDropRequest(id: nat)
      modifies this
      ensures View() == EnqueueOrDrop(config, old(View()), id)
    {
      if config.backlogCapacity > 0 && |backlogQueue| < config.backlogCapacity {
        var item := Item(id, clock);
        backlogQueue := backlogQueue + [item];
        arrived := arrived + [item];
        enqueuedRequests := enqueuedRequests + 1;
        backlogMaxDepth := Max(backlogMaxDepth, |backlogQueue|);
        return;
      }
      droppedDueToCapacity := droppedDueToCapacity + 1;
      if config.backlogCapacity > 0 {
        droppedBacklogFullRequests := droppedBacklogFullRequests + 1;
      }
    }

    method StartRequestTask(id: nat, fromBacklog: bool)
      modifies this
      ensures View() == StartTask(old(View()), id, fromBacklog)
    {
      startedRequests := startedRequests + 1;
      if fromBacklog {
        startedFromBacklogRequests := startedFromBacklogRequests + 1;
      } else {
        startedImmediateRequests := startedImmediateRequests + 1;
      }
      inflightTasks := inflightTasks + {id};
    }

    method BacklogLoopIteration()
      modifies this
      ensures View() == LoopIteration(config, old(View()))
    {
      if loopPoint == AwaitingWork {
        loopPoint := AtTop;
        return;
      }
      if |backlogQueue| == 0 {
        if schedulingComplete {
          loopPoint := Returned;
          return;
        }
        loopPoint := AwaitingWork;
        return;
      }
      var headItem := backlogQueue[0];
      if clock - headItem.enqueuedAt > config.maxAge {
        DropHead();
        loopPoint := AtTop;
        return;
      }
      loopPoint := AwaitingToken;
    }

    method DropHead()
      requires |backlogQueue| > 0
      modifies this
      ensures View() == DropExpiredHead(old(View()))
    {
      taken := taken + [Taken(backlogQueue[0], clock, false)];
      backlogQueue := backlogQueue[1..];
      droppedDueToCapacity := droppedDueToCapacity + 1;
      backlogExpiredRequests := backlogExpiredRequests + 1;
    }

    method BacklogLoopWithToken()
      requires tokens > 0
      modifies this
      ensures View() == LoopWithToken(config, old(View()))
    {
      tokens := tokens - 1;
      loopPoint := AtTop;
      if |backlogQueue| == 0 {
        tokens := tokens + 1;
        return;
      }
      var item := backlogQueue[0];
      if clock - item.enqueuedAt > config.maxAge {
        tokens := tokens + 1;
        DropHead();
        return;
      }
      StartHeadItem();
    }

    method StartHeadItem()
      requires |backlogQueue| > 0
      modifies this
      ensures View() == StartHead(old(View()))
    {
      var item := backlogQueue[0];
      taken := taken + [Taken(item, clock, true)];
      backlogQueue := backlogQueue[1..];
      StartRequestTask(item.id, true);
    }

    method CountOutcome(ending: Ending)
      modifies `completedRequests, `failedRequests, `timedOutRequests
      ensures View() == old(View()).(count := Counted(old(View()).count, ending))
    {
      match ending {
        case Answered(status) =>
          if status >= 400 {
            failedRequests := failedRequests + 1;
          } else {
            completedRequests := completedRequests + 1;
          }
        case Raised(timedOut) =>
          if timedOut {
            timedOutRequests := timedOutRequests + 1;
          } else {
            failedRequests := failedRequests + 1;
          }
      }
    }

    /** The task up to the exit of the response context, or to its end when an exception is raised. */
    method EndTask(id: nat, ending: Ending)
      modifies this
      ensures View() == EndRequest(old(View()), id, ending)
    {
      inflightTasks := inflightTasks - {id};
      CountOutcome(ending);
      if ending.Answered? {
        closingTasks := closingTasks + {id};
      } else {
        tokens := tokens + 1;
      }
    }

    /** The rest of an answered task: the response is closed and the token returned. */
    method CloseTask(id: nat)
      modifies this
      ensures View() == CloseRequest(old(View()), id)
    {
      closingTasks := closingTasks - {id};
      tokens := tokens + 1;
    }
  }
}
