/**
  The loader's lifecycle as a transition system: Start, one warm-up goroutine per
  binding, one serving goroutine per binding, and whoever cancels the context.
  A run is any sequence of actions, so any scheduling; an action that is not
  enabled changes nothing.
 */
module Lifecycle {
  import opened Wrappers
  import opened Kafka
  import opened Events
  import opened Replay
  import opened Ledger
  import opened Warmup

  /** `bounded` says that a warm-up timeout is set, `hasHandler` that a fatal handler is. */
  datatype Config<!K(==), !V> = Config(bindings: seq<Binding<K, V>>, bounded: bool, hasHandler: bool)

  /** A warm-up goroutine: assigning, checking the context, polling, with an event in hand, or gone with its result. */
  datatype WarmPc = NotBegun | Assigning | Checking | Polling | Holding(ev: Event) | Result(error: Option<Error>)

  /** A serving goroutine; its two stop checks, its death, and the deferred phase change, close and exit. */
  datatype ServePc =
    | NotServing
    | CheckingCtx
    | CheckingErr
    | ServePolling
    | ServeHolding(ev: Event)
    | Dying(error: Error)
    | Notifying(error: Error)
    | Marking
    | Closing
    | Leaving
    | Gone

  /** One binding: its reading, its two goroutines, and how often its consumer was built, closed and polled. */
  datatype Worker<K, V> = Worker(
    start: map<K, V>,
    reading: Reading<K, V>,
    warm: WarmPc,
    serve: ServePc,
    built: nat,
    closes: nat,
    polls: nat
  )

  /** The call of Start that passed the claim. */
  datatype Main =
    | Unclaimed
    | Building(next: nat)
    | Unbuilding(next: nat)
    | Launching(next: nat)
    | Joining
    | Discarding(next: nat)
    | Handing(next: nat)
    | Returned(result: StartResult)

  /** What Start returned; the errors are per binding, None for one that succeeded. */
  datatype StartResult =
    | Serving
    | BuildFailed(errors: seq<Option<Error>>)
    | WarmupFailed(errors: seq<Option<Error>>)

  /**
    `serving` is the WaitGroup, as the set of goroutines it counts. History:
    `passed` and `refused` are the Start calls by the claim's outcome, `winner`
    the goroutine that set err, `fatalPolls` the fatal errors polled while
    serving, `notified` the finished calls of the fatal handler.
   */
  datatype State<K, V> = State(
    main: Main,
    workers: seq<Worker<K, V>>,
    buildErrors: seq<Option<Error>>,
    started: bool,
    passed: seq<nat>,
    refused: seq<(nat, Error)>,
    ctx: Option<Error>,
    warmCtx: Option<Error>,
    err: Option<Error>,
    winner: Option<nat>,
    fatalPolls: seq<Error>,
    notified: seq<Error>,
    serving: set<nat>
  )

  datatype Assignment = Partitions(logs: Logs) | Refusal(code: ErrorCode)

  datatype Action =
    | Claim(caller: nat)
    | StartStep(failure: Option<Error>)
    | Cancel
    | Expire
    | WarmStep(i: nat, assignment: Assignment, turn: Turn)
    | ServeStep(i: nat, turn: Turn)

  function NewWorker<K, V>(start: map<K, V>): Worker<K, V> {
    Worker(start, Reading(map[], Topic(map[], map[]), [], {}, Opened(start), LOAD_PROGRESS_EVERY),
           NotBegun, NotServing, 0, 0, 0)
  }

  /** A loader with the given stores bound and nothing started. */
  function Bound<K, V>(stores: seq<map<K, V>>): State<K, V> {
    State(Unclaimed, seq(|stores|, i requires 0 <= i < |stores| => NewWorker(stores[i])), [], false, [], [],
          None, None, None, None, [], [], {})
  }

  predicate AnyError(errors: seq<Option<Error>>) {
    exists i :: 0 <= i < |errors| && errors[i].Some?
  }

  predicate AllDone<K, V>(workers: seq<Worker<K, V>>) {
    forall i | 0 <= i < |workers| :: workers[i].warm.Result?
  }

  function Results<K, V>(workers: seq<Worker<K, V>>): (r: seq<Option<Error>>)
    requires AllDone(workers)
    ensures |r| == |workers| && forall i | 0 <= i < |r| :: r[i] == workers[i].warm.error
  {
    seq(|workers|, i requires 0 <= i < |workers| => workers[i].warm.error)
  }

  /** One step of Start. */
  function Advance<K, V>(s: State<K, V>, failure: Option<Error>): State<K, V> {
    var n := |s.workers|;
    match s.main
    case Unclaimed => s
    case Building(j) =>
      if j < n then
        var built := if failure.None? then 1 else 0;
        s.(main := Building(j + 1), buildErrors := s.buildErrors + [failure],
           workers := s.workers[j := s.workers[j].(built := s.workers[j].built + built)])
      else s.(main := if AnyError(s.buildErrors) then Unbuilding(0) else Launching(0))
    case Unbuilding(j) =>
      if j < n && j < |s.buildErrors| then
        var closed := if s.buildErrors[j].None? then 1 else 0;
        s.(main := Unbuilding(j + 1), workers := s.workers[j := s.workers[j].(closes := s.workers[j].closes + closed)])
      else s.(main := Returned(BuildFailed(s.buildErrors)))
    case Launching(j) =>
      if j < n then s.(main := Launching(j + 1), workers := s.workers[j := s.workers[j].(warm := Assigning)])
      else s.(main := Joining)
    case Joining =>
      if !AllDone(s.workers) then s
      else s.(main := if AnyError(Results(s.workers)) then Discarding(0) else Handing(0))
    case Discarding(j) =>
      if j < n then
        s.(main := Discarding(j + 1), workers := s.workers[j := s.workers[j].(closes := s.workers[j].closes + 1)])
      else if AllDone(s.workers) then s.(main := Returned(WarmupFailed(Results(s.workers))))
      else s
    case Handing(j) =>
      if j < n then
        s.(main := Handing(j + 1), serving := s.serving + {j},
           workers := s.workers[j := s.workers[j].(serve := CheckingCtx)])
      else s.(main := Returned(Serving))
    case Returned(_) => s
  }

  /** A poll through the driver, which refuses a closed consumer. */
  function PollWorker<K, V>(w: Worker<K, V>, turn: Turn): (Reading<K, V>, Event) {
    if w.closes > 0 then (w.reading, Failure(ConsumerClosed, true)) else Poll(w.reading, turn)
  }

  /** One step of a warm-up goroutine. */
  ghost function Warm<K, V>(
    b: Binding<K, V>, bounded: bool, ctx: Option<Error>, w: Worker<K, V>, assignment: Assignment, turn: Turn)
    : Worker<K, V>
  {
    match w.warm
    case Assigning =>
      if ctx.Some? then w.(warm := Result(Some(NameTimeout(bounded, ctx.value))))
      else
        (match assignment
         case Refusal(code) => w.(warm := Result(Some(KafkaFailure(code))))
         case Partitions(logs) =>
           if !WellFormed(logs) then w
           else if logs == map[] then w.(warm := Result(Some(TopicNotFound)))
           else w.(warm := Checking, reading := Assigned(logs, w.reading.ledger)))
    case Checking =>
      w.(warm := if ctx.Some? then Result(Some(NameTimeout(bounded, ctx.value))) else Polling)
    case Polling =>
      var (reading, ev) := PollWorker(w, turn);
      w.(reading := reading, warm := Holding(ev), polls := w.polls + 1)
    case Holding(ev) =>
      var (reading, v) := Handle(b, w.reading, ev);
      w.(reading := reading, warm := if v.Again? then Checking else Result(v.error))
    case NotBegun => w
    case Result(_) => w
  }

  function Put<K, V>(s: State<K, V>, i: nat, w: Worker<K, V>): State<K, V>
    requires i < |s.workers|
  {
    s.(workers := s.workers[i := w])
  }

  /** The event ends the binding. */
  predicate Kills(ev: Event) {
    ev.Failure? && ev.fatal
  }

  /** One step of a serving goroutine, as it sees the context and the loader's err. */
  function ServeWorker<K, V>(b: Binding<K, V>, ctx: Option<Error>, err: Option<Error>, w: Worker<K, V>, turn: Turn)
    : Worker<K, V>
  {
    match w.serve
    case NotServing => w
    case CheckingCtx => w.(serve := if ctx.Some? then Marking else CheckingErr)
    case CheckingErr => w.(serve := if err.Some? then Marking else ServePolling)
    case ServePolling =>
      var (reading, ev) := PollWorker(w, turn);
      w.(reading := reading, serve := ServeHolding(ev), polls := w.polls + 1)
    case ServeHolding(ev) =>
      w.(reading := Serve(b, w.reading, ev), serve := if Kills(ev) then Dying(ev.error) else CheckingCtx)
    case Dying(error) => w.(serve := if err.None? then Notifying(error) else Marking)
    case Notifying(_) => w.(serve := Marking)
    case Marking => w.(serve := Closing, reading := w.reading.(ledger := w.reading.ledger.(phase := Stopped)))
    case Closing => w.(serve := Leaving, closes := w.closes + 1)
    case Leaving => w.(serve := Gone)
    case Gone => w
  }

  /** The same step's effect on what the goroutines share: the compare-and-swap on err, the handler, the WaitGroup. */
  function ServeOne<K, V>(cfg: Config<K, V>, s: State<K, V>, i: nat, turn: Turn): State<K, V>
    requires i < |s.workers| && i < |cfg.bindings|
  {
    var pc := s.workers[i].serve;
    var w := ServeWorker(cfg.bindings[i], s.ctx, s.err, s.workers[i], turn);
    var wins := pc.Dying? && s.err.None?;
    var fatal := pc.ServePolling? && w.serve.ServeHolding? && Kills(w.serve.ev);
    Put(s, i, w).(
    err := if wins then Some(pc.error) else s.err,
    winner := if wins then Some(i) else s.winner,
    fatalPolls := if fatal then s.fatalPolls + [w.serve.ev.error] else s.fatalPolls,
    notified := if pc.Notifying? && cfg.hasHandler then s.notified + [pc.error] else s.notified,
    serving := if pc.Leaving? then s.serving - {i} else s.serving)
  }

  ghost function Step<K, V>(cfg: Config<K, V>, s: State<K, V>, a: Action): State<K, V> {
    match a
    case Claim(caller) =>
      if s.started then s.(refused := s.refused + [(caller, AlreadyStarted)])
      else if |s.workers| == 0 then s.(refused := s.refused + [(caller, NoBindings)])
      else s.(started := true, passed := s.passed + [caller], main := Building(0))
    case StartStep(failure) => Advance(s, failure)
    case Cancel => s.(ctx := Some(Canceled), warmCtx := if s.warmCtx.None? then Some(Canceled) else s.warmCtx)
    case Expire =>
      if cfg.bounded && s.warmCtx.None? && (s.main.Launching? || s.main.Joining?) then
        s.(warmCtx := Some(DeadlineExceeded))
      else s
    case WarmStep(i, assignment, turn) =>
      if i < |s.workers| && i < |cfg.bindings| then
        Put(s, i, Warm(cfg.bindings[i], cfg.bounded, s.warmCtx, s.workers[i], assignment, turn))
      else s
    case ServeStep(i, turn) =>
      if i < |s.workers| && i < |cfg.bindings| then ServeOne(cfg, s, i, turn) else s
  }

  ghost function Run<K, V>(cfg: Config<K, V>, s: State<K, V>, actions: seq<Action>): State<K, V>
    decreases |actions|
  {
    if actions == [] then s else Run(cfg, Step(cfg, s, actions[0]), actions[1..])
  }
}
