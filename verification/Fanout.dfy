/** runParallel as a step system: the main loop, the semaphore channel, the WaitGroup and one
    goroutine per started index, interleaved arbitrarily with each other and with cancellation. */
module Fanout {
  import opened Basics

  /** fn(j) is the error index j's call returns when it runs; every choice of fn is covered. */
  datatype Config = Config(n: nat, maxWorkers: int, fn: nat -> Option<Error>)

  /** Where index j stands. `Added` to `Released` are counted by the WaitGroup, `Acquired` to
      `Stored` hold a semaphore slot. */
  datatype Phase = Unseen | Skipped | Added | Acquired | Spawned | Running | Stored | Released | Finished

  datatype Pc = Check | Add | Acquire | Spawn | Join | Returned

  datatype State = State(
    pc: Pc,
    i: nat,
    sem: nat,
    wg: nat,
    phase: seq<Phase>,
    errs: seq<Option<Error>>,
    ctx: Option<Error>,
    runs: seq<nat>,      // how often fn was called for each index
    writes: seq<nat>     // how often errs was assigned at each index
  )

  /** Steps of the main goroutine, of goroutine j, and of the environment. */
  datatype Step =
    | CheckCtx | LoopExit | WgAdd | SemAcquire | Go | WaitReturn
    | Start(j: nat) | Store(j: nat) | SemRelease(j: nat) | WgDone(j: nat)
    | Cancel(e: Error)

  function Limit(c: Config): nat {
    ResolvePositive(c.maxWorkers, 1)
  }

  function Init(c: Config): State {
    State(if c.n == 0 then Returned else Check, 0, 0, 0, seq(c.n, _ => Unseen), seq(c.n, _ => None),
          None, seq(c.n, _ => 0), seq(c.n, _ => 0))
  }

  predicate Shaped(c: Config, s: State) {
    |s.phase| == |s.errs| == |s.runs| == |s.writes| == c.n
  }

  predicate At(s: State, j: nat, p: Phase) {
    j < |s.phase| && s.phase[j] == p
  }

  predicate Enabled(c: Config, s: State, step: Step) {
    && Shaped(c, s)
    && match step
       case CheckCtx => s.pc == Check && s.i < c.n
       case LoopExit => s.pc == Check && s.i == c.n
       case WgAdd => s.pc == Add && s.i < c.n
       case SemAcquire => s.pc == Acquire && s.i < c.n && s.sem < Limit(c)
       case Go => s.pc == Spawn && s.i < c.n
       case WaitReturn => s.pc == Join && s.wg == 0
       case Start(j) => At(s, j, Spawned)
       case Store(j) => At(s, j, Running)
       case SemRelease(j) => At(s, j, Stored) && s.sem > 0
       case WgDone(j) => At(s, j, Released) && s.wg > 0
       case Cancel(_) => s.ctx.None?
  }

  function Apply(c: Config, s: State, step: Step): State
    requires Enabled(c, s, step)
  {
    match step
    case CheckCtx =>
      if s.ctx.Some? then
        s.(i := s.i + 1, phase := s.phase[s.i := Skipped], errs := s.errs[s.i := s.ctx],
           writes := s.writes[s.i := s.writes[s.i] + 1])
      else
        s.(pc := Add)
    case LoopExit => s.(pc := Join)
    case WgAdd => s.(pc := Acquire, wg := s.wg + 1, phase := s.phase[s.i := Added])
    case SemAcquire => s.(pc := Spawn, sem := s.sem + 1, phase := s.phase[s.i := Acquired])
    case Go => s.(pc := Check, i := s.i + 1, phase := s.phase[s.i := Spawned])
    case WaitReturn => s.(pc := Returned)
    case Start(j) => s.(phase := s.phase[j := Running], runs := s.runs[j := s.runs[j] + 1])
    case Store(j) => s.(phase := s.phase[j := Stored], errs := s.errs[j := c.fn(j)],
                        writes := s.writes[j := s.writes[j] + 1])
    case SemRelease(j) => s.(phase := s.phase[j := Released], sem := s.sem - 1)
    case WgDone(j) => s.(phase := s.phase[j := Finished], wg := s.wg - 1)
    case Cancel(e) => s.(ctx := Some(e))
  }

  /** steps can be taken one after the other from s. */
  ghost predicate CanTake(c: Config, s: State, steps: seq<Step>)
    decreases steps
  {
    steps != [] ==> Enabled(c, s, steps[0]) && CanTake(c, Apply(c, s, steps[0]), steps[1..])
  }

  ghost function Take(c: Config, s: State, steps: seq<Step>): State
    requires CanTake(c, s, steps)
    decreases steps
  {
    if steps == [] then s else Take(c, Apply(c, s, steps[0]), steps[1..])
  }

  /** steps is a possible execution of the whole system. */
  ghost predicate IsRun(c: Config, steps: seq<Step>) {
    CanTake(c, Init(c), steps)
  }

  /** The state an execution ends in. */
  ghost function Exec(c: Config, steps: seq<Step>): State
    requires IsRun(c, steps)
  {
    Take(c, Init(c), steps)
  }

  lemma Prepend(c: Config, s: State, step: Step, rest: seq<Step>)
    requires Enabled(c, s, step) && CanTake(c, Apply(c, s, step), rest)
    ensures CanTake(c, s, [step] + rest) && Take(c, s, [step] + rest) == Take(c, Apply(c, s, step), rest)
  {
    assert ([step] + rest)[1..] == rest;
  }

  lemma {:induction false} Append(c: Config, s: State, a: seq<Step>, b: seq<Step>)
    requires CanTake(c, s, a) && CanTake(c, Take(c, s, a), b)
    ensures CanTake(c, s, a + b) && Take(c, s, a + b) == Take(c, Take(c, s, a), b)
    decreases a
  {
    if a == [] {
      assert a + b == b;
    } else {
      Append(c, Apply(c, s, a[0]), a[1..], b);
      assert (a + b)[1..] == a[1..] + b;
    }
  }

  // ---------------------------------------------------------------- counting phases

  /** What is counted: semaphore slots, WaitGroup units, calls inside fn, steps still to take. */
  datatype Gauge = Slots | Units | InFn | Todo

  function Of(g: Gauge, p: Phase): nat {
    match g
    case Slots => if p == Acquired || p == Spawned || p == Running || p == Stored then 1 else 0
    case Units =>
      if p == Added || p == Released || p == Acquired || p == Spawned || p == Running || p == Stored then 1 else 0
    case InFn => if p == Running then 1 else 0
    case Todo =>
      match p
      case Unseen => 8 case Added => 6 case Acquired => 5 case Spawned => 4 case Running => 3
      case Stored => 2 case Released => 1 case Finished => 0 case Skipped => 0
  }

  function Total(ps: seq<Phase>, g: Gauge): nat {
    if ps == [] then 0 else Of(g, ps[0]) + Total(ps[1..], g)
  }

  lemma {:induction false} TotalUpdate(ps: seq<Phase>, j: nat, p: Phase, g: Gauge)
    requires j < |ps|
    ensures Total(ps[j := p], g) == Total(ps, g) - Of(g, ps[j]) + Of(g, p)
  {
    if j == 0 {
      assert ps[j := p][1..] == ps[1..];
    } else {
      TotalUpdate(ps[1..], j - 1, p, g);
      assert ps[j := p][1..] == ps[1..][j - 1 := p];
    }
  }

  lemma {:induction false} TotalConst(ps: seq<Phase>, g: Gauge, p: Phase)
    requires forall j :: 0 <= j < |ps| ==> ps[j] == p
    ensures Total(ps, g) == |ps| * Of(g, p)
  {
    if ps != [] {
      TotalConst(ps[1..], g, p);
    }
  }

  lemma {:induction false} TotalPositive(ps: seq<Phase>, g: Gauge) returns (j: nat)
    requires Total(ps, g) > 0
    ensures j < |ps| && Of(g, ps[j]) > 0
  {
    if Of(g, ps[0]) > 0 {
      j := 0;
    } else {
      j := TotalPositive(ps[1..], g);
      j := j + 1;
    }
  }

  lemma {:induction false} TotalMonotone(ps: seq<Phase>, f: Gauge, g: Gauge)
    requires forall p :: Of(f, p) <= Of(g, p)
    ensures Total(ps, f) <= Total(ps, g)
  {
    if ps != [] {
      TotalMonotone(ps[1..], f, g);
    }
  }

  // ---------------------------------------------------------------- the invariant

  /** What index j's phase says about its slot of errs and its history. */
  ghost predicate IndexOk(c: Config, s: State, j: nat)
    requires Shaped(c, s) && j < c.n
  {
    match s.phase[j]
    case Skipped => s.ctx.Some? && s.runs[j] == 0 && s.writes[j] == 1 && s.errs[j] == s.ctx
    case Running => s.runs[j] == 1 && s.writes[j] == 0
    case Stored => s.runs[j] == 1 && s.writes[j] == 1 && s.errs[j] == c.fn(j)
    case Released => s.runs[j] == 1 && s.writes[j] == 1 && s.errs[j] == c.fn(j)
    case Finished => s.runs[j] == 1 && s.writes[j] == 1 && s.errs[j] == c.fn(j)
    case _ => s.runs[j] == 0 && s.writes[j] == 0
  }

  /** The phase of the index main is working on, by program counter. */
  function MainPhase(pc: Pc): Phase {
    match pc case Acquire => Added case Spawn => Acquired case _ => Unseen
  }

  predicate Launched(p: Phase) {
    p == Spawned || p == Running || p == Stored || p == Released || p == Finished
  }

  ghost predicate Positions(c: Config, s: State)
    requires Shaped(c, s)
  {
    && s.i <= c.n
    && (s.pc == Add || s.pc == Acquire || s.pc == Spawn ==> s.i < c.n)
    && (s.pc == Join || s.pc == Returned ==> s.i == c.n)
    && (forall j :: 0 <= j < s.i ==> s.phase[j] == Skipped || Launched(s.phase[j]))
    && (s.i < c.n ==> s.phase[s.i] == MainPhase(s.pc))
    && (forall j :: s.i < j < c.n ==> s.phase[j] == Unseen)
  }

  /** Once an index is skipped, the context is cancelled and every later visited index is skipped. */
  ghost predicate SkipsAreSuffix(c: Config, s: State)
    requires Shaped(c, s) && s.i <= c.n
  {
    forall j :: 0 <= j < s.i && s.phase[j] == Skipped ==>
      && s.pc != Add && s.pc != Acquire && s.pc != Spawn
      && forall m :: j <= m < s.i ==> s.phase[m] == Skipped
  }

  /** The semaphore and the WaitGroup count exactly the indices that hold them. */
  ghost predicate Balanced(c: Config, s: State) {
    && s.sem == Total(s.phase, Slots) <= Limit(c)
    && s.wg == Total(s.phase, Units)
    && (s.pc == Returned ==> s.wg == 0)
  }

  ghost predicate Inv(c: Config, s: State) {
    && Shaped(c, s)
    && Positions(c, s)
    && SkipsAreSuffix(c, s)
    && (forall j :: 0 <= j < c.n ==> IndexOk(c, s, j))
    && Balanced(c, s)
  }

  lemma InitInv(c: Config)
    ensures Inv(c, Init(c))
  {
    TotalConst(Init(c).phase, Slots, Unseen);
    TotalConst(Init(c).phase, Units, Unseen);
  }

  lemma StepPositions(c: Config, s: State, step: Step)
    requires Shaped(c, s) && Positions(c, s) && Enabled(c, s, step)
    ensures var s' := Apply(c, s, step); Shaped(c, s') && Positions(c, s')
  {
  }

  lemma StepSkips(c: Config, s: State, step: Step)
    requires Shaped(c, s) && Positions(c, s) && SkipsAreSuffix(c, s) && Enabled(c, s, step)
    requires forall j :: 0 <= j < c.n ==> IndexOk(c, s, j)
    ensures var s' := Apply(c, s, step); Shaped(c, s') && s'.i <= c.n && SkipsAreSuffix(c, s')
  {
    var s' := Apply(c, s, step);
    forall j | 0 <= j < s'.i && s'.phase[j] == Skipped
      ensures s'.pc != Add && s'.pc != Acquire && s'.pc != Spawn
      ensures forall m :: j <= m < s'.i ==> s'.phase[m] == Skipped
    {
      assert IndexOk(c, s, j);
      if j < s.i { assert s.phase[j] == Skipped; }
    }
  }

  lemma StepIndexOk(c: Config, s: State, step: Step, j: nat)
    requires Inv(c, s) && Enabled(c, s, step) && j < c.n
    ensures var s' := Apply(c, s, step); Shaped(c, s') && IndexOk(c, s', j)
  {
    assert IndexOk(c, s, j);
  }

  /** The index a step moves and the phase it moves to. */
  function Moved(s: State, step: Step): Option<(nat, Phase)> {
    match step
    case CheckCtx => if s.ctx.Some? then Some((s.i, Skipped)) else None
    case WgAdd => Some((s.i, Added))
    case SemAcquire => Some((s.i, Acquired))
    case Go => Some((s.i, Spawned))
    case Start(j) => Some((j, Running))
    case Store(j) => Some((j, Stored))
    case SemRelease(j) => Some((j, Released))
    case WgDone(j) => Some((j, Finished))
    case _ => None
  }

  /** A step changes one phase, and the counters by what that change is worth. */
  lemma StepMoves(c: Config, s: State, step: Step)
    requires Shaped(c, s) && Positions(c, s) && Enabled(c, s, step)
    ensures var s', m := Apply(c, s, step), Moved(s, step);
      match m
      case None => s'.phase == s.phase && s'.sem == s.sem && s'.wg == s.wg
      case Some((j, p)) =>
        && j < |s.phase| && s'.phase == s.phase[j := p]
        && s'.sem == s.sem + Of(Slots, p) - Of(Slots, s.phase[j])
        && s'.wg == s.wg + Of(Units, p) - Of(Units, s.phase[j])
  {
  }

  lemma StepBalanced(c: Config, s: State, step: Step)
    requires Shaped(c, s) && Positions(c, s) && Balanced(c, s) && Enabled(c, s, step)
    ensures Balanced(c, Apply(c, s, step))
  {
    StepMoves(c, s, step);
    match Moved(s, step)
    case None =>
    case Some((j, p)) =>
      TotalUpdate(s.phase, j, p, Slots);
      TotalUpdate(s.phase, j, p, Units);
  }

  lemma StepInv(c: Config, s: State, step: Step)
    requires Inv(c, s) && Enabled(c, s, step)
    ensures Inv(c, Apply(c, s, step))
  {
    StepPositions(c, s, step);
    StepSkips(c, s, step);
    StepBalanced(c, s, step);
    forall j | 0 <= j < c.n
      ensures IndexOk(c, Apply(c, s, step), j)
    {
      StepIndexOk(c, s, step, j);
    }
  }

  lemma {:induction false} TakeInv(c: Config, s: State, steps: seq<Step>)
    requires Inv(c, s) && CanTake(c, s, steps)
    ensures Inv(c, Take(c, s, steps))
    decreases steps
  {
    if steps != [] {
      StepInv(c, s, steps[0]);
      TakeInv(c, Apply(c, s, steps[0]), steps[1..]);
    }
  }

  /** Every state of every interleaving satisfies the invariant. */
  lemma RunInv(c: Config, steps: seq<Step>)
    requires IsRun(c, steps)
    ensures Inv(c, Exec(c, steps))
  {
    InitInv(c);
    TakeInv(c, Init(c), steps);
  }

  // ---------------------------------------------------------------- what a completed run returns

  /** The slice runParallel returns when indices below k ran and the context held e at k. */
  ghost function Outcome(c: Config, k: nat, e: Option<Error>): seq<Option<Error>>
    requires k <= c.n
  {
    seq(c.n, j requires 0 <= j < c.n => if j < k then c.fn(j) else e)
  }

  /** The first skipped index, or n: the length of the prefix that was started. */
  ghost function Cut(ps: seq<Phase>): (k: nat)
    ensures k <= |ps|
    ensures forall j :: 0 <= j < k ==> ps[j] != Skipped
    ensures k < |ps| ==> ps[k] == Skipped
  {
    if ps == [] || ps[0] == Skipped then 0 else 1 + Cut(ps[1..])
  }

  /** s is a returned state in which exactly the indices below k were started: fn ran once for
      each of them and its result is in errs, the others hold the context's error and fn was never
      called for them; each slot was written exactly once, every semaphore slot was given back and
      the WaitGroup is at zero. */
  ghost predicate Complete(c: Config, s: State, k: nat) {
    && Shaped(c, s) && s.pc == Returned && k <= c.n
    && (k < c.n ==> s.ctx.Some?)
    && s.errs == Outcome(c, k, s.ctx)
    && (forall j :: 0 <= j < c.n ==> s.runs[j] == if j < k then 1 else 0)
    && (forall j :: 0 <= j < c.n ==> s.writes[j] == 1)
    && s.sem == 0 && s.wg == 0
  }

  lemma ReturnedIndex(c: Config, s: State, j: nat)
    requires Inv(c, s) && s.pc == Returned && j < c.n
    ensures s.phase[j] == (if j < Cut(s.phase) then Finished else Skipped) && IndexOk(c, s, j)
  {
    assert IndexOk(c, s, j);
    if s.phase[j] != Finished && s.phase[j] != Skipped {
      TotalAtLeast(s.phase, j, Units);
    }
  }

  // ---------------------------------------------------------------- which cut a cancellation gives

  /** Main has passed the check of its index and has not yet launched it. */
  predicate Busy(pc: Pc) {
    pc == Add || pc == Acquire || pc == Spawn
  }

  /** How many indices are past their check: a cancellation can no longer keep them from running. */
  function Committed(s: State): nat {
    if Busy(s.pc) then s.i + 1 else s.i
  }

  /** The cut a schedule decides from s on: what was committed when the context was cancelled, and all
      of [0, n) when it never was. */
  ghost function CutOf(c: Config, s: State, steps: seq<Step>): nat
    requires CanTake(c, s, steps)
    decreases steps
  {
    if steps == [] then c.n
    else if steps[0].Cancel? then Committed(s)
    else CutOf(c, Apply(c, s, steps[0]), steps[1..])
  }

  /** The error of the first cancellation in a schedule. */
  ghost function CancelError(steps: seq<Step>): Option<Error> {
    if steps == [] then None
    else if steps[0].Cancel? then Some(steps[0].e)
    else CancelError(steps[1..])
  }

  /** The context was cancelled with r indices committed: those run, and all later ones are skipped. */
  ghost predicate Cancelled(c: Config, s: State, r: nat) {
    && Shaped(c, s) && s.i <= c.n && s.ctx.Some? && r <= c.n
    && (if Busy(s.pc) then s.i + 1 == r else s.i >= r)
    && (forall j :: 0 <= j < s.i ==> (s.phase[j] == Skipped <==> j >= r))
  }

  lemma StepCancelled(c: Config, s: State, step: Step, r: nat)
    requires Inv(c, s) && Enabled(c, s, step) && Cancelled(c, s, r)
    ensures Cancelled(c, Apply(c, s, step), r) && Apply(c, s, step).ctx == s.ctx
  {
    hide Total, IndexOk;
    StepPositions(c, s, step);
  }

  lemma {:induction false} TakeCancelled(c: Config, s: State, steps: seq<Step>, r: nat)
    requires Inv(c, s) && CanTake(c, s, steps) && Cancelled(c, s, r)
    ensures Cancelled(c, Take(c, s, steps), r) && Take(c, s, steps).ctx == s.ctx
    decreases steps
  {
    if steps != [] {
      StepInv(c, s, steps[0]);
      StepCancelled(c, s, steps[0], r);
      TakeCancelled(c, Apply(c, s, steps[0]), steps[1..], r);
    }
  }

  /** At the moment of a cancellation nothing has been skipped. */
  lemma CancelHere(c: Config, s: State, e: Error)
    requires Inv(c, s) && Enabled(c, s, Cancel(e))
    ensures Inv(c, Apply(c, s, Cancel(e))) && Cancelled(c, Apply(c, s, Cancel(e)), Committed(s))
  {
    StepInv(c, s, Cancel(e));
    forall j | 0 <= j < s.i
      ensures s.phase[j] != Skipped
    {
      assert IndexOk(c, s, j);
    }
  }

  lemma CutIs(c: Config, s: State, r: nat)
    requires Inv(c, s) && s.pc == Returned && Cancelled(c, s, r)
    ensures Cut(s.phase) == r
  {
    assert r < c.n ==> s.phase[r] == Skipped;
  }

  /** The schedule decides the cut and the context's error. */
  lemma {:induction false} ScheduleCut(c: Config, s: State, steps: seq<Step>)
    requires Inv(c, s) && s.ctx.None? && CanTake(c, s, steps) && Take(c, s, steps).pc == Returned
    ensures Cut(Take(c, s, steps).phase) == CutOf(c, s, steps) && Take(c, s, steps).ctx == CancelError(steps)
    decreases steps
  {
    if steps == [] {
      var k := Cut(s.phase);
      assert k < c.n ==> IndexOk(c, s, k);
    } else if steps[0].Cancel? {
      CancelHere(c, s, steps[0].e);
      TakeCancelled(c, Apply(c, s, steps[0]), steps[1..], Committed(s));
      TakeInv(c, s, steps);
      CutIs(c, Take(c, s, steps), Committed(s));
    } else {
      StepInv(c, s, steps[0]);
      ScheduleCut(c, Apply(c, s, steps[0]), steps[1..]);
    }
  }

  /** Whatever the interleaving, a returned run is complete for the cut its schedule decides: the indices
      committed when the context was cancelled, and all of them when it never was. */
  lemma ReturnedOutcome(c: Config, steps: seq<Step>) returns (k: nat)
    requires IsRun(c, steps) && Exec(c, steps).pc == Returned
    ensures Complete(c, Exec(c, steps), k) && k == Cut(Exec(c, steps).phase)
    ensures k == CutOf(c, Init(c), steps) && Exec(c, steps).ctx == CancelError(steps)
  {
    RunInv(c, steps);
    var s := Exec(c, steps);
    k := Cut(s.phase);
    assert k < c.n ==> IndexOk(c, s, k);
    forall j | 0 <= j < c.n
      ensures s.errs[j] == Outcome(c, k, s.ctx)[j]
      ensures s.runs[j] == (if j < k then 1 else 0) && s.writes[j] == 1
    {
      ReturnedIndex(c, s, j);
    }
    if s.sem > 0 {
      var j := TotalPositive(s.phase, Slots);
      ReturnedIndex(c, s, j);
    }
    InitInv(c);
    ScheduleCut(c, Init(c), steps);
  }

  /** A returned run in which the context is cancelled with e right after the steps before. */
  ghost predicate CancelledRun(c: Config, before: seq<Step>, e: Error, after: seq<Step>) {
    && IsRun(c, before) && Enabled(c, Exec(c, before), Cancel(e))
    && CanTake(c, Apply(c, Exec(c, before), Cancel(e)), after)
    && Take(c, Apply(c, Exec(c, before), Cancel(e)), after).pc == Returned
  }

  ghost function Final(c: Config, before: seq<Step>, e: Error, after: seq<Step>): State
    requires CancelledRun(c, before, e, after)
  {
    Take(c, Apply(c, Exec(c, before), Cancel(e)), after)
  }

  lemma {:induction false} ReturnedFrom(c: Config, s: State, r: nat)
    requires Inv(c, s) && s.pc == Returned && Cancelled(c, s, r)
    ensures s.errs == Outcome(c, r, s.ctx) && forall j :: 0 <= j < c.n ==> s.runs[j] == if j < r then 1 else 0
  {
    CutIs(c, s, r);
    forall j | 0 <= j < c.n
      ensures s.errs[j] == Outcome(c, r, s.ctx)[j] && s.runs[j] == if j < r then 1 else 0
    {
      ReturnedIndex(c, s, j);
    }
  }

  /** The moment of the cancellation decides everything, whatever happens after it: exactly the indices
      past their check run, the one main is working on included, and all others get the error. */
  lemma CancellationDecides(c: Config, before: seq<Step>, e: Error, after: seq<Step>)
    requires CancelledRun(c, before, e, after)
    ensures var s, r := Exec(c, before), Final(c, before, e, after);
      && Shaped(c, s) && Shaped(c, r) && Committed(s) <= c.n
      && r.errs == Outcome(c, Committed(s), Some(e))
      && forall j :: 0 <= j < c.n ==> r.runs[j] == if j < Committed(s) then 1 else 0
  {
    RunInv(c, before);
    var s := Exec(c, before);
    CancelHere(c, s, e);
    TakeInv(c, Apply(c, s, Cancel(e)), after);
    TakeCancelled(c, Apply(c, s, Cancel(e)), after, Committed(s));
    ReturnedFrom(c, Final(c, before, e, after), Committed(s));
  }

  /** A context that is cancelled before the call runs nothing. */
  lemma AlreadyCancelled(c: Config, e: Error, after: seq<Step>)
    requires CancelledRun(c, [], e, after)
    ensures var r := Final(c, [], e, after);
      && Shaped(c, r) && r.errs == seq(c.n, _ => Some(e))
      && forall j :: 0 <= j < c.n ==> r.runs[j] == 0
  {
    CancellationDecides(c, [], e, after);
    assert Outcome(c, 0, Some(e)) == seq(c.n, _ => Some(e));
  }

  /** The phases from the call of fn on. */
  predicate Called(p: Phase) {
    p == Running || p == Stored || p == Released || p == Finished
  }

  lemma CalledOnce(c: Config, s: State)
    requires Inv(c, s)
    ensures forall j :: 0 <= j < c.n ==> s.runs[j] == if Called(s.phase[j]) then 1 else 0
  {
    forall j | 0 <= j < c.n
      ensures s.runs[j] == if Called(s.phase[j]) then 1 else 0
    {
      assert IndexOk(c, s, j);
    }
  }

  /** The documented rule, that fn is not called for an index that had not started when the context was
      cancelled, holds of a run exactly when at that moment main was not between an index's check and
      its launch, and no launched goroutine was still to call fn. */
  lemma DocumentedSkipMeans(c: Config, before: seq<Step>, e: Error, after: seq<Step>)
    requires CancelledRun(c, before, e, after)
    ensures var s, r := Exec(c, before), Final(c, before, e, after);
      && Shaped(c, s) && Shaped(c, r)
      && ((forall j :: 0 <= j < c.n && s.runs[j] == 0 ==> r.runs[j] == 0) <==>
            !Busy(s.pc) && forall j :: 0 <= j < c.n ==> s.phase[j] != Spawned)
  {
    CancellationDecides(c, before, e, after);
    RunInv(c, before);
    var s, r := Exec(c, before), Final(c, before, e, after);
    CalledOnce(c, s);
    if Busy(s.pc) {
      assert s.runs[s.i] == 0 && r.runs[s.i] == 1;
    } else if j :| 0 <= j < c.n && s.phase[j] == Spawned {
      assert s.runs[j] == 0 && r.runs[j] == 1;
    } else {
      forall j | 0 <= j < c.n && s.runs[j] == 0
        ensures r.runs[j] == 0
      {
        assert j < s.i ==> IndexOk(c, s, j);
      }
    }
  }

  lemma {:induction false} TotalAtLeast(ps: seq<Phase>, j: nat, g: Gauge)
    requires j < |ps|
    ensures Total(ps, g) >= Of(g, ps[j])
  {
    if j > 0 {
      TotalAtLeast(ps[1..], j - 1, g);
    }
  }

  /** The result depends on the schedule only through the cut and the context's error. */
  lemma ScheduleIndependent(c: Config, a: seq<Step>, b: seq<Step>)
    requires IsRun(c, a) && Exec(c, a).pc == Returned
    requires IsRun(c, b) && Exec(c, b).pc == Returned
    requires Cut(Exec(c, a).phase) == Cut(Exec(c, b).phase)
    requires Cut(Exec(c, a).phase) < c.n ==> Exec(c, a).ctx == Exec(c, b).ctx
    ensures Exec(c, a).errs == Exec(c, b).errs
  {
    var k := ReturnedOutcome(c, a);
    var k' := ReturnedOutcome(c, b);
    assert Outcome(c, k, Exec(c, a).ctx) == Outcome(c, k', Exec(c, b).ctx);
  }

  // ---------------------------------------------------------------- bounded concurrency

  /** The calls of fn that have begun and have not stored their result. */
  ghost function InProgress(s: State): set<nat> {
    set j: nat | j < |s.runs| && j < |s.writes| && s.runs[j] > s.writes[j]
  }

  lemma {:induction false} SlotsBound(ps: seq<Phase>, held: set<nat>)
    requires forall j :: j in held ==> j < |ps| && Of(Slots, ps[j]) > 0
    ensures |held| <= Total(ps, Slots)
    decreases |held|
  {
    if held != {} {
      var j :| j in held;
      TotalUpdate(ps, j, Unseen, Slots);
      SlotsBound(ps[j := Unseen], held - {j});
    }
  }

  /** In every reachable state at most maxWorkers calls of fn are in progress, at most one when maxWorkers is
      not positive; and the semaphore counts exactly the indices that have acquired and not yet released. */
  lemma BoundedConcurrency(c: Config, steps: seq<Step>)
    requires IsRun(c, steps)
    ensures var s := Exec(c, steps);
      && |InProgress(s)| <= (if c.maxWorkers >= 1 then c.maxWorkers else 1)
      && s.sem == Total(s.phase, Slots)
  {
    RunInv(c, steps);
    var s := Exec(c, steps);
    forall j | j in InProgress(s)
      ensures s.phase[j] == Running
    {
      assert IndexOk(c, s, j);
    }
    SlotsBound(s.phase, InProgress(s));
  }

  // ---------------------------------------------------------------- progress and termination

  /** Steps left: what the indices still need, what main still needs, and one cancellation. */
  ghost function Measure(s: State): int {
    Total(s.phase, Todo) - (if s.pc == Add then 1 else 0)
    + (match s.pc case Join => 1 case Returned => 0 case _ => 2)
    + (if s.ctx.None? then 1 else 0)
  }

  lemma MeasureNonNegative(c: Config, s: State)
    requires Inv(c, s)
    ensures Measure(s) >= 0
    ensures s.pc == Returned ==> Total(s.phase, Todo) == 0
  {
    if s.pc == Returned && Total(s.phase, Todo) > 0 {
      var j := TotalPositive(s.phase, Todo);
      TotalAtLeast(s.phase, j, Units);
    }
  }

  lemma StepDecreases(c: Config, s: State, step: Step)
    requires Shaped(c, s) && Positions(c, s) && Enabled(c, s, step)
    ensures Measure(Apply(c, s, step)) < Measure(s)
  {
    hide Total;
    StepMoves(c, s, step);
    match Moved(s, step)
    case None =>
    case Some((j, p)) => TotalUpdate(s.phase, j, p, Todo);
  }

  lemma {:induction false} TakeIsBounded(c: Config, s: State, steps: seq<Step>)
    requires Inv(c, s) && CanTake(c, s, steps)
    ensures |steps| <= Measure(s)
    decreases steps
  {
    if steps == [] {
      MeasureNonNegative(c, s);
    } else {
      StepInv(c, s, steps[0]);
      StepDecreases(c, s, steps[0]);
      TakeIsBounded(c, Apply(c, s, steps[0]), steps[1..]);
    }
  }

  /** No schedule is longer than 8n + 3 steps. */
  lemma RunsAreBounded(c: Config, steps: seq<Step>)
    requires IsRun(c, steps)
    ensures |steps| <= 8 * c.n + 3
  {
    InitInv(c);
    TotalConst(Init(c).phase, Todo, Unseen);
    TakeIsBounded(c, Init(c), steps);
  }

  /** Deadlock freedom: until runParallel has returned, main or some goroutine can step, without
      any help from the environment; in particular a main blocked on the semaphore or in Wait
      always has a goroutine that can move. */
  lemma Progress(c: Config, s: State) returns (step: Step)
    requires Inv(c, s) && s.pc != Returned
    ensures Enabled(c, s, step) && !step.Cancel?
  {
    match s.pc
    case Check => step := if s.i < c.n then CheckCtx else LoopExit;
    case Add => step := WgAdd;
    case Spawn => step := Go;
    case Acquire =>
      if s.sem < Limit(c) {
        step := SemAcquire;
      } else {
        var j := TotalPositive(s.phase, Slots);
        step := GoroutineStep(c, s, j);
      }
    case Join =>
      if s.wg == 0 {
        step := WaitReturn;
      } else {
        var j := TotalPositive(s.phase, Units);
        step := GoroutineStep(c, s, j);
      }
  }

  /** A launched goroutine that has not finished is never blocked. */
  lemma GoroutineStep(c: Config, s: State, j: nat) returns (step: Step)
    requires Inv(c, s) && j < c.n && Launched(s.phase[j]) && s.phase[j] != Finished
    ensures Enabled(c, s, step) && !step.Cancel?
  {
    TotalAtLeast(s.phase, j, Slots);
    TotalAtLeast(s.phase, j, Units);
    step := match s.phase[j] case Spawned => Start(j) case Running => Store(j)
                             case Stored => SemRelease(j) case _ => WgDone(j);
  }

  lemma {:induction false} CanReturn(c: Config, s: State) returns (more: seq<Step>)
    requires Inv(c, s)
    ensures CanTake(c, s, more) && Take(c, s, more).pc == Returned
    decreases Measure(s)
  {
    MeasureNonNegative(c, s);
    if s.pc == Returned {
      more := [];
    } else {
      var step := Progress(c, s);
      StepInv(c, s, step);
      StepDecreases(c, s, step);
      more := CanReturn(c, Apply(c, s, step));
      Prepend(c, s, step, more);
      more := [step] + more;
    }
  }

  /** Every run, however far it got, can be continued to a returned one. */
  lemma RunCompletes(c: Config, steps: seq<Step>) returns (more: seq<Step>)
    requires IsRun(c, steps)
    ensures IsRun(c, steps + more) && Exec(c, steps + more).pc == Returned
  {
    RunInv(c, steps);
    more := CanReturn(c, Exec(c, steps));
    Append(c, Init(c), steps, more);
  }

  // ---------------------------------------------------------------- every cut happens

  /** Main is about to check an index, uncancelled, and every earlier index has finished. */
  ghost predicate Serial(c: Config, s: State) {
    && Inv(c, s) && s.pc == Check && s.ctx.None?
    && (forall j :: 0 <= j < s.i ==> s.phase[j] == Finished)
  }

  lemma SerialIsIdle(c: Config, s: State)
    requires Serial(c, s)
    ensures s.sem == 0 && s.wg == 0
  {
    TotalMonotone(s.phase, Slots, Units);
    if s.wg > 0 {
      var j := TotalPositive(s.phase, Units);
    }
  }

  lemma TakeFour(c: Config, s: State, w: Step, x: Step, y: Step, z: Step) returns (r: State)
    requires Enabled(c, s, w) && Enabled(c, Apply(c, s, w), x)
    requires Enabled(c, Apply(c, Apply(c, s, w), x), y)
    requires Enabled(c, Apply(c, Apply(c, Apply(c, s, w), x), y), z)
    ensures CanTake(c, s, [w, x, y, z]) && r == Take(c, s, [w, x, y, z])
    ensures r == Apply(c, Apply(c, Apply(c, Apply(c, s, w), x), y), z)
  {
    var s1 := Apply(c, s, w);
    var s2 := Apply(c, s1, x);
    var s3 := Apply(c, s2, y);
    r := Apply(c, s3, z);
    assert CanTake(c, r, []) && Take(c, r, []) == r;
    Prepend(c, s3, z, []);
    Prepend(c, s2, y, [z]);
    Prepend(c, s1, x, [y, z]);
    Prepend(c, s, w, [x, y, z]);
    assert [z] + [] == [z] && [y] + [z] == [y, z] && [x] + [y, z] == [x, y, z];
    assert [w] + [x, y, z] == [w, x, y, z];
  }

  /** Main takes its index from the check to the go statement. */
  lemma Launch(c: Config, s: State) returns (steps: seq<Step>, r: State)
    requires Serial(c, s) && s.i < c.n
    ensures CanTake(c, s, steps) && r == Take(c, s, steps) && Inv(c, r)
    ensures r == s.(i := s.i + 1, sem := 1, wg := 1, phase := s.phase[s.i := Spawned])
  {
    SerialIsIdle(c, s);
    steps := [CheckCtx, WgAdd, SemAcquire, Go];
    r := TakeFour(c, s, CheckCtx, WgAdd, SemAcquire, Go);
    TakeInv(c, s, steps);
  }

  /** One index taken alone from its check to its wg.Done. */
  lemma SerialIndex(c: Config, s: State) returns (steps: seq<Step>, r: State)
    requires Serial(c, s) && s.i < c.n
    ensures CanTake(c, s, steps) && r == Take(c, s, steps)
    ensures Serial(c, r) && r.i == s.i + 1
  {
    var first, a := Launch(c, s);
    var j := s.i;
    var last := [Start(j), Store(j), SemRelease(j), WgDone(j)];
    r := TakeFour(c, a, Start(j), Store(j), SemRelease(j), WgDone(j));
    TakeInv(c, a, last);
    Append(c, s, first, last);
    steps := first + last;
  }

  /** After a cancellation main skips everything it has not reached, then returns. */
  lemma {:induction false} SkipRest(c: Config, s: State) returns (steps: seq<Step>)
    requires Inv(c, s) && s.pc == Check && s.ctx.Some? && s.wg == 0
    ensures CanTake(c, s, steps)
    ensures var r := Take(c, s, steps);
      r.pc == Returned && r.ctx == s.ctx && |r.phase| == c.n
      && (forall j :: 0 <= j < c.n ==> r.phase[j] == if j < s.i then s.phase[j] else Skipped)
    decreases c.n - s.i
  {
    if s.i == c.n {
      var a := Apply(c, s, LoopExit);
      assert CanTake(c, Apply(c, a, WaitReturn), []);
      Prepend(c, a, WaitReturn, []);
      Prepend(c, s, LoopExit, [WaitReturn] + []);
      steps := [LoopExit] + ([WaitReturn] + []);
    } else {
      StepInv(c, s, CheckCtx);
      var rest := SkipRest(c, Apply(c, s, CheckCtx));
      Prepend(c, s, CheckCtx, rest);
      steps := [CheckCtx] + rest;
    }
  }

  /** From a serial state at or before k, run up to k, cancel with e, skip the rest, return. */
  lemma {:induction false} SerialCut(c: Config, s: State, k: nat, e: Error) returns (steps: seq<Step>)
    requires Serial(c, s) && s.i <= k <= c.n
    ensures CanTake(c, s, steps)
    ensures var r := Take(c, s, steps);
      r.pc == Returned && r.ctx == Some(e) && |r.phase| == c.n
      && (forall j :: 0 <= j < c.n ==> r.phase[j] == if j < k then Finished else Skipped)
    decreases k - s.i
  {
    if s.i == k {
      SerialIsIdle(c, s);
      StepInv(c, s, Cancel(e));
      steps := SkipRest(c, Apply(c, s, Cancel(e)));
      Prepend(c, s, Cancel(e), steps);
      steps := [Cancel(e)] + steps;
    } else {
      var first, a := SerialIndex(c, s);
      var rest := SerialCut(c, a, k, e);
      Append(c, s, first, rest);
      steps := first + rest;
    }
  }

  /** No cut is spurious: for every k and every context error some schedule returns exactly
      Outcome(c, k, e), so the cut is all that a schedule can change. */
  lemma EveryCutHappens(c: Config, k: nat, e: Error) returns (steps: seq<Step>)
    requires k <= c.n
    ensures IsRun(c, steps) && Exec(c, steps).pc == Returned
    ensures Exec(c, steps).errs == Outcome(c, k, Some(e))
  {
    if c.n == 0 {
      steps := [];
    } else {
      InitInv(c);
      steps := SerialCut(c, Init(c), k, e);
      var k' := ReturnedOutcome(c, steps);
      assert k < c.n ==> Exec(c, steps).phase[k] == Skipped;
      assert k' == k;
    }
  }

  /** Nothing but launches so far: i goroutines wait to call fn and hold a slot each. */
  ghost predicate Filled(c: Config, s: State) {
    && Inv(c, s) && s.pc == Check && s.ctx.None? && s.sem == s.i
    && (forall j :: 0 <= j < s.i ==> s.phase[j] == Spawned)
  }

  lemma {:induction false} Fill(c: Config, s: State, m: nat) returns (steps: seq<Step>)
    requires Filled(c, s) && s.i <= m <= Limit(c) && m <= c.n
    ensures CanTake(c, s, steps)
    ensures Filled(c, Take(c, s, steps)) && Take(c, s, steps).i == m
    decreases m - s.i
  {
    if s.i == m {
      steps := [];
    } else {
      var first := [CheckCtx, WgAdd, SemAcquire, Go];
      var a := TakeFour(c, s, CheckCtx, WgAdd, SemAcquire, Go);
      TakeInv(c, s, first);
      var rest := Fill(c, a, m);
      Append(c, s, first, rest);
      steps := first + rest;
    }
  }

  /** Of m launched goroutines the first r are inside fn. */
  ghost predicate Working(c: Config, s: State, r: nat, m: nat) {
    && Inv(c, s) && r <= m <= c.n
    && forall j :: 0 <= j < c.n ==> s.phase[j] == if j < r then Running else if j < m then Spawned else Unseen
  }

  lemma {:induction false} StartAll(c: Config, s: State, r: nat, m: nat) returns (steps: seq<Step>)
    requires Working(c, s, r, m)
    ensures CanTake(c, s, steps) && Working(c, Take(c, s, steps), m, m)
    decreases m - r
  {
    if r == m {
      steps := [];
    } else {
      StepInv(c, s, Start(r));
      var rest := StartAll(c, Apply(c, s, Start(r)), r + 1, m);
      Prepend(c, s, Start(r), rest);
      steps := [Start(r)] + rest;
    }
  }

  lemma {:induction false} CountBelow(m: nat, below: set<nat>)
    requires forall j: nat :: j in below <==> j < m
    ensures |below| == m
  {
    if m == 0 {
      assert below == {};
    } else {
      CountBelow(m - 1, below - {m - 1});
    }
  }

  /** The bound is tight: some schedule has min(n, maxWorkers) calls of fn in progress at once, one when
      maxWorkers is not positive. */
  lemma FullConcurrency(c: Config) returns (steps: seq<Step>)
    ensures IsRun(c, steps)
    ensures |InProgress(Exec(c, steps))| == Min(c.n, if c.maxWorkers >= 1 then c.maxWorkers else 1)
  {
    InitInv(c);
    if c.n == 0 {
      steps := [];
      CountBelow(0, InProgress(Exec(c, steps)));
    } else {
      var m := Min(c.n, Limit(c));
      var fill := Fill(c, Init(c), m);
      var s := Take(c, Init(c), fill);
      var start := StartAll(c, s, 0, m);
      Append(c, Init(c), fill, start);
      steps := fill + start;
      CalledOnce(c, Exec(c, steps));
      forall j: nat
        ensures j in InProgress(Exec(c, steps)) <==> j < m
      {
        assert j < c.n ==> IndexOk(c, Exec(c, steps), j);
      }
      CountBelow(m, InProgress(Exec(c, steps)));
    }
  }

  /** Main takes its index from the check to the semaphore. */
  lemma Park(c: Config, s: State)
    requires Filled(c, s) && s.i < c.n
    ensures CanTake(c, s, [CheckCtx, WgAdd])
    ensures Take(c, s, [CheckCtx, WgAdd]) == s.(pc := Acquire, wg := s.wg + 1, phase := s.phase[s.i := Added])
  {
    var a := Apply(c, s, CheckCtx);
    var b := Apply(c, a, WgAdd);
    assert CanTake(c, b, []) && Take(c, b, []) == b;
    Prepend(c, a, WgAdd, []);
    Prepend(c, s, CheckCtx, [WgAdd]);
  }

  /** Main has passed the check of index Limit(c) and is blocked on the full semaphore; no goroutine has
      called fn yet. */
  lemma Block(c: Config) returns (before: seq<Step>)
    requires Limit(c) < c.n
    ensures IsRun(c, before)
    ensures var s := Exec(c, before);
      && Shaped(c, s) && s.pc == Acquire && s.i == Limit(c) && s.ctx.None? && !Enabled(c, s, SemAcquire)
      && forall j :: 0 <= j < c.n ==> s.runs[j] == 0
  {
    InitInv(c);
    var fill := Fill(c, Init(c), Limit(c));
    hide Take, CanTake;
    var s := Take(c, Init(c), fill);
    Park(c, s);
    Append(c, Init(c), fill, [CheckCtx, WgAdd]);
    before := fill + [CheckCtx, WgAdd];
    CalledOnce(c, s);
  }

  /** The documented rule does fail: in some run the context is cancelled while main is blocked on the
      semaphore and fn has not been called at all, and Limit(c) + 1 calls are still made. */
  lemma CancelledWhileBlocked(c: Config, e: Error) returns (before: seq<Step>, after: seq<Step>)
    requires Limit(c) < c.n
    ensures CancelledRun(c, before, e, after)
    ensures var s, r := Exec(c, before), Final(c, before, e, after);
      && Shaped(c, s) && Shaped(c, r) && s.pc == Acquire && s.i == Limit(c) && !Enabled(c, s, SemAcquire)
      && (forall j :: 0 <= j < c.n ==> s.runs[j] == 0)
      && (forall j :: 0 <= j < c.n ==> r.runs[j] == if j <= Limit(c) then 1 else 0)
  {
    before := Block(c);
    RunInv(c, before);
    CancelHere(c, Exec(c, before), e);
    after := CanReturn(c, Apply(c, Exec(c, before), Cancel(e)));
    CancellationDecides(c, before, e, after);
  }

  // ---------------------------------------------------------------- the call

  /** A call of runParallel and the schedule it ran under. */
  datatype Call = Call(c: Config, steps: seq<Step>)

  /** The call had n indices and at most that many workers, returned errs, started the first k indices and
      ended with that state of the context. */
  ghost predicate Made(call: Call, n: nat, workers: int, errs: seq<Option<Error>>, k: nat, ctx: Option<Error>) {
    && call.c.n == n && call.c.maxWorkers == workers
    && IsRun(call.c, call.steps) && Exec(call.c, call.steps).pc == Returned
    && errs == Exec(call.c, call.steps).errs
    && k == CutOf(call.c, Init(call.c), call.steps) && ctx == CancelError(call.steps)
  }

  /** runParallel under an arbitrary scheduler: each turn takes any enabled step. */
  method RunParallel(c: Config)
    returns (errs: seq<Option<Error>>, ghost k: nat, s: State, ghost steps: seq<Step>)
    ensures IsRun(c, steps) && s == Exec(c, steps)
    ensures Complete(c, s, k) && errs == s.errs
    ensures k == CutOf(c, Init(c), steps) && s.ctx == CancelError(steps)
  {
    var st := Init(c);
    steps := [];
    InitInv(c);
    while st.pc != Returned
      invariant IsRun(c, steps) && st == Exec(c, steps) && Inv(c, st)
      decreases Measure(st) + 1
    {
      ghost var _ := Progress(c, st);
      MeasureNonNegative(c, st);
      var step :| Enabled(c, st, step);
      StepInv(c, st, step);
      StepDecreases(c, st, step);
      Prepend(c, st, step, []);
      Append(c, Init(c), steps, [step] + []);
      st := Apply(c, st, step);
      steps := steps + ([step] + []);
    }
    k := ReturnedOutcome(c, steps);
    s := st;
    errs := st.errs;
  }
}
