/** The shared build cache (pipeline/build_cache.py) as a protocol between processes.

    One key is modelled: the product file, the stored compile error, the lock, and any number of
    `build` calls, each between two file-system operations at any time. Looking at a file, linking,
    renaming and locking are single steps; lock waits may time out, calls may crash, and files may
    be evicted under everybody's feet. */
module BuildCache {
  import opened Ir

  type Call = nat
  type Run = nat

  /** What a product file holds: all that a run wrote, or only some of it. */
  datatype File = Whole(run: Run) | Part(run: Run)

  datatype RunState = Going | Succeeded | Failed(rc: int, log: string)

  datatype Neg = Neg(text: string, time: real)

  /** What a call returns. */
  datatype Outcome =
    | Success(file: File)                  // 0, with this at `out`
    | Failure(rc: int, log: string)        // its own run failed
    | NegHit(text: string)                 // 1, with a stored error
    | Raised

  /** Where a call is. */
  datatype Pc =
    | Hit1 | Link1 | Neg1                  // before the lock
    | Lock
    | Hit2 | Link2 | Neg2                  // the recheck
    | Ready | Running(run: Run)
    | Built(run: Run) | Published(run: Run)
    | Failing(rc: int, log: string)
    | Releasing(result: Outcome)
    | Done(result: Outcome)
    | Crashed

  datatype State = State(
    dst: Option<File>, err: Option<Neg>, lock: Option<Call>, now: real,
    calls: map<Call, Pc>, runs: seq<RunState>)

  datatype Config = Config(ttl: real, infra: string -> bool, tail: string -> string)

  datatype Action =
    | Begin(c: Call)
    | Step(c: Call)
    | TakeLock(c: Call)
    | TimeOut(c: Call)
    | StartRun(c: Call)
    | EndRun(c: Call, rc: int, log: string, made: bool)
    | RaiseRun(c: Call)
    | Crash(c: Call)
    | Evict
    | EvictError
    | Tick(dt: real)

  function Initial(): State { State(None, None, None, 0.0, map[], []) }

  /** A compile error worth remembering: not a signal, not a sick machine. */
  predicate Deterministic(cfg: Config, rc: int, log: string) {
    0 < rc < 128 && !cfg.infra(log)
  }

  function StoredError(cfg: Config, s: State): Option<string> {
    if cfg.ttl > 0.0 && s.err.Some? && s.now - s.err.value.time <= cfg.ttl then Some(s.err.value.text) else None
  }

  function At(s: State, c: Call, pc: Pc): State { s.(calls := s.calls[c := pc]) }

  /** The temporary file of a run: whole once the run has succeeded. */
  function Tmp(s: State, r: Run): File {
    if r < |s.runs| && s.runs[r] == Succeeded then Whole(r) else Part(r)
  }

  predicate Stepping(pc: Pc) {
    pc.Hit1? || pc.Link1? || pc.Neg1? || pc.Hit2? || pc.Link2? || pc.Neg2? || pc.Built? || pc.Published? || pc.Failing? || pc.Releasing?
  }

  predicate Enabled(s: State, a: Action) {
    match a
    case Begin(c) => c !in s.calls
    case Step(c) => c in s.calls && Stepping(s.calls[c])
    case TakeLock(c) => c in s.calls && s.calls[c] == Lock && s.lock.None?
    case TimeOut(c) => c in s.calls && s.calls[c] == Lock
    case StartRun(c) => c in s.calls && s.calls[c] == Ready
    case EndRun(c, _, _, _) => c in s.calls && s.calls[c].Running?
    case RaiseRun(c) => c in s.calls && s.calls[c].Running?
    case Crash(c) => c in s.calls && !s.calls[c].Done? && !s.calls[c].Crashed?
    case Evict => true
    case EvictError => true
    case Tick(dt) => dt >= 0.0
  }

  function Unlocked(s: State, c: Call): State {
    if s.lock == Some(c) then s.(lock := None) else s
  }

  function WithRun(s: State, r: Run, x: RunState): State {
    if r < |s.runs| then s.(runs := s.runs[r := x]) else s
  }

  function Advance(cfg: Config, s: State, c: Call): State
    requires c in s.calls && Stepping(s.calls[c])
  {
    match s.calls[c]
    case Hit1 => At(s, c, if s.dst.Some? then Link1 else Neg1)
    case Link1 => At(s, c, if s.dst.Some? then Done(Success(s.dst.value)) else Done(Raised))
    case Neg1 => At(s, c, if StoredError(cfg, s).Some? then Done(NegHit(StoredError(cfg, s).value)) else Lock)
    case Hit2 => At(s, c, if s.dst.Some? then Link2 else Neg2)
    case Link2 => At(s, c, Releasing(if s.dst.Some? then Success(s.dst.value) else Raised))
    case Neg2 => At(s, c, if StoredError(cfg, s).Some? then Releasing(NegHit(StoredError(cfg, s).value)) else Ready)
    case Built(r) => At(s.(dst := Some(Tmp(s, r))), c, Published(r))
    case Published(r) => At(s, c, Releasing(if s.dst.Some? then Success(s.dst.value) else Raised))
    case Failing(rc, log) =>
      var stored := if rc != 0 && cfg.ttl > 0.0 && Deterministic(cfg, rc, log) then s.(err := Some(Neg(cfg.tail(log), s.now))) else s;
      At(stored, c, Releasing(Failure(if rc != 0 then rc else 1, log)))
    case Releasing(result) => At(Unlocked(s, c), c, Done(result))
    case _ => s
  }

  function Apply(cfg: Config, s: State, a: Action): State
    requires Enabled(s, a)
  {
    match a
    case Begin(c) => At(s, c, Hit1)
    case Step(c) => Advance(cfg, s, c)
    case TakeLock(c) => At(s.(lock := Some(c)), c, Hit2)
    case TimeOut(c) => At(s, c, Hit2)
    case StartRun(c) => At(s.(runs := s.runs + [Going]), c, Running(|s.runs|))
    case EndRun(c, rc, log, made) =>
      var r := s.calls[c].run;
      if rc == 0 && made then At(WithRun(s, r, Succeeded), c, Built(r))
      else At(WithRun(s, r, Failed(rc, log)), c, Failing(rc, log))
    case RaiseRun(c) => At(WithRun(s, s.calls[c].run, Failed(-1, "")), c, Releasing(Raised))
    case Crash(c) => At(Unlocked(s, c), c, Crashed)
    case Evict => s.(dst := None)
    case EvictError => s.(err := None)
    case Tick(dt) => s.(now := s.now + dt)
  }

  /** The state after a sequence of actions, each enabled where it happens. */
  ghost predicate Reaches(cfg: Config, actions: seq<Action>, s: State)
    decreases |actions|
  {
    if actions == [] then s == Initial()
    else exists before :: LastStep(cfg, actions, before, s)
  }

  ghost predicate LastStep(cfg: Config, actions: seq<Action>, before: State, s: State)
    requires actions != []
    decreases |actions|, 0
  {
    var a := actions[|actions| - 1];
    Reaches(cfg, actions[..|actions| - 1], before) && Enabled(before, a) && s == Apply(cfg, before, a)
  }

  // ---------------------------------------------------------------- what is always true

  ghost predicate IsProduct(s: State, f: File) {
    f.Whole? && f.run < |s.runs| && s.runs[f.run] == Succeeded
  }

  /** A text that some run's deterministic failure left behind. */
  ghost predicate IsError(cfg: Config, s: State, text: string) {
    exists r :: 0 <= r < |s.runs| && FailedWith(cfg, s.runs[r], text)
  }

  ghost predicate FailedWith(cfg: Config, x: RunState, text: string) {
    x.Failed? && 0 < x.rc < 128 && !cfg.infra(x.log) && text == cfg.tail(x.log)
  }

  /** A run ended like this; success without a product counts as failure 1. */
  ghost predicate IsFailure(s: State, rc: int, log: string) {
    exists r :: 0 <= r < |s.runs| && s.runs[r].Failed? && s.runs[r].log == log && rc == if s.runs[r].rc != 0 then s.runs[r].rc else 1
  }

  ghost predicate ResultOk(cfg: Config, s: State, o: Outcome) {
    match o
    case Success(f) => IsProduct(s, f)
    case NegHit(text) => IsError(cfg, s, text)
    case Failure(rc, log) => rc != 0 && IsFailure(s, rc, log)
    case Raised => true
  }

  ghost predicate PcOk(cfg: Config, s: State, pc: Pc) {
    match pc
    case Running(r) => r < |s.runs| && s.runs[r] == Going
    case Built(r) => r < |s.runs| && s.runs[r] == Succeeded
    case Published(r) => r < |s.runs| && s.runs[r] == Succeeded
    case Failing(rc, log) => exists r :: 0 <= r < |s.runs| && s.runs[r] == Failed(rc, log)
    case Releasing(o) => ResultOk(cfg, s, o)
    case Done(o) => ResultOk(cfg, s, o)
    case _ => true
  }

  ghost predicate OwnRuns(s: State) {
    forall c, d :: c in s.calls && d in s.calls && s.calls[c].Running? && s.calls[d].Running? && s.calls[c].run == s.calls[d].run ==> c == d
  }

  ghost predicate Safe(cfg: Config, s: State) {
    && (s.dst.Some? ==> IsProduct(s, s.dst.value))
    && (s.err.Some? ==> IsError(cfg, s, s.err.value.text))
    && (forall c :: c in s.calls ==> PcOk(cfg, s, s.calls[c]))
    && OwnRuns(s)
  }

  /** Runs that are over stay as they ended. */
  ghost predicate RunsKept(s: State, t: State) {
    |s.runs| <= |t.runs| && forall r :: 0 <= r < |s.runs| && s.runs[r] != Going ==> t.runs[r] == s.runs[r]
  }

  lemma OkStays(cfg: Config, s: State, t: State, pc: Pc)
    requires RunsKept(s, t) && PcOk(cfg, s, pc) && (pc.Running? ==> t.runs[pc.run] == Going)
    ensures PcOk(cfg, t, pc)
  {
    match pc
    case Failing(rc, log) =>
      var r :| 0 <= r < |s.runs| && s.runs[r] == Failed(rc, log);
      assert t.runs[r] == Failed(rc, log);
    case Releasing(o) => ResultStays(cfg, s, t, o);
    case Done(o) => ResultStays(cfg, s, t, o);
    case _ =>
  }

  lemma ErrorStays(cfg: Config, s: State, t: State, text: string)
    requires RunsKept(s, t) && IsError(cfg, s, text)
    ensures IsError(cfg, t, text)
  {
    var r :| 0 <= r < |s.runs| && FailedWith(cfg, s.runs[r], text);
    assert FailedWith(cfg, t.runs[r], text);
  }

  lemma ResultStays(cfg: Config, s: State, t: State, o: Outcome)
    requires RunsKept(s, t) && ResultOk(cfg, s, o)
    ensures ResultOk(cfg, t, o)
  {
    if o.NegHit? { ErrorStays(cfg, s, t, o.text); }
    if o.Failure? {
      var r :| 0 <= r < |s.runs| && s.runs[r].Failed? && s.runs[r].log == o.log && o.rc == if s.runs[r].rc != 0 then s.runs[r].rc else 1;
      assert t.runs[r] == s.runs[r];
    }
  }

  /** One call moves, runs are kept, and files stay products: then the state stays safe. */
  lemma SafeAfter(cfg: Config, s: State, t: State, c: Call)
    requires Safe(cfg, s) && RunsKept(s, t)
    requires forall d :: d in t.calls && d != c ==> d in s.calls && t.calls[d] == s.calls[d]
    requires forall d :: d in s.calls && d != c && s.calls[d].Running? ==> s.calls[d].run < |t.runs| && t.runs[s.calls[d].run] == Going
    requires c in t.calls ==> PcOk(cfg, t, t.calls[c])
    requires c in t.calls && t.calls[c].Running? ==> forall d :: d in s.calls && d != c && s.calls[d].Running? ==> s.calls[d].run != t.calls[c].run
    requires t.dst.Some? ==> t.dst == s.dst || IsProduct(t, t.dst.value)
    requires t.err.Some? ==> t.err == s.err || IsError(cfg, t, t.err.value.text)
    ensures Safe(cfg, t)
  {
    hide PcOk;
    forall d | d in t.calls
      ensures PcOk(cfg, t, t.calls[d])
    {
      if d != c {
        assert PcOk(cfg, s, s.calls[d]);
        OkStays(cfg, s, t, s.calls[d]);
      }
    }
    if t.err.Some? && t.err == s.err {
      ErrorStays(cfg, s, t, t.err.value.text);
    }
  }

  /** Nothing but the place of one call changed. */
  lemma MoveIsSafe(cfg: Config, s: State, t: State, c: Call)
    requires Safe(cfg, s) && c in s.calls && t.runs == s.runs && c in t.calls && t.calls == s.calls[c := t.calls[c]]
    requires PcOk(cfg, t, t.calls[c]) && !t.calls[c].Running?
    requires t.dst.Some? ==> t.dst == s.dst || IsProduct(t, t.dst.value)
    requires t.err.Some? ==> t.err == s.err || IsError(cfg, t, t.err.value.text)
    ensures Safe(cfg, t)
  {
    RunningIsGoing(cfg, s);
    hide PcOk, IsProduct, IsError, Safe;
    SafeAfter(cfg, s, t, c);
  }

  lemma FailingIsSafe(cfg: Config, s: State, c: Call)
    requires Safe(cfg, s) && c in s.calls && s.calls[c].Failing?
    ensures Safe(cfg, Advance(cfg, s, c))
  {
    var t := Advance(cfg, s, c);
    var rc, log := s.calls[c].rc, s.calls[c].log;
    assert PcOk(cfg, s, s.calls[c]);
    var r :| 0 <= r < |s.runs| && s.runs[r] == Failed(rc, log);
    if Deterministic(cfg, rc, log) {
      assert FailedWith(cfg, t.runs[r], cfg.tail(log));
    }
    assert PcOk(cfg, t, t.calls[c]);
    hide PcOk, Safe, IsError, Deterministic;
    MoveIsSafe(cfg, s, t, c);
  }

  lemma StepIsSafe(cfg: Config, s: State, c: Call)
    requires Safe(cfg, s) && c in s.calls && Stepping(s.calls[c])
    ensures Safe(cfg, Advance(cfg, s, c))
  {
    if s.calls[c].Failing? {
      FailingIsSafe(cfg, s, c);
    } else {
      var t := Advance(cfg, s, c);
      assert PcOk(cfg, s, s.calls[c]);
      assert t.runs == s.runs;
      StepPcOk(cfg, s, c);
      hide PcOk, Safe, IsError;
      MoveIsSafe(cfg, s, t, c);
    }
  }

  lemma StepPcOk(cfg: Config, s: State, c: Call)
    requires Safe(cfg, s) && c in s.calls && Stepping(s.calls[c]) && !s.calls[c].Failing?
    ensures var t := Advance(cfg, s, c);
      && PcOk(cfg, t, t.calls[c]) && !t.calls[c].Running? && t.err == s.err
      && t.calls == s.calls[c := t.calls[c]] && (t.dst == s.dst || (t.dst.Some? && IsProduct(t, t.dst.value)))
  {
    var t := Advance(cfg, s, c);
    assert PcOk(cfg, s, s.calls[c]);
    assert RunsKept(s, t);
    hide IsError;
    if s.calls[c].Releasing? {
      ResultStays(cfg, s, t, s.calls[c].result);
    } else if StoredError(cfg, s).Some? {
      ErrorStays(cfg, s, t, s.err.value.text);
    }
  }

  lemma RunningIsGoing(cfg: Config, s: State)
    requires Safe(cfg, s)
    ensures forall d :: d in s.calls && s.calls[d].Running? ==> s.calls[d].run < |s.runs| && s.runs[s.calls[d].run] == Going
  {
    forall d | d in s.calls && s.calls[d].Running?
      ensures s.calls[d].run < |s.runs| && s.runs[s.calls[d].run] == Going
    {
      assert PcOk(cfg, s, s.calls[d]);
    }
  }

  lemma EndIsSafe(cfg: Config, s: State, c: Call, x: RunState, pc: Pc, t: State)
    requires Safe(cfg, s) && c in s.calls && s.calls[c].Running? && s.calls[c].run < |s.runs| && x != Going
    requires t == At(WithRun(s, s.calls[c].run, x), c, pc) && PcOk(cfg, t, pc) && !pc.Running?
    ensures Safe(cfg, t)
  {
    RunningIsGoing(cfg, s);
    assert OwnRuns(s);
    hide PcOk;
    SafeAfter(cfg, s, t, c);
  }

  lemma StartIsSafe(cfg: Config, s: State, c: Call)
    requires Safe(cfg, s) && c in s.calls
    ensures Safe(cfg, At(s.(runs := s.runs + [Going]), c, Running(|s.runs|)))
  {
    var t := At(s.(runs := s.runs + [Going]), c, Running(|s.runs|));
    RunningIsGoing(cfg, s);
    assert PcOk(cfg, t, t.calls[c]);
    hide PcOk;
    SafeAfter(cfg, s, t, c);
  }

  lemma PlaceIsSafe(cfg: Config, s: State, t: State, c: Call, pc: Pc)
    requires Safe(cfg, s) && t.runs == s.runs && t.calls == s.calls[c := pc] && t.dst == s.dst && t.err == s.err
    requires pc.Hit1? || pc.Hit2? || pc.Crashed?
    ensures Safe(cfg, t)
  {
    RunningIsGoing(cfg, s);
    assert PcOk(cfg, t, t.calls[c]);
    hide PcOk;
    SafeAfter(cfg, s, t, c);
  }

  lemma ActionIsSafe(cfg: Config, s: State, a: Action)
    requires Safe(cfg, s) && Enabled(s, a)
    ensures Safe(cfg, Apply(cfg, s, a))
  {
    var t := Apply(cfg, s, a);
    RunningIsGoing(cfg, s);
    hide Safe, Advance;
    match a
    case Step(c) => StepIsSafe(cfg, s, c);
    case EndRun(c, rc, log, made) =>
      var x := if rc == 0 && made then Succeeded else Failed(rc, log);
      assert t.runs[s.calls[c].run] == x;
      EndIsSafe(cfg, s, c, x, t.calls[c], t);
    case RaiseRun(c) => EndIsSafe(cfg, s, c, Failed(-1, ""), Releasing(Raised), t);
    case StartRun(c) => StartIsSafe(cfg, s, c);
    case Begin(c) => PlaceIsSafe(cfg, s, t, c, Hit1);
    case TakeLock(c) => PlaceIsSafe(cfg, s, t, c, Hit2);
    case TimeOut(c) => PlaceIsSafe(cfg, s, t, c, Hit2);
    case Crash(c) => PlaceIsSafe(cfg, s, t, c, Crashed);
    case Evict => NothingMoved(cfg, s, t);
    case EvictError => NothingMoved(cfg, s, t);
    case Tick(_) => NothingMoved(cfg, s, t);
  }

  lemma NothingMoved(cfg: Config, s: State, t: State)
    requires Safe(cfg, s) && t.calls == s.calls && t.runs == s.runs
    requires t.dst == s.dst || t.dst.None?
    requires t.err == s.err || t.err.None?
    ensures Safe(cfg, t)
  {
    hide PcOk;
    assert RunsKept(s, t);
    RunningIsGoing(cfg, s);
    forall d | d in t.calls
      ensures PcOk(cfg, t, t.calls[d])
    {
      assert PcOk(cfg, s, s.calls[d]);
      OkStays(cfg, s, t, s.calls[d]);
    }
    if t.err.Some? {
      ErrorStays(cfg, s, t, t.err.value.text);
    }
  }

  lemma {:induction false} AlwaysSafe(cfg: Config, actions: seq<Action>, s: State)
    requires Reaches(cfg, actions, s)
    ensures Safe(cfg, s)
    decreases |actions|
  {
    if actions != [] {
      var before :| LastStep(cfg, actions, before, s);
      AlwaysSafe(cfg, actions[..|actions| - 1], before);
      ActionIsSafe(cfg, before, actions[|actions| - 1]);
    }
  }

  /** Whatever the interleaving, time-outs, evictions and crashes included: a call that returns 0
      has a whole product of a successful run at `out`, a stored error that a call returns comes
      from a deterministic failure, and a call whose own run failed does not return 0. */
  lemma EveryReturnIsSound(cfg: Config, actions: seq<Action>, s: State, c: Call)
    requires Reaches(cfg, actions, s) && c in s.calls && s.calls[c].Done?
    ensures ResultOk(cfg, s, s.calls[c].result)
  {
    AlwaysSafe(cfg, actions, s);
    assert PcOk(cfg, s, s.calls[c]);
  }

  // ---------------------------------------------------------------- without time-outs, evictions and crashes

  predicate Calm(a: Action) { !a.TimeOut? && !a.Evict? && !a.Crash? }

  predicate Inside(pc: Pc) {
    pc.Hit2? || pc.Link2? || pc.Neg2? || pc.Ready? || pc.Running? || pc.Built? || pc.Published? || pc.Failing? || pc.Releasing?
  }

  /** Between the recheck and the end of the run. */
  predicate Deciding(pc: Pc) { pc.Neg2? || pc.Ready? || pc.Running? }

  ghost predicate Won(s: State, r: Run) { r < |s.runs| && s.runs[r] == Succeeded }

  ghost predicate OneWinner(s: State) {
    && (forall c :: c in s.calls && Inside(s.calls[c]) ==> s.lock == Some(c))
    && (forall q, r :: Won(s, q) && Won(s, r) ==> q == r)
    && (forall c, r :: c in s.calls && Deciding(s.calls[c]) ==> !Won(s, r))
    && (forall r :: Won(s, r) ==> s.dst.Some? || AboutToPublish(s))
  }

  ghost predicate AboutToPublish(s: State) {
    exists c :: c in s.calls && s.calls[c].Built?
  }

  lemma WinnersSame(s: State, t: State)
    requires t.runs == s.runs
    ensures forall r :: Won(t, r) <==> Won(s, r)
  {
  }

  /** The recheck finds no product, so no run has succeeded: whoever is about to publish would hold
      the lock. */
  lemma NobodyWonYet(s: State, c: Call)
    requires OneWinner(s) && c in s.calls && Inside(s.calls[c]) && !s.calls[c].Built? && s.dst.None?
    ensures forall r :: !Won(s, r)
  {
    if AboutToPublish(s) {
      var d :| d in s.calls && s.calls[d].Built?;
      assert Inside(s.calls[d]);
    }
  }

  lemma StepKeepsWinner(cfg: Config, s: State, c: Call)
    requires Safe(cfg, s) && OneWinner(s) && c in s.calls && Stepping(s.calls[c])
    ensures OneWinner(Advance(cfg, s, c))
  {
    var t := Advance(cfg, s, c);
    WinnersSame(s, t);
    if s.calls[c].Hit2? && s.dst.None? {
      NobodyWonYet(s, c);
    }
    StepShape(cfg, s, c);
    hide Advance, Safe;
    forall d, r | d in t.calls && Deciding(t.calls[d])
      ensures !Won(t, r)
    {
      if d == c && s.calls[c].Neg2? {
        assert Deciding(s.calls[c]);
      }
    }
    forall r | Won(t, r)
      ensures t.dst.Some? || AboutToPublish(t)
    {
      if t.dst.None? {
        var d :| d in s.calls && s.calls[d].Built?;
        assert d in t.calls && t.calls[d].Built?;
      }
    }
  }

  lemma StepShape(cfg: Config, s: State, c: Call)
    requires c in s.calls && Stepping(s.calls[c])
    ensures var t := Advance(cfg, s, c);
      && t.runs == s.runs && c in t.calls && t.calls == s.calls[c := t.calls[c]]
      && (t.dst == s.dst || (t.dst.Some? && s.calls[c].Built?)) && (s.calls[c].Built? ==> t.dst.Some?)
      && (Deciding(t.calls[c]) ==> s.calls[c].Neg2? || (s.calls[c].Hit2? && s.dst.None?))
      && (Inside(t.calls[c]) ==> Inside(s.calls[c]) && t.lock == s.lock)
      && (t.lock == s.lock || (s.lock == Some(c) && !Inside(t.calls[c])))
  {
  }

  lemma ActionKeepsWinner(cfg: Config, s: State, a: Action)
    requires Safe(cfg, s) && OneWinner(s) && Enabled(s, a) && Calm(a)
    ensures OneWinner(Apply(cfg, s, a))
  {
    var t := Apply(cfg, s, a);
    match a
    case Step(c) => StepKeepsWinner(cfg, s, c);
    case EndRun(c, rc, log, made) =>
      RunningIsGoing(cfg, s);
      EndKeepsWinner(cfg, s, c, if rc == 0 && made then Succeeded else Failed(rc, log), t);
    case RaiseRun(c) =>
      RunningIsGoing(cfg, s);
      EndKeepsWinner(cfg, s, c, Failed(-1, ""), t);
    case StartRun(c) => StartKeepsWinner(s, c, t);
    case Begin(c) => OthersKeep(s, t, c);
    case TakeLock(c) => OthersKeep(s, t, c);
    case EvictError => WinnersSame(s, t);
    case Tick(_) => WinnersSame(s, t);
  }

  lemma EndKeepsWinner(cfg: Config, s: State, c: Call, x: RunState, t: State)
    requires OneWinner(s) && c in s.calls && s.calls[c].Running? && s.calls[c].run < |s.runs|
    requires t.runs == s.runs[s.calls[c].run := x] && t.dst == s.dst && t.lock == s.lock
    requires c in t.calls && t.calls == s.calls[c := t.calls[c]] && Inside(t.calls[c]) && !Deciding(t.calls[c])
    requires x == Succeeded ==> t.calls[c].Built?
    ensures OneWinner(t)
  {
    var r := s.calls[c].run;
    assert Deciding(s.calls[c]) && Inside(s.calls[c]);
    forall q | Won(t, q)
      ensures q == r && x == Succeeded
    {
      assert !Won(s, q);
    }
    OthersOutside(s, c);
  }

  lemma StartKeepsWinner(s: State, c: Call, t: State)
    requires OneWinner(s) && c in s.calls && s.calls[c] == Ready
    requires t == At(s.(runs := s.runs + [Going]), c, Running(|s.runs|))
    ensures OneWinner(t)
  {
    assert Deciding(s.calls[c]) && Inside(s.calls[c]);
    forall q
      ensures !Won(t, q)
    {
      assert !Won(s, q);
    }
  }

  lemma OthersOutside(s: State, c: Call)
    requires OneWinner(s) && c in s.calls && Inside(s.calls[c])
    ensures forall d :: d in s.calls && d != c ==> !Inside(s.calls[d])
  {
  }

  lemma OthersKeep(s: State, t: State, c: Call)
    requires OneWinner(s) && t.runs == s.runs && t.dst == s.dst && c in t.calls && t.calls == s.calls[c := t.calls[c]]
    requires !Deciding(t.calls[c]) && (c in s.calls ==> !s.calls[c].Built?)
    requires (t.lock == s.lock && !Inside(t.calls[c])) || (s.lock.None? && t.lock == Some(c))
    ensures OneWinner(t)
  {
    assert forall r :: Won(t, r) <==> Won(s, r);
    forall r | Won(t, r)
      ensures t.dst.Some? || AboutToPublish(t)
    {
      if s.dst.None? {
        var d :| d in s.calls && s.calls[d].Built?;
        assert d in t.calls && t.calls[d].Built?;
      }
    }
  }

  lemma {:induction false} AlwaysOneWinner(cfg: Config, actions: seq<Action>, s: State)
    requires Reaches(cfg, actions, s) && forall i :: 0 <= i < |actions| ==> Calm(actions[i])
    ensures OneWinner(s)
    decreases |actions|
  {
    if actions != [] {
      var before :| LastStep(cfg, actions, before, s);
      AlwaysSafe(cfg, actions[..|actions| - 1], before);
      AlwaysOneWinner(cfg, actions[..|actions| - 1], before);
      ActionKeepsWinner(cfg, before, actions[|actions| - 1]);
    }
  }

  /** Without time-outs, evictions and crashes at most one run for the key ever succeeds, no two
      calls are inside the lock at once, and all calls that return 0 have the same product. */
  lemma AtMostOneRunSucceeds(cfg: Config, actions: seq<Action>, s: State, q: Run, r: Run, c: Call, d: Call)
    requires Reaches(cfg, actions, s) && forall i :: 0 <= i < |actions| ==> Calm(actions[i])
    ensures q < |s.runs| && r < |s.runs| && s.runs[q] == Succeeded && s.runs[r] == Succeeded ==> q == r
    ensures c in s.calls && d in s.calls && Inside(s.calls[c]) && Inside(s.calls[d]) ==> c == d
    ensures c in s.calls && d in s.calls && s.calls[c].Done? && s.calls[d].Done? && s.calls[c].result.Success? && s.calls[d].result.Success?
        ==> s.calls[c].result == s.calls[d].result
  {
    AlwaysSafe(cfg, actions, s);
    AlwaysOneWinner(cfg, actions, s);
    assert Won(s, q) && Won(s, r) ==> q == r;
    if c in s.calls && d in s.calls && s.calls[c].Done? && s.calls[d].Done? && s.calls[c].result.Success? && s.calls[d].result.Success? {
      assert PcOk(cfg, s, s.calls[c]) && PcOk(cfg, s, s.calls[d]);
      assert Won(s, s.calls[c].result.file.run) && Won(s, s.calls[d].result.file.run);
    }
  }

  // ---------------------------------------------------------------- hits

  /** A product in the cache is handed out by the next two steps of a call, before the lock or inside it,
      unless it is evicted between them. */
  lemma HitReturnsProduct(cfg: Config, s: State, c: Call)
    requires c in s.calls && s.dst.Some? && (s.calls[c].Hit1? || s.calls[c].Hit2?)
    ensures Enabled(s, Step(c)) && Enabled(Apply(cfg, s, Step(c)), Step(c))
    ensures var t := Apply(cfg, Apply(cfg, s, Step(c)), Step(c));
      t.dst == s.dst && t.runs == s.runs && t.calls[c] == if s.calls[c].Hit1? then Done(Success(s.dst.value)) else Releasing(Success(s.dst.value))
  {
  }

  /** A stored error that a call returns is no older than the time to live, which is positive. */
  lemma NegHitIsFresh(cfg: Config, s: State, c: Call, text: string)
    requires c in s.calls && Stepping(s.calls[c]) && !s.calls[c].Releasing?
    requires Apply(cfg, s, Step(c)).calls[c] in {Done(NegHit(text)), Releasing(NegHit(text))}
    ensures s.err.Some? && text == s.err.value.text && 0.0 < cfg.ttl && s.now - s.err.value.time <= cfg.ttl
  {
  }

  /** Errors are dated when they are stored, and the clock does not run backwards. */
  lemma {:induction false} ErrorsAreDated(cfg: Config, actions: seq<Action>, s: State)
    requires Reaches(cfg, actions, s)
    ensures s.err.Some? ==> s.err.value.time <= s.now
  {
    if actions != [] {
      var before :| LastStep(cfg, actions, before, s);
      ErrorsAreDated(cfg, actions[..|actions| - 1], before);
    }
  }

  /** A deterministic failure is remembered when errors are kept at all. */
  lemma FailureIsStored(cfg: Config, s: State, c: Call)
    requires c in s.calls && s.calls[c].Failing? && cfg.ttl > 0.0
    ensures var t := Apply(cfg, s, Step(c)); var rc, log := s.calls[c].rc, s.calls[c].log;
      t.err == if 0 < rc < 128 && !cfg.infra(log) then Some(Neg(cfg.tail(log), s.now)) else s.err
  {
  }

  lemma OneMore(cfg: Config, actions: seq<Action>, s: State, a: Action) returns (t: State)
    requires Reaches(cfg, actions, s) && Enabled(s, a)
    ensures Reaches(cfg, actions + [a], t) && t == Apply(cfg, s, a)
  {
    t := Apply(cfg, s, a);
    assert (actions + [a])[..|actions|] == actions;
    assert LastStep(cfg, actions + [a], s, t);
  }

  /** Alone with the key, a call finds nothing, takes the lock and finds nothing again. */
  lemma FindsNothing(cfg: Config, c: Call) returns (actions: seq<Action>, s: State)
    ensures Reaches(cfg, actions, s) && s == State(None, None, Some(c), 0.0, map[c := Ready], [])
  {
    actions, s := [], Initial();
    NothingDone(cfg);
    hide Reaches;
    s := OneMore(cfg, actions, s, Begin(c)); actions := actions + [Begin(c)];
    assert s.calls == map[c := Hit1];
    s := OneMore(cfg, actions, s, Step(c)); actions := actions + [Step(c)];
    assert s.calls == map[c := Neg1];
    s := OneMore(cfg, actions, s, Step(c)); actions := actions + [Step(c)];
    assert s.calls == map[c := Lock];
    s := OneMore(cfg, actions, s, TakeLock(c)); actions := actions + [TakeLock(c)];
    assert s.calls == map[c := Hit2];
    s := OneMore(cfg, actions, s, Step(c)); actions := actions + [Step(c)];
    assert s.calls == map[c := Neg2];
    s := OneMore(cfg, actions, s, Step(c)); actions := actions + [Step(c)];
    assert s.calls == map[c := Ready];
  }

  /** It then builds and publishes the product. */
  lemma BuildsAlone(cfg: Config, c: Call) returns (actions: seq<Action>, s: State)
    ensures Reaches(cfg, actions, s) && s == State(Some(Whole(0)), None, None, 0.0, map[c := Done(Success(Whole(0)))], [Succeeded])
  {
    actions, s := FindsNothing(cfg, c);
    hide Reaches;
    s := OneMore(cfg, actions, s, StartRun(c)); actions := actions + [StartRun(c)];
    assert s.calls == map[c := Running(0)] && s.runs == [Going];
    s := OneMore(cfg, actions, s, EndRun(c, 0, "", true)); actions := actions + [EndRun(c, 0, "", true)];
    assert s.calls == map[c := Built(0)] && s.runs == [Succeeded];
    s := OneMore(cfg, actions, s, Step(c)); actions := actions + [Step(c)];
    assert s.calls == map[c := Published(0)] && s.dst == Some(Whole(0));
    s := OneMore(cfg, actions, s, Step(c)); actions := actions + [Step(c)];
    assert s.calls == map[c := Releasing(Success(Whole(0)))];
    s := OneMore(cfg, actions, s, Step(c)); actions := actions + [Step(c)];
    assert s.calls == map[c := Done(Success(Whole(0)))];
  }

  /** A call that finds nothing builds the product, and a later call is given it without a run of its own. */
  lemma MissThenHit(cfg: Config, c: Call, d: Call) returns (actions: seq<Action>, s: State)
    requires c != d
    ensures Reaches(cfg, actions, s) && |s.runs| == 1 && c in s.calls && d in s.calls
    ensures s.calls[c] == Done(Success(Whole(0))) && s.calls[d] == Done(Success(Whole(0))) && s.lock.None?
  {
    actions, s := BuildsAlone(cfg, c);
    hide Reaches;
    s := OneMore(cfg, actions, s, Begin(d)); actions := actions + [Begin(d)];
    s := OneMore(cfg, actions, s, Step(d)); actions := actions + [Step(d)];
    s := OneMore(cfg, actions, s, Step(d)); actions := actions + [Step(d)];
  }

  lemma NothingDone(cfg: Config)
    ensures Reaches(cfg, [], Initial())
  {
  }
}
