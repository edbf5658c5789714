/** The experiment runner: the constructor's validation, the periodic save, Q-dump and
    Q-swap predicates, and the bookkeeping of `run`, which steps an environment through a
    number of runs and keeps per-run lists in lock-step. The environment is outside the
    model: what it answers at each step of each run is given as a trace. */
module Experiments {
  import opened Wrappers
  import PyText

  /** What the runner reads from the environment outside the steps: the network's name, the
      simulation step, the `cycle_time` attribute (`None` when the environment has none), the
      emission path and whether the environment can `dump`. */
  datatype Env = Env(name: string, simStep: real, cycleTime: Option<real>, emissionPath: Option<string>, canDump: bool)

  /** An experiment: its environment, training or validation mode, the directory Q tables
      are dumped to, the policies swapped in during validation, the cycle time and the number
      of simulation steps per cycle. */
  datatype Experiment<P> = Experiment(
    env: Env, train: bool, dirPath: string, policies: Option<seq<P>>, cycle: Option<real>, saveStep: real)

  /** Why constructing or running an experiment raises: validation without policies, a zero
      simulation step, a csv conversion without an emission path, the save-step test on an
      environment without a cycle time (it reads a `step_counter` the experiment lacks), a
      zero Q interval, `len(None)` on a missing policy list, or the csv conversion after the
      runs, whose emission file path reads an attribute the simulation parameters lack. */
  datatype ExperimentError =
    | PoliciesRequired
    | ZeroSimStep
    | NoEmissionPath
    | NoStepCounter
    | ZeroQInterval
    | NoPolicyList
    | NoSuchAttribute

  /** The cycle time, or 1 when the environment has none. */
  function CycleOrOne(env: Env): real
  {
    if env.cycleTime.Some? then env.cycleTime.value else 1.0
  }

  /** `Experiment(env, dir_path, train, policies)`: validation mode needs policies, and the
      save step is the cycle time (default 1) over the simulation step. */
  function New<P>(env: Env, dirPath: string, train: bool, policies: Option<seq<P>>): (r: Result<Experiment<P>, ExperimentError>)
    ensures r == Failure(PoliciesRequired) <==> !train && policies.None?
    ensures r == Failure(ZeroSimStep) <==> (train || policies.Some?) && env.simStep == 0.0
    ensures r.Success? ==>
              && r.value.saveStep * env.simStep == CycleOrOne(env)
              && r.value.cycle == env.cycleTime
              && r.value.env == env && r.value.train == train && r.value.dirPath == dirPath
              && r.value.policies == policies
              && (r.value.train || r.value.policies.Some?)
  {
    if !train && policies.None? then Failure(PoliciesRequired)
    else if env.simStep == 0.0 then Failure(ZeroSimStep)
    else Success(Experiment(env, train, dirPath, policies, env.cycleTime, CycleOrOne(env) / env.simStep))
  }

  /** An experiment as the constructor leaves it: in validation mode it holds policies. */
  predicate Valid<P>(exp: Experiment<P>)
  {
    exp.train || exp.policies.Some?
  }

  /** `_is_save_step`: with a cycle time, whether the environment's cycle `duration` has
      just wrapped to zero; without one the method reads a `step_counter` the experiment does
      not have. */
  function IsSaveStep<P>(exp: Experiment<P>, duration: real): (r: Result<bool, ExperimentError>)
    ensures r.Failure? <==> exp.cycle.None?
    ensures r == Success(true) <==> exp.cycle.Some? && duration == 0.0
  {
    if exp.cycle.Some? then Success(duration == 0.0) else Failure(NoStepCounter)
  }

  /** Python's `%` on floats: the remainder takes the sign of the divisor. */
  function PyMod(x: real, y: real): (r: real)
    requires y != 0.0
    ensures y > 0.0 ==> 0.0 <= r < y
    ensures y < 0.0 ==> y < r <= 0.0
    ensures r == 0.0 <==> (x / y).Floor as real == x / y
  {
    var q := (x / y).Floor as real;
    FloorBounds(x, y);
    x - y * q
  }

  /** The floor of a quotient brackets the dividend between two multiples of the divisor. */
  lemma FloorBounds(x: real, y: real)
    requires y != 0.0
    ensures var q := (x / y).Floor as real;
            && (y > 0.0 ==> q * y <= x < q * y + y)
            && (y < 0.0 ==> q * y + y < x <= q * y)
  {
    var d := x / y;
    var q := d.Floor as real;
    if y > 0.0 {
      Bracket(x, y, d, q);
    } else {
      assert d * (-y) == -x;
      Bracket(-x, -y, d, q);
      assert q * (-y) == -(q * y);
    }
  }

  /** A multiple `d` of a positive `y` lies between the multiples by `d`'s floor and the
      next integer. */
  lemma Bracket(x: real, y: real, d: real, q: real)
    requires y > 0.0 && d * y == x && q <= d < q + 1.0
    ensures q * y <= x < q * y + y
  {
    var a := d - q;
    assert a * y >= 0.0;
    assert a * y < y;
    calc {
      x - q * y;
      d * y - q * y;
      a * y;
    }
  }

  /** The test both Q hooks share: the environment's step counter is a multiple of 100
      save steps. */
  function AtQInterval<P>(exp: Experiment<P>, stepCounter: int): (r: Result<bool, ExperimentError>)
    ensures r.Failure? <==> exp.saveStep == 0.0
    ensures r.Failure? ==> r.error == ZeroQInterval
    ensures r == Success(true) <==>
              exp.saveStep != 0.0 && (stepCounter as real / (100.0 * exp.saveStep)).Floor as real == stepCounter as real / (100.0 * exp.saveStep)
  {
    if 100.0 * exp.saveStep == 0.0 then Failure(ZeroQInterval)
    else Success(PyMod(stepCounter as real, 100.0 * exp.saveStep) == 0.0)
  }

  /** `_is_save_q_table`: at the Q interval, in training mode, when the environment can
      dump and a directory is set. */
  function IsSaveQTable<P>(exp: Experiment<P>, stepCounter: int): (r: Result<bool, ExperimentError>)
    ensures r.Failure? <==> AtQInterval(exp, stepCounter).Failure?
    ensures r == Success(true) <==>
              AtQInterval(exp, stepCounter) == Success(true) && exp.train && exp.env.canDump && exp.dirPath != ""
  {
    match AtQInterval(exp, stepCounter)
    case Failure(e) => Failure(e)
    case Success(at) => Success(at && exp.train && exp.env.canDump && exp.dirPath != "")
  }

  /** `_is_swap_q_table`: at the Q interval, in validation mode. It never holds together
      with `_is_save_q_table`, which needs training mode. */
  function IsSwapQTable<P>(exp: Experiment<P>, stepCounter: int): (r: Result<bool, ExperimentError>)
    ensures r.Failure? <==> IsSaveQTable(exp, stepCounter).Failure?
    ensures r == Success(true) <==> AtQInterval(exp, stepCounter) == Success(true) && !exp.train
    ensures r == Success(true) ==> IsSaveQTable(exp, stepCounter) == Success(false)
  {
    match AtQInterval(exp, stepCounter)
    case Failure(e) => Failure(e)
    case Success(at) => Success(at && !exp.train)
  }

  /** What the environment answers to one `step` of one run, and what the runner then reads
      from it: the observation space, the reward, `done`, the vehicle count, the mean speed,
      the `rl_action` attribute, the cycle `duration` and the `step_counter`. */
  datatype StepResult<O, A> = StepResult(
    observation: O, reward: real, done: bool, vehicles: nat, speed: real, rlAction: A,
    duration: real, stepCounter: int)

  /** The floating-point helpers the runner applies to what it stores: `np.nanmean` over a
      buffer and rounding to four places. */
  datatype Numerics = Numerics(mean: seq<real> -> real, round: real -> real)

  /** A side effect on the environment: dumping its Q table to a file, or swapping in the
      policy of a run. */
  datatype Hook = Dump(dir: string, filename: string) | Swap(run: nat)

  /** The Q snapshot file name, `<network>.Q.<run + 1>-<n>.pickle`. */
  function DumpName(name: string, run: nat, n: int): (r: string)
    ensures |r| > |name| + 7 && r[..|name|] == name && r[|name|..|name| + 3] == ".Q." && r[|r| - 7..] == ".pickle"
  {
    name + ".Q." + PyText.IntToString(run + 1) + "-" + PyText.IntToString(n) + ".pickle"
  }

  /** `a-b` with `a` all digits splits back into `a` and `b` at its first `-`. */
  lemma SignlessSplit(a1: string, b1: string, a2: string, b2: string)
    requires PyText.AllDigits(a1) && PyText.AllDigits(a2)
    requires a1 + "-" + b1 == a2 + "-" + b2
    ensures a1 == a2 && b1 == b2
  {
    var m := a1 + "-" + b1;
    assert m[|a1|] == '-' && m[..|a1|] == a1;
    assert (a2 + "-" + b2)[|a2|] == '-' && (a2 + "-" + b2)[..|a2|] == a2;
    assert PyText.IndexOf(m, '-') == |a1| == |a2|;
    assert b1 == m[|a1| + 1..];
  }

  /** Between the `.Q.` and the `.pickle` of a snapshot name sit the run and snapshot
      numbers, joined by `-`. */
  lemma DumpNameMiddle(name: string, run: nat, n: int)
    ensures var s := DumpName(name, run, n);
            s[|name| + 3..|s| - 7] == PyText.IntToString(run + 1) + "-" + PyText.IntToString(n)
  {
    var m := PyText.IntToString(run + 1) + "-" + PyText.IntToString(n);
    assert DumpName(name, run, n) == (name + ".Q.") + m + ".pickle";
  }

  /** Distinct (run, snapshot) pairs of one network get distinct file names: the run number
      is written without a sign, so the first `-` after `.Q.` separates it from the snapshot
      number, and `int()` reads both back. */
  lemma DumpNameInjective(name: string, run1: nat, n1: int, run2: nat, n2: int)
    requires DumpName(name, run1, n1) == DumpName(name, run2, n2)
    ensures run1 == run2 && n1 == n2
  {
    DumpNameMiddle(name, run1, n1);
    DumpNameMiddle(name, run2, n2);
    SignlessSplit(PyText.IntToString(run1 + 1), PyText.IntToString(n1),
                  PyText.IntToString(run2 + 1), PyText.IntToString(n2));
    PyText.ParseIntRoundTrip(run1 + 1);
    PyText.ParseIntRoundTrip(run2 + 1);
    PyText.ParseIntRoundTrip(n1);
    PyText.ParseIntRoundTrip(n2);
  }

  /** The state of one run: the five per-run lists, the per-step buffers `veh_i` and
      `vel_i`, the hooks run so far, and whether the environment reported `done`. */
  datatype Episode<O, A> = Episode(
    observations: seq<O>, actions: seq<A>, rewards: seq<real>, vehicles: seq<real>, velocities: seq<real>,
    vehBuffer: seq<real>, velBuffer: seq<real>, hooks: seq<Hook>, done: bool)

  function Start<O, A>(): Episode<O, A>
  {
    Episode([], [], [], [], [], [], [], [], false)
  }

  /** The five per-run lists are appended together. */
  predicate LockStep<O, A>(s: Episode<O, A>)
  {
    && |s.actions| == |s.observations| && |s.rewards| == |s.observations|
    && |s.vehicles| == |s.observations| && |s.velocities| == |s.observations|
    && |s.vehBuffer| == |s.velBuffer|
  }

  /** The hooks a run may call: a dump in training mode into the experiment's directory, or
      a swap in validation mode to this run's policy, which exists. */
  predicate HookAllowed<P>(exp: Experiment<P>, run: nat, h: Hook)
  {
    match h
    case Dump(dir, _) => exp.train && dir == exp.dirPath
    case Swap(k) => !exp.train && k == run && exp.policies.Some? && k < |exp.policies.value|
  }

  /** One iteration of the step loop of run `run`, step `j`: buffer the vehicle count and
      speed; at a save step append to the five lists and empty the buffers; stop if done;
      otherwise dump the Q table or, failing that, swap in the run's policy when it has
      one. */
  function StepOnce<P, O, A>(exp: Experiment<P>, num: Numerics, run: nat, j: nat, s: Episode<O, A>, o: StepResult<O, A>)
    : (r: Result<Episode<O, A>, ExperimentError>)
    ensures r.Success? ==> r.value.done == (s.done || o.done)
    ensures Valid(exp) ==> r != Failure(NoPolicyList)
  {
    var vehBuf := s.vehBuffer + [o.vehicles as real];
    var velBuf := s.velBuffer + [o.speed];
    match IsSaveStep(exp, o.duration)
    case Failure(e) => Failure(e)
    case Success(save) =>
      var s1 :=
        if save then
          Episode(s.observations + [o.observation], s.actions + [o.rlAction], s.rewards + [num.round(o.reward)],
                  s.vehicles + [num.round(num.mean(vehBuf))], s.velocities + [num.round(num.mean(velBuf))],
                  [], [], s.hooks, s.done)
        else s.(vehBuffer := vehBuf, velBuffer := velBuf);
      if o.done then Success(s1.(done := true))
      else
        match IsSaveQTable(exp, o.stepCounter)
        case Failure(e) => Failure(e)
        case Success(dump) =>
          if dump then
            var n := PyText.Trunc(j as real / exp.saveStep) + 1;
            Success(s1.(hooks := s1.hooks + [Dump(exp.dirPath, DumpName(exp.env.name, run, n))]))
          else
            match IsSwapQTable(exp, o.stepCounter)
            case Failure(e) => Failure(e)
            case Success(swap) =>
              if !swap then Success(s1)
              else if exp.policies.None? then Failure(NoPolicyList)
              else if run < |exp.policies.value| then Success(s1.(hooks := s1.hooks + [Swap(run)]))
              else Success(s1)
  }

  /** At a save step the five lists each gain the step's entry (the vehicle and speed
      entries summarising the buffers) and the buffers are emptied. */
  lemma StepSaves<P, O, A>(exp: Experiment<P>, num: Numerics, run: nat, j: nat, s: Episode<O, A>, o: StepResult<O, A>)
    requires StepOnce(exp, num, run, j, s, o).Success? && IsSaveStep(exp, o.duration) == Success(true)
    ensures var r := StepOnce(exp, num, run, j, s, o).value;
            && r.vehBuffer == [] && r.velBuffer == []
            && r.observations == s.observations + [o.observation]
            && r.actions == s.actions + [o.rlAction]
            && r.rewards == s.rewards + [num.round(o.reward)]
            && r.vehicles == s.vehicles + [num.round(num.mean(s.vehBuffer + [o.vehicles as real]))]
            && r.velocities == s.velocities + [num.round(num.mean(s.velBuffer + [o.speed]))]
  {
  }

  /** At any other step the lists are unchanged and the buffers gain the step's vehicle
      count and mean speed. */
  lemma StepBuffers<P, O, A>(exp: Experiment<P>, num: Numerics, run: nat, j: nat, s: Episode<O, A>, o: StepResult<O, A>)
    requires StepOnce(exp, num, run, j, s, o).Success? && IsSaveStep(exp, o.duration) == Success(false)
    ensures var r := StepOnce(exp, num, run, j, s, o).value;
            && r.vehBuffer == s.vehBuffer + [o.vehicles as real]
            && r.velBuffer == s.velBuffer + [o.speed]
            && r.observations == s.observations && r.actions == s.actions && r.rewards == s.rewards
            && r.vehicles == s.vehicles && r.velocities == s.velocities
  {
  }

  /** A step keeps the lists in lock-step. */
  lemma StepLockStep<P, O, A>(exp: Experiment<P>, num: Numerics, run: nat, j: nat, s: Episode<O, A>, o: StepResult<O, A>)
    requires StepOnce(exp, num, run, j, s, o).Success? && LockStep(s)
    ensures LockStep(StepOnce(exp, num, run, j, s, o).value)
  {
    if IsSaveStep(exp, o.duration) == Success(true) {
      StepSaves(exp, num, run, j, s, o);
    } else {
      StepBuffers(exp, num, run, j, s, o);
    }
  }

  /** A step calls at most one hook, none when it returns `done`: the Q dump, named by the
      run and `int(j / save_step) + 1`, when the dump test holds, otherwise the swap to the
      run's policy when the swap test holds and the run has a policy. */
  lemma StepHooks<P, O, A>(exp: Experiment<P>, num: Numerics, run: nat, j: nat, s: Episode<O, A>, o: StepResult<O, A>)
    requires StepOnce(exp, num, run, j, s, o).Success?
    ensures var r := StepOnce(exp, num, run, j, s, o).value;
            && (o.done ==> r.hooks == s.hooks)
            && (!o.done && IsSaveQTable(exp, o.stepCounter) == Success(true) ==>
                  r.hooks == s.hooks + [Dump(exp.dirPath, DumpName(exp.env.name, run, PyText.Trunc(j as real / exp.saveStep) + 1))])
            && (!o.done && IsSwapQTable(exp, o.stepCounter) == Success(true) ==>
                  r.hooks == s.hooks + (if run < |exp.policies.value| then [Swap(run)] else []))
            && (IsSaveQTable(exp, o.stepCounter) != Success(true) && IsSwapQTable(exp, o.stepCounter) != Success(true) ==>
                  r.hooks == s.hooks)
  {
  }

  /** The state of run `run` after the first `n` iterations of its step loop; once the
      environment reports `done` the loop has broken and later iterations change nothing. */
  function Steps<P, O, A>(exp: Experiment<P>, num: Numerics, run: nat, n: nat, trace: (nat, nat) -> StepResult<O, A>)
    : Result<Episode<O, A>, ExperimentError>
  {
    if n == 0 then Success(Start())
    else
      match Steps(exp, num, run, n - 1, trace)
      case Failure(e) => Failure(e)
      case Success(s) => if s.done then Success(s) else StepOnce(exp, num, run, n - 1, s, trace(run, n - 1))
  }

  /** Within a run the five lists stay the same length, each at most one entry per step,
      the buffers hold at most the steps since the last save, every hook is one the mode
      allows and there is at most one per step. */
  lemma {:induction false} StepsShape<P, O, A>(exp: Experiment<P>, num: Numerics, run: nat, n: nat, trace: (nat, nat) -> StepResult<O, A>)
    requires Steps(exp, num, run, n, trace).Success?
    ensures var s := Steps(exp, num, run, n, trace).value;
            && LockStep(s) && |s.observations| + |s.vehBuffer| <= n
            && |s.hooks| <= n && forall h | h in s.hooks :: HookAllowed(exp, run, h)
  {
    if n > 0 {
      StepsShape(exp, num, run, n - 1, trace);
      var s := Steps(exp, num, run, n - 1, trace).value;
      if !s.done {
        var o := trace(run, n - 1);
        StepLockStep(exp, num, run, n - 1, s, o);
        StepHooks(exp, num, run, n - 1, s, o);
        if IsSaveStep(exp, o.duration) == Success(true) {
          StepSaves(exp, num, run, n - 1, s, o);
        } else {
          StepBuffers(exp, num, run, n - 1, s, o);
        }
      }
    }
  }

  /** `done` stops the run: the state reports it exactly when some step so far returned
      `done`. */
  lemma {:induction false} StepsDone<P, O, A>(exp: Experiment<P>, num: Numerics, run: nat, n: nat, trace: (nat, nat) -> StepResult<O, A>)
    requires Steps(exp, num, run, n, trace).Success?
    ensures Steps(exp, num, run, n, trace).value.done <==> exists j | 0 <= j < n :: trace(run, j).done
  {
    if n > 0 {
      StepsDone(exp, num, run, n - 1, trace);
    }
  }

  /** At most `num_steps` steps run, stopping early on `done`: after a step that returns
      `done`, further iterations change nothing. */
  lemma {:induction false} StopsAtDone<P, O, A>(exp: Experiment<P>, num: Numerics, run: nat, j: nat, n: nat, trace: (nat, nat) -> StepResult<O, A>)
    requires j < n && trace(run, j).done
    requires Steps(exp, num, run, j + 1, trace).Success?
    ensures Steps(exp, num, run, n, trace) == Steps(exp, num, run, j + 1, trace)
  {
    StepsDone(exp, num, run, j + 1, trace);
    if n > j + 1 {
      StopsAtDone(exp, num, run, j, n - 1, trace);
    }
  }

  /** A step that returns `done` breaks before the Q hooks: it adds no hook. */
  lemma NoHookOnDone<P, O, A>(exp: Experiment<P>, num: Numerics, run: nat, j: nat, trace: (nat, nat) -> StepResult<O, A>)
    requires trace(run, j).done
    requires Steps(exp, num, run, j, trace).Success? && Steps(exp, num, run, j + 1, trace).Success?
    ensures Steps(exp, num, run, j + 1, trace).value.hooks == Steps(exp, num, run, j, trace).value.hooks
  {
  }

  /** A constructed experiment never reaches `len(None)`: validation mode holds policies. */
  lemma {:induction false} StepsHavePolicies<P, O, A>(exp: Experiment<P>, num: Numerics, run: nat, n: nat, trace: (nat, nat) -> StepResult<O, A>)
    requires Valid(exp)
    ensures Steps(exp, num, run, n, trace) != Failure(NoPolicyList)
  {
    if n > 0 {
      StepsHavePolicies(exp, num, run, n - 1, trace);
    }
  }

  /** What `run` returns: the network's name, the cycle time, the save step and the five
      outer lists, one entry per run. */
  datatype Info<O, A> = Info(
    id: string, cycle: Option<real>, saveStep: real,
    rewards: seq<seq<real>>, velocities: seq<seq<real>>, vehicles: seq<seq<real>>,
    observationSpaces: seq<seq<O>>, rlActions: seq<seq<A>>)

  /** The result of `run` together with the hooks it called on the environment, in order. */
  datatype Outcome<O, A> = Outcome(info: Info<O, A>, hooks: seq<Hook>)

  /** The outcome after the first `k` runs of `numSteps` steps each. */
  function Runs<P, O, A>(exp: Experiment<P>, num: Numerics, k: nat, numSteps: nat, trace: (nat, nat) -> StepResult<O, A>)
    : Result<Outcome<O, A>, ExperimentError>
  {
    if k == 0 then Success(Outcome(Info(exp.env.name, exp.cycle, exp.saveStep, [], [], [], [], []), []))
    else
      match Runs(exp, num, k - 1, numSteps, trace)
      case Failure(e) => Failure(e)
      case Success(out) =>
        match Steps(exp, num, k - 1, numSteps, trace)
        case Failure(e) => Failure(e)
        case Success(s) =>
          var info := out.info;
          Success(Outcome(
            info.(rewards := info.rewards + [s.rewards], velocities := info.velocities + [s.velocities],
                  vehicles := info.vehicles + [s.vehicles], observationSpaces := info.observationSpaces + [s.observations],
                  rlActions := info.rlActions + [s.actions]),
            out.hooks + s.hooks))
  }

  /** `range(n)` for an integer argument: no iterations when `n` is negative. */
  function Count(n: int): (r: nat)
    ensures n >= 0 ==> r == n
    ensures n < 0 ==> r == 0
  {
    if n < 0 then 0 else n
  }

  /** Whether the end of `run` goes on to convert the emission file: a csv conversion was
      asked for and the emission path is a non-empty (truthy) string. */
  predicate ConvertsEmission(env: Env, convertToCsv: bool)
  {
    convertToCsv && env.emissionPath.Some? && env.emissionPath.value != ""
  }

  /** `run(num_runs, num_steps, convert_to_csv=...)`: refuses a csv conversion without an
      emission path before any step, then runs; a run that completes and then converts the
      emission file raises while building that file's path. */
  function RunSpec<P, O, A>(exp: Experiment<P>, num: Numerics, numRuns: int, numSteps: int, convertToCsv: bool,
                            trace: (nat, nat) -> StepResult<O, A>): (r: Result<Outcome<O, A>, ExperimentError>)
    ensures convertToCsv && exp.env.emissionPath.None? ==> r == Failure(NoEmissionPath)
    ensures r.Success? ==> !convertToCsv || exp.env.emissionPath == Some("")
    ensures r.Success? ==> r == Runs(exp, num, Count(numRuns), Count(numSteps), trace)
    ensures ConvertsEmission(exp.env, convertToCsv) && Runs(exp, num, Count(numRuns), Count(numSteps), trace).Success?
            ==> r == Failure(NoSuchAttribute)
  {
    if convertToCsv && exp.env.emissionPath.None? then Failure(NoEmissionPath)
    else
      match Runs(exp, num, Count(numRuns), Count(numSteps), trace)
      case Failure(e) => Failure(e)
      case Success(out) => if ConvertsEmission(exp.env, convertToCsv) then Failure(NoSuchAttribute) else Success(out)
  }

  /** After `k` runs each outer list has `k` entries, entry `i` holding run `i`'s lists, and
      the outcome names the network, the cycle and the save step. */
  lemma {:induction false} RunsShape<P, O, A>(exp: Experiment<P>, num: Numerics, k: nat, numSteps: nat, trace: (nat, nat) -> StepResult<O, A>)
    requires Runs(exp, num, k, numSteps, trace).Success?
    ensures var info := Runs(exp, num, k, numSteps, trace).value.info;
            && info.id == exp.env.name && info.cycle == exp.cycle && info.saveStep == exp.saveStep
            && |info.rewards| == k && |info.velocities| == k && |info.vehicles| == k
            && |info.observationSpaces| == k && |info.rlActions| == k
            && forall i | 0 <= i < k ::
                 && Steps(exp, num, i, numSteps, trace).Success?
                 && var s := Steps(exp, num, i, numSteps, trace).value;
                 && info.rewards[i] == s.rewards && info.velocities[i] == s.velocities
                 && info.vehicles[i] == s.vehicles && info.observationSpaces[i] == s.observations
                 && info.rlActions[i] == s.actions
  {
    if k > 0 {
      RunsShape(exp, num, k - 1, numSteps, trace);
    }
  }

  /** One more run appends its lists to the outer lists and its hooks to the hooks, or
      fails with its error. */
  lemma RunsSnoc<P, O, A>(exp: Experiment<P>, num: Numerics, k: nat, numSteps: nat, trace: (nat, nat) -> StepResult<O, A>)
    requires Runs(exp, num, k, numSteps, trace).Success?
    ensures var out := Runs(exp, num, k, numSteps, trace).value;
            var info := out.info;
            Runs(exp, num, k + 1, numSteps, trace)
            == match Steps(exp, num, k, numSteps, trace)
               case Failure(e) => Failure(e)
               case Success(s) =>
                 Success(Outcome(
                   info.(rewards := info.rewards + [s.rewards], velocities := info.velocities + [s.velocities],
                         vehicles := info.vehicles + [s.vehicles], observationSpaces := info.observationSpaces + [s.observations],
                         rlActions := info.rlActions + [s.actions]),
                   out.hooks + s.hooks))
  {
  }

  /** Without a cycle time the save-step test raises at the first step of the first run. */
  lemma NoCycleFails<P, O, A>(exp: Experiment<P>, num: Numerics, numRuns: int, numSteps: int, convertToCsv: bool,
                              trace: (nat, nat) -> StepResult<O, A>)
    requires exp.cycle.None? && numRuns > 0 && numSteps > 0
    requires !(convertToCsv && exp.env.emissionPath.None?)
    ensures RunSpec(exp, num, numRuns, numSteps, convertToCsv, trace) == Failure(NoStepCounter)
  {
    assert Steps(exp, num, 0, 1, trace) == Failure(NoStepCounter);
    StepsFailSticks(exp, num, 0, 1, numSteps, trace);
    RunsFailSticks(exp, num, 1, numRuns, numSteps, trace);
  }

  /** A failed iteration stops the run with that error. */
  lemma {:induction false} StepsFailSticks<P, O, A>(exp: Experiment<P>, num: Numerics, run: nat, m: nat, n: nat,
                                                    trace: (nat, nat) -> StepResult<O, A>)
    requires m <= n && Steps(exp, num, run, m, trace).Failure?
    ensures Steps(exp, num, run, n, trace) == Steps(exp, num, run, m, trace)
  {
    if n > m {
      StepsFailSticks(exp, num, run, m, n - 1, trace);
    }
  }

  /** A failed run stops the experiment with that error. */
  lemma {:induction false} RunsFailSticks<P, O, A>(exp: Experiment<P>, num: Numerics, m: nat, k: nat, numSteps: nat,
                                                   trace: (nat, nat) -> StepResult<O, A>)
    requires m <= k && Runs(exp, num, m, numSteps, trace).Failure?
    ensures Runs(exp, num, k, numSteps, trace) == Runs(exp, num, m, numSteps, trace)
  {
    if k > m {
      RunsFailSticks(exp, num, m, k - 1, numSteps, trace);
    }
  }

  /** The body of the step loop of run `run` at step `j`, on the loop's lists and buffers
      `s` and the environment's answer `o`. */
  method TakeStep<P, O, A>(exp: Experiment<P>, num: Numerics, run: nat, j: nat, s: Episode<O, A>, o: StepResult<O, A>)
    returns (r: Result<Episode<O, A>, ExperimentError>)
    ensures r == StepOnce(exp, num, run, j, s, o)
  {
    var obsList, actList, rewList, vehList, velList := s.observations, s.actions, s.rewards, s.vehicles, s.velocities;
    var vehI := s.vehBuffer + [o.vehicles as real];
    var velI := s.velBuffer + [o.speed];
    var hooks := s.hooks;
    var save := IsSaveStep(exp, o.duration);
    if save.Failure? {
      return Failure(save.error);
    }
    if save.value {
      obsList := obsList + [o.observation];
      actList := actList + [o.rlAction];
      rewList := rewList + [num.round(o.reward)];
      vehList := vehList + [num.round(num.mean(vehI))];
      velList := velList + [num.round(num.mean(velI))];
      vehI := [];
      velI := [];
    }
    if o.done {
      return Success(Episode(obsList, actList, rewList, vehList, velList, vehI, velI, hooks, true));
    }
    var dump := IsSaveQTable(exp, o.stepCounter);
    if dump.Failure? {
      return Failure(dump.error);
    }
    if dump.value {
      var n := PyText.Trunc(j as real / exp.saveStep) + 1;
      hooks := hooks + [Dump(exp.dirPath, DumpName(exp.env.name, run, n))];
    } else {
      var swap := IsSwapQTable(exp, o.stepCounter);
      assert swap.Success?;
      if swap.value {
        if exp.policies.None? {
          return Failure(NoPolicyList);
        }
        if run < |exp.policies.value| {
          hooks := hooks + [Swap(run)];
        }
      }
    }
    r := Success(Episode(obsList, actList, rewList, vehList, velList, vehI, velI, hooks, s.done));
  }

  /** The step loop of one run of `run`: the environment's answers are buffered, saved into
      the five lists at save steps, and followed by at most one Q hook; the loop breaks on
      `done`. */
  method RunSteps<P, O, A>(exp: Experiment<P>, num: Numerics, run: nat, numSteps: nat, trace: (nat, nat) -> StepResult<O, A>)
    returns (r: Result<Episode<O, A>, ExperimentError>)
    ensures r == Steps(exp, num, run, numSteps, trace)
  {
    var s: Episode<O, A> := Start();
    var j := 0;
    while j < numSteps
      invariant 0 <= j <= numSteps
      invariant Steps(exp, num, run, j, trace) == Success(s) && !s.done
    {
      var o := trace(run, j);
      var next := TakeStep(exp, num, run, j, s, o);
      StepsSnoc(exp, num, run, j, trace, s);
      if next.Failure? {
        StepsFailSticks(exp, num, run, j + 1, numSteps, trace);
        return next;
      }
      s := next.value;
      if o.done {
        StopsAtDone(exp, num, run, j, numSteps, trace);
        return next;
      }
      j := j + 1;
    }
    r := Success(s);
  }

  /** One more iteration of a step loop that has not stopped is one more `StepOnce`. */
  lemma StepsSnoc<P, O, A>(exp: Experiment<P>, num: Numerics, run: nat, j: nat, trace: (nat, nat) -> StepResult<O, A>, s: Episode<O, A>)
    requires Steps(exp, num, run, j, trace) == Success(s) && !s.done
    ensures Steps(exp, num, run, j + 1, trace) == StepOnce(exp, num, run, j, s, trace(run, j))
  {
  }

  /** `run`: refuse a csv conversion without an emission path, then run `num_runs` runs of
      at most `num_steps` steps, appending each run's five lists to the outer lists, and
      fail at the csv conversion when there is one. */
  method Run<P, O, A>(exp: Experiment<P>, num: Numerics, numRuns: int, numSteps: int, convertToCsv: bool,
                      trace: (nat, nat) -> StepResult<O, A>)
    returns (r: Result<Outcome<O, A>, ExperimentError>)
    ensures r == RunSpec(exp, num, numRuns, numSteps, convertToCsv, trace)
  {
    if convertToCsv && exp.env.emissionPath.None? {
      return Failure(NoEmissionPath);
    }
    var vels: seq<seq<real>> := [];
    var vehs: seq<seq<real>> := [];
    var observationSpaces: seq<seq<O>> := [];
    var actions: seq<seq<A>> := [];
    var rewards: seq<seq<real>> := [];
    var hooks: seq<Hook> := [];
    var i := 0;
    while i < Count(numRuns)
      invariant 0 <= i <= Count(numRuns)
      invariant Runs(exp, num, i, Count(numSteps), trace)
                == Success(Outcome(Info(exp.env.name, exp.cycle, exp.saveStep, rewards, vels, vehs, observationSpaces, actions), hooks))
    {
      var episode := RunSteps(exp, num, i, Count(numSteps), trace);
      RunsSnoc(exp, num, i, Count(numSteps), trace);
      if episode.Failure? {
        RunsFailSticks(exp, num, i + 1, Count(numRuns), Count(numSteps), trace);
        return Failure(episode.error);
      }
      var s := episode.value;
      vels := vels + [s.velocities];
      vehs := vehs + [s.vehicles];
      observationSpaces := observationSpaces + [s.observations];
      actions := actions + [s.actions];
      rewards := rewards + [s.rewards];
      hooks := hooks + s.hooks;
      i := i + 1;
    }
    if ConvertsEmission(exp.env, convertToCsv) {
      return Failure(NoSuchAttribute);
    }
    r := Success(Outcome(Info(exp.env.name, exp.cycle, exp.saveStep, rewards, vels, vehs, observationSpaces, actions), hooks));
  }
}
