/**
 Running a flow (internal/engine/core.go, internal/engine/state.go): the step loop with its
 output and secret managers. Commands are unknown: what each step's environment does is an
 arbitrary Behaviour.
 */
module Engine {
  import opened Strings
  import opened Job
  import opened Template
  import opened Resolution
  import opened Secrets
  import opened Flow
  import OutputFile

  // ---------------------------------------------------------------- what the outside world does

  /** What joining the state directory with a declared path and looking there gives. */
  datatype FileCheck = Escapes | NoSuchFile | StatFails | Present(path: string)

  /** Everything the engine does not control while it runs one step. */
  datatype Behaviour = Behaviour(
    cancelled: bool,
    world: World,
    prepareFails: bool,
    failure: Option<string>,
    outputFile: OutputFile.FileState,
    files: string -> FileCheck)

  // ---------------------------------------------------------------- collecting outputs

  datatype CollectError = NotProduced(name: string) | PathTraversal(path: string) | CheckFails(name: string)
                        | InvalidType(name: string) | OutputFileFails

  datatype Collected = Collected(values: map<string, string>, error: Option<CollectError>)

  datatype OneOutput = Produced(value: string) | Unproduced(error: CollectError)

  function CollectOne(o: StepOutput, vars: map<string, string>, files: string -> FileCheck): OneOutput {
    match o.kind
    case Variable => if o.name in vars then Produced(vars[o.name]) else Unproduced(NotProduced(o.name))
    case FileOutput => (
      match files(o.path)
      case Escapes => Unproduced(PathTraversal(o.path))
      case NoSuchFile => Unproduced(NotProduced(o.name))
      case StatFails => Unproduced(CheckFails(o.name))
      case Present(path) => Produced(path)
      )
    case Unknown(_) => Unproduced(InvalidType(o.name))
  }

  function CollectFrom(os: seq<StepOutput>, vars: map<string, string>, files: string -> FileCheck,
                       acc: map<string, string>): Collected
  {
    if os == [] then Collected(acc, None)
    else
      match CollectOne(os[0], vars, files)
      case Produced(value) => CollectFrom(os[1..], vars, files, acc[os[0].name := value])
      case Unproduced(error) => Collected(acc, Some(error))
  }

  /** What a step contributes on top of what is stored under its name. */
  function CollectStep(s: Step, b: Behaviour, base: map<string, string>): Collected {
    match OutputFile.ReadSpec(b.outputFile)
    case ReadOk(vars) => CollectFrom(s.outputs, vars, b.files, base)
    case _ => Collected(base, Some(OutputFileFails))
  }

  type Outputs = map<string, map<string, string>>

  function Stored(outputs: Outputs, name: string): map<string, string> {
    if name in outputs then outputs[name] else map[]
  }

  datatype Gathered = Gathered(outputs: Outputs, error: Option<CollectError>)

  function Gather(outputs: Outputs, s: Step, b: Behaviour): Gathered {
    if s.outputs == [] then Gathered(outputs, None)
    else
      var c := CollectStep(s, b, Stored(outputs, s.name));
      Gathered(outputs[s.name := c.values], c.error)
  }

  /** Whether a declared output is there: in the file of variables, or as a file inside the state directory. */
  predicate IsThere(o: StepOutput, vars: map<string, string>, files: string -> FileCheck) {
    (o.kind.Variable? && o.name in vars) || (o.kind.FileOutput? && files(o.path).Present?)
  }

  lemma OneCollected(o: StepOutput, vars: map<string, string>, files: string -> FileCheck)
    ensures CollectOne(o, vars, files).Produced? <==> IsThere(o, vars, files)
  {
  }

  /**
   Collecting succeeds if and only if every declared output is there; otherwise the first one
   that is not is reported, by what is wrong with it.
   */
  lemma {:induction false} CollectedExactly(os: seq<StepOutput>, vars: map<string, string>, files: string -> FileCheck,
                                            acc: map<string, string>)
    ensures
      var error := CollectFrom(os, vars, files, acc).error;
      && (error.None? <==> forall i | 0 <= i < |os| ::
                             || (os[i].kind.Variable? && os[i].name in vars)
                             || (os[i].kind.FileOutput? && files(os[i].path).Present?))
      && (error.Some? ==>
            exists i :: 0 <= i < |os| && (forall j | 0 <= j < i :: IsThere(os[j], vars, files)) &&
                        error.value ==
                        if os[i].kind.Unknown? then InvalidType(os[i].name)
                        else if os[i].kind.FileOutput? && files(os[i].path).Escapes? then PathTraversal(os[i].path)
                        else if os[i].kind.FileOutput? && files(os[i].path).StatFails? then CheckFails(os[i].name)
                        else NotProduced(os[i].name))
    decreases |os|
  {
    if os != [] && IsThere(os[0], vars, files) {
      var rest, acc1 := os[1..], acc[os[0].name := CollectOne(os[0], vars, files).value];
      CollectedExactly(rest, vars, files, acc1);
      assert forall i | 1 <= i < |os| :: os[i] == rest[i - 1];
      var error := CollectFrom(rest, vars, files, acc1).error;
      if error.Some? {
        var i :| 0 <= i < |rest| && (forall j | 0 <= j < i :: IsThere(rest[j], vars, files)) &&
                 error.value ==
                 if rest[i].kind.Unknown? then InvalidType(rest[i].name)
                 else if rest[i].kind.FileOutput? && files(rest[i].path).Escapes? then PathTraversal(rest[i].path)
                 else if rest[i].kind.FileOutput? && files(rest[i].path).StatFails? then CheckFails(rest[i].name)
                 else NotProduced(rest[i].name);
        assert os[i + 1] == rest[i];
      }
    }
  }

  lemma {:induction false} OthersCollected(os: seq<StepOutput>, vars: map<string, string>, files: string -> FileCheck,
                                           acc: map<string, string>, name: string)
    requires forall j | 0 <= j < |os| :: os[j].name != name
    ensures var values := CollectFrom(os, vars, files, acc).values;
            (name in values <==> name in acc) && (name in acc ==> values[name] == acc[name])
    decreases |os|
  {
    if os != [] && CollectOne(os[0], vars, files).Produced? {
      var rest := os[1..];
      assert forall j | 0 <= j < |rest| :: rest[j] == os[j + 1];
      OthersCollected(rest, vars, files, acc[os[0].name := CollectOne(os[0], vars, files).value], name);
    }
  }

  /** The last declaration of a name decides: a variable has its value, a file its path. */
  lemma {:induction false} CollectedValues(os: seq<StepOutput>, vars: map<string, string>, files: string -> FileCheck,
                                           acc: map<string, string>, i: nat)
    requires CollectFrom(os, vars, files, acc).error.None? && i < |os|
    requires forall j | i < j < |os| :: os[j].name != os[i].name
    ensures
      var values := CollectFrom(os, vars, files, acc).values;
      && os[i].name in values
      && (os[i].kind.Variable? ==> os[i].name in vars && values[os[i].name] == vars[os[i].name])
      && (os[i].kind.FileOutput? ==> files(os[i].path) == Present(values[os[i].name]))
    decreases |os|
  {
    var rest, acc1 := os[1..], acc[os[0].name := CollectOne(os[0], vars, files).value];
    if i == 0 {
      assert forall j | 0 <= j < |rest| :: rest[j] == os[j + 1];
      OthersCollected(rest, vars, files, acc1, os[0].name);
    } else {
      assert forall j | 0 <= j < |rest| :: rest[j] == os[j + 1];
      CollectedValues(rest, vars, files, acc1, i - 1);
    }
  }

  /** The outputs before the first one that is not there stay recorded, and no others are. */
  lemma {:induction false} CollectStops(os: seq<StepOutput>, vars: map<string, string>, files: string -> FileCheck,
                                        acc: map<string, string>, i: nat)
    requires i < |os| && !IsThere(os[i], vars, files) && forall j | 0 <= j < i :: IsThere(os[j], vars, files)
    ensures CollectFrom(os, vars, files, acc).values == CollectFrom(os[..i], vars, files, acc).values
    decreases |os|
  {
    if i > 0 {
      var rest, acc1 := os[1..], acc[os[0].name := CollectOne(os[0], vars, files).value];
      assert forall j | 0 <= j < |rest| :: rest[j] == os[j + 1];
      CollectStops(rest, vars, files, acc1, i - 1);
      assert os[..i][1..] == rest[..i - 1] && os[..i][0] == os[0];
    }
  }

  /** The variables a step's output file holds; None if it cannot be read to its end. */
  predicate HoldsVariables(file: OutputFile.FileState, vars: map<string, string>) {
    (file.Absent? && vars == map[]) || (file.Content? && OutputFile.Parse(file.text) == OutputFile.Variables(vars))
  }

  /** What one step's outputs do to the recorded ones. */
  lemma GatherExactly(outputs: Outputs, s: Step, b: Behaviour, vars: map<string, string>, i: nat)
    ensures
      var g := Gather(outputs, s, b);
      && (s.outputs == [] ==> g == Gathered(outputs, None))
      && (forall n | n != s.name :: (n in g.outputs <==> n in outputs) && (n in outputs ==> g.outputs[n] == outputs[n]))
      && (s.outputs != [] && b.outputFile.Unreadable? ==> g.error == Some(OutputFileFails))
      && (s.outputs != [] && b.outputFile.Content? && OutputFile.Parse(b.outputFile.text).TooLong? ==>
            g.error == Some(OutputFileFails))
    ensures
      var g := Gather(outputs, s, b);
      s.outputs != [] && HoldsVariables(b.outputFile, vars) ==>
        && (g.error.None? <==> forall k | 0 <= k < |s.outputs| ::
                                 || (s.outputs[k].kind.Variable? && s.outputs[k].name in vars)
                                 || (s.outputs[k].kind.FileOutput? && b.files(s.outputs[k].path).Present?))
        && (g.error.None? && i < |s.outputs| &&
            (forall k | i < k < |s.outputs| :: s.outputs[k].name != s.outputs[i].name) ==>
              var o := s.outputs[i];
              && s.name in g.outputs && o.name in g.outputs[s.name]
              && (o.kind.Variable? ==> o.name in vars && g.outputs[s.name][o.name] == vars[o.name])
              && (o.kind.FileOutput? ==> b.files(o.path) == Present(g.outputs[s.name][o.name])))
  {
    if s.outputs != [] && HoldsVariables(b.outputFile, vars) {
      assert OutputFile.ReadSpec(b.outputFile) == OutputFile.ReadOk(vars);
      var base := Stored(outputs, s.name);
      CollectedExactly(s.outputs, vars, b.files, base);
      if CollectFrom(s.outputs, vars, b.files, base).error.None? && i < |s.outputs| &&
         (forall k | i < k < |s.outputs| :: s.outputs[k].name != s.outputs[i].name)
      {
        CollectedValues(s.outputs, vars, b.files, base, i);
      }
    }
  }

  class StateManager {
    var outputs: Outputs

    constructor ()
      ensures outputs == map[]
    {
      outputs := map[];
    }

    method GetOutput(step: string, output: string) returns (value: Option<string>)
      ensures value == Env(outputs, map[]).Get(OutputRef(step, output))
    {
      if step !in outputs || output !in outputs[step] {
        return None;
      }
      return Some(outputs[step][output]);
    }

    /** On an error the outputs before the missing one stay recorded. */
    method CollectOutputs(s: Step, b: Behaviour) returns (error: Option<CollectError>)
      modifies this
      ensures Gathered(outputs, error) == Gather(old(outputs), s, b)
    {
      if s.outputs == [] {
        return None;
      }
      ghost var base := Stored(outputs, s.name);
      if s.name !in outputs {
        outputs := outputs[s.name := map[]];
      }
      var r := OutputFile.ParseOutputFile(b.outputFile);
      if !r.ReadOk? {
        return Some(CollectError.OutputFileFails);
      }
      var vars := r.m;
      ghost var was := outputs;
      for i := 0 to |s.outputs|
        invariant s.name in outputs && outputs == was[s.name := outputs[s.name]]
        invariant CollectFrom(s.outputs[i..], vars, b.files, outputs[s.name]) ==
                  CollectFrom(s.outputs, vars, b.files, base)
      {
        var one := CollectOne(s.outputs[i], vars, b.files);
        if one.Unproduced? {
          return Some(one.error);
        }
        outputs := outputs[s.name := outputs[s.name][s.outputs[i].name := one.value]];
      }
      return None;
    }
  }

  // ---------------------------------------------------------------- resolving a command

  method ResolveOutputs(input: string, refs: seq<Found>, state: StateManager, ghost env: Env) returns (r: Outcome)
    requires env.outputs == state.outputs && forall k | 0 <= k < |refs| :: refs[k].ref.OutputRef?
    ensures r == ReplaceRefs(refs, env, input)
  {
    var result := input;
    for i := 0 to |refs|
      invariant ReplaceRefs(refs[i..], env, result) == ReplaceRefs(refs, env, input)
    {
      var ref := refs[i].ref;
      var value := state.GetOutput(ref.step, ref.output);
      if value.None? {
        return Missing(ref);
      }
      result := Replace(result, refs[i].raw, value.value);
    }
    return Resolved(result);
  }

  method ResolveSecrets(input: string, refs: seq<Found>, secrets: SecretManager, ghost env: Env) returns (r: Outcome)
    requires env.secrets == secrets.secrets && forall k | 0 <= k < |refs| :: refs[k].ref.SecretRef?
    ensures r == ReplaceRefs(refs, env, input)
  {
    var result := input;
    for i := 0 to |refs|
      invariant ReplaceRefs(refs[i..], env, result) == ReplaceRefs(refs, env, input)
    {
      var ref := refs[i].ref;
      var value := secrets.Get(ref.name);
      if value.None? {
        return Missing(ref);
      }
      result := Replace(result, refs[i].raw, value.value);
    }
    return Resolved(result);
  }

  method ResolveTemplates(input: string, state: StateManager, secrets: SecretManager) returns (r: Outcome)
    ensures r == Resolve(input, Env(state.outputs, secrets.secrets))
  {
    ghost var env := Env(state.outputs, secrets.secrets);
    var refs := ParseTemplates(input);
    r := ResolveOutputs(input, refs, state, env);
    if r.Missing? {
      return;
    }
    refs := ParseSecretTemplates(r.text);
    r := ResolveSecrets(r.text, refs, secrets, env);
  }

  // ---------------------------------------------------------------- the interpreter

  datatype Executed = Executed(step: nat, cmd: string, secrets: map<string, string>)

  datatype Failure = Cancelled | SecretsFail(e: LoadError) | TemplateFails(ref: Ref) | PrepareFails
                   | ExecutionFails | CollectFails(cause: CollectError)

  /** How a step leaves the outputs, which command and secrets it ran with, and how it failed. */
  datatype StepRun = StepRun(outputs: Outputs, ran: Option<Executed>, failure: Option<Failure>)

  /** A command that is only a comment is not run at all. */
  predicate IsComment(cmd: string) {
    HasPrefix(TrimSpace(cmd), "#")
  }

  function RunCommand(s: Step, outputs: Outputs, e: Executed, b: Behaviour): StepRun {
    if !IsComment(e.cmd) && b.failure.Some? then StepRun(outputs, Some(e), Some(ExecutionFails))
    else
      var g := Gather(outputs, s, b);
      StepRun(g.outputs, Some(e), if g.error.None? then None else Some(CollectFails(g.error.value)))
  }

  function RunStep(s: Step, i: nat, outputs: Outputs, flowSecrets: map<string, string>, b: Behaviour): StepRun {
    if b.cancelled then StepRun(outputs, None, Some(Cancelled))
    else
      var loaded := LoadInto(s.secrets, b.world, flowSecrets);
      if loaded.error.Some? then StepRun(outputs, None, Some(SecretsFail(loaded.error.value)))
      else
        match Resolve(s.cmd, Env(outputs, loaded.secrets))
        case Missing(ref) => StepRun(outputs, None, Some(TemplateFails(ref)))
        case Resolved(cmd) =>
          if s.name != "" && b.prepareFails then StepRun(outputs, None, Some(PrepareFails))
          else RunCommand(s, outputs, Executed(i, cmd, loaded.secrets), b)
  }

  datatype RunResult = Completed | FlowSecretsFail(e: LoadError) | StoppedAt(step: nat, failure: Failure)

  datatype Ran = Ran(result: RunResult, trace: seq<Executed>)

  function OneOrNone<T>(x: Option<T>): seq<T> {
    if x.Some? then [x.value] else []
  }

  /** The step loop over an arbitrary way of running the step of a given number. */
  function Loop(n: nat, i: nat, outputs: Outputs, step: (nat, Outputs) -> StepRun, trace: seq<Executed>): Ran
    requires i <= n
    decreases n - i
  {
    if i == n then Ran(Completed, trace)
    else
      var r := step(i, outputs);
      var trace' := trace + OneOrNone(r.ran);
      if r.failure.Some? then Ran(StoppedAt(i, r.failure.value), trace')
      else Loop(n, i + 1, r.outputs, step, trace')
  }

  function Stepper(flow: Flow, flowSecrets: map<string, string>, bs: seq<Behaviour>): (nat, Outputs) -> StepRun
    requires |bs| == |flow.steps|
  {
    (i: nat, outputs: Outputs) =>
      if i < |flow.steps| then RunStep(flow.steps[i], i, outputs, flowSecrets, bs[i]) else StepRun(outputs, None, None)
  }

  function RunSpec(flow: Flow, w: World, bs: seq<Behaviour>): Ran
    requires |bs| == |flow.steps|
  {
    var loaded := LoadInto(flow.secrets, w, map[]);
    if loaded.error.Some? then Ran(FlowSecretsFail(loaded.error.value), [])
    else Loop(|flow.steps|, 0, map[], Stepper(flow, loaded.secrets, bs), [])
  }

  /**
   Engine.Run from the loading of the flow's secrets on. Each step's secrets are loaded into a
   clone, so they are gone with the step; a failed command's message is masked with them.
   */
  method Run(flow: Flow, w: World, bs: seq<Behaviour>)
      returns (result: RunResult, trace: seq<Executed>, message: string)
    requires |bs| == |flow.steps|
    ensures Ran(result, trace) == RunSpec(flow, w, bs)
    ensures result.StoppedAt? && result.failure.ExecutionFails? && trace != [] &&
            SafeSecrets(trace[|trace| - 1].secrets) ==>
              var used := trace[|trace| - 1].secrets;
              forall k | k in used && used[k] != "" :: !Contains(message, used[k])
    ensures message == "" || (result.StoppedAt? && result.failure.ExecutionFails?)
    ensures result.StoppedAt? && result.failure.ExecutionFails? ==>
              && result.step < |flow.steps| && trace != [] && bs[result.step].failure.Some?
              && IsMasked(message, bs[result.step].failure.value, trace[|trace| - 1].secrets)
  {
    trace, message := [], "";
    var state := new StateManager();
    var flowSecrets := new SecretManager();
    var loadError := flowSecrets.Load(flow.secrets, w);
    if loadError.Some? {
      return FlowSecretsFail(loadError.value), trace, message;
    }
    ghost var visible := flowSecrets.secrets;
    ghost var step := Stepper(flow, visible, bs);
    for i := 0 to |flow.steps|
      invariant fresh(state) && fresh(flowSecrets)
      invariant flowSecrets.secrets == visible && message == ""
      invariant Loop(|flow.steps|, i, state.outputs, step, trace) == RunSpec(flow, w, bs)
    {
      var s, b := flow.steps[i], bs[i];
      assert step(i, state.outputs) == RunStep(s, i, state.outputs, visible, b);
      if b.cancelled {
        return StoppedAt(i, Cancelled), trace, message;
      }
      var stepSecrets := flowSecrets.Clone();
      loadError := stepSecrets.Load(s.secrets, b.world);
      if loadError.Some? {
        return StoppedAt(i, SecretsFail(loadError.value)), trace, message;
      }
      var resolved := ResolveTemplates(s.cmd, state, stepSecrets);
      if resolved.Missing? {
        return StoppedAt(i, TemplateFails(resolved.ref)), trace, message;
      }
      if s.name != "" && b.prepareFails {
        return StoppedAt(i, PrepareFails), trace, message;
      }
      trace := trace + [Executed(i, resolved.text, stepSecrets.secrets)];
      if !IsComment(resolved.text) && b.failure.Some? {
        message := stepSecrets.Mask(b.failure.value);
        return StoppedAt(i, ExecutionFails), trace, message;
      }
      var collectError := state.CollectOutputs(s, b);
      if collectError.Some? {
        return StoppedAt(i, CollectFails(collectError.value)), trace, message;
      }
    }
    flowSecrets.Clear();
    return Completed, trace, message;
  }
}
