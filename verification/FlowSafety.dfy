/** Validated flows do not go wrong: the validator as a type check for the step interpreter. */
module FlowSafety {
  import opened Strings
  import opened Job
  import opened Template
  import opened Resolution
  import opened Secrets
  import opened Flow
  import opened Engine
  import OutputFile

  // ---------------------------------------------------------------- what a step sees

  /** The outputs recorded when step i begins. */
  function OutputsAt(flow: Flow, bs: seq<Behaviour>, i: nat): Outputs
    requires i <= |flow.steps| == |bs|
  {
    if i == 0 then map[] else Gather(OutputsAt(flow, bs, i - 1), flow.steps[i - 1], bs[i - 1]).outputs
  }

  predicate Collects(flow: Flow, bs: seq<Behaviour>, j: nat)
    requires j < |flow.steps| == |bs|
  {
    Gather(OutputsAt(flow, bs, j), flow.steps[j], bs[j]).error.None?
  }

  predicate CollectedBefore(flow: Flow, bs: seq<Behaviour>, i: nat)
    requires i <= |flow.steps| == |bs|
  {
    forall j | 0 <= j < i :: Collects(flow, bs, j)
  }

  function FlowSecrets(flow: Flow, w: World): map<string, string> {
    LoadInto(flow.secrets, w, map[]).secrets
  }

  function EnvAt(flow: Flow, w: World, bs: seq<Behaviour>, i: nat): Env
    requires i < |flow.steps| == |bs|
  {
    Env(OutputsAt(flow, bs, i), LoadInto(flow.steps[i].secrets, bs[i].world, FlowSecrets(flow, w)).secrets)
  }

  /** What a step records on its own, whatever ran before it. */
  function Own(s: Step, b: Behaviour): map<string, string> {
    CollectStep(s, b, map[]).values
  }

  // ---------------------------------------------------------------- a step's own outputs

  lemma {:induction false} CollectedNames(os: seq<StepOutput>, vars: map<string, string>, files: string -> FileCheck,
                                          acc: map<string, string>, o: string)
    requires CollectFrom(os, vars, files, acc).error.None?
    ensures var values := CollectFrom(os, vars, files, acc).values;
            && (o in values <==> o in acc || exists i :: 0 <= i < |os| && os[i].name == o)
            && ((forall i | 0 <= i < |os| :: os[i].name != o) && o in acc ==> values[o] == acc[o])
            && (forall i | 0 <= i < |os| && os[i].name == o && (forall j | i < j < |os| :: os[j].name != o) ::
                  Produced(values[o]) == CollectOne(os[i], vars, files))
    decreases |os|
  {
    if os != [] {
      var rest := os[1..];
      CollectedNames(rest, vars, files, acc[os[0].name := CollectOne(os[0], vars, files).value], o);
      assert forall i | 1 <= i < |os| :: os[i] == rest[i - 1];
      assert (exists i :: 0 <= i < |os| && os[i].name == o) <==>
             os[0].name == o || exists i :: 0 <= i < |rest| && rest[i].name == o;
    }
  }

  /** A step that collected without error has a value for exactly the outputs it declares. */
  lemma OwnNames(s: Step, b: Behaviour, o: string)
    requires s.outputs != [] && CollectStep(s, b, map[]).error.None?
    ensures o in Own(s, b) <==> Declares(s, o)
  {
    match OutputFile.ReadSpec(b.outputFile)
    case ReadOk(vars) => CollectedNames(s.outputs, vars, b.files, map[], o);
    case _ =>
  }

  /** Earlier is where a step with a name of its own has put its outputs. */
  predicate Earlier(flow: Flow, bs: seq<Behaviour>, outputs: Outputs, j: nat)
    requires j < |flow.steps| == |bs|
  {
    var s := flow.steps[j];
    s.outputs != [] ==>
      && s.name in outputs && outputs[s.name] == Own(s, bs[j]) && CollectStep(s, bs[j], map[]).error.None?
  }

  predicate Recorder(flow: Flow, n: string, j: nat)
    requires j < |flow.steps|
  {
    flow.steps[j].name == n && flow.steps[j].outputs != []
  }

  /** No step's outputs are overwritten, and nothing else is recorded. */
  lemma {:induction false} EarlierSteps(flow: Flow, bs: seq<Behaviour>, i: nat)
    requires i <= |flow.steps| == |bs| && CollectedBefore(flow, bs, i)
    requires NamesOk(flow.steps) && forall j | 0 <= j < |flow.steps| :: StepOk(flow.steps[j])
    ensures forall j | 0 <= j < i :: Earlier(flow, bs, OutputsAt(flow, bs, i), j)
    ensures forall n | n in OutputsAt(flow, bs, i) :: exists j :: 0 <= j < i && Recorder(flow, n, j)
  {
    if i > 0 {
      EarlierSteps(flow, bs, i - 1);
      var before, after := OutputsAt(flow, bs, i - 1), OutputsAt(flow, bs, i);
      assert Collects(flow, bs, i - 1);
      var s := flow.steps[i - 1];
      assert StepOk(s);
      if s.outputs != [] {
        assert Recorder(flow, s.name, i - 1);
      }
      forall j | 0 <= j < i ensures Earlier(flow, bs, after, j) {
        if j < i - 1 {
          assert Earlier(flow, bs, before, j) && StepOk(flow.steps[j]);
          assert flow.steps[j].name != "" ==> flow.steps[j].name != s.name;
        }
      }
      forall n | n in after ensures exists j :: 0 <= j < i && Recorder(flow, n, j) {
        if n in before {
          var j :| 0 <= j < i - 1 && Recorder(flow, n, j);
        }
      }
    }
  }

  /**
   Validator soundness for outputs: every output reference of a step that is reached has a
   value, namely the one that the earlier step of that name recorded itself.
   */
  lemma ReferenceResolves(flow: Flow, bs: seq<Behaviour>, i: nat, ref: Ref, secrets: map<string, string>)
    requires i < |flow.steps| == |bs| && CollectedBefore(flow, bs, i)
    requires NamesOk(flow.steps) && forall j | 0 <= j < |flow.steps| :: StepOk(flow.steps[j])
    requires OutputRefOk(flow.steps, i, ref)
    ensures exists j :: 0 <= j < i && flow.steps[j].name == ref.step && ref.output in Own(flow.steps[j], bs[j]) &&
                        Env(OutputsAt(flow, bs, i), secrets).Get(ref) == Some(Own(flow.steps[j], bs[j])[ref.output])
  {
    EarlierSteps(flow, bs, i);
    var j :| IsStepNamed(flow.steps, ref.step, j) && j < i && Declares(flow.steps[j], ref.output);
    assert Earlier(flow, bs, OutputsAt(flow, bs, i), j);
    OwnNames(flow.steps[j], bs[j], ref.output);
  }

  /**
   The validator's check is exact: among flows whose names and declarations are in order, a
   reference at a step that is reached has a value if and only if the validator accepts it.
   */
  lemma ReferenceExactly(flow: Flow, bs: seq<Behaviour>, i: nat, ref: Ref, secrets: map<string, string>)
    requires i < |flow.steps| == |bs| && CollectedBefore(flow, bs, i)
    requires NamesOk(flow.steps) && forall j | 0 <= j < |flow.steps| :: StepOk(flow.steps[j])
    requires ref.OutputRef?
    ensures Env(OutputsAt(flow, bs, i), secrets).Get(ref).Some? <==> OutputRefOk(flow.steps, i, ref)
  {
    var env := Env(OutputsAt(flow, bs, i), secrets);
    EarlierSteps(flow, bs, i);
    if OutputRefOk(flow.steps, i, ref) {
      ReferenceResolves(flow, bs, i, ref, secrets);
    }
    if env.Get(ref).Some? {
      var j :| 0 <= j < i && Recorder(flow, ref.step, j);
      assert Earlier(flow, bs, env.outputs, j) && StepOk(flow.steps[j]);
      OwnNames(flow.steps[j], bs[j], ref.output);
      assert IsStepNamed(flow.steps, ref.step, j);
    }
  }

  // ---------------------------------------------------------------- a step's secrets

  /**
   Scoping: at step i exactly the secrets of the flow and of the step are visible, the step's
   own declaration wins, and no other step's declaration plays a part.
   */
  lemma SecretScope(flow: Flow, w: World, bs: seq<Behaviour>, i: nat, name: string)
    requires i < |flow.steps| == |bs| && SecretsOk(flow.secrets) && StepOk(flow.steps[i])
    requires LoadInto(flow.secrets, w, map[]).error.None?
    requires LoadInto(flow.steps[i].secrets, bs[i].world, FlowSecrets(flow, w)).error.None?
    ensures
      var visible, own := EnvAt(flow, w, bs, i).secrets, flow.steps[i].secrets;
      && (name in visible <==> Declared(flow.secrets, name) || Declared(own, name))
      && (forall k | 0 <= k < |own| && own[k].name == name ::
            if own[k].env != "" && own[k].env in bs[i].world.vars then visible[name] == bs[i].world.vars[own[k].env]
            else own[k].file in bs[i].world.files && visible[name] == TrimSpace(bs[i].world.files[own[k].file]))
      && (!Declared(own, name) ==>
            forall k | 0 <= k < |flow.secrets| && flow.secrets[k].name == name ::
              var d := flow.secrets[k];
              if d.env != "" && d.env in w.vars then visible[name] == w.vars[d.env]
              else d.file in w.files && visible[name] == TrimSpace(w.files[d.file]))
  {
    LoadScope(flow.secrets, w, map[], name);
    LoadScope(flow.steps[i].secrets, bs[i].world, FlowSecrets(flow, w), name);
    assert forall k | 0 <= k < |flow.secrets| && flow.secrets[k].name == name :: Declared(flow.secrets, name);
  }

  // ---------------------------------------------------------------- missing references

  lemma {:induction false} MissingIsListed(refs: seq<Found>, env: Env, s: string)
    requires ReplaceRefs(refs, env, s).Missing?
    ensures exists k :: 0 <= k < |refs| && refs[k].ref == ReplaceRefs(refs, env, s).ref && env.Get(refs[k].ref).None?
    decreases |refs|
  {
    if env.Get(refs[0].ref).Some? {
      var s' := Replace(s, refs[0].raw, env.Get(refs[0].ref).value);
      MissingIsListed(refs[1..], env, s');
      var rest := refs[1..];
      var k :| 0 <= k < |rest| && rest[k].ref == ReplaceRefs(rest, env, s').ref && env.Get(rest[k].ref).None?;
      assert refs[k + 1] == rest[k];
    }
  }

  predicate HasAll(refs: seq<Found>, env: Env) {
    forall k | 0 <= k < |refs| :: env.Get(refs[k].ref).Some?
  }

  lemma {:induction false} NoneMissing(refs: seq<Found>, env: Env)
    requires HasAll(refs, env)
    ensures FirstMissing(refs, env).None?
  {
    if refs != [] {
      assert refs[0] == refs[0];
      assert forall k | 0 <= k < |refs[1..]| :: refs[1..][k] == refs[k + 1];
      NoneMissing(refs[1..], env);
    }
  }

  /** With all output references present, only a secret can be missing. */
  lemma OnlySecretsMissing(s: string, env: Env)
    requires HasAll(FindAll(Output, s), env) && Resolve(s, env).Missing?
    ensures Resolve(s, env).ref.SecretRef?
  {
    var first := ReplaceRefs(FindAll(Output, s), env, s);
    if first.Missing? {
      MissingIsListed(FindAll(Output, s), env, s);
    } else {
      MissingIsListed(FindAll(Secret, first.text), env, first.text);
      var k :| 0 <= k < |FindAll(Secret, first.text)| && FindAll(Secret, first.text)[k].ref == Resolve(s, env).ref;
      FoundIsRaw(Secret, first.text, FindAll(Secret, first.text)[k]);
    }
  }

  // ---------------------------------------------------------------- one step

  lemma OutputsPresent(flow: Flow, bs: seq<Behaviour>, i: nat, refs: seq<Found>, secrets: map<string, string>)
    requires i < |flow.steps| == |bs| && CollectedBefore(flow, bs, i)
    requires NamesOk(flow.steps) && forall j | 0 <= j < |flow.steps| :: StepOk(flow.steps[j])
    requires OutputRefsOk(flow.steps, i, refs)
    ensures HasAll(refs, Env(OutputsAt(flow, bs, i), secrets))
  {
    forall k | 0 <= k < |refs| ensures Env(OutputsAt(flow, bs, i), secrets).Get(refs[k].ref).Some? {
      ReferenceResolves(flow, bs, i, refs[k].ref, secrets);
    }
  }

  lemma SecretsPresent(flow: Flow, w: World, bs: seq<Behaviour>, i: nat, refs: seq<Found>)
    requires i < |flow.steps| == |bs| && SecretsOk(flow.secrets) && StepOk(flow.steps[i])
    requires LoadInto(flow.secrets, w, map[]).error.None?
    requires LoadInto(flow.steps[i].secrets, bs[i].world, FlowSecrets(flow, w)).error.None?
    requires SecretRefsOk(flow, flow.steps[i], refs)
    ensures HasAll(refs, EnvAt(flow, w, bs, i))
  {
    forall k | 0 <= k < |refs| ensures EnvAt(flow, w, bs, i).Get(refs[k].ref).Some? {
      assert SecretRefOk(flow, flow.steps[i], refs[k].ref);
      SecretScope(flow, w, bs, i, refs[k].ref.name);
    }
  }

  /** The side condition of the resolution theorem, at step i. */
  ghost predicate SafeStep(flow: Flow, w: World, bs: seq<Behaviour>, i: nat)
    requires i < |flow.steps| == |bs|
  {
    Clean(flow.steps[i].cmd) && SafeFor(AllRefs(flow.steps[i].cmd), EnvAt(flow, w, bs, i))
  }

  lemma ListsPresent(flow: Flow, w: World, bs: seq<Behaviour>, i: nat, outs: seq<Found>, secs: seq<Found>)
    requires ValidFlow(flow) && i < |flow.steps| == |bs| && CollectedBefore(flow, bs, i)
    requires LoadInto(flow.secrets, w, map[]).error.None?
    requires LoadInto(flow.steps[i].secrets, bs[i].world, FlowSecrets(flow, w)).error.None?
    requires OutputRefsOk(flow.steps, i, outs) && SecretRefsOk(flow, flow.steps[i], secs)
    ensures HasAll(outs, EnvAt(flow, w, bs, i))
    ensures FirstMissing(outs, EnvAt(flow, w, bs, i)).None? && FirstMissing(secs, EnvAt(flow, w, bs, i)).None?
  {
    assert StepOk(flow.steps[i]);
    OutputsPresent(flow, bs, i, outs, EnvAt(flow, w, bs, i).secrets);
    SecretsPresent(flow, w, bs, i, secs);
    NoneMissing(outs, EnvAt(flow, w, bs, i));
    NoneMissing(secs, EnvAt(flow, w, bs, i));
  }

  /** What resolving a validated step's command can come to. */
  lemma StepResolves(flow: Flow, w: World, bs: seq<Behaviour>, i: nat)
    requires ValidFlow(flow) && i < |flow.steps| == |bs| && CollectedBefore(flow, bs, i)
    requires LoadInto(flow.secrets, w, map[]).error.None?
    requires LoadInto(flow.steps[i].secrets, bs[i].world, FlowSecrets(flow, w)).error.None?
    ensures
      var out := Resolve(flow.steps[i].cmd, EnvAt(flow, w, bs, i));
      && (out.Missing? ==> out.ref.SecretRef?)
      && (SafeStep(flow, w, bs, i) ==> out == Resolved(Subst(EnvAt(flow, w, bs, i), flow.steps[i].cmd)))
  {
    var cmd, env := flow.steps[i].cmd, EnvAt(flow, w, bs, i);
    OutputRefsListed(flow.steps, i);
    SecretRefsListed(flow, i);
    ListsPresent(flow, w, bs, i, FindAll(Output, cmd), FindAll(Secret, cmd));
    if Resolve(cmd, env).Missing? {
      OnlySecretsMissing(cmd, env);
    }
    if SafeStep(flow, w, bs, i) {
      SequentialIsSimultaneous(cmd, env);
      FirstMissingConcat(FindAll(Output, cmd), FindAll(Secret, cmd), env);
    }
  }

  // ---------------------------------------------------------------- whole runs

  /** e is what step e.step ran: with its own environment, and its command as resolved there. */
  predicate Faithful(flow: Flow, w: World, bs: seq<Behaviour>, e: Executed)
    requires |flow.steps| == |bs|
  {
    && e.step < |flow.steps| && CollectedBefore(flow, bs, e.step)
    && LoadInto(flow.steps[e.step].secrets, bs[e.step].world, FlowSecrets(flow, w)).error.None?
    && e.secrets == EnvAt(flow, w, bs, e.step).secrets
    && Resolve(flow.steps[e.step].cmd, EnvAt(flow, w, bs, e.step)) == Resolved(e.cmd)
  }

  predicate FaithfulTrace(flow: Flow, w: World, bs: seq<Behaviour>, trace: seq<Executed>)
    requires |flow.steps| == |bs|
  {
    forall k | 0 <= k < |trace| :: Faithful(flow, w, bs, trace[k])
  }

  /** Where and why a run of a template failure stopped. */
  ghost predicate StoppedByTemplate(flow: Flow, w: World, bs: seq<Behaviour>, i: nat, ref: Ref)
    requires |flow.steps| == |bs|
  {
    && i < |flow.steps| && CollectedBefore(flow, bs, i)
    && LoadInto(flow.steps[i].secrets, bs[i].world, FlowSecrets(flow, w)).error.None?
    && Resolve(flow.steps[i].cmd, EnvAt(flow, w, bs, i)) == Missing(ref)
  }

  lemma OneStep(flow: Flow, w: World, bs: seq<Behaviour>, i: nat)
    requires i < |flow.steps| == |bs| && CollectedBefore(flow, bs, i)
    ensures
      var r := RunStep(flow.steps[i], i, OutputsAt(flow, bs, i), FlowSecrets(flow, w), bs[i]);
      && (r.failure.None? ==> Collects(flow, bs, i) && r.outputs == OutputsAt(flow, bs, i + 1))
      && (r.ran.Some? ==> Faithful(flow, w, bs, r.ran.value))
      && (r.failure.Some? && r.failure.value.TemplateFails? ==>
            StoppedByTemplate(flow, w, bs, i, r.failure.value.ref))
  {
  }

  predicate OneTurn(r: StepRun, i: nat, inv: (nat, Outputs) -> bool, good: Executed -> bool,
                    bad: (nat, Failure) -> bool)
  {
    && (r.ran.Some? ==> good(r.ran.value))
    && (r.failure.Some? ==> bad(i, r.failure.value))
    && (r.failure.None? ==> inv(i + 1, r.outputs))
  }

  /**
   The rule for the step loop: what holds of the first step's environment and is handed on by
   every step that succeeds holds at every step that is reached.
   */
  lemma {:induction false} LoopRule(n: nat, i: nat, outputs: Outputs, step: (nat, Outputs) -> StepRun,
                                    trace: seq<Executed>, inv: (nat, Outputs) -> bool, good: Executed -> bool,
                                    bad: (nat, Failure) -> bool)
    requires i <= n && inv(i, outputs) && forall k | 0 <= k < |trace| :: good(trace[k])
    requires forall j: nat, o: Outputs | j < n && inv(j, o) :: OneTurn(step(j, o), j, inv, good, bad)
    ensures var run := Loop(n, i, outputs, step, trace);
            && (forall k | 0 <= k < |run.trace| :: good(run.trace[k]))
            && (run.result.StoppedAt? ==> bad(run.result.step, run.result.failure))
    decreases n - i
  {
    if i < n {
      var r := step(i, outputs);
      assert OneTurn(r, i, inv, good, bad);
      if r.failure.None? {
        LoopRule(n, i + 1, r.outputs, step, trace + OneOrNone(r.ran), inv, good, bad);
      }
    }
  }

  ghost predicate Reached(flow: Flow, bs: seq<Behaviour>, i: nat, outputs: Outputs)
    requires |flow.steps| == |bs|
  {
    i <= |flow.steps| && CollectedBefore(flow, bs, i) && outputs == OutputsAt(flow, bs, i)
  }

  ghost function ReachedIn(flow: Flow, bs: seq<Behaviour>): (nat, Outputs) -> bool
    requires |flow.steps| == |bs|
  {
    (i: nat, outputs: Outputs) => Reached(flow, bs, i, outputs)
  }

  function FaithfulIn(flow: Flow, w: World, bs: seq<Behaviour>): Executed -> bool
    requires |flow.steps| == |bs|
  {
    (e: Executed) => Faithful(flow, w, bs, e)
  }

  ghost function StoppedIn(flow: Flow, w: World, bs: seq<Behaviour>): (nat, Failure) -> bool
    requires |flow.steps| == |bs|
  {
    (i: nat, f: Failure) => f.TemplateFails? ==> StoppedByTemplate(flow, w, bs, i, f.ref)
  }

  lemma TurnHolds(flow: Flow, w: World, bs: seq<Behaviour>, i: nat, r: StepRun)
    requires |flow.steps| == |bs| && i < |flow.steps| && CollectedBefore(flow, bs, i)
    requires r.failure.None? ==> Collects(flow, bs, i) && r.outputs == OutputsAt(flow, bs, i + 1)
    requires r.ran.Some? ==> Faithful(flow, w, bs, r.ran.value)
    requires r.failure.Some? && r.failure.value.TemplateFails? ==>
               StoppedByTemplate(flow, w, bs, i, r.failure.value.ref)
    ensures OneTurn(r, i, ReachedIn(flow, bs), FaithfulIn(flow, w, bs), StoppedIn(flow, w, bs))
  {
  }

  lemma TurnIsFaithful(flow: Flow, w: World, bs: seq<Behaviour>, i: nat, outputs: Outputs)
    requires |flow.steps| == |bs| && i < |flow.steps| && Reached(flow, bs, i, outputs)
    ensures OneTurn(Stepper(flow, FlowSecrets(flow, w), bs)(i, outputs), i,
                    ReachedIn(flow, bs), FaithfulIn(flow, w, bs), StoppedIn(flow, w, bs))
  {
    OneStep(flow, w, bs, i);
    TurnHolds(flow, w, bs, i, RunStep(flow.steps[i], i, outputs, FlowSecrets(flow, w), bs[i]));
  }

  lemma RunIsFaithful(flow: Flow, w: World, bs: seq<Behaviour>)
    requires |flow.steps| == |bs| && LoadInto(flow.secrets, w, map[]).error.None?
    ensures
      var run := RunSpec(flow, w, bs);
      && FaithfulTrace(flow, w, bs, run.trace)
      && (run.result.StoppedAt? && run.result.failure.TemplateFails? ==>
            StoppedByTemplate(flow, w, bs, run.result.step, run.result.failure.ref))
  {
    var inv, good, bad := ReachedIn(flow, bs), FaithfulIn(flow, w, bs), StoppedIn(flow, w, bs);
    var step := Stepper(flow, FlowSecrets(flow, w), bs);
    forall i: nat, outputs: Outputs | i < |flow.steps| && inv(i, outputs)
      ensures OneTurn(step(i, outputs), i, inv, good, bad)
    {
      TurnIsFaithful(flow, w, bs, i, outputs);
    }
    LoopRule(|flow.steps|, 0, map[], step, [], inv, good, bad);
    forall k | 0 <= k < |RunSpec(flow, w, bs).trace| ensures Faithful(flow, w, bs, RunSpec(flow, w, bs).trace[k]) {
      assert good(RunSpec(flow, w, bs).trace[k]);
    }
  }

  // ---------------------------------------------------------------- where a run ends

  /** The step is passed: nothing stops the run there. */
  predicate Proceeds(flow: Flow, w: World, bs: seq<Behaviour>, i: nat)
    requires i < |flow.steps| == |bs|
  {
    && !bs[i].cancelled
    && LoadInto(flow.steps[i].secrets, bs[i].world, FlowSecrets(flow, w)).error.None?
    && var r := Resolve(flow.steps[i].cmd, EnvAt(flow, w, bs, i));
       && r.Resolved?
       && (flow.steps[i].name == "" || !bs[i].prepareFails)
       && (bs[i].failure.None? || HasPrefix(TrimSpace(r.text), "#"))
       && Collects(flow, bs, i)
  }

  function StepAt(flow: Flow, w: World, bs: seq<Behaviour>, i: nat): StepRun
    requires i < |flow.steps| == |bs|
  {
    RunStep(flow.steps[i], i, OutputsAt(flow, bs, i), FlowSecrets(flow, w), bs[i])
  }

  lemma StepProceeds(flow: Flow, w: World, bs: seq<Behaviour>, i: nat)
    requires i < |flow.steps| == |bs|
    ensures StepAt(flow, w, bs, i).failure.None? <==> Proceeds(flow, w, bs, i)
    ensures StepAt(flow, w, bs, i).failure.None? ==>
              StepAt(flow, w, bs, i).outputs == OutputsAt(flow, bs, i + 1) && StepAt(flow, w, bs, i).ran.Some?
  {
  }

  /** The loop ends at the first step that fails, or behind the last one; outs are the outputs at each step. */
  lemma {:induction false} LoopExactly(n: nat, i: nat, step: (nat, Outputs) -> StepRun, trace: seq<Executed>,
                                       outs: nat -> Outputs)
    requires i <= n
    requires forall j: nat | j < n && step(j, outs(j)).failure.None? ::
               step(j, outs(j)).outputs == outs(j + 1) && step(j, outs(j)).ran.Some?
    ensures
      var run := Loop(n, i, outs(i), step, trace);
      && !run.result.FlowSecretsFail?
      && (run.result.Completed? ==> |run.trace| == |trace| + (n - i))
      && (run.result.Completed? ==> forall j: nat | i <= j < n :: step(j, outs(j)).failure.None?)
      && (run.result.StoppedAt? ==>
            && i <= run.result.step < n
            && step(run.result.step, outs(run.result.step)).failure == Some(run.result.failure)
            && (forall j: nat | i <= j < run.result.step :: step(j, outs(j)).failure.None?)
            && |run.trace| == |trace| + (run.result.step - i) +
                              |OneOrNone(step(run.result.step, outs(run.result.step)).ran)|)
    decreases n - i
  {
    if i < n {
      var r := step(i, outs(i));
      if r.failure.None? {
        LoopExactly(n, i + 1, step, trace + OneOrNone(r.ran), outs);
      }
    }
  }

  function OutputsIn(flow: Flow, bs: seq<Behaviour>): nat -> Outputs
    requires |flow.steps| == |bs|
  {
    (i: nat) => if i <= |flow.steps| then OutputsAt(flow, bs, i) else map[]
  }

  lemma StepperAt(flow: Flow, w: World, bs: seq<Behaviour>, i: nat)
    requires i < |flow.steps| == |bs|
    ensures Stepper(flow, FlowSecrets(flow, w), bs)(i, OutputsIn(flow, bs)(i)) == StepAt(flow, w, bs, i)
    ensures OutputsIn(flow, bs)(i + 1) == OutputsAt(flow, bs, i + 1)
  {
  }

  lemma RunLoops(flow: Flow, w: World, bs: seq<Behaviour>)
    requires |flow.steps| == |bs| && LoadInto(flow.secrets, w, map[]).error.None?
    ensures
      var run := RunSpec(flow, w, bs);
      && !run.result.FlowSecretsFail?
      && (run.result.Completed? ==> |run.trace| == |flow.steps|)
      && (run.result.Completed? ==> forall i | 0 <= i < |flow.steps| :: StepAt(flow, w, bs, i).failure.None?)
      && (run.result.StoppedAt? ==>
            && run.result.step < |flow.steps|
            && (forall i | 0 <= i < run.result.step :: StepAt(flow, w, bs, i).failure.None?)
            && StepAt(flow, w, bs, run.result.step).failure == Some(run.result.failure)
            && |run.trace| == run.result.step + |OneOrNone(StepAt(flow, w, bs, run.result.step).ran)|)
  {
    var step, outs := Stepper(flow, FlowSecrets(flow, w), bs), OutputsIn(flow, bs);
    forall i: nat | i < |flow.steps|
      ensures step(i, outs(i)) == StepAt(flow, w, bs, i)
      ensures step(i, outs(i)).failure.None? ==>
                step(i, outs(i)).outputs == outs(i + 1) && step(i, outs(i)).ran.Some?
    {
      StepperAt(flow, w, bs, i);
      StepProceeds(flow, w, bs, i);
    }
    assert outs(0) == map[];
    LoopExactly(|flow.steps|, 0, step, [], outs);
  }

  /** A run stops at the first step that does not proceed, and completes if there is none. */
  lemma RunEnds(flow: Flow, w: World, bs: seq<Behaviour>)
    requires |flow.steps| == |bs| && LoadInto(flow.secrets, w, map[]).error.None?
    ensures
      var run := RunSpec(flow, w, bs);
      && !run.result.FlowSecretsFail?
      && (run.result.Completed? ==> |run.trace| == |flow.steps|)
      && (run.result.Completed? ==> forall i | 0 <= i < |flow.steps| :: Proceeds(flow, w, bs, i))
      && (run.result.StoppedAt? ==>
            && run.result.step < |flow.steps| && !Proceeds(flow, w, bs, run.result.step)
            && (forall i | 0 <= i < run.result.step :: Proceeds(flow, w, bs, i))
            && StepAt(flow, w, bs, run.result.step).failure == Some(run.result.failure)
            && |run.trace| == run.result.step + |OneOrNone(StepAt(flow, w, bs, run.result.step).ran)|)
  {
    RunLoops(flow, w, bs);
    forall i: nat | i < |flow.steps| ensures StepAt(flow, w, bs, i).failure.None? <==> Proceeds(flow, w, bs, i) {
      StepProceeds(flow, w, bs, i);
    }
  }

  /**
   What can stop a run at a step: the step is cancelled, or fails to load its secrets, to
   resolve, to prepare, to execute or to have its outputs collected. A command that is only a
   comment cannot fail.
   */
  lemma ProceedsExactly(flow: Flow, w: World, bs: seq<Behaviour>, i: nat)
    requires i < |flow.steps| == |bs|
    ensures Proceeds(flow, w, bs, i) <==>
            && !bs[i].cancelled
            && LoadInto(flow.steps[i].secrets, bs[i].world, FlowSecrets(flow, w)).error.None?
            && Resolve(flow.steps[i].cmd, EnvAt(flow, w, bs, i)).Resolved?
            && !(flow.steps[i].name != "" && bs[i].prepareFails)
            && !(bs[i].failure.Some? &&
                 !HasPrefix(TrimSpace(Resolve(flow.steps[i].cmd, EnvAt(flow, w, bs, i)).text), "#"))
            && Gather(OutputsAt(flow, bs, i), flow.steps[i], bs[i]).error.None?
  {
  }

  /** A run completes if and only if the flow's secrets load and every step proceeds. */
  lemma CompletesExactly(flow: Flow, w: World, bs: seq<Behaviour>)
    requires |flow.steps| == |bs|
    ensures RunSpec(flow, w, bs).result.Completed? <==>
            LoadInto(flow.secrets, w, map[]).error.None? && forall i | 0 <= i < |flow.steps| :: Proceeds(flow, w, bs, i)
    ensures forall e :: RunSpec(flow, w, bs).result == FlowSecretsFail(e) <==>
                        LoadInto(flow.secrets, w, map[]).error == Some(e)
  {
    if LoadInto(flow.secrets, w, map[]).error.None? {
      RunEnds(flow, w, bs);
    }
  }

  lemma StopsThere(flow: Flow, w: World, bs: seq<Behaviour>, i: nat)
    requires i < |flow.steps| == |bs| && LoadInto(flow.secrets, w, map[]).error.None?
    requires (forall j | 0 <= j < i :: Proceeds(flow, w, bs, j)) && !Proceeds(flow, w, bs, i)
    ensures var run, r := RunSpec(flow, w, bs), StepAt(flow, w, bs, i);
            && r.failure.Some? && run.result == StoppedAt(i, r.failure.value)
            && |run.trace| == i + |OneOrNone(r.ran)|
  {
    RunEnds(flow, w, bs);
    StepProceeds(flow, w, bs, i);
  }

  /** Where and why it stops otherwise, and how many commands were handed to the shell by then. */
  lemma StopsExactly(flow: Flow, w: World, bs: seq<Behaviour>, i: nat)
    requires i < |flow.steps| == |bs| && LoadInto(flow.secrets, w, map[]).error.None?
    requires forall j | 0 <= j < i :: Proceeds(flow, w, bs, j)
    ensures
      var run, s, b := RunSpec(flow, w, bs), flow.steps[i], bs[i];
      var loaded := LoadInto(s.secrets, b.world, FlowSecrets(flow, w));
      if b.cancelled then run.result == StoppedAt(i, Cancelled) && |run.trace| == i
      else if loaded.error.Some? then run.result == StoppedAt(i, SecretsFail(loaded.error.value)) && |run.trace| == i
      else
        var r := Resolve(s.cmd, EnvAt(flow, w, bs, i));
        if r.Missing? then run.result == StoppedAt(i, TemplateFails(r.ref)) && |run.trace| == i
        else if s.name != "" && b.prepareFails then run.result == StoppedAt(i, PrepareFails) && |run.trace| == i
        else if b.failure.Some? && !HasPrefix(TrimSpace(r.text), "#") then
          run.result == StoppedAt(i, ExecutionFails) && |run.trace| == i + 1
        else
          var g := Gather(OutputsAt(flow, bs, i), s, b);
          g.error.Some? ==> run.result == StoppedAt(i, CollectFails(g.error.value)) && |run.trace| == i + 1
  {
    RunEnds(flow, w, bs);
    StepProceeds(flow, w, bs, i);
    if !Proceeds(flow, w, bs, i) {
      StopsThere(flow, w, bs, i);
    }
  }

  predicate InOrder(trace: seq<Executed>) {
    forall k | 0 <= k < |trace| :: trace[k].step == k
  }

  predicate RanItself(r: StepRun, i: nat) {
    (r.ran.Some? ==> r.ran.value.step == i) && (r.failure.None? ==> r.ran.Some?)
  }

  /** Steps are executed in order, none is skipped, and a completed run executed all of them. */
  lemma {:induction false} StepsInOrder(n: nat, i: nat, outputs: Outputs, step: (nat, Outputs) -> StepRun,
                                        trace: seq<Executed>)
    requires i <= n && |trace| == i && InOrder(trace)
    requires forall j: nat, o: Outputs | j < n :: RanItself(step(j, o), j)
    ensures
      var run := Loop(n, i, outputs, step, trace);
      && InOrder(run.trace)
      && (run.result.Completed? ==> |run.trace| == n)
      && (run.result.StoppedAt? ==> run.result.step <= |run.trace| <= run.result.step + 1)
    decreases n - i
  {
    if i < n {
      var r := step(i, outputs);
      assert RanItself(r, i);
      if r.failure.None? {
        StepsInOrder(n, i + 1, r.outputs, step, trace + OneOrNone(r.ran));
      }
    }
  }

  lemma RunInOrder(flow: Flow, w: World, bs: seq<Behaviour>)
    requires |flow.steps| == |bs|
    ensures var run := RunSpec(flow, w, bs);
            InOrder(run.trace) && (run.result.Completed? ==> |run.trace| == |flow.steps|)
  {
    var step := Stepper(flow, FlowSecrets(flow, w), bs);
    forall j: nat, o: Outputs | j < |flow.steps| ensures RanItself(step(j, o), j) {
    }
    StepsInOrder(|flow.steps|, 0, map[], step, []);
  }

  /**
   For every flow ValidateFlow accepts and every behaviour of its commands: a run never fails
   with an invalid template reference; at a step whose command is clean and whose values are
   safe it does not fail over a secret either, and what is executed there is the command with
   every reference replaced by its own value; each step runs with the flow's secrets
   overridden by its own.
   */
  lemma ValidatedFlowsDoNotGoWrong(flow: Flow, w: World, bs: seq<Behaviour>)
    requires ValidFlow(flow) && |bs| == |flow.steps|
    ensures
      var run := RunSpec(flow, w, bs);
      && (run.result.StoppedAt? && run.result.failure.TemplateFails? ==>
            && run.result.step < |flow.steps| && run.result.failure.ref.SecretRef?
            && !SafeStep(flow, w, bs, run.result.step))
      && (forall k | 0 <= k < |run.trace| ::
            var e := run.trace[k];
            && e.step < |flow.steps| && e.secrets == EnvAt(flow, w, bs, e.step).secrets
            && (SafeStep(flow, w, bs, e.step) ==> e.cmd == Subst(EnvAt(flow, w, bs, e.step), flow.steps[e.step].cmd)))
  {
    if LoadInto(flow.secrets, w, map[]).error.None? {
      RunIsFaithful(flow, w, bs);
      var run := RunSpec(flow, w, bs);
      if run.result.StoppedAt? && run.result.failure.TemplateFails? {
        assert StoppedByTemplate(flow, w, bs, run.result.step, run.result.failure.ref);
        StepResolves(flow, w, bs, run.result.step);
      }
      forall k | 0 <= k < |run.trace|
        ensures var e := run.trace[k];
                && Faithful(flow, w, bs, e)
                && (SafeStep(flow, w, bs, e.step) ==>
                      e.cmd == Subst(EnvAt(flow, w, bs, e.step), flow.steps[e.step].cmd))
      {
        assert Faithful(flow, w, bs, run.trace[k]);
        StepResolves(flow, w, bs, run.trace[k].step);
      }
    }
  }
}
