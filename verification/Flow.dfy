/** Flows and their validation (internal/engine/core.go, internal/engine/parser.go, internal/engine/template.go). */
module Flow {
  import opened Strings
  import opened Job
  import opened Template
  import opened Resolution
  import opened Secrets

  // ---------------------------------------------------------------- flows

  datatype OutputType = Variable | FileOutput | Unknown(name: string)

  datatype StepOutput = StepOutput(name: string, kind: OutputType, path: string)

  /** A shell step, the only kind of step there is. */
  datatype Step = Step(name: string, cmd: string, outputs: seq<StepOutput>, secrets: seq<Declaration>)

  datatype Tool = Tool(name: string, url: string, path: string, sha256: string, retries: int)

  datatype Flow = Flow(tools: seq<Tool>, secrets: seq<Declaration>, steps: seq<Step>)

  // ---------------------------------------------------------------- what a valid flow is

  /** unicode.ToLower, as far as the archive suffixes can tell. */
  function Lower(c: char): char {
    if 'A' <= c <= 'Z' then c - 'A' + 'a' else if c as int == 0x130 then 'i' else c
  }

  function ToLower(s: string): string {
    seq(|s|, i requires 0 <= i < |s| => Lower(s[i]))
  }

  predicate IsArchiveUrl(url: string) {
    var lower := ToLower(url);
    || HasSuffix(lower, ".tar.gz") || HasSuffix(lower, ".tgz") || HasSuffix(lower, ".tar.bz2")
    || HasSuffix(lower, ".tar") || HasSuffix(lower, ".zip")
  }

  lemma LowerSuffix(p: string, e: string, x: string)
    requires |e| == |x|
    ensures HasSuffix(ToLower(p + e), x) <==> ToLower(e) == x
  {
    var s := p + e;
    assert |ToLower(s)| == |s| && ToLower(s)[|p|..] == ToLower(e);
  }

  /** An archive is told by its suffix, in whatever case. */
  lemma ArchiveSuffixes(url: string)
    ensures IsArchiveUrl(url) <==>
            exists n :: 0 <= n <= |url| && ToLower(url[n..]) in {".tar.gz", ".tgz", ".tar.bz2", ".tar", ".zip"}
  {
    forall n | 0 <= n <= |url|
      ensures ToLower(url[n..]) in {".tar.gz", ".tgz", ".tar.bz2", ".tar", ".zip"} ==> IsArchiveUrl(url)
    {
      assert url == url[..n] + url[n..];
      assert |ToLower(url[n..])| == |url[n..]|;
      LowerSuffix(url[..n], url[n..], ToLower(url[n..]));
    }
    if IsArchiveUrl(url) {
      var lower := ToLower(url);
      var x := if HasSuffix(lower, ".tar.gz") then ".tar.gz" else if HasSuffix(lower, ".tgz") then ".tgz"
               else if HasSuffix(lower, ".tar.bz2") then ".tar.bz2" else if HasSuffix(lower, ".tar") then ".tar"
               else ".zip";
      var n := |url| - |x|;
      assert url == url[..n] + url[n..];
      LowerSuffix(url[..n], url[n..], x);
      assert ToLower(url[n..]) == x;
    }
  }

  predicate ToolOk(t: Tool) {
    t.name != "" && t.retries >= 1 && (t.url != "" ==> (IsArchiveUrl(t.url) <==> t.path != ""))
  }

  predicate ToolsOk(ts: seq<Tool>) {
    && (forall i | 0 <= i < |ts| :: ToolOk(ts[i]))
    && forall i, j | 0 <= i < j < |ts| :: ts[i].name != ts[j].name
  }

  predicate SecretsOk(ds: seq<Declaration>) {
    && (forall i | 0 <= i < |ds| :: ds[i].name != "" && (ds[i].env != "" || ds[i].file != ""))
    && DistinctNames(ds)
  }

  predicate OutputOk(o: StepOutput) {
    o.name != "" && !o.kind.Unknown? && (o.kind.FileOutput? ==> o.path != "")
  }

  predicate StepOk(s: Step) {
    && (forall i | 0 <= i < |s.outputs| :: OutputOk(s.outputs[i]))
    && (s.outputs != [] ==> s.name != "")
    && SecretsOk(s.secrets)
  }

  predicate NamesOk(steps: seq<Step>) {
    forall i, j | 0 <= i < j < |steps| :: steps[i].name != "" ==> steps[i].name != steps[j].name
  }

  predicate Declares(s: Step, output: string) {
    exists i :: 0 <= i < |s.outputs| && s.outputs[i].name == output
  }

  /** j is the step a reference to `name` means: the last one of that name. */
  predicate IsStepNamed(steps: seq<Step>, name: string, j: int) {
    0 <= j < |steps| && steps[j].name == name && forall k | j < k < |steps| :: steps[k].name != name
  }

  /** An output reference in step i. */
  ghost predicate OutputRefOk(steps: seq<Step>, i: nat, ref: Ref) {
    && ref.OutputRef?
    && exists j {:trigger IsStepNamed(steps, ref.step, j)} ::
         IsStepNamed(steps, ref.step, j) && j < i && Declares(steps[j], ref.output)
  }

  predicate SecretRefOk(flow: Flow, s: Step, ref: Ref) {
    ref.SecretRef? && (Declared(flow.secrets, ref.name) || Declared(s.secrets, ref.name))
  }

  /** The command contains this reference. */
  ghost predicate Refers(k: Kind, cmd: string, ref: Ref) {
    exists i :: 0 <= i < |FindAll(k, cmd)| && FindAll(k, cmd)[i].ref == ref
  }

  ghost predicate OutputRefsOk(steps: seq<Step>, i: nat, refs: seq<Found>) {
    forall k | 0 <= k < |refs| :: OutputRefOk(steps, i, refs[k].ref)
  }

  predicate SecretRefsOk(flow: Flow, s: Step, refs: seq<Found>) {
    forall k | 0 <= k < |refs| :: SecretRefOk(flow, s, refs[k].ref)
  }

  ghost predicate StepOutputRefsOk(steps: seq<Step>, i: nat)
    requires i < |steps|
  {
    forall ref | Refers(Output, steps[i].cmd, ref) :: OutputRefOk(steps, i, ref)
  }

  lemma OutputRefsListed(steps: seq<Step>, i: nat)
    requires i < |steps|
    ensures StepOutputRefsOk(steps, i) <==> OutputRefsOk(steps, i, FindAll(Output, steps[i].cmd))
  {
    var refs := FindAll(Output, steps[i].cmd);
    assert forall k | 0 <= k < |refs| :: Refers(Output, steps[i].cmd, refs[k].ref);
  }

  ghost predicate StepSecretRefsOk(flow: Flow, i: nat)
    requires i < |flow.steps|
  {
    forall ref | Refers(Secret, flow.steps[i].cmd, ref) :: SecretRefOk(flow, flow.steps[i], ref)
  }

  lemma SecretRefsListed(flow: Flow, i: nat)
    requires i < |flow.steps|
    ensures StepSecretRefsOk(flow, i) <==> SecretRefsOk(flow, flow.steps[i], FindAll(Secret, flow.steps[i].cmd))
  {
    var refs := FindAll(Secret, flow.steps[i].cmd);
    assert forall k | 0 <= k < |refs| :: Refers(Secret, flow.steps[i].cmd, refs[k].ref);
  }

  /** Every secret that the command refers to is declared for the flow or for the step. */
  lemma SecretRefsMean(flow: Flow, i: nat)
    requires i < |flow.steps|
    ensures StepSecretRefsOk(flow, i) <==>
            forall name | Refers(Secret, flow.steps[i].cmd, SecretRef(name)) ::
              (exists k :: 0 <= k < |flow.secrets| && flow.secrets[k].name == name) ||
              (exists k :: 0 <= k < |flow.steps[i].secrets| && flow.steps[i].secrets[k].name == name)
  {
    forall ref | Refers(Secret, flow.steps[i].cmd, ref) ensures ref.SecretRef? {
      var cmd := flow.steps[i].cmd;
      var k :| 0 <= k < |FindAll(Secret, cmd)| && FindAll(Secret, cmd)[k].ref == ref;
      FoundIsRaw(Secret, cmd, FindAll(Secret, cmd)[k]);
    }
    if StepSecretRefsOk(flow, i) {
      assert forall name | Refers(Secret, flow.steps[i].cmd, SecretRef(name)) ::
          SecretRefOk(flow, flow.steps[i], SecretRef(name));
    }
  }

  ghost predicate ValidFlow(flow: Flow) {
    && ToolsOk(flow.tools) && SecretsOk(flow.secrets) && NamesOk(flow.steps)
    && (forall i | 0 <= i < |flow.steps| :: StepOk(flow.steps[i]))
    && (forall i | 0 <= i < |flow.steps| :: StepOutputRefsOk(flow.steps, i))
    && (forall i | 0 <= i < |flow.steps| :: StepSecretRefsOk(flow, i))
  }

  // ---------------------------------------------------------------- validation as the code does it

  datatype FlowError =
    | ToolNameRequired(index: int) | DuplicateTool(name: string) | InvalidRetries(name: string)
    | PathRequired(name: string) | PathForbidden(name: string)
    | SecretNameRequired(index: int) | DuplicateSecret(name: string) | SecretSourceEmpty(name: string)
    | DuplicateStepName(name: string) | OutputNameRequired(index: int) | InvalidOutputType(index: int)
    | MissingOutputPath(index: int) | UnnamedStepWithOutputs(index: int)
    | InvalidReference(index: int, ref: Ref) | SecretNotFound(index: int, ref: Ref)

  predicate ToolFault(ts: seq<Tool>, e: FlowError) {
    match e
    case ToolNameRequired(i) => 0 <= i < |ts| && ts[i].name == ""
    case DuplicateTool(name) => exists i, j :: 0 <= i < j < |ts| && ts[i].name == ts[j].name == name
    case InvalidRetries(name) => exists i :: 0 <= i < |ts| && ts[i].name == name && ts[i].retries < 1
    case PathRequired(name) =>
      exists i :: 0 <= i < |ts| && ts[i].name == name && ts[i].url != "" && IsArchiveUrl(ts[i].url) && ts[i].path == ""
    case PathForbidden(name) =>
      exists i :: 0 <= i < |ts| && ts[i].name == name && ts[i].url != "" && !IsArchiveUrl(ts[i].url) && ts[i].path != ""
    case _ => false
  }

  method ValidateTools(ts: seq<Tool>) returns (error: Option<FlowError>)
    ensures error.None? <==> ToolsOk(ts)
    ensures error.None? <==>
            && (forall i | 0 <= i < |ts| ::
                  && ts[i].name != "" && ts[i].retries >= 1
                  && (ts[i].url != "" ==> (IsArchiveUrl(ts[i].url) <==> ts[i].path != "")))
            && forall i, j | 0 <= i < j < |ts| :: ts[i].name != ts[j].name
    ensures error.Some? ==> ToolFault(ts, error.value)
  {
    var seen: set<string> := {};
    var i := 0;
    while i < |ts|
      invariant i <= |ts|
      invariant forall n :: n in seen <==> exists j :: 0 <= j < i && ts[j].name == n
      invariant forall j | 0 <= j < i :: ToolOk(ts[j])
      invariant forall j, k | 0 <= j < k < i :: ts[j].name != ts[k].name
    {
      var t := ts[i];
      if t.name == "" {
        return Some(ToolNameRequired(i));
      }
      if t.name in seen {
        return Some(DuplicateTool(t.name));
      }
      seen := seen + {t.name};
      if t.retries < 1 {
        return Some(InvalidRetries(t.name));
      }
      if t.url != "" && IsArchiveUrl(t.url) && t.path == "" {
        return Some(PathRequired(t.name));
      }
      if t.url != "" && !IsArchiveUrl(t.url) && t.path != "" {
        return Some(PathForbidden(t.name));
      }
      i := i + 1;
    }
    return None;
  }

  predicate SecretFault(ds: seq<Declaration>, e: FlowError) {
    match e
    case SecretNameRequired(i) => 0 <= i < |ds| && ds[i].name == ""
    case DuplicateSecret(name) => exists i, j :: 0 <= i < j < |ds| && ds[i].name == ds[j].name == name
    case SecretSourceEmpty(name) =>
      exists i :: 0 <= i < |ds| && ds[i].name == name && ds[i].env == "" && ds[i].file == ""
    case _ => false
  }

  method ValidateSecrets(ds: seq<Declaration>) returns (error: Option<FlowError>)
    ensures error.None? <==> SecretsOk(ds)
    ensures error.None? <==>
            && (forall i | 0 <= i < |ds| :: ds[i].name != "" && (ds[i].env != "" || ds[i].file != ""))
            && forall i, j | 0 <= i < j < |ds| :: ds[i].name != ds[j].name
    ensures error.Some? ==> SecretFault(ds, error.value)
  {
    var seen: set<string> := {};
    var i := 0;
    while i < |ds|
      invariant i <= |ds|
      invariant forall n :: n in seen <==> exists j :: 0 <= j < i && ds[j].name == n
      invariant SecretsOk(ds[..i])
    {
      var d := ds[i];
      if d.name == "" {
        return Some(SecretNameRequired(i));
      }
      if d.name in seen {
        return Some(DuplicateSecret(d.name));
      }
      seen := seen + {d.name};
      if d.env == "" && d.file == "" {
        return Some(SecretSourceEmpty(d.name));
      }
      i := i + 1;
    }
    assert ds[..|ds|] == ds;
    return None;
  }

  predicate OutputFault(s: Step, e: FlowError) {
    match e
    case OutputNameRequired(i) => 0 <= i < |s.outputs| && s.outputs[i].name == ""
    case InvalidOutputType(i) => 0 <= i < |s.outputs| && s.outputs[i].kind.Unknown?
    case MissingOutputPath(i) => 0 <= i < |s.outputs| && s.outputs[i].kind.FileOutput? && s.outputs[i].path == ""
    case _ => false
  }

  method ValidateOutputs(s: Step) returns (error: Option<FlowError>)
    ensures error.None? <==> forall i | 0 <= i < |s.outputs| :: OutputOk(s.outputs[i])
    ensures error.None? <==> forall i | 0 <= i < |s.outputs| ::
                               var o := s.outputs[i];
                               o.name != "" && (o.kind.Variable? || (o.kind.FileOutput? && o.path != ""))
    ensures error.Some? ==> OutputFault(s, error.value)
  {
    for j := 0 to |s.outputs|
      invariant forall i | 0 <= i < j :: OutputOk(s.outputs[i])
    {
      var o := s.outputs[j];
      if o.name == "" {
        return Some(OutputNameRequired(j));
      }
      if o.kind.Unknown? {
        return Some(InvalidOutputType(j));
      }
      if o.kind.FileOutput? && o.path == "" {
        return Some(MissingOutputPath(j));
      }
    }
    return None;
  }

  predicate SingleStepFault(s: Step, e: FlowError) {
    OutputFault(s, e) || SecretFault(s.secrets, e) || (e.UnnamedStepWithOutputs? && s.name == "" && s.outputs != [])
  }

  method ValidateStep(s: Step, i: nat) returns (error: Option<FlowError>)
    ensures error.None? <==> StepOk(s)
    ensures error.None? ==> s.outputs == [] || s.name != ""
    ensures error.Some? ==> SingleStepFault(s, error.value)
    ensures error.Some? && error.value.UnnamedStepWithOutputs? ==> error.value.index == i
  {
    error := ValidateOutputs(s);
    if error.Some? {
      return;
    }
    if s.outputs != [] && s.name == "" {
      return Some(UnnamedStepWithOutputs(i));
    }
    error := ValidateSecrets(s.secrets);
  }

  predicate SomeBelow(p: nat -> bool, n: nat) {
    n > 0 && (p(n - 1) || SomeBelow(p, n - 1))
  }

  lemma {:induction false} NoneBelow(p: nat -> bool, n: nat, i: nat)
    requires i < n && !SomeBelow(p, n)
    ensures !p(i)
  {
    if i < n - 1 {
      NoneBelow(p, n - 1, i);
    }
  }

  /** Which commands refer to an output. */
  ghost function Templated(steps: seq<Step>): nat -> bool {
    (i: nat) => i < |steps| && exists ref :: Refers(Output, steps[i].cmd, ref)
  }

  /** The check that ValidateFlow skips for want of references would have found nothing. */
  lemma NoTemplatesNoFault(steps: seq<Step>)
    requires !SomeBelow(Templated(steps), |steps|)
    ensures forall i | 0 <= i < |steps| :: StepOutputRefsOk(steps, i)
  {
    forall i | 0 <= i < |steps| ensures StepOutputRefsOk(steps, i) {
      NoneBelow(Templated(steps), |steps|, i);
    }
  }

  lemma RefersToSome(k: Kind, cmd: string)
    ensures (exists ref :: Refers(k, cmd, ref)) <==> FindAll(k, cmd) != []
  {
    if FindAll(k, cmd) != [] {
      assert Refers(k, cmd, FindAll(k, cmd)[0].ref);
    }
  }

  method FindTemplates(steps: seq<Step>, n: nat, before: bool) returns (found: bool)
    requires n < |steps| && before == SomeBelow(Templated(steps), n)
    ensures found == SomeBelow(Templated(steps), n + 1)
  {
    var refs := ParseRefs(Output, steps[n].cmd);
    RefersToSome(Output, steps[n].cmd);
    return before || |refs| > 0;
  }

  predicate StepFault(steps: seq<Step>, e: FlowError) {
    || (exists i :: 0 <= i < |steps| && SingleStepFault(steps[i], e) && (e.UnnamedStepWithOutputs? ==> e.index == i))
    || (e.DuplicateStepName? && exists i, j :: 0 <= i < j < |steps| && steps[i].name == steps[j].name == e.name != "")
  }

  /** The loop of ValidateFlow; hasTemplates tells whether any command refers to an output. */
  method ValidateSteps(steps: seq<Step>) returns (error: Option<FlowError>, hasTemplates: bool)
    ensures error.None? <==> NamesOk(steps) && forall i | 0 <= i < |steps| :: StepOk(steps[i])
    ensures error.None? ==> forall i, j | 0 <= i < j < |steps| :: steps[i].name != "" ==> steps[i].name != steps[j].name
    ensures error.Some? ==> StepFault(steps, error.value)
    ensures error.None? ==> hasTemplates == SomeBelow(Templated(steps), |steps|)
  {
    var stepNames: set<string> := {};
    hasTemplates := false;
    var i := 0;
    while i < |steps|
      invariant i <= |steps|
      invariant forall n :: n in stepNames <==> exists j :: 0 <= j < i && steps[j].name == n != ""
      invariant NamesOk(steps[..i])
      invariant forall j | 0 <= j < i :: StepOk(steps[j])
      invariant hasTemplates == SomeBelow(Templated(steps), i)
    {
      var s := steps[i];
      if s.name != "" {
        if s.name in stepNames {
          return Some(DuplicateStepName(s.name)), hasTemplates;
        }
        stepNames := stepNames + {s.name};
      }
      var e := ValidateStep(s, i);
      if e.Some? {
        return e, hasTemplates;
      }
      hasTemplates := FindTemplates(steps, i, hasTemplates);
      i := i + 1;
    }
    assert steps[..|steps|] == steps;
    return None, hasTemplates;
  }

  /** stepIndex and stepOutputs: a later step of the same name overwrites both. */
  ghost predicate Indexed(steps: seq<Step>, upTo: nat, index: map<string, nat>, outputs: map<string, set<string>>)
    requires upTo <= |steps|
  {
    && outputs.Keys == index.Keys
    && (forall n | n in index :: n != "" && IsStepNamed(steps[..upTo], n, index[n]))
    && (forall j | 0 <= j < upTo :: steps[j].name != "" ==> steps[j].name in index)
    && (forall n | n in index :: forall o :: o in outputs[n] <==> Declares(steps[..upTo][index[n]], o))
  }

  method OutputNames(s: Step) returns (names: set<string>)
    ensures forall o :: o in names <==> Declares(s, o)
  {
    names := {};
    for i := 0 to |s.outputs|
      invariant forall o :: o in names <==> exists j :: 0 <= j < i && s.outputs[j].name == o
    {
      names := names + {s.outputs[i].name};
    }
  }

  method IndexSteps(steps: seq<Step>) returns (index: map<string, nat>, outputs: map<string, set<string>>)
    ensures Indexed(steps, |steps|, index, outputs)
  {
    index, outputs := map[], map[];
    for i := 0 to |steps|
      invariant Indexed(steps, i, index, outputs)
    {
      assert steps[..i + 1] == steps[..i] + [steps[i]];
      var name := steps[i].name;
      if name != "" {
        index := index[name := i];
        var names := OutputNames(steps[i]);
        outputs := outputs[name := names];
      }
    }
  }

  lemma MeansIndexed(steps: seq<Step>, index: map<string, nat>, outputs: map<string, set<string>>, i: nat, ref: Ref)
    requires Indexed(steps, |steps|, index, outputs) && i < |steps| && ref.OutputRef? && ref.step != ""
    ensures OutputRefOk(steps, i, ref) <==>
              ref.step in index && index[ref.step] < i && ref.output in outputs[ref.step]
  {
    assert steps[..|steps|] == steps;
    if ref.step in index {
      assert IsStepNamed(steps, ref.step, index[ref.step]);
    }
  }

  /** The references of one command. */
  method CheckOutputRefs(steps: seq<Step>, index: map<string, nat>, outputs: map<string, set<string>>,
                         i: nat, refs: seq<Found>)
      returns (error: Option<FlowError>)
    requires Indexed(steps, |steps|, index, outputs) && i < |steps|
    requires forall k | 0 <= k < |refs| :: refs[k].ref.OutputRef? && refs[k].ref.step != ""
    ensures error.None? <==> OutputRefsOk(steps, i, refs)
    ensures error.Some? ==> exists k :: 0 <= k < |refs| && error.value == InvalidReference(i, refs[k].ref) &&
                                        !OutputRefOk(steps, i, refs[k].ref)
  {
    for k := 0 to |refs|
      invariant forall l | 0 <= l < k :: OutputRefOk(steps, i, refs[l].ref)
    {
      var ref := refs[k].ref;
      MeansIndexed(steps, index, outputs, i, ref);
      if ref.step !in index || index[ref.step] >= i || ref.output !in outputs[ref.step] {
        return Some(InvalidReference(i, ref));
      }
    }
    return None;
  }

  method ParseTemplates(cmd: string) returns (refs: seq<Found>)
    ensures refs == FindAll(Output, cmd)
    ensures forall k | 0 <= k < |refs| :: refs[k].ref.OutputRef? && refs[k].ref.step != ""
  {
    refs := ParseRefs(Output, cmd);
    forall k | 0 <= k < |refs| ensures refs[k].ref.OutputRef? && refs[k].ref.step != "" {
      assert refs[k] in refs;
      FoundIsRaw(Output, cmd, refs[k]);
    }
  }

  method ParseSecretTemplates(cmd: string) returns (refs: seq<Found>)
    ensures refs == FindAll(Secret, cmd)
    ensures forall k | 0 <= k < |refs| :: refs[k].ref.SecretRef?
  {
    refs := ParseRefs(Secret, cmd);
    forall k | 0 <= k < |refs| ensures refs[k].ref.SecretRef? {
      assert refs[k] in refs;
      FoundIsRaw(Secret, cmd, refs[k]);
    }
  }

  ghost predicate ReferenceFault(steps: seq<Step>, e: FlowError) {
    && e.InvalidReference? && 0 <= e.index < |steps|
    && Refers(Output, steps[e.index].cmd, e.ref) && !OutputRefOk(steps, e.index, e.ref)
  }

  method ValidateStepReferences(steps: seq<Step>, index: map<string, nat>, outputs: map<string, set<string>>, i: nat)
      returns (error: Option<FlowError>)
    requires Indexed(steps, |steps|, index, outputs) && i < |steps|
    ensures error.None? <==> StepOutputRefsOk(steps, i)
    ensures error.Some? ==> ReferenceFault(steps, error.value)
  {
    var refs := ParseTemplates(steps[i].cmd);
    error := CheckOutputRefs(steps, index, outputs, i, refs);
    OutputRefsListed(steps, i);
  }

  /** Whatever the step names, a reference must mean an earlier step that declares the output. */
  method ValidateTemplateReferences(steps: seq<Step>) returns (error: Option<FlowError>)
    ensures error.None? <==> forall i | 0 <= i < |steps| :: StepOutputRefsOk(steps, i)
    ensures error.Some? ==> ReferenceFault(steps, error.value)
  {
    var index, outputs := IndexSteps(steps);
    for i := 0 to |steps|
      invariant forall j | 0 <= j < i :: StepOutputRefsOk(steps, j)
    {
      error := ValidateStepReferences(steps, index, outputs, i);
      if error.Some? {
        assert !StepOutputRefsOk(steps, i);
        return;
      }
    }
    return None;
  }

  method NamesOf(ds: seq<Declaration>) returns (names: set<string>)
    ensures forall n :: n in names <==> Declared(ds, n)
  {
    names := {};
    for i := 0 to |ds|
      invariant forall n :: n in names <==> exists j :: 0 <= j < i && ds[j].name == n
    {
      names := names + {ds[i].name};
    }
  }

  method CheckSecretRefs(flow: Flow, flowSecrets: set<string>, s: Step, i: nat, refs: seq<Found>)
      returns (error: Option<FlowError>)
    requires forall n :: n in flowSecrets <==> Declared(flow.secrets, n)
    requires forall k | 0 <= k < |refs| :: refs[k].ref.SecretRef?
    ensures error.None? <==> SecretRefsOk(flow, s, refs)
    ensures error.Some? ==> exists k :: 0 <= k < |refs| && error.value == SecretNotFound(i, refs[k].ref) &&
                                        !SecretRefOk(flow, s, refs[k].ref)
  {
    var stepSecrets := NamesOf(s.secrets);
    for k := 0 to |refs|
      invariant forall l | 0 <= l < k :: SecretRefOk(flow, s, refs[l].ref)
    {
      var ref := refs[k].ref;
      if ref.name !in flowSecrets && ref.name !in stepSecrets {
        return Some(SecretNotFound(i, ref));
      }
    }
    return None;
  }

  ghost predicate SecretRefFault(flow: Flow, e: FlowError) {
    && e.SecretNotFound? && 0 <= e.index < |flow.steps|
    && Refers(Secret, flow.steps[e.index].cmd, e.ref) && !SecretRefOk(flow, flow.steps[e.index], e.ref)
  }

  method ValidateStepSecrets(flow: Flow, flowSecrets: set<string>, i: nat) returns (error: Option<FlowError>)
    requires i < |flow.steps| && forall n :: n in flowSecrets <==> Declared(flow.secrets, n)
    ensures error.None? <==> StepSecretRefsOk(flow, i)
    ensures error.Some? ==> SecretRefFault(flow, error.value)
  {
    var refs := ParseSecretTemplates(flow.steps[i].cmd);
    error := CheckSecretRefs(flow, flowSecrets, flow.steps[i], i, refs);
    SecretRefsListed(flow, i);
  }

  method ValidateSecretReferences(flow: Flow) returns (error: Option<FlowError>)
    ensures error.None? <==> forall i | 0 <= i < |flow.steps| :: StepSecretRefsOk(flow, i)
    ensures error.Some? ==> SecretRefFault(flow, error.value)
  {
    var flowSecrets := NamesOf(flow.secrets);
    for i := 0 to |flow.steps|
      invariant forall j | 0 <= j < i :: StepSecretRefsOk(flow, j)
    {
      error := ValidateStepSecrets(flow, flowSecrets, i);
      if error.Some? {
        assert !StepSecretRefsOk(flow, i);
        return;
      }
    }
    return None;
  }

  /** Every error names a fault that the flow has, and no error is reported without one. */
  ghost predicate Fault(flow: Flow, e: FlowError) {
    || ToolFault(flow.tools, e) || SecretFault(flow.secrets, e) || StepFault(flow.steps, e)
    || ReferenceFault(flow.steps, e) || SecretRefFault(flow, e)
  }

  method ValidateFlow(flow: Flow) returns (error: Option<FlowError>)
    ensures error.None? <==> ValidFlow(flow)
    ensures error.Some? ==> Fault(flow, error.value)
  {
    error := ValidateTools(flow.tools);
    if error.Some? {
      return;
    }
    error := ValidateSecrets(flow.secrets);
    if error.Some? {
      return;
    }
    var hasTemplates;
    error, hasTemplates := ValidateSteps(flow.steps);
    if error.Some? {
      return;
    }
    if hasTemplates {
      error := ValidateTemplateReferences(flow.steps);
      if error.Some? {
        return;
      }
    } else {
      NoTemplatesNoFault(flow.steps);
    }
    error := ValidateSecretReferences(flow);
  }
}
