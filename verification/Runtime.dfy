/**
 The model runtime's lock protocol (src/localwallet/agent/runtime.py).

 Any number of threads call `load` and `generate`. One model object is built lazily under a
 re-entrant lock whose acquisition can time out; a GPU load that fails is retried once on the CPU;
 the whole generation runs under the same lock. Each step below is one shared access of the source,
 and a run is an arbitrary schedule of (thread, choice) pairs, so the theorems hold for every
 interleaving.
 */
module Runtime {
  import opened Basics

  type Tid = nat

  // ---------------------------------------------------------------- GPU offload policy

  datatype Backend = Metal | Cuda

  datatype Verdict =
    | CpuNoBackend
    | CpuDisabled
    | GpuPartial(backend: Backend, layers: int)
    | GpuAll(backend: Backend)
    | CpuLoadFailed(exception: string)

  predicate SaysGpu(v: Verdict) {
    v.GpuPartial? || v.GpuAll?
  }

  /** What the installed wheel ships: `None` without a wheel, else (metal, cuda). */
  type Backends = Option<(bool, bool)>

  function GpuOffloadDecision(override: Option<int>, backends: Backends): (r: (int, Verdict))
    ensures SaysGpu(r.1) <==> r.0 != 0
    ensures r.0 != 0 <==> backends.Some? && (backends.value.0 || backends.value.1) && override != Some(0)
    ensures SaysGpu(r.1) ==> (r.1.backend == Metal <==> backends.value.0)
    ensures r.1.GpuPartial? ==> override == Some(r.0) && r.0 == r.1.layers > 0
    ensures r.1.GpuAll? ==> r.0 == -1 && !(override.Some? && override.value > 0)
    ensures r.1.CpuDisabled? <==> backends.Some? && (backends.value.0 || backends.value.1) && override == Some(0)
    ensures !r.1.CpuLoadFailed?
  {
    if backends.None? || !(backends.value.0 || backends.value.1) then
      (0, CpuNoBackend)
    else
      var name := if backends.value.0 then Metal else Cuda;
      if override == Some(0) then
        (0, CpuDisabled)
      else if override.Some? && override.value > 0 then
        (override.value, GpuPartial(name, override.value))
      else
        (-1, GpuAll(name))
  }

  // ---------------------------------------------------------------- state

  /** A constructed model; `id` tells instances apart. */
  datatype Llama = Llama(id: nat, layers: int)

  /**
   The fields of one `ModelRuntime` and its lock. A compiled grammar is identified by the text it was
   compiled from. `builds`, `verdicts` and `observerRaised` only record what happened.
   */
  datatype Shared = Shared(
    llama: Option<Llama>,
    inferenceLine: Option<Verdict>,
    grammarClass: bool,
    grammar: Option<string>,
    grammarText: Option<string>,
    owner: Option<Tid>,
    depth: nat,
    observed: bool,
    builds: nat,
    verdicts: seq<Verdict>,
    observerRaised: bool)

  datatype Pc =
    | Idle
    | AwaitGenerateLock
    | FastRead
    | AwaitBuildLock
    | CheckAgain
    | Preflight
    | Construct(layers: int, line: Verdict)
    | ConstructOnCpu(line: Verdict)
    | SetLine(line: Verdict)
    | Announce(line: Verdict)
    | SetGrammarClass
    | LeaveEnsure(ensured: Option<Llama>)
    | CompileGrammar
    | StoreGrammarText
    | StartEvaluation
    | Evaluating
    | LeaveGenerate(completed: bool)

  datatype CallOutcome = NoCallYet | Loaded(llama: Llama) | Completed(llama: Llama, grammar: string) | Raised

  /** One construction of the model: with how many layers on the GPU, and how it ended. */
  datatype Try = Worked(layers: int) | Broke(layers: int, exception: string)

  /** One thread's variables; `loading` and `tries` only record what its last call was and constructed. */
  datatype Local = Local(
    pc: Pc, generating: bool, text: string, llama: Option<Llama>, used: Option<string>, last: CallOutcome,
    loading: bool, tries: seq<Try>)

  /** The environment's part in a step: which call starts, whether an operation works, the probe's answers. */
  datatype Choice =
    | CallLoad
    | CallGenerate(text: string)
    | Proceed
    | TimeOut
    | Fail(exception: string)
    | Offload(override: Option<int>, backends: Backends)

  datatype System = System(sh: Shared, threads: map<Tid, Local>)

  function Init(tids: set<Tid>, observed: bool): System {
    System(Shared(None, None, false, None, None, None, 0, observed, 0, [], false),
           map t | t in tids :: Local(Idle, false, "", None, None, NoCallYet, false, []))
  }

  // ---------------------------------------------------------------- the re-entrant lock

  predicate CanTake(sh: Shared, t: Tid) {
    sh.owner == None || sh.owner == Some(t)
  }

  function Take(sh: Shared, t: Tid): Shared {
    sh.(owner := Some(t), depth := sh.depth + 1)
  }

  function Release(sh: Shared): Shared {
    if sh.depth <= 1 then sh.(owner := None, depth := 0) else sh.(depth := sh.depth - 1)
  }

  // ---------------------------------------------------------------- one thread's step

  function Finish(l: Local, r: CallOutcome): Local {
    l.(pc := Idle, generating := false, llama := None, used := None, last := r)
  }

  /** Where `_ensure_llama` returns to: the rest of `generate`, or the caller of `load`. */
  function AfterEnsure(l: Local, r: Option<Llama>): Local {
    if r.None? then
      if l.generating then l.(pc := LeaveGenerate(false)) else Finish(l, Raised)
    else if l.generating then l.(pc := CompileGrammar, llama := r)
    else Finish(l, Loaded(r.value))
  }

  /** A choice that does not fit the program point leaves everything as it is. */
  function ThreadStep(sh: Shared, t: Tid, l: Local, c: Choice): (r: (Shared, Local))
    ensures r.0.observed == sh.observed
  {
    match l.pc
    case Idle =>
      if c.CallLoad? then (sh, l.(pc := FastRead, generating := false, loading := true, tries := []))
      else if c.CallGenerate? then
        (sh, l.(pc := AwaitGenerateLock, generating := true, text := c.text, loading := false, tries := []))
      else (sh, l)
    case AwaitGenerateLock =>
      if c.Proceed? && CanTake(sh, t) then (Take(sh, t), l.(pc := FastRead))
      else if c.TimeOut? && !CanTake(sh, t) then (sh, Finish(l, Raised))
      else (sh, l)
    case FastRead =>
      (sh, if sh.llama.Some? then AfterEnsure(l, sh.llama) else l.(pc := AwaitBuildLock))
    case AwaitBuildLock =>
      if c.Proceed? && CanTake(sh, t) then (Take(sh, t), l.(pc := CheckAgain))
      else if c.TimeOut? && !CanTake(sh, t) then (sh, AfterEnsure(l, None))
      else (sh, l)
    case CheckAgain =>
      (sh, l.(pc := if sh.llama.Some? then LeaveEnsure(sh.llama) else Preflight))
    case Preflight =>
      if c.Offload? then
        var (layers, line) := GpuOffloadDecision(c.override, c.backends);
        (sh, l.(pc := Construct(layers, line)))
      else if c.Fail? then (sh, l.(pc := LeaveEnsure(None)))
      else (sh, l)
    case Construct(layers, line) =>
      if c.Proceed? then
        (sh.(llama := Some(Llama(sh.builds, layers)), builds := sh.builds + 1),
         l.(pc := SetLine(line), tries := l.tries + [Worked(layers)]))
      else if c.Fail? then
        (sh, l.(pc := if layers == 0 then LeaveEnsure(None) else ConstructOnCpu(CpuLoadFailed(c.exception)),
                tries := l.tries + [Broke(layers, c.exception)]))
      else (sh, l)
    case ConstructOnCpu(line) =>
      if c.Proceed? then
        (sh.(llama := Some(Llama(sh.builds, 0)), builds := sh.builds + 1),
         l.(pc := SetLine(line), tries := l.tries + [Worked(0)]))
      else if c.Fail? then (sh, l.(pc := LeaveEnsure(None), tries := l.tries + [Broke(0, c.exception)]))
      else (sh, l)
    case SetLine(line) =>
      (sh.(inferenceLine := Some(line)), l.(pc := Announce(line)))
    case Announce(line) =>
      if !sh.observed then (sh, l.(pc := SetGrammarClass))
      else if c.Proceed? then (sh.(verdicts := sh.verdicts + [line]), l.(pc := SetGrammarClass))
      else if c.Fail? then
        (sh.(verdicts := sh.verdicts + [line], observerRaised := true), l.(pc := LeaveEnsure(None)))
      else (sh, l)
    case SetGrammarClass =>
      (sh.(grammarClass := true), l.(pc := LeaveEnsure(sh.llama)))
    case LeaveEnsure(r) =>
      (Release(sh), AfterEnsure(l, r))
    case CompileGrammar =>
      if sh.grammar.Some? && sh.grammarText == Some(l.text) then
        (sh, l.(pc := StartEvaluation, used := sh.grammar))
      else if !sh.grammarClass then (sh, l.(pc := LeaveGenerate(false)))
      else if c.Proceed? then (sh.(grammar := Some(l.text)), l.(pc := StoreGrammarText))
      else if c.Fail? then (sh, l.(pc := LeaveGenerate(false)))
      else (sh, l)
    case StoreGrammarText =>
      (sh.(grammarText := Some(l.text)), l.(pc := StartEvaluation, used := sh.grammar))
    case StartEvaluation =>
      (sh, l.(pc := Evaluating))
    case Evaluating =>
      if c.Proceed? then (sh, l.(pc := LeaveGenerate(true)))
      else if c.Fail? then (sh, l.(pc := LeaveGenerate(false)))
      else (sh, l)
    case LeaveGenerate(completed) =>
      (Release(sh),
       Finish(l, if completed && l.llama.Some? && l.used.Some? then Completed(l.llama.value, l.used.value) else Raised))
  }

  function Step(s: System, t: Tid, c: Choice): System {
    if t !in s.threads then s
    else
      var (sh, l) := ThreadStep(s.sh, t, s.threads[t], c);
      System(sh, s.threads[t := l])
  }

  function Run(s: System, schedule: seq<(Tid, Choice)>): System
    decreases |schedule|
  {
    if schedule == [] then s
    else Run(Step(s, schedule[0].0, schedule[0].1), schedule[1..])
  }

  // ---------------------------------------------------------------- the invariant

  predicate InEnsureLocked(pc: Pc) {
    pc.CheckAgain? || pc.Preflight? || pc.Construct? || pc.ConstructOnCpu? || pc.SetLine? || pc.Announce? ||
    pc.SetGrammarClass? || pc.LeaveEnsure?
  }

  /** How many times the thread holds the lock at its program point. */
  function Holds(l: Local): nat {
    (if l.generating && !l.pc.Idle? && !l.pc.AwaitGenerateLock? then 1 else 0) +
    (if InEnsureLocked(l.pc) then 1 else 0)
  }

  predicate OnlyInGenerate(pc: Pc) {
    pc.AwaitGenerateLock? || pc.CompileGrammar? || pc.StoreGrammarText? || pc.StartEvaluation? || pc.Evaluating? ||
    pc.LeaveGenerate?
  }

  /** Between the assignment of the model and the end of the build. */
  predicate Publishing(pc: Pc) {
    pc.SetLine? || pc.Announce? || pc.SetGrammarClass?
  }

  predicate Settled(sh: Shared) {
    if sh.llama.None? then
      sh.inferenceLine.None? && sh.verdicts == [] && !sh.grammarClass && !sh.observerRaised
    else
      sh.inferenceLine.Some? && (sh.grammarClass <==> !sh.observerRaised) &&
      sh.verdicts == (if sh.observed then [sh.inferenceLine.value] else [])
  }

  predicate SharedOk(sh: Shared) {
    && (sh.owner.None? <==> sh.depth == 0)
    && sh.builds == (if sh.llama.Some? then 1 else 0)
    && |sh.verdicts| <= 1
    && (sh.inferenceLine.Some? ==>
          sh.llama.Some? && (SaysGpu(sh.inferenceLine.value) <==> sh.llama.value.layers != 0))
    && (sh.grammar.Some? ==> sh.grammarClass)
    && !(sh.grammarClass && sh.observerRaised)
    && (sh.owner.None? ==> Settled(sh) && sh.grammar == sh.grammarText)
  }

  predicate OwnerOk(sh: Shared, l: Local) {
    && sh.depth == Holds(l)
    && (!Publishing(l.pc) ==> Settled(sh))
    && (!l.pc.StoreGrammarText? ==> sh.grammar == sh.grammarText)
    && (Publishing(l.pc) ==> sh.llama.Some? && !sh.grammarClass && !sh.observerRaised)
    && match l.pc
       case Preflight => sh.llama.None?
       case Construct(layers, line) => sh.llama.None? && (SaysGpu(line) <==> layers != 0)
       case ConstructOnCpu(line) => sh.llama.None? && !SaysGpu(line)
       case SetLine(line) =>
         sh.inferenceLine.None? && sh.verdicts == [] && (SaysGpu(line) <==> sh.llama.value.layers != 0)
       case Announce(line) => sh.inferenceLine == Some(line) && sh.verdicts == []
       case SetGrammarClass =>
         sh.inferenceLine.Some? && sh.verdicts == (if sh.observed then [sh.inferenceLine.value] else [])
       case LeaveEnsure(r) => r.Some? ==> sh.llama == r
       case StoreGrammarText => sh.grammar == Some(l.text)
       case StartEvaluation => l.used == Some(l.text) && sh.grammarClass
       case Evaluating => l.used == Some(l.text) && sh.grammarClass
       case LeaveGenerate(completed) => completed ==> l.used == Some(l.text) && l.llama.Some? && sh.grammarClass
       case _ => true
  }

  predicate LocalOk(sh: Shared, t: Tid, l: Local) {
    && (Holds(l) > 0 <==> sh.owner == Some(t))
    && (Holds(l) > 0 ==> OwnerOk(sh, l))
    && (l.pc.Idle? ==> !l.generating)
    && (OnlyInGenerate(l.pc) ==> l.generating)
    && (l.llama.Some? ==> sh.llama == l.llama)
    && (l.pc.CompileGrammar? || l.pc.StoreGrammarText? || l.pc.StartEvaluation? || l.pc.Evaluating? ==> l.llama.Some?)
    && (l.last.Loaded? || l.last.Completed? ==> sh.llama == Some(l.last.llama))
    && (l.last.Completed? ==> sh.grammarClass)
  }

  ghost predicate Inv(s: System) {
    && SharedOk(s.sh)
    && (s.sh.owner.Some? ==> s.sh.owner.value in s.threads)
    && forall t :: t in s.threads ==> LocalOk(s.sh, t, s.threads[t])
  }

  /** What a thread may rely on while the others move. */
  predicate Rely(sh: Shared, sh': Shared, t: Tid) {
    && (sh.owner == Some(t) ==> sh' == sh)
    && (sh'.owner == Some(t) ==> sh.owner == Some(t))
    && (sh.llama.Some? ==> sh'.llama == sh.llama)
    && (sh.grammarClass ==> sh'.grammarClass)
  }

  predicate StepOk(sh: Shared, t: Tid, l: Local, c: Choice) {
    var (sh', l') := ThreadStep(sh, t, l, c);
    SharedOk(sh') && LocalOk(sh', t, l')
  }

  lemma CallingStep(sh: Shared, t: Tid, l: Local, c: Choice)
    requires SharedOk(sh) && LocalOk(sh, t, l)
    requires l.pc.Idle? || l.pc.FastRead?
    ensures StepOk(sh, t, l, c)
  {
  }

  lemma AcquiringStep(sh: Shared, t: Tid, l: Local, c: Choice)
    requires SharedOk(sh) && LocalOk(sh, t, l)
    requires l.pc.AwaitGenerateLock? || l.pc.AwaitBuildLock?
    ensures StepOk(sh, t, l, c)
  {
  }

  lemma ChoosingStep(sh: Shared, t: Tid, l: Local, c: Choice)
    requires SharedOk(sh) && LocalOk(sh, t, l)
    requires l.pc.CheckAgain? || l.pc.Preflight?
    ensures StepOk(sh, t, l, c)
  {
  }

  lemma ConstructingStep(sh: Shared, t: Tid, l: Local, c: Choice)
    requires SharedOk(sh) && LocalOk(sh, t, l)
    requires l.pc.Construct? || l.pc.ConstructOnCpu?
    ensures StepOk(sh, t, l, c)
  {
  }

  lemma StoringStep(sh: Shared, t: Tid, l: Local, c: Choice)
    requires SharedOk(sh) && LocalOk(sh, t, l)
    requires l.pc.SetLine? || l.pc.SetGrammarClass?
    ensures StepOk(sh, t, l, c)
  {
  }

  lemma AnnouncingStep(sh: Shared, t: Tid, l: Local, c: Choice)
    requires SharedOk(sh) && LocalOk(sh, t, l)
    requires l.pc.Announce?
    ensures StepOk(sh, t, l, c)
  {
  }

  lemma LeavingEnsureStep(sh: Shared, t: Tid, l: Local, c: Choice)
    requires SharedOk(sh) && LocalOk(sh, t, l)
    requires l.pc.LeaveEnsure?
    ensures StepOk(sh, t, l, c)
  {
  }

  lemma CompilingStep(sh: Shared, t: Tid, l: Local, c: Choice)
    requires SharedOk(sh) && LocalOk(sh, t, l)
    requires l.pc.CompileGrammar? || l.pc.StoreGrammarText?
    ensures StepOk(sh, t, l, c)
  {
  }

  lemma EvaluatingStep(sh: Shared, t: Tid, l: Local, c: Choice)
    requires SharedOk(sh) && LocalOk(sh, t, l)
    requires l.pc.StartEvaluation? || l.pc.Evaluating? || l.pc.LeaveGenerate?
    ensures StepOk(sh, t, l, c)
  {
  }

  lemma OwnStepKeepsInvariant(sh: Shared, t: Tid, l: Local, c: Choice)
    requires SharedOk(sh) && LocalOk(sh, t, l)
    ensures StepOk(sh, t, l, c)
  {
    match l.pc
    case Idle => CallingStep(sh, t, l, c);
    case FastRead => CallingStep(sh, t, l, c);
    case AwaitGenerateLock => AcquiringStep(sh, t, l, c);
    case AwaitBuildLock => AcquiringStep(sh, t, l, c);
    case CheckAgain => ChoosingStep(sh, t, l, c);
    case Preflight => ChoosingStep(sh, t, l, c);
    case Construct(_, _) => ConstructingStep(sh, t, l, c);
    case ConstructOnCpu(_) => ConstructingStep(sh, t, l, c);
    case SetLine(_) => StoringStep(sh, t, l, c);
    case SetGrammarClass => StoringStep(sh, t, l, c);
    case Announce(_) => AnnouncingStep(sh, t, l, c);
    case LeaveEnsure(_) => LeavingEnsureStep(sh, t, l, c);
    case CompileGrammar => CompilingStep(sh, t, l, c);
    case StoreGrammarText => CompilingStep(sh, t, l, c);
    case _ => EvaluatingStep(sh, t, l, c);
  }

  /** The lock passes to nobody but the stepping thread, and a holder's fields are moved by the holder alone. */
  lemma StepKeepsLock(sh: Shared, t: Tid, l: Local, c: Choice, u: Tid)
    requires SharedOk(sh) && LocalOk(sh, t, l) && u != t
    ensures var sh' := ThreadStep(sh, t, l, c).0;
            (sh.owner == Some(u) ==> sh' == sh) && (sh'.owner == Some(u) ==> sh.owner == Some(u))
  {
  }

  lemma OwnStepIsReliable(sh: Shared, t: Tid, l: Local, c: Choice, u: Tid)
    requires SharedOk(sh) && LocalOk(sh, t, l) && u != t
    ensures Rely(sh, ThreadStep(sh, t, l, c).0, u)
  {
    StepKeepsLock(sh, t, l, c, u);
    StepKeepsPast(sh, t, l, c);
  }

  lemma OthersKeepLocal(sh: Shared, sh': Shared, u: Tid, l: Local)
    requires LocalOk(sh, u, l) && Rely(sh, sh', u)
    ensures LocalOk(sh', u, l)
  {
  }

  lemma StepKeepsInvariant(s: System, t: Tid, c: Choice)
    requires Inv(s)
    ensures Inv(Step(s, t, c))
    ensures s.sh.llama.Some? ==> Step(s, t, c).sh.llama == s.sh.llama
    ensures s.sh.verdicts <= Step(s, t, c).sh.verdicts
  {
    if t in s.threads {
      OwnStepKeepsInvariant(s.sh, t, s.threads[t], c);
      StepKeepsPast(s.sh, t, s.threads[t], c);
      StepPassesLockToItself(s.sh, t, s.threads[t], c);
      var s' := Step(s, t, c);
      forall u | u in s'.threads
        ensures LocalOk(s'.sh, u, s'.threads[u])
      {
        if u != t {
          OwnStepIsReliable(s.sh, t, s.threads[t], c, u);
          OthersKeepLocal(s.sh, s'.sh, u, s.threads[u]);
        }
      }
    }
  }

  /** The model and the grammar class stay, and verdicts only grow. */
  lemma StepKeepsPast(sh: Shared, t: Tid, l: Local, c: Choice)
    requires SharedOk(sh) && LocalOk(sh, t, l)
    ensures var sh' := ThreadStep(sh, t, l, c).0;
            && (sh.llama.Some? ==> sh'.llama == sh.llama)
            && (sh.grammarClass ==> sh'.grammarClass)
            && sh.verdicts <= sh'.verdicts
  {
  }

  lemma StepPassesLockToItself(sh: Shared, t: Tid, l: Local, c: Choice)
    ensures var sh' := ThreadStep(sh, t, l, c).0;
            sh'.owner == sh.owner || sh'.owner == Some(t) || sh'.owner == None
  {
  }

  // ---------------------------------------------------------------- theorems over every schedule

  lemma {:induction false} RunKeepsInvariant(s: System, schedule: seq<(Tid, Choice)>)
    requires Inv(s)
    ensures Inv(Run(s, schedule))
    ensures s.sh.llama.Some? ==> Run(s, schedule).sh.llama == s.sh.llama
    ensures s.sh.verdicts <= Run(s, schedule).sh.verdicts
    decreases |schedule|
  {
    if schedule == [] {
    } else {
      StepKeepsInvariant(s, schedule[0].0, schedule[0].1);
      RunKeepsInvariant(Step(s, schedule[0].0, schedule[0].1), schedule[1..]);
    }
  }

  function After(tids: set<Tid>, observed: bool, schedule: seq<(Tid, Choice)>): System {
    Run(Init(tids, observed), schedule)
  }

  lemma Reachable(tids: set<Tid>, observed: bool, schedule: seq<(Tid, Choice)>)
    ensures Inv(After(tids, observed, schedule))
  {
    RunKeepsInvariant(Init(tids, observed), schedule);
  }

  lemma {:induction false} RunSplit(s: System, before: seq<(Tid, Choice)>, more: seq<(Tid, Choice)>)
    ensures Run(s, before + more) == Run(Run(s, before), more)
    decreases |before|
  {
    if before == [] {
      assert before + more == more;
    } else {
      assert (before + more)[1..] == before[1..] + more;
      RunSplit(Step(s, before[0].0, before[0].1), before[1..], more);
    }
  }

  /** The model is assigned at most once: whatever instance exists now is the one that exists ever after. */
  lemma ModelBuiltOnce(tids: set<Tid>, observed: bool, before: seq<(Tid, Choice)>, more: seq<(Tid, Choice)>)
    ensures var early, late := After(tids, observed, before).sh, After(tids, observed, before + more).sh;
            late.builds <= 1 && |late.verdicts| <= 1 &&
            (early.llama.Some? ==> late.llama == early.llama) && early.verdicts <= late.verdicts
  {
    Reachable(tids, observed, before);
    RunSplit(Init(tids, observed), before, more);
    RunKeepsInvariant(After(tids, observed, before), more);
  }

  /** Whoever got a model, through `load` or through a completion, got the one kept instance. */
  lemma EveryCallerGetsTheSameModel(tids: set<Tid>, observed: bool, schedule: seq<(Tid, Choice)>, t: Tid, u: Tid)
    requires t in After(tids, observed, schedule).threads && u in After(tids, observed, schedule).threads
    ensures var s := After(tids, observed, schedule);
            var a, b := s.threads[t].last, s.threads[u].last;
            (a.Loaded? || a.Completed? ==> s.sh.llama == Some(a.llama)) &&
            ((a.Loaded? || a.Completed?) && (b.Loaded? || b.Completed?) ==> a.llama == b.llama)
  {
    Reachable(tids, observed, schedule);
  }

  /** Two evaluations never overlap, and each one decodes under the grammar its own caller asked for. */
  lemma EvaluationIsExclusive(tids: set<Tid>, observed: bool, schedule: seq<(Tid, Choice)>, t: Tid)
    requires t in After(tids, observed, schedule).threads
    requires After(tids, observed, schedule).threads[t].pc.Evaluating?
    ensures var s := After(tids, observed, schedule);
            && s.threads[t].used == Some(s.threads[t].text)
            && s.sh.llama.Some? && s.threads[t].llama == s.sh.llama
            && forall u :: u in s.threads && u != t ==>
                 !s.threads[u].pc.Evaluating? && !s.threads[u].pc.Construct? && !s.threads[u].pc.ConstructOnCpu?
  {
    Reachable(tids, observed, schedule);
    var s := After(tids, observed, schedule);
    assert LocalOk(s.sh, t, s.threads[t]);
    forall u | u in s.threads && u != t
      ensures !s.threads[u].pc.Evaluating? && !s.threads[u].pc.Construct? && !s.threads[u].pc.ConstructOnCpu?
    {
      assert LocalOk(s.sh, u, s.threads[u]);
    }
  }

  /** A thread that is outside a call holds nothing; once every thread is, the lock is entirely free. */
  lemma LockFullyReleased(tids: set<Tid>, observed: bool, schedule: seq<(Tid, Choice)>)
    ensures var s := After(tids, observed, schedule);
            && (forall t :: t in s.threads && s.threads[t].pc.Idle? ==> s.sh.owner != Some(t))
            && ((forall t :: t in s.threads ==> s.threads[t].pc.Idle?) ==> s.sh.owner == None && s.sh.depth == 0)
  {
    Reachable(tids, observed, schedule);
    var s := After(tids, observed, schedule);
    forall t | t in s.threads && s.threads[t].pc.Idle?
      ensures s.sh.owner != Some(t)
    {
      assert LocalOk(s.sh, t, s.threads[t]);
    }
  }

  /** The verdict line is honest, and whatever was announced is that line. */
  lemma VerdictIsHonest(tids: set<Tid>, observed: bool, schedule: seq<(Tid, Choice)>)
    ensures var sh := After(tids, observed, schedule).sh;
            && (sh.inferenceLine.Some? ==>
                  sh.llama.Some? && (SaysGpu(sh.inferenceLine.value) <==> sh.llama.value.layers != 0))
            && (sh.verdicts != [] ==> sh.observed && sh.inferenceLine.Some? && sh.verdicts == [sh.inferenceLine.value])
            && (sh.owner.None? && sh.llama.Some? && sh.observed ==> |sh.verdicts| == 1)
  {
    Reachable(tids, observed, schedule);
    var s := After(tids, observed, schedule);
    if s.sh.owner.Some? {
      assert LocalOk(s.sh, s.sh.owner.value, s.threads[s.sh.owner.value]);
    }
    RunFixesObserver(Init(tids, observed), schedule);
  }

  lemma StepFixesObserver(s: System, t: Tid, choice: Choice)
    ensures var after := Step(s, t, choice);
            after.sh.observed == s.sh.observed && after.threads.Keys == s.threads.Keys
  {
  }

  lemma {:induction false} RunFixesObserver(s: System, schedule: seq<(Tid, Choice)>)
    ensures Run(s, schedule).sh.observed == s.sh.observed
    ensures Run(s, schedule).threads.Keys == s.threads.Keys
    decreases |schedule|
  {
    if schedule == [] {
    } else {
      var next := Step(s, schedule[0].0, schedule[0].1);
      StepFixesObserver(s, schedule[0].0, schedule[0].1);
      RunFixesObserver(next, schedule[1..]);
    }
  }

  /** Exactly when a model is visible without its verdict line: while its builder is about to store the line. */
  lemma LineMissingExactlyWhileStoring(tids: set<Tid>, observed: bool, schedule: seq<(Tid, Choice)>)
    ensures var s := After(tids, observed, schedule);
            s.sh.llama.Some? && s.sh.inferenceLine.None? <==>
            exists t :: t in s.threads && s.threads[t].pc.SetLine?
  {
    Reachable(tids, observed, schedule);
    var s := After(tids, observed, schedule);
    if s.sh.owner.Some? {
      assert LocalOk(s.sh, s.sh.owner.value, s.threads[s.sh.owner.value]);
    }
    forall t | t in s.threads && s.threads[t].pc.SetLine?
      ensures s.sh.llama.Some? && s.sh.inferenceLine.None?
    {
      assert LocalOk(s.sh, t, s.threads[t]);
    }
  }

  const BUILD_UNTIL_ASSIGNED: seq<(Tid, Choice)> :=
    [(1, CallLoad), (1, Proceed), (1, Proceed), (1, Proceed), (1, Offload(None, None)), (1, Proceed)]

  lemma RunStep(s: System, a: seq<(Tid, Choice)>, i: nat)
    requires i < |a|
    ensures Run(s, a[i..]) == Run(Step(s, a[i].0, a[i].1), a[i + 1..])
  {
    assert a[i..][1..] == a[i + 1..];
  }

  /** Such a moment is reachable. */
  lemma LineCanBeMissing()
    ensures var s := After({1, 2}, true, BUILD_UNTIL_ASSIGNED);
            && s.threads.Keys == {1, 2} && s.threads[2].pc.Idle?
            && s.sh.llama.Some? && s.sh.inferenceLine.None? && s.sh.observed && !s.sh.grammarClass
            && s.threads[1].pc == SetLine(CpuNoBackend) && !s.threads[1].generating
            && s.sh.owner == Some(1) && s.sh.depth == 1
  {
    var s := Init({1, 2}, true);
    var a := BUILD_UNTIL_ASSIGNED;
    assert a[0..] == a;
    RunStep(s, a, 0);
    var s1 := Step(s, 1, CallLoad);
    RunStep(s1, a, 1);
    var s2 := Step(s1, 1, Proceed);
    RunStep(s2, a, 2);
    var s3 := Step(s2, 1, Proceed);
    RunStep(s3, a, 3);
    var s4 := Step(s3, 1, Proceed);
    assert s4.threads[1].pc == Preflight;
    RunStep(s4, a, 4);
    var s5 := Step(s4, 1, Offload(None, None));
    RunStep(s5, a, 5);
    assert a[6..] == [];
  }

  /** At every such moment a `load` by an idle thread returns at once through the unlocked fast path. */
  lemma LoadReturnsBeforeLine(s: System, u: Tid)
    requires Inv(s) && u in s.threads && s.threads[u].pc.Idle?
    requires s.sh.llama.Some? && s.sh.inferenceLine.None?
    ensures var s' := Step(Step(s, u, CallLoad), u, Proceed);
            s'.threads[u].pc.Idle? && s'.threads[u].last == Loaded(s.sh.llama.value) && s'.sh.inferenceLine.None?
  {
  }

  /**
   The source takes for granted that the grammar class is set together with the model. It is, at every moment
   the lock is free, exactly when the verdict observer never raised.
   */
  lemma GrammarClassFollowsModelUnlessObserverRaised(tids: set<Tid>, observed: bool, schedule: seq<(Tid, Choice)>)
    ensures var sh := After(tids, observed, schedule).sh;
            sh.owner.None? && sh.llama.Some? ==> (sh.grammarClass <==> !sh.observerRaised)
  {
    Reachable(tids, observed, schedule);
  }

  const RAISE_ON_VERDICT: seq<(Tid, Choice)> := [(1, Proceed), (1, Fail("observer")), (1, Proceed)]

  /** The builder's own three steps, from its store on. */
  lemma ObserverRaises(sh: Shared, l: Local)
    requires l.pc == SetLine(CpuNoBackend) && !l.generating && sh.owner == Some(1) && sh.depth == 1 && sh.observed
    ensures var (sh1, l1) := ThreadStep(sh, 1, l, Proceed);
            var (sh2, l2) := ThreadStep(sh1, 1, l1, Fail("observer"));
            var (sh3, l3) := ThreadStep(sh2, 1, l2, Proceed);
            && l3.last == Raised && sh3.observerRaised && sh3.owner.None?
            && sh3.llama == sh.llama && sh3.grammarClass == sh.grammarClass
  {
    var (sh1, l1) := ThreadStep(sh, 1, l, Proceed);
    assert l1.pc == Announce(CpuNoBackend);
    var (sh2, l2) := ThreadStep(sh1, 1, l1, Fail("observer"));
    assert l2.pc == LeaveEnsure(None);
  }

  lemma RunOfThree(s: System, a: seq<(Tid, Choice)>)
    requires |a| == 3
    ensures Run(s, a) == Step(Step(Step(s, a[0].0, a[0].1), a[1].0, a[1].1), a[2].0, a[2].1)
  {
    assert a[0..] == a && a[3..] == [];
    RunStep(s, a, 0);
    RunStep(Step(s, a[0].0, a[0].1), a, 1);
    RunStep(Step(Step(s, a[0].0, a[0].1), a[1].0, a[1].1), a, 2);
  }

  /** From such a builder's store, an observer that raises leaves the lock free and the class unset. */
  lemma RaisingLeavesClassUnset(s: System)
    requires 1 in s.threads && s.threads[1].pc == SetLine(CpuNoBackend) && !s.threads[1].generating
    requires s.sh.owner == Some(1) && s.sh.depth == 1
    requires s.sh.observed && s.sh.llama.Some? && !s.sh.grammarClass
    ensures var s' := Run(s, RAISE_ON_VERDICT);
            && s'.threads.Keys == s.threads.Keys && s'.threads[1].last == Raised
            && s'.sh.owner.None? && s'.sh.llama == s.sh.llama && s'.sh.observerRaised && !s'.sh.grammarClass
  {
    RunOfThree(s, RAISE_ON_VERDICT);
    ObserverRaises(s.sh, s.threads[1]);
  }

  /** The observer can raise: a run that ends with the lock free and a model kept, but without the grammar class. */
  lemma ClassCanBeMissing()
    ensures var s := After({1, 2}, true, BUILD_UNTIL_ASSIGNED + RAISE_ON_VERDICT);
            && s.sh.owner.None? && s.sh.llama.Some? && s.sh.observerRaised && !s.sh.grammarClass
            && s.threads.Keys == {1, 2} && s.threads[1].last == Raised
  {
    LineCanBeMissing();
    RunSplit(Init({1, 2}, true), BUILD_UNTIL_ASSIGNED, RAISE_ON_VERDICT);
    RaisingLeavesClassUnset(After({1, 2}, true, BUILD_UNTIL_ASSIGNED));
  }

  /** And once the observer has raised, no thread ever completes a generation: the class stays unset for good. */
  lemma NoCompletionAfterObserverRaised(tids: set<Tid>, observed: bool, schedule: seq<(Tid, Choice)>)
    ensures var s := After(tids, observed, schedule);
            s.sh.observerRaised ==> s.sh.grammar.None? && forall t :: t in s.threads ==> !s.threads[t].last.Completed?
  {
    Reachable(tids, observed, schedule);
    var s := After(tids, observed, schedule);
    forall t | t in s.threads && s.sh.observerRaised
      ensures !s.threads[t].last.Completed?
    {
      assert LocalOk(s.sh, t, s.threads[t]);
    }
  }

  /** No schedule wedges the lock: while some thread is inside a call, some thread can move. */
  lemma NoDeadlock(tids: set<Tid>, observed: bool, schedule: seq<(Tid, Choice)>, t: Tid)
    requires t in After(tids, observed, schedule).threads
    requires !After(tids, observed, schedule).threads[t].pc.Idle?
    ensures var s := After(tids, observed, schedule);
            exists u, c :: u in s.threads && Step(s, u, c) != s
  {
    Reachable(tids, observed, schedule);
    var s := After(tids, observed, schedule);
    var u := if s.sh.owner.Some? then s.sh.owner.value else t;
    var l := s.threads[u];
    assert LocalOk(s.sh, u, l);
    var c := if l.pc.Preflight? then Fail("") else Proceed;
    var (sh', l') := ThreadStep(s.sh, u, l, c);
    assert l'.pc != l.pc;
    assert Step(s, u, c).threads[u] == l';
  }
}
