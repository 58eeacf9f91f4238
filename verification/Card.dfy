/** Who holds the consumer card: the process-wide pipeline caches of i2v_ltx.py and preview_sdxl.py
    under any sequence of i2v, preview and training jobs, each failing wherever it may. */
module Card {
  import opened Common

  datatype Engine = BaseI2V | Condition
  datatype Offload = Resident | ModelOffload | SequentialOffload

  const LTX_BASE := "Lightricks/LTX-Video"
  const LTX_13B_DISTILLED := "Lightricks/LTX-Video-0.9.8-13B-distilled"

  /** The i2v cache identity. */
  datatype PipeKey = PipeKey(model: string, engine: Engine, offload: Offload, vaeTiling: bool)

  /** What stays the same in one process: the operator's offload override. */
  datatype Env = Env(override: Option<Offload>)

  /** Which wiring hooks work during one build. A hook that is absent or raises is skipped. */
  datatype Hooks = Hooks(pipeTiles: bool, vaeTiles: bool, offloads: set<Offload>)

  /** The key of a tier under the operator's offload override. */
  function KeyOf(t: Tier, env: Env): PipeKey {
    match t
    case Final => PipeKey(LTX_13B_DISTILLED, Condition, OffloadOr(env.override, SequentialOffload), true)
    case Draft => PipeKey(LTX_BASE, BaseI2V, OffloadOr(env.override, ModelOffload), true)
    case Standard => PipeKey(LTX_BASE, BaseI2V, OffloadOr(env.override, ModelOffload), true)
  }

  function OffloadOr(override: Option<Offload>, base: Offload): Offload {
    if override.Some? then override.value else base
  }

  /** A resident i2v pipeline: what was loaded, how it was wired, and whether a failed generate has
      left it in an unknown state. */
  datatype PipeState = PipeState(
    model: string, engine: Engine, offload: Option<Offload>, tiled: bool, poisoned: bool)

  function FreshBuild(k: PipeKey, hooks: Hooks): PipeState {
    PipeState(k.model, k.engine,
              if k.offload in hooks.offloads then Some(k.offload) else None,
              k.vaeTiling && (hooks.pipeTiles || hooks.vaeTiles),
              false)
  }

  /** Some build for this key gives this pipeline. */
  ghost predicate IsBuild(p: PipeState, k: PipeKey) {
    exists hooks :: p == FreshBuild(k, hooks)
  }

  /** A resident SDXL pipeline: its own idea of the loaded IP-Adapters, and the truth. */
  datatype SdxlState = SdxlState(model: string, flag: nat, loaded: nat)

  datatype CardView = CardView(
    pipes: map<PipeKey, PipeState>,
    sdxl: Option<SdxlState>,
    built: nat)                       // how many pipelines were ever loaded

  const EMPTY_CARD := CardView(map[], None, 0)

  datatype I2VFault =
    | NoFault | BadRequest | FetchFails | SetupFails | BuildFails | GenerateFails | ExportFails | UploadFails

  datatype PreviewFault = NoPreviewFault | BadPreview | BeforePipeFails | PreviewBuildFails | LoraBindFails

  datatype TrainFault = NoTrainFault | BadTrain | TrainFails

  /** `left` is what is really loaded after a half-done IP-Adapter change. */
  datatype DrawFault = DrawOk | IpUnloadFails(left: nat) | IpLoadFails(left: nat) | DrawFails | StoreFails

  datatype Shot =
    | CanceledBefore
    | StartImage(fails: bool)
    | Drawn(hasRef: bool, fault: DrawFault)

  datatype Job =
    | I2VClip(tier: Tier, fault: I2VFault, hooks: Hooks)
    | Preview(model: string, shots: seq<Shot>, previewFault: PreviewFault)
    | TrainLora(trainFault: TrainFault)

  function UnloadPreview(c: CardView): CardView {
    c.(sdxl := None)
  }

  function UnloadI2V(c: CardView): CardView {
    c.(pipes := map[])
  }

  function Evict(c: CardView, k: PipeKey): CardView {
    c.(pipes := c.pipes - {k})
  }

  /** A generate that raises leaves the pipeline in an unknown state. */
  function Poison(c: CardView, k: PipeKey): CardView
    requires k in c.pipes
  {
    c.(pipes := c.pipes[k := c.pipes[k].(poisoned := true)])
  }

  function AddBuild(c: CardView, k: PipeKey, hooks: Hooks): CardView {
    c.(pipes := c.pipes[k := FreshBuild(k, hooks)], built := c.built + 1)
  }

  /** The i2v job. The flag says whether it succeeded. */
  function AfterI2V(c: CardView, env: Env, tier: Tier, fault: I2VFault, hooks: Hooks): (CardView, bool) {
    var free := UnloadPreview(c);
    if fault == BadRequest || fault == FetchFails || fault == SetupFails then (free, false)
    else
      var k := KeyOf(tier, env);
      if k !in free.pipes && fault == BuildFails then (Evict(free, k), false)
      else
        var warm := if k in free.pipes then free else AddBuild(free, k, hooks);
        if fault == GenerateFails then (Evict(Poison(warm, k), k), false)
        else (warm, fault != ExportFails && fault != UploadFails)
  }

  /** `_ensure_ip_adapter`: bring the cached pipe to exactly `n` encoders, or drop it and fail. */
  function AfterEnsureIp(c: CardView, n: nat, fault: DrawFault): (CardView, bool)
    requires c.sdxl.Some?
  {
    var p := c.sdxl.value;
    if p.flag == n then (c, true)
    else if p.flag != 0 && fault.IpUnloadFails? then
      (UnloadPreview(c.(sdxl := Some(p.(loaded := fault.left)))), false)
    else
      var bare := p.(flag := 0, loaded := if p.flag != 0 then 0 else p.loaded);
      if n == 0 then (c.(sdxl := Some(bare)), true)
      else if fault.IpLoadFails? then (UnloadPreview(c.(sdxl := Some(bare.(loaded := fault.left)))), false)
      else (c.(sdxl := Some(bare.(flag := n, loaded := bare.loaded + n))), true)
  }

  function AfterShots(c: CardView, shots: seq<Shot>): (CardView, bool)
    requires c.sdxl.Some?
    decreases |shots|
  {
    if shots == [] then (c, true)
    else match shots[0]
      case CanceledBefore => (c, false)
      case StartImage(fails) => if fails then (c, false) else AfterShots(c, shots[1..])
      case Drawn(hasRef, fault) =>
        var (d, ok) := AfterEnsureIp(c, if hasRef then 1 else 0, fault);
        if !ok || fault == DrawFails || fault == StoreFails then (d, false)
        else AfterShots(d, shots[1..])
  }

  /** A pipe for this model: the resident one, or a fresh one without adapters. */
  function ClaimSdxl(c: CardView, model: string): CardView {
    if c.sdxl.Some? && c.sdxl.value.model == model then c
    else c.(sdxl := Some(SdxlState(model, 0, 0)), built := c.built + 1)
  }

  function AfterPreview(c: CardView, model: string, shots: seq<Shot>, fault: PreviewFault): (CardView, bool) {
    if fault == BadPreview then (c, false)
    else
      var free := UnloadI2V(c);
      if fault == BeforePipeFails then (free, false)
      else
        var hit := free.sdxl.Some? && free.sdxl.value.model == model;
        if !hit && fault == PreviewBuildFails then (UnloadPreview(free), false)
        else
          var warm := ClaimSdxl(free, model);
          if fault == LoraBindFails then (UnloadPreview(warm), false)
          else AfterShots(warm, shots)
  }

  /** The training job: both sides leave the card before anything else can fail. */
  function AfterTrain(c: CardView, fault: TrainFault): (CardView, bool) {
    if fault == BadTrain then (c, false) else (UnloadI2V(UnloadPreview(c)), fault == NoTrainFault)
  }

  /** The three run functions, as effects on the card. */
  function After(c: CardView, env: Env, job: Job): (CardView, bool) {
    match job
    case I2VClip(tier, fault, hooks) => AfterI2V(c, env, tier, fault, hooks)
    case Preview(model, shots, fault) => AfterPreview(c, model, shots, fault)
    case TrainLora(fault) => AfterTrain(c, fault)
  }

  function AfterAll(c: CardView, env: Env, jobs: seq<Job>): CardView
    decreases |jobs|
  {
    if jobs == [] then c else AfterAll(After(c, env, jobs[0]).0, env, jobs[1..])
  }

  // --- tenancy and coherence ------------------------------------------------------------------------------

  predicate Exclusive(c: CardView) {
    c.pipes == map[] || c.sdxl == None
  }

  ghost predicate Coherent(c: CardView) {
    && (forall k :: k in c.pipes ==> IsBuild(c.pipes[k], k))
    && (c.sdxl.Some? ==> c.sdxl.value.flag == c.sdxl.value.loaded <= 1)
  }

  ghost predicate OnlyTierKeys(c: CardView, env: Env) {
    forall k :: k in c.pipes ==> k == KeyOf(Standard, env) || k == KeyOf(Final, env)
  }

  ghost predicate CardInv(c: CardView, env: Env) {
    Exclusive(c) && Coherent(c) && OnlyTierKeys(c, env)
  }

  lemma AddBuildKeeps(c: CardView, env: Env, k: PipeKey, hooks: Hooks)
    requires CardInv(c, env) && c.sdxl == None
    requires k == KeyOf(Standard, env) || k == KeyOf(Final, env)
    ensures CardInv(AddBuild(c, k, hooks), env)
  {
    assert IsBuild(FreshBuild(k, hooks), k);
  }

  lemma ClipKeeps(c: CardView, env: Env, tier: Tier, fault: I2VFault, hooks: Hooks)
    requires CardInv(c, env)
    ensures CardInv(AfterI2V(c, env, tier, fault, hooks).0, env)
  {
    var free, k := UnloadPreview(c), KeyOf(tier, env);
    AddBuildKeeps(free, env, k, hooks);
  }

  lemma {:induction false} ShotsKeep(c: CardView, env: Env, shots: seq<Shot>)
    requires CardInv(c, env) && c.sdxl.Some?
    ensures CardInv(AfterShots(c, shots).0, env)
    ensures AfterShots(c, shots).0.pipes == map[]
    decreases |shots|
  {
    if shots != [] {
      match shots[0]
      case CanceledBefore =>
      case StartImage(fails) =>
        if !fails {
          ShotsKeep(c, env, shots[1..]);
        }
      case Drawn(hasRef, fault) =>
        var (d, ok) := AfterEnsureIp(c, if hasRef then 1 else 0, fault);
        if ok {
          ShotsKeep(d, env, shots[1..]);
        }
    }
  }

  lemma JobKeeps(c: CardView, env: Env, job: Job)
    requires CardInv(c, env)
    ensures CardInv(After(c, env, job).0, env)
  {
    match job
    case I2VClip(tier, fault, hooks) => ClipKeeps(c, env, tier, fault, hooks);
    case Preview(model, shots, fault) => PreviewKeeps(c, env, model, shots, fault);
    case TrainLora(_) =>
  }

  lemma PreviewKeeps(c: CardView, env: Env, model: string, shots: seq<Shot>, fault: PreviewFault)
    requires CardInv(c, env)
    ensures CardInv(AfterPreview(c, model, shots, fault).0, env)
  {
    ShotsKeep(ClaimSdxl(UnloadI2V(c), model), env, shots);
  }

  lemma {:induction false} JobsKeep(c: CardView, env: Env, jobs: seq<Job>)
    requires CardInv(c, env)
    ensures CardInv(AfterAll(c, env, jobs), env)
    decreases |jobs|
  {
    if jobs != [] {
      JobKeeps(c, env, jobs[0]);
      JobsKeep(After(c, env, jobs[0]).0, env, jobs[1..]);
    }
  }

  /** Over every sequence of jobs and faults from a fresh process: SDXL and i2v are never both resident,
      every cached i2v pipeline is what some build for its key gives (its model and engine, wired as the key says
      or not at all, never after a failed generate), the IP-Adapter flag tells the truth, and at most two i2v
      pipelines are resident. */
  lemma CardTenancy(env: Env, jobs: seq<Job>)
    ensures var c := AfterAll(EMPTY_CARD, env, jobs);
      && Exclusive(c) && Coherent(c) && |c.pipes| <= 2
      && forall k :: k in c.pipes ==> IsOfKey(c.pipes[k], k)
  {
    var c := AfterAll(EMPTY_CARD, env, jobs);
    JobsKeep(EMPTY_CARD, env, jobs);
    BothOrFewer(c, env);
    forall k | k in c.pipes
      ensures IsOfKey(c.pipes[k], k)
    {
      assert IsBuild(c.pipes[k], k);
    }
  }

  predicate IsOfKey(p: PipeState, k: PipeKey) {
    && p.model == k.model && p.engine == k.engine && !p.poisoned
    && (p.offload.Some? ==> p.offload.value == k.offload)
    && (p.tiled ==> k.vaeTiling)
  }

  /** The three tiers: draft and standard share the base model and so one pipeline, final has its own engine; an
      operator override replaces every tier's offload mode. */
  lemma KeysOfTiers(env: Env)
    ensures KeyOf(Draft, env) == KeyOf(Standard, env)
    ensures KeyOf(Standard, env).model == "Lightricks/LTX-Video" && KeyOf(Standard, env).engine == BaseI2V
    ensures KeyOf(Final, env).model == "Lightricks/LTX-Video-0.9.8-13B-distilled"
    ensures KeyOf(Final, env).engine == Condition
    ensures forall t :: KeyOf(t, env).vaeTiling && (env.override.Some? ==> KeyOf(t, env).offload == env.override.value)
    ensures env.override.None? ==>
      KeyOf(Standard, env).offload == ModelOffload && KeyOf(Final, env).offload == SequentialOffload
  {
  }

  /** Every hook that the clip's key calls for works. */
  predicate WiresFully(job: Job, env: Env) {
    job.I2VClip? ==>
      KeyOf(job.tier, env).offload in job.hooks.offloads && (job.hooks.pipeTiles || job.hooks.vaeTiles)
  }

  predicate FullyWired(c: CardView) {
    forall k :: k in c.pipes ==> c.pipes[k].offload == Some(k.offload) && (c.pipes[k].tiled <==> k.vaeTiling)
  }

  /** Where the hooks work, every pipeline that is ever cached has the offload mode and the tiling of its key. */
  lemma {:induction false} CachedPipesAreWired(c: CardView, env: Env, jobs: seq<Job>)
    requires FullyWired(c) && forall j :: j in jobs ==> WiresFully(j, env)
    ensures FullyWired(AfterAll(c, env, jobs))
    decreases |jobs|
  {
    if jobs != [] {
      assert WiresFully(jobs[0], env);
      if jobs[0].Preview? {
        PreviewPipes(c, jobs[0].model, jobs[0].shots, jobs[0].previewFault);
      }
      CachedPipesAreWired(After(c, env, jobs[0]).0, env, jobs[1..]);
    }
  }

  // --- which pipelines stay resident ---------------------------------------------------------------------------

  /** The clip gets past build and generate, so its pipeline is cached when it ends. */
  predicate Loads(job: Job, env: Env, k: PipeKey) {
    job.I2VClip? && KeyOf(job.tier, env) == k
    && (job.fault == NoFault || job.fault == ExportFails || job.fault == UploadFails)
  }

  /** A preview or training job that got past its request check, or a failed generate under this very key. */
  predicate Drops(job: Job, env: Env, k: PipeKey) {
    match job
    case I2VClip(tier, fault, _) => KeyOf(tier, env) == k && fault == GenerateFails
    case Preview(_, _, fault) => fault != BadPreview
    case TrainLora(fault) => fault != BadTrain
  }

  predicate KeptFrom(jobs: seq<Job>, i: nat, env: Env, k: PipeKey) {
    forall j :: i <= j < |jobs| ==> !Drops(jobs[j], env, k)
  }

  /** Some clip loaded the key and no later job dropped it; or it was there from the start and never dropped. */
  ghost predicate Warm(start: bool, jobs: seq<Job>, env: Env, k: PipeKey) {
    || (start && KeptFrom(jobs, 0, env, k))
    || exists i :: 0 <= i < |jobs| && Loads(jobs[i], env, k) && KeptFrom(jobs, i, env, k)
  }

  lemma ResidentStep(c: CardView, env: Env, job: Job, k: PipeKey)
    ensures k in After(c, env, job).0.pipes <==> Loads(job, env, k) || (k in c.pipes && !Drops(job, env, k))
  {
    if job.Preview? {
      PreviewPipes(c, job.model, job.shots, job.previewFault);
    }
  }

  lemma PreviewPipes(c: CardView, model: string, shots: seq<Shot>, fault: PreviewFault)
    ensures AfterPreview(c, model, shots, fault).0.pipes == if fault == BadPreview then c.pipes else map[]
  {
    ShotPipes(ClaimSdxl(UnloadI2V(c), model), shots);
  }

  lemma {:induction false} ShotPipes(c: CardView, shots: seq<Shot>)
    requires c.sdxl.Some?
    ensures AfterShots(c, shots).0.pipes == c.pipes
    decreases |shots|
  {
    if shots != [] {
      match shots[0]
      case CanceledBefore =>
      case StartImage(fails) =>
        if !fails {
          ShotPipes(c, shots[1..]);
        }
      case Drawn(hasRef, fault) =>
        var (d, ok) := AfterEnsureIp(c, if hasRef then 1 else 0, fault);
        if ok {
          ShotPipes(d, shots[1..]);
        }
    }
  }

  lemma KeptFromFirst(jobs: seq<Job>, i: nat, env: Env, k: PipeKey)
    requires jobs != []
    ensures KeptFrom(jobs, 0, env, k) <==> !Drops(jobs[0], env, k) && KeptFrom(jobs[1..], 0, env, k)
    ensures KeptFrom(jobs, i + 1, env, k) <==> KeptFrom(jobs[1..], i, env, k)
  {
    if KeptFrom(jobs[1..], i, env, k) {
      assert forall j :: i + 1 <= j < |jobs| ==> jobs[j] == jobs[1..][j - 1];
    }
    if KeptFrom(jobs[1..], 0, env, k) {
      assert forall j :: 1 <= j < |jobs| ==> jobs[j] == jobs[1..][j - 1];
    }
    assert forall j :: 0 <= j < |jobs[1..]| ==> jobs[1..][j] == jobs[j + 1];
  }

  lemma WarmFirst(start: bool, jobs: seq<Job>, env: Env, k: PipeKey)
    requires jobs != []
    ensures Warm(start, jobs, env, k) <==>
      Warm(Loads(jobs[0], env, k) || (start && !Drops(jobs[0], env, k)), jobs[1..], env, k)
  {
    var rest, next := jobs[1..], Loads(jobs[0], env, k) || (start && !Drops(jobs[0], env, k));
    KeptFromFirst(jobs, 0, env, k);
    if i :| 0 <= i < |jobs| && Loads(jobs[i], env, k) && KeptFrom(jobs, i, env, k) {
      if i > 0 {
        KeptFromFirst(jobs, i - 1, env, k);
        assert Loads(rest[i - 1], env, k) && KeptFrom(rest, i - 1, env, k);
      }
    }
    if i :| 0 <= i < |rest| && Loads(rest[i], env, k) && KeptFrom(rest, i, env, k) {
      KeptFromFirst(jobs, i, env, k);
      assert Loads(jobs[i + 1], env, k) && KeptFrom(jobs, i + 1, env, k);
    }
    if Loads(jobs[0], env, k) && KeptFrom(rest, 0, env, k) {
      assert Loads(jobs[0], env, k) && KeptFrom(jobs, 0, env, k);
    }
  }

  /** After any jobs, a pipeline is resident exactly when some clip loaded it and nothing dropped it since
      (or it was resident before and nothing dropped it). */
  lemma {:induction false} ResidentIff(c: CardView, env: Env, jobs: seq<Job>, k: PipeKey)
    ensures k in AfterAll(c, env, jobs).pipes <==> Warm(k in c.pipes, jobs, env, k)
    decreases |jobs|
  {
    if jobs != [] {
      var d := After(c, env, jobs[0]).0;
      ResidentStep(c, env, jobs[0], k);
      ResidentIff(d, env, jobs[1..], k);
      WarmFirst(k in c.pipes, jobs, env, k);
    }
  }

  lemma ModelsDiffer(env: Env)
    ensures KeyOf(Standard, env).model != KeyOf(Final, env).model
  {
    assert |LTX_BASE| != |LTX_13B_DISTILLED|;
  }

  lemma KeysDifferByModel(c: CardView, env: Env, j: PipeKey, k: PipeKey)
    requires OnlyTierKeys(c, env) && j in c.pipes && k in c.pipes && j != k
    ensures j.model != k.model
  {
    ModelsDiffer(env);
  }

  lemma BothOrFewer(c: CardView, env: Env)
    requires OnlyTierKeys(c, env)
    ensures |c.pipes| == 2 <==> KeyOf(Standard, env) in c.pipes && KeyOf(Final, env) in c.pipes
    ensures |c.pipes| <= 2
  {
    ModelsDiffer(env);
    SubsetOfPair(c.pipes.Keys, KeyOf(Standard, env), KeyOf(Final, env));
    assert |c.pipes| == |c.pipes.Keys|;
  }

  lemma SubsetOfPair<T>(a: set<T>, x: T, y: T)
    requires x != y && forall z :: z in a ==> z == x || z == y
    ensures |a| == 2 <==> x in a && y in a
    ensures |a| <= 2
  {
    if x in a && y in a {
      assert a == {x, y};
    } else if x in a {
      assert a == {x};
    } else if y in a {
      assert a == {y};
    }
  }

  /** Exactly when two i2v pipelines share the card: a draft or standard clip and a final clip have both
      loaded theirs, and since then neither was dropped. Otherwise at most one is resident. */
  lemma TwoResidentIff(env: Env, jobs: seq<Job>)
    ensures var n := |AfterAll(EMPTY_CARD, env, jobs).pipes|;
      && (n == 2 <==> Warm(false, jobs, env, KeyOf(Standard, env)) && Warm(false, jobs, env, KeyOf(Final, env)))
      && (n != 2 ==> n <= 1)
  {
    JobsKeep(EMPTY_CARD, env, jobs);
    BothOrFewer(AfterAll(EMPTY_CARD, env, jobs), env);
    ResidentIff(EMPTY_CARD, env, jobs, KeyOf(Standard, env));
    ResidentIff(EMPTY_CARD, env, jobs, KeyOf(Final, env));
  }

  /** The same for one clip: it leaves two pipelines behind exactly when the other key's is there and its own
      is either loaded now, or was there and is not reached. */
  lemma ClipLeavesTwoIff(c: CardView, env: Env, tier: Tier, other: Tier, fault: I2VFault, hooks: Hooks)
    requires CardInv(c, env) && KeyOf(tier, env) != KeyOf(other, env)
    ensures |After(c, env, I2VClip(tier, fault, hooks)).0.pipes| == 2 <==>
      && KeyOf(other, env) in c.pipes
      && (Loads(I2VClip(tier, fault, hooks), env, KeyOf(tier, env)) ||
          (KeyOf(tier, env) in c.pipes && fault != GenerateFails))
  {
    var clip := I2VClip(tier, fault, hooks);
    JobKeeps(c, env, clip);
    BothOrFewer(After(c, env, clip).0, env);
    ResidentStep(c, env, clip, KeyOf(tier, env));
    ResidentStep(c, env, clip, KeyOf(other, env));
  }

  /** The least case: a standard clip followed by a final clip. */
  lemma TwoTiersStayResident(env: Env, hooks: Hooks)
    ensures |AfterAll(EMPTY_CARD, env, [I2VClip(Standard, NoFault, hooks), I2VClip(Final, NoFault, hooks)]).pipes| == 2
  {
    var jobs := [I2VClip(Standard, NoFault, hooks), I2VClip(Final, NoFault, hooks)];
    ModelsDiffer(env);
    assert Loads(jobs[0], env, KeyOf(Standard, env)) && KeptFrom(jobs, 0, env, KeyOf(Standard, env));
    assert Loads(jobs[1], env, KeyOf(Final, env)) && KeptFrom(jobs, 1, env, KeyOf(Final, env));
    TwoResidentIff(env, jobs);
  }

  lemma {:induction false} AfterAllConcat(c: CardView, env: Env, a: seq<Job>, b: seq<Job>)
    ensures AfterAll(c, env, a + b) == AfterAll(AfterAll(c, env, a), env, b)
    decreases |a|
  {
    if a == [] {
      assert a + b == b;
    } else {
      assert (a + b)[1..] == a[1..] + b;
      AfterAllConcat(After(c, env, a[0]).0, env, a[1..], b);
    }
  }

  /** A failed generate wipes the slate for its key: whatever came before, what is resident under it later
      is decided by the later jobs alone, as in a fresh process. */
  lemma FailedGenerateIsEvicted(c: CardView, env: Env, before: seq<Job>, tier: Tier, hooks: Hooks, later: seq<Job>)
    ensures var k := KeyOf(tier, env);
      k in AfterAll(c, env, before + [I2VClip(tier, GenerateFails, hooks)] + later).pipes <==>
      k in AfterAll(EMPTY_CARD, env, later).pipes
  {
    var k, jobs := KeyOf(tier, env), before + [I2VClip(tier, GenerateFails, hooks)];
    AfterAllConcat(c, env, jobs, later);
    var d := AfterAll(c, env, jobs);
    assert k !in d.pipes by {
      ResidentIff(c, env, jobs, k);
      assert Drops(jobs[|before|], env, k);
    }
    ResidentIff(d, env, later, k);
    ResidentIff(EMPTY_CARD, env, later, k);
  }

  lemma {:induction false} WarmIsUntouched(c: CardView, env: Env, jobs: seq<Job>, k: PipeKey)
    requires k in c.pipes && KeptFrom(jobs, 0, env, k)
    ensures k in AfterAll(c, env, jobs).pipes && AfterAll(c, env, jobs).pipes[k] == c.pipes[k]
    decreases |jobs|
  {
    if jobs != [] {
      KeptFromFirst(jobs, 0, env, k);
      ResidentStep(c, env, jobs[0], k);
      if jobs[0].Preview? {
        PreviewPipes(c, jobs[0].model, jobs[0].shots, jobs[0].previewFault);
      }
      WarmIsUntouched(After(c, env, jobs[0]).0, env, jobs[1..], k);
    }
  }

  /** A clip after any jobs. It loads weights exactly when it gets as far as a complete build and its key is
      not warm; with a warm key a build cannot fail. When it succeeds, its pipeline is the warm one untouched, or
      a fresh build. */
  lemma ClipAfterAnyJobs(env: Env, jobs: seq<Job>, tier: Tier, fault: I2VFault, hooks: Hooks)
    ensures var c, k := AfterAll(EMPTY_CARD, env, jobs), KeyOf(tier, env);
      var (d, ok) := After(c, env, I2VClip(tier, fault, hooks));
      var warm := Warm(false, jobs, env, k);
      var reached := fault != BadRequest && fault != FetchFails && fault != SetupFails;
      && d.built == c.built + (if reached && fault != BuildFails && !warm then 1 else 0)
      && (ok <==> fault == NoFault || (fault == BuildFails && warm))
      && d.sdxl == None
      && (ok ==> k in d.pipes && (warm ==> k in c.pipes && d.pipes[k] == c.pipes[k]))
      && (ok && !warm ==>
            (var p := d.pipes[k];
             && p.model == k.model && p.engine == k.engine && !p.poisoned
             && p.offload == (if k.offload in hooks.offloads then Some(k.offload) else None)
             && (p.tiled <==> k.vaeTiling && (hooks.pipeTiles || hooks.vaeTiles))))
  {
    JobsKeep(EMPTY_CARD, env, jobs);
    ResidentIff(EMPTY_CARD, env, jobs, KeyOf(tier, env));
  }

  // --- what a job's success means -----------------------------------------------------------------------------

  /** How many IP-Adapters the pipe needs after these shots: as many as the last drawn one used. */
  function FlagAfter(flag: nat, shots: seq<Shot>): nat {
    if shots == [] then flag
    else
      match shots[|shots| - 1]
      case Drawn(hasRef, _) => if hasRef then 1 else 0
      case StartImage(_) => FlagAfter(flag, shots[..|shots| - 1])
      case CanceledBefore => FlagAfter(flag, shots[..|shots| - 1])
  }

  /** The faults that stop a shot: an IP-Adapter fault only where the adapter has to change. */
  predicate GoesThrough(flag: nat, shot: Shot) {
    match shot
    case CanceledBefore => false
    case StartImage(fails) => !fails
    case Drawn(hasRef, fault) =>
      && fault != DrawFails && fault != StoreFails
      && (fault.IpUnloadFails? && flag == 1 ==> hasRef)
      && (fault.IpLoadFails? && hasRef ==> flag == 1)
  }

  predicate AllGoThrough(flag: nat, shots: seq<Shot>) {
    forall i :: 0 <= i < |shots| ==> GoesThrough(FlagAfter(flag, shots[..i]), shots[i])
  }

  lemma {:induction false} FlagAfterFirst(flag: nat, shots: seq<Shot>)
    requires shots != []
    ensures FlagAfter(flag, shots) == FlagAfter(FlagAfter(flag, [shots[0]]), shots[1..])
    decreases |shots|
  {
    if |shots| > 1 {
      var front := shots[..|shots| - 1];
      assert front[1..] == shots[1..][..|shots| - 2];
      FlagAfterFirst(flag, front);
    } else {
      assert shots == [shots[0]];
    }
  }

  lemma FirstThenRest(flag: nat, shots: seq<Shot>)
    requires shots != []
    ensures AllGoThrough(flag, shots) <==>
      GoesThrough(flag, shots[0]) && AllGoThrough(FlagAfter(flag, [shots[0]]), shots[1..])
  {
    var rest, next := shots[1..], FlagAfter(flag, [shots[0]]);
    forall i | 0 <= i < |rest|
      ensures FlagAfter(flag, shots[..i + 1]) == FlagAfter(next, rest[..i])
    {
      assert shots[..i + 1][1..] == rest[..i];
      FlagAfterFirst(flag, shots[..i + 1]);
    }
    assert shots[..0] == [];
    if AllGoThrough(flag, shots) {
      assert forall i :: 0 <= i < |rest| ==> rest[i] == shots[i + 1];
    }
    if GoesThrough(flag, shots[0]) && AllGoThrough(next, rest) {
      assert forall i :: 0 < i < |shots| ==> shots[i] == rest[i - 1];
    }
  }

  lemma OneShot(c: CardView, hasRef: bool, fault: DrawFault)
    requires c.sdxl.Some? && c.sdxl.value.flag <= 1
    ensures var (d, ok) := AfterEnsureIp(c, if hasRef then 1 else 0, fault);
      && (GoesThrough(c.sdxl.value.flag, Drawn(hasRef, fault)) <==> ok && fault != DrawFails && fault != StoreFails)
      && (ok ==> d.sdxl.Some? && d.sdxl.value.model == c.sdxl.value.model)
      && (ok ==> d.sdxl.value.flag == FlagAfter(c.sdxl.value.flag, [Drawn(hasRef, fault)]) <= 1)
  {
  }

  lemma {:induction false} ShotsSucceedIff(c: CardView, shots: seq<Shot>)
    requires c.sdxl.Some? && c.sdxl.value.flag <= 1
    ensures var (d, ok) := AfterShots(c, shots);
      && (ok <==> AllGoThrough(c.sdxl.value.flag, shots))
      && (ok ==> d.sdxl.Some? && d.sdxl.value.model == c.sdxl.value.model)
      && (ok ==> d.sdxl.value.flag == FlagAfter(c.sdxl.value.flag, shots))
    decreases |shots|
  {
    if shots != [] {
      var flag := c.sdxl.value.flag;
      FirstThenRest(flag, shots);
      FlagAfterFirst(flag, shots);
      match shots[0]
      case CanceledBefore =>
      case StartImage(fails) =>
        assert [shots[0]][..0] == [];
        if !fails {
          ShotsSucceedIff(c, shots[1..]);
        }
      case Drawn(hasRef, fault) =>
        OneShot(c, hasRef, fault);
        var (d, ok) := AfterEnsureIp(c, if hasRef then 1 else 0, fault);
        if ok {
          ShotsSucceedIff(d, shots[1..]);
        }
    }
  }

  /** The flag a preview starts from: that of the resident pipe if it is for the same model. */
  function StartFlag(c: CardView, model: string): nat {
    if c.sdxl.Some? && c.sdxl.value.model == model then c.sdxl.value.flag else 0
  }

  /** A preview succeeds exactly when nothing stands in its way, and then owns the card with a pipe for
      its model whose adapters are those of its last drawn shot. */
  lemma PreviewSucceedsIff(c: CardView, env: Env, model: string, shots: seq<Shot>, fault: PreviewFault)
    requires CardInv(c, env)
    ensures var (d, ok) := AfterPreview(c, model, shots, fault);
      && (ok <==>
            && (fault == NoPreviewFault ||
                (fault == PreviewBuildFails && c.sdxl.Some? && c.sdxl.value.model == model))
            && AllGoThrough(StartFlag(c, model), shots))
      && (ok ==> var n := FlagAfter(StartFlag(c, model), shots);
            d.pipes == map[] && d.sdxl == Some(SdxlState(model, n, n)))
  {
    var warm := ClaimSdxl(UnloadI2V(c), model);
    assert warm.sdxl.value.flag == StartFlag(c, model);
    ShotsSucceedIff(warm, shots);
    if AfterPreview(c, model, shots, fault).1 {
      DrawnPipe(warm, env, model, shots);
    }
  }

  lemma DrawnPipe(c: CardView, env: Env, model: string, shots: seq<Shot>)
    requires CardInv(c, env) && c.sdxl.Some? && c.sdxl.value.model == model
    requires AfterShots(c, shots).1
    ensures var d, n := AfterShots(c, shots).0, FlagAfter(c.sdxl.value.flag, shots);
      d.pipes == map[] && d.sdxl == Some(SdxlState(model, n, n))
  {
    ShotsSucceedIff(c, shots);
    ShotsKeep(c, env, shots);
  }
}
