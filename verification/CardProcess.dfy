/** The module-level caches of i2v_ltx.py and preview_sdxl.py as one object, and the job bodies that
    mutate them, against the value effects of module Card. */
module CardProcess {
  import opened Common
  import opened Card

  class I2VPipe {
    const model: string
    const engine: Engine
    var offload: Option<Offload>
    var tiled: bool
    var poisoned: bool

    /** `from_pretrained`: the weights, not wired for the card yet. */
    constructor (model: string, engine: Engine)
      ensures this.model == model && this.engine == engine && View() == PipeState(model, engine, None, false, false)
    {
      this.model, this.engine := model, engine;
      offload, tiled, poisoned := None, false, false;
    }

    function View(): PipeState
      reads this
    {
      PipeState(model, engine, offload, tiled, poisoned)
    }

    /** `_apply_offload`: the first tiling hook that works, then the hook of the offload mode. */
    method ApplyOffload(mode: Offload, vaeTiling: bool, hooks: Hooks)
      modifies this`offload, this`tiled
      ensures offload == if mode in hooks.offloads then Some(mode) else old(offload)
      ensures tiled <==> old(tiled) || (vaeTiling && (hooks.pipeTiles || hooks.vaeTiles))
    {
      if vaeTiling {
        if hooks.pipeTiles {
          tiled := true;
        } else if hooks.vaeTiles {
          tiled := true;
        }
      }
      if mode in hooks.offloads {
        offload := Some(mode);
      }
    }
  }

  method LoadWired(k: PipeKey, hooks: Hooks) returns (p: I2VPipe)
    ensures fresh(p) && p.View() == FreshBuild(k, hooks)
  {
    p := new I2VPipe(k.model, k.engine);
    p.ApplyOffload(k.offload, k.vaeTiling, hooks);
  }

  class SdxlPipe {
    const model: string
    var flag: nat
    var loaded: nat

    constructor (model: string)
      ensures View() == SdxlState(model, 0, 0) && this.model == model
    {
      this.model := model;
      flag, loaded := 0, 0;
    }

    function View(): SdxlState
      reads this
    {
      SdxlState(model, flag, loaded)
    }
  }

  class Process {
    const env: Env
    var pipes: map<PipeKey, I2VPipe>
    var sdxl: SdxlPipe?
    var sdxlModel: Option<string>
    var built: nat

    ghost function View(): CardView
      reads this, pipes.Values, sdxl
    {
      CardView(map k | k in pipes :: pipes[k].View(), if sdxl == null then None else Some(sdxl.View()), built)
    }

    /** Every method starts and ends in this state, so the card is never shared in between. */
    ghost predicate Valid()
      reads this, pipes.Values, sdxl
    {
      && CardInv(View(), env)
      && sdxlModel == if sdxl == null then None else Some(sdxl.model)
    }

    constructor (env: Env)
      ensures Valid() && View() == EMPTY_CARD && this.env == env && pipes == map[] && sdxl == null
    {
      this.env := env;
      pipes, sdxl, sdxlModel, built := map[], null, None, 0;
    }

    /** `unload_preview` */
    method DropPreview()
      requires CardInv(View(), env) || pipes == map[]
      modifies this`sdxl, this`sdxlModel
      ensures Valid() && View() == UnloadPreview(old(View()))
    {
      sdxl := null;
      sdxlModel := None;
      assert View().pipes == old(View()).pipes;
    }

    /** `unload_all`, reached through `door.unload_i2v` */
    method DropI2V()
      requires Valid()
      modifies this`pipes
      ensures Valid() && View() == UnloadI2V(old(View()))
    {
      pipes := map[];
      assert View().pipes == map[];
    }

    /** `_evict_pipe`: also right when the pipeline under the key has been poisoned. */
    method EvictPipe(k: PipeKey)
      requires sdxl == null && sdxlModel == None
      requires OnlyTierKeys(View(), env)
      requires forall j :: j in View().pipes && j != k ==> IsBuild(View().pipes[j], j)
      modifies this`pipes
      ensures Valid() && pipes == old(pipes) - {k} && View() == Evict(old(View()), k)
    {
      pipes := pipes - {k};
      assert View().pipes == old(View()).pipes - {k};
    }

    /** The miss path of `_get_pipe`: load, wire, and only then cache. */
    method BuildPipe(k: PipeKey, hooks: Hooks) returns (p: I2VPipe)
      requires Valid() && sdxl == null && k !in pipes
      requires k == KeyOf(Standard, env) || k == KeyOf(Final, env)
      modifies this`pipes, this`built
      ensures Valid() && fresh(p) && pipes == old(pipes)[k := p]
      ensures View() == AddBuild(old(View()), k, hooks)
    {
      p := LoadWired(k, hooks);
      AddBuildKeeps(View(), env, k, hooks);
      CachePipe(k, p, hooks);
    }

    method CachePipe(k: PipeKey, p: I2VPipe, hooks: Hooks)
      requires p.View() == FreshBuild(k, hooks)
      modifies this`pipes, this`built
      ensures pipes == old(pipes)[k := p] && View() == AddBuild(old(View()), k, hooks)
    {
      ghost var c := View();
      pipes := pipes[k := p];
      built := built + 1;
      assert View().pipes == c.pipes[k := FreshBuild(k, hooks)];
    }

    /** `_get_pipe` of i2v_ltx.py: the cached pipeline, or a build that is cached once complete. */
    method GetPipe(k: PipeKey, buildFails: bool, hooks: Hooks) returns (p: I2VPipe?)
      requires Valid() && sdxl == null
      requires k == KeyOf(Standard, env) || k == KeyOf(Final, env)
      modifies this`pipes, this`built
      ensures Valid()
      ensures k in old(pipes) ==> p == old(pipes)[k] && pipes == old(pipes) && View() == old(View())
      ensures k !in old(pipes) && buildFails ==> p == null && pipes == old(pipes) && View() == old(View())
      ensures k !in old(pipes) && !buildFails ==> p != null && fresh(p) && pipes == old(pipes)[k := p]
      ensures k !in old(pipes) && !buildFails ==> View() == AddBuild(old(View()), k, hooks)
    {
      if k in pipes {
        return pipes[k];
      }
      if buildFails {
        return null;
      }
      p := BuildPipe(k, hooks);
    }

    /** The guarded part of `animate`: build or reuse, generate, and evict if either raised. */
    method Generate(k: PipeKey, fault: I2VFault, hooks: Hooks) returns (ok: bool)
      requires Valid() && sdxl == null
      requires k == KeyOf(Standard, env) || k == KeyOf(Final, env)
      modifies this`pipes, this`built, if k in pipes then {pipes[k]} else {}
      ensures Valid() && sdxl == null && fresh(pipes.Values - old(pipes.Values))
      ensures var c := old(View());
        if k !in c.pipes && fault == BuildFails then !ok && View() == Evict(c, k)
        else
          var warm := if k in c.pipes then c else AddBuild(c, k, hooks);
          ok == (fault != GenerateFails)
          && View() == if fault == GenerateFails then Evict(Poison(warm, k), k) else warm
    {
      var p := GetPipe(k, fault == BuildFails, hooks);
      if p == null {
        EvictPipe(k);
        return false;
      }
      if fault == GenerateFails {
        GenerateRaises(k, p);
        return false;
      }
      return true;
    }

    /** No two keys share a pipeline. */
    lemma PipesAreDistinct(k: PipeKey)
      requires Valid() && k in pipes
      ensures forall j :: j in pipes && j != k ==> pipes[j] != pipes[k]
    {
      forall j | j in pipes && j != k
        ensures pipes[j] != pipes[k]
      {
        KeysDifferByModel(View(), env, j, k);
        assert View().pipes[j].model == j.model && View().pipes[k].model == k.model;
      }
    }

    method PoisonPipe(k: PipeKey, p: I2VPipe)
      requires k in pipes && pipes[k] == p && forall j :: j in pipes && j != k ==> pipes[j] != p
      modifies p`poisoned
      ensures View() == Poison(old(View()), k)
    {
      ghost var c := View();
      p.poisoned := true;
      assert View().pipes == Poison(c, k).pipes;
    }

    /** The generate raises half-way; the pipeline is not to be trusted and is evicted. */
    method GenerateRaises(k: PipeKey, p: I2VPipe)
      requires Valid() && sdxl == null && k in pipes && pipes[k] == p
      modifies this`pipes, p`poisoned
      ensures Valid() && sdxl == null && pipes == old(pipes) - {k} && View() == Evict(Poison(old(View()), k), k)
    {
      ghost var warm := View();
      PipesAreDistinct(k);
      PoisonPipe(k, p);
      assert forall j :: j in pipes && j != k ==> View().pipes[j] == warm.pipes[j];
      EvictPipe(k);
    }

    /** The i2v job body: SDXL leaves first, whatever happens next. */
    method RunI2V(tier: Tier, fault: I2VFault, hooks: Hooks) returns (ok: bool)
      requires Valid()
      modifies this, pipes.Values
      ensures Valid() && (View(), ok) == AfterI2V(old(View()), env, tier, fault, hooks)
      ensures sdxl == null && fresh(pipes.Values - old(pipes.Values))
    {
      DropPreview();
      if fault == BadRequest || fault == FetchFails || fault == SetupFails {
        return false;
      }
      ok := Generate(KeyOf(tier, env), fault, hooks);
      if ok && (fault == ExportFails || fault == UploadFails) {
        ok := false;
      }
    }

    lemma NothingElseResident()
      requires Valid() && sdxl != null
      ensures pipes == map[]
    {
      assert View().sdxl.Some?;
      assert pipes.Keys == View().pipes.Keys;
    }

    /** `_ensure_ip_adapter` on the cached pipe; a failed change drops the pipe. */
    method EnsureIpAdapter(n: nat, fault: DrawFault) returns (ok: bool)
      requires Valid() && sdxl != null && n <= 1
      modifies this`sdxl, this`sdxlModel, sdxl
      ensures Valid() && pipes == map[]
      ensures (View(), ok) == AfterEnsureIp(old(View()), n, fault)
      ensures ok ==> sdxl == old(sdxl)
    {
      NothingElseResident();
      var p := sdxl;
      if p.flag == n {
        return true;
      }
      if p.flag != 0 {
        if fault.IpUnloadFails? {
          p.loaded := fault.left;
          DropPreview();
          return false;
        }
        p.loaded := 0;
        p.flag := 0;
      }
      if n != 0 {
        if fault.IpLoadFails? {
          p.loaded := fault.left;
          DropPreview();
          return false;
        }
        p.loaded := p.loaded + n;
        p.flag := n;
      }
      return true;
    }

    /** `_get_pipe` of preview_sdxl.py: keyed on the model alone. */
    method GetPreviewPipe(model: string, buildFails: bool) returns (p: SdxlPipe?)
      requires Valid() && pipes == map[]
      modifies this`sdxl, this`sdxlModel, this`built
      ensures Valid() && pipes == map[] && p == (if sdxlModel == Some(model) then sdxl else null)
      ensures var hit := old(sdxl != null && sdxl.model == model);
        && (hit ==> p == old(sdxl) && View() == old(View()))
        && (!hit && buildFails ==> p == null && View() == UnloadPreview(old(View())))
        && (!hit && !buildFails ==> p != null && fresh(p))
        && (!hit && !buildFails ==>
              View() == old(View()).(sdxl := Some(SdxlState(model, 0, 0)), built := old(built) + 1))
    {
      if sdxl != null && sdxlModel == Some(model) {
        return sdxl;
      }
      if sdxl != null {
        DropPreview();
      }
      if buildFails {
        return null;
      }
      p := new SdxlPipe(model);
      sdxl := p;
      sdxlModel := Some(model);
      built := built + 1;
    }

    /** The shot loop of `render_preview`. */
    method RenderShots(shots: seq<Shot>) returns (ok: bool)
      requires Valid() && sdxl != null
      modifies this`sdxl, this`sdxlModel, sdxl
      ensures Valid() && (View(), ok) == AfterShots(old(View()), shots)
      ensures pipes == old(pipes) && (sdxl == null || sdxl == old(sdxl))
    {
      assert shots[0..] == shots;
      var i := 0;
      while i < |shots|
        invariant 0 <= i <= |shots|
        invariant Valid() && sdxl != null && sdxl == old(sdxl)
        invariant AfterShots(old(View()), shots) == AfterShots(View(), shots[i..])
      {
        var shot := shots[i];
        assert shots[i..][1..] == shots[i + 1..];
        match shot {
          case CanceledBefore => return false;
          case StartImage(fails) =>
            if fails {
              return false;
            }
          case Drawn(hasRef, fault) =>
            var ready := EnsureIpAdapter(if hasRef then 1 else 0, fault);
            if !ready || fault == DrawFails || fault == StoreFails {
              return false;
            }
        }
        i := i + 1;
      }
      return true;
    }

    /** `render_preview`: i2v leaves before anything else can fail. */
    method RunPreview(model: string, shots: seq<Shot>, fault: PreviewFault) returns (ok: bool)
      requires Valid()
      modifies this, sdxl
      ensures Valid() && (View(), ok) == AfterPreview(old(View()), model, shots, fault)
      ensures (pipes == old(pipes) || pipes == map[]) && (sdxl == null || sdxl == old(sdxl) || fresh(sdxl))
    {
      if fault == BadPreview {
        return false;
      }
      DropI2V();
      if fault == BeforePipeFails {
        return false;
      }
      var p := GetPreviewPipe(model, fault == PreviewBuildFails);
      if p == null {
        return false;
      }
      if fault == LoraBindFails {
        DropPreview();
        return false;
      }
      ok := RenderShots(shots);
    }

    /** `run_train_lora`: `_unload_card` clears both sides; nothing it loads is cached. */
    method RunTrainLora(fault: TrainFault) returns (ok: bool)
      requires Valid()
      modifies this
      ensures Valid() && (View(), ok) == AfterTrain(old(View()), fault)
      ensures (pipes == old(pipes) || pipes == map[]) && (sdxl == null || sdxl == old(sdxl))
    {
      if fault == BadTrain {
        return false;
      }
      DropPreview();
      DropI2V();
      return fault == NoTrainFault;
    }

    /** `build_run_fn`: dispatch on the action. */
    method Run(job: Job) returns (ok: bool)
      requires Valid()
      modifies this, pipes.Values, sdxl
      ensures Valid() && (View(), ok) == After(old(View()), env, job)
      ensures fresh(pipes.Values - old(pipes.Values)) && (sdxl == null || sdxl == old(sdxl) || fresh(sdxl))
    {
      match job
      case I2VClip(tier, fault, hooks) => ok := RunI2V(tier, fault, hooks);
      case Preview(model, shots, fault) => ok := RunPreview(model, shots, fault);
      case TrainLora(fault) => ok := RunTrainLora(fault);
    }
  }

  /** A worker process serves jobs one after another on its own caches. */
  method ServeJobs(env: Env, jobs: seq<Job>) returns (p: Process)
    ensures fresh(p) && p.Valid() && p.View() == AfterAll(EMPTY_CARD, env, jobs)
  {
    p := new Process(env);
    assert jobs[0..] == jobs;
    var i := 0;
    while i < |jobs|
      invariant 0 <= i <= |jobs|
      invariant fresh(p) && p.Valid() && p.env == env
      invariant fresh(p.pipes.Values) && (p.sdxl == null || fresh(p.sdxl))
      invariant AfterAll(EMPTY_CARD, env, jobs) == AfterAll(p.View(), env, jobs[i..])
    {
      assert jobs[i..][1..] == jobs[i + 1..];
      var _ := p.Run(jobs[i]);
      i := i + 1;
    }
  }
}
