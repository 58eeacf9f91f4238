/** When the SDXL pipe is on the card: the other side of module Card's account of the i2v pipelines. */
module SdxlResidency {
  import opened Common
  import opened Card

  /** The adapter has to change for this shot, and that fails. */
  predicate AdapterFault(flag: nat, shot: Shot) {
    shot.Drawn? &&
    ((shot.fault.IpUnloadFails? && flag == 1 && !shot.hasRef) || (shot.fault.IpLoadFails? && flag == 0 && shot.hasRef))
  }

  /** The first shot that does not go through stops at its adapter, which costs the whole pipe. */
  ghost predicate LosesPipe(flag: nat, shots: seq<Shot>) {
    exists i :: 0 <= i < |shots| && LosesPipeAt(flag, shots, i)
  }

  predicate LosesPipeAt(flag: nat, shots: seq<Shot>, i: nat)
    requires i < |shots|
  {
    AdapterFault(FlagAfter(flag, shots[..i]), shots[i]) && AllGoThrough(flag, shots[..i])
  }

  lemma LosesPipeLater(flag: nat, shots: seq<Shot>, i: nat)
    requires i + 1 < |shots|
    ensures LosesPipeAt(flag, shots, i + 1) <==>
      GoesThrough(flag, shots[0]) && LosesPipeAt(FlagAfter(flag, [shots[0]]), shots[1..], i)
  {
    var front := shots[..i + 1];
    assert front[1..] == shots[1..][..i] && front[0] == shots[0];
    FlagAfterFirst(flag, front);
    FirstThenRest(flag, front);
  }

  lemma LosesPipeFirst(flag: nat, shots: seq<Shot>)
    requires shots != []
    ensures LosesPipe(flag, shots) <==>
      AdapterFault(flag, shots[0]) ||
      (GoesThrough(flag, shots[0]) && LosesPipe(FlagAfter(flag, [shots[0]]), shots[1..]))
  {
    var next, rest := FlagAfter(flag, [shots[0]]), shots[1..];
    assert shots[..0] == [];
    assert LosesPipeAt(flag, shots, 0) <==> AdapterFault(flag, shots[0]);
    if i :| 0 <= i < |shots| && LosesPipeAt(flag, shots, i) {
      if i > 0 {
        LosesPipeLater(flag, shots, i - 1);
        assert LosesPipeAt(next, rest, i - 1);
      }
    }
    if GoesThrough(flag, shots[0]) {
      if i :| 0 <= i < |rest| && LosesPipeAt(next, rest, i) {
        LosesPipeLater(flag, shots, i);
        assert LosesPipeAt(flag, shots, i + 1);
      }
    }
  }

  lemma AdapterStep(c: CardView, hasRef: bool, fault: DrawFault)
    requires c.sdxl.Some? && c.sdxl.value.flag <= 1
    ensures var (d, ok) := AfterEnsureIp(c, if hasRef then 1 else 0, fault);
      && (ok <==> !AdapterFault(c.sdxl.value.flag, Drawn(hasRef, fault)))
      && (!ok ==> d.sdxl == None)
      && (ok ==> d.sdxl.Some? && d.sdxl.value.model == c.sdxl.value.model)
      && (ok ==> d.sdxl.value.flag == FlagAfter(c.sdxl.value.flag, [Drawn(hasRef, fault)]) <= 1)
      && (fault == DrawFails || fault == StoreFails ==> !GoesThrough(c.sdxl.value.flag, Drawn(hasRef, fault)))
      && (ok && fault != DrawFails && fault != StoreFails ==> GoesThrough(c.sdxl.value.flag, Drawn(hasRef, fault)))
  {
  }

  lemma {:induction false} ShotsLeaveIff(c: CardView, shots: seq<Shot>)
    requires c.sdxl.Some? && c.sdxl.value.flag <= 1
    ensures var d := AfterShots(c, shots).0;
      && (d.sdxl == None <==> LosesPipe(c.sdxl.value.flag, shots))
      && (d.sdxl.Some? ==> d.sdxl.value.model == c.sdxl.value.model)
      && d.built == c.built
    decreases |shots|
  {
    if shots != [] {
      var flag := c.sdxl.value.flag;
      LosesPipeFirst(flag, shots);
      match shots[0]
      case CanceledBefore =>
      case StartImage(fails) =>
        assert [shots[0]][..0] == [];
        if !fails {
          ShotsLeaveIff(c, shots[1..]);
        }
      case Drawn(hasRef, fault) =>
        AdapterStep(c, hasRef, fault);
        var (d, ok) := AfterEnsureIp(c, if hasRef then 1 else 0, fault);
        if ok && fault != DrawFails && fault != StoreFails {
          ShotsLeaveIff(d, shots[1..]);
        }
    }
  }

  predicate HoldsSdxl(c: CardView, model: string) {
    c.sdxl.Some? && c.sdxl.value.model == model
  }

  /** A preview for this model that gets its pipe (a resident one cannot fail to build), binds its adapters and
      does not lose the pipe over an IP-Adapter. */
  ghost predicate Claims(before: CardView, job: Job, model: string) {
    && job.Preview? && job.model == model
    && (job.previewFault == NoPreviewFault || (job.previewFault == PreviewBuildFails && HoldsSdxl(before, model)))
    && !LosesPipe(StartFlag(before, model), job.shots)
  }

  /** A preview that fails before it asks for a pipe, or a training job that fails its request check. */
  predicate Spares(job: Job) {
    match job
    case I2VClip(_, _, _) => false
    case Preview(_, _, fault) => fault == BadPreview || fault == BeforePipeFails
    case TrainLora(fault) => fault == BadTrain
  }

  /** Every training job that gets past its request check finds and leaves an empty card, whatever happens to it
      later; one that does not touches nothing. It loads nothing that stays. */
  lemma TrainingEmptiesTheCard(c: CardView, env: Env, fault: TrainFault)
    ensures var (d, ok) := After(c, env, TrainLora(fault));
      && (fault != BadTrain ==> d.sdxl == None && d.pipes == map[])
      && (fault == BadTrain ==> d == c)
      && d.built == c.built && (ok <==> fault == NoTrainFault)
  {
  }

  lemma PreviewSdxl(c: CardView, env: Env, model: string, shots: seq<Shot>, fault: PreviewFault)
    requires CardInv(c, env)
    ensures var job, d := Preview(model, shots, fault), AfterPreview(c, model, shots, fault).0;
      forall m :: HoldsSdxl(d, m) <==> Claims(c, job, m) || (HoldsSdxl(c, m) && Spares(job))
  {
    var warm := ClaimSdxl(UnloadI2V(c), model);
    assert warm.sdxl.value.flag == StartFlag(c, model) <= 1;
    ShotsLeaveIff(warm, shots);
  }

  lemma SdxlStep(c: CardView, env: Env, job: Job, m: string)
    requires CardInv(c, env)
    ensures HoldsSdxl(After(c, env, job).0, m) <==> Claims(c, job, m) || (HoldsSdxl(c, m) && Spares(job))
  {
    match job
    case I2VClip(_, _, _) =>
    case Preview(model, shots, fault) => PreviewSdxl(c, env, model, shots, fault);
    case TrainLora(_) =>
  }

  /** The `i`-th job, met by the card as the jobs before it left it, claims the pipe, and all later jobs spare it. */
  ghost predicate ClaimedAt(env: Env, jobs: seq<Job>, m: string, i: nat)
    requires i < |jobs|
  {
    Claims(AfterAll(EMPTY_CARD, env, jobs[..i]), jobs[i], m) && forall j :: i < j < |jobs| ==> Spares(jobs[j])
  }

  lemma AfterOneMore(env: Env, jobs: seq<Job>)
    requires jobs != []
    ensures AfterAll(EMPTY_CARD, env, jobs)
         == After(AfterAll(EMPTY_CARD, env, jobs[..|jobs| - 1]), env, jobs[|jobs| - 1]).0
  {
    var n := |jobs| - 1;
    var d := AfterAll(EMPTY_CARD, env, jobs[..n]);
    assert jobs == jobs[..n] + [jobs[n]];
    AfterAllConcat(EMPTY_CARD, env, jobs[..n], [jobs[n]]);
    assert [jobs[n]][1..] == [];
    assert AfterAll(d, env, [jobs[n]]) == After(d, env, jobs[n]).0;
  }

  /** After any jobs the SDXL pipe for a model is resident exactly when some preview claimed it and every later job
      spared it. */
  lemma {:induction false} SdxlResidentIff(env: Env, jobs: seq<Job>, m: string)
    ensures HoldsSdxl(AfterAll(EMPTY_CARD, env, jobs), m) <==>
      exists i :: 0 <= i < |jobs| && ClaimedAt(env, jobs, m, i)
    decreases |jobs|
  {
    if jobs != [] {
      var n := |jobs| - 1;
      var front := jobs[..n];
      AfterOneMore(env, jobs);
      JobsKeep(EMPTY_CARD, env, front);
      SdxlStep(AfterAll(EMPTY_CARD, env, front), env, jobs[n], m);
      SdxlResidentIff(env, front, m);
      ClaimsMoveOn(env, jobs, m);
    }
  }

  lemma ClaimsMoveOn(env: Env, jobs: seq<Job>, m: string)
    requires jobs != []
    ensures var n := |jobs| - 1;
      (exists i :: 0 <= i < |jobs| && ClaimedAt(env, jobs, m, i)) <==>
        || Claims(AfterAll(EMPTY_CARD, env, jobs[..n]), jobs[n], m)
        || (Spares(jobs[n]) && exists i :: 0 <= i < n && ClaimedAt(env, jobs[..n], m, i))
  {
    var n := |jobs| - 1;
    var front := jobs[..n];
    forall i | 0 <= i < n
      ensures ClaimedAt(env, jobs, m, i) <==> ClaimedAt(env, front, m, i) && Spares(jobs[n])
    {
      ClaimMovesOn(env, jobs, m, i);
    }
    if Claims(AfterAll(EMPTY_CARD, env, front), jobs[n], m) {
      assert ClaimedAt(env, jobs, m, n);
    }
  }

  lemma ClaimMovesOn(env: Env, jobs: seq<Job>, m: string, i: nat)
    requires i + 1 < |jobs|
    ensures ClaimedAt(env, jobs, m, i) <==>
      ClaimedAt(env, jobs[..|jobs| - 1], m, i) && Spares(jobs[|jobs| - 1])
  {
    var front := jobs[..|jobs| - 1];
    assert front[..i] == jobs[..i] && front[i] == jobs[i];
    assert forall j :: 0 <= j < |front| ==> front[j] == jobs[j];
  }

  /** A preview loads weights exactly when it gets as far as a complete build and its model is not resident. */
  lemma PreviewLoadsIff(c: CardView, env: Env, model: string, shots: seq<Shot>, fault: PreviewFault)
    requires CardInv(c, env)
    ensures var d := After(c, env, Preview(model, shots, fault)).0;
      d.built == c.built +
        (if (fault == NoPreviewFault || fault == LoraBindFails) && !HoldsSdxl(c, model) then 1 else 0)
  {
    var warm := ClaimSdxl(UnloadI2V(c), model);
    assert warm.sdxl.value.flag == StartFlag(c, model) <= 1;
    ShotsLeaveIff(warm, shots);
  }
}
