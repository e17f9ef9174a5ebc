/**
 * Publishing a backup: N workers confirm blobs on the registry, each confirmation is checkpointed,
 * and only a complete, error-free run publishes the manifests and moves the tag.
 * The client may crash anywhere and be started again; other clients use the registry meanwhile.
 */
module PushProtocol {
  import opened Common

  type Digest = string

  /**
   * `manifests` are the platform manifests in publication order; `index` is the one the tag names. `named` says that
   * the registry gives the digest of what it holds when asked for the tag.
   */
  datatype Job = Job(tasks: seq<Digest>, manifests: seq<Digest>, index: Digest, workers: nat, store: bool, verify: bool, named: bool)

  datatype Registry = Registry(blobs: set<Digest>, manifests: set<Digest>, tag: Option<Digest>)

  datatype Worker =
    | Idle
    | Taken(blob: Digest)
    | Uploading(blob: Digest)
    | Confirmed(blob: Digest)
    | Saving(blob: Digest, snapshot: set<Digest>)
    | Exited

  datatype Phase = Working | Publishing(next: nat) | Verifying | Finishing | Succeeded | Failed | Crashed

  /** `saves` is the history of the checkpoint file since it last did not exist. */
  datatype State = State(
    phase: Phase,
    fed: nat, queue: seq<Digest>, closed: bool,
    workers: seq<Worker>,
    cancelled: bool, errored: bool,
    done: set<Digest>, lock: Option<nat>,
    checkpoint: Option<set<Digest>>, saves: seq<set<Digest>>,
    reg: Registry)

  datatype Answer = Present | Missing | Refused

  datatype Step =
    | FeedSkip | FeedSend | FeedEnd | FeedCancelled
    | Take(w: nat) | Leave(w: nat) | SkipDone(w: nat) | Head(w: nat, answer: Answer)
    | Upload(w: nat, ok: bool, stored: bool) | Mark(w: nat) | Save(w: nat, ok: bool)
    | Cancel | Join
    | Publish(ok: bool, applied: bool) | Verify(ok: bool) | Finish(removed: bool)
    | Crash | Resume(loads: bool)
    | OthersStore(blobs: set<Digest>, manifests: set<Digest>) | OthersTag(digest: Digest)

  // ---------- The steps ----------

  /** The worker gives up: it cancels the run and reports its error. */
  function Error(s: State, w: nat): State
    requires w < |s.workers|
  {
    s.(workers := s.workers[w := Exited], cancelled := true, errored := true)
  }

  predicate Enabled(j: Job, s: State, step: Step) {
    match step
    case FeedSkip => s.phase.Working? && !s.closed && s.fed < |j.tasks| && j.tasks[s.fed] in s.done
    case FeedSend => s.phase.Working? && !s.closed && s.fed < |j.tasks| && |s.queue| < j.workers
    case FeedEnd => s.phase.Working? && !s.closed && s.fed == |j.tasks|
    case FeedCancelled => s.phase.Working? && !s.closed && s.cancelled
    case Take(w) => s.phase.Working? && w < |s.workers| && s.workers[w].Idle? && s.queue != []
    case Leave(w) => s.phase.Working? && w < |s.workers| && s.workers[w].Idle? && s.queue == [] && s.closed
    case SkipDone(w) => s.phase.Working? && w < |s.workers| && s.workers[w].Taken? && s.workers[w].blob in s.done
    case Head(w, answer) =>
      && s.phase.Working? && w < |s.workers| && s.workers[w].Taken?
      && (answer.Present? ==> s.workers[w].blob in s.reg.blobs)
    case Upload(w, ok, stored) =>
      s.phase.Working? && w < |s.workers| && s.workers[w].Uploading? && (ok ==> stored)
    case Mark(w) => s.phase.Working? && w < |s.workers| && s.workers[w].Confirmed? && s.lock.None?
    case Save(w, ok) => s.phase.Working? && w < |s.workers| && s.workers[w].Saving? && (!ok ==> j.store)
    case Cancel => s.phase.Working? || s.phase.Publishing? || s.phase.Verifying?
    case Join => s.phase.Working? && forall w :: 0 <= w < |s.workers| ==> s.workers[w].Exited?
    case Publish(ok, applied) => s.phase.Publishing? && (ok ==> applied)
    case Verify(ok) =>
      s.phase.Verifying? && (if ok then !j.verify || (Complete(j, s.reg) && TagAnswers(j, s.reg)) else j.verify)
    case Finish(_) => s.phase.Finishing?
    case Crash => !s.phase.Crashed?
    case Resume(_) => s.phase.Crashed? || s.phase.Failed? || s.phase.Succeeded?
    case OthersStore(_, _) => true
    case OthersTag(d) => d != j.index
  }

  /** Everything the new index refers to is on the registry. */
  predicate Complete(j: Job, reg: Registry) {
    && (forall i :: 0 <= i < |j.tasks| ==> j.tasks[i] in reg.blobs)
    && (forall i :: 0 <= i < |j.manifests| ==> j.manifests[i] in reg.manifests)
    && j.index in reg.manifests
  }

  /** The tag exists and, where the registry names its digest, is the new index. */
  predicate TagAnswers(j: Job, reg: Registry) {
    reg.tag.Some? && (j.named ==> reg.tag.value == j.index)
  }

  function Fresh(j: Job, s: State, done: set<Digest>): State {
    s.(phase := Working, fed := 0, queue := [], closed := false, workers := seq(j.workers, _ => Idle),
       cancelled := false, errored := false, done := done, lock := None)
  }

  /** What request number `next` of the publication does to the registry. */
  function Published(j: Job, next: nat, reg: Registry): Registry {
    if next < |j.manifests| then reg.(manifests := reg.manifests + {j.manifests[next]})
    else if next == |j.manifests| then reg.(manifests := reg.manifests + {j.index})
    else reg.(tag := Some(j.index))
  }

  function Apply(j: Job, s: State, step: Step): State
    requires Enabled(j, s, step)
  {
    match step
    case FeedSkip => s.(fed := s.fed + 1)
    case FeedSend => s.(fed := s.fed + 1, queue := s.queue + [j.tasks[s.fed]])
    case FeedEnd => s.(closed := true)
    case FeedCancelled => s.(closed := true)
    case Take(w) => s.(queue := s.queue[1..], workers := s.workers[w := Taken(s.queue[0])])
    case Leave(w) => s.(workers := s.workers[w := Exited])
    case SkipDone(w) => s.(workers := s.workers[w := Idle])
    case Head(w, answer) =>
      (match answer
       case Present => s.(workers := s.workers[w := Confirmed(s.workers[w].blob)])
       case Missing => s.(workers := s.workers[w := Uploading(s.workers[w].blob)])
       case Refused => Error(s, w))
    case Upload(w, ok, stored) =>
      var t := if stored then s.(reg := s.reg.(blobs := s.reg.blobs + {s.workers[w].blob})) else s;
      if ok then t.(workers := s.workers[w := Confirmed(s.workers[w].blob)]) else Error(t, w)
    case Mark(w) =>
      var done := s.done + {s.workers[w].blob};
      s.(done := done, lock := Some(w), workers := s.workers[w := Saving(s.workers[w].blob, done)])
    case Save(w, ok) =>
      var t := s.(lock := None);
      if !ok then Error(t, w)
      else
        var snapshot := s.workers[w].snapshot;
        var u := t.(workers := s.workers[w := Idle]);
        if j.store then u.(checkpoint := Some(snapshot), saves := s.saves + [snapshot]) else u
    case Cancel => s.(cancelled := true)
    case Join => if s.errored || s.cancelled then s.(phase := Failed) else s.(phase := Publishing(0))
    case Publish(ok, applied) =>
      var reg := if applied then Published(j, s.phase.next, s.reg) else s.reg;
      s.(reg := reg,
         phase := if !ok then Failed
                  else if s.phase.next <= |j.manifests| then Publishing(s.phase.next + 1)
                  else Verifying)
    case Verify(ok) => s.(phase := if ok then Finishing else Failed)
    case Finish(removed) =>
      if removed then s.(phase := Succeeded, checkpoint := None, saves := []) else s.(phase := Succeeded)
    case Crash => s.(phase := Crashed)
    case Resume(loads) =>
      if !j.store then Fresh(j, s, {})
      else if !loads then s.(phase := Failed)
      else Fresh(j, s, if s.checkpoint.Some? then s.checkpoint.value else {})
    case OthersStore(blobs, manifests) =>
      s.(reg := s.reg.(blobs := s.reg.blobs + blobs, manifests := s.reg.manifests + manifests))
    case OthersTag(d) => s.(reg := s.reg.(tag := Some(d)))
  }

  ghost predicate Next(j: Job, s: State, t: State) {
    exists step :: Enabled(j, s, step) && t == Apply(j, s, step)
  }

  /** A first start: whatever the checkpoint lists was confirmed, and the tag is not ours yet. */
  ghost predicate Init(j: Job, s: State) {
    && (s.checkpoint.Some? ==> s.checkpoint.value <= s.reg.blobs && s.saves == [s.checkpoint.value])
    && (s.checkpoint.None? ==> s.saves == [])
    && s.reg.tag != Some(j.index)
    && s == Fresh(j, s, if j.store && s.checkpoint.Some? then s.checkpoint.value else {})
  }

  /** A run: any number of attempts, crashes and resumptions. */
  ghost predicate Run(j: Job, run: seq<State>) {
    && |run| > 0 && Init(j, run[0])
    && forall i :: 0 <= i < |run| - 1 ==> StepsAt(j, run, i)
  }

  ghost predicate StepsAt(j: Job, run: seq<State>, i: nat)
    requires i + 1 < |run|
  {
    Next(j, run[i], run[i + 1])
  }

  // ---------- What every step keeps ----------

  predicate Holds(w: Worker, d: Digest) {
    (w.Taken? || w.Uploading? || w.Confirmed?) && w.blob == d
  }

  /** A task that was fed is confirmed, queued, or in a worker's hands. */
  ghost predicate Accounted(s: State, d: Digest) {
    || d in s.done || d in s.queue
    || exists w :: 0 <= w < |s.workers| && Holds(s.workers[w], d)
  }

  ghost predicate Active(s: State) {
    s.phase.Working? || s.phase.Publishing? || s.phase.Verifying? || s.phase.Finishing?
  }

  ghost predicate OnlyConfirmed(s: State) {
    && (Active(s) ==> s.done <= s.reg.blobs)
    && (s.phase.Working? ==> forall w :: 0 <= w < |s.workers| && s.workers[w].Confirmed? ==> s.workers[w].blob in s.reg.blobs)
    && (forall i :: 0 <= i < |s.saves| ==> s.saves[i] <= s.reg.blobs)
  }

  /** The checkpoint mutex: the holder's snapshot is everything confirmed so far. */
  ghost predicate Locking(j: Job, s: State) {
    s.phase.Working? ==>
      && |s.workers| == j.workers
      && (forall w :: 0 <= w < |s.workers| && s.workers[w].Saving? ==> s.lock == Some(w) && s.workers[w].snapshot == s.done)
      && (s.lock.Some? ==> s.lock.value < |s.workers| && s.workers[s.lock.value].Saving?)
  }

  ghost predicate Chain(j: Job, s: State) {
    && (forall a, b :: 0 <= a < b < |s.saves| ==> s.saves[a] <= s.saves[b])
    && (s.checkpoint.Some? <==> |s.saves| > 0)
    && (s.checkpoint.Some? ==> s.checkpoint.value == s.saves[|s.saves| - 1])
    && (Active(s) && j.store && s.checkpoint.Some? ==> s.checkpoint.value <= s.done)
  }

  ghost predicate Feeding(j: Job, s: State) {
    s.phase.Working? ==>
      && s.fed <= |j.tasks|
      && (s.closed && !s.cancelled ==> s.fed == |j.tasks|)
      && (s.errored ==> s.cancelled)
      && (!s.errored ==> forall i :: 0 <= i < s.fed ==> Accounted(s, j.tasks[i]))
      && ((exists w :: 0 <= w < |s.workers| && s.workers[w].Exited?) ==> s.errored || (s.closed && s.queue == []))
  }

  ghost predicate PublishingOnlyComplete(j: Job, s: State) {
    && (s.phase.Publishing? || s.phase.Verifying? || s.phase.Finishing? ==>
          !s.errored && forall i :: 0 <= i < |j.tasks| ==> j.tasks[i] in s.reg.blobs)
    && (s.phase.Publishing? ==>
          && s.phase.next <= |j.manifests| + 1
          && (forall i :: 0 <= i < s.phase.next && i < |j.manifests| ==> j.manifests[i] in s.reg.manifests)
          && (s.phase.next > |j.manifests| ==> j.index in s.reg.manifests))
    && (s.phase.Verifying? || s.phase.Finishing? ==> Complete(j, s.reg))
    && (s.reg.tag == Some(j.index) ==> Complete(j, s.reg))
  }

  ghost predicate Inv(j: Job, s: State) {
    OnlyConfirmed(s) && Locking(j, s) && Chain(j, s) && Feeding(j, s) && PublishingOnlyComplete(j, s)
  }

  predicate WorkerStep(step: Step) {
    step.Take? || step.Leave? || step.SkipDone? || step.Head? || step.Upload? || step.Mark? || step.Save?
  }

  lemma WorkerStepKeepsOnlyConfirmed(j: Job, s: State, step: Step)
    requires OnlyConfirmed(s) && Locking(j, s) && Enabled(j, s, step) && WorkerStep(step)
    ensures OnlyConfirmed(Apply(j, s, step))
  {
    var t := Apply(j, s, step);
    assert s.reg.blobs <= t.reg.blobs;
    if step.Save? {
      assert s.workers[step.w].snapshot == s.done;
    }
  }

  lemma StepKeepsOnlyConfirmed(j: Job, s: State, step: Step)
    requires OnlyConfirmed(s) && Locking(j, s) && Chain(j, s) && Enabled(j, s, step)
    ensures OnlyConfirmed(Apply(j, s, step))
  {
    if WorkerStep(step) {
      WorkerStepKeepsOnlyConfirmed(j, s, step);
    } else {
      assert s.reg.blobs <= Apply(j, s, step).reg.blobs;
      if step.Resume? && s.checkpoint.Some? {
        assert s.saves[|s.saves| - 1] <= s.reg.blobs;
      }
    }
  }

  /** A worker that neither takes nor gives back the mutex. */
  lemma PlainStepKeepsLocking(j: Job, s: State, step: Step)
    requires Locking(j, s) && Enabled(j, s, step)
    requires step.Take? || step.Leave? || step.SkipDone? || step.Head? || step.Upload?
    ensures Locking(j, Apply(j, s, step))
  {
    var t := Apply(j, s, step);
    assert t.lock == s.lock && t.done == s.done && !s.workers[step.w].Saving? && !t.workers[step.w].Saving?;
    assert t.workers == s.workers[step.w := t.workers[step.w]];
  }

  lemma MutexStepKeepsLocking(j: Job, s: State, step: Step)
    requires Locking(j, s) && Enabled(j, s, step) && (step.Mark? || step.Save?)
    ensures Locking(j, Apply(j, s, step))
  {
    var t := Apply(j, s, step);
    assert t.workers == s.workers[step.w := t.workers[step.w]];
    assert step.Mark? ==> forall w :: 0 <= w < |s.workers| ==> !s.workers[w].Saving?;
  }

  lemma StepKeepsLocking(j: Job, s: State, step: Step)
    requires Locking(j, s) && Enabled(j, s, step)
    ensures Locking(j, Apply(j, s, step))
  {
    if step.Mark? || step.Save? {
      MutexStepKeepsLocking(j, s, step);
    } else if WorkerStep(step) {
      PlainStepKeepsLocking(j, s, step);
    }
  }

  lemma SaveKeepsChain(j: Job, s: State, step: Step)
    requires Locking(j, s) && Chain(j, s) && Enabled(j, s, step) && step.Save?
    ensures Chain(j, Apply(j, s, step))
  {
    assert s.workers[step.w].snapshot == s.done;
  }

  lemma StepKeepsChain(j: Job, s: State, step: Step)
    requires Locking(j, s) && Chain(j, s) && Enabled(j, s, step)
    ensures Chain(j, Apply(j, s, step))
  {
    if step.Save? {
      SaveKeepsChain(j, s, step);
    } else {
      assert Apply(j, s, step).saves == s.saves || Apply(j, s, step).saves == [];
    }
  }

  /** Moving one task between the queue, a worker and the confirmed set loses none of the others. */
  lemma StillAccounted(s: State, t: State, w: nat, d: Digest)
    requires w < |s.workers| && |t.workers| == |s.workers| && t.workers == s.workers[w := t.workers[w]]
    requires s.done <= t.done && Accounted(s, d)
    requires d in s.queue ==> d in t.queue || Holds(t.workers[w], d)
    requires Holds(s.workers[w], d) ==> d in t.done || Holds(t.workers[w], d)
    ensures Accounted(t, d)
  {
    if d !in s.done && d !in s.queue {
      var v :| 0 <= v < |s.workers| && Holds(s.workers[v], d);
      if v != w {
        assert t.workers[v] == s.workers[v];
      }
    }
  }

  lemma WorkerStepKeepsFeeding(j: Job, s: State, step: Step)
    requires Locking(j, s) && Feeding(j, s) && Enabled(j, s, step) && WorkerStep(step)
    ensures Feeding(j, Apply(j, s, step))
  {
    var t := Apply(j, s, step);
    if !t.errored {
      forall i | 0 <= i < s.fed ensures Accounted(t, j.tasks[i]) {
        var d := j.tasks[i];
        assert Accounted(s, d);
        if step.Take? {
          assert s.queue == [s.queue[0]] + s.queue[1..];
        }
        StillAccounted(s, t, step.w, d);
      }
    }
    forall w | 0 <= w < |t.workers| && t.workers[w].Exited? ensures t.errored || (t.closed && t.queue == []) {
      if w != step.w {
        assert s.workers[w].Exited?;
      }
    }
  }

  lemma FeederStepKeepsFeeding(j: Job, s: State, step: Step)
    requires Locking(j, s) && Feeding(j, s) && Enabled(j, s, step)
    requires step.FeedSkip? || step.FeedSend? || step.FeedEnd? || step.FeedCancelled? || step.Cancel?
    ensures Feeding(j, Apply(j, s, step))
  {
    var t := Apply(j, s, step);
    if !t.errored && t.phase.Working? {
      forall i | 0 <= i < t.fed ensures Accounted(t, j.tasks[i]) {
        var d := j.tasks[i];
        if i < s.fed {
          assert Accounted(s, d);
          if d !in s.done && d !in s.queue {
            var w :| 0 <= w < |s.workers| && Holds(s.workers[w], d);
            assert Holds(t.workers[w], d);
          }
        }
      }
    }
  }

  lemma StepKeepsFeeding(j: Job, s: State, step: Step)
    requires Inv(j, s) && Enabled(j, s, step)
    ensures Feeding(j, Apply(j, s, step))
  {
    match step {
      case Take(_) => WorkerStepKeepsFeeding(j, s, step);
      case Leave(_) => WorkerStepKeepsFeeding(j, s, step);
      case SkipDone(_) => WorkerStepKeepsFeeding(j, s, step);
      case Head(_, _) => WorkerStepKeepsFeeding(j, s, step);
      case Upload(_, _, _) => WorkerStepKeepsFeeding(j, s, step);
      case Mark(_) => WorkerStepKeepsFeeding(j, s, step);
      case Save(_, _) => WorkerStepKeepsFeeding(j, s, step);
      case FeedSkip => FeederStepKeepsFeeding(j, s, step);
      case FeedSend => FeederStepKeepsFeeding(j, s, step);
      case FeedEnd => FeederStepKeepsFeeding(j, s, step);
      case FeedCancelled => FeederStepKeepsFeeding(j, s, step);
      case Cancel => FeederStepKeepsFeeding(j, s, step);
      case OthersStore(_, _) =>
        forall i | 0 <= i < s.fed && s.phase.Working? && !s.errored
          ensures Accounted(Apply(j, s, step), j.tasks[i])
        {
          assert Accounted(s, j.tasks[i]);
        }
      case OthersTag(_) =>
        forall i | 0 <= i < s.fed && s.phase.Working? && !s.errored
          ensures Accounted(Apply(j, s, step), j.tasks[i])
        {
          assert Accounted(s, j.tasks[i]);
        }
      case _ =>
    }
  }

  /** When every worker has left without an error, every task is confirmed. */
  lemma JoinMeansConfirmed(j: Job, s: State)
    requires j.workers > 0 && Inv(j, s) && Enabled(j, s, Join) && !s.errored && !s.cancelled
    ensures forall i :: 0 <= i < |j.tasks| ==> j.tasks[i] in s.reg.blobs
  {
    assert s.workers[0].Exited?;
    forall i | 0 <= i < |j.tasks| ensures j.tasks[i] in s.reg.blobs {
      assert Accounted(s, j.tasks[i]);
    }
  }

  /** The registry only grows, and only a publication or another client moves the tag. */
  lemma RegistryGrows(j: Job, s: State, step: Step)
    requires Enabled(j, s, step)
    ensures s.reg.blobs <= Apply(j, s, step).reg.blobs && s.reg.manifests <= Apply(j, s, step).reg.manifests
    ensures !step.Publish? && Apply(j, s, step).reg.tag == Some(j.index) ==> s.reg.tag == Some(j.index)
  {
  }

  lemma CompleteGrows(j: Job, before: Registry, after: Registry)
    requires before.blobs <= after.blobs && before.manifests <= after.manifests && Complete(j, before)
    ensures Complete(j, after)
  {
  }

  lemma PublishKeepsPublishing(j: Job, s: State, step: Step)
    requires PublishingOnlyComplete(j, s) && Enabled(j, s, step) && step.Publish?
    ensures PublishingOnlyComplete(j, Apply(j, s, step))
  {
    var t := Apply(j, s, step);
    RegistryGrows(j, s, step);
    if Complete(j, s.reg) {
      CompleteGrows(j, s.reg, t.reg);
    }
  }

  /** A step that publishes nothing and stays in its phase, or leaves it for one that asks no more. */
  lemma OtherStepKeepsPublishing(j: Job, s: State, step: Step)
    requires PublishingOnlyComplete(j, s) && Enabled(j, s, step) && !step.Publish? && !step.Join?
    ensures PublishingOnlyComplete(j, Apply(j, s, step))
  {
    var t := Apply(j, s, step);
    RegistryGrows(j, s, step);
    if Complete(j, s.reg) {
      CompleteGrows(j, s.reg, t.reg);
    }
    assert t.phase == s.phase || t.phase.Working? || t.phase.Failed? || t.phase.Crashed? || t.phase.Succeeded?
        || (s.phase.Verifying? && t.phase.Finishing?);
  }

  lemma StepKeepsPublishing(j: Job, s: State, step: Step)
    requires j.workers > 0 && Inv(j, s) && Enabled(j, s, step)
    ensures PublishingOnlyComplete(j, Apply(j, s, step))
  {
    if step.Publish? {
      PublishKeepsPublishing(j, s, step);
    } else if step.Join? {
      if !s.errored && !s.cancelled {
        JoinMeansConfirmed(j, s);
      }
    } else {
      OtherStepKeepsPublishing(j, s, step);
    }
  }

  lemma StepKeepsInv(j: Job, s: State, step: Step)
    requires j.workers > 0 && Inv(j, s) && Enabled(j, s, step)
    ensures Inv(j, Apply(j, s, step))
  {
    StepKeepsOnlyConfirmed(j, s, step);
    StepKeepsLocking(j, s, step);
    StepKeepsChain(j, s, step);
    StepKeepsFeeding(j, s, step);
    StepKeepsPublishing(j, s, step);
  }

  lemma InitInv(j: Job, s: State)
    requires Init(j, s)
    ensures Inv(j, s)
  {
  }

  /** Every state of every run keeps the invariant. */
  lemma {:induction false} RunInv(j: Job, run: seq<State>, i: nat)
    requires j.workers > 0 && Run(j, run) && i < |run|
    ensures Inv(j, run[i])
  {
    if i == 0 {
      InitInv(j, run[0]);
    } else {
      RunInv(j, run, i - 1);
      assert StepsAt(j, run, i - 1);
      var step :| Enabled(j, run[i - 1], step) && run[i] == Apply(j, run[i - 1], step);
      StepKeepsInv(j, run[i - 1], step);
    }
  }

  // ---------- What that means for a run ----------

  /** The tag names the new index only when every blob and every manifest is there. */
  lemma TagOnlyWhenComplete(j: Job, run: seq<State>, i: nat)
    requires j.workers > 0 && Run(j, run) && i < |run|
    ensures run[i].reg.tag == Some(j.index) ==> Complete(j, run[i].reg)
    ensures run[i].phase.Finishing? ==> Complete(j, run[i].reg)
  {
    RunInv(j, run, i);
  }

  /** Saved checkpoints form a growing chain and list only blobs the registry holds. */
  lemma CheckpointsGrow(j: Job, run: seq<State>, i: nat)
    requires j.workers > 0 && Run(j, run) && i < |run|
    ensures forall a, b :: 0 <= a < b < |run[i].saves| ==> run[i].saves[a] <= run[i].saves[b]
    ensures forall a :: 0 <= a < |run[i].saves| ==> run[i].saves[a] <= run[i].reg.blobs
    ensures run[i].checkpoint.Some? ==> |run[i].saves| > 0 && run[i].checkpoint.value == run[i].saves[|run[i].saves| - 1]
  {
    RunInv(j, run, i);
  }

  /** No attempt starts between two states of a run. */
  ghost predicate SameAttempt(j: Job, run: seq<State>, a: nat, b: nat) {
    a <= b < |run| && forall i :: a <= i < b ==> ContinuesAt(j, run, i)
  }

  ghost predicate ContinuesAt(j: Job, run: seq<State>, i: nat)
    requires i + 1 < |run|
  {
    NextWithoutResume(j, run[i], run[i + 1])
  }

  ghost predicate NextWithoutResume(j: Job, s: State, t: State) {
    exists step :: Enabled(j, s, step) && !step.Resume? && t == Apply(j, s, step)
  }

  /** Once a worker failed, or the run was cancelled while blobs were still in hand, nothing is published. */
  ghost predicate Doomed(s: State) {
    s.phase.Failed? || s.phase.Crashed? || (s.phase.Working? && (s.errored || s.cancelled))
  }

  lemma DoomedStaysDoomed(j: Job, s: State, step: Step)
    requires Doomed(s) && Enabled(j, s, step) && !step.Resume?
    ensures Doomed(Apply(j, s, step))
    ensures Apply(j, s, step).reg.tag == Some(j.index) ==> s.reg.tag == Some(j.index)
    ensures !step.OthersStore? ==> Apply(j, s, step).reg.manifests == s.reg.manifests
  {
  }

  lemma DoomedNext(j: Job, s: State, t: State)
    requires Doomed(s) && NextWithoutResume(j, s, t)
    ensures Doomed(t) && (t.reg.tag == Some(j.index) ==> s.reg.tag == Some(j.index))
    ensures forall d :: d in t.reg.manifests ==> d in s.reg.manifests || BroughtByOthers(j, s, t, d)
  {
    var step :| Enabled(j, s, step) && !step.Resume? && t == Apply(j, s, step);
    DoomedStaysDoomed(j, s, step);
  }

  /** Another client put the manifest on the registry. */
  ghost predicate BroughtByOthers(j: Job, s: State, t: State, d: Digest) {
    exists blobs, manifests :: d in manifests && t == Apply(j, s, OthersStore(blobs, manifests))
  }

  ghost predicate BroughtAt(j: Job, run: seq<State>, d: Digest, i: nat)
    requires i + 1 < |run|
  {
    BroughtByOthers(j, run[i], run[i + 1], d)
  }

  /** The manifest was there at a, or another client brought it since. */
  ghost predicate NotOurs(j: Job, run: seq<State>, a: nat, b: nat, d: Digest)
    requires a <= b < |run|
  {
    d in run[a].reg.manifests || exists i :: a <= i < b && BroughtAt(j, run, d, i)
  }

  /**
   * An error or a cancellation before publication prevents publication for the rest of the attempt: neither the tag nor
   * a manifest is the attempt's doing.
   */
  lemma {:induction false} FailurePreventsPublication(j: Job, run: seq<State>, a: nat, b: nat)
    requires SameAttempt(j, run, a, b) && Doomed(run[a])
    ensures Doomed(run[b])
    ensures run[b].reg.tag == Some(j.index) ==> run[a].reg.tag == Some(j.index)
    ensures forall d :: d in run[b].reg.manifests ==> NotOurs(j, run, a, b, d)
    decreases b
  {
    if a < b {
      var c := b - 1;
      FailurePreventsPublication(j, run, a, c);
      assert ContinuesAt(j, run, c);
      DoomedNext(j, run[c], run[b]);
      forall d | d in run[b].reg.manifests ensures NotOurs(j, run, a, b, d) {
        if d in run[c].reg.manifests {
          assert NotOurs(j, run, a, c, d);
        } else {
          assert BroughtAt(j, run, d, c);
        }
      }
    }
  }

  // ---------- A crash loses no confirmation but the one in hand ----------

  function SavedSet(s: State): set<Digest> { if s.checkpoint.Some? then s.checkpoint.value else {} }

  /** The blob whose confirmation is being written to the checkpoint. */
  ghost predicate InHand(s: State, d: Digest) {
    s.lock.Some? && s.lock.value < |s.workers| && s.workers[s.lock.value].Saving? && s.workers[s.lock.value].blob == d
  }

  ghost predicate Durable(j: Job, s: State) {
    j.store && s.phase.Working? && !s.errored ==> forall d :: d in s.done ==> d in SavedSet(s) || InHand(s, d)
  }

  lemma PlainStepKeepsDurable(j: Job, s: State, step: Step)
    requires Locking(j, s) && Durable(j, s) && Enabled(j, s, step)
    requires step.Take? || step.Leave? || step.SkipDone? || step.Head? || step.Upload?
    ensures Durable(j, Apply(j, s, step))
  {
    var t := Apply(j, s, step);
    assert t.lock == s.lock && t.done == s.done && t.checkpoint == s.checkpoint && !s.workers[step.w].Saving?;
    assert t.workers == s.workers[step.w := t.workers[step.w]];
    forall d | InHand(s, d) ensures InHand(t, d) {
    }
  }

  lemma MutexStepKeepsDurable(j: Job, s: State, step: Step)
    requires Locking(j, s) && Durable(j, s) && Enabled(j, s, step) && (step.Mark? || step.Save?)
    ensures Durable(j, Apply(j, s, step))
  {
    var t := Apply(j, s, step);
    if step.Mark? {
      assert InHand(t, s.workers[step.w].blob);
    } else if step.ok {
      assert s.workers[step.w].snapshot == s.done;
    }
  }

  lemma StepKeepsDurable(j: Job, s: State, step: Step)
    requires Locking(j, s) && Durable(j, s) && Enabled(j, s, step)
    ensures Durable(j, Apply(j, s, step))
  {
    if step.Mark? || step.Save? {
      MutexStepKeepsDurable(j, s, step);
    } else if WorkerStep(step) {
      PlainStepKeepsDurable(j, s, step);
    } else if Apply(j, s, step).phase.Working? && !step.Resume? {
      forall d | InHand(s, d) ensures InHand(Apply(j, s, step), d) {
      }
    }
  }

  lemma {:induction false} RunDurable(j: Job, run: seq<State>, i: nat)
    requires j.workers > 0 && Run(j, run) && i < |run|
    ensures Durable(j, run[i])
  {
    if i > 0 {
      RunDurable(j, run, i - 1);
      RunInv(j, run, i - 1);
      assert StepsAt(j, run, i - 1);
      var step :| Enabled(j, run[i - 1], step) && run[i] == Apply(j, run[i - 1], step);
      StepKeepsDurable(j, run[i - 1], step);
    }
  }

  lemma StepIntoCrashed(j: Job, s: State, step: Step)
    requires Enabled(j, s, step) && Apply(j, s, step).phase.Crashed?
    ensures Apply(j, s, step).checkpoint == s.checkpoint
  {
  }

  lemma NextIntoCrashed(j: Job, s: State, t: State)
    requires Next(j, s, t) && t.phase.Crashed?
    ensures t.checkpoint == s.checkpoint
  {
    var step :| Enabled(j, s, step) && t == Apply(j, s, step);
    StepIntoCrashed(j, s, step);
  }

  lemma StepOutOfCrash(j: Job, s: State, step: Step)
    requires Enabled(j, s, step) && j.store && s.phase.Crashed? && Apply(j, s, step).phase.Working?
    ensures Apply(j, s, step).done == SavedSet(s)
  {
  }

  lemma {:induction false} CrashedKeepsCheckpoint(j: Job, run: seq<State>, a: nat, b: nat)
    requires Run(j, run) && a < b < |run| && forall i :: a < i <= b ==> run[i].phase.Crashed?
    ensures run[b].checkpoint == run[a].checkpoint
    decreases b
  {
    var c := b - 1;
    assert StepsAt(j, run, c);
    if a < c {
      CrashedKeepsCheckpoint(j, run, a, c);
    }
    NextIntoCrashed(j, run[c], run[b]);
  }

  /**
   * An attempt that crashes without an error and is resumed starts from everything that was confirmed, except a
   * confirmation that was just being written.
   */
  lemma ResumeKeepsConfirmed(j: Job, run: seq<State>, a: nat, b: nat)
    requires j.workers > 0 && j.store && Run(j, run) && a < b && b + 1 < |run|
    requires run[a].phase.Working? && !run[a].errored && (forall i :: a < i <= b ==> run[i].phase.Crashed?) && run[b + 1].phase.Working?
    ensures forall d :: d in run[a].done ==> d in run[b + 1].done || InHand(run[a], d)
    ensures run[b + 1].done <= run[a].done
  {
    RunInv(j, run, a);
    RunDurable(j, run, a);
    CrashedKeepsCheckpoint(j, run, a, b);
    assert StepsAt(j, run, b);
    var step :| Enabled(j, run[b], step) && run[b + 1] == Apply(j, run[b], step);
    StepOutOfCrash(j, run[b], step);
  }

  // ---------- Success means the tag was moved ----------

  predicate Past(phase: Phase) { phase.Verifying? || phase.Finishing? || phase.Succeeded? }

  /** The last request of the publication was answered: the tag names the index. */
  ghost predicate TaggedAt(j: Job, run: seq<State>, a: nat)
    requires a + 1 < |run|
  {
    run[a].phase == Publishing(|j.manifests| + 1) && run[a + 1].phase.Verifying? && run[a + 1].reg.tag == Some(j.index)
  }

  /** The verification passed, on a registry whose tag was seen to name the index. */
  ghost predicate VerifiedAt(j: Job, run: seq<State>, a: nat)
    requires a + 1 < |run|
  {
    && run[a].phase.Verifying? && run[a + 1].phase.Finishing?
    && Complete(j, run[a].reg) && run[a].reg.tag == run[a + 1].reg.tag == Some(j.index)
  }

  /** Another client moved the tag, and did nothing else. */
  ghost predicate RetaggedAt(j: Job, run: seq<State>, i: nat)
    requires i + 1 < |run|
  {
    exists d :: d != j.index && run[i + 1] == run[i].(reg := run[i].reg.(tag := Some(d)))
  }

  /** The tag still names the index, or another client moved it after step a. */
  ghost predicate TagHeld(j: Job, run: seq<State>, a: nat, b: nat)
    requires a < b < |run|
  {
    run[b].reg.tag == Some(j.index) || exists i :: a < i < b && RetaggedAt(j, run, i)
  }

  /** What leads to a state past the publication. */
  lemma StepIntoPast(j: Job, s: State, step: Step)
    requires PublishingOnlyComplete(j, s) && Enabled(j, s, step) && Past(Apply(j, s, step).phase)
    ensures !step.Resume?
    ensures Past(s.phase) || (s.phase == Publishing(|j.manifests| + 1) && step == Publish(true, true))
    ensures Past(s.phase) && !step.OthersTag? ==> Apply(j, s, step).reg.tag == s.reg.tag
  {
  }

  lemma NextIntoPast(j: Job, run: seq<State>, c: nat)
    requires j.workers > 0 && Run(j, run) && c + 1 < |run| && Past(run[c + 1].phase)
    ensures ContinuesAt(j, run, c)
    ensures if Past(run[c].phase) then run[c + 1].reg.tag == run[c].reg.tag || RetaggedAt(j, run, c) else TaggedAt(j, run, c)
  {
    RunInv(j, run, c);
    assert StepsAt(j, run, c);
    var step :| Enabled(j, run[c], step) && run[c + 1] == Apply(j, run[c], step);
    StepIntoPast(j, run[c], step);
  }

  /**
   * An attempt that is past its publication has moved the tag to the index, and the tag names it still
   * unless another client moved it since.
   */
  lemma {:induction false} SuccessMovesTheTag(j: Job, run: seq<State>, b: nat) returns (a: nat)
    requires j.workers > 0 && Run(j, run) && b < |run| && Past(run[b].phase)
    ensures a < b && TaggedAt(j, run, a) && SameAttempt(j, run, a, b) && TagHeld(j, run, a, b)
    ensures forall i :: a < i <= b ==> Past(run[i].phase)
    decreases b
  {
    var c := b - 1;
    NextIntoPast(j, run, c);
    if Past(run[c].phase) {
      a := SuccessMovesTheTag(j, run, c);
    } else {
      a := c;
    }
  }

  lemma NextIntoFinished(j: Job, run: seq<State>, c: nat)
    requires j.workers > 0 && j.verify && j.named && Run(j, run) && c + 1 < |run|
    requires run[c + 1].phase.Finishing? || run[c + 1].phase.Succeeded?
    ensures ContinuesAt(j, run, c)
    ensures VerifiedAt(j, run, c) || run[c].phase.Finishing? || run[c].phase.Succeeded?
    ensures !VerifiedAt(j, run, c) ==> run[c + 1].reg.tag == run[c].reg.tag || RetaggedAt(j, run, c)
  {
    RunInv(j, run, c);
    assert StepsAt(j, run, c);
    var step :| Enabled(j, run[c], step) && run[c + 1] == Apply(j, run[c], step);
    StepIntoPast(j, run[c], step);
  }

  /** A verified success: after the tag was published it was also seen to name the index, and only another client undoes that. */
  lemma {:induction false} VerifiedSuccessSawTheTag(j: Job, run: seq<State>, b: nat) returns (a: nat)
    requires j.workers > 0 && j.verify && j.named && Run(j, run) && b < |run|
    requires run[b].phase.Finishing? || run[b].phase.Succeeded?
    ensures a < b && VerifiedAt(j, run, a) && SameAttempt(j, run, a, b) && TagHeld(j, run, a, b)
    decreases b
  {
    var c := b - 1;
    NextIntoFinished(j, run, c);
    if VerifiedAt(j, run, c) {
      a := c;
    } else {
      a := VerifiedSuccessSawTheTag(j, run, c);
    }
  }

  // ---------- Every attempt ends ----------

  /** A step of the attempt itself; asking for a cancellation twice is not one. */
  predicate OwnStep(s: State, step: Step) {
    !step.Resume? && !step.OthersStore? && !step.OthersTag? && !(step.Cancel? && s.cancelled)
  }

  function WorkerWeight(w: Worker): nat {
    match w
    case Taken(_) => 5
    case Uploading(_) => 4
    case Confirmed(_) => 3
    case Saving(_, _) => 2
    case Idle => 1
    case Exited => 0
  }

  function WorkersWeight(workers: seq<Worker>, n: nat): nat
    requires n <= |workers|
  {
    if n == 0 then 0 else WorkersWeight(workers, n - 1) + WorkerWeight(workers[n - 1])
  }

  function PhaseWeight(j: Job, phase: Phase): nat {
    match phase
    case Working => |j.manifests| + 6
    case Publishing(next) => if next <= |j.manifests| then |j.manifests| + 5 - next else 4
    case Verifying => 3
    case Finishing => 2
    case Succeeded => 1
    case Failed => 1
    case Crashed => 0
  }

  function Flag(b: bool): nat { if b then 0 else 1 }

  /** What is left to do: a task weighs less in each hand it passes to. */
  function Remaining(j: Job, s: State): nat {
    PhaseWeight(j, s.phase) + 7 * Max(|j.tasks| - s.fed, 0) + 6 * |s.queue| + WorkersWeight(s.workers, |s.workers|)
    + Flag(s.closed) + Flag(s.cancelled)
  }

  lemma {:induction false} OneWorkerMoves(workers: seq<Worker>, w: nat, x: Worker, n: nat)
    requires w < |workers| && n <= |workers|
    ensures WorkersWeight(workers[w := x], n)
         == WorkersWeight(workers, n) + if w < n then WorkerWeight(x) - WorkerWeight(workers[w]) else 0
  {
    if n > 0 {
      OneWorkerMoves(workers, w, x, n - 1);
    }
  }

  /** What one worker's move takes off. */
  lemma WorkerMoved(j: Job, s: State, t: State, w: nat)
    requires w < |s.workers| == |t.workers| && t.workers == s.workers[w := t.workers[w]]
    requires t.phase == s.phase && t.fed == s.fed && t.closed == s.closed && (s.cancelled ==> t.cancelled)
    requires 6 * |t.queue| + WorkerWeight(t.workers[w]) < 6 * |s.queue| + WorkerWeight(s.workers[w])
    ensures Remaining(j, t) < Remaining(j, s)
  {
    OneWorkerMoves(s.workers, w, t.workers[w], |s.workers|);
  }

  lemma WorkerStepDecreases(j: Job, s: State, step: Step)
    requires Enabled(j, s, step) && WorkerStep(step)
    ensures Remaining(j, Apply(j, s, step)) < Remaining(j, s)
  {
    var t := Apply(j, s, step);
    assert t.workers == s.workers[step.w := t.workers[step.w]];
    WorkerMoved(j, s, t, step.w);
  }

  /** Every step of the attempt leaves less to do. */
  lemma OwnStepDecreases(j: Job, s: State, step: Step)
    requires Enabled(j, s, step) && OwnStep(s, step)
    ensures Remaining(j, Apply(j, s, step)) < Remaining(j, s)
  {
    if WorkerStep(step) {
      WorkerStepDecreases(j, s, step);
    }
  }

  /** The steps taken between the states of an attempt. */
  ghost predicate TakesAt(j: Job, run: seq<State>, steps: seq<Step>, i: nat)
    requires i < |steps| && |run| == |steps| + 1
  {
    Enabled(j, run[i], steps[i]) && !steps[i].Resume? && run[i + 1] == Apply(j, run[i], steps[i])
  }

  ghost predicate Attempt(j: Job, run: seq<State>, steps: seq<Step>) {
    |run| == |steps| + 1 && forall i :: 0 <= i < |steps| ==> TakesAt(j, run, steps, i)
  }

  function OwnSteps(run: seq<State>, steps: seq<Step>, n: nat): nat
    requires n <= |steps| < |run|
  {
    if n == 0 then 0 else OwnSteps(run, steps, n - 1) + if OwnStep(run[n - 1], steps[n - 1]) then 1 else 0
  }

  lemma {:induction false} OwnStepsBounded(j: Job, run: seq<State>, steps: seq<Step>, n: nat)
    requires Attempt(j, run, steps) && n <= |steps|
    ensures OwnSteps(run, steps, n) + Remaining(j, run[n]) <= Remaining(j, run[0])
  {
    if n > 0 {
      OwnStepsBounded(j, run, steps, n - 1);
      assert TakesAt(j, run, steps, n - 1);
      if OwnStep(run[n - 1], steps[n - 1]) {
        OwnStepDecreases(j, run[n - 1], steps[n - 1]);
      }
    }
  }

  lemma {:induction false} IdleWorkers(n: nat, k: nat)
    requires k <= n
    ensures WorkersWeight(seq(n, _ => Idle), k) == k
  {
    if k > 0 {
      IdleWorkers(n, k - 1);
    }
  }

  /** However its steps interleave with those of other clients, an attempt takes at most so many of its own. */
  lemma AttemptEnds(j: Job, s: State, done: set<Digest>, run: seq<State>, steps: seq<Step>)
    requires Attempt(j, run, steps) && run[0] == Fresh(j, s, done)
    ensures OwnSteps(run, steps, |steps|) <= 7 * |j.tasks| + |j.manifests| + j.workers + 8
  {
    OwnStepsBounded(j, run, steps, |steps|);
    IdleWorkers(j.workers, j.workers);
  }

  lemma WorkerCanMove(j: Job, s: State, w: nat) returns (step: Step)
    requires Locking(j, s) && s.phase.Working? && w < |s.workers| && s.lock.None?
    requires s.workers[w].Taken? || s.workers[w].Uploading? || s.workers[w].Confirmed?
    ensures Enabled(j, s, step) && OwnStep(s, step) && !step.Cancel? && !step.Crash?
  {
    step := if s.workers[w].Taken? then Head(w, Missing) else if s.workers[w].Uploading? then Upload(w, true, true) else Mark(w);
  }

  lemma IdleCanMove(j: Job, s: State, w: nat) returns (step: Step)
    requires j.workers > 0 && Feeding(j, s) && s.phase.Working? && w < |s.workers| && s.workers[w].Idle?
    ensures Enabled(j, s, step) && OwnStep(s, step) && !step.Cancel? && !step.Crash?
  {
    step := if s.queue != [] then Take(w) else if s.closed then Leave(w) else if s.fed < |j.tasks| then FeedSend else FeedEnd;
  }

  /** Until an attempt has ended, some worker, the feeder, the join or the publication can move. */
  lemma NoDeadlock(j: Job, s: State) returns (step: Step)
    requires j.workers > 0 && Inv(j, s) && Active(s)
    ensures Enabled(j, s, step) && OwnStep(s, step) && !step.Cancel? && !step.Crash?
  {
    if !s.phase.Working? {
      step := if s.phase.Publishing? then Publish(true, true)
              else if s.phase.Verifying? then Verify(!j.verify || TagAnswers(j, s.reg))
              else Finish(true);
    } else if s.lock.Some? {
      step := Save(s.lock.value, true);
    } else if w :| 0 <= w < |s.workers| && (s.workers[w].Taken? || s.workers[w].Uploading? || s.workers[w].Confirmed?) {
      step := WorkerCanMove(j, s, w);
    } else if w :| 0 <= w < |s.workers| && s.workers[w].Idle? {
      step := IdleCanMove(j, s, w);
    } else {
      step := Join;
    }
  }

  // ---------- Without a fault, an attempt succeeds ----------

  /** The registry refuses, the checkpoint cannot be written, or the run is cancelled or dies. */
  predicate Fault(step: Step) {
    match step
    case Head(_, answer) => answer.Refused?
    case Upload(_, ok, _) => !ok
    case Save(_, ok) => !ok
    case Publish(ok, _) => !ok
    case Verify(ok) => !ok
    case Cancel => true
    case Crash => true
    case _ => false
  }

  ghost predicate OnCourse(s: State) {
    (Active(s) || s.phase.Succeeded?) && !s.errored && !s.cancelled
  }

  lemma StepStaysOnCourse(j: Job, s: State, step: Step)
    requires OnCourse(s) && Enabled(j, s, step) && !step.Resume? && !Fault(step)
    ensures OnCourse(Apply(j, s, step))
  {
  }

  lemma {:induction false} FaultlessStaysOnCourse(j: Job, run: seq<State>, steps: seq<Step>, n: nat)
    requires j.workers > 0 && Attempt(j, run, steps) && n <= |steps| && Inv(j, run[0]) && OnCourse(run[0])
    requires forall i :: 0 <= i < n ==> !Fault(steps[i])
    ensures Inv(j, run[n]) && OnCourse(run[n])
  {
    if n > 0 {
      FaultlessStaysOnCourse(j, run, steps, n - 1);
      assert TakesAt(j, run, steps, n - 1);
      StepKeepsInv(j, run[n - 1], steps[n - 1]);
      StepStaysOnCourse(j, run[n - 1], steps[n - 1]);
    }
  }

  /** Nothing is left for the attempt to do but be cancelled or killed. */
  ghost predicate Ended(j: Job, s: State) {
    forall step :: Enabled(j, s, step) && OwnStep(s, step) ==> step.Cancel? || step.Crash?
  }

  /** An attempt that met no fault and has nothing left to do has succeeded. */
  lemma FaultlessSucceeds(j: Job, run: seq<State>, steps: seq<Step>)
    requires j.workers > 0 && Attempt(j, run, steps) && Inv(j, run[0]) && OnCourse(run[0])
    requires forall i :: 0 <= i < |steps| ==> !Fault(steps[i])
    requires Ended(j, run[|steps|])
    ensures run[|steps|].phase.Succeeded?
  {
    var last := run[|steps|];
    FaultlessStaysOnCourse(j, run, steps, |steps|);
    if Active(last) {
      var step := NoDeadlock(j, last);
      assert false;
    }
  }
}
