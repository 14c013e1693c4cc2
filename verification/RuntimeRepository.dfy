/** What the saved values of the repository stand for: over every run they are what was
    last written to the project file or read from it. */
module RuntimeRepository {
  import opened Common
  import opened Coordinator
  import opened RuntimeBlocks
  import opened RuntimeSystem
  import opened RuntimeInvariant
  import opened RuntimeMoves
  import opened RuntimeSafety
  import opened RuntimeTheorems

  /** Code data and mapping path. */
  datatype Contents = Contents(code: int, mapping: int)

  /** The step that publishes the project as it was opened. */
  predicate Opens(s: System, step: Step) {
    step == SInitialize(PublishFirst) && s.rt.task == RUNNING && FirstLoaded(s) && s.rt.lifecycle == LOADING
  }

  /** A save, requested or on shutdown, that comes to its native write. */
  predicate Writes(s: System, step: Step) {
    && s.rt.repo.Some?
    && ((step.SWriteSave? && step.t in s.ops && s.ops[step.t] == Saving(None))
        || (step.SShutdown? && step.shutdown == WriteNative && step.t in s.ops && s.ops[step.t].Shutting?
            && s.ops[step.t].phase == Inspected))
  }

  /** The publication of a reload. */
  predicate Reads(s: System, step: Step) {
    && step.SReplace? && step.replace == PublishIt && step.t in s.ops && s.ops[step.t].Replacing?
    && s.ops[step.t].consistent && s.ops[step.t].candidate.Some? && s.ops[step.t].staged.kind == CommitReload
    && s.rt.lifecycle == RELOADING && s.rt.active == Some(s.ops[step.t].prior) && s.rt.repo.Some?
  }

  /** What the project file holds after this many steps, as far as the runtime knows: what
      the project was opened with, then what each save wrote and each reload read. */
  function OnDisk(run: Execution, at: nat): Option<Contents>
    requires |run.states| == |run.steps| + 1 && at < |run.states|
  {
    if at == 0 then None
    else
      var s, step := run.states[at - 1], run.steps[at - 1];
      if Opens(s, step) then
        (if s.init.repo.None? then None
         else Some(Contents(s.init.repo.value.savedCode, s.init.repo.value.savedMapping)))
      else if Writes(s, step) then Some(Contents(s.rt.repo.value.code, s.rt.repo.value.mapping))
      else if Reads(s, step) then Some(Contents(s.ops[step.t].staged.args.code, s.ops[step.t].staged.args.mapping))
      else OnDisk(run, at - 1)
  }

  lemma OpeningPublishes(s: System)
    requires Opens(s, SInitialize(PublishFirst))
    ensures PublishLoaded(s).rt.repo == s.init.repo
  {
  }

  lemma WritingSaves(s: System, step: Step)
    requires Writes(s, step)
    ensures RepositorySaved(s.rt, Do(s, step).rt)
  {
    hide DoInitialize, DoReplace, DoRead, DoClose, ReportFatal;
  }

  lemma NotWriting(s: System, step: Step)
    requires WritesFile(step) && !Writes(s, step)
    ensures Do(s, step) == s
  {
    hide DoInitialize, DoReplace, DoRead, DoClose, ReportFatal;
  }

  lemma NotOpening(s: System)
    requires !Opens(s, SInitialize(PublishFirst))
    ensures PublishLoaded(s) == s
  {
  }

  lemma ReadingPublishes(s: System, t: nat)
    requires Reads(s, SReplace(t, PublishIt))
    ensures var s' := PublishCandidate(s, t);
            && s'.rt.repo.Some? && s'.rt.repo.value.savedCode == s.ops[t].staged.args.code
            && s'.rt.repo.value.savedMapping == s.ops[t].staged.args.mapping
  {
  }

  /** What a step does to the saved values. */
  lemma SavedStep(run: Execution, at: nat)
    requires run.Valid() && at < |run.steps|
    ensures var s, step, s' := run.states[at], run.steps[at], run.states[at + 1];
            && (Opens(s, step) ==> s'.rt.repo == s.init.repo)
            && (Writes(s, step) ==> RepositorySaved(s.rt, s'.rt))
            && (Reads(s, step) ==>
                  && s'.rt.repo.Some? && s'.rt.repo.value.savedCode == s.ops[step.t].staged.args.code
                  && s'.rt.repo.value.savedMapping == s.ops[step.t].staged.args.mapping)
            && (!Opens(s, step) && !Writes(s, step) && !Reads(s, step) ==>
                  && s'.rt.repo.Some? == s.rt.repo.Some?
                  && (s.rt.repo.Some? ==>
                        && s'.rt.repo.value.savedCode == s.rt.repo.value.savedCode
                        && s'.rt.repo.value.savedMapping == s.rt.repo.value.savedMapping))
  {
    var s, step, s' := run.states[at], run.steps[at], run.states[at + 1];
    assert run.Follows(at);
    PublicationIsAllOrNothing(run, at);
    if Opens(s, step) {
      OpeningPublishes(s);
    } else if Writes(s, step) {
      WritingSaves(s, step);
    } else if Reads(s, step) {
      ReadingPublishes(s, step.t);
    } else if WritesFile(step) {
      NotWriting(s, step);
    } else if step == SInitialize(PublishFirst) {
      NotOpening(s);
    }
    hide PublishLoaded, PublishCandidate, DoRead, DoClose, DoShutdown, ReportFatal, DoEnter;
  }

  /** The saved values of the repository are what the project file holds. */
  lemma {:induction false} SavedIsOnDisk(run: Execution, at: nat)
    requires run.Valid() && at < |run.states|
    ensures var repo := run.states[at].rt.repo;
            repo.Some? ==> OnDisk(run, at) == Some(Contents(repo.value.savedCode, repo.value.savedMapping))
  {
    if at > 0 {
      SavedIsOnDisk(run, at - 1);
      SavedStep(run, at - 1);
    } else {
      assert run.states[0] == Start(run.mode);
    }
    hide Opens, Writes, Reads;
  }

  /** A shutdown that may not discard is accepted only with everything committed on disk. */
  lemma AcceptedShutdownLosesNothing(run: Execution, at: nat, t: nat)
    requires run.Valid() && at < |run.states|
    ensures var s := run.states[at]; var s' := AcceptShutdown(s, t);
            s'.rt.lifecycle != s.rt.lifecycle && t in s.ops && s.ops[t].Shutting? && s.ops[t].policy != Discard ==>
              s.rt.repo.Some? && OnDisk(run, at) == Some(Contents(s.rt.repo.value.code, s.rt.repo.value.mapping))
  {
    SavedIsOnDisk(run, at);
    ExecutionIsGood(run, at);
    var s := run.states[at];
    if t in s.ops && s.ops[t].Shutting? { Facts(s, t); }
    hide Inv, OnDisk, LifecycleOk;
  }

  /** And the inspection under the reservation refuses exactly what the policy does not let
      go: with RefuseIfDirty, a project whose committed contents are not on disk; with
      Save, one without a path; with Discard, nothing. */
  lemma InspectionRefusesExactly(run: Execution, at: nat, t: nat)
    requires run.Valid() && at < |run.states|
    ensures var s := run.states[at];
            t in s.ops && s.ops[t].Shutting? && s.ops[t].phase == Claimed ==>
              var policy, s' := s.ops[t].policy, Inspect(s, t);
              && s.rt.repo.Some? && t in s'.ops && s'.ops[t].Shutting? && s'.rt == s.rt
              && (s'.ops[t].phase.Rejected? <==>
                    || (policy == RefuseIfDirty
                        && OnDisk(run, at) != Some(Contents(s.rt.repo.value.code, s.rt.repo.value.mapping)))
                    || (policy == Save && !s.rt.repo.value.hasPath))
              && (!s'.ops[t].phase.Rejected? ==> s'.ops[t].phase == if policy == Save then Inspected else Cleared)
  {
    SavedIsOnDisk(run, at);
    ExecutionIsGood(run, at);
    var s := run.states[at];
    if t in s.ops && s.ops[t].Shutting? { Facts(s, t); }
    hide Inv, OnDisk, LifecycleOk;
  }
}
