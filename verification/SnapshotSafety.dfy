/** What every run of the snapshot vault guarantees, for any number of processes and any
    interleaving of their steps, failures and deaths. */
module SnapshotSafety {
  import opened Outcomes
  import opened SnapshotNames
  import opened SnapshotVault
  import opened SnapshotPublication

  ghost predicate Reachable(env: Env, s: State) { exists run :: s == After(env, BLANK, run) }

  predicate UnderModels(d: Path) { d != [] && d[0] == "models" }

  lemma ReachableIsGood(env: Env, s: State)
    requires Faithful(env.format) && Reachable(env, s)
    ensures Good(env, s)
  {
    hide After, Good;
    var run :| s == After(env, BLANK, run);
    assert Good(env, BLANK) by { BlankIsGood(env); }
    RunKeeps(env, BLANK, run);
  }

  lemma BlankIsGood(env: Env)
    ensures Good(env, BLANK)
  {
  }

  /** At most one process holds the slot of a model revision. */
  lemma OneHolderPerRevision(env: Env, s: State, i: nat, j: nat)
    requires Faithful(env.format) && Reachable(env, s)
    requires i in s.procs && j in s.procs && Holds(s.procs[i].phase) && Holds(s.procs[j].phase)
    requires s.procs[i].model == s.procs[j].model && s.procs[i].revision == s.procs[j].revision
    ensures i == j
  {
    ReachableIsGood(env, s);
    assert Key(env, s.procs[i]) == Key(env, s.procs[j]);
  }

  /** A directory under `models` verifies in every reachable state, from the moment it is there. */
  lemma VisibleVerifies(env: Env, s: State, model: string, revision: string)
    requires Faithful(env.format) && Reachable(env, s)
    requires SnapshotPath(model, revision).Some? && SnapshotPath(model, revision).value in s.dirs
    ensures var r := Verify(env.format, s.dirs[SnapshotPath(model, revision).value], model, revision);
      r.Ok? && r.value.files != [] && r.value.model == model && r.value.revision == revision
  {
    hide Verify, SnapshotPath;
    ReachableIsGood(env, s);
    ExistingVerifies(env, s, Process(model, revision, "", "", Asking));
  }

  /** A snapshot that is there is never changed and never removed again, whatever anyone does. */
  lemma PublishedForever(env: Env, s: State, more: seq<Action>, d: Path)
    requires Faithful(env.format) && Reachable(env, s) && d in s.dirs && UnderModels(d)
    ensures var t := After(env, s, more); d in t.dirs && t.dirs[d] == s.dirs[d]
  {
    hide After, Good;
    ReachableIsGood(env, s);
    StaysForever(env, s, more, d);
  }

  lemma {:induction false} StaysForever(env: Env, s: State, more: seq<Action>, d: Path)
    requires Faithful(env.format) && Good(env, s) && d in s.dirs && UnderModels(d)
    ensures var t := After(env, s, more); d in t.dirs && t.dirs[d] == s.dirs[d]
    decreases |more|
  {
    hide Run, Verify, SnapshotPath, Sane, OneHolder;
    if more != [] {
      var a := more[0];
      if a.who in s.procs && Named(s.procs[a.who]) { PublishedUntouched(env, s, a.who, a.move, d); }
      StepKeeps(env, s, a);
      StaysForever(env, Step(env, s, a), more[1..], d);
    }
  }

  /** A directory appears under `models` by one rename of a complete staging directory: it verifies at
      once, and nothing of it was visible before. */
  lemma AppearsByRename(env: Env, s: State, a: Action, d: Path)
    requires Faithful(env.format) && Reachable(env, s)
    requires d !in s.dirs && d in Step(env, s, a).dirs && UnderModels(d)
    ensures a.move.Rename? && a.who in s.procs && CommittedBy(env, s, Step(env, s, a), s.procs[a.who], d)
  {
    hide *;
    ReachableIsGood(env, s);
    AppearsInGood(env, s, a, d);
  }

  lemma AppearsInGood(env: Env, s: State, a: Action, d: Path)
    requires Faithful(env.format) && Good(env, s)
    requires d !in s.dirs && d in Step(env, s, a).dirs && UnderModels(d)
    ensures a.move.Rename? && a.who in s.procs && CommittedBy(env, s, Step(env, s, a), s.procs[a.who], d)
  {
    hide Run, Verify, SnapshotPath, OneHolder, Shelved;
    if a.who in s.procs {
      AllSane(env, s, a.who);
      DirSteps(env, s, a.who, a.move);
      var p := s.procs[a.who];
      if Renames(s, Step(env, s, a), p, Step(env, s, a).procs[a.who]) {
        StagedIsNotTarget(p);
      }
    }
  }

  /** The holder of the slot renamed its complete staging directory to `d`, and no other directory changed. */
  ghost predicate CommittedBy(env: Env, s: State, t: State, p: Process, d: Path) {
    && Named(p) && d == Target(p) && Holds(p.phase) && p.phase.Written?
    && StagingPath(p.staging) in s.dirs && StagingPath(p.staging) !in t.dirs
    && t.dirs == (s.dirs - {StagingPath(p.staging)})[d := s.dirs[StagingPath(p.staging)]]
    && Verify(env.format, t.dirs[d], p.model, p.revision) == Ok(p.phase.manifest)
  }

  lemma StagedIsNotTarget(p: Process)
    requires Named(p)
    ensures StagingPath(p.staging) != Target(p)
  {
    TargetShape(p);
  }

  /** The rename in `commit_snapshot` never finds its target there: the slot rules it out. */
  lemma RenameNeverRefused(env: Env, s: State, i: nat)
    requires Faithful(env.format) && Reachable(env, s) && i in s.procs
    ensures s.procs[i].phase.Written? ==>
      Named(s.procs[i]) && Target(s.procs[i]) !in s.dirs && StagingPath(s.procs[i].staging) in s.dirs
    ensures s.procs[i].phase.Done? ==> s.procs[i].phase.result != Err(TargetExists)
  {
    ReachableIsGood(env, s);
  }

  /** Everyone who succeeds for one revision returns the manifest that the first of them published,
      however late they came and whatever they had downloaded themselves. */
  lemma WritersAgree(env: Env, s: State, i: nat, j: nat)
    requires Faithful(env.format) && Reachable(env, s) && i in s.procs && j in s.procs
    requires s.procs[i].phase.Done? && s.procs[i].phase.result.Ok? && s.procs[j].phase.Done?
    requires s.procs[j].phase.result.Ok?
    requires s.procs[i].model == s.procs[j].model && s.procs[i].revision == s.procs[j].revision
    ensures s.procs[i].phase.result == s.procs[j].phase.result
    ensures Named(s.procs[i]) && Target(s.procs[i]) in s.dirs && VerifyAt(env, s, s.procs[i]) == s.procs[i].phase.result
  {
    hide Verify, SnapshotPath;
    ReachableIsGood(env, s);
    ExistingVerifies(env, s, s.procs[i]);
  }

  /** A late writer, before or inside the slot, gets the published manifest and changes nothing. */
  lemma LateWriter(env: Env, s: State, who: nat)
    requires Faithful(env.format) && Reachable(env, s) && who in s.procs
    requires Named(s.procs[who]) && Target(s.procs[who]) in s.dirs
    ensures var p, d := s.procs[who], Target(s.procs[who]);
      && d in s.published
      && (p.phase.Asking? ==> Step(env, s, Action(who, Look)) == Enter(s, who, p, Done(Ok(s.published[d]))))
      && (p.phase.Filling? ==> Step(env, s, Action(who, Check)) == Enter(s, who, p, Leaving(Ok(s.published[d]))))
  {
    hide *;
    ReachableIsGood(env, s);
    LateInGood(env, s, who);
  }

  lemma LateInGood(env: Env, s: State, who: nat)
    requires Faithful(env.format) && Good(env, s) && who in s.procs
    requires Named(s.procs[who]) && Target(s.procs[who]) in s.dirs
    ensures var p, d := s.procs[who], Target(s.procs[who]);
      && d in s.published
      && (p.phase.Asking? ==> Step(env, s, Action(who, Look)) == Enter(s, who, p, Done(Ok(s.published[d]))))
      && (p.phase.Filling? ==> Step(env, s, Action(who, Check)) == Enter(s, who, p, Leaving(Ok(s.published[d]))))
  {
    hide Verify, SnapshotPath;
    ExistingVerifies(env, s, s.procs[who]);
  }

  /** Leaving the slot removes nobody else's staging directory. */
  lemma CleanupSparesOthers(env: Env, s: State, who: nat, left: Option<Tree>, i: nat)
    requires Faithful(env.format) && Reachable(env, s)
    requires who in s.procs && i in s.procs && i != who && Staging(s.procs[i].phase)
    ensures var t, d := Step(env, s, Action(who, Remove(left))), StagingPath(s.procs[i].staging);
      d in s.dirs && d in t.dirs && t.dirs[d] == s.dirs[d]
  {
    hide *;
    ReachableIsGood(env, s);
    CleanupInGood(env, s, who, left, i);
  }

  lemma CleanupInGood(env: Env, s: State, who: nat, left: Option<Tree>, i: nat)
    requires Faithful(env.format) && Good(env, s)
    requires who in s.procs && i in s.procs && i != who && Staging(s.procs[i].phase)
    ensures var t, d := Step(env, s, Action(who, Remove(left))), StagingPath(s.procs[i].staging);
      d in s.dirs && d in t.dirs && t.dirs[d] == s.dirs[d]
  {
    hide Verify, SnapshotPath, Run, OneHolder, Shelved;
    var p, q, t := s.procs[who], s.procs[i], Step(env, s, Action(who, Remove(left)));
    DirSteps(env, s, who, Remove(left));
    assert SaneAt(env, s, i) by { AllSane(env, s, i); }
    assert StagingPath(q.staging)[1] == q.staging && StagingPath(p.staging)[1] == p.staging;
  }

  /** Exactly when a slot is refused: some process is in it, or died in it. */
  lemma BusyIff(env: Env, s: State, who: nat)
    requires Faithful(env.format) && Reachable(env, s) && who in s.procs && s.procs[who].phase.AtLock?
    requires Named(s.procs[who])
    ensures Step(env, s, Action(who, Lock)) == Enter(s, who, s.procs[who], Done(Err(Busy)))
       <==> exists i :: HoldsLock(env, s, i, Key(env, s.procs[who]))
  {
    hide *;
    ReachableIsGood(env, s);
    BusyInGood(env, s, who);
  }

  lemma BusyInGood(env: Env, s: State, who: nat)
    requires Good(env, s) && who in s.procs && s.procs[who].phase.AtLock? && Named(s.procs[who])
    ensures Step(env, s, Action(who, Lock)) == Enter(s, who, s.procs[who], Done(Err(Busy)))
       <==> exists i :: HoldsLock(env, s, i, Key(env, s.procs[who]))
  {
    hide Verify, SnapshotPath, Places, Shelved, Sane;
    var p := s.procs[who];
    if Key(env, p) !in s.locks {
      assert Step(env, s, Action(who, Lock)).procs[who].phase == Locked;
    }
  }

  /** A process that dies in its slot leaves the lock file behind, and then nobody ever gets that
      slot again: the revision can no longer be downloaded unless it was already published. */
  lemma DeathKeepsTheLock(env: Env, s: State, more: seq<Action>, i: nat)
    requires Faithful(env.format) && Reachable(env, s) && i in s.procs && s.procs[i].phase == Dead(true)
    ensures var t := After(env, s, more);
      && i in t.procs && t.procs[i] == s.procs[i] && Key(env, t.procs[i]) in t.locks
      && forall j :: j in t.procs && t.procs[j].phase.AtLock? && Key(env, t.procs[j]) == Key(env, t.procs[i]) ==>
           Step(env, t, Action(j, Lock)) == Enter(t, j, t.procs[j], Done(Err(Busy)))
  {
    hide *;
    ReachableIsGood(env, s);
    RunKeeps(env, s, more);
    DeadForever(env, s, more, i);
    LockStays(env, After(env, s, more), i);
  }

  lemma LockStays(env: Env, t: State, i: nat)
    requires Good(env, t) && i in t.procs && t.procs[i].phase == Dead(true)
    ensures Key(env, t.procs[i]) in t.locks
    ensures forall j :: j in t.procs && t.procs[j].phase.AtLock? && Key(env, t.procs[j]) == Key(env, t.procs[i]) ==>
      Step(env, t, Action(j, Lock)) == Enter(t, j, t.procs[j], Done(Err(Busy)))
  {
    hide Verify, SnapshotPath, Places, Shelved;
  }

  lemma {:induction false} DeadForever(env: Env, s: State, more: seq<Action>, i: nat)
    requires i in s.procs && s.procs[i].phase == Dead(true)
    ensures var t := After(env, s, more); i in t.procs && t.procs[i] == s.procs[i]
    decreases |more|
  {
    hide Step;
    if more != [] {
      DeadStaysDead(env, s, more[0], i);
      DeadForever(env, Step(env, s, more[0]), more[1..], i);
    }
  }

  lemma DeadStaysDead(env: Env, s: State, a: Action, i: nat)
    requires i in s.procs && s.procs[i].phase == Dead(true)
    ensures i in Step(env, s, a).procs && Step(env, s, a).procs[i] == s.procs[i]
  {
    hide Verify, SnapshotPath;
    if a.who in s.procs && Named(s.procs[a.who]) { StepsAlone(env, s, a.who, a.move); }
  }
}
