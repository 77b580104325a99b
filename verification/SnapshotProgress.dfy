/** The snapshot vault makes progress: a download that nobody interrupts and nothing fails publishes its snapshot. */
module SnapshotProgress {
  import opened Outcomes
  import opened SnapshotNames
  import opened SnapshotVault
  import opened SnapshotPublication

  /** What a process downloads, and the names and values it draws. */
  datatype Job = Job(model: string, revision: string, license: string, name: string, tree: Tree, createdAt: string,
                     at: nat)

  /** The steps of the download, in the order of the source. */
  function Steps(who: nat, j: Job): seq<Action> {
    [Action(who, Start(j.model, j.revision, j.license)), Action(who, Look), Action(who, Lock),
     Action(who, Stage(j.name)), Action(who, Fill(j.tree)), Action(who, Check), Action(who, Count(true)),
     Action(who, Write(j.createdAt, j.at)), Action(who, Rename), Action(who, Remove(None)), Action(who, Unlock)]
  }

  /** The process is new, the slot is free, the revision is not there, and the files can be taken stock of. */
  ghost predicate CanPublish(env: Env, s: State, who: nat, j: Job) {
    && who !in s.procs && j.name !in s.used && StagingPath(j.name) !in s.dirs
    && env.key(LockText(j.model, j.revision)) !in s.locks
    && SnapshotPath(j.model, j.revision).Some? && SnapshotPath(j.model, j.revision).value !in s.dirs
    && j.at <= |j.tree| && Inventory(env.format, j.tree).Ok? && Inventory(env.format, j.tree).value.0 != []
  }

  /** The manifest that the download writes. */
  function Described(env: Env, j: Job): Manifest
    requires Inventory(env.format, j.tree).Ok?
  {
    var (files, total) := Inventory(env.format, j.tree).value;
    Manifest(j.model, j.revision, j.license, j.createdAt, total, files)
  }

  lemma OneStep(env: Env, s: State, run: seq<Action>, k: nat)
    requires k < |run|
    ensures After(env, s, run[k..]) == After(env, Step(env, s, run[k]), run[k + 1..])
  {
    assert run[k..][1..] == run[k + 1..];
  }

  /** The process of the download in a phase, over what it has changed so far. */
  function At(s: State, who: nat, j: Job, staging: string, phase: Phase): State {
    s.(procs := s.procs[who := Process(j.model, j.revision, j.license, staging, phase)])
  }

  function Staged(s: State, j: Job, tree: Tree): State {
    s.(dirs := s.dirs[StagingPath(j.name) := tree], used := s.used + {j.name})
  }

  lemma Starts(env: Env, s: State, who: nat, j: Job)
    requires who !in s.procs && SnapshotPath(j.model, j.revision).Some?
    ensures Step(env, s, Action(who, Start(j.model, j.revision, j.license))) == At(s, who, j, "", Asking)
  {
  }

  /** Every later step is one of the process in its phase. */
  lemma Runs(env: Env, s: State, who: nat, j: Job, staging: string, phase: Phase, move: Move)
    requires SnapshotPath(j.model, j.revision).Some?
    ensures var p, t := Process(j.model, j.revision, j.license, staging, phase), At(s, who, j, staging, phase);
      Step(env, t, Action(who, move)) == Run(env, t, who, p, move)
  {
    hide SnapshotPath, Run;
  }

  lemma Enters(env: Env, s: State, who: nat, j: Job)
    requires SnapshotPath(j.model, j.revision).Some? && SnapshotPath(j.model, j.revision).value !in s.dirs
    requires env.key(LockText(j.model, j.revision)) !in s.locks
    ensures var locked := s.(locks := s.locks + {env.key(LockText(j.model, j.revision))});
      && Step(env, At(s, who, j, "", Asking), Action(who, Look)) == At(s, who, j, "", AtLock)
      && Step(env, At(s, who, j, "", AtLock), Action(who, Lock)) == At(locked, who, j, "", Locked)
  {
    hide SnapshotPath, Step, Inside;
    Runs(env, s, who, j, "", Asking, Look);
    Runs(env, s, who, j, "", AtLock, Lock);
  }

  lemma Stages(env: Env, s: State, who: nat, j: Job)
    requires SnapshotPath(j.model, j.revision).Some? && j.name !in s.used
    ensures Step(env, At(s, who, j, "", Locked), Action(who, Stage(j.name)))
         == At(Staged(s, j, []), who, j, j.name, Filling)
    ensures Step(env, At(Staged(s, j, []), who, j, j.name, Filling), Action(who, Fill(j.tree)))
         == At(Staged(s, j, j.tree), who, j, j.name, Filling)
  {
    hide SnapshotPath, Step;
    Runs(env, s, who, j, "", Locked, Stage(j.name));
    Runs(env, Staged(s, j, []), who, j, j.name, Filling, Fill(j.tree));
    assert Staged(s, j, []).dirs[StagingPath(j.name) := j.tree] == Staged(s, j, j.tree).dirs;
  }

  /** The revision is not there, and the files to be committed are in the staging directory. */
  ghost predicate Ready(env: Env, s: State, j: Job) {
    && SnapshotPath(j.model, j.revision).Some? && SnapshotPath(j.model, j.revision).value !in s.dirs
    && StagingPath(j.name) in s.dirs && s.dirs[StagingPath(j.name)] == j.tree
    && j.at <= |j.tree| && Inventory(env.format, j.tree).Ok? && Inventory(env.format, j.tree).value.0 != []
  }

  lemma Counts(env: Env, s: State, who: nat, j: Job)
    requires Ready(env, s, j)
    ensures var (files, total) := Inventory(env.format, j.tree).value;
      && Step(env, At(s, who, j, j.name, Filling), Action(who, Check)) == At(s, who, j, j.name, Counting)
      && Step(env, At(s, who, j, j.name, Counting), Action(who, Count(true)))
           == At(s, who, j, j.name, Counted(files, total))
  {
    hide SnapshotPath, Inventory, Step, Outside;
    Runs(env, s, who, j, j.name, Filling, Check);
    Runs(env, s, who, j, j.name, Counting, Count(true));
  }

  lemma Writes(env: Env, s: State, who: nat, j: Job)
    requires Ready(env, s, j)
    ensures var (files, total) := Inventory(env.format, j.tree).value;
      var m, full := Described(env, j), WithManifest(j.tree, env.format.json(Described(env, j)), j.at);
      Step(env, At(s, who, j, j.name, Counted(files, total)), Action(who, Write(j.createdAt, j.at)))
        == At(s.(dirs := s.dirs[StagingPath(j.name) := full]), who, j, j.name, Written(m))
  {
    hide SnapshotPath, Inventory, Step, WithManifest, Outside;
    var (files, total) := Inventory(env.format, j.tree).value;
    Runs(env, s, who, j, j.name, Counted(files, total), Write(j.createdAt, j.at));
  }

  lemma Renames(env: Env, s: State, who: nat, j: Job, m: Manifest)
    requires SnapshotPath(j.model, j.revision).Some? && SnapshotPath(j.model, j.revision).value !in s.dirs
    requires StagingPath(j.name) in s.dirs
    ensures var target, staging := SnapshotPath(j.model, j.revision).value, StagingPath(j.name);
      Step(env, At(s, who, j, j.name, Written(m)), Action(who, Rename))
        == At(s.(dirs := (s.dirs - {staging})[target := s.dirs[staging]], published := s.published[target := m]),
              who, j, j.name, Leaving(Ok(m)))
  {
    hide SnapshotPath, Step, Outside;
    Runs(env, s, who, j, j.name, Written(m), Rename);
  }

  lemma Leaves(env: Env, s: State, who: nat, j: Job, r: Result<Manifest, Fault>)
    requires SnapshotPath(j.model, j.revision).Some? && StagingPath(j.name) !in s.dirs
    ensures var key := env.key(LockText(j.model, j.revision));
      && Step(env, At(s, who, j, j.name, Leaving(r)), Action(who, Remove(None))) == At(s, who, j, j.name, Unlocking(r))
      && Step(env, At(s, who, j, j.name, Unlocking(r)), Action(who, Unlock))
           == At(s.(locks := s.locks - {key}), who, j, j.name, Done(r))
  {
    hide SnapshotPath, Step;
    Runs(env, s, who, j, j.name, Leaving(r), Remove(None));
    Runs(env, s, who, j, j.name, Unlocking(r), Unlock);
  }

  /** The slot is taken and filled. */
  lemma FirstHalf(env: Env, s: State, who: nat, j: Job)
    requires CanPublish(env, s, who, j)
    ensures var locked := s.(locks := s.locks + {env.key(LockText(j.model, j.revision))});
      After(env, s, Steps(who, j))
        == After(env, At(Staged(locked, j, j.tree), who, j, j.name, Filling), Steps(who, j)[5..])
  {
    hide Step, After, SnapshotPath, Inventory, Staged, StagingPath;
    var locked, run := s.(locks := s.locks + {env.key(LockText(j.model, j.revision))}), Steps(who, j);
    Starts(env, s, who, j);
    Enters(env, s, who, j);
    Stages(env, locked, who, j);
    assert run[0..] == run;
    OneStep(env, s, run, 0);
    OneStep(env, At(s, who, j, "", Asking), run, 1);
    OneStep(env, At(s, who, j, "", AtLock), run, 2);
    OneStep(env, At(locked, who, j, "", Locked), run, 3);
    OneStep(env, At(Staged(locked, j, []), who, j, j.name, Filling), run, 4);
  }

  /** After the rename. */
  function Moved(env: Env, s: State, j: Job): State
    requires Ready(env, s, j)
  {
    var target, m := SnapshotPath(j.model, j.revision).value, Described(env, j);
    var full := WithManifest(j.tree, env.format.json(m), j.at);
    s.(dirs := (s.dirs - {StagingPath(j.name)})[target := full], published := s.published[target := m])
  }

  lemma SecondHalf(env: Env, s: State, who: nat, j: Job)
    requires Ready(env, s, j) && SnapshotPath(j.model, j.revision).value != StagingPath(j.name)
    ensures var t, m := Moved(env, s, j), Described(env, j);
      After(env, At(s, who, j, j.name, Filling), Steps(who, j)[5..])
        == At(t.(locks := t.locks - {env.key(LockText(j.model, j.revision))}), who, j, j.name, Done(Ok(m)))
  {
    hide Step, After, SnapshotPath, Inventory, WithManifest, StagingPath;
    var (files, total) := Inventory(env.format, j.tree).value;
    var m, run, moved := Described(env, j), Steps(who, j), Moved(env, s, j);
    var full := WithManifest(j.tree, env.format.json(m), j.at);
    var written := s.(dirs := s.dirs[StagingPath(j.name) := full]);
    Counts(env, s, who, j);
    Writes(env, s, who, j);
    Renames(env, written, who, j, m);
    assert written.dirs - {StagingPath(j.name)} == s.dirs - {StagingPath(j.name)};
    Leaves(env, moved, who, j, Ok(m));
    OneStep(env, At(s, who, j, j.name, Filling), run, 5);
    OneStep(env, At(s, who, j, j.name, Counting), run, 6);
    OneStep(env, At(s, who, j, j.name, Counted(files, total)), run, 7);
    OneStep(env, At(written, who, j, j.name, Written(m)), run, 8);
    OneStep(env, At(moved, who, j, j.name, Leaving(Ok(m))), run, 9);
    OneStep(env, At(moved, who, j, j.name, Unlocking(Ok(m))), run, 10);
    NoSteps(env, run);
  }

  lemma NoSteps(env: Env, run: seq<Action>)
    requires |run| == 11
    ensures forall s :: After(env, s, run[11..]) == s
  {
  }

  /** From any state in which the slot is free and the revision is not there: a download that is left alone ends with
      the manifest of its files, which are the one new directory; no lock and no staging directory is left. */
  lemma LonePublishes(env: Env, s: State, who: nat, j: Job)
    requires Faithful(env.format) && CanPublish(env, s, who, j)
    ensures var t, m := After(env, s, Steps(who, j)), Described(env, j);
      var target := SnapshotPath(j.model, j.revision).value;
      && who in t.procs && t.procs[who].phase == Done(Ok(m)) && t.locks == s.locks
      && t.dirs.Keys == s.dirs.Keys + {target} && (forall d :: d in s.dirs ==> t.dirs[d] == s.dirs[d])
      && Verify(env.format, t.dirs[target], j.model, j.revision) == Ok(m)
      && (forall other :: other != who ==>
            (other in t.procs <==> other in s.procs) && (other in s.procs ==> t.procs[other] == s.procs[other]))
  {
    hide Step, After, SnapshotPath, Inventory, WithManifest, Verify, Steps;
    var key, m := env.key(LockText(j.model, j.revision)), Described(env, j);
    var filled := Staged(s.(locks := s.locks + {key}), j, j.tree);
    PathIsNoStaging(j.model, j.revision, j.name);
    FirstHalf(env, s, who, j);
    SecondHalf(env, filled, who, j);
    CommittedVerifies(env.format, j.tree, m, j.at);
    assert filled.locks - {key} == s.locks && filled.dirs - {StagingPath(j.name)} == s.dirs;
  }

  lemma PathIsNoStaging(model: string, revision: string, name: string)
    requires SnapshotPath(model, revision).Some?
    ensures SnapshotPath(model, revision).value != StagingPath(name)
  {
    PathStaysBelow(model, revision);
  }

  // ---------------------------------------------------------------- failures

  /** A failure before the lock ends the download; between lock and staging directory it leaves the lock behind, for
      `mkdtemp` stands before the `try`; from the staging directory on it goes to the removal. */
  lemma FailureGoes(env: Env, s: State, who: nat, j: Job, staging: string, phase: Phase)
    requires SnapshotPath(j.model, j.revision).Some?
    ensures var t := Step(env, At(s, who, j, staging, phase), Action(who, Fail));
      t == At(s, who, j, staging,
              match phase
              case Asking => Done(Err(Interrupted))
              case AtLock => Done(Err(Interrupted))
              case Locked => Dead(true)
              case Filling => Leaving(Err(Interrupted))
              case Counting => Leaving(Err(Interrupted))
              case Counted(_, _) => Leaving(Err(Interrupted))
              case Written(_) => Leaving(Err(Interrupted))
              case _ => phase)
  {
    hide SnapshotPath, Step;
    Runs(env, s, who, j, staging, phase, Fail);
  }

  /** What the removal of a staging directory leaves: nothing, or any part of it. */
  lemma RemovalLeaves(env: Env, s: State, who: nat, j: Job, r: Result<Manifest, Fault>, left: Option<Tree>)
    requires SnapshotPath(j.model, j.revision).Some? && StagingPath(j.name) in s.dirs
    ensures var t := Step(env, At(s, who, j, j.name, Leaving(r)), Action(who, Remove(left)));
      && t.procs == At(s, who, j, j.name, Unlocking(r)).procs && t.locks == s.locks && t.published == s.published
      && (left.None? ==> t.dirs == s.dirs - {StagingPath(j.name)})
      && (left.Some? ==> t.dirs == s.dirs[StagingPath(j.name) := left.value])
  {
    hide SnapshotPath, Step;
    Runs(env, s, who, j, j.name, Leaving(r), Remove(left));
  }
}
