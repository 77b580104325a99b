/** Many processes downloading into one snapshot vault (src/decillion/vault.py:151-165, 186-229;
    src/decillion/models.py:105-124), as interleaved steps over the lock files and the directories.
    A process may fail or die between any two steps. */
module SnapshotPublication {
  import opened Hashing
  import opened Outcomes
  import opened SnapshotNames
  import opened SnapshotVault

  /** Where a process stands. `Filling` is the body of `download_slot`, up to the test of the target
      in `commit_snapshot`; `Leaving` and `Unlocking` are the two lines of its `finally`. */
  datatype Phase =
    | Asking
    | AtLock
    | Locked
    | Filling
    | Counting
    | Counted(files: seq<Item>, total: nat)
    | Written(manifest: Manifest)
    | Leaving(result: Result<Manifest, Fault>)
    | Unlocking(result: Result<Manifest, Fault>)
    | Done(result: Result<Manifest, Fault>)
    | Dead(holding: bool)

  datatype Process = Process(model: string, revision: string, license: string, staging: string, phase: Phase)

  /** `locks` are the names of the lock files, `used` every name `mkdtemp` ever gave out, and
      `published` remembers the manifest that each rename published. */
  datatype State = State(locks: set<Digest>, dirs: map<Path, Tree>, used: set<string>,
                         procs: map<nat, Process>, published: map<Path, Manifest>)

  datatype Move =
    | Start(model: string, revision: string, license: string)
    | Look
    | Lock
    | Stage(name: string)
    | Fill(tree: Tree)
    | Check
    | Count(fits: bool)
    | Write(createdAt: string, at: nat)
    | Rename
    | Remove(left: Option<Tree>)
    | Unlock
    | Fail
    | Die

  datatype Action = Action(who: nat, move: Move)

  /** The file format, and the name of the lock file that belongs to a lock text. */
  datatype Env = Env(format: Format, key: string -> Digest)

  function StagingPath(name: string): Path { [".staging", name] }

  predicate Named(p: Process) { SnapshotPath(p.model, p.revision).Some? }

  function Target(p: Process): Path requires Named(p) { SnapshotPath(p.model, p.revision).value }

  function Key(env: Env, p: Process): Digest { env.key(LockText(p.model, p.revision)) }

  predicate Holds(phase: Phase) {
    !phase.Asking? && !phase.AtLock? && !phase.Done? && (phase.Dead? ==> phase.holding)
  }

  /** Between `mkdtemp` and the rename. */
  predicate Staging(phase: Phase) { phase.Filling? || phase.Counting? || phase.Counted? || phase.Written? }

  predicate Stages(phase: Phase) { Staging(phase) || phase.Leaving? }

  predicate Finished(phase: Phase) { phase.Leaving? || phase.Unlocking? || phase.Done? }

  function VerifyAt(env: Env, s: State, p: Process): Result<Manifest, Fault>
    requires Named(p) && Target(p) in s.dirs
  {
    Verify(env.format, s.dirs[Target(p)], p.model, p.revision)
  }

  function Enter(s: State, who: nat, p: Process, phase: Phase): State {
    s.(procs := s.procs[who := p.(phase := phase)])
  }

  /** One step. A move that does not fit the phase of its process does nothing. */
  function Step(env: Env, s: State, a: Action): State {
    if a.who !in s.procs then
      match a.move
      case Start(model, revision, license) =>
        if SnapshotPath(model, revision).None? then s
        else s.(procs := s.procs[a.who := Process(model, revision, license, "", Asking)])
      case _ => s
    else if !Named(s.procs[a.who]) then s
    else Run(env, s, a.who, s.procs[a.who], a.move)
  }

  function Run(env: Env, s: State, who: nat, p: Process, move: Move): State
    requires Named(p)
  {
    if move.Fill? || move.Check? || move.Count? || move.Write? || move.Rename? || move.Remove?
    then Inside(env, s, who, p, move)
    else Outside(env, s, who, p, move)
  }

  /** Before and after the staging directory exists, and the ways to fail. */
  function Outside(env: Env, s: State, who: nat, p: Process, move: Move): State
    requires Named(p)
  {
    match (move, p.phase)
    case (Look, Asking) =>
      Enter(s, who, p, if Target(p) in s.dirs then Done(VerifyAt(env, s, p)) else AtLock)
    case (Lock, AtLock) =>
      if Key(env, p) in s.locks then Enter(s, who, p, Done(Err(Busy)))
      else Enter(s.(locks := s.locks + {Key(env, p)}), who, p, Locked)
    case (Stage(name), Locked) =>
      if name in s.used then s
      else Enter(s.(dirs := s.dirs[StagingPath(name) := []], used := s.used + {name}), who, p.(staging := name),
                 Filling)
    case (Unlock, Unlocking(r)) =>
      Enter(s.(locks := s.locks - {Key(env, p)}), who, p, Done(r))
    case (Fail, phase) =>
      if phase.Asking? || phase.AtLock? then Enter(s, who, p, Done(Err(Interrupted)))
      else if phase.Locked? then Enter(s, who, p, Dead(true))
      else if Staging(phase) then Enter(s, who, p, Leaving(Err(Interrupted)))
      else s
    case (Die, phase) => Enter(s, who, p, Dead(Holds(phase)))
    case _ => s
  }

  /** The download, `commit_snapshot` and the removal of the staging directory. */
  function Inside(env: Env, s: State, who: nat, p: Process, move: Move): State
    requires Named(p)
  {
    var target, staging := Target(p), StagingPath(p.staging);
    match (move, p.phase)
    case (Fill(tree), Filling) =>
      s.(dirs := s.dirs[staging := tree])
    case (Check, Filling) =>
      Enter(s, who, p, if target in s.dirs then Leaving(VerifyAt(env, s, p)) else Counting)
    case (Count(fits), Counting) =>
      Enter(s, who, p, CountPhase(env, s, p, fits))
    case (Write(createdAt, at), Counted(files, total)) =>
      if staging !in s.dirs || at > |s.dirs[staging]| then s
      else
        var m := Manifest(p.model, p.revision, p.license, createdAt, total, files);
        Enter(s.(dirs := s.dirs[staging := WithManifest(s.dirs[staging], env.format.json(m), at)]), who, p, Written(m))
    case (Rename, Written(m)) =>
      if target in s.dirs || staging !in s.dirs then Enter(s, who, p, Leaving(Err(TargetExists)))
      else Enter(s.(dirs := (s.dirs - {staging})[target := s.dirs[staging]], published := s.published[target := m]),
                 who, p, Leaving(Ok(m)))
    case (Remove(left), Leaving(r)) =>
      Enter(if staging !in s.dirs then s
            else if left.None? then s.(dirs := s.dirs - {staging})
            else s.(dirs := s.dirs[staging := left.value]), who, p, Unlocking(r))
    case _ => s
  }

  /** The inventory in `commit_snapshot`, and its two refusals. */
  function CountPhase(env: Env, s: State, p: Process, fits: bool): Phase {
    if StagingPath(p.staging) !in s.dirs then Leaving(Err(Interrupted))
    else match Inventory(env.format, s.dirs[StagingPath(p.staging)])
         case Err(x) => Leaving(Err(x))
         case Ok((files, total)) =>
           if files == [] then Leaving(Err(Empty))
           else if !fits then Leaving(Err(Full))
           else Counted(files, total)
  }

  function After(env: Env, s: State, run: seq<Action>): State
    decreases |run|
  {
    if run == [] then s else After(env, Step(env, s, run[0]), run[1..])
  }

  const BLANK: State := State({}, map[], {}, map[], map[])

  // ---------------------------------------------------------------- what every step keeps

  /** Two processes that hold a slot hold two lock files, and both files exist. */
  ghost predicate OneHolder(env: Env, s: State) {
    && (forall i :: i in s.procs ==> Named(s.procs[i]))
    && (forall i :: i in s.procs && Holds(s.procs[i].phase) ==> Key(env, s.procs[i]) in s.locks)
    && (forall i, j :: i in s.procs && j in s.procs && i != j && Holds(s.procs[i].phase) && Holds(s.procs[j].phase)
          ==> Key(env, s.procs[i]) != Key(env, s.procs[j]))
  }

  /** Every lock file belongs to a process that is in its slot or died in it. */
  ghost predicate LocksHeld(env: Env, s: State) {
    forall k :: k in s.locks ==> exists i :: HoldsLock(env, s, i, k)
  }

  ghost predicate HoldsLock(env: Env, s: State, i: nat, k: Digest) {
    i in s.procs && Holds(s.procs[i].phase) && Key(env, s.procs[i]) == k
  }

  /** Every directory is a staging directory or was published; staging names are never shared. */
  ghost predicate Places(s: State) {
    && (forall d :: d in s.dirs ==> d in s.published || (|d| == 2 && d[0] == ".staging" && d[1] in s.used))
    && (forall d :: d in s.published ==> d in s.dirs && |d| == 4 && d[0] == "models")
    && (forall i :: i in s.procs && Stages(s.procs[i].phase) ==> s.procs[i].staging in s.used)
    && (forall i, j :: i in s.procs && j in s.procs && i != j
          && Stages(s.procs[i].phase) && Stages(s.procs[j].phase)
          ==> s.procs[i].staging != s.procs[j].staging)
  }

  /** What is known of one process from its phase. */
  ghost predicate Sane(env: Env, s: State, p: Process) {
    && Named(p)
    && (Staging(p.phase) ==> StagingPath(p.staging) in s.dirs)
    && (p.phase.Counting? || p.phase.Counted? || p.phase.Written? ==> Target(p) !in s.dirs)
    && (p.phase.Counted? ==> p.phase.files != [])
    && (p.phase.Counted? ==>
          Inventory(env.format, s.dirs[StagingPath(p.staging)]) == Ok((p.phase.files, p.phase.total)))
    && (p.phase.Written? ==> p.phase.manifest.files != [])
    && (p.phase.Written? ==>
          Verify(env.format, s.dirs[StagingPath(p.staging)], p.model, p.revision) == Ok(p.phase.manifest))
    && (Finished(p.phase) && p.phase.result.Ok? ==>
          Target(p) in s.published && p.phase.result.value == s.published[Target(p)])
    && (Finished(p.phase) ==> p.phase.result != Err(TargetExists))
  }

  /** Every published directory verifies, under its own name, to the manifest it was published with. */
  ghost predicate Shelved(env: Env, s: State) {
    forall d :: d in s.published ==>
      && d in s.dirs
      && s.published[d].files != []
      && SnapshotPath(s.published[d].model, s.published[d].revision) == Some(d)
      && Verify(env.format, s.dirs[d], s.published[d].model, s.published[d].revision) == Ok(s.published[d])
  }

  ghost predicate Good(env: Env, s: State) {
    && OneHolder(env, s)
    && LocksHeld(env, s)
    && Places(s)
    && Shelved(env, s)
    && forall i :: i in s.procs ==> Sane(env, s, s.procs[i])
  }

  // ---------------------------------------------------------------- what one step can touch

  /** A step belongs to one process, and changes its phase and perhaps its staging name. */
  lemma StepsAlone(env: Env, s: State, who: nat, move: Move)
    requires who in s.procs && Named(s.procs[who])
    ensures Alone(s, Run(env, s, who, s.procs[who], move), who)
  {
    hide Inside, Outside, Alone, SnapshotPath;
    assert Alone(s, Inside(env, s, who, s.procs[who], move), who) by { InsideAlone(env, s, who, move); }
    assert Alone(s, Outside(env, s, who, s.procs[who], move), who) by { OutsideAlone(env, s, who, move); }
  }

  ghost predicate Alone(s: State, t: State, who: nat)
    requires who in s.procs
  {
    && who in t.procs && t.procs == s.procs[who := t.procs[who]]
    && t.procs[who].model == s.procs[who].model && t.procs[who].revision == s.procs[who].revision
  }

  lemma InsideAlone(env: Env, s: State, who: nat, move: Move)
    requires who in s.procs && Named(s.procs[who])
    ensures Alone(s, Inside(env, s, who, s.procs[who], move), who)
  {
    hide Inventory, Verify, WithManifest, SnapshotPath, CountPhase;
  }

  lemma OutsideAlone(env: Env, s: State, who: nat, move: Move)
    requires who in s.procs && Named(s.procs[who])
    ensures Alone(s, Outside(env, s, who, s.procs[who], move), who)
  {
    hide Verify, SnapshotPath, Holds, Staging;
  }

  /** Only a free lock is taken, and only its holder gives it back. */
  lemma LockSteps(env: Env, s: State, who: nat, move: Move)
    requires who in s.procs && Named(s.procs[who])
    ensures var p, t := s.procs[who], Run(env, s, who, s.procs[who], move);
      && who in t.procs
      && (|| (t.locks == s.locks && (Holds(t.procs[who].phase) <==> Holds(p.phase)))
          || (Key(env, p) !in s.locks && t.locks == s.locks + {Key(env, p)} && Holds(t.procs[who].phase))
          || (Holds(p.phase) && !Holds(t.procs[who].phase) && t.locks == s.locks - {Key(env, p)}))
  {
    hide Inventory, Verify, WithManifest, SnapshotPath;
  }

  lemma OneHolderKept(env: Env, s: State, a: Action)
    requires OneHolder(env, s)
    ensures OneHolder(env, Step(env, s, a))
  {
    hide Run, Holds, SnapshotPath;
    if a.who in s.procs {
      StepsAlone(env, s, a.who, a.move);
      LockSteps(env, s, a.who, a.move);
    } else if Step(env, s, a) != s {
      assert !Holds(Asking) by { StartHoldsNothing(); }
    }
  }

  lemma LocksHeldKept(env: Env, s: State, a: Action)
    requires OneHolder(env, s) && LocksHeld(env, s)
    ensures LocksHeld(env, Step(env, s, a))
  {
    hide Run, Holds, SnapshotPath;
    if a.who in s.procs {
      StepsAlone(env, s, a.who, a.move);
      LockSteps(env, s, a.who, a.move);
    }
    var t := Step(env, s, a);
    forall k | k in t.locks
      ensures exists i :: HoldsLock(env, t, i, k)
    {
      if k in s.locks {
        var i :| HoldsLock(env, s, i, k);
        assert HoldsLock(env, t, i, k);
      } else {
        assert HoldsLock(env, t, a.who, k);
      }
    }
  }

  lemma StartHoldsNothing()
    ensures !Holds(Asking)
  {
  }

  // ---------------------------------------------------------------- directories

  /** A step takes a new staging name, works on its own staging directory, renames that directory
      to its target, or touches no directory at all. */
  lemma DirSteps(env: Env, s: State, who: nat, move: Move)
    requires who in s.procs && Named(s.procs[who])
    ensures DirStep(s, Run(env, s, who, s.procs[who], move), who, move)
  {
    hide Inside, Outside, DirStep, SnapshotPath;
    OutsideDirs(env, s, who, move);
    InsideDirs(env, s, who, move);
  }

  ghost predicate DirStep(s: State, t: State, who: nat, move: Move)
    requires who in s.procs
  {
    && who in t.procs
    && (|| Idles(s, t, s.procs[who], t.procs[who])
        || Takes(s, t, s.procs[who], t.procs[who])
        || Works(s, t, s.procs[who], t.procs[who])
        || (move.Rename? && Renames(s, t, s.procs[who], t.procs[who])))
  }

  lemma OutsideDirs(env: Env, s: State, who: nat, move: Move)
    requires who in s.procs && Named(s.procs[who])
    ensures DirStep(s, Outside(env, s, who, s.procs[who], move), who, move)
  {
    hide Verify, SnapshotPath, Works, Renames;
  }

  lemma InsideDirs(env: Env, s: State, who: nat, move: Move)
    requires who in s.procs && Named(s.procs[who])
    ensures DirStep(s, Inside(env, s, who, s.procs[who], move), who, move)
  {
    hide Inventory, Verify, WithManifest, SnapshotPath;
  }

  ghost predicate Idles(s: State, t: State, p: Process, q: Process) {
    && t.dirs == s.dirs && t.published == s.published && t.used == s.used && q.staging == p.staging
    && (Stages(q.phase) ==> Stages(p.phase))
  }

  ghost predicate SameBut(a: map<Path, Tree>, b: map<Path, Tree>, place: Path) {
    forall d :: d != place ==> (d in a <==> d in b) && (d in a ==> a[d] == b[d])
  }

  ghost predicate Takes(s: State, t: State, p: Process, q: Process) {
    && p.phase.Locked? && q.phase.Filling? && q.staging !in s.used && t.used == s.used + {q.staging}
    && t.dirs == s.dirs[StagingPath(q.staging) := []] && t.published == s.published
  }

  ghost predicate Works(s: State, t: State, p: Process, q: Process) {
    && Stages(p.phase) && (Stages(q.phase) || q.phase.Unlocking?) && q.staging == p.staging && t.used == s.used
    && t.published == s.published
    && SameBut(s.dirs, t.dirs, StagingPath(p.staging))
  }

  ghost predicate Renames(s: State, t: State, p: Process, q: Process) {
    && Named(p) && Target(p) !in s.dirs && StagingPath(p.staging) in s.dirs && p.phase.Written?
    && q.phase == Leaving(Ok(p.phase.manifest)) && q.staging == p.staging && t.used == s.used
    && t.dirs == (s.dirs - {StagingPath(p.staging)})[Target(p) := s.dirs[StagingPath(p.staging)]]
    && t.published == s.published[Target(p) := p.phase.manifest]
  }

  lemma TargetShape(p: Process)
    requires Named(p)
    ensures |Target(p)| == 4 && Target(p)[0] == "models"
  {
  }

  lemma PlacesKept(env: Env, s: State, who: nat, move: Move)
    requires Places(s) && who in s.procs && Named(s.procs[who])
    ensures Places(Run(env, s, who, s.procs[who], move))
  {
    hide Run, Staging, Stages, SnapshotPath;
    StepsAlone(env, s, who, move);
    DirSteps(env, s, who, move);
    TargetShape(s.procs[who]);
    PhaseKinds(s.procs[who].phase);
    PhaseKinds(Run(env, s, who, s.procs[who], move).procs[who].phase);
  }

  lemma PhaseKinds(phase: Phase)
    ensures phase.Locked? || phase.Unlocking? ==> !Stages(phase)
    ensures phase.Written? ==> Stages(phase) && Holds(phase)
  {
  }

  /** No step changes or removes a published directory. */
  lemma PublishedUntouched(env: Env, s: State, who: nat, move: Move, d: Path)
    requires Places(s) && who in s.procs && Named(s.procs[who]) && d in s.published
    ensures var t := Run(env, s, who, s.procs[who], move);
      d in t.dirs && t.dirs[d] == s.dirs[d] && d in t.published && t.published[d] == s.published[d]
  {
    hide Run, Staging, Stages, SnapshotPath;
    DirSteps(env, s, who, move);
    TargetShape(s.procs[who]);
  }

  lemma VerifiedIdentity(f: Format, tree: Tree, model: string, revision: string)
    requires Verify(f, tree, model, revision).Ok?
    ensures var m := Verify(f, tree, model, revision).value; m.model == model && m.revision == revision
  {
  }

  lemma ShelvedKept(env: Env, s: State, who: nat, move: Move)
    requires Good(env, s) && who in s.procs
    ensures Shelved(env, Run(env, s, who, s.procs[who], move))
  {
    hide Run, Staging, Stages, SnapshotPath, Verify;
    var p, t := s.procs[who], Run(env, s, who, s.procs[who], move);
    DirSteps(env, s, who, move);
    TargetShape(p);
    PhaseKinds(p.phase);
    forall d | d in s.published
      ensures d in t.dirs && t.dirs[d] == s.dirs[d] && d in t.published && t.published[d] == s.published[d]
    {
      PublishedUntouched(env, s, who, move, d);
    }
    if Renames(s, t, p, t.procs[who]) {
      assert StagingPath(p.staging) in s.dirs;
      VerifiedIdentity(env.format, s.dirs[StagingPath(p.staging)], p.model, p.revision);
    }
  }

  /** Two processes before their rename work in different staging directories, towards different targets. */
  lemma Apart(env: Env, s: State, i: nat, j: nat)
    requires Good(env, s) && i in s.procs && j in s.procs && i != j
    ensures Stages(s.procs[i].phase) && Stages(s.procs[j].phase) ==> s.procs[i].staging != s.procs[j].staging
    ensures Named(s.procs[i]) && Named(s.procs[j])
    ensures Holds(s.procs[i].phase) && Holds(s.procs[j].phase) ==> Target(s.procs[i]) != Target(s.procs[j])
  {
    hide SnapshotPath, Sane, Shelved, Stages, Holds;
    var p, q := s.procs[i], s.procs[j];
    if Target(p) == Target(q) { PathNamesRevision(p.model, p.revision, q.model, q.revision); }
  }

  /** What a process relies on survives the steps of the others. */
  lemma OthersStaySane(env: Env, s: State, who: nat, move: Move, i: nat)
    requires Good(env, s) && who in s.procs && i in s.procs && i != who
    ensures Sane(env, Run(env, s, who, s.procs[who], move), s.procs[i])
  {
    hide Run, SnapshotPath, Verify, Inventory, Good;
    Apart(env, s, who, i);
    var p, q := s.procs[who], s.procs[i];
    assert SaneAt(env, s, i) && Placed(s, i) by { AllSane(env, s, i); IsPlaced(env, s, i); }
    DirSteps(env, s, who, move);
    TargetShape(p);
    TargetShape(q);
  }

  ghost predicate Placed(s: State, i: nat) {
    && i in s.procs && (Stages(s.procs[i].phase) ==> s.procs[i].staging in s.used)
    && (Named(s.procs[i]) && Target(s.procs[i]) in s.published ==> Target(s.procs[i]) in s.dirs)
  }

  lemma IsPlaced(env: Env, s: State, i: nat)
    requires Good(env, s) && i in s.procs
    ensures Placed(s, i)
  {
    hide SnapshotPath;
  }

  /** What a process relies on after a step of its own. */
  lemma OwnStepSane(env: Env, s: State, who: nat, move: Move)
    requires Faithful(env.format) && Good(env, s) && who in s.procs
    ensures SaneAt(env, Run(env, s, who, s.procs[who], move), who)
  {
    hide Inside, Outside, SaneAt, Good, Existing, SnapshotPath;
    AllSane(env, s, who);
    OutsideSane(env, s, who, move);
    InsideSane(env, s, who, move);
  }

  lemma AllSane(env: Env, s: State, who: nat)
    requires Good(env, s) && who in s.procs
    ensures SaneAt(env, s, who) && Existing(env, s, s.procs[who])
  {
    hide Verify, SnapshotPath, Places, Shelved, OneHolder;
    if Target(s.procs[who]) in s.dirs { ExistingVerifies(env, s, s.procs[who]); }
  }

  ghost predicate SaneAt(env: Env, s: State, who: nat) { who in s.procs && Sane(env, s, s.procs[who]) }

  ghost predicate Existing(env: Env, s: State, p: Process)
    requires Named(p)
  {
    Target(p) in s.dirs ==> Target(p) in s.published && VerifyAt(env, s, p) == Ok(s.published[Target(p)])
  }

  lemma OutsideSane(env: Env, s: State, who: nat, move: Move)
    requires SaneAt(env, s, who) && Existing(env, s, s.procs[who])
    ensures SaneAt(env, Outside(env, s, who, s.procs[who], move), who)
  {
    hide SnapshotPath, Verify, Inventory, Holds;
    TargetShape(s.procs[who]);
  }

  lemma InsideSane(env: Env, s: State, who: nat, move: Move)
    requires Faithful(env.format) && SaneAt(env, s, who) && Existing(env, s, s.procs[who])
    ensures SaneAt(env, Inside(env, s, who, s.procs[who], move), who)
  {
    hide SnapshotPath, Verify, Inventory, WithManifest;
    var p := s.procs[who];
    TargetShape(p);
    if p.phase.Counted? && move.Write? && move.at <= |s.dirs[StagingPath(p.staging)]| {
      var m := Manifest(p.model, p.revision, p.license, move.createdAt, p.phase.total, p.phase.files);
      CommittedVerifies(env.format, s.dirs[StagingPath(p.staging)], m, move.at);
    }
    InventoryFaults(env.format, s, p);
  }

  lemma InventoryFaults(f: Format, s: State, p: Process)
    ensures StagingPath(p.staging) in s.dirs ==> Inventory(f, s.dirs[StagingPath(p.staging)]) != Err(TargetExists)
  {
    if StagingPath(p.staging) in s.dirs { InventoryFault(f, s.dirs[StagingPath(p.staging)]); }
  }

  /** A target that is there was published, and verifies to the manifest it was published with. */
  lemma ExistingVerifies(env: Env, s: State, p: Process)
    requires Places(s) && Shelved(env, s) && Named(p) && Target(p) in s.dirs
    ensures Target(p) in s.published && VerifyAt(env, s, p) == Ok(s.published[Target(p)])
    ensures s.published[Target(p)].model == p.model && s.published[Target(p)].revision == p.revision
  {
    hide SnapshotPath, Verify;
    TargetShape(p);
    var m := s.published[Target(p)];
    PathNamesRevision(m.model, m.revision, p.model, p.revision);
  }

  lemma StepKeeps(env: Env, s: State, a: Action)
    requires Faithful(env.format) && Good(env, s)
    ensures Good(env, Step(env, s, a))
  {
    hide Run, SnapshotPath, Verify, Inventory, Holds, Stages, Staging, LocksHeld;
    OneHolderKept(env, s, a);
    LocksHeldKept(env, s, a);
    if a.who in s.procs {
      PlacesKept(env, s, a.who, a.move);
      ShelvedKept(env, s, a.who, a.move);
      StepsAlone(env, s, a.who, a.move);
      OwnStepSane(env, s, a.who, a.move);
      forall i | i in s.procs && i != a.who ensures Sane(env, Step(env, s, a), s.procs[i]) {
        OthersStaySane(env, s, a.who, a.move, i);
      }
    } else {
      StartIsSane(env, s, a);
    }
  }

  lemma StartIsSane(env: Env, s: State, a: Action)
    requires Good(env, s) && a.who !in s.procs
    ensures var t := Step(env, s, a);
      Places(t) && Shelved(env, t) && forall i :: i in t.procs ==> Sane(env, t, t.procs[i])
  {
    hide SnapshotPath, Verify, Inventory, Sane, OneHolder, Places;
    var t := Step(env, s, a);
    assert Places(t) by { StartPlaces(env, s, a); }
    forall i | i in t.procs ensures Sane(env, t, t.procs[i]) {
      SaneWithFiles(env, s, t, t.procs[i]);
    }
  }

  lemma StartPlaces(env: Env, s: State, a: Action)
    requires Places(s) && a.who !in s.procs
    ensures Places(Step(env, s, a))
  {
    hide SnapshotPath;
  }

  lemma SaneWithFiles(env: Env, s: State, t: State, p: Process)
    requires s.dirs == t.dirs && s.published == t.published
    ensures Sane(env, s, p) ==> Sane(env, t, p)
    ensures Named(p) && p.phase.Asking? ==> Sane(env, t, p)
  {
  }

  lemma {:induction false} RunKeeps(env: Env, s: State, run: seq<Action>)
    requires Faithful(env.format) && Good(env, s)
    ensures Good(env, After(env, s, run))
    decreases |run|
  {
    hide Good, Step;
    if run != [] {
      StepKeeps(env, s, run[0]);
      RunKeeps(env, Step(env, s, run[0]), run[1..]);
    }
  }
}
