/** The class `WeightVault` of src/decillion/vault.py, run by one process without interruption, and
    its agreement with the interleaved steps of SnapshotPublication. */
module WeightVaults {
  import opened Hashing
  import opened Outcomes
  import opened SnapshotNames
  import opened SnapshotVault
  import opened SnapshotPublication

  /** `verify`, from the names on. */
  function VerifyNamed(env: Env, dirs: map<Path, Tree>, model: string, revision: string): Result<Manifest, Fault> {
    match SnapshotPath(model, revision)
    case None => Err(BadName)
    case Some(target) => if target in dirs then Verify(env.format, dirs[target], model, revision) else Err(NoManifest)
  }

  /** `expectedFits` and `fits` are the answers of `require_capacity`, for the announced size before the
      download and for the counted size before the commit. */
  datatype Order = Order(staging: string, model: string, revision: string, license: string, createdAt: string,
                         at: nat, expectedFits: bool, fits: bool)

  /** The result of `commit_snapshot` and the directories it leaves. */
  function Commit(env: Env, dirs: map<Path, Tree>, o: Order): (Result<Manifest, Fault>, map<Path, Tree>)
    requires StagingPath(o.staging) in dirs && o.at <= |dirs[StagingPath(o.staging)]|
  {
    var place := StagingPath(o.staging);
    match SnapshotPath(o.model, o.revision)
    case None => (Err(BadName), dirs)
    case Some(target) =>
      if target in dirs then (Verify(env.format, dirs[target], o.model, o.revision), dirs)
      else match Inventory(env.format, dirs[place])
           case Err(x) => (Err(x), dirs)
           case Ok((files, total)) =>
             if files == [] then (Err(Empty), dirs)
             else if !o.fits then (Err(Full), dirs)
             else
               var m := Manifest(o.model, o.revision, o.license, o.createdAt, total, files);
               (Ok(m), (dirs - {place})[target := WithManifest(dirs[place], env.format.json(m), o.at)])
  }

  /** Exactly when a download succeeds: the announced size fits, and the revision is there and intact, or its
      slot is free and what the hub delivered can be inventoried, is not empty and fits. */
  ghost predicate Succeeds(env: Env, locks: set<Digest>, dirs: map<Path, Tree>, o: Order, delivered: Option<Tree>) {
    o.expectedFits && SnapshotPath(o.model, o.revision).Some? &&
    var d := SnapshotPath(o.model, o.revision).value;
    if d in dirs then Verify(env.format, dirs[d], o.model, o.revision).Ok?
    else
      && env.key(LockText(o.model, o.revision)) !in locks
      && delivered.Some? && o.fits
      && Inventory(env.format, delivered.value).Ok? && Inventory(env.format, delivered.value).value.0 != []
  }

  /** The one directory that is there afterwards, and what it holds. */
  ghost predicate Lands(env: Env, before: map<Path, Tree>, dirs: map<Path, Tree>, o: Order, delivered: Option<Tree>,
                        r: Result<Manifest, Fault>) {
    SnapshotPath(o.model, o.revision).Some? &&
    var d := SnapshotPath(o.model, o.revision).value;
    && d in dirs && dirs.Keys == before.Keys + {d}
    && Verify(env.format, dirs[d], o.model, o.revision) == r
    && (d !in before ==> delivered.Some? && Covered(dirs[d]) == Covered(delivered.value))
  }

  class WeightVault {
    const env: Env
    var locks: set<Digest>
    var dirs: map<Path, Tree>

    constructor (env: Env)
      ensures this.env == env && locks == {} && dirs == map[]
    {
      this.env := env;
      locks := {};
      dirs := map[];
    }

    method Verify(model: string, revision: string) returns (r: Result<Manifest, Fault>)
      ensures r == VerifyNamed(env, dirs, model, revision)
      ensures var target := SnapshotPath(model, revision);
        && (target.None? ==> r == Err(BadName))
        && (target.Some? && target.value !in dirs ==> r == Err(NoManifest))
        && (target.Some? && target.value in dirs ==>
              r == SnapshotVault.Verify(env.format, dirs[target.value], model, revision))
    {
      var target := SnapshotPath(model, revision);
      if target.None? { return Err(BadName); }
      if target.value !in dirs { return Err(NoManifest); }
      var tree := dirs[target.value];
      var text := Readable(Lookup(tree, [MANIFEST]));
      if text.None? { return Err(NoManifest); }
      var manifest := env.format.parse(text.value);
      if manifest.None? { return Err(Unreadable); }
      var actual := TakeInventory(env.format, tree);
      if actual.Err? { return Err(actual.error); }
      if actual.value.0 != manifest.value.files || actual.value.1 != manifest.value.total {
        return Err(InventoryDiffers);
      }
      if manifest.value.model != model || manifest.value.revision != revision { return Err(IdentityDiffers); }
      return Ok(manifest.value);
    }

    method CommitSnapshot(o: Order) returns (r: Result<Manifest, Fault>)
      requires StagingPath(o.staging) in dirs && o.at <= |dirs[StagingPath(o.staging)]|
      modifies this`dirs
      ensures (r, dirs) == Commit(env, old(dirs), o)
      ensures var target, staged := SnapshotPath(o.model, o.revision), old(dirs)[StagingPath(o.staging)];
        && (r.Err? || old(target.value in dirs) ==> dirs == old(dirs))
        && (target.None? ==> r == Err(BadName))
        && (target.Some? && target.value in old(dirs) ==>
              r == SnapshotVault.Verify(env.format, old(dirs)[target.value], o.model, o.revision))
        && (target.Some? && target.value !in old(dirs) ==>
              match Inventory(env.format, staged)
              case Err(f) => r == Err(f)
              case Ok((files, total)) =>
                if files == [] then r == Err(Empty)
                else if !o.fits then r == Err(Full)
                else
                  && r == Ok(Manifest(o.model, o.revision, o.license, o.createdAt, total, files))
                  && target.value in dirs && dirs.Keys == old(dirs).Keys - {StagingPath(o.staging)} + {target.value}
                  && (Faithful(env.format) ==>
                        SnapshotVault.Verify(env.format, dirs[target.value], o.model, o.revision) == r))
    {
      var place := StagingPath(o.staging);
      var target := SnapshotPath(o.model, o.revision);
      if target.None? { return Err(BadName); }
      if target.value in dirs {
        r := Verify(o.model, o.revision);
        return;
      }
      var counted := TakeInventory(env.format, dirs[place]);
      if counted.Err? { return Err(counted.error); }
      var (files, total) := counted.value;
      if files == [] { return Err(Empty); }
      if !o.fits { return Err(Full); }
      var m := Manifest(o.model, o.revision, o.license, o.createdAt, total, files);
      dirs := dirs[place := WithManifest(dirs[place], env.format.json(m), o.at)];
      var staged := dirs[place];
      dirs := (dirs - {place})[target.value := staged];
      assert dirs == (old(dirs) - {place})[target.value := staged];
      if Faithful(env.format) { CommittedVerifies(env.format, old(dirs)[place], m, o.at); }
      return Ok(m);
    }

    /** Take the lock and a new staging directory. */
    method EnterSlot(model: string, revision: string, name: string) returns (r: Result<Path, Fault>)
      requires StagingPath(name) !in dirs
      modifies this
      ensures var key := env.key(LockText(model, revision));
        if key in old(locks) then r == Err(Busy) && locks == old(locks) && dirs == old(dirs)
        else r == Ok(StagingPath(name)) && locks == old(locks) + {key} && dirs == old(dirs)[StagingPath(name) := []]
    {
      var key := env.key(LockText(model, revision));
      if key in locks { return Err(Busy); }
      locks := locks + {key};
      dirs := dirs[StagingPath(name) := []];
      return Ok(StagingPath(name));
    }

    method LeaveSlot(model: string, revision: string, name: string)
      modifies this
      ensures locks == old(locks) - {env.key(LockText(model, revision))} && dirs == old(dirs) - {StagingPath(name)}
    {
      dirs := dirs - {StagingPath(name)};
      locks := locks - {env.key(LockText(model, revision))};
    }

    /** The download of src/decillion/models.py:105-124: whatever the hub delivered into the staging
        directory, or nothing when it failed. Afterwards the locks are as before, no staging
        directory is left, and at most the one target is new. */
    method Download(o: Order, delivered: Option<Tree>) returns (r: Result<Manifest, Fault>)
      requires StagingPath(o.staging) !in dirs && (delivered.Some? ==> o.at <= |delivered.value|)
      requires Faithful(env.format)
      modifies this
      ensures locks == old(locks) && StagingPath(o.staging) !in dirs
      ensures forall d :: d in old(dirs) ==> d in dirs && dirs[d] == old(dirs)[d]
      ensures r.Ok? ==> Lands(env, old(dirs), dirs, o, delivered, r)
      ensures r.Err? ==> dirs == old(dirs)
      ensures r.Ok? <==> Succeeds(env, old(locks), old(dirs), o, delivered)
      ensures var target := SnapshotPath(o.model, o.revision);
        if !o.expectedFits then r == Err(Full)
        else if target.None? then r == Err(BadName)
        else if target.value in old(dirs)
        then r == SnapshotVault.Verify(env.format, old(dirs)[target.value], o.model, o.revision)
        else if env.key(LockText(o.model, o.revision)) in old(locks) then r == Err(Busy)
        else if delivered.None? then r == Err(Interrupted)
        else
          match Inventory(env.format, delivered.value)
          case Err(f) => r == Err(f)
          case Ok((files, total)) =>
            if files == [] then r == Err(Empty)
            else if !o.fits then r == Err(Full)
            else r == Ok(Manifest(o.model, o.revision, o.license, o.createdAt, total, files))
    {
      hide Inventory, Covered, WithManifest, Commit;
      if !o.expectedFits { return Err(Full); }
      var target := SnapshotPath(o.model, o.revision);
      if target.None? { return Err(BadName); }
      if target.value in dirs {
        r := Verify(o.model, o.revision);
        return;
      }
      var slot := EnterSlot(o.model, o.revision, o.staging);
      if slot.Err? { return Err(slot.error); }
      if delivered.None? {
        r := Err(Interrupted);
      } else {
        dirs := dirs[slot.value := delivered.value];
        assert dirs == old(dirs)[slot.value := delivered.value];
        DownloadOutcome(env, old(dirs), o, delivered.value);
        r := CommitSnapshot(o);
      }
      LeaveSlot(o.model, o.revision, o.staging);
      assert locks == old(locks);
    }
  }

  /** What a commit and the removal of its staging directory leave of the directories. */
  lemma DownloadOutcome(env: Env, before: map<Path, Tree>, o: Order, tree: Tree)
    requires Faithful(env.format) && o.at <= |tree| && StagingPath(o.staging) !in before
    requires SnapshotPath(o.model, o.revision).Some? && SnapshotPath(o.model, o.revision).value !in before
    ensures var (r, dirs) := Commit(env, before[StagingPath(o.staging) := tree], o);
      && (r.Err? ==> dirs - {StagingPath(o.staging)} == before)
      && (r.Ok? <==> o.fits && Inventory(env.format, tree).Ok? && Inventory(env.format, tree).value.0 != [])
      && (r.Ok? ==>
           && Lands(env, before, dirs - {StagingPath(o.staging)}, o, Some(tree), r)
           && forall d :: d in before ==> d in dirs && dirs[d] == before[d])
  {
    hide Inventory, Covered, WithManifest, Verify, SnapshotPath;
    var place, target := StagingPath(o.staging), SnapshotPath(o.model, o.revision).value;
    TargetShape(Process(o.model, o.revision, "", "", Asking));
    assert before[place := tree] - {place} == before;
    var (r, dirs) := Commit(env, before[place := tree], o);
    if r.Ok? {
      CommittedVerifies(env.format, tree, r.value, o.at);
      CommittedCovers(tree, env.format.json(r.value), o.at);
      assert dirs == before[target := WithManifest(tree, env.format.json(r.value), o.at)];
    }
  }

  lemma CommittedCovers(tree: Tree, text: Bytes, at: nat)
    requires at <= |tree|
    ensures Covered(WithManifest(tree, text, at)) == Covered(tree)
  {
    hide Lookup, Covered, ManifestName;
    if Lookup(tree, [MANIFEST]).Some? {
      ReplacedCovers(tree, text);
    } else {
      var e := Entry([MANIFEST], File(text));
      assert tree == tree[..at] + tree[at..];
      Associates(tree[..at], [e], tree[at..]);
      NotCovered(e, tree[at..]);
      CoveredJoin(tree[..at], tree[at..]);
      CoveredJoin(tree[..at], [e] + tree[at..]);
    }
  }

  lemma NotCovered(e: Entry, rest: Tree)
    requires e.path == [MANIFEST]
    ensures Covered([e] + rest) == Covered(rest)
  {
    CoveredHead(e, rest);
  }

  lemma CoveredHead(e: Entry, rest: Tree)
    ensures Covered([e] + rest) == (if ManifestName(e.path) then [] else [e]) + Covered(rest)
  {
    assert ([e] + rest)[1..] == rest;
  }

  lemma Associates(a: Tree, b: Tree, c: Tree)
    ensures a + (b + c) == (a + b) + c
  {
  }

  lemma {:induction false} CoveredJoin(a: Tree, b: Tree)
    ensures Covered(a + b) == Covered(a) + Covered(b)
  {
    if a == [] {
      assert a + b == b;
    } else {
      hide Covered, ManifestName;
      var head, rest := a[0], a[1..];
      CoveredJoin(rest, b);
      CoveredHead(head, rest);
      CoveredHead(head, rest + b);
      assert a == [head] + rest;
      Associates([head], rest, b);
      Associates(if ManifestName(head.path) then [] else [head], Covered(rest), Covered(b));
    }
  }

  lemma {:induction false} ReplacedCovers(tree: Tree, text: Bytes)
    requires Lookup(tree, [MANIFEST]).Some?
    ensures Covered(Replaced(tree, text)) == Covered(tree)
  {
    if tree[0].path == [MANIFEST] {
      assert Replaced(tree, text)[1..] == tree[1..];
    } else {
      ReplacedCovers(tree[1..], text);
      assert Replaced(tree, text)[0] == tree[0] && Replaced(tree, text)[1..] == Replaced(tree[1..], text);
    }
  }

  /** The interleaved steps of `commit_snapshot`, when nobody interrupts them, are `CommitSnapshot`. */
  lemma CommitIsItsSteps(env: Env, s: State, who: nat, o: Order)
    requires SaneAt(env, s, who) && s.procs[who].phase.Filling?
    requires var p := s.procs[who];
      o.staging == p.staging && o.model == p.model && o.revision == p.revision && o.license == p.license
    requires o.at <= |s.dirs[StagingPath(o.staging)]|
    ensures var s1 := Step(env, s, Action(who, Check));
      var s2 := Step(env, s1, Action(who, Count(o.fits)));
      var s3 := Step(env, s2, Action(who, Write(o.createdAt, o.at)));
      var s4 := Step(env, s3, Action(who, Rename));
      who in s4.procs && s4.procs[who].phase == Leaving(Commit(env, s.dirs, o).0)
      && s4.dirs == Commit(env, s.dirs, o).1
  {
    hide SnapshotPath, Verify, WithManifest, Step, Inventory, Run, Commit;
    var p, place := s.procs[who], StagingPath(o.staging);
    var s1 := Step(env, s, Action(who, Check));
    var s2 := Step(env, s1, Action(who, Count(o.fits)));
    var s3 := Step(env, s2, Action(who, Write(o.createdAt, o.at)));
    CheckStep(env, s, who, o);
    if s1.procs[who].phase.Leaving? {
      LeavingWaits(env, s1, who, Count(o.fits));
      LeavingWaits(env, s1, who, Write(o.createdAt, o.at));
      LeavingWaits(env, s1, who, Rename);
    } else {
      CountStep(env, s1, who, o);
      if s2.procs[who].phase.Leaving? {
        LeavingWaits(env, s2, who, Write(o.createdAt, o.at));
        LeavingWaits(env, s2, who, Rename);
      } else {
        WriteAndRename(env, s2, who, o);
      }
    }
  }

  predicate Belongs(o: Order, p: Process) {
    o.staging == p.staging && o.model == p.model && o.revision == p.revision && o.license == p.license && Named(p)
  }

  lemma LeavingWaits(env: Env, s: State, who: nat, move: Move)
    requires who in s.procs && s.procs[who].phase.Leaving? && (move.Count? || move.Write? || move.Rename?)
    ensures Step(env, s, Action(who, move)) == s
  {
    hide SnapshotPath, Verify, WithManifest;
  }

  lemma CheckStep(env: Env, s: State, who: nat, o: Order)
    requires who in s.procs && s.procs[who].phase.Filling? && Belongs(o, s.procs[who])
    requires StagingPath(o.staging) in s.dirs && o.at <= |s.dirs[StagingPath(o.staging)]|
    ensures var p, t := s.procs[who], Step(env, s, Action(who, Check));
      && t.dirs == s.dirs && who in t.procs && Belongs(o, t.procs[who])
      && if Target(p) in s.dirs
         then t.procs[who].phase == Leaving(Commit(env, s.dirs, o).0) && Commit(env, s.dirs, o).1 == s.dirs
         else t.procs[who].phase.Counting?
  {
    hide SnapshotPath, Verify, WithManifest;
  }

  lemma CountStep(env: Env, s: State, who: nat, o: Order)
    requires who in s.procs && s.procs[who].phase.Counting? && Belongs(o, s.procs[who])
    requires Target(s.procs[who]) !in s.dirs
    requires StagingPath(o.staging) in s.dirs && o.at <= |s.dirs[StagingPath(o.staging)]|
    ensures var p, t := s.procs[who], Step(env, s, Action(who, Count(o.fits)));
      && t.dirs == s.dirs && who in t.procs && Belongs(o, t.procs[who])
      && (|| (t.procs[who].phase == Leaving(Commit(env, s.dirs, o).0) && Commit(env, s.dirs, o).1 == s.dirs)
          || (t.procs[who].phase.Counted? && o.fits && t.procs[who].phase.files != []
              && Inventory(env.format,
                           s.dirs[StagingPath(o.staging)]) == Ok((t.procs[who].phase.files, t.procs[who].phase.total))))
  {
    hide SnapshotPath, Verify, WithManifest;
  }

  lemma WriteAndRename(env: Env, s: State, who: nat, o: Order)
    requires who in s.procs && s.procs[who].phase.Counted? && Belongs(o, s.procs[who])
    requires Target(s.procs[who]) !in s.dirs
    requires StagingPath(o.staging) in s.dirs && o.at <= |s.dirs[StagingPath(o.staging)]|
    requires o.fits && s.procs[who].phase.files != []
    requires Inventory(env.format,
                       s.dirs[StagingPath(o.staging)]) == Ok((s.procs[who].phase.files, s.procs[who].phase.total))
    ensures var t := Step(env, Step(env, s, Action(who, Write(o.createdAt, o.at))), Action(who, Rename));
      who in t.procs && t.procs[who].phase == Leaving(Commit(env, s.dirs, o).0) && t.dirs == Commit(env, s.dirs, o).1
  {
    hide SnapshotPath, Verify, WithManifest, Inventory;
    var p, place := s.procs[who], StagingPath(o.staging);
    TargetShape(p);
    var t1 := Step(env, s, Action(who, Write(o.createdAt, o.at)));
    var t := Step(env, t1, Action(who, Rename));
    var m := Manifest(p.model, p.revision, p.license, o.createdAt, p.phase.total, p.phase.files);
    var staged := WithManifest(s.dirs[place], env.format.json(m), o.at);
    assert t1.dirs == s.dirs[place := staged] && t1.procs[who] == p.(phase := Written(m));
    assert t.dirs == (s.dirs - {place})[Target(p) := staged];
  }
}
