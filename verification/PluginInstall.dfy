/** Installing a plugin: replace its directory by renames, and take everything back if a step fails. */
module PluginInstall {
  import opened Wrappers

  datatype Path = Path(name: string)

  /** The content of a plugin directory, as far as loading it tells. */
  datatype Dir = Dir(id: string, hash: string)

  datatype Definition = Definition(id: string, hash: string, root: Path)

  /** The steps that can fail, each of which is done at most once in an installation. */
  datatype StepName =
    | Extract | Inspect | Reload | MakeParent | Copy | LoadStaged | MoveAside | MoveIn | LoadInstalled | DropBackup
    | UndoInstall | RestoreBackup | DropStaging | DropTemporary

  /** A failing copy or removal may leave anything behind; a failing rename leaves both directories as they
      were. Copying and reading may also go wrong without an error. */
  datatype Outcome = Succeeds | Fails(left: Option<Dir>) | Garbles(content: Dir)

  datatype Error = StepFailed(step: StepName) | Invalid | TargetExists

  datatype Installed = Installed(definition: Definition, replaced: bool)

  function Left(o: Outcome): Option<Dir> {
    if o.Fails? then o.left else None
  }

  type Files = map<Path, Dir>

  type Faults = StepName -> Outcome

  function Put(files: Files, path: Path, d: Option<Dir>): Files {
    if d.Some? then files[path := d.value] else files - {path}
  }

  function At(files: Files, path: Path): Option<Dir> {
    if path in files then Some(files[path]) else None
  }

  function DefinitionOf(d: Dir, root: Path): Definition {
    Definition(d.id, d.hash, root)
  }

  lemma SameFiles(a: Files, b: Files)
    ensures (forall p :: At(a, p) == At(b, p)) ==> a == b
  {
    if forall p :: At(a, p) == At(b, p) {
      assert forall p :: (p in a <==> At(a, p).Some?) && (p in b <==> At(b, p).Some?);
      assert a.Keys == b.Keys;
      assert forall p :: p in a ==> a[p] == At(a, p).value && b[p] == At(b, p).value;
    }
  }

  /** The unpacked archive is apart from everything an installation puts down. */
  lemma WithoutTemporary(files: Files, candidate: Dir, temporary: Path, target: Path, staging: Path)
    requires temporary !in files && temporary !in {target, staging}
    ensures files[temporary := candidate] - {temporary} == files
    ensures files[temporary := candidate][target := candidate] - {temporary} == files[target := candidate]
    ensures forall d :: Put(files[temporary := candidate], target, d) - {temporary} == Put(files, target, d)
    ensures forall d :: Put(files[temporary := candidate], staging, d) - {temporary} == Put(files, staging, d)
  {
  }

  class Disk {
    var files: Files
    const faults: Faults

    constructor (files: Files, faults: Faults)
      ensures this.files == files && this.faults == faults
    {
      this.files, this.faults := files, faults;
    }

    method Unpack(path: Path, content: Dir)
      modifies this`files
      ensures files == old(files)[path := content]
    {
      files := files[path := content];
    }

    method Cp(step: StepName, from: Path, to: Path) returns (ok: bool)
      requires from in files
      modifies this`files
      ensures ok <==> !faults(step).Fails?
      ensures files == Put(old(files), to, if faults(step).Fails? then faults(step).left
                                           else if faults(step).Garbles? then Some(faults(step).content)
                                           else Some(old(files)[from]))
    {
      match faults(step)
      case Succeeds => files := files[to := files[from]]; ok := true;
      case Fails(left) => files := Put(files, to, left); ok := false;
      case Garbles(content) => files := files[to := content]; ok := true;
    }

    method Rename(step: StepName, from: Path, to: Path) returns (ok: bool)
      modifies this`files
      ensures ok <==> !faults(step).Fails? && from in old(files) && to !in old(files)
      ensures files == if ok then old(files)[to := old(files)[from]] - {from} else old(files)
    {
      ok := !faults(step).Fails? && from in files && to !in files;
      if ok {
        files := files[to := files[from]] - {from};
      }
    }

    /** Removing what is not there succeeds. */
    method Rm(step: StepName, path: Path) returns (ok: bool)
      modifies this`files
      ensures ok <==> !faults(step).Fails?
      ensures files == if ok then old(files) - {path}
                       else if path in old(files) then Put(old(files), path, faults(step).left)
                       else old(files)
    {
      ok := !faults(step).Fails?;
      if ok {
        files := files - {path};
      } else if path in files {
        files := Put(files, path, faults(step).left);
      }
    }

    method Load(step: StepName, path: Path) returns (r: Option<Definition>)
      requires path in files
      ensures r.None? <==> faults(step).Fails?
      ensures r.Some? ==> r.value == DefinitionOf(if faults(step).Garbles? then faults(step).content else files[path], path)
    {
      match faults(step)
      case Succeeds => r := Some(DefinitionOf(files[path], path));
      case Fails(_) => r := None;
      case Garbles(content) => r := Some(DefinitionOf(content, path));
    }
  }

  /** At most one step goes wrong. */
  ghost predicate OneFault(faults: Faults) {
    forall a, b :: faults(a) != Succeeds && faults(b) != Succeeds ==> a == b
  }

  function Find(definitions: seq<Definition>, id: string): (r: Option<Definition>)
    ensures r.Some? ==> r.value in definitions && r.value.id == id
    ensures r.None? <==> forall d :: d in definitions ==> d.id != id
  {
    if definitions == [] then None
    else if definitions[0].id == id then Some(definitions[0])
    else Find(definitions[1..], id)
  }

  function Without(definitions: seq<Definition>, id: string): seq<Definition> {
    if definitions == [] then []
    else (if definitions[0].id == id then [] else [definitions[0]]) + Without(definitions[1..], id)
  }

  /** The index after an installation: the new definition takes the place of any with its id. */
  function Indexed(index: seq<Definition>, d: Definition): seq<Definition> {
    Without(index, d.id) + [d]
  }

  lemma {:induction false} FindOfTwo(a: seq<Definition>, b: seq<Definition>, id: string)
    ensures Find(a + b, id) == if Find(a, id).Some? then Find(a, id) else Find(b, id)
  {
    if a == [] {
      assert a + b == b;
    } else if a[0].id != id {
      assert (a + b)[1..] == a[1..] + b;
      FindOfTwo(a[1..], b, id);
    }
  }

  lemma {:induction false} WithoutFinds(definitions: seq<Definition>, gone: string, id: string)
    ensures Find(Without(definitions, gone), id) == if id == gone then None else Find(definitions, id)
  {
    if definitions != [] {
      WithoutFinds(definitions[1..], gone, id);
      FindOfTwo(if definitions[0].id == gone then [] else [definitions[0]], Without(definitions[1..], gone), id);
    }
  }

  /** The new definition is the one found under its id, and every other id finds what it found before. */
  lemma IndexedFinds(index: seq<Definition>, d: Definition, id: string)
    ensures Find(Indexed(index, d), id) == if id == d.id then Some(d) else Find(index, id)
    ensures |set e | e in Indexed(index, d) && e.id == d.id| == 1
  {
    WithoutFinds(index, d.id, id);
    WithoutFinds(index, d.id, d.id);
    FindOfTwo(Without(index, d.id), [d], id);
    assert (set e | e in Indexed(index, d) && e.id == d.id) == {d};
  }

  const FORWARD: set<StepName> := {Copy, LoadStaged, MoveAside, MoveIn, LoadInstalled, DropBackup}

  // ----- What an installation may leave behind -----

  /** The directories, and the index of the tenant. */
  datatype State = State(files: Files, index: seq<Definition>)

  function Target(reloaded: seq<Definition>, id: string, fallback: Path): Path {
    if Find(reloaded, id).Some? then Find(reloaded, id).value.root else fallback
  }

  predicate AlreadyThere(reloaded: seq<Definition>, candidate: Dir) {
    Find(reloaded, candidate.id).Some? && Find(reloaded, candidate.id).value.hash == candidate.hash
  }

  /** A directory that the index does not know stands where the plugin should go. */
  predicate Occupied(reloaded: seq<Definition>, id: string, fallback: Path, files: Files) {
    Find(reloaded, id).None? && fallback in files
  }

  /** What is there when every step succeeds. */
  predicate Wanted(candidate: Dir, reloaded: seq<Definition>, fallback: Path, before: Files, after: State) {
    var target := Target(reloaded, candidate.id, fallback);
    if AlreadyThere(reloaded, candidate) || Occupied(reloaded, candidate.id, fallback, before)
    then after == State(before, reloaded)
    else after == State(before[target := candidate], Indexed(reloaded, DefinitionOf(candidate, target)))
  }

  /** Success installs the candidate; an error leaves the directories as they were and the index as the
      reload left it, or untouched before the reload - except for a removal that fails: that of the backup,
      which is an error exactly when a directory stood in the target, and leaves there what it left of the
      old content, and that of the staging directory, which comes after everything else was done. */
  predicate Settles(faults: Faults, candidate: Dir, reloaded: seq<Definition>, fallback: Path, staging: Path,
                    before: State, r: Result<Installed, Error>, after: State) {
    var target := Target(reloaded, candidate.id, fallback);
    var occupied := Occupied(reloaded, candidate.id, fallback, before.files);
    && (r.Ok? ==>
          && !occupied && Wanted(candidate, reloaded, fallback, before.files, after)
          && r.value.replaced == Find(reloaded, candidate.id).Some?
          && r.value.definition.id == candidate.id && r.value.definition.hash == candidate.hash)
    && (r.Err? && !faults(DropBackup).Fails? && !faults(DropStaging).Fails? ==>
          after == State(before.files, if AnyFails(faults, EARLY) then before.index else reloaded))
    && (faults(DropBackup).Fails? ==> (r.Err? <==> !AlreadyThere(reloaded, candidate) && target in before.files))
    && (r.Err? && faults(DropBackup).Fails? ==>
          after == State(if occupied then before.files else Put(before.files, target, Left(faults(DropBackup))), reloaded))
    && (faults(DropStaging).Fails? ==> (r.Err? <==> !AlreadyThere(reloaded, candidate)))
    && (r.Err? && faults(DropStaging).Fails? ==>
          after == if occupied then State(Put(before.files, staging, Left(faults(DropStaging))), reloaded)
                   else State(before.files[target := candidate], Indexed(reloaded, DefinitionOf(candidate, target))))
    && (r.Err? ==> occupied || exists s :: s != DropTemporary && faults(s) != Succeeds)
  }

  predicate AnyFails(faults: Faults, steps: set<StepName>) {
    exists s :: s in steps && faults(s).Fails?
  }

  /** What holds beside the unpacked archive holds without it; with no other fault, all that was wanted
      is there. */
  lemma SettlesApart(faults: Faults, candidate: Dir, reloaded: seq<Definition>, fallback: Path, staging: Path,
                     temporary: Path, before: State, r: Result<Installed, Error>, after: State)
    requires temporary !in before.files && temporary != staging && temporary != Target(reloaded, candidate.id, fallback)
    requires OneFault(faults)
    requires Settles(faults, candidate, reloaded, fallback, staging,
                     before.(files := before.files[temporary := candidate]), r, after)
    ensures Settles(faults, candidate, reloaded, fallback, staging, before, r, after.(files := after.files - {temporary}))
    ensures faults(DropTemporary).Fails? ==>
      Wanted(candidate, reloaded, fallback, before.files, after.(files := after.files - {temporary}))
  {
    hide Indexed;
    WithoutTemporary(before.files, candidate, temporary, Target(reloaded, candidate.id, fallback), staging);
  }

  /** The same for the replacement alone, which starts after the reload. */
  predicate Deploys(faults: Faults, candidate: Dir, target: Path, existing: bool, staging: Path,
                    before: State, r: Result<Definition, Error>, after: State) {
    var occupied := target in before.files && !existing;
    var done := State(before.files[target := candidate], Indexed(before.index, DefinitionOf(candidate, target)));
    && (r.Ok? ==> r.value == DefinitionOf(candidate, target) && !occupied && after == done)
    && (r.Err? && !faults(DropBackup).Fails? && !faults(DropStaging).Fails? ==> after == before)
    && (faults(DropBackup).Fails? ==> (r.Err? <==> target in before.files))
    && (r.Err? && faults(DropBackup).Fails? ==>
          after == if occupied then before else before.(files := Put(before.files, target, Left(faults(DropBackup)))))
    && (faults(DropStaging).Fails? ==>
          r.Err? && after == if occupied then before.(files := Put(before.files, staging, Left(faults(DropStaging)))) else done)
    && (r.Err? ==> occupied || exists s :: s != DropTemporary && faults(s) != Succeeds)
  }

  lemma EarlyErrorSettles(faults: Faults, candidate: Dir, reloaded: seq<Definition>, fallback: Path, staging: Path,
                          before: State, step: StepName)
    requires OneFault(faults) && faults(step).Fails? && step in {Inspect, Reload, MakeParent}
    ensures Settles(faults, candidate, reloaded, fallback, staging, before, Err(StepFailed(step)),
                    if step == MakeParent then before.(index := reloaded) else before)
  {
    assert step in EARLY <==> step != MakeParent;
  }

  lemma NoEarlyFault(faults: Faults)
    requires !faults(Extract).Fails? && !faults(Inspect).Fails? && !faults(Reload).Fails?
    ensures !AnyFails(faults, EARLY)
  {
  }

  lemma NothingToDoSettles(faults: Faults, candidate: Dir, reloaded: seq<Definition>, fallback: Path, staging: Path,
                           before: State)
    requires AlreadyThere(reloaded, candidate)
    ensures Settles(faults, candidate, reloaded, fallback, staging, before,
                    Ok(Installed(Find(reloaded, candidate.id).value, true)), before.(index := reloaded))
  {
  }

  lemma DeployedSettles(faults: Faults, candidate: Dir, reloaded: seq<Definition>, fallback: Path, staging: Path,
                        before: State, r: Result<Definition, Error>, after: State)
    requires !AlreadyThere(reloaded, candidate) && !AnyFails(faults, EARLY)
    requires Deploys(faults, candidate, Target(reloaded, candidate.id, fallback), Find(reloaded, candidate.id).Some?,
                     staging, before.(index := reloaded), r, after)
    ensures Settles(faults, candidate, reloaded, fallback, staging, before,
                    if r.Ok? then Ok(Installed(r.value, Find(reloaded, candidate.id).Some?)) else Err(r.error), after)
  {
    hide Indexed;
  }

  /** Only removing the backup fails, and it leaves nothing. */
  ghost predicate OnlyRemovalFails(faults: Faults) {
    forall s :: faults(s) == if s == DropBackup then Fails(None) else Succeeds
  }

  /** An update under that fault reports an error and leaves neither the old content nor the new one,
      though the index still lists the plugin. */
  lemma FailingRemovalLosesPlugin(faults: Faults, was: Dir, candidate: Dir, root: Path, fallback: Path, staging: Path,
                                  index: seq<Definition>, r: Result<Installed, Error>, after: State)
    requires OnlyRemovalFails(faults) && was.id == candidate.id && was.hash != candidate.hash
    requires Settles(faults, candidate, [DefinitionOf(was, root)], fallback, staging,
                     State(map[root := was], index), r, after)
    ensures OneFault(faults) && r.Err? && after == State(map[], [DefinitionOf(was, root)])
  {
    assert Find([DefinitionOf(was, root)], candidate.id) == Some(DefinitionOf(was, root));
    assert map[root := was] - {root} == map[];
  }

  const EARLY: set<StepName> := {Extract, Inspect, Reload}

  /** The error names a step that went wrong, or the directory in the way. */
  predicate Blames(faults: Faults, e: Error) {
    match e
    case TargetExists => true
    case Invalid => faults(Copy).Garbles? || faults(LoadStaged).Garbles? || faults(LoadInstalled).Garbles?
    case StepFailed(step) => step in FORWARD && faults(step).Fails?
  }

  lemma TheOnlyFault(faults: Faults, e: Error)
    requires OneFault(faults) && Blames(faults, e) && e != TargetExists
    ensures forall s :: s !in FORWARD ==> faults(s) == Succeeds
    ensures faults(UndoInstall) == Succeeds && faults(RestoreBackup) == Succeeds && faults(DropStaging) == Succeeds
    ensures faults(DropBackup).Fails? <==> e == StepFailed(DropBackup)
    ensures exists s :: s in FORWARD && faults(s) != Succeeds
  {
    var blamed := if e.StepFailed? then e.step
                  else if faults(Copy).Garbles? then Copy
                  else if faults(LoadStaged).Garbles? then LoadStaged
                  else LoadInstalled;
    assert blamed in FORWARD && faults(blamed) != Succeeds;
  }

  lemma BlamedFault(faults: Faults)
    ensures forall e :: Blames(faults, e) && e != TargetExists ==> exists s :: s != DropTemporary && faults(s) != Succeeds
  {
  }

  lemma AtMostOneFault(faults: Faults)
    ensures OneFault(faults) ==> !(faults(Copy).Garbles? && faults(LoadStaged).Garbles?)
  {
  }

  /** What an attempt leaves, apart from the staging directory. */
  function Attempted(ok: bool, faults: Faults, before: Files, target: Path, candidate: Dir, existing: bool): Files {
    if ok then before[target := candidate]
    else if faults(DropBackup).Fails? && (target in before ==> existing) then Put(before, target, Left(faults(DropBackup)))
    else before
  }

  /** Taking back gives the old directories again, beside the staging directory, unless the backup itself
      was hit. */
  lemma TakenBack(before: Files, tried: Files, after: Files, target: Path, staging: Path, backup: Path,
                  moved: bool, installed: bool, dropped: bool, left: Option<Dir>)
    requires backup !in before && staging !in before && staging != backup && target !in {staging, backup}
    requires forall p :: p !in {target, staging, backup} ==> At(tried, p) == At(before, p)
    requires At(tried, backup) == if !moved then None else if dropped then left else At(before, target)
    requires !installed ==> At(tried, target) == if moved then None else At(before, target)
    requires (moved ==> target in before) && (installed && !moved ==> target !in before)
    requires dropped ==> moved && installed
    requires after == if moved && backup in tried then tried[target := tried[backup]] - {backup}
                      else if installed then tried - {target}
                      else tried
    ensures after - {staging} == if dropped then Put(before, target, left) else before
  {
    var want := if dropped then Put(before, target, left) else before;
    forall p ensures At(after - {staging}, p) == At(want, p) {
      assert p !in {target, staging, backup} ==> At(after, p) == At(tried, p) == At(before, p);
    }
    SameFiles(after - {staging}, want);
  }

  class Registry {
    const disk: Disk
    var current: seq<Definition>
    var deployments: set<Definition>

    constructor (disk: Disk)
      ensures this.disk == disk && current == [] && deployments == {}
    {
      this.disk, current, deployments := disk, [], {};
    }

    /** Copies the candidate to the staging directory and checks the copy. */
    method Stage(temporary: Path, candidate: Dir, staging: Path) returns (error: Option<Error>)
      requires At(disk.files, temporary) == Some(candidate) && staging != temporary
      modifies disk`files
      ensures forall p :: p != staging ==> At(disk.files, p) == old(At(disk.files, p))
      ensures error.Some? ==> Blames(disk.faults, error.value) && error.value !in {TargetExists, StepFailed(DropBackup)}
      ensures error.None? ==> staging in disk.files
      ensures error.None? && !(disk.faults(Copy).Garbles? && disk.faults(LoadStaged).Garbles?) ==>
        disk.files[staging] == candidate
    {
      var ok := disk.Cp(Copy, temporary, staging);
      if !ok {
        return Some(StepFailed(Copy));
      }
      var staged := disk.Load(LoadStaged, staging);
      if staged.None? {
        return Some(StepFailed(LoadStaged));
      }
      if staged.value.id != candidate.id || staged.value.hash != candidate.hash {
        return Some(Invalid);
      }
      return None;
    }

    /** The part that is taken back when it throws: copy, check, move the old directory aside and the new
        one in, check again, drop the old one. */
    method Replace(temporary: Path, candidate: Dir, target: Path, existing: bool, staging: Path, backup: Path)
      returns (r: Result<Definition, Error>, moved: bool, installed: bool)
      requires At(disk.files, temporary) == Some(candidate)
      requires staging !in disk.files && backup !in disk.files
      requires staging != backup && target !in {staging, backup, temporary}
      modifies disk`files
      ensures forall p :: p !in {target, staging, backup} ==> At(disk.files, p) == old(At(disk.files, p))
      ensures r.Ok? ==> r.value == DefinitionOf(candidate, target)
      ensures r.Ok? && !(disk.faults(Copy).Garbles? && disk.faults(LoadStaged).Garbles?) ==>
        disk.files == old(disk.files)[target := candidate]
      ensures r.Err? ==> Blames(disk.faults, r.error) && (r.error == TargetExists ==> !moved && !installed)
      ensures r.Err? ==> (moved ==> target in old(disk.files))
      ensures r.Err? ==>
                (At(disk.files, backup) == if !moved then None
                                           else if r.error == StepFailed(DropBackup) then Left(disk.faults(DropBackup))
                                           else old(At(disk.files, target)))
      ensures r.Err? && !installed ==> At(disk.files, target) == if moved then None else old(At(disk.files, target))
      ensures r.Err? && installed ==> staging !in disk.files && (!moved ==> target !in old(disk.files))
      ensures r == Err(StepFailed(DropBackup)) ==> moved && installed && disk.faults(DropBackup).Fails?
      ensures r == Err(TargetExists) ==> target in old(disk.files) && !existing && staging in disk.files
      ensures moved ==> existing
      ensures r.Ok? ==> !(target in old(disk.files) && !existing)
      ensures r.Ok? && disk.faults(DropBackup).Fails? ==> target !in old(disk.files)
    {
      moved, installed := false, false;
      var refused := Stage(temporary, candidate, staging);
      assert At(disk.files, target) == old(At(disk.files, target)) && At(disk.files, backup) == old(At(disk.files, backup));
      assert backup !in disk.files && (target in disk.files <==> target in old(disk.files));
      if refused.Some? {
        return Err(refused.value), moved, installed;
      }
      var ok;
      if target in disk.files {
        if !existing {
          return Err(TargetExists), moved, installed;
        }
        ok := disk.Rename(MoveAside, target, backup);
        if !ok {
          return Err(StepFailed(MoveAside)), moved, installed;
        }
        moved := true;
      }
      ok := disk.Rename(MoveIn, staging, target);
      if !ok {
        return Err(StepFailed(MoveIn)), moved, installed;
      }
      installed := true;
      var definition := disk.Load(LoadInstalled, target);
      if definition.None? {
        return Err(StepFailed(LoadInstalled)), moved, installed;
      }
      if definition.value.id != candidate.id || definition.value.hash != candidate.hash {
        return Err(Invalid), moved, installed;
      }
      if moved {
        ok := disk.Rm(DropBackup, backup);
        if !ok {
          return Err(StepFailed(DropBackup)), moved, installed;
        }
      }
      r := Ok(definition.value);
      assert staging !in disk.files && backup !in disk.files;
      SameFiles(disk.files, old(disk.files)[target := candidate]);
    }

    /** The catch clause: removes the new directory and moves the old one back. */
    method TakeBack(target: Path, backup: Path, moved: bool, installed: bool, error: Error) returns (e: Error)
      requires disk.faults(UndoInstall) == Succeeds && disk.faults(RestoreBackup) == Succeeds ==>
        (moved && !installed ==> target !in disk.files)
      modifies disk`files
      ensures disk.faults(UndoInstall) == Succeeds && disk.faults(RestoreBackup) == Succeeds ==>
        && (moved && backup in old(disk.files) && backup != target ==>
              e == error && disk.files == old(disk.files)[target := old(disk.files)[backup]] - {backup})
        && (moved && backup !in old(disk.files) && installed ==>
              e == StepFailed(RestoreBackup) && disk.files == old(disk.files) - {target})
        && (!moved && installed ==> e == error && disk.files == old(disk.files) - {target})
      ensures !moved && !installed ==> e == error && disk.files == old(disk.files)
    {
      if installed {
        var removed := disk.Rm(UndoInstall, target);
        if !removed {
          return StepFailed(UndoInstall);
        }
      }
      if moved {
        var restored := disk.Rename(RestoreBackup, backup, target);
        if !restored {
          return StepFailed(RestoreBackup);
        }
      }
      e := error;
    }

    /** Replacement with its catch clause. With at most one fault, success means the new content, and an
        error means that nothing has changed, unless it was the removal of the backup that failed. */
    method Attempt(temporary: Path, candidate: Dir, target: Path, existing: bool, staging: Path, backup: Path)
      returns (r: Result<Definition, Error>)
      requires At(disk.files, temporary) == Some(candidate)
      requires staging !in disk.files && backup !in disk.files
      requires staging != backup && target !in {staging, backup, temporary}
      modifies disk`files
      ensures r.Ok? ==> r.value == DefinitionOf(candidate, target) && !(target in old(disk.files) && !existing)
      ensures r.Err? ==>
        (target in old(disk.files) && !existing) || exists s :: s != DropTemporary && disk.faults(s) != Succeeds
      ensures OneFault(disk.faults) && disk.faults(DropBackup).Fails? ==> (r.Err? <==> target in old(disk.files))
      ensures OneFault(disk.faults) && disk.faults(DropStaging).Fails? ==>
        (r.Err? <==> target in old(disk.files) && !existing) && (r.Err? <==> staging in disk.files)
      ensures OneFault(disk.faults) ==>
        disk.files - {staging} == Attempted(r.Ok?, disk.faults, old(disk.files), target, candidate, existing)
    {
      hide Blames, OneFault;
      BlamedFault(disk.faults);
      AtMostOneFault(disk.faults);
      var replaced, moved, installed := Replace(temporary, candidate, target, existing, staging, backup);
      if replaced.Ok? {
        assert OneFault(disk.faults) ==> disk.files == old(disk.files)[target := candidate];
        assert staging !in old(disk.files)[target := candidate];
        return replaced;
      }
      if OneFault(disk.faults) && replaced.error != TargetExists {
        TheOnlyFault(disk.faults, replaced.error);
      }
      ghost var tried := disk.files;
      var e := TakeBack(target, backup, moved, installed, replaced.error);
      r := Err(e);
      if OneFault(disk.faults) {
        TakenBack(old(disk.files), tried, disk.files, target, staging, backup, moved, installed,
                  replaced.error == StepFailed(DropBackup), Left(disk.faults(DropBackup)));
      }
    }

    /** Replacement with its catch and finally clauses, and the index. With at most one fault:
        success means the new content, and an error means that nothing has changed - unless it was the
        removal of the backup that failed, which leaves in the target what it left of the old content, or
        the final removal of the staging directory, which fails after the installation was done. */
    method Deploy(temporary: Path, candidate: Dir, target: Path, existing: bool, staging: Path, backup: Path)
      returns (r: Result<Definition, Error>)
      requires At(disk.files, temporary) == Some(candidate)
      requires staging !in disk.files && backup !in disk.files
      requires staging != backup && target !in {staging, backup, temporary}
      modifies this, disk`files
      ensures r.Ok? ==> !(target in old(disk.files) && !existing)
      ensures r.Err? ==>
        (target in old(disk.files) && !existing) || exists s :: s != DropTemporary && disk.faults(s) != Succeeds
      ensures OneFault(disk.faults) ==>
        Deploys(disk.faults, candidate, target, existing, staging,
                State(old(disk.files), old(current)), r, State(disk.files, current))
      ensures r.Ok? ==> deployments == old(deployments) + {r.value}
    {
      var attempt := Attempt(temporary, candidate, target, existing, staging, backup);
      if attempt.Ok? {
        current := Indexed(current, attempt.value);
        deployments := deployments + {attempt.value};
      }
      r := attempt;
      ghost var attempted := disk.files;
      var cleaned := disk.Rm(DropStaging, staging);
      if !cleaned {
        r := Err(StepFailed(DropStaging));
        assert Put(attempted, staging, Left(disk.faults(DropStaging))) ==
               Put(attempted - {staging}, staging, Left(disk.faults(DropStaging)));
        assert staging !in attempted ==> attempted == attempted - {staging};
      }
    }

    /** Everything between unpacking the archive and removing what was unpacked. */
    method InstallExtracted(candidate: Dir, reloaded: seq<Definition>, fallback: Path,
                            staging: Path, backup: Path, temporary: Path)
      returns (r: Result<Installed, Error>)
      requires At(disk.files, temporary) == Some(candidate) && !disk.faults(Extract).Fails?
      requires staging !in disk.files && backup !in disk.files && staging != backup
      requires Target(reloaded, candidate.id, fallback) !in {staging, backup, temporary}
      modifies this, disk`files
      ensures OneFault(disk.faults) ==>
        Settles(disk.faults, candidate, reloaded, fallback, staging,
                State(old(disk.files), old(current)), r, State(disk.files, current))
    {
      hide Settles, Deploys, AnyFails;
      ghost var before := State(disk.files, current);
      if disk.faults(Inspect).Fails? {
        if OneFault(disk.faults) {
          EarlyErrorSettles(disk.faults, candidate, reloaded, fallback, staging, before, Inspect);
        }
        return Err(StepFailed(Inspect));
      }
      if disk.faults(Reload).Fails? {
        if OneFault(disk.faults) {
          EarlyErrorSettles(disk.faults, candidate, reloaded, fallback, staging, before, Reload);
        }
        return Err(StepFailed(Reload));
      }
      current := reloaded;
      deployments := deployments + set d | d in reloaded;
      var existing := Find(current, candidate.id);
      if existing.Some? && existing.value.hash == candidate.hash {
        NothingToDoSettles(disk.faults, candidate, reloaded, fallback, staging, before);
        return Ok(Installed(existing.value, true));
      }
      if disk.faults(MakeParent).Fails? {
        if OneFault(disk.faults) {
          EarlyErrorSettles(disk.faults, candidate, reloaded, fallback, staging, before, MakeParent);
        }
        return Err(StepFailed(MakeParent));
      }
      var target := Target(reloaded, candidate.id, fallback);
      var deployed := Deploy(temporary, candidate, target, existing.Some?, staging, backup);
      if OneFault(disk.faults) {
        NoEarlyFault(disk.faults);
        DeployedSettles(disk.faults, candidate, reloaded, fallback, staging, before, deployed, State(disk.files, current));
      }
      r := if deployed.Ok? then Ok(Installed(deployed.value, existing.Some?)) else Err(deployed.error);
    }

    /** The whole installation. `reloaded` is what reloading the index finds, `fallback` the directory of a
        plugin that has none yet; the archive is unpacked at `temporary`, which is removed in the end. */
    method InstallArchive(candidate: Dir, reloaded: seq<Definition>, fallback: Path,
                          staging: Path, backup: Path, temporary: Path)
      returns (r: Result<Installed, Error>)
      requires {staging, backup, temporary} !! disk.files.Keys
      requires staging != backup && temporary !in {staging, backup}
      requires Target(reloaded, candidate.id, fallback) !in {staging, backup, temporary}
      modifies this, disk`files
      ensures OneFault(disk.faults) && !disk.faults(DropTemporary).Fails? ==>
        Settles(disk.faults, candidate, reloaded, fallback, staging,
                State(old(disk.files), old(current)), r, State(disk.files, current))
      ensures OneFault(disk.faults) && disk.faults(DropTemporary).Fails? ==>
        && r.Err?
        && Wanted(candidate, reloaded, fallback, old(disk.files),
                  State(Put(disk.files, temporary, None), current))
        && At(disk.files, temporary) == Left(disk.faults(DropTemporary))
    {
      if disk.faults(Extract).Fails? {
        return Err(StepFailed(Extract));
      }
      ghost var before := disk.files;
      disk.Unpack(temporary, candidate);
      r := InstallExtracted(candidate, reloaded, fallback, staging, backup, temporary);
      ghost var installed, extracted := r, disk.files;
      var cleaned := disk.Rm(DropTemporary, temporary);
      if !cleaned {
        r := Err(StepFailed(DropTemporary));
      }
      assert Put(disk.files, temporary, None) == extracted - {temporary};
      hide Settles, Wanted;
      if OneFault(disk.faults) {
        SettlesApart(disk.faults, candidate, reloaded, fallback, staging, temporary,
                     State(before, old(current)), installed, State(extracted, current));
      }
    }
  }
}
