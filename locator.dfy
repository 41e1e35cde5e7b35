/**
 * `findEnvFile`: look for the file in the working directory, then in up to
 * `maxLevels` parent directories, nearest first. The file system is an
 * abstract set of existing paths; a path is its list of components from the
 * root, so the root is the empty list and a parent drops the last component.
 */
module Locator {
  import opened Results

  type Path = seq<string>

  /** `filepath.Dir` on a directory: the root is its own parent. */
  function Parent(dir: Path): (p: Path)
    ensures p == dir <==> dir == []
    ensures dir != [] ==> dir == p + [dir[|dir| - 1]]
  {
    if dir == [] then [] else dir[..|dir| - 1]
  }

  /** The directory `k` levels above `cwd`. */
  function Ancestor(cwd: Path, k: nat): Path
    requires k <= |cwd|
  {
    cwd[..|cwd| - k]
  }

  /** What `findEnvFile` returns: the name as given (found in the working directory) or `filepath.Join(dir, name)`. */
  datatype EnvPath = AsGiven(name: string) | Joined(dir: Path, name: string)

  datatype FindError = NotFound(pathname: string)

  /** The file an `EnvPath` names, seen from working directory `cwd`. */
  function Resolve(cwd: Path, p: EnvPath): Path
  {
    match p
    case AsGiven(name) => cwd + [name]
    case Joined(dir, name) => dir + [name]
  }

  /** How many parent directories the search can visit: `maxLevels`, but no higher than the root. */
  function Reach(cwd: Path, maxLevels: int): (n: nat)
    ensures n <= |cwd|
  {
    if maxLevels <= 0 then 0 else if maxLevels < |cwd| then maxLevels else |cwd|
  }

  /** The climb from `dir` with `levels` hops left. */
  function Climb(existing: set<Path>, dir: Path, pathname: string, levels: int): (r: Result<EnvPath, FindError>)
    ensures r.Fail? ==> r == Fail(NotFound(pathname))
    ensures r.Ok? ==> r.value.Joined? && r.value.name == pathname && r.value.dir + [pathname] in existing
    decreases if levels < 0 then 0 else levels
  {
    if levels <= 0 || Parent(dir) == dir then Fail(NotFound(pathname))
    else if Parent(dir) + [pathname] in existing then Ok(Joined(Parent(dir), pathname))
    else Climb(existing, Parent(dir), pathname, levels - 1)
  }

  /** The result `findEnvFile` specifies. */
  function Locate(existing: set<Path>, cwd: Path, pathname: string, maxLevels: int): (r: Result<EnvPath, FindError>)
    ensures r.Fail? ==> r == Fail(NotFound(pathname))
    ensures r.Ok? ==> Resolve(cwd, r.value) in existing && r.value.name == pathname
  {
    if cwd + [pathname] in existing then Ok(AsGiven(pathname))
    else Climb(existing, cwd, pathname, maxLevels)
  }

  /** Level `k` above `cwd` holds the file. */
  predicate HitAt(existing: set<Path>, cwd: Path, pathname: string, k: nat)
    requires k <= |cwd|
  {
    Ancestor(cwd, k) + [pathname] in existing
  }

  /** A climb from `cwd`, starting `done` levels up, that finds the file finds it at the nearest level holding it. */
  lemma {:induction false} ClimbHit(existing: set<Path>, cwd: Path, pathname: string, maxLevels: int, done: nat)
    requires done <= |cwd| && (done == 0 || done <= maxLevels)
    requires Climb(existing, Ancestor(cwd, done), pathname, maxLevels - done).Ok?
    ensures var p := Climb(existing, Ancestor(cwd, done), pathname, maxLevels - done).value;
            p.Joined? && p.name == pathname && done < |cwd| - |p.dir| <= Reach(cwd, maxLevels) &&
            p.dir == Ancestor(cwd, |cwd| - |p.dir|) && HitAt(existing, cwd, pathname, |cwd| - |p.dir|) &&
            forall j :: done < j < |cwd| - |p.dir| ==> !HitAt(existing, cwd, pathname, j)
    decreases |cwd| - done
  {
    var dir := Ancestor(cwd, done);
    var up := Parent(dir);
    assert up == Ancestor(cwd, done + 1);
    if up + [pathname] !in existing {
      ClimbHit(existing, cwd, pathname, maxLevels, done + 1);
      var p := Climb(existing, dir, pathname, maxLevels - done).value;
      forall j | done < j < |cwd| - |p.dir| ensures !HitAt(existing, cwd, pathname, j) {
        if j == done + 1 {
          assert up + [pathname] !in existing;
        }
      }
    }
  }

  /** A climb from `cwd`, starting `done` levels up, that fails passed no level within reach holding the file. */
  lemma {:induction false} ClimbMiss(existing: set<Path>, cwd: Path, pathname: string, maxLevels: int, done: nat)
    requires done <= |cwd| && (done == 0 || done <= maxLevels)
    requires Climb(existing, Ancestor(cwd, done), pathname, maxLevels - done).Fail?
    ensures Climb(existing, Ancestor(cwd, done), pathname, maxLevels - done) == Fail(NotFound(pathname))
    ensures forall j :: done < j <= Reach(cwd, maxLevels) ==> !HitAt(existing, cwd, pathname, j)
    decreases |cwd| - done
  {
    var dir := Ancestor(cwd, done);
    if maxLevels - done > 0 && Parent(dir) != dir {
      assert Parent(dir) == Ancestor(cwd, done + 1);
      ClimbMiss(existing, cwd, pathname, maxLevels, done + 1);
      forall j | done < j <= Reach(cwd, maxLevels) ensures !HitAt(existing, cwd, pathname, j) {
        if j == done + 1 {
          assert Parent(dir) + [pathname] !in existing;
        }
      }
    } else {
      assert Reach(cwd, maxLevels) <= done;
    }
  }

  /**
   * The search, stated without the climb: the working directory wins; else
   * the nearest ancestor within `maxLevels` hops (and no higher than the root) that
   * holds the file; else a not-found error naming the file.
   */
  lemma LocateNearestFirst(existing: set<Path>, cwd: Path, pathname: string, maxLevels: int)
    ensures cwd + [pathname] in existing ==> Locate(existing, cwd, pathname, maxLevels) == Ok(AsGiven(pathname))
    ensures cwd + [pathname] !in existing ==>
              match Locate(existing, cwd, pathname, maxLevels)
              case Ok(p) =>
                p.Joined? && p.name == pathname && 1 <= |cwd| - |p.dir| <= Reach(cwd, maxLevels) &&
                p.dir == Ancestor(cwd, |cwd| - |p.dir|) && HitAt(existing, cwd, pathname, |cwd| - |p.dir|) &&
                forall j :: 1 <= j < |cwd| - |p.dir| ==> !HitAt(existing, cwd, pathname, j)
              case Fail(e) =>
                e == NotFound(pathname) &&
                forall j :: 1 <= j <= Reach(cwd, maxLevels) ==> !HitAt(existing, cwd, pathname, j)
  {
    assert Ancestor(cwd, 0) == cwd;
    if Climb(existing, cwd, pathname, maxLevels).Ok? {
      ClimbHit(existing, cwd, pathname, maxLevels, 0);
    } else {
      ClimbMiss(existing, cwd, pathname, maxLevels, 0);
    }
  }

  /** Whatever `Locate` returns exists. */
  lemma LocatedExists(existing: set<Path>, cwd: Path, pathname: string, maxLevels: int)
    requires Locate(existing, cwd, pathname, maxLevels).Ok?
    ensures Resolve(cwd, Locate(existing, cwd, pathname, maxLevels).value) in existing
  {
    LocateNearestFirst(existing, cwd, pathname, maxLevels);
  }

  /** Allowing more levels never changes a file that was found: the search stops at the first hit. */
  lemma {:induction false} ClimbMonotone(existing: set<Path>, dir: Path, pathname: string, levels: int, more: int)
    requires levels <= more
    requires Climb(existing, dir, pathname, levels).Ok?
    ensures Climb(existing, dir, pathname, more) == Climb(existing, dir, pathname, levels)
    decreases if levels < 0 then 0 else levels
  {
    if Parent(dir) + [pathname] !in existing {
      ClimbMonotone(existing, Parent(dir), pathname, levels - 1, more - 1);
    }
  }

  /** `findEnvFile`: stat the name in the working directory, then climb one parent at a time. */
  method FindEnvFile(existing: set<Path>, cwd: Path, pathname: string, maxLevels: int) returns (r: Result<EnvPath, FindError>)
    ensures r == Locate(existing, cwd, pathname, maxLevels)
  {
    if cwd + [pathname] in existing {
      return Ok(AsGiven(pathname));
    }
    var dir := cwd;
    var level := 0;
    while level < maxLevels
      invariant 0 <= level
      invariant Climb(existing, dir, pathname, maxLevels - level) == Climb(existing, cwd, pathname, maxLevels)
    {
      var parent := Parent(dir);
      if parent == dir {
        break;
      }
      dir := parent;
      if dir + [pathname] in existing {
        return Ok(Joined(dir, pathname));
      }
      level := level + 1;
    }
    return Fail(NotFound(pathname));
  }

  /**
   * Working directory `/home/user/project/cmd`, three levels allowed, the file
   * in `/home/user` and at the root: the nearer copy, two levels up, is returned.
   */
  lemma ExampleTwoLevelsUp(home: string, user: string, project: string, cmd: string, name: string)
    ensures Locate({[home, user, name], [name]}, [home, user, project, cmd], name, 3) == Ok(Joined([home, user], name))
  {
    var existing := {[home, user, name], [name]};
    var cwd, up1, up2 := [home, user, project, cmd], [home, user, project], [home, user];
    assert |cwd + [name]| == 5 && cwd + [name] !in existing;
    assert Parent(cwd) == up1 && |up1 + [name]| == 4 && up1 + [name] !in existing;
    assert up2 + [name] == [home, user, name];
    assert Parent(up1) == up2 && up2 + [name] in existing;
    assert Climb(existing, up1, name, 2) == Ok(Joined(up2, name));
  }
}
