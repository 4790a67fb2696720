/**
 * `npx remotion upgrade` (packages/cli/src/upgrade.ts): which Remotion packages of the project are
 * upgraded and the package-manager command that upgrades them. Reading `package.json`, asking
 * the registry for the latest version, detecting the lockfile and running the manager are not
 * part of this model: their results, failures included, are inputs.
 */
module Upgrade {

  import opened Wrappers
  import opened Text

  const NoLockfileBefore := "No lockfile was found in your project (one of "
  const NoLockfileAfter := "). Install dependencies using your favorite manager!"

  datatype PackageManager = Npm | Pnpm | Yarn

  function ManagerName(m: PackageManager): string {
    match m
    case Npm => "npm"
    case Pnpm => "pnpm"
    case Yarn => "yarn"
  }

  const NoPackageJsonError := "Could not upgrade because no package.json could be found in your project."

  function NoLockfileError(lockFilePaths: seq<string>): string {
    NoLockfileBefore + Join(lockFilePaths, ", ") +
    NoLockfileAfter
  }

  /** The packages `upgrade` looks for among the dependencies, in this order. */
  const Upgradable: seq<string> := [
    "@remotion/bundler", "@remotion/cli", "@remotion/eslint-config", "@remotion/renderer",
    "@remotion/media-utils", "@remotion/babel-loader", "@remotion/lambda", "@remotion/preload",
    "@remotion/three", "@remotion/gif", "remotion"]

  /** `candidates.filter((u) => dependencies.includes(u))`. */
  function Present(candidates: seq<string>, dependencies: seq<string>): (r: seq<string>)
    ensures forall p :: p in r <==> p in candidates && p in dependencies
    ensures |r| <= |candidates|
    decreases |candidates|
  {
    if |candidates| == 0 then []
    else
      var init := candidates[..|candidates| - 1];
      var last := candidates[|candidates| - 1];
      assert candidates == init + [last];
      var rest := Present(init, dependencies);
      if last in dependencies then rest + [last] else rest
  }

  /** The filter keeps the candidates' order: filtering a concatenation concatenates the filtered parts. */
  lemma {:induction false} PresentKeepsOrder(a: seq<string>, b: seq<string>, dependencies: seq<string>)
    ensures Present(a + b, dependencies) == Present(a, dependencies) + Present(b, dependencies)
    decreases |b|
  {
    if |b| == 0 {
      assert a + b == a;
    } else {
      var init := b[..|b| - 1];
      assert (a + b)[..|a + b| - 1] == a + init;
      assert (a + b)[|a + b| - 1] == b[|b| - 1];
      PresentKeepsOrder(a, init, dependencies);
    }
  }

  predicate NoRepeats(xs: seq<string>) {
    forall i, j :: 0 <= i < j < |xs| ==> xs[i] != xs[j]
  }

  /** A candidate list without repeats filters to one without repeats. */
  lemma {:induction false} PresentHasNoRepeats(candidates: seq<string>, dependencies: seq<string>)
    requires NoRepeats(candidates)
    ensures NoRepeats(Present(candidates, dependencies))
    decreases |candidates|
  {
    if |candidates| > 0 {
      var init := candidates[..|candidates| - 1];
      var last := candidates[|candidates| - 1];
      PresentHasNoRepeats(init, dependencies);
      assert last !in init by {
        assert forall i :: 0 <= i < |init| ==> init[i] == candidates[i];
      }
      var rest := Present(init, dependencies);
      assert candidates == init + [last];
      assert Present(candidates, dependencies) == if last in dependencies then rest + [last] else rest;
      assert last !in rest;
      if last in dependencies {
        var r := rest + [last];
        forall i, j | 0 <= i < j < |r|
          ensures r[i] != r[j]
        {
          if j == |rest| {
            assert r[i] == rest[i] && r[i] in rest;
          } else {
            assert r[i] == rest[i] && r[j] == rest[j];
          }
        }
      }
    }
  }

  /** `toUpgrade`: the upgradable packages the project depends on, in the fixed order, each once. */
  function ToUpgrade(dependencies: seq<string>): (r: seq<string>)
    ensures forall p :: p in r <==> p in Upgradable && p in dependencies
    ensures NoRepeats(r)
  {
    PresentHasNoRepeats(Upgradable, dependencies);
    Present(Upgradable, dependencies)
  }

  /** Between a package and its version: a caret range. */
  const CaretRange := "@^"

  /** `${p}@^${version}` for every package, in order. */
  function Versioned(packages: seq<string>, version: string): (r: seq<string>)
    ensures |r| == |packages|
    ensures forall i :: 0 <= i < |r| ==> r[i] == packages[i] + CaretRange + version
  {
    seq(|packages|, i requires 0 <= i < |packages| => packages[i] + CaretRange + version)
  }

  /** `getUpgradeCommand`: `i` for npm and pnpm, `add` for yarn, then the versioned packages. */
  function UpgradeCommand(manager: PackageManager, packages: seq<string>, version: string): (r: seq<string>)
    ensures |r| == |packages| + 1
    ensures r[0] == (if manager == Yarn then "add" else "i")
    ensures r[1..] == Versioned(packages, version)
  {
    var verb := if manager == Yarn then "add" else "i";
    [verb] + Versioned(packages, version)
  }

  /** Each argument after the verb names its package: cutting `@^` and the version off gives the package back. */
  lemma UpgradeCommandNamesPackages(manager: PackageManager, packages: seq<string>, version: string)
    ensures var r := UpgradeCommand(manager, packages, version);
      forall i :: 0 <= i < |packages| ==>
        EndsWith(r[i + 1], CaretRange + version) && r[i + 1][..|r[i + 1]| - |version| - 2] == packages[i]
  {
    var r := UpgradeCommand(manager, packages, version);
    var v := Versioned(packages, version);
    VersionedNamesPackages(packages, version);
    forall i | 0 <= i < |packages|
      ensures r[i + 1] == v[i]
    {
      assert r[1..][i] == r[i + 1];
    }
  }

  lemma VersionedNamesPackages(packages: seq<string>, version: string)
    ensures var v := Versioned(packages, version);
      forall i :: 0 <= i < |packages| ==>
        EndsWith(v[i], CaretRange + version) && v[i][..|v[i]| - |version| - 2] == packages[i]
  {
    forall i | 0 <= i < |packages|
      ensures var w := Versioned(packages, version)[i];
        EndsWith(w, CaretRange + version) && w[..|w| - |version| - 2] == packages[i]
    {
      CutCaretRange(packages[i], version);
    }
  }

  /** Cutting `@^<version>` off a versioned name gives the package back. */
  lemma CutCaretRange(p: string, version: string)
    ensures var w := p + CaretRange + version;
      EndsWith(w, CaretRange + version) && w[..|w| - |version| - 2] == p
  {
    var w := p + CaretRange + version;
    assert w == p + (CaretRange + version);
    assert w[|w| - |CaretRange + version|..] == CaretRange + version;
  }

  /** The package manager run with its arguments. */
  datatype Invocation = Invocation(program: string, args: seq<string>)

  /** What an `upgrade` call did: the manager run it started, if any, and how the call settled. */
  datatype Attempt = Attempt(invoked: Option<Invocation>, outcome: Outcome)

  /**
   * `upgrade`, with the results of what it awaits or calls given as inputs:
   * - without `package.json` it exits with its message;
   * - `dependencies` is the outcome of reading the file and listing its `dependencies` field
   *   (`require` throws on a file it cannot parse, `Object.keys` a `TypeError` when the field is
   *   missing), and its error is thrown;
   * - `registry` is the awaited lookup of the latest version, whose rejection is thrown;
   * - `manager` is `None` when no lockfile was found, which throws the lockfile message;
   * - otherwise the detected manager is run with the upgrade command, and the call settles as the
   *   awaited process does (`managerExit`).
   */
  function Run(packageJsonExists: bool, dependencies: Result<seq<string>>, registry: Result<string>,
               manager: Option<PackageManager>, lockFilePaths: seq<string>, managerExit: Outcome): (r: Attempt)
    ensures !packageJsonExists ==> r == Attempt(None, Fail(NoPackageJsonError))
    ensures packageJsonExists && dependencies.Err? ==> r == Attempt(None, Fail(dependencies.error))
    ensures packageJsonExists && dependencies.Ok? && registry.Err? ==> r == Attempt(None, Fail(registry.error))
    ensures packageJsonExists && dependencies.Ok? && registry.Ok? && manager.None? ==>
      r == Attempt(None, Fail(NoLockfileError(lockFilePaths)))
    ensures r.invoked.Some? <==> packageJsonExists && dependencies.Ok? && registry.Ok? && manager.Some?
    ensures r.invoked.Some? ==>
      r.invoked.value.program == ManagerName(manager.value) &&
      r.invoked.value.args == UpgradeCommand(manager.value, ToUpgrade(dependencies.value), registry.value) &&
      r.outcome == managerExit
    ensures r.outcome.Pass? <==> r.invoked.Some? && managerExit.Pass?
  {
    if !packageJsonExists then Attempt(None, Fail(NoPackageJsonError))
    else if dependencies.Err? then Attempt(None, Fail(dependencies.error))
    else if registry.Err? then Attempt(None, Fail(registry.error))
    else if manager.None? then Attempt(None, Fail(NoLockfileError(lockFilePaths)))
    else
      var command := UpgradeCommand(manager.value, ToUpgrade(dependencies.value), registry.value);
      Attempt(Some(Invocation(ManagerName(manager.value), command)), managerExit)
  }

  /** A project depending on every upgradable package upgrades all eleven of them, in the fixed order. */
  lemma FullProjectUpgradesAll(dependencies: seq<string>)
    requires forall p :: p in Upgradable ==> p in dependencies
    ensures ToUpgrade(dependencies) == Upgradable
  {
    FilterKeepsAll(Upgradable, dependencies);
  }

  lemma {:induction false} FilterKeepsAll(candidates: seq<string>, dependencies: seq<string>)
    requires forall p :: p in candidates ==> p in dependencies
    ensures Present(candidates, dependencies) == candidates
    decreases |candidates|
  {
    if |candidates| > 0 {
      var init := candidates[..|candidates| - 1];
      assert forall p :: p in init ==> p in candidates;
      FilterKeepsAll(init, dependencies);
      assert init + [candidates[|candidates| - 1]] == candidates;
    }
  }
}
