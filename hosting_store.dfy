/** The hosting store of the platform GUI (platformUI/gui/src/stores/hosting-store.js): the
    list of available modules and the map from module name to its position and badges that
    `buildMap` derives from it. */
module HostingStore {
  import opened Wrappers
  import opened Display

  datatype DependentModule = DependentModule(name: string, qualifiedName: string, available: bool)

  datatype HostedModule = HostedModule(
    name: string,
    isWebModule: bool,
    dependentModules: seq<DependentModule>,
    issues: Option<seq<string>>)

  /** What `buildMap` records for a module name: its position in the list and two badges. */
  datatype MapEntry = MapEntry(index: nat, deps: Badge, issues: Badge)

  /** `dependentModules.some(d => !d.available)`. */
  predicate MissingDependent(deps: seq<DependentModule>)
  {
    exists i :: 0 <= i < |deps| && !deps[i].available
  }

  /** The map entry for the module at position `index`. This store has no resolved state:
      a module without issues is "All good". */
  function EntryFor(m: HostedModule, index: nat): (e: MapEntry)
    ensures e.index == index
    ensures e.deps == MissingDependencies <==> MissingDependent(m.dependentModules)
    ensures e.deps == AllDependenciesAvailable <==>
      forall i :: 0 <= i < |m.dependentModules| ==> m.dependentModules[i].available
    ensures e.issues == IssuesFound <==> m.issues.Some? && |m.issues.value| > 0
    ensures e.issues == AllGood <==> !(m.issues.Some? && |m.issues.value| > 0)
  {
    MapEntry(
      index,
      DependenciesBadge(MissingDependent(m.dependentModules)),
      if HasIssues(m.issues) then IssuesFound else AllGood)
  }

  /** The map `buildMap` folds from the list, one module after the other, so that a later
      module replaces an earlier one of the same name. */
  function ModulesMap(ms: seq<HostedModule>): map<string, MapEntry>
  {
    if ms == [] then map[]
    else
      var n := |ms| - 1;
      ModulesMap(ms[..n])[ms[n].name := EntryFor(ms[n], n)]
  }

  /** The map has one key per distinct module name. */
  lemma {:induction false} ModulesMapKeys(ms: seq<HostedModule>)
    ensures forall k :: k in ModulesMap(ms) <==> exists i :: 0 <= i < |ms| && ms[i].name == k
  {
    if ms != [] {
      var n := |ms| - 1;
      ModulesMapKeys(ms[..n]);
      forall k | k in ModulesMap(ms)
        ensures exists i :: 0 <= i < |ms| && ms[i].name == k
      {
        if k != ms[n].name {
          assert k in ModulesMap(ms[..n]);
          var i :| 0 <= i < n && ms[..n][i].name == k;
          assert ms[i].name == k;
        }
      }
      forall i | 0 <= i < |ms|
        ensures ms[i].name in ModulesMap(ms)
      {
        if i < n {
          assert ms[..n][i] == ms[i];
        }
      }
    }
  }

  /** The entry for a name describes the last module with that name, at its position: for
      duplicate names the last one wins. */
  lemma {:induction false} ModulesMapLastWins(ms: seq<HostedModule>, i: nat)
    requires i < |ms|
    requires forall j :: i < j < |ms| ==> ms[j].name != ms[i].name
    ensures ms[i].name in ModulesMap(ms) && ModulesMap(ms)[ms[i].name] == EntryFor(ms[i], i)
  {
    var n := |ms| - 1;
    if i < n {
      assert ms[..n][i] == ms[i];
      ModulesMapLastWins(ms[..n], i);
    }
  }

  /** Every entry's index points back at a module of that name in the list. */
  lemma {:induction false} ModulesMapIndex(ms: seq<HostedModule>, k: string)
    requires k in ModulesMap(ms)
    ensures ModulesMap(ms)[k].index < |ms| && ms[ModulesMap(ms)[k].index].name == k
  {
    var n := |ms| - 1;
    if ms[n].name != k {
      ModulesMapIndex(ms[..n], k);
    }
  }

  class Store {
    var modulesJSON: seq<HostedModule>
    var modulesMap: map<string, MapEntry>

    /** The store starts with the two sample modules and an empty map. */
    constructor ()
      ensures modulesJSON == SampleModules && modulesMap == map[]
    {
      modulesJSON := SampleModules;
      modulesMap := map[];
    }

    /** `buildMap`: folds the list into a fresh map and stores it; the list itself is left
        as it is. */
    method BuildMap()
      modifies this`modulesMap
      ensures modulesMap == ModulesMap(modulesJSON)
    {
      var acc: map<string, MapEntry> := map[];
      for index := 0 to |modulesJSON|
        invariant acc == ModulesMap(modulesJSON[..index])
      {
        var cur := modulesJSON[index];
        assert modulesJSON[..index + 1][..index] == modulesJSON[..index];
        acc := acc[cur.name := EntryFor(cur, index)];
      }
      assert modulesJSON[..|modulesJSON|] == modulesJSON;
      modulesMap := acc;
    }

    /** `updateModules` with the host's answer: the new list and its map, or, when the
        request failed, no change. */
    method UpdateModules(reply: Option<seq<HostedModule>>)
      modifies this`modulesJSON, this`modulesMap
      ensures reply.Some? ==> modulesJSON == reply.value && modulesMap == ModulesMap(reply.value)
      ensures reply.None? ==> modulesJSON == old(modulesJSON) && modulesMap == old(modulesMap)
    {
      if reply.Some? {
        modulesJSON := reply.value;
        BuildMap();
      }
    }
  }

  /** The store's initial list: "module 1" depends on an unavailable Bank module, "module 2"
      has two issues. */
  const SampleModules: seq<HostedModule> := [
    HostedModule("module 1", false, [
      DependentModule("web", "web.xtclang.org", true),
      DependentModule("Bank", "Bank", false),
      DependentModule("ecstasy", "ecstasy.xtclang.org", true)], None),
    HostedModule("module 2", true, [], Some(["Issue 1", "Issue 2"]))
  ]

  /** For the sample list, "module 1" shows missing dependencies and no issues, "module 2"
      all dependencies available and issues found. */
  lemma SampleModulesMap()
    ensures ModulesMap(SampleModules).Keys == {"module 1", "module 2"}
    ensures ModulesMap(SampleModules)["module 1"] == MapEntry(0, MissingDependencies, AllGood)
    ensures ModulesMap(SampleModules)["module 2"] == MapEntry(1, AllDependenciesAvailable, IssuesFound)
  {
    assert !SampleModules[0].dependentModules[1].available;
    assert SampleModules[..1] == [SampleModules[0]];
  }
}
