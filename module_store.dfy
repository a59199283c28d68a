/** The module store of the platform GUI (platformUI/gui/src/stores/module-store.js): the
    host's modules, keyed by name, and the display badges `enhance` attaches to them. */
module ModuleStore {
  import opened Wrappers
  import opened JsonObject
  import opened Display

  datatype Dependency = Dependency(name: string, available: bool)

  /** The two badges a module is shown with; the issues badge is expandable exactly when
      there are issues to list. */
  datatype ModuleDisplay = ModuleDisplay(dependencies: Badge, issues: Badge, expandable: bool)

  datatype ModuleInfo = ModuleInfo(
    name: string,
    moduleType: string,
    isResolved: bool,
    issues: Option<seq<string>>,
    dependencies: seq<Dependency>,
    displayInfo: Option<ModuleDisplay>)

  /** A value of the modules object: the metadata string under `$type`, or a module. */
  datatype Entry = Metadata(tag: string) | ModuleEntry(info: ModuleInfo)

  /** `dependencies.some(d => !d.available)`. */
  predicate MissingDependency(deps: seq<Dependency>)
  {
    exists i :: 0 <= i < |deps| && !deps[i].available
  }

  /** The badges `enhance` computes for one module. */
  function Classify(m: ModuleInfo): (d: ModuleDisplay)
    ensures d.dependencies == MissingDependencies <==> MissingDependency(m.dependencies)
    ensures d.dependencies == AllDependenciesAvailable <==>
      forall i :: 0 <= i < |m.dependencies| ==> m.dependencies[i].available
    ensures d.expandable <==> m.issues.Some? && |m.issues.value| > 0
    ensures d.issues == IssuesFound <==> d.expandable
    ensures !d.expandable ==>
      (d.issues == Resolved <==> m.isResolved) && (d.issues == NotResolvedYet <==> !m.isResolved)
  {
    var hasIssues := HasIssues(m.issues);
    ModuleDisplay(
      DependenciesBadge(MissingDependency(m.dependencies)),
      if hasIssues then IssuesFound else if m.isResolved then Resolved else NotResolvedYet,
      hasIssues)
  }

  /** A module with its badges attached; every other field is kept. */
  function Annotated(m: ModuleInfo): ModuleInfo
  {
    m.(displayInfo := Some(Classify(m)))
  }

  function AnnotatedEntry(p: Prop<Entry>): Prop<Entry>
  {
    match p.value
    case ModuleEntry(m) => Prop(p.key, ModuleEntry(Annotated(m)))
    case Metadata(_) => p
  }

  /** Every module of `entries` annotated, keys and order kept. */
  function AnnotatedEntries(entries: seq<Prop<Entry>>): seq<Prop<Entry>>
  {
    seq(|entries|, i requires 0 <= i < |entries| => AnnotatedEntry(entries[i]))
  }

  /** The modules object after `enhance`: the `$type` entry gone, every module annotated. */
  function Enhanced(entries: seq<Prop<Entry>>): seq<Prop<Entry>>
  {
    AnnotatedEntries(Remove(entries, TypeKey))
  }

  /** Every value other than the `$type` metadata is a module (`enhance` reads the
      dependencies of each remaining value). */
  predicate ModulesOnly(entries: seq<Prop<Entry>>)
  {
    forall i :: 0 <= i < |entries| && entries[i].key != TypeKey ==> entries[i].value.ModuleEntry?
  }

  /** After `enhance` the `$type` key is gone, the other keys are kept in order, every value
      is a module carrying the badges `Classify` gives it, and the module's own fields are
      unchanged. */
  lemma EnhancedShape(entries: seq<Prop<Entry>>)
    requires ModulesOnly(entries)
    ensures TypeKey !in Keys(Enhanced(entries))
    ensures Keys(Enhanced(entries)) == Keys(Remove(entries, TypeKey))
    ensures forall i :: 0 <= i < |Enhanced(entries)| ==>
      var before := Remove(entries, TypeKey)[i].value;
      var after := Enhanced(entries)[i].value;
      && before.ModuleEntry? && after.ModuleEntry?
      && after.info.displayInfo == Some(Classify(before.info))
      && after.info.(displayInfo := None) == before.info.(displayInfo := None)
  {
    var rest := Remove(entries, TypeKey);
    assert forall i :: 0 <= i < |rest| ==> Keys(Enhanced(entries))[i] == Keys(rest)[i];
  }

  /** Running `enhance` on an enhanced object changes nothing. */
  lemma EnhanceIdempotent(entries: seq<Prop<Entry>>)
    ensures Enhanced(Enhanced(entries)) == Enhanced(entries)
  {
    var once := Enhanced(entries);
    assert Keys(once) == Keys(Remove(entries, TypeKey));
    assert TypeKey !in Keys(once);
    assert Remove(once, TypeKey) == once;
  }

  /** `enhance` keeps the keys distinct. */
  lemma EnhancedDistinct(entries: seq<Prop<Entry>>)
    requires DistinctKeys(entries)
    ensures DistinctKeys(Enhanced(entries))
  {
    RemoveDistinct(entries, TypeKey);
    var rest := Remove(entries, TypeKey);
    assert forall i :: 0 <= i < |rest| ==> Enhanced(entries)[i].key == rest[i].key;
  }

  /** The names, in order, of the modules whose `moduleType` is "Web". */
  function WebNames(entries: seq<Prop<Entry>>): (r: seq<string>)
    ensures |r| <= |entries|
    ensures forall n :: n in r <==>
      exists i :: 0 <= i < |entries| && IsWebModule(entries[i].value) && entries[i].value.info.name == n
  {
    if entries == [] then []
    else
      var k := |entries| - 1;
      var last := entries[k].value;
      assert forall i :: 0 <= i < k ==> entries[..k][i] == entries[i];
      WebNames(entries[..k]) + if IsWebModule(last) then [last.info.name] else []
  }

  /** The web module names of a prefix of the object come first, in the same order:
      `webModuleNames` follows iteration order. */
  lemma {:induction false} WebNamesPrefix(entries: seq<Prop<Entry>>, k: nat)
    requires k <= |entries|
    ensures WebNames(entries[..k]) <= WebNames(entries)
  {
    if k < |entries| {
      var n := |entries| - 1;
      assert entries[..n][..k] == entries[..k];
      WebNamesPrefix(entries[..n], k);
    } else {
      assert entries[..k] == entries;
    }
  }

  /** The web module names of two objects laid end to end are those of the first, then
      those of the second; an object with one property lists its name once if it is a web
      module and not at all otherwise. Together these fix `WebNames` on every input: each
      web module is listed once, at its own position. */
  lemma {:induction false} WebNamesAppend(a: seq<Prop<Entry>>, b: seq<Prop<Entry>>)
    ensures WebNames(a + b) == WebNames(a) + WebNames(b)
    ensures |b| == 1 ==>
      WebNames(b) == if IsWebModule(b[0].value) then [b[0].value.info.name] else []
  {
    if b == [] {
      assert a + b == a;
    } else {
      var n := |b| - 1;
      var last := if IsWebModule(b[n].value) then [b[n].value.info.name] else [];
      WebNamesAppend(a, b[..n]);
      assert (a + b)[..|a + b| - 1] == a + b[..n];
      assert (a + b)[|a + b| - 1] == b[n];
      assert WebNames(a + b) == WebNames(a + b[..n]) + last;
      assert WebNames(b) == WebNames(b[..n]) + last;
      Regroup(WebNames(a), WebNames(b[..n]), last);
    }
  }

  predicate IsWebModule(e: Entry)
  {
    e.ModuleEntry? && e.info.moduleType == "Web"
  }

  class Store {
    var modulesJSON: seq<Prop<Entry>>

    /** The modules object, like every object parsed from JSON, has no key twice. */
    ghost predicate Valid()
      reads this
    {
      DistinctKeys(modulesJSON)
    }

    constructor ()
      ensures Valid() && modulesJSON == []
    {
      modulesJSON := [];
    }

    /** `moduleNames`: the keys of the modules object, in order. */
    function ModuleNames(): (r: seq<string>)
      reads this
      ensures |r| == |modulesJSON|
      ensures forall k :: k in r <==> exists i :: 0 <= i < |modulesJSON| && modulesJSON[i].key == k
    {
      assert forall i :: 0 <= i < |modulesJSON| ==> Keys(modulesJSON)[i] == modulesJSON[i].key;
      Keys(modulesJSON)
    }

    /** `webModuleNames`: the names of the web modules, in iteration order. */
    function WebModuleNames(): (r: seq<string>)
      reads this
      ensures forall n :: n in r <==>
        exists i :: 0 <= i < |modulesJSON| && modulesJSON[i].value.ModuleEntry? &&
          modulesJSON[i].value.info.moduleType == "Web" && modulesJSON[i].value.info.name == n
      ensures r == WebNames(modulesJSON)
    {
      WebNames(modulesJSON)
    }

    /** `enhance`: deletes the `$type` metadata, then attaches the badges to each module
        in place. */
    method Enhance()
      requires Valid() && ModulesOnly(modulesJSON)
      modifies this`modulesJSON
      ensures Valid() && modulesJSON == Enhanced(old(modulesJSON))
    {
      EnhancedDistinct(modulesJSON);
      modulesJSON := Remove(modulesJSON, TypeKey);
      assert forall i :: 0 <= i < |modulesJSON| ==> modulesJSON[i] in old(modulesJSON);
      AnnotateModules();
    }

    /** The loop of `enhance` over the modules. */
    method AnnotateModules()
      requires forall i :: 0 <= i < |modulesJSON| ==> modulesJSON[i].value.ModuleEntry?
      modifies this`modulesJSON
      ensures modulesJSON == AnnotatedEntries(old(modulesJSON))
    {
      var i := 0;
      while i < |modulesJSON|
        invariant 0 <= i <= |modulesJSON| == |old(modulesJSON)|
        invariant forall j :: 0 <= j < i ==> modulesJSON[j] == AnnotatedEntry(old(modulesJSON)[j])
        invariant forall j :: i <= j < |modulesJSON| ==> modulesJSON[j] == old(modulesJSON)[j]
      {
        modulesJSON := modulesJSON[i := AnnotatedEntry(modulesJSON[i])];
        i := i + 1;
      }
    }

    /** `updateModules` with the host's answer: the new modules, enhanced, or, when the
        request failed, no change. */
    method UpdateModules(reply: Option<seq<Prop<Entry>>>)
      requires Valid()
      requires reply.Some? ==> ModulesOnly(reply.value) && DistinctKeys(reply.value)
      modifies this`modulesJSON
      ensures Valid()
      ensures reply.Some? ==> modulesJSON == Enhanced(reply.value)
      ensures reply.None? ==> modulesJSON == old(modulesJSON)
    {
      if reply.Some? {
        modulesJSON := reply.value;
        Enhance();
      }
    }
  }

  /** The modules the store uses in development mode. */
  const DevModules: seq<Prop<Entry>> := [
    Prop("bank.examples.org", ModuleEntry(ModuleInfo(
      "bank.examples.org", "Db", false, Some([]),
      [Dependency("oodb.xtclang.org", true)], None))),
    Prop("bankStressTest.examples.org", ModuleEntry(ModuleInfo(
      "bankStressTest.examples.org", "Web", true, Some([]),
      [Dependency("web.xtclang.org", true), Dependency("bank.examples.org", true)], None)))
  ]

  /** In the development data, the bank module has all its dependencies but is not
      resolved yet, the stress test is resolved, and only the stress test is a web module. */
  lemma DevModulesDisplay()
    ensures Enhanced(DevModules)[0].value.info.displayInfo ==
      Some(ModuleDisplay(AllDependenciesAvailable, NotResolvedYet, false))
    ensures Enhanced(DevModules)[1].value.info.displayInfo ==
      Some(ModuleDisplay(AllDependenciesAvailable, Resolved, false))
    ensures WebNames(DevModules) == ["bankStressTest.examples.org"]
  {
    assert Remove(DevModules, TypeKey) == DevModules;
  }
}
