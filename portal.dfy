/** The table of registered applications on the platform portal: the `Hosting` page
    (platformUI/gui/src/pages/hosting.js) and the `Home` page (platformUI/gui/src/pages/index.js).
    Both keep two aligned lists, the registered applications and their checkboxes, and
    allow at most one load in flight, named by `loadingIndex`. They differ in how "add"
    derives a domain from the module name and in how the progress text grows. */
module Portal {
  import opened Wrappers
  import opened Text
  import opened HostApi
  import opened Views

  /** One registered application (`AppInfo`): the module it runs, the domain it is bound
      to, and what the last load reported, the url it runs at or the host's error. */
  datatype AppInfo = AppInfo(name: string, domain: string, url: Option<string>, error: Option<string>)

  /** Which of the two pages the table belongs to. */
  datatype Variant = HostingPage | HomePage

  /** The host's answer to a load: the decoded `[ok, payload]` pair, or nothing at all
      when the request or its JSON decoding failed. */
  datatype LoadReply = Answer(ok: bool, payload: Option<string>) | NoAnswer

  /** What "add" in the Add Module dialog did: the domain it registered, or why it refused. */
  datatype AddOutcome = Added(domain: string) | EmptyName | AlreadyRegistered | InvalidDomain

  /** `registeredApps.some(info => info.name === name)`. */
  predicate IsRegistered(apps: seq<AppInfo>, name: string)
  {
    exists i :: 0 <= i < |apps| && apps[i].name == name
  }

  /** The domain name that "add" registers before the user suffix, or None when the
      Hosting page rejects a default domain that would start with a dot. A typed-in domain
      is used as it is; an empty one defaults to the module name, which the Hosting page
      cuts before its first dot. */
  function DomainName(variant: Variant, moduleName: string, domainInput: string): (r: Option<string>)
    ensures domainInput != "" ==> r == Some(domainInput)
    ensures domainInput == "" && variant == HomePage ==> r == Some(moduleName)
    ensures domainInput == "" && variant == HostingPage ==>
      (r.None? <==> |moduleName| > 0 && moduleName[0] == '.')
    ensures domainInput == "" && variant == HostingPage && r.Some? ==>
      && '.' !in r.value
      && r.value <= moduleName
      && (|r.value| == |moduleName| || moduleName[|r.value|] == '.')
  {
    if domainInput != "" then Some(domainInput)
    else if variant == HomePage then Some(moduleName)
    else
      var dot := IndexOf(moduleName, '.');
      if dot < 0 then Some(moduleName)
      else if dot == 0 then None
      else Some(moduleName[..dot])
  }

  /** The progress text of a pending load after `ticks` timer ticks. The Hosting page
      shows "loading." and `ticks % 15` more dots; the Home page pads "loading." with
      dots to `ticks` characters. */
  function LoadingText(variant: Variant, ticks: nat): (r: string)
    ensures |r| == match variant
                   case HostingPage => 8 + ticks % 15
                   case HomePage => if ticks <= 8 then 8 else ticks
    ensures r[..8] == "loading."
    ensures forall i :: 7 <= i < |r| ==> r[i] == '.'
  {
    match variant
    case HostingPage => "loading." + Repeat('.', ticks % 15)
    case HomePage => PadEnd("loading.", ticks, '.')
  }

  /** The rows whose checkbox equals `checked`, in table order. */
  function Where(apps: seq<AppInfo>, checks: seq<bool>, checked: bool): seq<AppInfo>
    requires |apps| == |checks|
  {
    if apps == [] then []
    else
      var n := |apps| - 1;
      Where(apps[..n], checks[..n], checked) + if checks[n] == checked then [apps[n]] else []
  }

  /** The positions whose checkbox equals `checked`, in increasing order. */
  function IndicesWhere(checks: seq<bool>, checked: bool): seq<nat>
  {
    if checks == [] then []
    else
      var n := |checks| - 1;
      IndicesWhere(checks[..n], checked) + if checks[n] == checked then [n] else []
  }

  /** `IndicesWhere` lists exactly the positions whose checkbox equals `checked`. */
  lemma {:induction false} IndicesWhereExact(checks: seq<bool>, checked: bool)
    ensures forall j :: 0 <= j < |IndicesWhere(checks, checked)| ==>
      IndicesWhere(checks, checked)[j] < |checks| && checks[IndicesWhere(checks, checked)[j]] == checked
    ensures forall i :: 0 <= i < |checks| && checks[i] == checked ==> i in IndicesWhere(checks, checked)
  {
    if checks != [] {
      var n := |checks| - 1;
      var prefix := IndicesWhere(checks[..n], checked);
      IndicesWhereExact(checks[..n], checked);
      assert forall j :: 0 <= j < |prefix| ==> prefix[j] < n && checks[prefix[j]] == checked;
      assert forall i :: 0 <= i < n ==> checks[..n][i] == checks[i];
    }
  }

  /** `IndicesWhere` is strictly increasing: each position is listed once, in table order. */
  lemma {:induction false} IndicesWhereIncreasing(checks: seq<bool>, checked: bool)
    ensures forall j :: 0 <= j < |IndicesWhere(checks, checked)| ==> IndicesWhere(checks, checked)[j] < |checks|
    ensures forall j, k :: 0 <= j < k < |IndicesWhere(checks, checked)| ==>
      IndicesWhere(checks, checked)[j] < IndicesWhere(checks, checked)[k]
  {
    if checks != [] {
      var n := |checks| - 1;
      IndicesWhereIncreasing(checks[..n], checked);
    }
  }

  /** `Where` picks the rows at `IndicesWhere`, in that order: it removes exactly the
      rows with the other checkbox value and keeps the order of the rest. */
  lemma {:induction false} WhereAt(apps: seq<AppInfo>, checks: seq<bool>, checked: bool)
    requires |apps| == |checks|
    ensures |Where(apps, checks, checked)| == |IndicesWhere(checks, checked)|
    ensures forall j :: 0 <= j < |Where(apps, checks, checked)| ==>
      IndicesWhere(checks, checked)[j] < |apps| &&
      Where(apps, checks, checked)[j] == apps[IndicesWhere(checks, checked)[j]]
  {
    if apps != [] {
      var n := |apps| - 1;
      WhereAt(apps[..n], checks[..n], checked);
      IndicesWhereExact(checks[..n], checked);
    }
  }

  /** The checked and the unchecked rows together are the table: nothing is lost or
      duplicated. */
  lemma {:induction false} WherePartition(apps: seq<AppInfo>, checks: seq<bool>)
    requires |apps| == |checks|
    ensures multiset(Where(apps, checks, true)) + multiset(Where(apps, checks, false)) == multiset(apps)
  {
    if apps != [] {
      var n := |apps| - 1;
      var init, last := apps[..n], apps[n];
      var yes, no := Where(init, checks[..n], true), Where(init, checks[..n], false);
      WherePartition(init, checks[..n]);
      assert apps == init + [last];
      if checks[n] {
        assert Where(apps, checks, true) == yes + [last];
        assert Where(apps, checks, false) == no;
      } else {
        assert Where(apps, checks, true) == yes;
        assert Where(apps, checks, false) == no + [last];
      }
    }
  }

  /** So the checked and the unchecked rows number as many as the table's rows. */
  lemma {:induction false} WhereSizes(apps: seq<AppInfo>, checks: seq<bool>)
    requires |apps| == |checks|
    ensures |Where(apps, checks, true)| + |Where(apps, checks, false)| == |apps|
  {
    WherePartition(apps, checks);
    assert |multiset(Where(apps, checks, true)) + multiset(Where(apps, checks, false))| == |multiset(apps)|;
  }

  /** Nothing is checked exactly when no checkbox is set. */
  lemma {:induction false} WhereCheckedEmpty(apps: seq<AppInfo>, checks: seq<bool>)
    requires |apps| == |checks|
    ensures Where(apps, checks, true) == [] <==> true !in checks
  {
    if apps != [] {
      var n := |apps| - 1;
      WhereCheckedEmpty(apps[..n], checks[..n]);
      assert checks == checks[..n] + [checks[n]];
    }
  }

  /** The loop of `unregister`: walks the table once, collecting the checked rows (each
      gets an unregister request) and the unchecked rows with a clear checkbox each. */
  method SplitChecked(apps: seq<AppInfo>, checks: seq<bool>)
    returns (kept: seq<AppInfo>, keptChecks: seq<bool>, removed: seq<AppInfo>)
    requires |apps| == |checks|
    ensures kept == Where(apps, checks, false)
    ensures removed == Where(apps, checks, true)
    ensures |keptChecks| == |kept| && true !in keptChecks
  {
    kept, keptChecks, removed := [], [], [];
    var i := 0;
    while i < |apps|
      invariant 0 <= i <= |apps|
      invariant kept == Where(apps[..i], checks[..i], false)
      invariant removed == Where(apps[..i], checks[..i], true)
      invariant |keptChecks| == |kept| && true !in keptChecks
    {
      assert apps[..i + 1][..i] == apps[..i];
      assert checks[..i + 1][..i] == checks[..i];
      if checks[i] {
        removed := removed + [apps[i]];
      } else {
        keptChecks := keptChecks + [false];
        kept := kept + [apps[i]];
      }
      i := i + 1;
    }
    assert apps[..i] == apps;
    assert checks[..i] == checks;
  }

  /** With no checkbox set, the unchecked rows are the whole table. */
  lemma {:induction false} WhereNoneChecked(apps: seq<AppInfo>, checks: seq<bool>)
    requires |apps| == |checks| && true !in checks
    ensures Where(apps, checks, false) == apps
  {
    if apps != [] {
      var n := |apps| - 1;
      assert checks[..n] + [checks[n]] == checks;
      WhereNoneChecked(apps[..n], checks[..n]);
      assert apps[..n] + [apps[n]] == apps;
    }
  }

  /** The registered-application table with its checkboxes and its in-flight load. */
  class AppTable {
    const variant: Variant
    var userId: string
    var registeredApps: seq<AppInfo>
    var checkedApps: seq<bool>
    /** The row whose load is pending, or -1. */
    var loadingIndex: int
    /** Timer ticks since the pending load started; -1 before the first load. */
    var loadingTicks: int

    ghost predicate Valid()
      reads this
    {
      && |registeredApps| == |checkedApps|
      && -1 <= loadingIndex
      && -1 <= loadingTicks
      && (loadingIndex != -1 ==> 0 <= loadingTicks)
    }

    constructor (variant: Variant)
      ensures Valid() && this.variant == variant
      ensures userId == "<none>" && registeredApps == [] && checkedApps == []
      ensures loadingIndex == -1 && loadingTicks == -1
    {
      this.variant := variant;
      userId := "<none>";
      registeredApps := [];
      checkedApps := [];
      loadingIndex := -1;
      loadingTicks := -1;
    }

    /** The host reported the signed-in user. */
    method ReceiveUserId(name: string)
      requires Valid()
      modifies this`userId
      ensures Valid() && userId == name
    {
      userId := name;
    }

    /** The host reported the registered applications: every checkbox starts clear. */
    method ReceiveRegisteredApps(infos: seq<AppInfo>)
      requires Valid()
      modifies this`registeredApps, this`checkedApps
      ensures Valid()
      ensures registeredApps == infos
      ensures |checkedApps| == |infos| && true !in checkedApps
    {
      registeredApps := infos;
      checkedApps := seq(|infos|, _ => false);
    }

    /** One timer tick while a load is pending. */
    method Tick()
      requires Valid()
      modifies this`loadingTicks
      ensures Valid() && loadingTicks == old(loadingTicks) + 1
    {
      loadingTicks := loadingTicks + 1;
    }

    /** Records the outcome for row `ix` and ends the pending load (`setInfo`). */
    method SetInfo(ix: nat, url: Option<string>, err: Option<string>)
      requires Valid() && ix < |registeredApps|
      modifies this`registeredApps, this`loadingIndex
      ensures Valid()
      ensures registeredApps == old(registeredApps)[ix := old(registeredApps[ix]).(url := url, error := err)]
      ensures loadingIndex == -1
    {
      registeredApps := registeredApps[ix := registeredApps[ix].(url := url, error := err)];
      loadingIndex := -1;
    }

    /** The row's action button: nothing while another load is pending; otherwise a load
        when the row has no url and an unload, cleared at once, when it has one. */
    method SendRequest(ix: nat) returns (req: Request)
      requires Valid() && ix < |registeredApps|
      modifies this`registeredApps, this`loadingIndex, this`loadingTicks
      ensures Valid()
      ensures old(loadingIndex) != -1 ==>
        req == NoRequest && unchanged(this)
      ensures old(loadingIndex) == -1 && old(registeredApps[ix].url).None? ==>
        && req == LoadRequest(registeredApps[ix].name, registeredApps[ix].domain)
        && registeredApps == old(registeredApps)
        && loadingIndex == ix && loadingTicks == 0
      ensures old(loadingIndex) == -1 && old(registeredApps[ix].url).Some? ==>
        && req == UnloadRequest(old(registeredApps[ix].domain))
        && registeredApps == old(registeredApps)[ix := old(registeredApps[ix]).(url := None, error := None)]
        && loadingIndex == -1 && loadingTicks == old(loadingTicks)
    {
      if loadingIndex != -1 {
        return NoRequest;
      }
      var info := registeredApps[ix];
      if info.url.None? {
        loadingIndex, loadingTicks := ix, 0;
        req := LoadRequest(info.name, info.domain);
      } else {
        req := UnloadRequest(info.domain);
        SetInfo(ix, None, None);
      }
    }

    /** The host answered the load of row `ix`: on success the row gets the url, otherwise
        the error, and the pending load ends. With no answer only the timer stops, so the
        load stays pending. An index the table no longer has (rows were unregistered
        meanwhile) changes nothing and is reported as not applied. */
    method CompleteLoad(ix: nat, reply: LoadReply) returns (applied: bool)
      requires Valid()
      modifies this`registeredApps, this`loadingIndex
      ensures Valid()
      ensures applied <==> reply.Answer? && ix < |old(registeredApps)|
      ensures !applied ==> unchanged(this)
      ensures applied ==>
        && loadingIndex == -1
        && |registeredApps| == |old(registeredApps)|
        && (forall j :: 0 <= j < |registeredApps| && j != ix ==> registeredApps[j] == old(registeredApps[j]))
        && registeredApps[ix].name == old(registeredApps[ix].name)
        && registeredApps[ix].domain == old(registeredApps[ix].domain)
        && registeredApps[ix].url == (if reply.ok then reply.payload else None)
        && registeredApps[ix].error == (if reply.ok then None else reply.payload)
        && !(registeredApps[ix].url.Some? && registeredApps[ix].error.Some?)
    {
      applied := reply.Answer? && ix < |registeredApps|;
      if applied {
        if reply.ok {
          SetInfo(ix, reply.payload, None);
        } else {
          SetInfo(ix, None, reply.payload);
        }
      }
    }

    /** "Add" in the Add Module dialog: refuses an empty module name, an already
        registered one and (Hosting page) a default domain starting with a dot; otherwise
        appends the application under `<domain>.<userId>.user` with a clear checkbox. */
    method CloseAddModule(moduleName: string, domainInput: string) returns (outcome: AddOutcome)
      requires Valid()
      modifies this`registeredApps, this`checkedApps
      ensures Valid()
      ensures moduleName == "" ==> outcome == EmptyName
      ensures moduleName != "" && IsRegistered(old(registeredApps), moduleName) ==> outcome == AlreadyRegistered
      ensures outcome.Added? <==>
        moduleName != "" && !IsRegistered(old(registeredApps), moduleName) &&
        DomainName(variant, moduleName, domainInput).Some?
      ensures outcome.Added? ==>
        && outcome.domain == UserDomain(DomainName(variant, moduleName, domainInput).value, userId)
        && registeredApps == old(registeredApps) + [AppInfo(moduleName, outcome.domain, None, None)]
        && checkedApps == old(checkedApps) + [false]
        && IsRegistered(registeredApps, moduleName)
      ensures !outcome.Added? ==>
        registeredApps == old(registeredApps) && checkedApps == old(checkedApps)
    {
      if moduleName == "" {
        return EmptyName;
      }
      if exists i :: 0 <= i < |registeredApps| && registeredApps[i].name == moduleName {
        return AlreadyRegistered;
      }
      var domain := DomainName(variant, moduleName, domainInput);
      if domain.None? {
        return InvalidDomain;
      }
      outcome := Added(UserDomain(domain.value, userId));
      registeredApps := registeredApps + [AppInfo(moduleName, outcome.domain, None, None)];
      checkedApps := checkedApps + [false];
      assert registeredApps[|registeredApps| - 1].name == moduleName;
    }

    /** "Unregister Module": drops the checked rows, returning them in table order (an
        unregister request goes to the host for each), keeps the others in order and clears
        every checkbox. With nothing checked the table is left as it is. */
    method Unregister() returns (removed: seq<AppInfo>)
      requires Valid()
      modifies this`registeredApps, this`checkedApps
      ensures Valid()
      ensures removed == Where(old(registeredApps), old(checkedApps), true)
      ensures registeredApps == Where(old(registeredApps), old(checkedApps), false)
      ensures true !in checkedApps
      ensures true !in old(checkedApps) ==>
        registeredApps == old(registeredApps) && checkedApps == old(checkedApps)
    {
      var registeredNew, checkedNew;
      registeredNew, checkedNew, removed := SplitChecked(registeredApps, checkedApps);
      WhereSizes(registeredApps, checkedApps);
      WhereCheckedEmpty(registeredApps, checkedApps);
      if |checkedNew| != |checkedApps| {
        registeredApps, checkedApps := registeredNew, checkedNew;
      } else {
        WhereNoneChecked(registeredApps, checkedApps);
      }
    }

    /** Flips the checkbox of row `ix` and no other. */
    method Toggle(ix: nat)
      requires Valid() && ix < |checkedApps|
      modifies this`checkedApps
      ensures Valid()
      ensures checkedApps == old(checkedApps)[ix := !old(checkedApps[ix])]
    {
      checkedApps := checkedApps[ix := !checkedApps[ix]];
    }

    /** What row `ix` shows: a loaded application offers "Unload application" and a link;
        otherwise an error outranks the progress of a pending load on this row, which
        outranks an empty cell. */
    function Row(ix: nat): (r: View)
      reads this
      requires Valid() && ix < |registeredApps|
      ensures r.actionText == if registeredApps[ix].url.Some? then UnloadAction else LoadAction
      ensures r.run.RunLink? <==> registeredApps[ix].url.Some?
      ensures r.run.ErrorSpan? <==> registeredApps[ix].url.None? && registeredApps[ix].error.Some?
      ensures r.run.Progress? <==>
        registeredApps[ix].url.None? && registeredApps[ix].error.None? && loadingIndex == ix
      ensures r.run.RunLink? ==> r.run.href == registeredApps[ix].url.value
      ensures r.run.ErrorSpan? ==> r.run.message == registeredApps[ix].error.value
      ensures r.run.Progress? ==> r.run.text == LoadingText(variant, loadingTicks)
    {
      var info := registeredApps[ix];
      if info.url.Some? then View(UnloadAction, RunLink(info.url.value))
      else if info.error.Some? then View(LoadAction, ErrorSpan(info.error.value))
      else if loadingIndex == ix then View(LoadAction, Progress(LoadingText(variant, loadingTicks)))
      else View(LoadAction, Blank)
    }
  }
}
