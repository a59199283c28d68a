/** The deployments store of the platform GUI (platformUI/gui/src/stores/webapp-store.js):
    the host's map from deployment name to deployment record, and the active/inactive
    display info `enhance` attaches to each record. */
module WebAppStore {
  import opened Wrappers
  import opened JsonObject

  /** A JSON value as the host sends it. Numbers are integers here. */
  datatype Json =
    | JNull
    | JBool(b: bool)
    | JNumber(n: int)
    | JString(s: string)
    | JArray(items: seq<Json>)
    | JObject(props: seq<Prop<Json>>)

  /** JavaScript truthiness of a property that may be absent (`undefined`). */
  predicate Truthy(v: Option<Json>)
  {
    match v
    case None => false
    case Some(JNull) => false
    case Some(JBool(b)) => b
    case Some(JNumber(n)) => n != 0
    case Some(JString(s)) => s != ""
    case Some(_) => true
  }

  const ActiveInfo := JObject([
    Prop("displayText", JString("Active")),
    Prop("displayColor", JString("positive")),
    Prop("icon", JString("cloud_done"))])

  const InactiveInfo := JObject([
    Prop("displayText", JString("Inactive")),
    Prop("displayColor", JString("negative")),
    Prop("icon", JString("cloud_off"))])

  const DisplayInfoKey := "displayInfo"
  const ActiveKey := "active"

  /** One deployment record after `enhance`: its `$type` deleted and `displayInfo` set from
      the truthiness of `active`. */
  function EnhancedApp(v: Json): Json
  {
    match v
    case JObject(ps) =>
      var rest := Remove(ps, TypeKey);
      JObject(Put(rest, DisplayInfoKey, if Truthy(Get(rest, ActiveKey)) then ActiveInfo else InactiveInfo))
    case _ => v
  }

  function EnhancedProp(p: Prop<Json>): Prop<Json>
  {
    Prop(p.key, EnhancedApp(p.value))
  }

  /** Every record of `ps` enhanced, keys and order kept. */
  function EnhancedProps(ps: seq<Prop<Json>>): seq<Prop<Json>>
  {
    seq(|ps|, i requires 0 <= i < |ps| => EnhancedProp(ps[i]))
  }

  /** The deployments map after `enhance`: its own `$type` deleted, every record enhanced. */
  function Enhanced(apps: seq<Prop<Json>>): seq<Prop<Json>>
  {
    EnhancedProps(Remove(apps, TypeKey))
  }

  /** Every value other than the `$type` metadata is a record: `enhance` assigns a property
      of each. */
  predicate RecordsOnly(apps: seq<Prop<Json>>)
  {
    forall i :: 0 <= i < |apps| && apps[i].key != TypeKey ==> apps[i].value.JObject?
  }

  /** A record after `enhance`: no `$type`, `displayInfo` Active exactly when `active` is
      truthy and Inactive otherwise, and every other property as it was. */
  lemma EnhancedAppFields(ps: seq<Prop<Json>>)
    ensures EnhancedApp(JObject(ps)).JObject?
    ensures Get(EnhancedApp(JObject(ps)).props, TypeKey) == None
    ensures Truthy(Get(ps, ActiveKey)) ==> Get(EnhancedApp(JObject(ps)).props, DisplayInfoKey) == Some(ActiveInfo)
    ensures !Truthy(Get(ps, ActiveKey)) ==> Get(EnhancedApp(JObject(ps)).props, DisplayInfoKey) == Some(InactiveInfo)
    ensures forall k :: k != TypeKey && k != DisplayInfoKey ==> Get(EnhancedApp(JObject(ps)).props, k) == Get(ps, k)
  {
    var rest := Remove(ps, TypeKey);
    assert Get(rest, ActiveKey) == Get(ps, ActiveKey);
    var out := Put(rest, DisplayInfoKey, if Truthy(Get(rest, ActiveKey)) then ActiveInfo else InactiveInfo);
    assert Get(out, TypeKey) == Get(rest, TypeKey);
  }

  /** Enhancing a record twice is enhancing it once. */
  lemma EnhancedAppIdempotent(v: Json)
    ensures EnhancedApp(EnhancedApp(v)) == EnhancedApp(v)
  {
    if v.JObject? {
      var rest := Remove(v.props, TypeKey);
      var info := if Truthy(Get(rest, ActiveKey)) then ActiveInfo else InactiveInfo;
      var once := Put(rest, DisplayInfoKey, info);
      assert Get(once, TypeKey) == Get(rest, TypeKey) == None;
      assert Remove(once, TypeKey) == once;
      assert Get(once, ActiveKey) == Get(rest, ActiveKey);
      PutTwice(rest, DisplayInfoKey, info);
    }
  }

  /** After `enhance` the map has no `$type` key, keeps its other keys in order, and holds
      each record enhanced. */
  lemma EnhancedShape(apps: seq<Prop<Json>>)
    ensures TypeKey !in Keys(Enhanced(apps))
    ensures Keys(Enhanced(apps)) == Keys(Remove(apps, TypeKey))
    ensures forall i :: 0 <= i < |Enhanced(apps)| ==>
      Enhanced(apps)[i].value == EnhancedApp(Remove(apps, TypeKey)[i].value)
  {
  }

  /** `enhance` keeps the keys of the map distinct. */
  lemma EnhancedDistinct(apps: seq<Prop<Json>>)
    requires DistinctKeys(apps)
    ensures DistinctKeys(Enhanced(apps))
  {
    RemoveDistinct(apps, TypeKey);
    var rest := Remove(apps, TypeKey);
    assert forall i :: 0 <= i < |rest| ==> Enhanced(apps)[i].key == rest[i].key;
  }

  /** Running `enhance` on an enhanced map changes nothing. */
  lemma EnhanceIdempotent(apps: seq<Prop<Json>>)
    ensures Enhanced(Enhanced(apps)) == Enhanced(apps)
  {
    var once := Enhanced(apps);
    EnhancedShape(apps);
    assert Remove(once, TypeKey) == once;
    forall i | 0 <= i < |once|
      ensures Enhanced(once)[i] == once[i]
    {
      EnhancedAppIdempotent(Remove(apps, TypeKey)[i].value);
    }
  }

  class Store {
    var webAppsJSON: seq<Prop<Json>>

    /** The deployments map, like every object parsed from JSON, has no key twice. */
    ghost predicate Valid()
      reads this
    {
      DistinctKeys(webAppsJSON)
    }

    constructor ()
      ensures Valid() && webAppsJSON == []
    {
      webAppsJSON := [];
    }

    /** `webApps`: the deployments map as the store holds it. */
    function WebApps(): (r: seq<Prop<Json>>)
      reads this
      ensures r == webAppsJSON
    {
      webAppsJSON
    }

    /** `enhance`: deletes the map's `$type`, then in each record deletes `$type` and sets
        `displayInfo`, in place. */
    method Enhance()
      requires Valid() && RecordsOnly(webAppsJSON)
      modifies this`webAppsJSON
      ensures Valid() && webAppsJSON == Enhanced(old(webAppsJSON))
    {
      EnhancedDistinct(webAppsJSON);
      webAppsJSON := Remove(webAppsJSON, TypeKey);
      assert forall i :: 0 <= i < |webAppsJSON| ==> webAppsJSON[i] in old(webAppsJSON);
      EnhanceRecords();
    }

    /** The loop of `enhance` over the records of the map. */
    method EnhanceRecords()
      requires forall i :: 0 <= i < |webAppsJSON| ==> webAppsJSON[i].value.JObject?
      modifies this`webAppsJSON
      ensures webAppsJSON == EnhancedProps(old(webAppsJSON))
    {
      var i := 0;
      while i < |webAppsJSON|
        invariant 0 <= i <= |webAppsJSON| == |old(webAppsJSON)|
        invariant forall j :: 0 <= j < i ==> webAppsJSON[j] == EnhancedProp(old(webAppsJSON)[j])
        invariant forall j :: i <= j < |webAppsJSON| ==> webAppsJSON[j] == old(webAppsJSON)[j]
      {
        webAppsJSON := webAppsJSON[i := EnhancedProp(webAppsJSON[i])];
        i := i + 1;
      }
    }

    /** `updateWebApps` with the host's answer: the new map, enhanced, or, when the request
        failed, no change. */
    method UpdateWebApps(reply: Option<seq<Prop<Json>>>)
      requires Valid()
      requires reply.Some? ==> RecordsOnly(reply.value) && DistinctKeys(reply.value)
      modifies this`webAppsJSON
      ensures Valid()
      ensures reply.Some? ==> webAppsJSON == Enhanced(reply.value)
      ensures reply.None? ==> webAppsJSON == old(webAppsJSON)
    {
      if reply.Some? {
        webAppsJSON := reply.value;
        Enhance();
      }
    }
  }
}
