/**
 * The action-record store of `api/actions.js`: a dictionary from action type
 * (`moderation`, `autoroles`, `scheduled`, `events`, `alerts`) to the list of
 * actions of that type, and the create, toggle, delete and get operations the
 * HTTP handlers perform on it after loading it and before saving it.
 *
 * An action is a JSON object: the fields the dashboard sent, plus the generated
 * `id`, `name`, `description`, `enabled` and `createdAt`.
 */
module Actions {
  import opened Common
  import opened Text
  import opened Collections

  /** The JSON values the action records hold (integers only; no nested arrays or objects). */
  datatype Json = JStr(s: string) | JNum(n: int) | JBool(b: bool) | JNull

  /** A JSON object: field name to value. */
  type Record = map<string, Json>

  /** JavaScript truthiness: `""`, `0`, `false` and `null` are falsy. */
  predicate Truthy(v: Json) {
    match v
    case JStr(s) => s != ""
    case JNum(n) => n != 0
    case JBool(b) => b
    case JNull => false
  }

  /** How a value prints inside a template literal. */
  function ToText(v: Json): string {
    match v
    case JStr(s) => s
    case JNum(n) => IntToString(n)
    case JBool(b) => if b then "true" else "false"
    case JNull => "null"
  }

  /** `${data.key || fallback}`: the field's text when it is present and truthy, else the fallback. */
  function FieldOr(data: Record, key: string, fallback: string): (r: string)
    ensures key in data && Truthy(data[key]) ==> r == ToText(data[key])
    ensures !(key in data && Truthy(data[key])) ==> r == fallback
  {
    if key in data && Truthy(data[key]) then ToText(data[key]) else fallback
  }

  const StoreTypes: set<string> := {"moderation", "autoroles", "scheduled", "events", "alerts"}

  /** `generateActionName`: a per-type template over the data; `Acción` for any other type. */
  function GenerateActionName(actionType: string, data: Record): (r: string)
    ensures actionType !in StoreTypes ==> r == "Acción"
  {
    if actionType == "moderation" then
      FieldOr(data, "modType", "Moderación") + " - " + FieldOr(data, "messageLimit", "5") + " msg/"
      + FieldOr(data, "timeWindow", "5") + "s"
    else if actionType == "autoroles" then
      "Auto-Role: " + FieldOr(data, "autoRoleType", "tiempo") + " - " + FieldOr(data, "daysRequired", "7") + " días"
    else if actionType == "scheduled" then
      FieldOr(data, "taskType", "Tarea") + " - " + FieldOr(data, "frequency", "una vez")
    else if actionType == "events" then
      FieldOr(data, "eventType", "Evento") + " - " + FieldOr(data, "prize", "Premio")
    else if actionType == "alerts" then
      "Alerta: " + FieldOr(data, "alertType", "general")
    else "Acción"
  }

  /** `generateActionDescription`: a per-type template over the data; `Sin descripción` for any other type. */
  function GenerateActionDescription(actionType: string, data: Record): (r: string)
    ensures actionType !in StoreTypes ==> r == "Sin descripción"
  {
    if actionType == "moderation" then
      "Castigo: " + FieldOr(data, "punishment", "timeout") + " por " + FieldOr(data, "duration", "60") + "s"
    else if actionType == "autoroles" then
      "Asignar rol " + FieldOr(data, "roleId", "N/A") + " después de " + FieldOr(data, "daysRequired", "7") + " días"
    else if actionType == "scheduled" then
      "Ejecutar " + FieldOr(data, "taskType", "tarea") + " " + FieldOr(data, "frequency", "una vez")
    else if actionType == "events" then
      "Evento de " + FieldOr(data, "prize", "premio") + " en canal " + FieldOr(data, "eventChannel", "N/A")
    else if actionType == "alerts" then
      "Notificar en canal " + FieldOr(data, "alertChannel", "N/A")
    else "Sin descripción"
  }

  /** The fields each type's name and description templates read. */
  function TemplateKeys(actionType: string): set<string> {
    if actionType == "moderation" then {"modType", "messageLimit", "timeWindow", "punishment", "duration"}
    else if actionType == "autoroles" then {"autoRoleType", "daysRequired", "roleId"}
    else if actionType == "scheduled" then {"taskType", "frequency"}
    else if actionType == "events" then {"eventType", "prize", "eventChannel"}
    else if actionType == "alerts" then {"alertType", "alertChannel"}
    else {}
  }

  predicate AgreeOn(a: Record, b: Record, keys: set<string>) {
    forall k :: k in keys ==> (k in a <==> k in b) && (k in a ==> a[k] == b[k])
  }

  lemma FieldOrAgrees(a: Record, b: Record, key: string, fallback: string)
    requires (key in a <==> key in b) && (key in a ==> a[key] == b[key])
    ensures FieldOr(a, key, fallback) == FieldOr(b, key, fallback)
  {
  }

  /** Name and description depend on the type's template fields and on nothing else. */
  lemma TemplatesReadOnlyTheirKeys(actionType: string, a: Record, b: Record)
    requires AgreeOn(a, b, TemplateKeys(actionType))
    ensures GenerateActionName(actionType, a) == GenerateActionName(actionType, b)
    ensures GenerateActionDescription(actionType, a) == GenerateActionDescription(actionType, b)
  {
    if actionType == "moderation" {
      FieldOrAgrees(a, b, "modType", "Moderación");
      FieldOrAgrees(a, b, "messageLimit", "5");
      FieldOrAgrees(a, b, "timeWindow", "5");
      FieldOrAgrees(a, b, "punishment", "timeout");
      FieldOrAgrees(a, b, "duration", "60");
    } else if actionType == "autoroles" {
      FieldOrAgrees(a, b, "autoRoleType", "tiempo");
      FieldOrAgrees(a, b, "daysRequired", "7");
      FieldOrAgrees(a, b, "roleId", "N/A");
    } else if actionType == "scheduled" {
      FieldOrAgrees(a, b, "taskType", "Tarea");
      FieldOrAgrees(a, b, "taskType", "tarea");
      FieldOrAgrees(a, b, "frequency", "una vez");
    } else if actionType == "events" {
      FieldOrAgrees(a, b, "eventType", "Evento");
      FieldOrAgrees(a, b, "prize", "Premio");
      FieldOrAgrees(a, b, "prize", "premio");
      FieldOrAgrees(a, b, "eventChannel", "N/A");
    } else if actionType == "alerts" {
      FieldOrAgrees(a, b, "alertType", "general");
      FieldOrAgrees(a, b, "alertChannel", "N/A");
    }
  }

  /** With no data at all, every name falls back to its defaults. */
  lemma DefaultNames()
    ensures GenerateActionName("moderation", map[]) == "Moderación - 5 msg/5s"
    ensures GenerateActionName("autoroles", map[]) == "Auto-Role: tiempo - 7 días"
    ensures GenerateActionName("scheduled", map[]) == "Tarea - una vez"
    ensures GenerateActionName("events", map[]) == "Evento - Premio"
    ensures GenerateActionName("alerts", map[]) == "Alerta: general"
  {
    var none: Record := map[];
    assert GenerateActionName("moderation", none) == "Moderación" + " - " + "5" + " msg/" + "5" + "s";
    assert GenerateActionName("autoroles", none) == "Auto-Role: " + "tiempo" + " - " + "7" + " días";
    assert GenerateActionName("scheduled", none) == "Tarea" + " - " + "una vez";
    assert GenerateActionName("events", none) == "Evento" + " - " + "Premio";
    assert GenerateActionName("alerts", none) == "Alerta: " + "general";
  }

  /** With no data at all, every description falls back to its defaults. */
  lemma DefaultDescriptions()
    ensures GenerateActionDescription("moderation", map[]) == "Castigo: timeout por 60s"
    ensures GenerateActionDescription("autoroles", map[]) == "Asignar rol N/A después de 7 días"
    ensures GenerateActionDescription("scheduled", map[]) == "Ejecutar tarea una vez"
    ensures GenerateActionDescription("events", map[]) == "Evento de premio en canal N/A"
    ensures GenerateActionDescription("alerts", map[]) == "Notificar en canal N/A"
  {
    ModerationDescriptionOfEmpty();
    AutorolesDescriptionOfEmpty();
    ScheduledDescriptionOfEmpty();
    EventsDescriptionOfEmpty();
    AlertsDescriptionOfEmpty();
  }

  lemma ModerationDescriptionOfEmpty()
    ensures GenerateActionDescription("moderation", map[]) == "Castigo: timeout por 60s"
  {
    var none: Record := map[];
    assert GenerateActionDescription("moderation", none) == "Castigo: " + "timeout" + " por " + "60" + "s";
  }

  lemma AutorolesDescriptionOfEmpty()
    ensures GenerateActionDescription("autoroles", map[]) == "Asignar rol N/A después de 7 días"
  {
    var none: Record := map[];
    assert GenerateActionDescription("autoroles", none) == "Asignar rol " + "N/A" + " después de " + "7" + " días";
  }

  lemma ScheduledDescriptionOfEmpty()
    ensures GenerateActionDescription("scheduled", map[]) == "Ejecutar tarea una vez"
  {
    var none: Record := map[];
    assert GenerateActionDescription("scheduled", none) == "Ejecutar " + "tarea" + " " + "una vez";
  }

  lemma EventsDescriptionOfEmpty()
    ensures GenerateActionDescription("events", map[]) == "Evento de premio en canal N/A"
  {
    var none: Record := map[];
    assert GenerateActionDescription("events", none) == "Evento de " + "premio" + " en canal " + "N/A";
  }

  lemma AlertsDescriptionOfEmpty()
    ensures GenerateActionDescription("alerts", map[]) == "Notificar en canal N/A"
  {
    var none: Record := map[];
    assert GenerateActionDescription("alerts", none) == "Notificar en canal " + "N/A";
  }

  // ---------------------------------------------------------------------------
  // records

  /** The field holds the id `id` as a string, which is what `a.id === id` tests. */
  predicate HasId(a: Record, id: string) {
    "id" in a && a["id"] == JStr(id)
  }

  const GeneratedKeys: set<string> := {"name", "description", "enabled", "createdAt"}

  /**
   * The object literal of the create handler: the generated id, then the client's
   * fields, then the generated name, description, `enabled` and `createdAt`,
   * later entries overriding earlier ones.
   */
  function NewAction(actionType: string, data: Record, nowMillis: nat, createdAt: string): (a: Record)
    ensures GeneratedKeys <= a.Keys
    ensures a["enabled"] == JBool(true)
    ensures a["name"] == JStr(GenerateActionName(actionType, data))
    ensures a["description"] == JStr(GenerateActionDescription(actionType, data))
    ensures a["createdAt"] == JStr(createdAt)
    ensures "id" in a && a["id"] == if "id" in data then data["id"] else JStr(NatToString(nowMillis))
    ensures forall k :: k !in GeneratedKeys && k != "id" ==> (k in a <==> k in data)
    ensures forall k :: k in data && k !in GeneratedKeys ==> a[k] == data[k]
  {
    map["id" := JStr(NatToString(nowMillis))] + data
    + map["name" := JStr(GenerateActionName(actionType, data)),
          "description" := JStr(GenerateActionDescription(actionType, data)),
          "enabled" := JBool(true),
          "createdAt" := JStr(createdAt)]
  }

  /**
   * `action.enabled = enabled`: the value from the request body, or, when the body
   * has none, `undefined`, which the save drops from the record.
   */
  function SetEnabled(a: Record, enabled: Option<Json>): (r: Record)
    ensures enabled.Some? ==> "enabled" in r && r["enabled"] == enabled.value
    ensures enabled.None? ==> "enabled" !in r
    ensures forall k :: k != "enabled" ==> (k in r <==> k in a) && (k in a ==> r[k] == a[k])
  {
    match enabled
    case Some(v) => a["enabled" := v]
    case None => a - {"enabled"}
  }

  /** Setting `enabled` back to its former value restores the record. */
  lemma SetEnabledRestores(a: Record, v: Json)
    requires "enabled" in a
    ensures SetEnabled(SetEnabled(a, Some(v)), Some(a["enabled"])) == a
  {
    var r := SetEnabled(SetEnabled(a, Some(v)), Some(a["enabled"]));
    assert r.Keys == a.Keys;
  }

  /** `list.find(a => a.id === id)`, as a position: the first record with the id. */
  function FindFirst(list: seq<Record>, id: string): (r: Option<nat>)
    ensures r.Some? ==> r.value < |list| && HasId(list[r.value], id)
    ensures r.Some? ==> forall j :: 0 <= j < r.value ==> !HasId(list[j], id)
    ensures r.None? <==> forall j :: 0 <= j < |list| ==> !HasId(list[j], id)
    decreases |list|
  {
    if list == [] then None
    else if HasId(list[0], id) then Some(0)
    else
      match FindFirst(list[1..], id)
      case None => None
      case Some(i) => Some(i + 1)
  }

  /** The first record with the id is the one `FindFirst` finds. */
  lemma FindFirstIs(list: seq<Record>, id: string, i: nat)
    requires i < |list| && HasId(list[i], id)
    requires forall j :: 0 <= j < i ==> !HasId(list[j], id)
    ensures FindFirst(list, id) == Some(i)
  {
  }

  /** The filter of the delete handler: keeps the records without the id. */
  function KeepOthers(id: string): Record -> bool {
    (a: Record) => !HasId(a, id)
  }

  // ---------------------------------------------------------------------------
  // the store

  type Store = map<string, seq<Record>>

  /** What a missing store file is created with: five empty lists. */
  function DefaultStore(): (s: Store)
    ensures s.Keys == StoreTypes
    ensures forall t :: t in s ==> s[t] == []
  {
    map["moderation" := [], "autoroles" := [], "scheduled" := [], "events" := [], "alerts" := []]
  }

  /** `actions[type] || []`. */
  function Get(store: Store, actionType: string): (list: seq<Record>)
    ensures actionType in store ==> list == store[actionType]
    ensures actionType !in store ==> list == []
  {
    if actionType in store then store[actionType] else []
  }

  /** The create handler's change: the list of the type, created if absent, gains the action at its end. */
  function WithCreated(store: Store, actionType: string, a: Record): Store {
    store[actionType := Get(store, actionType) + [a]]
  }

  /** The HTTP status a handler answers with. */
  datatype Status = Ok | NotFound | ServerError

  /**
   * The toggle handler: a server error when the type has no list (the lookup
   * throws), not found when no record has the id, and otherwise `enabled` set on
   * the first record with the id. The store is saved only on success.
   */
  function Toggled(store: Store, actionType: string, id: string, enabled: Option<Json>): (r: (Status, Store))
    ensures r.0 == ServerError <==> actionType !in store
    ensures r.0 == NotFound <==>
      actionType in store && forall j :: 0 <= j < |store[actionType]| ==> !HasId(store[actionType][j], id)
    ensures r.0 != Ok ==> r.1 == store
  {
    if actionType !in store then (ServerError, store)
    else
      match FindFirst(store[actionType], id)
      case None => (NotFound, store)
      case Some(i) =>
        var list := store[actionType];
        (Ok, store[actionType := list[i := SetEnabled(list[i], enabled)]])
  }

  /**
   * The delete handler: a server error when the type has no list, and otherwise
   * the list without the records with the id. Deleting an id nobody has succeeds.
   */
  function Deleted(store: Store, actionType: string, id: string): (r: (Status, Store))
    ensures r.0 == ServerError <==> actionType !in store
    ensures r.0 == ServerError ==> r.1 == store
    ensures r.0 == Ok ==> r.1.Keys == store.Keys
  {
    if actionType !in store then (ServerError, store)
    else (Ok, store[actionType := Filter(store[actionType], KeepOthers(id))])
  }

  /** Create appends exactly one action to its type's list and leaves every other list alone. */
  lemma CreateAppendsOne(store: Store, actionType: string, a: Record, other: string)
    ensures Get(WithCreated(store, actionType, a), actionType) == Get(store, actionType) + [a]
    ensures |Get(WithCreated(store, actionType, a), actionType)| == |Get(store, actionType)| + 1
    ensures other != actionType ==>
      (other in WithCreated(store, actionType, a) <==> other in store)
      && Get(WithCreated(store, actionType, a), other) == Get(store, other)
  {
  }

  /**
   * Toggle changes one field of one record: the first record with the id, whose
   * other fields, like all other records and lists, stay as they were.
   */
  lemma ToggleChangesFirstMatchOnly(store: Store, actionType: string, id: string, enabled: Option<Json>)
    requires Toggled(store, actionType, id, enabled).0 == Ok
    ensures var after := Toggled(store, actionType, id, enabled).1;
      var i := FindFirst(store[actionType], id).value;
      && after.Keys == store.Keys
      && (forall t :: t in store && t != actionType ==> after[t] == store[t])
      && |after[actionType]| == |store[actionType]|
      && (forall j :: 0 <= j < |store[actionType]| && j != i ==> after[actionType][j] == store[actionType][j])
      && after[actionType][i] == SetEnabled(store[actionType][i], enabled)
  {
  }

  /** Toggling a record and then toggling it back to its former value restores the store. */
  lemma ToggleBack(store: Store, actionType: string, id: string, v: Json)
    requires Toggled(store, actionType, id, Some(v)).0 == Ok
    requires "enabled" in store[actionType][FindFirst(store[actionType], id).value]
    ensures var i := FindFirst(store[actionType], id).value;
      var once := Toggled(store, actionType, id, Some(v)).1;
      Toggled(once, actionType, id, Some(store[actionType][i]["enabled"])) == (Ok, store)
  {
    var list := store[actionType];
    var i := FindFirst(list, id).value;
    var once := Toggled(store, actionType, id, Some(v)).1;
    var changed := SetEnabled(list[i], Some(v));
    assert HasId(changed, id);
    forall j | 0 <= j < i ensures !HasId(once[actionType][j], id) {
      assert once[actionType][j] == list[j];
    }
    FindFirstIs(once[actionType], id, i);
    SetEnabledRestores(list[i], v);
    assert once[actionType][i := list[i]] == list;
    assert once[actionType := list] == store;
  }

  /**
   * Delete removes every record with the id and keeps each other record, as
   * many times as it occurred, in its order.
   */
  lemma DeleteRemovesEveryMatch(store: Store, actionType: string, id: string)
    requires actionType in store
    ensures var after := Deleted(store, actionType, id).1;
      && (forall a :: multiset(after[actionType])[a] == if HasId(a, id) then 0 else multiset(store[actionType])[a])
      && Subseq(after[actionType], store[actionType])
      && (forall t :: t in store && t != actionType ==> after[t] == store[t])
  {
    FilterMultiset(store[actionType], KeepOthers(id));
    FilterSubseq(store[actionType], KeepOthers(id));
  }

  /** Deleting the same id twice is the same as deleting it once. */
  lemma DeleteIdempotent(store: Store, actionType: string, id: string)
    requires actionType in store
    ensures Deleted(Deleted(store, actionType, id).1, actionType, id) == Deleted(store, actionType, id)
  {
    var once := Filter(store[actionType], KeepOthers(id));
    FilterAll(once, KeepOthers(id));
    var after := Deleted(store, actionType, id).1;
    assert after[actionType := once] == after;
  }

  /**
   * Creating an action with a fresh string id and then deleting that id gives back
   * the list the type had.
   */
  lemma CreateThenDelete(store: Store, actionType: string, a: Record, id: string)
    requires actionType in store && HasId(a, id)
    requires forall j :: 0 <= j < |store[actionType]| ==> !HasId(store[actionType][j], id)
    ensures Deleted(WithCreated(store, actionType, a), actionType, id).1 == store
  {
    var list := store[actionType];
    FilterSnoc(list, a, KeepOthers(id));
    FilterAll(list, KeepOthers(id));
    assert Deleted(WithCreated(store, actionType, a), actionType, id).1[actionType] == list;
  }

  /**
   * The dictionary one handler works on. Each handler loads it from the store
   * file, changes it in place, and saves it.
   */
  class ActionStore {
    var actions: Store

    /** `ensureActionsFile` for a missing file, followed by the load. */
    constructor ()
      ensures actions == DefaultStore()
    {
      actions := DefaultStore();
    }

    /** `GET /actions/:type`. */
    method GetActions(actionType: string) returns (list: seq<Record>)
      ensures actionType in actions ==> list == actions[actionType]
      ensures actionType !in actions ==> list == []
    {
      list := if actionType in actions then actions[actionType] else [];
    }

    /** `POST /actions/:type`: builds the action, creates the list if needed, pushes. */
    method Create(actionType: string, data: Record, nowMillis: nat, createdAt: string) returns (a: Record)
      modifies this
      ensures a == NewAction(actionType, data, nowMillis, createdAt)
      ensures actions == WithCreated(old(actions), actionType, a)
    {
      a := NewAction(actionType, data, nowMillis, createdAt);
      if actionType !in actions {
        actions := actions[actionType := []];
      }
      actions := actions[actionType := actions[actionType] + [a]];
    }

    /** `PUT /actions/:type/:id/toggle`. */
    method Toggle(actionType: string, id: string, enabled: Option<Json>) returns (status: Status)
      modifies this
      ensures (status, actions) == Toggled(old(actions), actionType, id, enabled)
    {
      if actionType !in actions {
        return ServerError;
      }
      var found := FindFirst(actions[actionType], id);
      if found.None? {
        return NotFound;
      }
      var list := actions[actionType];
      var i := found.value;
      actions := actions[actionType := list[i := SetEnabled(list[i], enabled)]];
      status := Ok;
    }

    /** `DELETE /actions/:type/:id`. */
    method Delete(actionType: string, id: string) returns (status: Status)
      modifies this
      ensures (status, actions) == Deleted(old(actions), actionType, id)
    {
      if actionType !in actions {
        return ServerError;
      }
      actions := actions[actionType := Filter(actions[actionType], KeepOthers(id))];
      status := Ok;
    }
  }
}
