/** The journal's record encoding: planned values and whole records as JSON trees and back. */
module RecordCodec {
  import opened Prelude
  import opened Markers
  import opened JsonTrees
  import opened Records

  // ----- Planned values -----

  /** What a postcondition may hold: JSON values and typed references. */
  datatype Planned = PNull | PBool(flag: bool) | PNumber(number: int) | PText(text: string)
                   | PRef(kind: string, name: string)
                   | PTuple(items: seq<Planned>) | PMap(fields: seq<Field>)

  datatype Field = Field(key: string, item: Planned)

  const REFERENCE_KINDS := {
    "group", "actor", "product", "component", "version", "milestone",
    "custom-field", "keyword", "flag-type", "asset", "bug", "attachment"
  }

  predicate ValidRef(kind: string, name: string)
  {
    kind in REFERENCE_KINDS && IsSlug(name)
  }

  function RefText(kind: string, name: string): string { kind + ":" + name }

  function FirstColon(raw: string): (r: nat)
    ensures r <= |raw|
  {
    if raw == "" || raw[0] == ':' then 0 else 1 + FirstColon(raw[1..])
  }

  /** `raw.count(":") == 1`, the split, and `_validate_reference`. */
  function ParseRef(raw: string): Option<Planned>
  {
    var at := FirstColon(raw);
    if at == |raw| || ':' in raw[at + 1..] then None
    else if ValidRef(raw[..at], raw[at + 1..]) then Some(PRef(raw[..at], raw[at + 1..]))
    else None
  }

  lemma {:induction false} FirstColonSkips(kind: string, rest: string)
    requires ':' !in kind
    ensures FirstColon(kind + ":" + rest) == |kind|
  {
    if kind != "" {
      assert (kind + ":" + rest)[1..] == kind[1..] + ":" + rest;
      FirstColonSkips(kind[1..], rest);
    }
  }

  /** A valid reference reads back from its text. */
  lemma RefReadsBack(kind: string, name: string)
    requires ValidRef(kind, name)
    ensures ParseRef(RefText(kind, name)) == Some(PRef(kind, name))
  {
    FirstColonSkips(kind, name);
    var raw := RefText(kind, name);
    assert raw[..|kind|] == kind && raw[|kind| + 1..] == name;
    assert forall i | 0 <= i < |name| :: name[i] != ':';
  }

  /** `planned_to_json`. */
  function ToJson(value: Planned): Json
    decreases value
  {
    match value
    case PNull => Null
    case PBool(flag) => Bool(flag)
    case PNumber(number) => Number(number)
    case PText(text) => Text(text)
    case PRef(kind, name) => Object([Entry("ref", Text(RefText(kind, name)))])
    case PTuple(items) => List(ItemsToJson(items))
    case PMap(fields) => Object(FieldsToJson(fields))
  }

  function ItemsToJson(items: seq<Planned>): (r: seq<Json>)
    ensures |r| == |items|
    decreases items
  {
    if items == [] then [] else [ToJson(items[0])] + ItemsToJson(items[1..])
  }

  function FieldsToJson(fields: seq<Field>): (r: seq<Entry>)
    ensures |r| == |fields| && forall i | 0 <= i < |r| :: r[i].key == fields[i].key
    decreases fields
  {
    if fields == [] then [] else [Entry(fields[0].key, ToJson(fields[0].item))] + FieldsToJson(fields[1..])
  }

  /** `set(value) == {"ref"}`. */
  predicate IsRefObject(entries: seq<Entry>)
  {
    |entries| == 1 && entries[0].key == "ref"
  }

  /** `_planned_from_json`: any one-key `ref` object is read as a reference. */
  function FromJson(value: Json): Option<Planned>
    decreases value
  {
    match value
    case Null => Some(PNull)
    case Bool(flag) => Some(PBool(flag))
    case Number(number) => Some(PNumber(number))
    case Text(text) => Some(PText(text))
    case List(items) =>
      var r := ItemsFromJson(items);
      if r.Some? then Some(PTuple(r.value)) else None
    case Object(entries) =>
      if IsRefObject(entries) then
        if entries[0].item.Text? then ParseRef(entries[0].item.text) else None
      else
        var r := FieldsFromJson(entries);
        if r.Some? then Some(PMap(r.value)) else None
  }

  function ItemsFromJson(items: seq<Json>): Option<seq<Planned>>
    decreases items
  {
    if items == [] then Some([])
    else
      var first, rest := FromJson(items[0]), ItemsFromJson(items[1..]);
      if first.Some? && rest.Some? then Some([first.value] + rest.value) else None
  }

  function FieldsFromJson(entries: seq<Entry>): Option<seq<Field>>
    decreases entries
  {
    if entries == [] then Some([])
    else
      var first, rest := FromJson(entries[0].item), FieldsFromJson(entries[1..]);
      if first.Some? && rest.Some? then Some([Field(entries[0].key, first.value)] + rest.value) else None
  }

  /** Every reference in the tree is one the journal accepts. */
  predicate RefsValid(value: Planned)
    decreases value
  {
    match value
    case PRef(kind, name) => ValidRef(kind, name)
    case PTuple(items) => forall i | 0 <= i < |items| :: RefsValid(items[i])
    case PMap(fields) => forall i | 0 <= i < |fields| :: RefsValid(fields[i].item)
    case _ => true
  }

  /** Somewhere in the tree a mapping has `ref` as its only key. */
  predicate HasRefMapping(value: Planned)
    decreases value
  {
    match value
    case PTuple(items) => exists i | 0 <= i < |items| :: HasRefMapping(items[i])
    case PMap(fields) =>
      (|fields| == 1 && fields[0].key == "ref") || exists i | 0 <= i < |fields| :: HasRefMapping(fields[i].item)
    case _ => false
  }

  /** A planned value reads back exactly when no mapping in it looks like a reference. */
  lemma {:induction false} PlannedReadsBack(value: Planned)
    requires RefsValid(value)
    ensures FromJson(ToJson(value)) == Some(value) <==> !HasRefMapping(value)
    decreases value
  {
    match value
    case PRef(kind, name) => RefReadsBack(kind, name);
    case PTuple(items) => ItemsReadBack(items);
    case PMap(fields) => FieldsReadBack(fields);
    case _ =>
  }

  lemma {:induction false} ItemsReadBack(items: seq<Planned>)
    requires forall i | 0 <= i < |items| :: RefsValid(items[i])
    ensures ItemsFromJson(ItemsToJson(items)) == Some(items)
        <==> forall i | 0 <= i < |items| :: !HasRefMapping(items[i])
    decreases items
  {
    if items != [] {
      PlannedReadsBack(items[0]);
      ItemsReadBack(items[1..]);
      assert ItemsToJson(items)[1..] == ItemsToJson(items[1..]);
      assert items == [items[0]] + items[1..];
    }
  }

  lemma {:induction false} FieldsReadBack(fields: seq<Field>)
    requires forall i | 0 <= i < |fields| :: RefsValid(fields[i].item)
    ensures FieldsFromJson(FieldsToJson(fields)) == Some(fields)
       <==> forall i | 0 <= i < |fields| :: !HasRefMapping(fields[i].item)
    decreases fields
  {
    if fields != [] {
      PlannedReadsBack(fields[0].item);
      FieldsReadBack(fields[1..]);
      assert FieldsToJson(fields)[1..] == FieldsToJson(fields[1..]);
      assert fields == [fields[0]] + fields[1..];
    }
  }

  // ----- Postconditions -----

  datatype ActionName = Create | Update | Comment | Attach | Worktime | CustomFieldSet | Flag | AttachmentUpdate

  function ActionText(action: ActionName): string
  {
    match action
    case Create => "bug.create"
    case Update => "bug.update"
    case Comment => "bug.comment"
    case Attach => "bug.attach"
    case Worktime => "bug.worktime"
    case CustomFieldSet => "bug.custom-field-set"
    case Flag => "bug.flag"
    case AttachmentUpdate => "attachment.update"
  }

  function RequiredKeys(action: ActionName): set<string>
  {
    match action
    case Create => {"product", "component", "summary", "description", "version", "milestone", "assignee", "cc",
                    "groups", "depends_on", "blocks", "duplicate_of", "keywords", "estimated_hours",
                    "remaining_hours", "custom_fields", "server_alias"}
    case Update => {}
    case Comment => {"body", "private"}
    case Attach => {"bug", "asset", "asset_sha256", "description", "content_type", "private"}
    case Worktime => {"bug", "hours", "comment"}
    case CustomFieldSet => {"bug", "values"}
    case Flag => {"bug", "flag_type", "status", "requestee"}
    case AttachmentUpdate => {"attachment", "obsolete"}
  }

  function OptionalKeys(action: ActionName): set<string>
  {
    match action
    case Update => {"summary", "status", "resolution", "assignee", "cc", "groups", "depends_on", "blocks",
                    "duplicate_of", "version", "milestone", "keywords", "estimated_hours", "remaining_hours"}
    case AttachmentUpdate => {"description"}
    case _ => {}
  }

  datatype Shape = PlainValue | OneRef | RefList | Assignments

  function ShapeOf(key: string): Shape
  {
    if key in {"product", "component", "version", "milestone", "assignee", "duplicate_of", "bug", "asset",
               "flag_type", "requestee", "attachment"} then OneRef
    else if key in {"cc", "groups", "depends_on", "blocks", "keywords"} then RefList
    else if key in {"custom_fields", "values"} then Assignments
    else PlainValue
  }

  predicate IsPlain(value: Planned)
  {
    value.PNull? || value.PBool? || value.PNumber? || value.PText?
  }

  predicate IsValidRef(value: Planned)
  {
    value.PRef? && ValidRef(value.kind, value.name)
  }

  function KeysOf(fields: seq<Field>): set<string>
  {
    set i | 0 <= i < |fields| :: fields[i].key
  }

  /** `_keys`: an object with every required key and no unknown one. */
  predicate KeysFit(fields: seq<Field>, required: set<string>, optional: set<string>)
  {
    required <= KeysOf(fields) <= required + optional
  }

  /** One custom-field assignment. */
  predicate IsAssignment(value: Planned)
  {
    && value.PMap? && KeysFit(value.fields, {"field", "value"}, {})
    && forall i | 0 <= i < |value.fields| ::
         if value.fields[i].key == "field" then IsValidRef(value.fields[i].item)
         else IsTextOrTexts(value.fields[i].item)
  }

  predicate IsTextOrTexts(value: Planned)
  {
    value.PText? || (value.PTuple? && forall i | 0 <= i < |value.items| :: value.items[i].PText?)
  }

  predicate Fits(shape: Shape, value: Planned)
  {
    match shape
    case PlainValue => IsPlain(value)
    case OneRef => value.PNull? || IsValidRef(value)
    case RefList => value.PTuple? && forall i | 0 <= i < |value.items| :: IsValidRef(value.items[i])
    case Assignments => value.PTuple? && forall i | 0 <= i < |value.items| :: IsAssignment(value.items[i])
  }

  /** `_validate_postcondition_values`. */
  predicate ValidValues(action: ActionName, values: Planned)
  {
    && values.PMap? && KeysFit(values.fields, RequiredKeys(action), OptionalKeys(action))
    && forall i | 0 <= i < |values.fields| :: Fits(ShapeOf(values.fields[i].key), values.fields[i].item)
  }

  predicate FieldFits(field: Field, action: ActionName, target: Planned, values: Planned, marker: string)
  {
    match field.key
    case "action" => field.item == PText(ActionText(action))
    case "target" => field.item == target
    case "values" => field.item == values
    case "marker" => field.item == PText(marker)
    case _ => false
  }

  /** The postcondition checks of `_validate_common`. */
  predicate IsPostcondition(p: Planned, action: ActionName, target: Planned, values: Planned, marker: string)
  {
    && p.PMap? && KeysFit(p.fields, {"action", "target", "values", "marker"}, {})
    && (forall i | 0 <= i < |p.fields| :: FieldFits(p.fields[i], action, target, values, marker))
    && IsValidRef(target) && ValidValues(action, values)
  }

  ghost predicate ValidPostcondition(p: Planned, marker: string)
  {
    exists action, target, values :: IsPostcondition(p, action, target, values, marker)
  }

  lemma AssignmentHasNoRefMapping(value: Planned)
    requires IsAssignment(value)
    ensures !HasRefMapping(value) && RefsValid(value)
  {
    var fields := value.fields;
    assert "field" in KeysOf(fields) && "value" in KeysOf(fields);
    forall i | 0 <= i < |fields| ensures !HasRefMapping(fields[i].item) && RefsValid(fields[i].item) {
      assert fields[i].key in KeysOf(fields);
    }
  }

  lemma FittingHasNoRefMapping(shape: Shape, value: Planned)
    requires Fits(shape, value)
    ensures !HasRefMapping(value) && RefsValid(value)
  {
    if shape.Assignments? {
      forall i | 0 <= i < |value.items| ensures !HasRefMapping(value.items[i]) && RefsValid(value.items[i]) {
        AssignmentHasNoRefMapping(value.items[i]);
      }
    }
  }

  lemma NoKeyIsRef(action: ActionName)
    ensures "ref" !in RequiredKeys(action) + OptionalKeys(action)
  {
  }

  lemma ValuesHaveNoRefMapping(action: ActionName, values: Planned)
    requires ValidValues(action, values)
    ensures !HasRefMapping(values) && RefsValid(values)
  {
    NoKeyIsRef(action);
    hide RequiredKeys, OptionalKeys, ShapeOf;
    var fields := values.fields;
    forall i | 0 <= i < |fields|
      ensures fields[i].key != "ref" && !HasRefMapping(fields[i].item) && RefsValid(fields[i].item)
    {
      assert fields[i].key in KeysOf(fields);
      FittingHasNoRefMapping(ShapeOf(fields[i].key), fields[i].item);
    }
  }

  /** A validated postcondition never holds a mapping that reads as a reference. */
  lemma PostconditionHasNoRefMapping(p: Planned, marker: string)
    requires ValidPostcondition(p, marker)
    ensures !HasRefMapping(p) && RefsValid(p)
  {
    hide ValidValues, KeysFit;
    var action, target, values :| IsPostcondition(p, action, target, values, marker);
    ValuesHaveNoRefMapping(action, values);
    forall i | 0 <= i < |p.fields|
      ensures p.fields[i].key != "ref" && !HasRefMapping(p.fields[i].item) && RefsValid(p.fields[i].item)
    {
      assert FieldFits(p.fields[i], action, target, values, marker);
    }
  }

  /** So a validated postcondition always reads back. */
  lemma PostconditionReadsBack(p: Planned, marker: string)
    requires ValidPostcondition(p, marker)
    ensures FromJson(ToJson(p)) == Some(p)
  {
    PostconditionHasNoRefMapping(p, marker);
    PlannedReadsBack(p);
  }

  // ----- Records -----

  datatype Invocation = Invocation(boundary: string, operation: string, arguments: seq<string>,
                                   environment: seq<string>)

  datatype Completion = Completion(invocation: Invocation, output: Json, exitStatus: int,
                                   resolvedIds: seq<(string, int)>, next: NextAction)

  /** `completion` is absent from an in-flight record. */
  datatype AttemptRecord = AttemptRecord(digest: string, event: string, attempt: int, actor: Planned,
                                         actionClass: string, postcondition: Planned, marker: string,
                                         completion: Option<Completion>)

  function NextText(next: NextAction): string
  {
    match next
    case Advance => "advance"
    case Reconsider => "reconcile"
    case Retry => "retry"
    case Stop => "stop"
  }

  function NextFromText(text: string): Option<NextAction>
  {
    if text == "advance" then Some(Advance)
    else if text == "reconcile" then Some(Reconsider)
    else if text == "retry" then Some(Retry)
    else if text == "stop" then Some(Stop)
    else None
  }

  /** What constructing a record checks, as far as reading it back depends on it. */
  ghost predicate ValidRecord(r: AttemptRecord)
  {
    IsSlug(r.event) && r.attempt > 0 && IsValidRef(r.actor) && r.actor.kind == "actor" && r.marker != ""
    && ValidPostcondition(r.postcondition, r.marker)
  }

  function Texts(list: seq<string>): (r: seq<Json>)
    ensures |r| == |list| && forall i | 0 <= i < |r| :: r[i] == Text(list[i])
  {
    seq(|list|, i requires 0 <= i < |list| => Text(list[i]))
  }

  function TextsFromJson(value: Json): Option<seq<string>>
  {
    if value.List? && forall i | 0 <= i < |value.items| :: value.items[i].Text? then
      Some(seq(|value.items|, i requires 0 <= i < |value.items| => value.items[i].text))
    else None
  }

  function IdsToJson(ids: seq<(string, int)>): (r: seq<Entry>)
    ensures |r| == |ids| && forall i | 0 <= i < |r| :: r[i] == Entry(ids[i].0, Number(ids[i].1))
  {
    seq(|ids|, i requires 0 <= i < |ids| => Entry(ids[i].0, Number(ids[i].1)))
  }

  function IdsFromJson(value: Json): Option<seq<(string, int)>>
  {
    if value.Object? && forall i | 0 <= i < |value.entries| :: value.entries[i].item.Number? then
      Some(seq(|value.entries|,
               i requires 0 <= i < |value.entries| => (value.entries[i].key, value.entries[i].item.number)))
    else None
  }

  /** `_common_json`, after the version and the phase. */
  function CommonToJson(r: AttemptRecord): seq<Entry>
  {
    [Entry("journal_version", Number(1)),
     Entry("phase", Text(if r.completion.Some? then "completed" else "in_flight")),
     Entry("scenario_digest", Text(r.digest)), Entry("event", Text(r.event)), Entry("attempt", Number(r.attempt)),
     Entry("actor", ToJson(r.actor)), Entry("action_class", Text(r.actionClass)),
     Entry("expected_postcondition", ToJson(r.postcondition)), Entry("reconciliation_marker", Text(r.marker))]
  }

  /** `_record_json`. */
  function RecordToJson(r: AttemptRecord): Json
  {
    Object(CommonToJson(r) + if r.completion.Some? then CompletionToJson(r.completion.value) else [])
  }

  function CompletionToJson(c: Completion): seq<Entry>
  {
    [Entry("invocation", Object([
       Entry("mutation_boundary", Text(c.invocation.boundary)), Entry("operation", Text(c.invocation.operation)),
       Entry("arguments", List(Texts(c.invocation.arguments))),
       Entry("environment_names", List(Texts(c.invocation.environment)))])),
     Entry("handler_output", c.output), Entry("exit_status", Number(c.exitStatus)),
     Entry("resolved_ids", Object(IdsToJson(c.resolvedIds))), Entry("next_safe_action", Text(NextText(c.next)))]
  }

  /** The value under a key of an object; `Null` where there is none. */
  function Get(entries: seq<Entry>, key: string): Json
  {
    if entries == [] then Null else if entries[0].key == key then entries[0].item else Get(entries[1..], key)
  }

  function EntryKeys(entries: seq<Entry>): set<string>
  {
    set i | 0 <= i < |entries| :: entries[i].key
  }

  const COMMON_KEYS := {"journal_version", "phase", "scenario_digest", "event", "attempt", "actor", "action_class",
                        "expected_postcondition", "reconciliation_marker"}
  const COMPLETED_KEYS := {"invocation", "handler_output", "exit_status", "resolved_ids", "next_safe_action"}
  const INVOCATION_KEYS := {"mutation_boundary", "operation", "arguments", "environment_names"}

  /** `_record_from_json`. */
  function RecordFromJson(value: Json): Option<AttemptRecord>
  {
    if !value.Object? then None
    else
      var e := value.entries;
      var phase := Get(e, "phase");
      var allowed := if phase == Text("completed") then COMMON_KEYS + COMPLETED_KEYS else COMMON_KEYS;
      var actor, postcondition := FromJson(Get(e, "actor")), FromJson(Get(e, "expected_postcondition"));
      if EntryKeys(e) != allowed || Get(e, "journal_version") != Number(1)
         || phase !in {Text("in_flight"), Text("completed")}
         || !Get(e, "scenario_digest").Text? || !Get(e, "event").Text? || !Get(e, "attempt").Number?
         || !Get(e, "action_class").Text? || !Get(e, "reconciliation_marker").Text?
         || actor.None? || postcondition.None?
      then None
      else
        var completion := if phase == Text("completed") then CompletionFromJson(e) else None;
        if phase == Text("completed") && completion.None? then None
        else Some(AttemptRecord(Get(e, "scenario_digest").text, Get(e, "event").text, Get(e, "attempt").number,
                                actor.value, Get(e, "action_class").text, postcondition.value,
                                Get(e, "reconciliation_marker").text, completion))
  }

  function InvocationFromJson(value: Json): Option<Invocation>
  {
    if !value.Object? || EntryKeys(value.entries) != INVOCATION_KEYS then None
    else
      var e := value.entries;
      var arguments, environment := TextsFromJson(Get(e, "arguments")), TextsFromJson(Get(e, "environment_names"));
      if !Get(e, "mutation_boundary").Text? || !Get(e, "operation").Text? || arguments.None? || environment.None?
      then None
      else Some(Invocation(Get(e, "mutation_boundary").text, Get(e, "operation").text, arguments.value,
                           environment.value))
  }

  function CompletionFromJson(e: seq<Entry>): Option<Completion>
  {
    var invocation, ids := InvocationFromJson(Get(e, "invocation")), IdsFromJson(Get(e, "resolved_ids"));
    if invocation.None? || ids.None? || !Get(e, "exit_status").Number? || !Get(e, "next_safe_action").Text?
       || NextFromText(Get(e, "next_safe_action").text).None?
    then None
    else Some(Completion(invocation.value, Get(e, "handler_output"), Get(e, "exit_status").number, ids.value,
                         NextFromText(Get(e, "next_safe_action").text).value))
  }

  // ----- Records read back -----

  /** A key of the first part is looked up there, a key of the second part alone in the second. */
  lemma {:induction false} GetConcat(a: seq<Entry>, b: seq<Entry>, key: string)
    ensures Get(a + b, key) == if key in EntryKeys(a) then Get(a, key) else Get(b, key)
  {
    if a == [] {
      assert a + b == b;
    } else {
      GetConcat(a[1..], b, key);
      assert (a + b)[1..] == a[1..] + b;
      assert EntryKeys(a) == {a[0].key} + EntryKeys(a[1..]) by { KeysOfCons(a); }
    }
  }

  lemma KeysOfCons(a: seq<Entry>)
    requires a != []
    ensures EntryKeys(a) == {a[0].key} + EntryKeys(a[1..])
  {
    forall k | k in EntryKeys(a) ensures k in {a[0].key} + EntryKeys(a[1..]) {
      var i :| 0 <= i < |a| && a[i].key == k;
      if i > 0 { assert a[1..][i - 1] == a[i]; }
    }
    forall k | k in EntryKeys(a[1..]) ensures k in EntryKeys(a) {
      var i :| 0 <= i < |a[1..]| && a[1..][i].key == k;
      assert a[i + 1].key == k;
    }
  }

  lemma KeysConcat(a: seq<Entry>, b: seq<Entry>)
    ensures EntryKeys(a + b) == EntryKeys(a) + EntryKeys(b)
  {
    var both := a + b;
    assert forall i | 0 <= i < |a| :: both[i] == a[i];
    assert forall i | 0 <= i < |b| :: both[|a| + i] == b[i];
  }

  lemma CommonKeys(r: AttemptRecord)
    ensures EntryKeys(CommonToJson(r)) == COMMON_KEYS
  {
    hide ToJson;
    var e := CommonToJson(r);
    assert e[0].key == "journal_version" && e[1].key == "phase" && e[2].key == "scenario_digest";
    assert e[3].key == "event" && e[4].key == "attempt" && e[5].key == "actor" && e[6].key == "action_class";
    assert e[7].key == "expected_postcondition" && e[8].key == "reconciliation_marker";
  }

  lemma CompletionKeys(c: Completion)
    ensures EntryKeys(CompletionToJson(c)) == COMPLETED_KEYS
  {
    var e := CompletionToJson(c);
    assert e[0].key == "invocation" && e[1].key == "handler_output" && e[2].key == "exit_status";
    assert e[3].key == "resolved_ids" && e[4].key == "next_safe_action";
  }

  /** Looking a key up past entries that have other keys. */
  lemma {:induction false} GetAt(e: seq<Entry>, k: nat)
    requires k < |e| && forall i | 0 <= i < k :: e[i].key != e[k].key
    ensures Get(e, e[k].key) == e[k].item
  {
    if k > 0 {
      assert e[1..][k - 1] == e[k];
      GetAt(e[1..], k - 1);
    }
  }

  /** The keys of an object display are distinct, so every value is found under its key. */
  lemma GetEach(e: seq<Entry>)
    requires forall i, j | 0 <= i < j < |e| :: e[i].key != e[j].key
    ensures forall k | 0 <= k < |e| :: Get(e, e[k].key) == e[k].item
  {
    forall k | 0 <= k < |e| ensures Get(e, e[k].key) == e[k].item { GetAt(e, k); }
  }

  lemma CommonFields(r: AttemptRecord)
    ensures var e := CommonToJson(r);
      && Get(e, "journal_version") == Number(1)
      && Get(e, "phase") == Text(if r.completion.Some? then "completed" else "in_flight")
      && Get(e, "scenario_digest") == Text(r.digest) && Get(e, "event") == Text(r.event)
      && Get(e, "attempt") == Number(r.attempt) && Get(e, "actor") == ToJson(r.actor)
      && Get(e, "action_class") == Text(r.actionClass)
      && Get(e, "expected_postcondition") == ToJson(r.postcondition)
      && Get(e, "reconciliation_marker") == Text(r.marker)
  {
    hide ToJson, Get;
    var e := CommonToJson(r);
    GetEach(e);
    assert e[0].key == "journal_version" && e[1].key == "phase" && e[2].key == "scenario_digest";
    assert e[3].key == "event" && e[4].key == "attempt" && e[5].key == "actor" && e[6].key == "action_class";
    assert e[7].key == "expected_postcondition" && e[8].key == "reconciliation_marker";
  }

  lemma CompletionFields(c: Completion)
    ensures var e := CompletionToJson(c);
      && Get(e, "handler_output") == c.output && Get(e, "exit_status") == Number(c.exitStatus)
      && Get(e, "resolved_ids") == Object(IdsToJson(c.resolvedIds))
      && Get(e, "next_safe_action") == Text(NextText(c.next))
      && InvocationFromJson(Get(e, "invocation")) == Some(c.invocation)
  {
    hide Get;
    var e := CompletionToJson(c);
    GetEach(e);
    assert e[0].key == "invocation" && e[1].key == "handler_output" && e[2].key == "exit_status";
    assert e[3].key == "resolved_ids" && e[4].key == "next_safe_action";
    InvocationReadsBack(c.invocation, e[0].item.entries);
  }

  lemma InvocationReadsBack(invocation: Invocation, e: seq<Entry>)
    requires e == [
      Entry("mutation_boundary", Text(invocation.boundary)), Entry("operation", Text(invocation.operation)),
      Entry("arguments", List(Texts(invocation.arguments))),
      Entry("environment_names", List(Texts(invocation.environment)))]
    ensures InvocationFromJson(Object(e)) == Some(invocation)
  {
    hide Get;
    GetEach(e);
    assert e[0].key == "mutation_boundary" && e[1].key == "operation" && e[2].key == "arguments";
    assert e[3].key == "environment_names";
    TextsReadBack(invocation.arguments);
    TextsReadBack(invocation.environment);
  }

  lemma TextsReadBack(list: seq<string>)
    ensures TextsFromJson(List(Texts(list))) == Some(list)
  {
    var back := TextsFromJson(List(Texts(list)));
    assert back.Some? && back.value == list;
  }

  lemma IdsReadBack(ids: seq<(string, int)>)
    ensures IdsFromJson(Object(IdsToJson(ids))) == Some(ids)
  {
    var back := IdsFromJson(Object(IdsToJson(ids)));
    assert back.Some? && back.value == ids;
  }

  /** The encoding's entries, looked up in the whole object. */
  lemma WholeFields(r: AttemptRecord, key: string)
    ensures var e := RecordToJson(r).entries;
      && (key in COMMON_KEYS ==> Get(e, key) == Get(CommonToJson(r), key))
      && (key in COMPLETED_KEYS && r.completion.Some? ==> Get(e, key) == Get(CompletionToJson(r.completion.value), key))
      && EntryKeys(e) == COMMON_KEYS + if r.completion.Some? then COMPLETED_KEYS else {}
  {
    hide Get, CommonToJson, CompletionToJson;
    CommonKeys(r);
    var rest := if r.completion.Some? then CompletionToJson(r.completion.value) else [];
    if r.completion.Some? { CompletionKeys(r.completion.value); }
    KeysConcat(CommonToJson(r), rest);
    GetConcat(CommonToJson(r), rest, key);
  }

  lemma CompletionReadsBack(r: AttemptRecord)
    requires r.completion.Some?
    ensures CompletionFromJson(RecordToJson(r).entries) == r.completion
  {
    hide Get, RecordToJson, InvocationFromJson, IdsFromJson, CompletionToJson;
    CompletionFields(r.completion.value);
    IdsReadBack(r.completion.value.resolvedIds);
    WholeFields(r, "invocation");
    WholeFields(r, "handler_output");
    WholeFields(r, "exit_status");
    WholeFields(r, "resolved_ids");
    WholeFields(r, "next_safe_action");
  }

  lemma CommonReadsBack(r: AttemptRecord)
    ensures var e := RecordToJson(r).entries;
      && Get(e, "journal_version") == Number(1)
      && Get(e, "phase") == Text(if r.completion.Some? then "completed" else "in_flight")
      && Get(e, "scenario_digest") == Text(r.digest) && Get(e, "event") == Text(r.event)
      && Get(e, "attempt") == Number(r.attempt) && Get(e, "actor") == ToJson(r.actor)
      && Get(e, "action_class") == Text(r.actionClass)
      && Get(e, "expected_postcondition") == ToJson(r.postcondition)
      && Get(e, "reconciliation_marker") == Text(r.marker)
      && EntryKeys(e) == COMMON_KEYS + if r.completion.Some? then COMPLETED_KEYS else {}
  {
    hide Get, RecordToJson, ToJson, CommonToJson;
    CommonFields(r);
    WholeFields(r, "journal_version");
    WholeFields(r, "phase");
    WholeFields(r, "scenario_digest");
    WholeFields(r, "event");
    WholeFields(r, "attempt");
    WholeFields(r, "actor");
    WholeFields(r, "action_class");
    WholeFields(r, "expected_postcondition");
    WholeFields(r, "reconciliation_marker");
  }

  lemma ActorReadsBack(actor: Planned)
    requires IsValidRef(actor)
    ensures FromJson(ToJson(actor)) == Some(actor)
  {
    PlannedReadsBack(actor);
  }

  /** Every valid record, in flight or completed, reads back from its own encoding. */
  lemma RecordReadsBack(r: AttemptRecord)
    requires ValidRecord(r)
    ensures RecordFromJson(RecordToJson(r)) == Some(r)
  {
    hide FromJson, ToJson, ValidPostcondition, Get, CompletionFromJson, CommonToJson, CompletionToJson, EntryKeys;
    ActorReadsBack(r.actor);
    PostconditionReadsBack(r.postcondition, r.marker);
    CommonReadsBack(r);
    if r.completion.Some? { CompletionReadsBack(r); }
  }
}
