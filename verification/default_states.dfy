/** Default-state derivation (`createDefaultStates` in store-util.js): every
    schema item's default value and payload defaults merged into a
    component's existing state object. */
module DefaultStates {
  import opened JsValue
  import opened Naming
  import opened Projection

  /** The descriptor as the object the projection reads in this path. With the
      payload ignored, the projection reads only its `defaultValue` field. */
  function DescriptorObject(d: Descriptor): Value
  {
    Obj(map["defaultValue" := d.defaultValue])
  }

  /** The flattened payload defaults: each payload default under its
      camel-cased state key. */
  function PayloadDefaults(docKey: string, payload: seq<(string, Value)>): seq<(string, Value)>
  {
    seq(|payload|, i requires 0 <= i < |payload| => (CamelKey(docKey, payload[i].0), payload[i].1))
  }

  lemma PayloadDefaultsKeys(docKey: string, payload: seq<(string, Value)>)
    ensures KeysOf(PayloadDefaults(docKey, payload)) == CamelKeys(docKey, payload)
  {
    var w := PayloadDefaults(docKey, payload);
    forall k | k in CamelKeys(docKey, payload) ensures k in KeysOf(w) {
      var i :| 0 <= i < |payload| && CamelKey(docKey, payload[i].0) == k;
      assert w[i].0 == k;
    }
  }

  /** The state keys one schema item derives: its own key and the state key
      of every payload field. */
  function ItemKeys(docKey: string, d: Descriptor): set<string>
  {
    {docKey} + (if d.payload.Some? then CamelKeys(docKey, d.payload.value) else {})
  }

  /** The state keys the whole schema derives. */
  function DerivedKeys(schema: Schema): set<string>
    decreases |schema|
  {
    if |schema| == 0 then {} else ItemKeys(schema[0].0, schema[0].1) + DerivedKeys(schema[1..])
  }

  lemma {:induction false} DerivedKeysOfItems(schema: Schema, k: string)
    ensures k in DerivedKeys(schema) <==> exists j :: 0 <= j < |schema| && k in ItemKeys(schema[j].0, schema[j].1)
    decreases |schema|
  {
    if |schema| > 0 {
      DerivedKeysOfItems(schema[1..], k);
      if k in DerivedKeys(schema[1..]) {
        var j :| 0 <= j < |schema| - 1 && k in ItemKeys(schema[1..][j].0, schema[1..][j].1);
        assert schema[j + 1] == schema[1..][j];
      }
      if exists j :: 0 <= j < |schema| && k in ItemKeys(schema[j].0, schema[j].1) {
        var j :| 0 <= j < |schema| && k in ItemKeys(schema[j].0, schema[j].1);
        if j > 0 {
          assert schema[1..][j - 1] == schema[j];
        }
      }
    }
  }

  /** The payload defaults flattened into a state object. */
  function Flatten(states: State, docKey: string, d: Descriptor): (r: State)
    ensures r.Keys == states.Keys + (if d.payload.Some? then CamelKeys(docKey, d.payload.value) else {})
    ensures forall k :: k in states && k !in ItemKeys(docKey, d) ==> r[k] == states[k]
  {
    if d.payload.Some? then
      PayloadDefaultsKeys(docKey, d.payload.value);
      Assign(states, PayloadDefaults(docKey, d.payload.value))
    else states
  }

  /** One iteration of `createDefaultStates`: the payload defaults are
      flattened into the state first, then the item key receives the
      projection of the default value, so it wins over an empty payload key.
      The item's keys are added; no other key is touched. */
  function ItemDefaults(states: State, docKey: string, d: Descriptor): (r: State)
    ensures r.Keys == states.Keys + ItemKeys(docKey, d)
    ensures forall k :: k in states && k !in ItemKeys(docKey, d) ==> r[k] == states[k]
  {
    Flatten(states, docKey, d)[docKey := Project(docKey, d, DescriptorObject(d), "defaultValue", true)[docKey]]
  }

  /** After one item's defaults the item key holds its (post-processed)
      default value. */
  lemma ItemDefaultsItemKey(states: State, docKey: string, d: Descriptor)
    ensures docKey in ItemDefaults(states, docKey, d)
    ensures ItemDefaults(states, docKey, d)[docKey] == MainValue(d, d.defaultValue)
  {
    assert Get(DescriptorObject(d), "defaultValue") == d.defaultValue;
    assert Project(docKey, d, DescriptorObject(d), "defaultValue", true)[docKey] == MainValue(d, d.defaultValue);
  }

  /** `createDefaultStates(states)` as a function from the state object before
      to the state object after: every derived key is present afterwards and
      every other key keeps its value. */
  function CreateDefaultStates(schema: Schema, states: State): (r: State)
    ensures r.Keys == states.Keys + DerivedKeys(schema)
    ensures forall k :: k in states && k !in DerivedKeys(schema) ==> r[k] == states[k]
    decreases |schema|
  {
    if |schema| == 0 then states
    else CreateDefaultStates(schema[1..], ItemDefaults(states, schema[0].0, schema[0].1))
  }

  /** An item key that no later item derives holds the item's default value,
      post-processed when the descriptor has a `postProcess`. */
  lemma {:induction false} DefaultStatesItemKey(schema: Schema, states: State, i: nat)
    requires i < |schema|
    requires forall j :: i < j < |schema| ==> schema[i].0 !in ItemKeys(schema[j].0, schema[j].1)
    ensures var r := CreateDefaultStates(schema, states);
            schema[i].0 in r && r[schema[i].0] == MainValue(schema[i].1, schema[i].1.defaultValue)
    decreases |schema|
  {
    var st := ItemDefaults(states, schema[0].0, schema[0].1);
    if i == 0 {
      FirstItemKey(schema, states);
    } else {
      ShiftLater(schema, i, schema[i].0);
      assert schema[1..][i - 1] == schema[i];
      DefaultStatesItemKey(schema[1..], st, i - 1);
    }
  }

  /** After one item's defaults, a non-empty payload key that no later
      payload key shadows holds its raw default under its state key. */
  lemma ItemDefaultsPayloadKey(states: State, docKey: string, d: Descriptor, j: nat)
    requires d.payload.Some? && j < |d.payload.value| && d.payload.value[j].0 != ""
    requires LastWrite(PayloadDefaults(docKey, d.payload.value), j)
    ensures CamelKey(docKey, d.payload.value[j].0) in ItemDefaults(states, docKey, d)
    ensures ItemDefaults(states, docKey, d)[CamelKey(docKey, d.payload.value[j].0)] == d.payload.value[j].1
  {
    var p := d.payload.value;
    AssignLastWrite(states, PayloadDefaults(docKey, p), j);
    CamelKeyShape(docKey, p[j].0);
  }

  /** A non-empty payload key's state key holds the raw payload default,
      unless a later payload key of the item or a later item derives the same
      state key. */
  lemma {:induction false} DefaultStatesPayloadKey(schema: Schema, states: State, i: nat, j: nat)
    requires i < |schema| && schema[i].1.payload.Some? && j < |schema[i].1.payload.value|
    requires schema[i].1.payload.value[j].0 != ""
    requires LastWrite(PayloadDefaults(schema[i].0, schema[i].1.payload.value), j)
    requires forall m :: i < m < |schema| ==>
               CamelKey(schema[i].0, schema[i].1.payload.value[j].0) !in ItemKeys(schema[m].0, schema[m].1)
    ensures var r := CreateDefaultStates(schema, states);
            var c := CamelKey(schema[i].0, schema[i].1.payload.value[j].0);
            c in r && r[c] == schema[i].1.payload.value[j].1
    decreases |schema|
  {
    var st := ItemDefaults(states, schema[0].0, schema[0].1);
    var c := CamelKey(schema[i].0, schema[i].1.payload.value[j].0);
    if i == 0 {
      FirstItemPayloadKey(schema, states, j);
    } else {
      ShiftLater(schema, i, c);
      assert schema[1..][i - 1] == schema[i];
      DefaultStatesPayloadKey(schema[1..], st, i - 1, j);
    }
  }

  /** `DefaultStatesItemKey` for the first item. */
  lemma FirstItemKey(schema: Schema, states: State)
    requires |schema| > 0
    requires forall j :: 0 < j < |schema| ==> schema[0].0 !in ItemKeys(schema[j].0, schema[j].1)
    ensures var r := CreateDefaultStates(schema, states);
            schema[0].0 in r && r[schema[0].0] == MainValue(schema[0].1, schema[0].1.defaultValue)
  {
    ItemDefaultsItemKey(states, schema[0].0, schema[0].1);
    NotDerivedByRest(schema, schema[0].0);
  }

  /** `DefaultStatesPayloadKey` for the first item. */
  lemma FirstItemPayloadKey(schema: Schema, states: State, j: nat)
    requires |schema| > 0 && schema[0].1.payload.Some? && j < |schema[0].1.payload.value|
    requires schema[0].1.payload.value[j].0 != ""
    requires LastWrite(PayloadDefaults(schema[0].0, schema[0].1.payload.value), j)
    requires forall m :: 0 < m < |schema| ==>
               CamelKey(schema[0].0, schema[0].1.payload.value[j].0) !in ItemKeys(schema[m].0, schema[m].1)
    ensures var r := CreateDefaultStates(schema, states);
            var c := CamelKey(schema[0].0, schema[0].1.payload.value[j].0);
            c in r && r[c] == schema[0].1.payload.value[j].1
  {
    ItemDefaultsPayloadKey(states, schema[0].0, schema[0].1, j);
    NotDerivedByRest(schema, CamelKey(schema[0].0, schema[0].1.payload.value[j].0));
  }

  /** A key no item after the first derives is not derived by the rest of
      the schema. */
  lemma NotDerivedByRest(schema: Schema, k: string)
    requires |schema| > 0
    requires forall m :: 0 < m < |schema| ==> k !in ItemKeys(schema[m].0, schema[m].1)
    ensures k !in DerivedKeys(schema[1..])
  {
    DerivedKeysOfItems(schema[1..], k);
    forall m | 0 <= m < |schema| - 1 ensures k !in ItemKeys(schema[1..][m].0, schema[1..][m].1) {
      assert schema[1..][m] == schema[m + 1];
    }
  }

  /** "No item after `i` derives `k`" carried over to the rest of the schema. */
  lemma ShiftLater(schema: Schema, i: nat, k: string)
    requires 0 < i < |schema|
    requires forall m :: i < m < |schema| ==> k !in ItemKeys(schema[m].0, schema[m].1)
    ensures forall m :: i - 1 < m < |schema| - 1 ==> k !in ItemKeys(schema[1..][m].0, schema[1..][m].1)
  {
    forall m | i - 1 < m < |schema| - 1 ensures k !in ItemKeys(schema[1..][m].0, schema[1..][m].1) {
      assert schema[1..][m] == schema[m + 1];
    }
  }

  /** One item's defaults land on top of an overlay `a + b`. */
  lemma ItemDefaultsOverlay(a: State, b: State, docKey: string, d: Descriptor)
    ensures ItemDefaults(a + b, docKey, d) == a + ItemDefaults(b, docKey, d)
  {
    if d.payload.Some? {
      AssignOverlay(a, b, PayloadDefaults(docKey, d.payload.value));
    }
    assert Flatten(a + b, docKey, d) == a + Flatten(b, docKey, d);
    OverlayWrite(a, Flatten(b, docKey, d), docKey, Project(docKey, d, DescriptorObject(d), "defaultValue", true)[docKey]);
  }

  lemma {:induction false} DefaultStatesOverlay(schema: Schema, a: State, b: State)
    ensures CreateDefaultStates(schema, a + b) == a + CreateDefaultStates(schema, b)
    decreases |schema|
  {
    if |schema| > 0 {
      ItemDefaultsOverlay(a, b, schema[0].0, schema[0].1);
      DefaultStatesOverlay(schema[1..], a, ItemDefaults(b, schema[0].0, schema[0].1));
    }
  }

  /** Deriving the default state merges one fixed mapping, the default state
      derived from nothing, over the caller's state: same-named keys are
      overwritten, all others are kept. */
  lemma DefaultStatesMerge(schema: Schema, states: State)
    ensures CreateDefaultStates(schema, states) == states + CreateDefaultStates(schema, map[])
  {
    OverlayEmpty(states);
    DefaultStatesOverlay(schema, states, map[]);
  }

  /** Deriving the default state a second time changes nothing. */
  lemma DefaultStatesIdempotent(schema: Schema, states: State)
    ensures CreateDefaultStates(schema, CreateDefaultStates(schema, states)) == CreateDefaultStates(schema, states)
  {
    var defaults := CreateDefaultStates(schema, map[]);
    DefaultStatesMerge(schema, states);
    DefaultStatesMerge(schema, states + defaults);
    OverlayAgain(states, defaults);
  }
}
