/** The schema and the document-to-state projection (`dbDocument2State` in
    store-util.js) shared by default-state derivation, loading and the change
    listener. */
module Projection {
  import opened JsValue
  import opened Naming

  /** A partial state mapping handed to a component: state key to value. */
  type State = Fields

  /** One schema item's descriptor. A payload is kept as its keys in
      `Object.keys` order, each with its default value; an absent or falsy
      payload is `None`. `postProcess` is `Some` exactly when
      `typeof postProcess === "function"`. */
  datatype Descriptor = Descriptor(
    defaultValue: Value,
    payload: Option<seq<(string, Value)>>,
    postProcess: Option<Value -> Value>,
    quickUpdate: Value)

  /** The schema: item keys with their descriptors, in `Object.keys` order. */
  type Schema = seq<(string, Descriptor)>

  /** The keys of an object are pairwise distinct. */
  predicate DistinctKeys<T>(entries: seq<(string, T)>)
  {
    forall i, j :: 0 <= i < j < |entries| ==> entries[i].0 != entries[j].0
  }

  function KeysOf<T>(entries: seq<(string, T)>): set<string>
  {
    set i | 0 <= i < |entries| :: entries[i].0
  }

  /** No entry after position `i` has the key of entry `i`. */
  predicate LastWrite<T>(entries: seq<(string, T)>, i: nat)
    requires i < |entries|
  {
    forall j :: i < j < |entries| ==> entries[j].0 != entries[i].0
  }

  /** Successive property assignments `st[key] = value`, in order: a key
      written twice keeps the later value. */
  function Assign(st: Fields, writes: seq<(string, Value)>): (r: Fields)
    ensures r.Keys == st.Keys + KeysOf(writes)
    ensures forall k :: k in st && k !in KeysOf(writes) ==> r[k] == st[k]
    decreases |writes|
  {
    if |writes| == 0 then st
    else
      var rest := writes[1..];
      assert KeysOf(writes) == {writes[0].0} + KeysOf(rest) by {
        forall k | k in KeysOf(writes) ensures k in {writes[0].0} + KeysOf(rest) {
          var i :| 0 <= i < |writes| && writes[i].0 == k;
          if i > 0 { assert rest[i - 1].0 == k; }
        }
        forall k | k in KeysOf(rest) ensures k in KeysOf(writes) {
          var i :| 0 <= i < |rest| && rest[i].0 == k;
          assert writes[i + 1].0 == k;
        }
      }
      Assign(st[writes[0].0 := writes[0].1], rest)
  }

  /** The last assignment to a key is the value it ends up holding. */
  lemma {:induction false} AssignLastWrite(st: Fields, writes: seq<(string, Value)>, i: nat)
    requires i < |writes| && LastWrite(writes, i)
    ensures writes[i].0 in Assign(st, writes)
    ensures Assign(st, writes)[writes[i].0] == writes[i].1
    decreases |writes|
  {
    var rest := writes[1..];
    if i == 0 {
      assert writes[0].0 !in KeysOf(rest) by {
        forall j | 0 <= j < |rest| ensures rest[j].0 != writes[0].0 {
          assert rest[j] == writes[j + 1];
        }
      }
    } else {
      assert LastWrite(rest, i - 1) by {
        forall j | i - 1 < j < |rest| ensures rest[j].0 != rest[i - 1].0 {
          assert rest[j] == writes[j + 1];
        }
      }
      AssignLastWrite(st[writes[0].0 := writes[0].1], rest, i - 1);
    }
  }

  /** Writing a key outside the assigned keys commutes with the assignments. */
  lemma {:induction false} AssignCommute(st: Fields, k: string, v: Value, writes: seq<(string, Value)>)
    requires k !in KeysOf(writes)
    ensures Assign(st[k := v], writes) == Assign(st, writes)[k := v]
    decreases |writes|
  {
    if |writes| > 0 {
      var rest := writes[1..];
      assert writes[0].0 != k;
      assert KeysOf(rest) <= KeysOf(writes) by {
        forall x | x in KeysOf(rest) ensures x in KeysOf(writes) {
          var i :| 0 <= i < |rest| && rest[i].0 == x;
          assert writes[i + 1].0 == x;
        }
      }
      assert st[k := v][writes[0].0 := writes[0].1] == st[writes[0].0 := writes[0].1][k := v];
      AssignCommute(st[writes[0].0 := writes[0].1], k, v, rest);
    }
  }

  /** One write after an overlay lands on its right-hand side. */
  lemma OverlayWrite(a: Fields, b: Fields, k: string, v: Value)
    ensures (a + b)[k := v] == a + b[k := v]
  {
  }

  /** Overlaying nothing changes nothing. */
  lemma OverlayEmpty(a: Fields)
    ensures a + map[] == a
  {
  }

  /** Overlaying the same mapping twice is overlaying it once. */
  lemma OverlayAgain(a: Fields, b: Fields)
    ensures (a + b) + b == a + b
  {
  }

  /** Assignments made after an overlay `a + b` land on top of it: the keys of
      `a` only survive where the assignments do not reach. */
  lemma {:induction false} AssignOverlay(a: Fields, b: Fields, writes: seq<(string, Value)>)
    ensures Assign(a + b, writes) == a + Assign(b, writes)
    decreases |writes|
  {
    if |writes| > 0 {
      OverlayWrite(a, b, writes[0].0, writes[0].1);
      AssignOverlay(a, b[writes[0].0 := writes[0].1], writes[1..]);
    }
  }

  /** The value of the item key: `postProcess(v)` when the descriptor has a
      post-processing function, `v` unchanged otherwise. */
  function MainValue(d: Descriptor, v: Value): Value
  {
    match d.postProcess
    case Some(f) => f(v)
    case None => v
  }

  /** The state keys of a payload's fields. */
  function CamelKeys<T>(docKey: string, payload: seq<(string, T)>): set<string>
  {
    set i | 0 <= i < |payload| :: CamelKey(docKey, payload[i].0)
  }

  /** The payload writes of a projection: each payload field of `source`
      under its camel-cased state key. */
  function PayloadReads(docKey: string, payload: seq<(string, Value)>, source: Value): seq<(string, Value)>
  {
    seq(|payload|, i requires 0 <= i < |payload| => (CamelKey(docKey, payload[i].0), Get(source, payload[i].0)))
  }

  lemma PayloadReadsKeys(docKey: string, payload: seq<(string, Value)>, source: Value)
    ensures KeysOf(PayloadReads(docKey, payload, source)) == CamelKeys(docKey, payload)
  {
    var w := PayloadReads(docKey, payload, source);
    forall k | k in CamelKeys(docKey, payload) ensures k in KeysOf(w) {
      var i :| 0 <= i < |payload| && CamelKey(docKey, payload[i].0) == k;
      assert w[i].0 == k;
    }
  }

  /** Whether a projection includes the payload fields. */
  predicate IncludesPayload(d: Descriptor, ignorePayload: bool)
  {
    d.payload.Some? && !ignorePayload
  }

  /** `dbDocument2State(docKey, d, source, valueName, ignorePayload)`: the item
      key first, then every payload field under its camel-cased key.
      The result holds the item key and, when the payload is included, the
      state key of every payload field, and nothing else. */
  function Project(docKey: string, d: Descriptor, source: Value, valueName: string, ignorePayload: bool): (r: State)
    ensures docKey in r
    ensures r.Keys == {docKey} + (if IncludesPayload(d, ignorePayload) then CamelKeys(docKey, d.payload.value) else {})
  {
    var main := map[docKey := MainValue(d, Get(source, valueName))];
    if IncludesPayload(d, ignorePayload) then
      PayloadReadsKeys(docKey, d.payload.value, source);
      Assign(main, PayloadReads(docKey, d.payload.value, source))
    else main
  }

  /** The item key holds the (post-processed) value field, unless an included
      payload has the empty key: its state key is the item key itself and the
      raw payload field, written later, replaces the value. */
  lemma ProjectMainKey(docKey: string, d: Descriptor, source: Value, valueName: string, ignorePayload: bool)
    requires d.payload.Some? ==> DistinctKeys(d.payload.value)
    ensures var r := Project(docKey, d, source, valueName, ignorePayload);
            if IncludesPayload(d, ignorePayload) && "" in KeysOf(d.payload.value)
            then r[docKey] == Get(source, "")
            else r[docKey] == MainValue(d, Get(source, valueName))
  {
    if IncludesPayload(d, ignorePayload) {
      var payload := d.payload.value;
      var main := map[docKey := MainValue(d, Get(source, valueName))];
      var w := PayloadReads(docKey, payload, source);
      if "" in KeysOf(payload) {
        var i :| 0 <= i < |payload| && payload[i].0 == "";
        assert LastWrite(w, i) by {
          forall j | i < j < |w| ensures w[j].0 != w[i].0 {
            CamelKeyShape(docKey, payload[j].0);
            CamelKeyShape(docKey, payload[i].0);
          }
        }
        AssignLastWrite(main, w, i);
        CamelKeyShape(docKey, "");
      } else {
        assert docKey !in KeysOf(w) by {
          forall i | 0 <= i < |w| ensures w[i].0 != docKey {
            CamelKeyShape(docKey, payload[i].0);
            assert payload[i].0 in KeysOf(payload);
          }
        }
      }
    }
  }

  /** With the payload included, a payload field's state key holds that field
      of the source, raw, unless a later payload key maps to the same state
      key. */
  lemma ProjectPayloadKey(docKey: string, d: Descriptor, source: Value, valueName: string, i: nat)
    requires d.payload.Some? && i < |d.payload.value|
    requires forall j :: i < j < |d.payload.value| ==>
               CamelKey(docKey, d.payload.value[j].0) != CamelKey(docKey, d.payload.value[i].0)
    ensures var r := Project(docKey, d, source, valueName, false);
            r[CamelKey(docKey, d.payload.value[i].0)] == Get(source, d.payload.value[i].0)
  {
    var main := map[docKey := MainValue(d, Get(source, valueName))];
    var w := PayloadReads(docKey, d.payload.value, source);
    assert LastWrite(w, i);
    AssignLastWrite(main, w, i);
  }

  /** The projection reads nothing of the source but the value field and the
      payload fields. */
  lemma ProjectReadsOnly(docKey: string, d: Descriptor, s1: Value, s2: Value, valueName: string, ignorePayload: bool)
    requires Get(s1, valueName) == Get(s2, valueName)
    requires IncludesPayload(d, ignorePayload) ==>
               forall k :: k in KeysOf(d.payload.value) ==> Get(s1, k) == Get(s2, k)
    ensures Project(docKey, d, s1, valueName, ignorePayload) == Project(docKey, d, s2, valueName, ignorePayload)
  {
    if IncludesPayload(d, ignorePayload) {
      var payload := d.payload.value;
      forall i | 0 <= i < |payload| ensures Get(s1, payload[i].0) == Get(s2, payload[i].0) {
        assert payload[i].0 in KeysOf(payload);
      }
      PayloadReadsAgree(docKey, payload, s1, s2);
    }
  }

  /** Sources that agree on the payload fields give the same payload writes. */
  lemma PayloadReadsAgree(docKey: string, payload: seq<(string, Value)>, s1: Value, s2: Value)
    requires forall i :: 0 <= i < |payload| ==> Get(s1, payload[i].0) == Get(s2, payload[i].0)
    ensures PayloadReads(docKey, payload, s1) == PayloadReads(docKey, payload, s2)
  {
  }
}
