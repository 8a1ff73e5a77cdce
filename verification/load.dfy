/** The per-item decision of `load` in store-util.js: a read that succeeds is
    projected into state, a read that reports status 404 provisions the
    missing document, and any other failure is absorbed. */
module Load {
  import opened JsValue
  import opened Naming
  import opened Projection
  import opened DefaultStates

  /** What `store.read(docKey)` settled with: the document, or the rejection
      reason. */
  datatype ReadOutcome = Found(doc: Value) | Failed(err: Value)

  /** What `load` does for one item: call the state-update callback with a
      state mapping, pass a new document to `store.create`, or nothing. */
  datatype Action = Emit(state: State) | Create(doc: Fields) | Nothing

  /** The rejection `store.read` reports for a key that is not stored. */
  predicate IsNotFound(err: Value)
  {
    Get(err, "status") == Num(404)
  }

  /** The document synthesised for an item that is not stored yet: `_id`,
      `value` and `quickUpdate` first, then every payload default as a
      top-level field. A payload key named like one of the first three
      replaces it, since it is written later. */
  function NewDocument(docKey: string, d: Descriptor): (r: Fields)
    ensures r.Keys == {"_id", "value", "quickUpdate"} + (if d.payload.Some? then KeysOf(d.payload.value) else {})
    ensures (d.payload.Some? ==> "_id" !in KeysOf(d.payload.value)) ==> r["_id"] == Str(docKey)
    ensures (d.payload.Some? ==> "value" !in KeysOf(d.payload.value)) ==> r["value"] == d.defaultValue
    ensures (d.payload.Some? ==> "quickUpdate" !in KeysOf(d.payload.value)) ==> r["quickUpdate"] == d.quickUpdate
  {
    var base := map["_id" := Str(docKey), "value" := d.defaultValue, "quickUpdate" := d.quickUpdate];
    if d.payload.Some? then Assign(base, d.payload.value) else base
  }

  /** Each payload default is a top-level field of the new document. */
  lemma NewDocumentPayload(docKey: string, d: Descriptor, i: nat)
    requires d.payload.Some? && DistinctKeys(d.payload.value) && i < |d.payload.value|
    ensures NewDocument(docKey, d)[d.payload.value[i].0] == d.payload.value[i].1
  {
    var base := map["_id" := Str(docKey), "value" := d.defaultValue, "quickUpdate" := d.quickUpdate];
    AssignLastWrite(base, d.payload.value, i);
  }

  /** `load`'s decision for one item. A successful read emits the projection
      of the document with its payload; a 404 creates exactly the synthesised
      document and emits nothing; every other rejection, including one whose
      reason is null or undefined, does neither. A read that resolves with
      null or undefined makes the projection throw a TypeError, which the
      `catch` sees without a 404 status, so it too does neither. */
  function LoadItem(docKey: string, d: Descriptor, outcome: ReadOutcome): (r: Action)
    ensures r.Emit? <==> outcome.Found? && !Nullish(outcome.doc)
    ensures r.Create? <==> outcome.Failed? && IsNotFound(outcome.err)
    ensures r.Emit? ==> r.state.Keys == ItemKeys(docKey, d)
    ensures r.Emit? ==> r.state == Project(docKey, d, outcome.doc, "value", false)
    ensures r.Create? ==> r.doc == NewDocument(docKey, d)
  {
    match outcome
    case Found(doc) => if Nullish(doc) then Nothing else Emit(Project(docKey, d, doc, "value", false))
    case Failed(err) => if IsNotFound(err) then Create(NewDocument(docKey, d)) else Nothing
  }

  /** `load`: one decision per schema item, in schema order, each taken on the
      outcome of reading that item's key. */
  function Load(schema: Schema, read: string -> ReadOutcome): (r: seq<Action>)
    ensures |r| == |schema|
    ensures forall i :: 0 <= i < |schema| ==>
              (r[i].Emit? <==> read(schema[i].0).Found? && !Nullish(read(schema[i].0).doc))
    ensures forall i :: 0 <= i < |schema| ==>
              (r[i].Create? <==> read(schema[i].0).Failed? && IsNotFound(read(schema[i].0).err))
    ensures forall i :: 0 <= i < |schema| && r[i].Create? ==> r[i].doc == NewDocument(schema[i].0, schema[i].1)
    ensures forall i :: 0 <= i < |schema| && r[i].Emit? ==>
              r[i].state == Project(schema[i].0, schema[i].1, read(schema[i].0).doc, "value", false)
  {
    seq(|schema|, i requires 0 <= i < |schema| => LoadItem(schema[i].0, schema[i].1, read(schema[i].0)))
  }

  /** The payload fields read back from the new document are the payload
      defaults under their state keys. */
  lemma NewDocumentReads(docKey: string, d: Descriptor)
    requires d.payload.Some? && DistinctKeys(d.payload.value)
    ensures PayloadReads(docKey, d.payload.value, Obj(NewDocument(docKey, d))) == PayloadDefaults(docKey, d.payload.value)
  {
    var p := d.payload.value;
    forall i | 0 <= i < |p| ensures Get(Obj(NewDocument(docKey, d)), p[i].0) == p[i].1 {
      NewDocumentPayload(docKey, d, i);
    }
  }

  /** Without an empty payload key no payload state key is the item key. */
  lemma PayloadDefaultsAvoidItemKey(docKey: string, p: seq<(string, Value)>)
    requires "" !in KeysOf(p)
    ensures docKey !in KeysOf(PayloadDefaults(docKey, p))
  {
    var pd := PayloadDefaults(docKey, p);
    forall i | 0 <= i < |pd| ensures pd[i].0 != docKey {
      CamelKeyShape(docKey, p[i].0);
      assert p[i].0 in KeysOf(p);
    }
  }

  /** Reading back the document a 404 made `load` create shows exactly the
      item's default state, post-processing included, provided no payload key
      is empty (its state key would be the item key, which the projection lets
      the payload overwrite but the default derivation does not) or is
      `value` (it would replace the stored value). */
  lemma ReloadShowsDefaults(docKey: string, d: Descriptor)
    requires d.payload.Some? ==>
               DistinctKeys(d.payload.value) && "" !in KeysOf(d.payload.value) && "value" !in KeysOf(d.payload.value)
    ensures LoadItem(docKey, d, Found(Obj(NewDocument(docKey, d)))) == Emit(ItemDefaults(map[], docKey, d))
  {
    var doc := Obj(NewDocument(docKey, d));
    var m := MainValue(d, d.defaultValue);
    ItemDefaultsItemKey(map[], docKey, d);
    if d.payload.Some? {
      var p := d.payload.value;
      var pd := PayloadDefaults(docKey, p);
      NewDocumentReads(docKey, d);
      PayloadDefaultsAvoidItemKey(docKey, p);
      AssignCommute(map[], docKey, m, pd);
      assert map[][docKey := m] == map[docKey := m];
    }
  }
}
