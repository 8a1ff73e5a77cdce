/** The change listener `registerEventListeners` installs (store-util.js):
    it classifies each change event by its shape and the bidirectional flag
    and re-projects the changed documents that name schema items into
    `(state, isQuickUpdate)` callback invocations. */
module ChangeFeed {
  import opened JsValue
  import opened Projection
  import opened Load
  import Store

  /** One invocation `onStateChange(state, isQuickUpdate)`. */
  datatype Emission = Emission(state: State, quick: bool)

  /** The listener's reaction to one event: the callbacks it made, in order,
      and whether it then stopped with a TypeError (a null or undefined
      changed document, whose `_id` cannot be read). */
  datatype Reaction = Reaction(emitted: seq<Emission>, aborted: bool)

  /** The two event shapes the listener accepts, with their document lists. */
  datatype Shape = PullBatch(docs: Value) | FlatBatch(docs: Value) | Unrecognised

  /** `res && res.direction === "pull" && res.change && res.change.docs`;
      an empty document array is truthy and so still counts. */
  predicate IsPull(res: Value)
  {
    Truthy(res) && Get(res, "direction") == Str("pull")
    && Truthy(Get(res, "change")) && Truthy(Get(Get(res, "change"), "docs"))
  }

  /** The event's shape. A pull-shaped event is recognised whatever the flag;
      a flat `docs` event only when the flag is false. */
  function Classify(res: Value, bidirectional: bool): (r: Shape)
    ensures r.PullBatch? <==> IsPull(res)
    ensures r.PullBatch? ==> r.docs == Get(Get(res, "change"), "docs")
    ensures r.FlatBatch? ==> !bidirectional && r.docs == Get(res, "docs")
    ensures !r.Unrecognised? ==> Truthy(r.docs)
    ensures !IsPull(res) && Truthy(res) && Truthy(Get(res, "docs")) && !bidirectional ==> r.FlatBatch?
  {
    if IsPull(res) then PullBatch(Get(Get(res, "change"), "docs"))
    else if Truthy(res) && Truthy(Get(res, "docs")) && !bidirectional then FlatBatch(Get(res, "docs"))
    else Unrecognised
  }

  /** The emission for a changed document that names the item `schema[i]`. */
  function ItemEmission(schema: Schema, i: nat, doc: Value): Emission
    requires i < |schema|
  {
    Emission(Project(schema[i].0, schema[i].1, doc, "value", false), IsTrue(Get(doc, "quickUpdate")))
  }

  /** The document names the item `schema[i]` (`doc._id === docKey`). */
  predicate Names(schema: Schema, i: nat, doc: Value)
    requires i < |schema|
  {
    Get(doc, "_id") == Str(schema[i].0)
  }

  /** The schema loop for one changed document: every item the document names
      is projected, in schema order. */
  function DocEmissions(schema: Schema, doc: Value): (r: seq<Emission>)
    ensures |r| <= |schema|
    ensures Nullish(doc) ==> r == []
    decreases |schema|
  {
    if |schema| == 0 then []
    else (if Names(schema, 0, doc) then [ItemEmission(schema, 0, doc)] else []) + DocEmissions(schema[1..], doc)
  }

  lemma ItemEmissionShift(schema: Schema, i: nat, doc: Value)
    requires 0 < i < |schema|
    ensures Names(schema, i, doc) == Names(schema[1..], i - 1, doc)
    ensures ItemEmission(schema, i, doc) == ItemEmission(schema[1..], i - 1, doc)
  {
    assert schema[1..][i - 1] == schema[i];
  }

  /** Every emission for a document is the projection by an item it names. */
  lemma {:induction false} DocEmissionsSound(schema: Schema, doc: Value, e: Emission)
    requires e in DocEmissions(schema, doc)
    ensures exists i :: 0 <= i < |schema| && Names(schema, i, doc) && e == ItemEmission(schema, i, doc)
    decreases |schema|
  {
    if !(Names(schema, 0, doc) && e == ItemEmission(schema, 0, doc)) {
      DocEmissionsSound(schema[1..], doc, e);
      var i :| 0 <= i < |schema| - 1 && Names(schema[1..], i, doc) && e == ItemEmission(schema[1..], i, doc);
      ItemEmissionShift(schema, i + 1, doc);
    }
  }

  /** Every item a document names is projected for it. */
  lemma {:induction false} DocEmissionsComplete(schema: Schema, doc: Value, i: nat)
    requires i < |schema| && Names(schema, i, doc)
    ensures ItemEmission(schema, i, doc) in DocEmissions(schema, doc)
    decreases |schema|
  {
    if i > 0 {
      ItemEmissionShift(schema, i, doc);
      DocEmissionsComplete(schema[1..], doc, i - 1);
    }
  }

  /** With distinct item keys a document is projected at most once. */
  lemma {:induction false} DocEmissionsAtMostOne(schema: Schema, doc: Value)
    requires DistinctKeys(schema)
    ensures |DocEmissions(schema, doc)| <= 1
    decreases |schema|
  {
    if |schema| > 0 {
      var rest := schema[1..];
      assert DistinctKeys(rest) by {
        forall i, j | 0 <= i < j < |rest| ensures rest[i].0 != rest[j].0 {
          assert rest[i] == schema[i + 1] && rest[j] == schema[j + 1];
        }
      }
      DocEmissionsAtMostOne(rest, doc);
      if Names(schema, 0, doc) && DocEmissions(rest, doc) != [] {
        DocEmissionsSound(rest, doc, DocEmissions(rest, doc)[0]);
        var i :| 0 <= i < |rest| && Names(rest, i, doc) && DocEmissions(rest, doc)[0] == ItemEmission(rest, i, doc);
        ItemEmissionShift(schema, i + 1, doc);
        assert false;
      }
    }
  }

  /** The loop over a changed-document array, which stops (with a TypeError)
      at the first null or undefined document when the schema is not empty. */
  function BatchEmissions(schema: Schema, docs: seq<Value>): (r: Reaction)
    ensures r.aborted <==> |schema| > 0 && exists j :: 0 <= j < |docs| && Nullish(docs[j])
    ensures |schema| == 0 ==> r.emitted == []
    decreases |docs|
  {
    if |docs| == 0 then Reaction([], false)
    else if Nullish(docs[0]) && |schema| > 0 then Reaction([], true)
    else
      var rest := BatchEmissions(schema, docs[1..]);
      assert forall j :: 0 <= j < |docs| - 1 ==> docs[1..][j] == docs[j + 1];
      Reaction(DocEmissions(schema, docs[0]) + rest.emitted, rest.aborted)
  }

  /** An aborted batch stops at its first null or undefined document: the
      callbacks made for the documents before it stand, and no later document
      is projected. */
  lemma {:induction false} BatchStopsAtFirstNullish(schema: Schema, docs: seq<Value>, k: nat)
    requires |schema| > 0 && k < |docs| && Nullish(docs[k])
    requires forall m :: 0 <= m < k ==> !Nullish(docs[m])
    ensures !BatchEmissions(schema, docs[..k]).aborted
    ensures BatchEmissions(schema, docs).emitted == BatchEmissions(schema, docs[..k]).emitted
    decreases k
  {
    if k > 0 {
      assert docs[..k][1..] == docs[1..][..k - 1];
      assert docs[..k][0] == docs[0];
      BatchStopsAtFirstNullish(schema, docs[1..], k - 1);
    }
  }

  /** Every emission of a batch is the projection of one of its documents by
      the item that document names. */
  lemma {:induction false} BatchSound(schema: Schema, docs: seq<Value>, e: Emission)
    requires e in BatchEmissions(schema, docs).emitted
    ensures exists j, i :: 0 <= j < |docs| && 0 <= i < |schema| && Names(schema, i, docs[j]) && e == ItemEmission(schema, i, docs[j])
    decreases |docs|
  {
    if e in DocEmissions(schema, docs[0]) {
      DocEmissionsSound(schema, docs[0], e);
      var i :| 0 <= i < |schema| && Names(schema, i, docs[0]) && e == ItemEmission(schema, i, docs[0]);
      assert Names(schema, i, docs[0]) && e == ItemEmission(schema, i, docs[0]);
    } else {
      BatchSound(schema, docs[1..], e);
      var j, i :| 0 <= j < |docs| - 1 && 0 <= i < |schema| && Names(schema, i, docs[1..][j]) && e == ItemEmission(schema, i, docs[1..][j]);
      assert docs[1..][j] == docs[j + 1];
    }
  }

  /** A batch that runs to completion projects every listed document that
      names an item. */
  lemma {:induction false} BatchComplete(schema: Schema, docs: seq<Value>, j: nat, i: nat)
    requires !BatchEmissions(schema, docs).aborted
    requires j < |docs| && i < |schema| && Names(schema, i, docs[j])
    ensures ItemEmission(schema, i, docs[j]) in BatchEmissions(schema, docs).emitted
    decreases |docs|
  {
    if j == 0 {
      DocEmissionsComplete(schema, docs[0], i);
    } else {
      assert docs[1..][j - 1] == docs[j];
      BatchComplete(schema, docs[1..], j - 1, i);
    }
  }

  /** With distinct item keys a batch makes at most one callback per
      document. */
  lemma {:induction false} BatchAtMostOnePerDoc(schema: Schema, docs: seq<Value>)
    requires DistinctKeys(schema)
    ensures |BatchEmissions(schema, docs).emitted| <= |docs|
    decreases |docs|
  {
    if |docs| > 0 && !(Nullish(docs[0]) && |schema| > 0) {
      DocEmissionsAtMostOne(schema, docs[0]);
      BatchAtMostOnePerDoc(schema, docs[1..]);
    }
  }

  /** The first schema item a document names, by direct lookup. */
  function Lookup(schema: Schema, doc: Value): (r: Option<nat>)
    ensures r.Some? ==> r.value < |schema| && Names(schema, r.value, doc)
    ensures r.None? ==> forall i :: 0 <= i < |schema| ==> !Names(schema, i, doc)
    decreases |schema|
  {
    if |schema| == 0 then None
    else if Names(schema, 0, doc) then Some(0)
    else
      match Lookup(schema[1..], doc)
      case None =>
        assert forall i :: 1 <= i < |schema| ==> Names(schema, i, doc) == Names(schema[1..], i - 1, doc);
        None
      case Some(i) =>
        assert schema[1..][i] == schema[i + 1];
        Some(i + 1)
  }

  /** The callbacks a batch should make: one per document that names a schema
      item, in document order, built by lookup rather than by the schema
      loop. */
  function Expected(schema: Schema, docs: seq<Value>): seq<Emission>
    decreases |docs|
  {
    if |docs| == 0 then []
    else
      (match Lookup(schema, docs[0])
       case Some(i) => [ItemEmission(schema, i, docs[0])]
       case None => [])
      + Expected(schema, docs[1..])
  }

  /** With distinct item keys the schema loop for one document makes exactly
      the callback the lookup finds, or none. */
  lemma DocEmissionsByLookup(schema: Schema, doc: Value)
    requires DistinctKeys(schema)
    ensures DocEmissions(schema, doc) == match Lookup(schema, doc)
                                         case Some(i) => [ItemEmission(schema, i, doc)]
                                         case None => []
  {
    var r := DocEmissions(schema, doc);
    DocEmissionsAtMostOne(schema, doc);
    match Lookup(schema, doc)
    case Some(i) =>
      DocEmissionsComplete(schema, doc, i);
    case None =>
      if r != [] {
        DocEmissionsSound(schema, doc, r[0]);
      }
  }

  /** With distinct item keys, a batch that runs to completion makes one
      callback per listed document that names a schema item, in document
      order. */
  lemma {:induction false} BatchInDocumentOrder(schema: Schema, docs: seq<Value>)
    requires DistinctKeys(schema)
    requires !BatchEmissions(schema, docs).aborted
    ensures BatchEmissions(schema, docs).emitted == Expected(schema, docs)
    decreases |docs|
  {
    if |docs| > 0 {
      DocEmissionsByLookup(schema, docs[0]);
      BatchInDocumentOrder(schema, docs[1..]);
    }
  }

  /** A document list: the loop runs over arrays only (a non-array list has no
      elements to visit). */
  function BatchOf(schema: Schema, docs: Value): Reaction
  {
    if docs.Arr? then BatchEmissions(schema, docs.items) else Reaction([], false)
  }

  /** The listener's reaction to the change event `res`. */
  function OnChange(schema: Schema, bidirectional: bool, res: Value): (r: Reaction)
    ensures Classify(res, bidirectional).Unrecognised? ==> r == Reaction([], false)
    ensures |schema| == 0 ==> r == Reaction([], false)
    ensures r.aborted ==> |schema| > 0 && exists j :: 0 <= j < |EventDocs(res)| && Nullish(EventDocs(res)[j])
  {
    match Classify(res, bidirectional)
    case PullBatch(docs) =>
      assert docs.Arr? ==> EventDocs(res) == docs.items;
      BatchOf(schema, docs)
    case FlatBatch(docs) =>
      assert docs.Arr? ==> EventDocs(res) == docs.items;
      BatchOf(schema, docs)
    case Unrecognised => Reaction([], false)
  }

  /** The documents of an event, whichever shape carried them. */
  function EventDocs(res: Value): seq<Value>
  {
    if IsPull(res) then
      (if Get(Get(res, "change"), "docs").Arr? then Get(Get(res, "change"), "docs").items else [])
    else if Get(res, "docs").Arr? then Get(res, "docs").items
    else []
  }

  /** A pull-shaped event is handled the same way whatever the flag, and
      reacts to its own document list only. */
  lemma {:induction false} PullIgnoresFlag(schema: Schema, res: Value)
    requires IsPull(res)
    ensures OnChange(schema, true, res) == OnChange(schema, false, res) == BatchOf(schema, Get(Get(res, "change"), "docs"))
  {
  }

  /** In bidirectional mode every event that is not pull-shaped, flat `docs`
      lists included, is ignored. */
  lemma BidirectionalIgnoresFlat(schema: Schema, res: Value)
    requires !IsPull(res)
    ensures OnChange(schema, true, res) == Reaction([], false)
  {
  }

  /** In replicate-only mode a flat `docs` array that is not part of a
      pull-shaped event is projected document by document. */
  lemma ReplicatingAcceptsFlat(schema: Schema, res: Value)
    requires !IsPull(res) && Truthy(res) && Get(res, "docs").Arr?
    ensures OnChange(schema, false, res) == BatchEmissions(schema, Get(res, "docs").items)
  {
  }

  /** Every callback the change listener makes carries exactly the state a
      successful `load` of that document would emit, and the quick flag is
      `doc.quickUpdate === true`. */
  lemma ChangeProjectsLikeLoad(schema: Schema, bidirectional: bool, res: Value, e: Emission)
    requires e in OnChange(schema, bidirectional, res).emitted
    ensures exists j, i :: 0 <= j < |EventDocs(res)| && 0 <= i < |schema|
              && Names(schema, i, EventDocs(res)[j])
              && LoadItem(schema[i].0, schema[i].1, Found(EventDocs(res)[j])) == Emit(e.state)
              && e.quick == IsTrue(Get(EventDocs(res)[j], "quickUpdate"))
  {
    var docs := EventDocs(res);
    assert OnChange(schema, bidirectional, res) == BatchEmissions(schema, docs);
    BatchSound(schema, docs, e);
    var j, i :| 0 <= j < |docs| && 0 <= i < |schema| && Names(schema, i, docs[j]) && e == ItemEmission(schema, i, docs[j]);
    assert LoadItem(schema[i].0, schema[i].1, Found(docs[j])) == Emit(e.state);
  }

  /** An event none of whose documents names a schema item causes no
      callback. */
  lemma UnknownDocumentsIgnored(schema: Schema, bidirectional: bool, res: Value)
    requires forall j, i :: 0 <= j < |EventDocs(res)| && 0 <= i < |schema| ==> !Names(schema, i, EventDocs(res)[j])
    ensures OnChange(schema, bidirectional, res).emitted == []
  {
    var r := OnChange(schema, bidirectional, res);
    if r.emitted != [] {
      ChangeProjectsLikeLoad(schema, bidirectional, res, r.emitted[0]);
    }
  }

  /** With the flag `init` shares, the listener accepts flat `docs` events
      exactly when `init` set up a one-way replication from the remote
      database, and ignores them under a two-way sync. */
  lemma FlatEventsFollowReplicationMode(a: Store.InitArgs, schema: Schema, res: Value)
    requires !IsPull(res) && Truthy(res) && Get(res, "docs").Arr?
    ensures OnChange(schema, Truthy(Store.Init(a).sharedFlag), res) ==
              if Store.Init(a).replication.mode == Store.TwoWaySync then Reaction([], false)
              else BatchEmissions(schema, Get(res, "docs").items)
  {
  }
}
