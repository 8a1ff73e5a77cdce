/** The deterministic parts of store.js: the forced-update overlay, listener
    registration and dispatch, and what `init` derives from its arguments.
    The local database and its replication are not modelled; a stored
    document set is a map from `_id` to document. */
module Store {
  import opened JsValue
  import Locator

  /** The fields a forced update never overlays: the primary key and the
      revision token. */
  predicate IsMeta(k: string)
  {
    k == "_id" || k == "_rev"
  }

  /** The forced-update overlay: every field of `item` except `_id` and `_rev`
      is written onto the stored document, which keeps its own `_id`, `_rev`
      and every field `item` does not mention. */
  method ForcedOverlay(stored: Fields, item: Fields) returns (r: Fields)
    ensures r.Keys == stored.Keys + (set k | k in item && !IsMeta(k))
    ensures forall k :: k in item && !IsMeta(k) ==> r[k] == item[k]
    ensures forall k :: k in stored && (k !in item || IsMeta(k)) ==> r[k] == stored[k]
  {
    r := stored;
    var todo := item.Keys;
    while todo != {}
      invariant todo <= item.Keys
      invariant r.Keys == stored.Keys + (set k | k in item && k !in todo && !IsMeta(k))
      invariant forall k :: k in item && k !in todo && !IsMeta(k) ==> r[k] == item[k]
      invariant forall k :: k in stored && (k !in item || IsMeta(k) || k in todo) ==> r[k] == stored[k]
      decreases todo
    {
      var k :| k in todo;
      if !IsMeta(k) {
        r := r[k := item[k]];
      }
      todo := todo - {k};
    }
  }

  /** The document `update(item, force)` hands to `db.put`. With
      `force === true` it is the overlay of `item` on the document stored
      under `item._id`, and nothing is written when that read fails; otherwise
      it is `item` itself. */
  method Update(stored: map<string, Fields>, item: Fields, force: Value) returns (put: Option<Fields>)
    ensures !IsTrue(force) ==> put == Some(item)
    ensures IsTrue(force) ==> (put.Some? <==> "_id" in item && item["_id"].Str? && item["_id"].s in stored)
    ensures IsTrue(force) && put.Some? ==>
              var cur := stored[item["_id"].s];
              && put.value.Keys == cur.Keys + (set k | k in item && !IsMeta(k))
              && (forall k :: k in item && !IsMeta(k) ==> put.value[k] == item[k])
              && (forall k :: k in cur && (k !in item || IsMeta(k)) ==> put.value[k] == cur[k])
  {
    if IsTrue(force) {
      if "_id" in item && item["_id"].Str? && item["_id"].s in stored {
        var merged := ForcedOverlay(stored[item["_id"].s], item);
        put := Some(merged);
      } else {
        put := None;
      }
    } else {
      put := Some(item);
    }
  }

  /** `onChanged(callback)`: a truthy callback is appended to the listener
      list, a falsy one is ignored. */
  function OnChanged(callbacks: seq<Value>, callback: Value): (r: seq<Value>)
    ensures |r| == |callbacks| + (if Truthy(callback) then 1 else 0)
    ensures r[..|callbacks|] == callbacks
    ensures Truthy(callback) ==> r[|callbacks|] == callback
    ensures (forall i :: 0 <= i < |callbacks| ==> Truthy(callbacks[i])) ==> forall i :: 0 <= i < |r| ==> Truthy(r[i])
  {
    if Truthy(callback) then callbacks + [callback] else callbacks
  }

  /** The dispatch loop for one `change` event: listeners are called in list
      order. A listener that is not a function stops the loop with a
      TypeError before being called; one that throws (`raises`) stops it
      after being called. The result is the called listeners' identities. */
  function Notify(callbacks: seq<Value>, raises: nat -> bool): (called: seq<nat>)
    ensures |called| <= |callbacks|
    ensures forall i :: 0 <= i < |called| ==> callbacks[i] == Fn(called[i])
    decreases |callbacks|
  {
    if |callbacks| == 0 || !callbacks[0].Fn? then []
    else if raises(callbacks[0].id) then [callbacks[0].id]
    else [callbacks[0].id] + Notify(callbacks[1..], raises)
  }

  /** Every listener is a function that returns normally. */
  predicate WellBehaved(callbacks: seq<Value>, raises: nat -> bool)
  {
    forall i :: 0 <= i < |callbacks| ==> callbacks[i].Fn? && !raises(callbacks[i].id)
  }

  /** With well-behaved listeners every registered listener is called exactly
      once per event, in registration order. */
  lemma {:induction false} NotifyCallsEachOnce(callbacks: seq<Value>, raises: nat -> bool)
    requires WellBehaved(callbacks, raises)
    ensures |Notify(callbacks, raises)| == |callbacks|
    decreases |callbacks|
  {
    if |callbacks| > 0 {
      assert WellBehaved(callbacks[1..], raises) by {
        forall i | 0 <= i < |callbacks| - 1
          ensures callbacks[1..][i].Fn? && !raises(callbacks[1..][i].id)
        {
          assert callbacks[1..][i] == callbacks[i + 1];
        }
      }
      NotifyCallsEachOnce(callbacks[1..], raises);
    }
  }

  /** A newly registered function is called last, after every listener
      registered before it; registering a falsy value changes nothing. */
  lemma {:induction false} RegisterThenNotify(callbacks: seq<Value>, callback: Value, raises: nat -> bool)
    requires WellBehaved(callbacks, raises)
    requires callback.Fn? || !Truthy(callback)
    ensures callback.Fn? ==> Notify(OnChanged(callbacks, callback), raises) == Notify(callbacks, raises) + [callback.id]
    ensures !Truthy(callback) ==> Notify(OnChanged(callbacks, callback), raises) == Notify(callbacks, raises)
    decreases |callbacks|
  {
    if callback.Fn? && |callbacks| > 0 {
      assert (callbacks + [callback])[1..] == callbacks[1..] + [callback];
      assert WellBehaved(callbacks[1..], raises) by {
        forall i | 0 <= i < |callbacks| - 1
          ensures callbacks[1..][i].Fn? && !raises(callbacks[1..][i].id)
        {
          assert callbacks[1..][i] == callbacks[i + 1];
        }
      }
      RegisterThenNotify(callbacks[1..], callback, raises);
    }
  }

  /** The arguments of `init`. Optional arguments are `undefined` when left
      out; `port` is a number. */
  datatype InitArgs = InitArgs(
    host: string, port: nat, dbName: string, user: string, pwd: string,
    ssl: Value, noLive: Value, localPrefix: Option<string>, bidirectional: Value)

  datatype Mode = TwoWaySync | PullReplication

  /** The replication `init` starts: `PouchDB.sync(local, remote, options)` or
      `PouchDB.replicate(remote, local, options)`. */
  datatype Replication = Replication(mode: Mode, source: string, target: string, live: bool, retry: bool)

  /** What `init` derives: the local database name, the remote locator, the
      replication, and the flag it passes to `storeUtil.setBidirectional`. */
  datatype Setup = Setup(localName: string, remote: string, replication: Replication, sharedFlag: Value)

  /** The bidirectional argument after its default (`true` when left out). */
  function BidirectionalArg(a: InitArgs): Value
  {
    if a.bidirectional.Undefined? then Bool(true) else a.bidirectional
  }

  /** The locator parts `init` renders. */
  function RemoteParts(a: InitArgs): Locator.Parts
  {
    Locator.Parts(IsTrue(a.ssl), a.user, a.pwd, a.host, a.port, a.dbName)
  }

  /** `init`'s derivation. The local name is the prefix (default empty)
      followed by the database name. Replication is live unless
      `noLive == true`, always retries, and is a two-way sync from the local
      to the remote database exactly when the bidirectional argument (default
      true) is truthy, otherwise a one-way replication from the remote to the
      local database; the same argument is shared with the change listener. */
  function Init(a: InitArgs): (s: Setup)
    ensures a.localPrefix.Some? ==>
              && |s.localName| == |a.localPrefix.value| + |a.dbName|
              && s.localName[..|a.localPrefix.value|] == a.localPrefix.value
              && s.localName[|a.localPrefix.value|..] == a.dbName
    ensures a.localPrefix.None? ==> s.localName == a.dbName
    ensures s.replication.live <==> !LooselyTrue(a.noLive)
    ensures s.replication.retry
    ensures s.replication.mode == TwoWaySync <==> (a.bidirectional.Undefined? || Truthy(a.bidirectional))
    ensures s.replication.mode == TwoWaySync ==> s.replication.source == s.localName && s.replication.target == s.remote
    ensures s.replication.mode == PullReplication ==> s.replication.source == s.remote && s.replication.target == s.localName
    ensures Truthy(s.sharedFlag) <==> s.replication.mode == TwoWaySync
  {
    var prefix := if a.localPrefix.Some? then a.localPrefix.value else "";
    var localName := prefix + a.dbName;
    var remote := Locator.Render(RemoteParts(a));
    var flag := BidirectionalArg(a);
    var live := !LooselyTrue(a.noLive);
    var replication :=
      if Truthy(flag) then Replication(TwoWaySync, localName, remote, live, true)
      else Replication(PullReplication, remote, localName, live, true);
    Setup(localName, remote, replication, flag)
  }

  /** The remote locator reads back as `https` exactly when `ssl === true`,
      with the user, password, host, port and database name it was given,
      provided the user and host contain no `:` and the password no `@`. */
  lemma RemoteLocatorRoundTrip(a: InitArgs)
    requires Locator.Separable(RemoteParts(a))
    ensures Locator.Parse(Init(a).remote) == Some(Locator.Parts(IsTrue(a.ssl), a.user, a.pwd, a.host, a.port, a.dbName))
  {
    Locator.RenderParseRoundTrip(RemoteParts(a));
  }
}
