/** Refreshing the local inventory replica (hooks/useInventoryQuery.ts): ask the
    server for the rows changed since the newest `lastUpdated` the replica holds,
    and fold them into the replica with `mergeInventory`. */
module InventoryQuery {
  import opened Js
  import opened InventoryTypes
  import InventoryWorker
  import Seqs

  // ---------------------------------------------------------------- watermark

  /** The newest parsed `lastUpdated` of the records, 0 when there is none newer
      than 0; `timeOf` is the host's `new Date(text).getTime()`. */
  function MaxTime(items: seq<Item>, timeOf: string -> Num): real
  {
    if |items| == 0 then 0.0
    else
      var w := MaxTime(items[..|items| - 1], timeOf);
      var t := timeOf(items[|items| - 1].lastUpdated);
      if t.Fin? && t.val > w then t.val else w
  }

  /** The watermark is at least 0, at least every parseable time value of the
      records, and is either 0 or one of those time values. */
  lemma {:induction false} MaxTimeBounds(items: seq<Item>, timeOf: string -> Num)
    ensures MaxTime(items, timeOf) >= 0.0
    ensures forall i :: 0 <= i < |items| && timeOf(items[i].lastUpdated).Fin? ==>
              timeOf(items[i].lastUpdated).val <= MaxTime(items, timeOf)
    ensures MaxTime(items, timeOf) == 0.0
            || exists i :: 0 <= i < |items| && timeOf(items[i].lastUpdated) == Fin(MaxTime(items, timeOf))
  {
    if |items| > 0 {
      var init := items[..|items| - 1];
      MaxTimeBounds(init, timeOf);
      var w := MaxTime(init, timeOf);
      if w != 0.0 {
        var j :| 0 <= j < |init| && timeOf(init[j].lastUpdated) == Fin(w);
        assert items[j] == init[j];
      }
      forall i | 0 <= i < |items| - 1 ensures items[i] == init[i] {
      }
    }
  }

  /** The `forEach` loop that computes the watermark. */
  method Watermark(items: seq<Item>, timeOf: string -> Num) returns (lastUpdated: real)
    ensures lastUpdated == MaxTime(items, timeOf)
  {
    lastUpdated := 0.0;
    for i := 0 to |items|
      invariant lastUpdated == MaxTime(items[..i], timeOf)
    {
      assert items[..i + 1][..i] == items[..i];
      var ts := timeOf(items[i].lastUpdated);
      if ts.Fin? && ts.val > lastUpdated {
        lastUpdated := ts.val;
      }
    }
    assert items[..|items|] == items;
  }

  // ---------------------------------------------------------------- fetching

  /** The server's answer to `getInventory`: its `error` field and its `data` rows
      (absent when `data` is missing or `null`). */
  datatype Response = Response(error: Value, data: Option<seq<seq<Value>>>)

  /** A finished request: a value, or the message it was rejected with. */
  datatype Outcome<T> = Ok(value: T) | Failed(message: string)

  function AsRow(cells: seq<Value>): InventoryWorker.Row
  {
    InventoryWorker.Cells(cells)
  }

  /** `InventoryService.fetchInventory`: an error field rejects, no rows means
      nothing newer (`null`), and rows become records through `transformData`. */
  function FetchInventory(lib: Lib, dateOf: InventoryWorker.DateOf, resp: Response): (r: Outcome<Option<seq<Item>>>)
    ensures r.Failed? <==> Truthy(resp.error)
    ensures r == Ok(None) <==> !Truthy(resp.error) && (resp.data.None? || resp.data.value == [])
    ensures r.Ok? && r.value.Some? ==> resp.data.Some? && |r.value.value| == |resp.data.value|
  {
    if Truthy(resp.error) then Failed(ToString(lib, resp.error))
    else if resp.data.None? || |resp.data.value| == 0 then Ok(None)
    else
      var raw := InventoryWorker.Table(Seqs.Map(resp.data.value, AsRow));
      Ok(Some(InventoryWorker.TransformData(lib, dateOf, raw).items))
  }

  /** What `fetchInventoryData` resolves to for the cached replica `cache` (absent
      before the first load), when the server answers a request for the rows newer
      than `w` with `server(w)`. */
  function Refetched(lib: Lib, dateOf: InventoryWorker.DateOf, timeOf: string -> Num,
                     server: real -> Response, cache: Option<seq<Item>>): Outcome<seq<Item>>
  {
    var current := if cache.Some? then cache.value else [];
    var fetched := FetchInventory(lib, dateOf, server(MaxTime(current, timeOf)));
    if fetched.Failed? then Failed(fetched.message)
    else if fetched.value.None? then Ok(current)
    else if |current| == 0 then Ok(fetched.value.value)
    else Ok(InventoryWorker.Merge(current, fetched.value.value))
  }

  /** `fetchInventoryData`: compute the watermark, fetch, and merge. */
  method FetchInventoryData(lib: Lib, dateOf: InventoryWorker.DateOf, timeOf: string -> Num,
                            server: real -> Response, cache: Option<seq<Item>>)
    returns (r: Outcome<seq<Item>>)
    ensures r == Refetched(lib, dateOf, timeOf, server, cache)
  {
    var currentData := if cache.Some? then cache.value else [];
    var lastUpdated := 0.0;
    if |currentData| > 0 {
      lastUpdated := Watermark(currentData, timeOf);
    }
    var result := FetchInventory(lib, dateOf, server(lastUpdated));
    if result.Failed? {
      return Failed(result.message);
    }
    if result.value.None? {
      return Ok(currentData);
    }
    var newItems := result.value.value;
    if |currentData| == 0 {
      return Ok(newItems);
    }
    var merged := InventoryWorker.MergeInventory(currentData, newItems);
    return Ok(merged);
  }

  /** A refetch never loses a sku: every non-empty sku of the replica is still in
      the refreshed replica. */
  lemma RefetchKeepsSkus(lib: Lib, dateOf: InventoryWorker.DateOf, timeOf: string -> Num,
                         server: real -> Response, cache: Option<seq<Item>>, k: string)
    requires Refetched(lib, dateOf, timeOf, server, cache).Ok?
    requires cache.Some? && k != "" && k in InventoryWorker.Skus(cache.value)
    ensures k in InventoryWorker.Skus(Refetched(lib, dateOf, timeOf, server, cache).value)
  {
    var current := cache.value;
    var fetched := FetchInventory(lib, dateOf, server(MaxTime(current, timeOf)));
    if fetched.value.Some? {
      InventoryWorker.MergeSkus(current, fetched.value.value, k);
    }
  }

  // ---------------------------------------------------------------- refresh

  datatype Toast = UpToDate | Updated | ConnectionError

  /** The message `refresh` shows. The query cache keeps the previous array when
      the refetched data equals it (structural sharing), so the identity test
      `res.data === oldData` is equality of the data. */
  function RefreshToast(oldData: Option<seq<Item>>, res: Outcome<seq<Item>>): Toast
  {
    if res.Failed? then ConnectionError
    else if oldData == Some(res.value) then UpToDate
    else Updated
  }

  /** When the server has nothing newer, a loaded replica is reported up to date;
      when it answers with an error, a connection error is reported. */
  lemma RefreshReports(lib: Lib, dateOf: InventoryWorker.DateOf, timeOf: string -> Num,
                       server: real -> Response, cache: Option<seq<Item>>)
    ensures var w := MaxTime(if cache.Some? then cache.value else [], timeOf);
      && ((!Truthy(server(w).error) && (server(w).data.None? || server(w).data.value == []) && cache.Some?)
          ==> RefreshToast(cache, Refetched(lib, dateOf, timeOf, server, cache)) == UpToDate)
      && (Truthy(server(w).error)
          ==> RefreshToast(cache, Refetched(lib, dateOf, timeOf, server, cache)) == ConnectionError)
  {
  }

  /** With an empty replica the fetched records are taken as they are, unmerged. */
  lemma FirstLoadTakesRows(lib: Lib, dateOf: InventoryWorker.DateOf, timeOf: string -> Num,
                           server: real -> Response, cache: Option<seq<Item>>)
    requires cache.None? || cache.value == []
    requires !Truthy(server(0.0).error) && server(0.0).data.Some? && server(0.0).data.value != []
    ensures Refetched(lib, dateOf, timeOf, server, cache)
         == Ok(FetchInventory(lib, dateOf, server(0.0)).value.value)
    ensures |Refetched(lib, dateOf, timeOf, server, cache).value| == |server(0.0).data.value|
  {
  }
}
