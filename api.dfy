/** The store adapter of news.api.js. Every operation reads the whole
    collection held under the storage key "news_items", changes it in memory
    and writes it back whole. The serialisation round trip through JSON is
    the identity on records of strings, so the stored value is the sequence
    itself; the clock readings `Date.now().toString()` and
    `new Date().toISOString()` are passed in as `stamp` and `now`. */
module NewsApi {
  import opened Records

  const StorageKey: string := "news_items"
  const NotFoundMessage: string := "News item not found"
  const DefaultErrorMessage: string := "An error occurred"
  const DefaultErrorStatus: int := 500
  const DeletedMessage: string := "News deleted successfully"

  /** The HTTP response part an error may carry (`error.response`). */
  datatype ErrorResponse = ErrorResponse(status: Option<int>, data: Option<string>)

  /** An error as thrown inside an adapter operation. */
  datatype RawError = RawError(message: string, response: Option<ErrorResponse>)

  /** The normalised error object the adapter throws to its callers. */
  datatype ApiError = ApiError(message: string, status: int, data: Option<string>)

  /** A successful adapter reply, `{data, status}`. */
  datatype Reply<T> = Reply(data: T, status: int)

  /** The reply of a successful delete, `{status, message}`. */
  datatype Ack = Ack(status: int, message: string)

  /** `handleError(error)`: each part falls back on its default when the
      error's own value is falsy (an empty message, a missing or zero status,
      missing or empty data). */
  function HandleError(e: RawError): (r: ApiError)
    ensures r.message != "" && r.status != 0 && r.data != Some("")
    ensures e.message != "" ==> r.message == e.message
    ensures e.message == "" ==> r.message == DefaultErrorMessage
    ensures r.status == DefaultErrorStatus <==>
              e.response.None? || e.response.value.status.None?
              || e.response.value.status.value in {0, DefaultErrorStatus}
    ensures e.response.Some? && e.response.value.status.Some? && e.response.value.status.value != 0 ==>
              r.status == e.response.value.status.value
    ensures r.data.Some? <==> e.response.Some? && e.response.value.data.Some? && e.response.value.data.value != ""
    ensures r.data.Some? ==> r.data == e.response.value.data
  {
    var status :=
      if e.response.Some? && e.response.value.status.Some? && e.response.value.status.value != 0
      then e.response.value.status.value else DefaultErrorStatus;
    var data :=
      if e.response.Some? && e.response.value.data.Some? && e.response.value.data.value != ""
      then e.response.value.data else None;
    ApiError(if e.message != "" then e.message else DefaultErrorMessage, status, data)
  }

  /** What a lookup by a missing id throws: `new Error("News item not found")`
      carries no response, so status and data take their defaults. */
  function NotFound(): (r: ApiError)
    ensures r == ApiError(NotFoundMessage, DefaultErrorStatus, None)
  {
    HandleError(RawError(NotFoundMessage, None))
  }

  /** The record `create` stores: `{id: stamp, ...data, createdAt: now}`. */
  function NewItem(data: Record, stamp: string, now: string): (r: Record)
    ensures r.Keys == data.Keys + {IdKey, CreatedAtKey}
    ensures r[CreatedAtKey] == now
    ensures r[IdKey] == if IdKey in data then data[IdKey] else stamp
    ensures forall k :: k in data && k != CreatedAtKey ==> r[k] == data[k]
  {
    map[IdKey := stamp] + data + map[CreatedAtKey := now]
  }

  /** The record `update` stores: `{...item, ...data, updatedAt: now}`. */
  function Merge(item: Record, data: Record, now: string): (r: Record)
    ensures r.Keys == item.Keys + data.Keys + {UpdatedAtKey}
    ensures r[UpdatedAtKey] == now
    ensures forall k :: k in data && k != UpdatedAtKey ==> r[k] == data[k]
    ensures forall k :: k in item && k !in data && k != UpdatedAtKey ==> r[k] == item[k]
  {
    item + data + map[UpdatedAtKey := now]
  }

  /** Merging with a payload that names no field only refreshes updatedAt. */
  lemma MergeEmpty(item: Record, now: string)
    ensures Merge(item, map[], now) == item[UpdatedAtKey := now]
  {
    assert item + map[] == item;
  }

  /** What `localStorage.getItem("news_items")` holds: nothing, the JSON text
      of a collection, or text `JSON.parse` rejects with the given message. */
  datatype Stored = Absent | Saved(items: seq<Record>) | Unparsable(parseError: string)

  /** The storage key "news_items" and the collection under it. */
  class NewsStore {
    var slot: Stored

    constructor (initial: Stored)
      ensures slot == initial
    {
      slot := initial;
    }

    /** Whether `JSON.parse(localStorage.getItem("news_items") || "[]")`
        succeeds. */
    predicate Readable()
      reads this
    {
      !slot.Unparsable?
    }

    /** The parsed collection: the empty one for an absent key. */
    function Items(): seq<Record>
      reads this
    {
      if slot.Saved? then slot.items else []
    }

    /** What an operation throws when the stored text does not parse. */
    function ReadFailure(): ApiError
      reads this
      requires !Readable()
    {
      HandleError(RawError(slot.parseError, None))
    }

    /** The read every operation starts with. */
    method Read() returns (r: Result<seq<Record>, ApiError>)
      ensures Readable() ==> r == Ok(Items())
      ensures !Readable() ==> r == Err(ReadFailure())
    {
      match slot {
        case Absent => r := Ok([]);
        case Saved(items) => r := Ok(items);
        case Unparsable(message) => r := Err(HandleError(RawError(message, None)));
      }
    }

    /** `getAll()`: the stored collection as it is, the empty collection for
        a key that was never written. */
    method GetAll() returns (r: Result<Reply<seq<Record>>, ApiError>)
      ensures slot.Absent? ==> r == Ok(Reply([], 200))
      ensures slot.Saved? ==> r == Ok(Reply(slot.items, 200))
      ensures slot.Unparsable? ==> r == Err(ReadFailure())
    {
      var read := Read();
      match read {
        case Err(e) => r := Err(e);
        case Ok(news) => r := Ok(Reply(news, 200));
      }
    }

    /** `getById(id)`: the first item carrying the id, or NotFound. */
    method GetById(id: string) returns (r: Result<Reply<Record>, ApiError>)
      ensures !Readable() ==> r == Err(ReadFailure())
      ensures Readable() ==>
                (r.Ok? <==> exists k :: 0 <= k < |Items()| && HasId(Items()[k], id))
      ensures r.Ok? ==> r.value.status == 200 && HasId(r.value.data, id)
      ensures r.Ok? ==> exists k :: 0 <= k < |Items()| && r.value.data == Items()[k]
                          && forall j :: 0 <= j < k ==> !HasId(Items()[j], id)
      ensures Readable() && r.Err? ==> r.error == NotFound()
    {
      var read := Read();
      if read.Err? {
        r := Err(read.error);
        return;
      }
      var news := read.value;
      var index := FindIndex(news, id);
      if index.None? {
        r := Err(NotFound());
      } else {
        r := Ok(Reply(news[index.value], 200));
      }
    }

    /** `create(data)`: appends the new item and writes the collection. */
    method Create(data: Record, stamp: string, now: string) returns (r: Result<Reply<Record>, ApiError>)
      modifies this
      ensures !old(Readable()) ==> r == Err(old(ReadFailure())) && slot == old(slot)
      ensures old(Readable()) ==>
                r == Ok(Reply(NewItem(data, stamp, now), 201))
                && slot == Saved(old(Items()) + [NewItem(data, stamp, now)])
    {
      var read := Read();
      if read.Err? {
        r := Err(read.error);
        return;
      }
      var news := read.value;
      var newItem := NewItem(data, stamp, now);
      news := news + [newItem];
      slot := Saved(news);
      r := Ok(Reply(newItem, 201));
    }

    /** `delete(id)`: NotFound without a write when no item carries the id;
        otherwise every item carrying it is filtered out. */
    method Delete(id: string) returns (r: Result<Ack, ApiError>)
      modifies this
      ensures !old(Readable()) ==> r == Err(old(ReadFailure())) && slot == old(slot)
      ensures old(Readable()) && FindIndex(old(Items()), id).None? ==>
                r == Err(NotFound()) && slot == old(slot)
      ensures old(Readable()) && FindIndex(old(Items()), id).Some? ==>
                r == Ok(Ack(200, DeletedMessage)) && slot == Saved(RemoveId(old(Items()), id))
    {
      var read := Read();
      if read.Err? {
        r := Err(read.error);
        return;
      }
      var news := read.value;
      var index := FindIndex(news, id);
      if index.None? {
        r := Err(NotFound());
        return;
      }
      news := RemoveId(news, id);
      slot := Saved(news);
      r := Ok(Ack(200, DeletedMessage));
    }

    /** `update(id, data)`: NotFound without a write when no item carries the
        id; otherwise the first item carrying it is merged with the payload in
        place. */
    method Update(id: string, data: Record, now: string) returns (r: Result<Reply<Record>, ApiError>)
      modifies this
      ensures !old(Readable()) ==> r == Err(old(ReadFailure())) && slot == old(slot)
      ensures old(Readable()) && FindIndex(old(Items()), id).None? ==>
                r == Err(NotFound()) && slot == old(slot)
      ensures old(Readable()) && FindIndex(old(Items()), id).Some? ==>
                var i := FindIndex(old(Items()), id).value;
                var updated := Merge(old(Items())[i], data, now);
                r == Ok(Reply(updated, 200)) && slot == Saved(old(Items())[i := updated])
    {
      var read := Read();
      if read.Err? {
        r := Err(read.error);
        return;
      }
      var news := read.value;
      var index := FindIndex(news, id);
      if index.None? {
        r := Err(NotFound());
        return;
      }
      var updatedItem := Merge(news[index.value], data, now);
      news := news[index.value := updatedItem];
      slot := Saved(news);
      r := Ok(Reply(updatedItem, 200));
    }
  }

  /** After a successful update the collection keeps its length, every other
      position keeps its item, and the updated item keeps each field the
      payload does not name. */
  lemma UpdatePreserves(items: seq<Record>, id: string, data: Record, now: string)
    requires FindIndex(items, id).Some?
    ensures var i := FindIndex(items, id).value;
      var after := items[i := Merge(items[i], data, now)];
      && |after| == |items|
      && (forall j :: 0 <= j < |items| && j != i ==> after[j] == items[j])
      && (forall k :: k in items[i] && k !in data && k != UpdatedAtKey ==> after[i][k] == items[i][k])
      && after[i][UpdatedAtKey] == now
  {
  }

  /** A created item is found again by its id, at the end of the
      collection, when no earlier item carries that id. */
  lemma CreateThenFind(items: seq<Record>, data: Record, stamp: string, now: string)
    requires FindIndex(items, NewItem(data, stamp, now)[IdKey]).None?
    ensures var item := NewItem(data, stamp, now);
      FindIndex(items + [item], item[IdKey]) == Some(|items|)
  {
    var item := NewItem(data, stamp, now);
    FindIndexAppend(items, item, item[IdKey]);
  }
}
