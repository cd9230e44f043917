/** The CRUD service of news.service.js. Each operation wraps one store
    call in a `{success, data, error}` envelope and never throws: a thrown
    store error becomes `success: false` with the error's message. Create and
    update validate first and do not touch the store when validation fails. */
module NewsService {
  import opened Records
  import opened NewsValidation
  import opened NewsApi

  const DeleteFailedMessage: string := "Failed to delete news"

  /** `{success, data, error}`; `null` is None. */
  datatype Envelope<T> = Envelope(success: bool, data: Option<T>, error: Option<string>)

  /** The envelope of deleteNews, which has no data field. */
  datatype Outcome = Outcome(success: bool, error: Option<string>)

  /** The shape every envelope has: data and no error on success, an error
      and no data on failure. */
  predicate Consistent<T>(e: Envelope<T>) {
    if e.success then e.data.Some? && e.error.None? else e.data.None? && e.error.Some?
  }

  function Succeeded<T>(data: T): Envelope<T> {
    Envelope(true, Some(data), None)
  }

  function Failed<T>(message: string): Envelope<T> {
    Envelope(false, None, Some(message))
  }

  /** `error.message || "Failed to delete news"`. */
  function DeleteFailure(message: string): (r: string)
    ensures message != "" ==> r == message
    ensures message == "" ==> r == DeleteFailedMessage
    ensures r != ""
  {
    if message != "" then message else DeleteFailedMessage
  }

  /** The fallback of deleteNews never shows: the adapter has already
      replaced an empty message with its own default. */
  lemma DeleteFallbackUnreachable(e: RawError)
    ensures DeleteFailure(HandleError(e).message) == HandleError(e).message
  {
  }

  /** `getAllNews()`: the stored collection, or the parse failure's message. */
  method GetAllNews(store: NewsStore) returns (e: Envelope<seq<Record>>)
    ensures Consistent(e)
    ensures store.Readable() ==> e == Succeeded(store.Items())
    ensures !store.Readable() ==> e == Failed(store.ReadFailure().message)
  {
    var response := store.GetAll();
    match response {
      case Ok(reply) => e := Succeeded(reply.data);
      case Err(err) => e := Failed(err.message);
    }
  }

  /** `getNewsById(id)`: the first item carrying the id, or the adapter's
      NotFound message. */
  method GetNewsById(store: NewsStore, id: string) returns (e: Envelope<Record>)
    ensures Consistent(e)
    ensures !store.Readable() ==> e == Failed(store.ReadFailure().message)
    ensures store.Readable() && FindIndex(store.Items(), id).None? ==> e == Failed(NotFoundMessage)
    ensures store.Readable() && FindIndex(store.Items(), id).Some? ==>
              e == Succeeded(store.Items()[FindIndex(store.Items(), id).value])
  {
    var response := store.GetById(id);
    match response {
      case Ok(reply) => e := Succeeded(reply.data);
      case Err(err) => e := Failed(err.message);
    }
  }

  /** `createNews(data)`: an invalid payload reports its first validation
      message and leaves the store untouched; a valid one is appended. */
  method CreateNews(store: NewsStore, data: Record, stamp: string, now: string) returns (e: Envelope<Record>)
    modifies store
    ensures Consistent(e)
    ensures var v := ValidateNewsItem(data);
      !v.isValid ==> e == Failed(FirstError(v)) && store.slot == old(store.slot)
    ensures ValidateNewsItem(data).isValid && !old(store.Readable()) ==>
              e == Failed(old(store.ReadFailure()).message) && store.slot == old(store.slot)
    ensures ValidateNewsItem(data).isValid && old(store.Readable()) ==>
              e == Succeeded(NewItem(data, stamp, now))
              && store.slot == Saved(old(store.Items()) + [NewItem(data, stamp, now)])
  {
    var validation := ValidateNewsItem(data);
    if !validation.isValid {
      e := Failed(FirstError(validation));
      return;
    }
    var response := store.Create(data, stamp, now);
    match response {
      case Ok(reply) => e := Succeeded(reply.data);
      case Err(err) => e := Failed(err.message);
    }
  }

  /** `deleteNews(id)`: success without data, or the adapter's message with
      the deleteNews fallback for an empty one. */
  method DeleteNews(store: NewsStore, id: string) returns (o: Outcome)
    modifies store
    ensures o.success <==> o.error.None?
    ensures !old(store.Readable()) ==>
              o == Outcome(false, Some(old(store.ReadFailure()).message)) && store.slot == old(store.slot)
    ensures old(store.Readable()) && FindIndex(old(store.Items()), id).None? ==>
              o == Outcome(false, Some(NotFoundMessage)) && store.slot == old(store.slot)
    ensures old(store.Readable()) && FindIndex(old(store.Items()), id).Some? ==>
              o == Outcome(true, None) && store.slot == Saved(RemoveId(old(store.Items()), id))
  {
    var response := store.Delete(id);
    match response {
      case Ok(_) => o := Outcome(true, None);
      case Err(err) =>
        if !old(store.Readable()) {
          DeleteFallbackUnreachable(RawError(old(store.slot).parseError, None));
        }
        o := Outcome(false, Some(DeleteFailure(err.message)));
    }
  }

  /** `updateNews(id, data)`: the whole payload is validated as for create,
      so an invalid (for instance partial) payload fails before the store is
      touched; otherwise the first item carrying the id is merged. */
  method UpdateNews(store: NewsStore, id: string, data: Record, now: string) returns (e: Envelope<Record>)
    modifies store
    ensures Consistent(e)
    ensures var v := ValidateNewsItem(data);
      !v.isValid ==> e == Failed(FirstError(v)) && store.slot == old(store.slot)
    ensures ValidateNewsItem(data).isValid && !old(store.Readable()) ==>
              e == Failed(old(store.ReadFailure()).message) && store.slot == old(store.slot)
    ensures ValidateNewsItem(data).isValid && old(store.Readable()) && FindIndex(old(store.Items()), id).None? ==>
              e == Failed(NotFoundMessage) && store.slot == old(store.slot)
    ensures ValidateNewsItem(data).isValid && old(store.Readable()) && FindIndex(old(store.Items()), id).Some? ==>
              var i := FindIndex(old(store.Items()), id).value;
              var updated := Merge(old(store.Items())[i], data, now);
              e == Succeeded(updated) && store.slot == Saved(old(store.Items())[i := updated])
  {
    var validation := ValidateNewsItem(data);
    if !validation.isValid {
      e := Failed(FirstError(validation));
      return;
    }
    var response := store.Update(id, data, now);
    match response {
      case Ok(reply) => e := Succeeded(reply.data);
      case Err(err) => e := Failed(err.message);
    }
  }
}
