/** The state container of useNewsState.js: the fields `news`, `isLoading`,
    `error` and `selectedNews`, and the actions that call the service and
    reconcile the in-memory list with its answer (replace on fetch, append on
    create, filter on delete, map in place on update). Each action clears the
    error and raises the loading flag on entry and lowers the flag on every
    way out. */
module NewsState {
  import opened Records
  import opened NewsValidation
  import opened NewsApi
  import NewsService

  class NewsStateContainer {
    /** The store every service call goes through. */
    const store: NewsStore
    var news: seq<Record>
    var isLoading: bool
    var error: Option<string>
    var selectedNews: Option<Record>

    /** `useState([])`, `useState(false)`, `useState(null)`, `useState(null)`. */
    constructor (store: NewsStore)
      ensures this.store == store
      ensures news == [] && !isLoading && error == None && selectedNews == None
    {
      this.store := store;
      news := [];
      isLoading := false;
      error := None;
      selectedNews := None;
    }

    /** The stored text parses and the in-memory list shows exactly what is
        stored. */
    ghost predicate InSync()
      reads this, store
    {
      store.Readable() && news == store.Items()
    }

    /** `fetchNews()`: the fetched collection replaces the list; on failure
        the list is kept and the message is recorded. */
    method FetchNews()
      modifies this`news, this`isLoading, this`error
      ensures !isLoading
      ensures store.Readable() ==> news == store.Items() && error == None
      ensures !store.Readable() ==> news == old(news) && error == Some(store.ReadFailure().message)
      ensures store.Readable() ==> InSync()
    {
      isLoading := true;
      error := None;
      var response := NewsService.GetAllNews(store);
      if response.success {
        news := response.data.value;
      } else {
        error := response.error;
      }
      isLoading := false;
    }

    /** `createNews(data)`: on success the created item is appended and the
        answer is true; on failure the list and the store are as they were,
        the service's message is recorded and the answer is false. */
    method CreateNews(data: Record, stamp: string, now: string) returns (ok: bool)
      modifies this`news, this`isLoading, this`error, store
      ensures !isLoading
      ensures ok <==> ValidateNewsItem(data).isValid && old(store.Readable())
      ensures ok ==> news == old(news) + [NewItem(data, stamp, now)] && error == None
      ensures ok ==> store.slot == Saved(old(store.Items()) + [NewItem(data, stamp, now)])
      ensures !ok ==> news == old(news) && store.slot == old(store.slot)
      ensures !ValidateNewsItem(data).isValid ==> error == Some(FirstError(ValidateNewsItem(data)))
      ensures ValidateNewsItem(data).isValid && !old(store.Readable()) ==>
                error == Some(old(store.ReadFailure()).message)
      ensures old(InSync()) ==> InSync()
    {
      isLoading := true;
      error := None;
      var response := NewsService.CreateNews(store, data, stamp, now);
      if response.success {
        news := news + [response.data.value];
        ok := true;
      } else {
        error := response.error;
        ok := false;
      }
      isLoading := false;
    }

    /** `deleteNews(id)`: on success every item carrying the id leaves the
        list and the rest keep their order; on failure the list is as it was
        and the adapter's message is recorded. */
    method DeleteNews(id: string) returns (ok: bool)
      modifies this`news, this`isLoading, this`error, store
      ensures !isLoading
      ensures ok <==> old(store.Readable()) && FindIndex(old(store.Items()), id).Some?
      ensures ok ==> news == RemoveId(old(news), id) && error == None
      ensures ok ==> store.slot == Saved(RemoveId(old(store.Items()), id))
      ensures !ok ==> news == old(news) && store.slot == old(store.slot)
      ensures !old(store.Readable()) ==> error == Some(old(store.ReadFailure()).message)
      ensures old(store.Readable()) && !ok ==> error == Some(NotFoundMessage)
      ensures old(InSync()) ==> InSync()
    {
      isLoading := true;
      error := None;
      var response := NewsService.DeleteNews(store, id);
      if response.success {
        news := RemoveId(news, id);
        ok := true;
      } else {
        error := response.error;
        ok := false;
      }
      isLoading := false;
    }

    /** `selectNews(item)`. */
    method SelectNews(item: Option<Record>)
      modifies this`selectedNews
      ensures selectedNews == item
    {
      selectedNews := item;
    }

    /** `clearSelection()`. */
    method ClearSelection()
      modifies this`selectedNews
      ensures selectedNews == None
    {
      selectedNews := None;
    }

    /** `clearError()`. */
    method ClearError()
      modifies this`error
      ensures error == None
    {
      error := None;
    }

    /** `updateNews(id, data)`: on success every item of the list carrying
        the id is replaced by the updated record, in place; on failure the
        list and the store are as they were and the message is recorded. */
    method UpdateNews(id: string, data: Record, now: string) returns (ok: bool)
      modifies this`news, this`isLoading, this`error, store
      ensures !isLoading
      ensures ok <==> ValidateNewsItem(data).isValid && old(store.Readable())
                      && FindIndex(old(store.Items()), id).Some?
      ensures ok ==>
                var updated := Merge(old(store.Items())[FindIndex(old(store.Items()), id).value], data, now);
                news == ReplaceId(old(news), id, updated) && error == None
      ensures ok ==>
                var i := FindIndex(old(store.Items()), id).value;
                store.slot == Saved(old(store.Items())[i := Merge(old(store.Items())[i], data, now)])
      ensures !ok ==> news == old(news) && store.slot == old(store.slot)
      ensures !ValidateNewsItem(data).isValid ==> error == Some(FirstError(ValidateNewsItem(data)))
      ensures ValidateNewsItem(data).isValid && !old(store.Readable()) ==>
                error == Some(old(store.ReadFailure()).message)
      ensures ValidateNewsItem(data).isValid && old(store.Readable()) && !ok ==>
                error == Some(NotFoundMessage)
      ensures old(InSync()) && UniqueIds(old(news)) ==> InSync()
    {
      isLoading := true;
      error := None;
      ghost var before := news;
      var response := NewsService.UpdateNews(store, id, data, now);
      if response.success {
        news := ReplaceId(news, id, response.data.value);
        ok := true;
        if old(InSync()) && UniqueIds(before) {
          ReplaceIdUnique(before, id, response.data.value);
        }
      } else {
        error := response.error;
        ok := false;
      }
      isLoading := false;
    }

    /** `getNewsById(id)`: the state's list is never touched; the answer
        carries the item, or the message that is also recorded. */
    method GetNewsById(id: string) returns (e: NewsService.Envelope<Record>)
      modifies this`isLoading, this`error
      ensures !isLoading
      ensures NewsService.Consistent(e)
      ensures !store.Readable() ==>
                e == NewsService.Failed(store.ReadFailure().message)
                && error == Some(store.ReadFailure().message)
      ensures store.Readable() && FindIndex(store.Items(), id).Some? ==>
                e == NewsService.Succeeded(store.Items()[FindIndex(store.Items(), id).value]) && error == None
      ensures store.Readable() && FindIndex(store.Items(), id).None? ==>
                e == NewsService.Failed(NotFoundMessage) && error == Some(NotFoundMessage)
    {
      isLoading := true;
      error := None;
      var response := NewsService.GetNewsById(store, id);
      if response.success {
        e := NewsService.Succeeded(response.data.value);
      } else {
        error := response.error;
        e := NewsService.Failed(response.error.value);
      }
      isLoading := false;
    }
  }
}
