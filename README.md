# News CRUD core, modelled in Dafny

This project models the data layer of an admin panel for news items. The
layer has five parts:

- a field validator (title, content and image URL);
- a store adapter that keeps every news item as one JSON array under the
  local-storage key `"news_items"`;
- a CRUD service that validates, calls the store and wraps each answer in a
  `{success, data, error}` envelope;
- a React state container that holds `news`, `isLoading`, `error` and
  `selectedNews` and reconciles the list after each action;
- a `NewsItem` model class with defaults, its own validator and `toJSON`.

A news item is a JSON object of string fields, modelled as
`map<string, string>`. An absent key stands for `undefined`, and the empty
string is the only falsy string. JavaScript's object spread `{...a, ...b}`
is the right-biased map union `a + b`.

Modules, one per source file, plus two shared ones:

- `Records` (records.dfy): the record type, `HasId`, and the list operations
  `findIndex` (`FindIndex`), `filter` (`RemoveId`) and `map` (`ReplaceId`).
  Lemmas state what each operation keeps and changes.
- `JsStrings` (strings.dfy): `String.prototype.trim` over the ECMAScript
  whitespace and line-terminator characters, and the blank test `!s.trim()`.
- `NewsValidation` (validation.dfy): `validateNewsItem`. The errors object
  is the list of its (key, message) entries in insertion order.
- `NewsApi` (api.dfy): `handleError`, the record builders of `create` and
  `update`, and the class `NewsStore`. Its `slot` field is what local storage
  holds under `"news_items"`: nothing, a saved collection, or text that
  `JSON.parse` rejects.
- `NewsService` (service.dfy): the five service methods over a `NewsStore`.
- `NewsState` (state.dfy): the class `NewsStateContainer` with the four
  state fields and the eight actions.
- `NewsModel` (model.dfy): the class `NewsItem`.

The clock is a parameter. `stamp` stands for `Date.now().toString()` and
`now` for `new Date().toISOString()`.

On update, a payload that carries `id` or `createdAt` overrides them,
because the spread `{...news[index], ...data, updatedAt}` puts `data` after
the old item. The model keeps this behaviour (`NewsApi.Merge`).

## Model

| member | source | states |
|---|---|---|
| `Records.HasId` | app/_services/api/news.api.js:23 | strict equality on the id: an item without an id matches no id, and an item with one matches exactly that string |
| `Records.FieldOr` | app/_services/models/news.model.js:3-8 | the falsy default on a field: the field's value when it is present and not empty, otherwise the fallback, so the result is empty only when the fallback is |
| `Records.FindIndex` | app/_services/api/news.api.js:57-60 | the result is the first position whose item has the id, and it is None exactly when no item has it |
| `Records.RemoveId` | app/_services/api/news.api.js:62 | the filtered list is no longer than the input, and every item kept comes from the input and lacks the id |
| `Records.RemoveIdConcat` | app/_services/api/news.api.js:62 | filtering distributes over concatenation, so kept items stay in their original relative order |
| `Records.RemoveIdKeepsOthers` | app/_services/api/news.api.js:62 | every item without the id is kept exactly as many times as it occurred |
| `Records.RemoveIdAbsent` | app/_hooks/useNewsState.js:60 | filtering out an id that no item has changes nothing |
| `Records.RemoveIdShrinks` | app/_services/api/news.api.js:57-63 | filtering out an id that some item has makes the collection strictly shorter |
| `Records.ReplaceId` | app/_hooks/useNewsState.js:95-97 | the map in place keeps the list's length |
| `Records.ReplaceIdAt` | app/_hooks/useNewsState.js:95-97 | at each position, a matching item becomes the replacement and any other item stays |
| `Records.ReplaceIdUnique` | app/_hooks/useNewsState.js:93-97 | with unique ids, the hook's replace-every-match equals the store's overwrite of the first match |
| `Records.FindIndexAppend` | app/_services/api/news.api.js:36-46 | an appended item with an id no earlier item has is found at the new last position |
| `JsStrings.TrimStart` | app/_services/validation/news.validation.js:5 | the result is a suffix with no leading trimmable character, and only trimmable characters were dropped |
| `JsStrings.TrimEnd` | app/_services/validation/news.validation.js:5 | the result is a prefix with no trailing trimmable character, and only trimmable characters were dropped |
| `JsStrings.Trim` | app/_services/validation/news.validation.js:5 | the trimmed string is a contiguous middle part of the input, everything before and after it is trimmable, and it neither starts nor ends with a trimmable character |
| `JsStrings.BlankIffAllTrimmable` | app/_services/validation/news.validation.js:5-17 | a string is blank after trim exactly when all its characters are whitespace or line terminators |
| `NewsValidation.Blank` | app/_services/validation/news.validation.js:5 | `!data[key]?.trim()`: an absent field and an empty one are blank, and a field that is not blank is present and not empty |
| `NewsValidation.ValidateNewsItem` | app/_services/validation/news.validation.js:2-23 | each field gets its message exactly when its rule fails: title required, then minimum length 3 on the raw string, content required, image URL required; keys come in title, content, imageUrl order, each at most once; isValid holds exactly when there are no errors |
| `NewsValidation.Values` | app/_services/news.service.js:44 | `Object.values` lists the messages in entry order |
| `NewsValidation.ValidationMessages` | app/_services/validation/news.validation.js:5-17 | the list of messages is the title's message (if any), then the content's, then the image URL's |
| `NewsValidation.FirstError` | app/_services/news.service.js:44 | `Object.values(errors)[0]` is the message of the first entry written, which is the message stored under that entry's key |
| `NewsValidation.FirstErrorOrder` | app/_services/news.service.js:42-45 | the reported message is the title's if the title fails, otherwise the content's, otherwise the image URL's |
| `NewsValidation.MissingTitleRejected` | app/_services/news.service.js:79-82 | a payload with no title, such as a partial update, is invalid and reports "Title is required" |
| `NewsValidation.PaddedShortTitleAccepted` | app/_services/validation/news.validation.js:7-8 | the length check is on the untrimmed string, so `" a "` passes the title rules |
| `NewsValidation.ShortTitleReportedFirst` | app/_services/validation/news.validation.js:7-8 | any non-blank title shorter than 3, padded or not, makes the record invalid, and its message is the first one reported |
| `NewsApi.HandleError` | app/_services/api/news.api.js:96-102 | the error's own message, status and response data are kept when truthy; otherwise they default to "An error occurred", 500 and null |
| `NewsApi.NotFound` | app/_services/api/news.api.js:25 | a missing id throws "News item not found" with status 500 and no data |
| `NewsApi.NewItem` | app/_services/api/news.api.js:37-41 | the created record has every key of the payload, plus id and createdAt; createdAt is always the current time; id comes from the payload if the payload has one, else from the stamp |
| `NewsApi.Merge` | app/_services/api/news.api.js:81-85 | the updated record takes the payload's fields, keeps the old value of every field the payload lacks, and has updatedAt set to now |
| `NewsApi.MergeEmpty` | app/_services/api/news.api.js:81-85 | an empty payload only refreshes updatedAt |
| `NewsApi.NewsStore.Read` | app/_services/api/news.api.js:11 | reading gives the saved collection, the empty collection for an absent key, or the handled parse error |
| `NewsApi.NewsStore.GetAll` | app/_services/api/news.api.js:8-16 | returns the stored collection unchanged with status 200 (the empty one for an absent key), or the parse error |
| `NewsApi.NewsStore.GetById` | app/_services/api/news.api.js:19-30 | succeeds exactly when some item has the id, and then returns the first such item with status 200; otherwise it fails with NotFound |
| `NewsApi.NewsStore.Create` | app/_services/api/news.api.js:33-50 | the old collection plus the new item at the end is written, and the new item is returned with status 201; on a parse error nothing is written |
| `NewsApi.NewsStore.Delete` | app/_services/api/news.api.js:52-69 | a missing id fails with NotFound and writes nothing; otherwise the filtered collection is written |
| `NewsApi.NewsStore.Update` | app/_services/api/news.api.js:71-94 | a missing id fails with NotFound and writes nothing; otherwise only the first matching position is overwritten with the merged record, which is returned |
| `NewsApi.UpdatePreserves` | app/_services/api/news.api.js:81-88 | after update the length and every other position are unchanged, fields absent from the payload keep their values, and updatedAt is now |
| `NewsApi.CreateThenFind` | app/_services/api/news.api.js:36-46 | a created item whose id is new is found by getById at the end of the collection |
| `NewsService.DeleteFailure` | app/_services/news.service.js:72 | the "Failed to delete news" default: a non-empty message is kept, an empty one is replaced, and the result is never empty |
| `NewsService.DeleteFallbackUnreachable` | app/_services/news.service.js:72 | the "Failed to delete news" fallback never applies, because the adapter's messages are never empty |
| `NewsService.GetAllNews` | app/_services/news.service.js:5-20 | the envelope is consistent and carries the stored collection, or `success: false` with the parse error's message |
| `NewsService.GetNewsById` | app/_services/news.service.js:22-37 | the envelope is consistent and carries the first item with the id, or the NotFound or parse-error message |
| `NewsService.CreateNews` | app/_services/news.service.js:39-60 | an invalid payload fails with its first message without touching the store; a valid one returns the record the store appended |
| `NewsService.DeleteNews` | app/_services/news.service.js:62-75 | succeeds without data exactly when the id is present, and the store is then filtered; otherwise it reports the adapter's message with nothing written |
| `NewsService.UpdateNews` | app/_services/news.service.js:77-97 | an invalid payload (even a partial one) fails before the store is touched; otherwise it returns the merged record, or NotFound with nothing written |
| `NewsState.NewsStateContainer.constructor` | app/_hooks/useNewsState.js:7-10 | the list starts empty, the loading flag false, and error and selection null |
| `NewsState.NewsStateContainer.FetchNews` | app/_hooks/useNewsState.js:12-29 | the fetched collection replaces the list; on failure the list is kept and the error is recorded; isLoading ends false |
| `NewsState.NewsStateContainer.CreateNews` | app/_hooks/useNewsState.js:31-52 | returns true exactly when the service succeeded, and then the created item is appended to the list and the store holds its old collection plus that item; otherwise the list and store are unchanged and the message is recorded; isLoading ends false; list and store stay in sync |
| `NewsState.NewsStateContainer.DeleteNews` | app/_hooks/useNewsState.js:54-75 | returns true exactly when the id was stored, and then both the list and the stored collection are filtered; otherwise the list is unchanged and the message is recorded; isLoading ends false; list and store stay in sync |
| `NewsState.NewsStateContainer.SelectNews` | app/_hooks/useNewsState.js:77-79 | sets the selection and touches no other field |
| `NewsState.NewsStateContainer.ClearSelection` | app/_hooks/useNewsState.js:81-83 | sets the selection to null and touches no other field |
| `NewsState.NewsStateContainer.ClearError` | app/_hooks/useNewsState.js:85-87 | sets the error to null and touches no other field |
| `NewsState.NewsStateContainer.UpdateNews` | app/_hooks/useNewsState.js:89-113 | returns true exactly when the payload is valid and the id stored, and then every matching item of the list is replaced in place by the merged record, and the store's first match is overwritten with it; otherwise the list is unchanged and the message is recorded; isLoading ends false; with unique ids list and store stay in sync |
| `NewsState.NewsStateContainer.GetNewsById` | app/_hooks/useNewsState.js:115-143 | never changes the list; returns the found item, or a failure whose message is also recorded as the error; isLoading ends false |
| `NewsModel.ItemErrorsMeaning` | app/_services/models/news.model.js:12-23 | each message of `validate` appears exactly when its field is blank, at most once, in title, content, imageUrl order, and there is no length rule |
| `NewsModel.NewsItem.constructor` | app/_services/models/news.model.js:2-10 | the item's JSON is the input's truthy fields: "" for falsy text fields, the stamp for a falsy id, now for falsy dates, and always now for updatedAt |
| `NewsModel.NewsItem.Validate` | app/_services/models/news.model.js:12-23 | returns the messages for the blank fields, and isValid holds exactly when there are none |
| `NewsModel.NewsItem.ToJSON` | app/_services/models/news.model.js:25-35 | the result has exactly the seven fields, each equal to the item's field |
| `NewsModel.DefaultsRebuild` | app/_services/models/news.model.js:2-10 | building an item from another item's JSON keeps every field and only refreshes updatedAt |
| `NewsModel.DefaultsKeepTruthy` | app/_services/models/news.model.js:3-9 | every truthy input field is kept, except updatedAt, which is always now |
| `NewsModel.ValidatorsAgree` | app/_services/models/news.model.js:14-17 | the item's messages equal the validation module's messages for the same record, except the module's title-length message |

## Left out

- The simulated network delay (`setTimeout`) and the suspension at each
  `await`. Overlapping actions and their races on the one storage key are
  left out too: the model runs every action to completion before the next
  begins.
- `isLoading` being true while a call is pending: nothing can observe the
  intermediate state in a sequential model, so only the final false value is
  stated.
- JSON serialisation is taken as the identity on records of strings. Stored
  text that parses to something other than an array of such records is not
  modelled. A failing `localStorage.setItem` (quota exceeded) is not
  modelled either.
- Record values are strings only. A non-string field (a number title, say)
  would make `.trim()` throw a TypeError; that case is not modelled.
- `String.length` counts UTF-16 code units, but the model counts Unicode
  characters. The title-length rule differs only for characters outside the
  Basic Multilingual Plane.
- JSON key order is not modelled, since a record is a map. The order of the
  validation errors is modelled, as a list.
- `NewsItem.constructor`: the source reads the clock once for the id and up
  to three times for the dates; the model takes one `now` for all dates.
- The hook's `catch` branches are not modelled, because the service never
  throws. The `toast` and `console.log` calls are left out, along with the
  fallback texts that only reach toasts.
- `NewsState.NewsStateContainer.UpdateNews`: the equality of list and
  store afterwards is stated only for collections with unique ids. The store overwrites
  the first match and the hook replaces every match, so the two differ on
  duplicate ids. Creation does not keep ids unique: the payload or a
  repeated timestamp can reuse one.
- The notification context (app/_context/NewsContext.js), the React
  components, the layout and the image-domain configuration hold no data
  logic and are not part of this model.
