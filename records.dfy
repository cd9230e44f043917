/** News records and the list operations the store adapter and the state
    container build on: `findIndex`, `filter` and `map` over one collection
    of JSON objects, each keyed by its `id` field. */
module Records {

  datatype Option<+T> = None | Some(value: T)

  datatype Result<+T, +E> = Ok(value: T) | Err(error: E)

  /** A news item as it is stored: a JSON object whose fields are strings.
      A key that is absent stands for `undefined`. */
  type Record = map<string, string>

  const IdKey: string := "id"
  const TitleKey: string := "title"
  const ContentKey: string := "content"
  const ImageUrlKey: string := "imageUrl"
  const PublicationDateKey: string := "publicationDate"
  const CreatedAtKey: string := "createdAt"
  const UpdatedAtKey: string := "updatedAt"

  /** `item.id === id`: strict equality, so an item without an id
      (`undefined`) matches no id, and one with an id matches exactly that
      string. */
  predicate HasId(item: Record, id: string)
    ensures IdKey !in item ==> !HasId(item, id)
    ensures IdKey in item ==> (HasId(item, id) <==> item[IdKey] == id)
  {
    IdKey in item && item[IdKey] == id
  }

  /** `data[key] || fallback` on string fields: both an absent field and the
      empty string are falsy. */
  function FieldOr(data: Record, key: string, fallback: string): (r: string)
    ensures key in data && data[key] != "" ==> r == data[key]
    ensures key !in data || data[key] == "" ==> r == fallback
    ensures r == "" ==> fallback == ""
  {
    if key in data && data[key] != "" then data[key] else fallback
  }

  /** No two items of the collection carry the same id. */
  ghost predicate UniqueIds(items: seq<Record>) {
    forall i, j :: 0 <= i < j < |items| && IdKey in items[i] && IdKey in items[j] ==>
      items[i][IdKey] != items[j][IdKey]
  }

  /** `items.findIndex(item => item.id === id)`, with None for -1: the first
      position whose item carries the id. */
  function FindIndex(items: seq<Record>, id: string): (r: Option<nat>)
    ensures r.Some? ==> r.value < |items| && HasId(items[r.value], id)
    ensures r.Some? ==> forall j :: 0 <= j < r.value ==> !HasId(items[j], id)
    ensures r.None? <==> forall j :: 0 <= j < |items| ==> !HasId(items[j], id)
  {
    if |items| == 0 then None
    else if HasId(items[0], id) then Some(0)
    else match FindIndex(items[1..], id)
      case None => None
      case Some(k) => Some(k + 1)
  }

  /** `items.filter(item => item.id !== id)`. */
  function RemoveId(items: seq<Record>, id: string): (r: seq<Record>)
    ensures |r| <= |items|
    ensures forall k :: 0 <= k < |r| ==> r[k] in items && !HasId(r[k], id)
  {
    if |items| == 0 then []
    else if HasId(items[0], id) then RemoveId(items[1..], id)
    else [items[0]] + RemoveId(items[1..], id)
  }

  /** `items.map(item => item.id === id ? replacement : item)`. */
  function ReplaceId(items: seq<Record>, id: string, replacement: Record): (r: seq<Record>)
    ensures |r| == |items|
  {
    if |items| == 0 then []
    else [if HasId(items[0], id) then replacement else items[0]] + ReplaceId(items[1..], id, replacement)
  }

  /** Filtering distributes over concatenation, so the kept items stay in
      their original relative order. */
  lemma {:induction false} RemoveIdConcat(a: seq<Record>, b: seq<Record>, id: string)
    ensures RemoveId(a + b, id) == RemoveId(a, id) + RemoveId(b, id)
  {
    if |a| == 0 {
      assert a + b == b;
    } else {
      assert (a + b)[1..] == a[1..] + b;
      RemoveIdConcat(a[1..], b, id);
    }
  }

  /** Every item that does not carry the id survives the filter as often as
      it occurred before. */
  lemma {:induction false} RemoveIdKeepsOthers(items: seq<Record>, id: string, x: Record)
    requires !HasId(x, id)
    ensures multiset(RemoveId(items, id))[x] == multiset(items)[x]
  {
    if |items| > 0 {
      assert items == [items[0]] + items[1..];
      RemoveIdKeepsOthers(items[1..], id, x);
    }
  }

  /** Filtering out an id no item carries changes nothing. */
  lemma {:induction false} RemoveIdAbsent(items: seq<Record>, id: string)
    requires FindIndex(items, id).None?
    ensures RemoveId(items, id) == items
  {
    if |items| > 0 {
      assert FindIndex(items[1..], id).None?;
      RemoveIdAbsent(items[1..], id);
    }
  }

  /** Filtering out an id some item carries makes the collection shorter. */
  lemma {:induction false} RemoveIdShrinks(items: seq<Record>, id: string)
    requires FindIndex(items, id).Some?
    ensures |RemoveId(items, id)| < |items|
  {
    if !HasId(items[0], id) {
      RemoveIdShrinks(items[1..], id);
    }
  }

  /** The map touches each position on its own: a matching item becomes the
      replacement, every other item stays where it was. */
  lemma {:induction false} ReplaceIdAt(items: seq<Record>, id: string, replacement: Record, i: nat)
    requires i < |items|
    ensures ReplaceId(items, id, replacement)[i] == if HasId(items[i], id) then replacement else items[i]
  {
    if i > 0 {
      ReplaceIdAt(items[1..], id, replacement, i - 1);
    }
  }

  /** When ids are unique, mapping every match to the replacement is the
      same as overwriting the first match in place. */
  lemma ReplaceIdUnique(items: seq<Record>, id: string, replacement: Record)
    requires UniqueIds(items)
    requires FindIndex(items, id).Some?
    ensures ReplaceId(items, id, replacement) == items[FindIndex(items, id).value := replacement]
  {
    var i := FindIndex(items, id).value;
    var r := ReplaceId(items, id, replacement);
    forall k | 0 <= k < |items|
      ensures r[k] == items[i := replacement][k]
    {
      ReplaceIdAt(items, id, replacement, k);
    }
  }

  /** Appending an item with a fresh id makes it the first match. */
  lemma {:induction false} FindIndexAppend(items: seq<Record>, x: Record, id: string)
    requires FindIndex(items, id).None?
    requires HasId(x, id)
    ensures FindIndex(items + [x], id) == Some(|items|)
  {
    if |items| > 0 {
      assert (items + [x])[1..] == items[1..] + [x];
      assert FindIndex(items[1..], id).None?;
      FindIndexAppend(items[1..], x, id);
    }
  }
}
