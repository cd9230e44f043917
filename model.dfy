/** The `NewsItem` class of news.model.js: a constructor that fills seven
    fields with JavaScript `||` defaults, a list-based `validate`, and the
    `toJSON` projection. The clock readings are passed in: `stamp` for
    `Date.now().toString()` and `now` for `new Date().toISOString()`. */
module NewsModel {
  import opened Records
  import opened JsStrings
  import opened NewsValidation

  /** The seven fields `toJSON` reports. */
  const ItemKeys: set<string> :=
    {IdKey, TitleKey, ContentKey, ImageUrlKey, PublicationDateKey, CreatedAtKey, UpdatedAtKey}

  /** `{isValid, errors}` of `validate`, with the messages as a list. */
  datatype ItemCheck = ItemCheck(isValid: bool, errors: seq<string>)

  /** The item the constructor builds from `data`, as `toJSON` shows it:
      falsy id, title, content, imageUrl, publicationDate and createdAt take
      their defaults, and updatedAt is always the current time. */
  function Defaults(data: Record, stamp: string, now: string): Record {
    map[IdKey := FieldOr(data, IdKey, stamp),
        TitleKey := FieldOr(data, TitleKey, ""),
        ContentKey := FieldOr(data, ContentKey, ""),
        ImageUrlKey := FieldOr(data, ImageUrlKey, ""),
        PublicationDateKey := FieldOr(data, PublicationDateKey, now),
        CreatedAtKey := FieldOr(data, CreatedAtKey, now),
        UpdatedAtKey := now]
  }

  /** Position of a message in the order `validate` pushes them. */
  function MessageRank(m: string): nat {
    if m == TitleRequired then 0
    else if m == ContentRequired then 1
    else if m == ImageUrlRequired then 2
    else 3
  }

  /** The messages `validate` pushes, one per blank field. */
  function ItemErrors(title: string, content: string, imageUrl: string): seq<string> {
    Pushed(IsBlank(title), IsBlank(content), IsBlank(imageUrl))
  }

  /** `if (failed) errors.push(message)`. */
  function PushIf(errors: seq<string>, failed: bool, message: string): seq<string> {
    if failed then errors + [message] else errors
  }

  /** The three pushes of `validate`, given which fields are blank. */
  function Pushed(titleBlank: bool, contentBlank: bool, imageUrlBlank: bool): seq<string> {
    PushIf(PushIf(PushIf([], titleBlank, TitleRequired), contentBlank, ContentRequired),
           imageUrlBlank, ImageUrlRequired)
  }

  /** Each message of `validate` appears exactly when its field is blank,
      at most once, and the messages come in the order title, content,
      imageUrl; there is no length rule on the title. */
  lemma ItemErrorsMeaning(title: string, content: string, imageUrl: string)
    ensures var r := ItemErrors(title, content, imageUrl);
      && (TitleRequired in r <==> IsBlank(title))
      && (ContentRequired in r <==> IsBlank(content))
      && (ImageUrlRequired in r <==> IsBlank(imageUrl))
      && (forall i :: 0 <= i < |r| ==> MessageRank(r[i]) < 3)
      && (forall i, j :: 0 <= i < j < |r| ==> MessageRank(r[i]) < MessageRank(r[j]))
  {
    PushedMeaning(IsBlank(title), IsBlank(content), IsBlank(imageUrl));
  }

  lemma PushedMeaning(tb: bool, cb: bool, ub: bool)
    ensures var r := Pushed(tb, cb, ub);
      && (TitleRequired in r <==> tb)
      && (ContentRequired in r <==> cb)
      && (ImageUrlRequired in r <==> ub)
      && (forall i :: 0 <= i < |r| ==> MessageRank(r[i]) < 3)
      && (forall i, j :: 0 <= i < j < |r| ==> MessageRank(r[i]) < MessageRank(r[j]))
  {
    var r := Pushed(tb, cb, ub);
    assert MessageRank(TitleRequired) == 0;
    assert MessageRank(ContentRequired) == 1;
    assert MessageRank(ImageUrlRequired) == 2;
    assert forall i :: 0 <= i < |r| ==> r[i] in {TitleRequired, ContentRequired, ImageUrlRequired};
  }

  class NewsItem {
    var id: string
    var title: string
    var content: string
    var imageUrl: string
    var publicationDate: string
    var createdAt: string
    var updatedAt: string

    /** `new NewsItem(data)`. */
    constructor (data: Record, stamp: string, now: string)
      ensures ToJSON() == Defaults(data, stamp, now)
    {
      id := FieldOr(data, IdKey, stamp);
      title := FieldOr(data, TitleKey, "");
      content := FieldOr(data, ContentKey, "");
      imageUrl := FieldOr(data, ImageUrlKey, "");
      publicationDate := FieldOr(data, PublicationDateKey, now);
      createdAt := FieldOr(data, CreatedAtKey, now);
      updatedAt := now;
    }

    /** `validate()`: pushes one message per blank field. */
    method Validate() returns (r: ItemCheck)
      ensures r.errors == ItemErrors(title, content, imageUrl)
      ensures r.isValid <==> r.errors == []
    {
      var t, c, u := title, content, imageUrl;
      var tb, cb, ub := IsBlank(t), IsBlank(c), IsBlank(u);
      var errors: seq<string> := [];
      if tb {
        errors := errors + [TitleRequired];
      }
      assert errors == PushIf([], tb, TitleRequired);
      if cb {
        errors := errors + [ContentRequired];
      }
      assert errors == PushIf(PushIf([], tb, TitleRequired), cb, ContentRequired);
      if ub {
        errors := errors + [ImageUrlRequired];
      }
      assert errors == Pushed(tb, cb, ub);
      r := ItemCheck(|errors| == 0, errors);
    }

    /** `toJSON()`: exactly the seven fields, each with its current value. */
    function ToJSON(): (r: Record)
      reads this
      ensures r.Keys == ItemKeys
      ensures r[IdKey] == id && r[TitleKey] == title && r[ContentKey] == content
      ensures r[ImageUrlKey] == imageUrl && r[PublicationDateKey] == publicationDate
      ensures r[CreatedAtKey] == createdAt && r[UpdatedAtKey] == updatedAt
    {
      map[IdKey := id, TitleKey := title, ContentKey := content, ImageUrlKey := imageUrl,
          PublicationDateKey := publicationDate, CreatedAtKey := createdAt, UpdatedAtKey := updatedAt]
    }
  }

  /** Building an item from another item's JSON keeps every field and only
      refreshes updatedAt, since every defaulted field except the text
      fields is truthy and the text fields default to themselves. */
  lemma DefaultsRebuild(data: Record, stamp: string, now: string, stamp': string, now': string)
    requires stamp != "" && now != ""
    ensures Defaults(Defaults(data, stamp, now), stamp', now') == Defaults(data, stamp, now)[UpdatedAtKey := now']
  {
  }

  /** The constructor keeps every truthy input field except updatedAt, which
      it overwrites whatever the input says. */
  lemma DefaultsKeepTruthy(data: Record, stamp: string, now: string, key: string)
    requires key in ItemKeys && key != UpdatedAtKey
    requires key in data && data[key] != ""
    ensures Defaults(data, stamp, now)[key] == data[key]
    ensures Defaults(data, stamp, now)[UpdatedAtKey] == now
  {
  }

  /** On a field the two validators agree: absent or empty is blank. */
  lemma BlankField(data: Record, key: string)
    ensures Blank(data, key) <==> IsBlank(FieldOr(data, key, ""))
  {
  }

  /** The item's checks on the text fields taken from a record. */
  lemma ItemErrorsOfRecord(data: Record)
    ensures ItemErrors(FieldOr(data, TitleKey, ""), FieldOr(data, ContentKey, ""), FieldOr(data, ImageUrlKey, ""))
            == Pushed(Blank(data, TitleKey), Blank(data, ContentKey), Blank(data, ImageUrlKey))
  {
    BlankField(data, TitleKey);
    BlankField(data, ContentKey);
    BlankField(data, ImageUrlKey);
  }

  /** The item's `validate` reports the validation module's messages on the
      record it was built from (the constructor puts `data[key] || ""` in
      each text field), except that it has no minimum-length rule: a short
      non-blank title is the one message it does not give. */
  lemma ValidatorsAgree(data: Record)
    ensures var mine := ItemErrors(FieldOr(data, TitleKey, ""), FieldOr(data, ContentKey, ""),
                                   FieldOr(data, ImageUrlKey, ""));
      var theirs := Values(ValidateNewsItem(data).errors);
      if !Blank(data, TitleKey) && |data[TitleKey]| < MinTitleLength
      then theirs == [TitleTooShort] + mine
      else theirs == mine
  {
    ItemErrorsOfRecord(data);
    ValidationMessages(data);
    var tb := Blank(data, TitleKey);
    PushedVsMessages(tb, !tb && |data[TitleKey]| < MinTitleLength, Blank(data, ContentKey), Blank(data, ImageUrlKey));
  }

  /** The two lists of messages differ only in the title's length message. */
  lemma PushedVsMessages(tb: bool, ts: bool, cb: bool, ub: bool)
    ensures var theirs := (if tb then [TitleRequired] else if ts then [TitleTooShort] else [])
                          + (if cb then [ContentRequired] else [])
                          + (if ub then [ImageUrlRequired] else []);
      if !tb && ts then theirs == [TitleTooShort] + Pushed(tb, cb, ub) else theirs == Pushed(tb, cb, ub)
  {
  }
}
