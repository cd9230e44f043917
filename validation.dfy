/** The field validator of news.validation.js: a total function from a
    candidate record to `{isValid, errors}`. The errors object is modelled as
    the list of its (key, message) entries in insertion order, which is the
    order `Object.values` reports them in. */
module NewsValidation {
  import opened Records
  import opened JsStrings

  const TitleRequired: string := "Title is required"
  const TitleTooShort: string := "Title must be at least 3 characters long"
  const ContentRequired: string := "Content is required"
  const ImageUrlRequired: string := "Image URL is required"
  const MinTitleLength: nat := 3

  datatype ValidationResult = ValidationResult(isValid: bool, errors: seq<(string, string)>)

  /** `!data[key]?.trim()`: an absent field is blank like the empty string,
      and a field that is not blank is present and not empty. */
  predicate Blank(data: Record, key: string)
    ensures key !in data ==> Blank(data, key)
    ensures key in data && data[key] == "" ==> Blank(data, key)
    ensures !Blank(data, key) ==> key in data && |data[key]| > 0
  {
    key !in data || IsBlank(data[key])
  }

  /** `errors[key]`: the message stored under a key, if any. */
  function ErrorFor(errors: seq<(string, string)>, key: string): Option<string> {
    if |errors| == 0 then None
    else if errors[0].0 == key then Some(errors[0].1)
    else ErrorFor(errors[1..], key)
  }

  /** Position of a field in the order the validator checks the fields. */
  function KeyRank(key: string): nat {
    if key == TitleKey then 0
    else if key == ContentKey then 1
    else if key == ImageUrlKey then 2
    else 3
  }

  /** The entries `validateNewsItem` writes, given which checks fail: the
      title's first, then the content's, then the image URL's. */
  function FieldErrors(titleBlank: bool, titleShort: bool, contentBlank: bool, imageUrlBlank: bool)
    : seq<(string, string)>
  {
    (if titleBlank then [(TitleKey, TitleRequired)]
     else if titleShort then [(TitleKey, TitleTooShort)] else [])
    + (if contentBlank then [(ContentKey, ContentRequired)] else [])
    + (if imageUrlBlank then [(ImageUrlKey, ImageUrlRequired)] else [])
  }

  /** `validateNewsItem(data)`. The title is required and, when present and
      not blank, its untrimmed length must be at least 3; content and imageUrl
      are required. Errors are keyed title, content, imageUrl in that order,
      each key at most once, and the record is valid exactly when there is no
      error. */
  function ValidateNewsItem(data: Record): (r: ValidationResult)
    ensures r.isValid <==> |r.errors| == 0
    ensures ErrorFor(r.errors, TitleKey) == Some(TitleRequired) <==> Blank(data, TitleKey)
    ensures ErrorFor(r.errors, TitleKey) == Some(TitleTooShort) <==>
              !Blank(data, TitleKey) && |data[TitleKey]| < MinTitleLength
    ensures ErrorFor(r.errors, TitleKey).None? <==>
              !Blank(data, TitleKey) && |data[TitleKey]| >= MinTitleLength
    ensures ErrorFor(r.errors, ContentKey) == Some(ContentRequired) <==> Blank(data, ContentKey)
    ensures ErrorFor(r.errors, ContentKey).None? <==> !Blank(data, ContentKey)
    ensures ErrorFor(r.errors, ImageUrlKey) == Some(ImageUrlRequired) <==> Blank(data, ImageUrlKey)
    ensures ErrorFor(r.errors, ImageUrlKey).None? <==> !Blank(data, ImageUrlKey)
    ensures forall i :: 0 <= i < |r.errors| ==> KeyRank(r.errors[i].0) < 3
    ensures forall i, j :: 0 <= i < j < |r.errors| ==> KeyRank(r.errors[i].0) < KeyRank(r.errors[j].0)
  {
    var tb := Blank(data, TitleKey);
    var ts := !tb && |data[TitleKey]| < MinTitleLength;
    var cb, ub := Blank(data, ContentKey), Blank(data, ImageUrlKey);
    var errors := FieldErrors(tb, ts, cb, ub);
    FieldErrorsLookup(tb, ts, cb, ub);
    ValidationResult(|errors| == 0, errors)
  }

  /** A lookup on a concatenation finds the first part's entry if it has
      one and otherwise looks in the second part. */
  lemma {:induction false} ErrorForConcat(a: seq<(string, string)>, b: seq<(string, string)>, key: string)
    ensures ErrorFor(a + b, key) == if ErrorFor(a, key).Some? then ErrorFor(a, key) else ErrorFor(b, key)
  {
    if |a| == 0 {
      assert a + b == b;
    } else {
      assert (a + b)[1..] == a[1..] + b;
      ErrorForConcat(a[1..], b, key);
    }
  }

  /** The lookups and the key order of the entries the validator writes. */
  lemma FieldErrorsLookup(tb: bool, ts: bool, cb: bool, ub: bool)
    ensures var e := FieldErrors(tb, ts, cb, ub);
      && (|e| == 0 <==> !tb && !ts && !cb && !ub)
      && ErrorFor(e, TitleKey) == (if tb then Some(TitleRequired) else if ts then Some(TitleTooShort) else None)
      && ErrorFor(e, ContentKey) == (if cb then Some(ContentRequired) else None)
      && ErrorFor(e, ImageUrlKey) == (if ub then Some(ImageUrlRequired) else None)
      && (forall i :: 0 <= i < |e| ==> KeyRank(e[i].0) < 3)
      && (forall i, j :: 0 <= i < j < |e| ==> KeyRank(e[i].0) < KeyRank(e[j].0))
  {
    var t := if tb then [(TitleKey, TitleRequired)] else if ts then [(TitleKey, TitleTooShort)] else [];
    var c := if cb then [(ContentKey, ContentRequired)] else [];
    var u := if ub then [(ImageUrlKey, ImageUrlRequired)] else [];
    ErrorForConcat(t + c, u, TitleKey);
    ErrorForConcat(t, c, TitleKey);
    ErrorForConcat(t + c, u, ContentKey);
    ErrorForConcat(t, c, ContentKey);
    ErrorForConcat(t + c, u, ImageUrlKey);
    ErrorForConcat(t, c, ImageUrlKey);
    assert KeyRank(TitleKey) == 0 && KeyRank(ContentKey) == 1 && KeyRank(ImageUrlKey) == 2;
  }

  /** `Object.values(errors)`: the messages in insertion order. */
  function Values(errors: seq<(string, string)>): (r: seq<string>)
    ensures |r| == |errors|
    ensures forall i :: 0 <= i < |errors| ==> r[i] == errors[i].1
  {
    if |errors| == 0 then [] else [errors[0].1] + Values(errors[1..])
  }

  lemma ValuesConcat(a: seq<(string, string)>, b: seq<(string, string)>)
    ensures Values(a + b) == Values(a) + Values(b)
  {
    assert forall i :: 0 <= i < |a + b| ==> Values(a + b)[i] == (Values(a) + Values(b))[i];
  }

  /** The messages of `validateNewsItem`, in the order `Object.values`
      lists them: the title's, then the content's, then the image URL's. */
  lemma ValidationMessages(data: Record)
    ensures Values(ValidateNewsItem(data).errors) ==
      (if Blank(data, TitleKey) then [TitleRequired]
       else if |data[TitleKey]| < MinTitleLength then [TitleTooShort] else [])
      + (if Blank(data, ContentKey) then [ContentRequired] else [])
      + (if Blank(data, ImageUrlKey) then [ImageUrlRequired] else [])
  {
    var tb := Blank(data, TitleKey);
    var ts := !tb && |data[TitleKey]| < MinTitleLength;
    var cb, ub := Blank(data, ContentKey), Blank(data, ImageUrlKey);
    FieldErrorsMessages(tb, ts, cb, ub);
  }

  lemma FieldErrorsMessages(tb: bool, ts: bool, cb: bool, ub: bool)
    ensures Values(FieldErrors(tb, ts, cb, ub)) ==
      (if tb then [TitleRequired] else if ts then [TitleTooShort] else [])
      + (if cb then [ContentRequired] else [])
      + (if ub then [ImageUrlRequired] else [])
  {
    var t := if tb then [(TitleKey, TitleRequired)] else if ts then [(TitleKey, TitleTooShort)] else [];
    var c := if cb then [(ContentKey, ContentRequired)] else [];
    var u := if ub then [(ImageUrlKey, ImageUrlRequired)] else [];
    ValuesConcat(t + c, u);
    ValuesConcat(t, c);
  }

  /** `Object.values(validation.errors)[0]`: the message the service reports. */
  function FirstError(r: ValidationResult): (m: string)
    requires !r.isValid
    requires |r.errors| > 0
    ensures m == r.errors[0].1
    ensures ErrorFor(r.errors, r.errors[0].0) == Some(m)
  {
    Values(r.errors)[0]
  }

  /** The reported message is the title's whenever the title fails, then the
      content's, then the image URL's. */
  lemma FirstErrorOrder(data: Record)
    ensures var r := ValidateNewsItem(data);
      !r.isValid ==>
        FirstError(r) ==
          if ErrorFor(r.errors, TitleKey).Some? then ErrorFor(r.errors, TitleKey).value
          else if ErrorFor(r.errors, ContentKey).Some? then ContentRequired
          else ImageUrlRequired
  {
  }

  /** A payload without a title (such as a partial update) is rejected, and
      the title's message is the one reported. */
  lemma MissingTitleRejected(data: Record)
    requires TitleKey !in data
    ensures !ValidateNewsItem(data).isValid
    ensures FirstError(ValidateNewsItem(data)) == TitleRequired
  {
  }

  /** The length check is on the raw string: a one-letter title padded with
      spaces passes. */
  lemma PaddedShortTitleAccepted()
    ensures ErrorFor(ValidateNewsItem(map[TitleKey := " a "]).errors, TitleKey).None?
  {
    var title := " a ";
    assert !Blank(map[TitleKey := title], TitleKey) by {
      assert title[1] == 'a' && !IsTrimmable('a');
      BlankIffAllTrimmable(title);
    }
  }

  /** A title that is not blank but shorter than three characters is
      reported first, whatever the other fields hold ("Ab" and " a" are
      two). */
  lemma ShortTitleReportedFirst(data: Record)
    requires TitleKey in data && |data[TitleKey]| < MinTitleLength
    requires !IsBlank(data[TitleKey])
    ensures !ValidateNewsItem(data).isValid
    ensures FirstError(ValidateNewsItem(data)) == TitleTooShort
  {
    ValidationMessages(data);
  }
}
