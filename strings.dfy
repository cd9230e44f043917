/** `String.prototype.trim` and the blank test `!s.trim()` that the
    validators apply to the text fields of a news item. */
module JsStrings {

  /** The characters `trim` removes: the ECMAScript WhiteSpace set (tab,
      vertical tab, form feed, space, no-break space, byte order mark and the
      Zs space separators) and the LineTerminator set (LF, CR, U+2028,
      U+2029). */
  predicate IsTrimmable(c: char) {
    var n := c as int;
    n == 0x09 || n == 0x0A || n == 0x0B || n == 0x0C || n == 0x0D || n == 0x20
    || n == 0xA0 || n == 0x1680 || (0x2000 <= n <= 0x200A)
    || n == 0x2028 || n == 0x2029 || n == 0x202F || n == 0x205F
    || n == 0x3000 || n == 0xFEFF
  }

  /** Drops the leading trimmable characters: the result is a suffix of the
      input that does not start with one, and everything dropped was one. */
  function TrimStart(s: string): (r: string)
    ensures |r| <= |s| && r == s[|s| - |r|..]
    ensures r == [] || !IsTrimmable(r[0])
    ensures forall i :: 0 <= i < |s| - |r| ==> IsTrimmable(s[i])
  {
    if |s| > 0 && IsTrimmable(s[0]) then
      var r := TrimStart(s[1..]);
      assert forall i :: 1 <= i < |s| - |r| ==> s[i] == s[1..][i - 1];
      r
    else s
  }

  /** Drops the trailing trimmable characters: the result is a prefix of the
      input that does not end with one, and everything dropped was one. */
  function TrimEnd(s: string): (r: string)
    ensures |r| <= |s| && r == s[..|r|]
    ensures r == [] || !IsTrimmable(r[|r| - 1])
    ensures forall i :: |r| <= i < |s| ==> IsTrimmable(s[i])
  {
    if |s| > 0 && IsTrimmable(s[|s| - 1]) then TrimEnd(s[..|s| - 1]) else s
  }

  /** `r` is the part of `s` that starts at offset `i`, and every character
      of `s` before or after it is trimmable. */
  predicate TrimmedAt(s: string, i: nat, r: string) {
    i + |r| <= |s| && r == s[i..i + |r|]
    && (forall k :: 0 <= k < i ==> IsTrimmable(s[k]))
    && (forall k :: i + |r| <= k < |s| ==> IsTrimmable(s[k]))
  }

  /** `s.trim()`: the middle of the input, with only trimmable characters
      dropped at either end and neither end trimmable any more. */
  function Trim(s: string): (r: string)
    ensures |r| <= |s|
    ensures r == [] || (!IsTrimmable(r[0]) && !IsTrimmable(r[|r| - 1]))
    ensures exists i :: TrimmedAt(s, i, r)
  {
    TrimmedMiddle(s);
    TrimEnd(TrimStart(s))
  }

  /** Trimming both ends keeps a middle part of the input: the offset is the
      number of leading characters dropped. */
  lemma TrimmedMiddle(s: string)
    ensures TrimmedAt(s, |s| - |TrimStart(s)|, TrimEnd(TrimStart(s)))
  {
    var t := TrimStart(s);
    var i := |s| - |t|;
    assert TrimmedAt(s, i, t) by {
      assert s[i..i + |t|] == s[i..];
    }
    var r := TrimEnd(t);
    assert TrimmedAt(t, 0, r) by {
      assert t[0..0 + |r|] == t[..|r|];
    }
    TrimmedAtCompose(s, i, t, r);
  }

  /** A middle part of a middle part is a middle part. */
  lemma TrimmedAtCompose(s: string, i: nat, t: string, r: string)
    requires TrimmedAt(s, i, t) && TrimmedAt(t, 0, r)
    ensures TrimmedAt(s, i, r)
  {
    assert r == s[i..i + |r|] by {
      forall k | 0 <= k < |r|
        ensures r[k] == s[i + k]
      {
        assert r[k] == t[k] == s[i + k];
      }
    }
    forall k | i + |r| <= k < |s|
      ensures IsTrimmable(s[k])
    {
      if k < i + |t| {
        assert s[k] == t[k - i];
      }
    }
  }

  /** `!s.trim()`: the trimmed string is empty, hence falsy. */
  predicate IsBlank(s: string) {
    Trim(s) == []
  }

  /** A string is blank exactly when every character of it is trimmable. */
  lemma BlankIffAllTrimmable(s: string)
    ensures IsBlank(s) <==> forall i :: 0 <= i < |s| ==> IsTrimmable(s[i])
  {
    var t := TrimStart(s);
    if t != [] {
      assert t[0] == s[|s| - |t|];
    }
  }
}
