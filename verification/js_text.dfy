/**
 * The few pieces of the JavaScript string library that the page script relies on:
 * the `\s` character class (which is also what `String.prototype.trim` strips),
 * `trim` and `substring`; plus `IndexOf`, a first-match search that the model
 * uses for the `@` of an e-mail address and for `querySelector`'s first match.
 */
module JsText {

  /**
   * JavaScript's white space: the WhiteSpace and LineTerminator code points of
   * ECMAScript (tab, line tabulation, form feed, space, no-break space, the byte
   * order mark, the Unicode space separators, line feed, carriage return, and the
   * line and paragraph separators). The regular-expression class `\s` and `trim()`
   * both use exactly this set.
   */
  predicate IsSpace(c: char) {
    || c == '\t' || c == '\n' || c == '\U{0B}' || c == '\U{0C}' || c == '\r'
    || c == ' ' || c == '\U{A0}' || c == '\U{1680}'
    || ('\U{2000}' <= c <= '\U{200A}')
    || c == '\U{2028}' || c == '\U{2029}' || c == '\U{202F}' || c == '\U{205F}'
    || c == '\U{3000}' || c == '\U{FEFF}'
  }

  /** Every character of `s` is white space. */
  predicate AllSpace(s: string) {
    forall i | 0 <= i < |s| :: IsSpace(s[i])
  }

  /** No character of `s` is white space. */
  predicate NoSpace(s: string) {
    forall i | 0 <= i < |s| :: !IsSpace(s[i])
  }

  /** `s` with its leading white space removed. */
  function TrimStart(s: string): (r: string)
    ensures |r| <= |s| && r == s[|s| - |r|..]
    ensures r == [] || !IsSpace(r[0])
    ensures AllSpace(s[..|s| - |r|])
  {
    if s != [] && IsSpace(s[0]) then
      var r := TrimStart(s[1..]);
      assert s[1..][..|s| - 1 - |r|] == s[1..|s| - |r|];
      r
    else
      s
  }

  /** `s` with its trailing white space removed. */
  function TrimEnd(s: string): (r: string)
    ensures |r| <= |s| && r == s[..|r|]
    ensures r == [] || !IsSpace(r[|r| - 1])
    ensures AllSpace(s[|r|..])
  {
    if s != [] && IsSpace(s[|s| - 1]) then
      var r := TrimEnd(s[..|s| - 1]);
      assert s[..|s| - 1][|r|..] + [s[|s| - 1]] == s[|r|..];
      r
    else
      s
  }

  /**
   * `String.prototype.trim`: white space removed from both ends. The result
   * neither starts nor ends with white space, and it is empty exactly when `s`
   * is all white space; `TrimIsSlice` shows that only white space is cut away.
   */
  function Trim(s: string): (r: string)
    ensures |r| <= |s|
    ensures r == [] || (!IsSpace(r[0]) && !IsSpace(r[|r| - 1]))
    ensures r == [] <==> AllSpace(s)
  {
    var t := TrimStart(s);
    var r := TrimEnd(t);
    assert r == [] ==> s == s[..|s| - |t|] + t[|r|..];
    r
  }

  /** What `Trim` keeps is one slice of `s`; what it cuts away is white space. */
  lemma TrimIsSlice(s: string)
    ensures exists a :: 0 <= a <= |s| - |Trim(s)| && Trim(s) == s[a..a + |Trim(s)|]
                        && AllSpace(s[..a]) && AllSpace(s[a + |Trim(s)|..])
  {
    var t := TrimStart(s);
    var r := TrimEnd(t);
    var a := |s| - |t|;
    assert r == s[a..a + |r|];
    assert s[a + |r|..] == t[|r|..];
  }

  /** A string that neither starts nor ends with white space is left as it is. */
  lemma TrimUnpadded(s: string)
    requires s == [] || (!IsSpace(s[0]) && !IsSpace(s[|s| - 1]))
    ensures Trim(s) == s
  {
  }

  /** Removing white space a second time removes nothing more. */
  lemma TrimIdempotent(s: string)
    ensures Trim(Trim(s)) == Trim(s)
  {
    TrimUnpadded(Trim(s));
  }

  /**
   * A character outside the Basic Multilingual Plane. JavaScript strings are
   * sequences of UTF-16 code units, and such a character takes two of them (a
   * surrogate pair).
   */
  predicate IsAstral(c: char) {
    c > '\U{FFFF}'
  }

  /**
   * `String.prototype.length`: the number of UTF-16 code units, one for each
   * character of the Basic Multilingual Plane and two for each astral one. It
   * equals the number of characters exactly when there is no astral character.
   */
  function Utf16Length(s: string): (r: nat)
    ensures |s| <= r <= 2 * |s|
    ensures r == |s| <==> forall i | 0 <= i < |s| :: !IsAstral(s[i])
    ensures r == 2 * |s| <==> forall i | 0 <= i < |s| :: IsAstral(s[i])
  {
    if s == [] then 0
    else (if IsAstral(s[0]) then 2 else 1) + Utf16Length(s[1..])
  }

  /**
   * The position of the first element of `s` equal to `x`, or `|s|` when there
   * is none; callers test the answer against the length before using it as an
   * index.
   */
  function IndexOf<T(==)>(s: seq<T>, x: T): (r: nat)
    ensures r <= |s|
    ensures r < |s| ==> s[r] == x
    ensures forall i | 0 <= i < r :: s[i] != x
    ensures r == |s| <==> x !in s
  {
    if s == [] then 0
    else if s[0] == x then 0
    else 1 + IndexOf(s[1..], x)
  }

  /**
   * `String.prototype.substring(start, end)`: both bounds are clamped into
   * `[0, |s|]` and swapped when given in the wrong order.
   */
  function Substring(s: string, start: int, end: int): (r: string)
    ensures 0 <= start <= end <= |s| ==> r == s[start..end]
    ensures |r| <= |s|
  {
    var a := if start < 0 then 0 else if start > |s| then |s| else start;
    var b := if end < 0 then 0 else if end > |s| then |s| else end;
    if a <= b then s[a..b] else s[b..a]
  }
}
