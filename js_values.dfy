/**
  The few JavaScript value semantics the GreenSpin widget relies on:
  a field that may be `null` or, when a JSON body lacks it, `undefined`;
  the truthiness test that `x && ...` performs on such a string; the
  nullish default `x ?? ""`; and `String.prototype.trim` as ECMA-262
  defines it (WhiteSpace and LineTerminator code points removed from
  both ends).
 */
module JsValues {

  datatype Option<+T> = None | Some(value: T)

  /** A JavaScript value of type `T | null`, which at run time may also be
      `undefined` when it was read from a JSON object lacking the key. */
  datatype JsNullable<+T> = Undefined | Null | Val(v: T)

  /** `x && ...` on a `string | null`: only a non-empty string is truthy. */
  predicate Truthy(x: JsNullable<string>)
  {
    x.Val? && x.v != ""
  }

  /** `x ?? ""`: the string itself, or "" for `null` and `undefined`. */
  function OrEmpty(x: JsNullable<string>): (r: string)
    ensures x.Val? ==> r == x.v
    ensures !x.Val? ==> r == ""
  {
    match x
    case Val(s) => s
    case _ => ""
  }

  /** The code points ECMA-262 counts as WhiteSpace (TAB, VT, FF, ZWNBSP and
      every space separator) or LineTerminator (LF, CR, LS, PS). */
  predicate IsWhitespace(c: char)
  {
    c == '\t' || c == '\n' || c == '\U{000B}' || c == '\U{000C}' || c == '\r'
    || c == ' ' || c == '\U{00A0}' || c == '\U{1680}'
    || ('\U{2000}' <= c <= '\U{200A}')
    || c == '\U{2028}' || c == '\U{2029}' || c == '\U{202F}' || c == '\U{205F}'
    || c == '\U{3000}' || c == '\U{FEFF}'
  }

  /** Removes the leading whitespace: the result is the suffix of `s` that
      starts at its first non-whitespace character. */
  function TrimStart(s: string): (r: string)
    ensures |r| <= |s| && r == s[|s| - |r|..]
    ensures forall i :: 0 <= i < |s| - |r| ==> IsWhitespace(s[i])
    ensures r != [] ==> !IsWhitespace(r[0])
  {
    if s != [] && IsWhitespace(s[0]) then TrimStart(s[1..]) else s
  }

  /** Removes the trailing whitespace: the result is the prefix of `s` that
      ends at its last non-whitespace character. */
  function TrimEnd(s: string): (r: string)
    ensures |r| <= |s| && r == s[..|r|]
    ensures forall i :: |r| <= i < |s| ==> IsWhitespace(s[i])
    ensures r != [] ==> !IsWhitespace(r[|r| - 1])
  {
    if s != [] && IsWhitespace(s[|s| - 1]) then TrimEnd(s[..|s| - 1]) else s
  }

  /** `s.trim()`: a contiguous slice `s[lo..hi]` of `s` with only whitespace
      outside it and no whitespace at either of its ends. */
  function Trim(s: string): (r: string)
    ensures exists lo, hi ::
              0 <= lo <= hi <= |s| && r == s[lo..hi]
              && (forall i :: 0 <= i < lo ==> IsWhitespace(s[i]))
              && (forall i :: hi <= i < |s| ==> IsWhitespace(s[i]))
    ensures r != [] ==> !IsWhitespace(r[0]) && !IsWhitespace(r[|r| - 1])
  {
    var t := TrimStart(s);
    var r := TrimEnd(t);
    var lo := |s| - |t|;
    assert r == s[lo..lo + |r|];
    assert forall i :: lo + |r| <= i < |s| ==> s[i] == t[i - lo];
    r
  }

  /** `!s.trim()` holds exactly when every character of `s` is whitespace. */
  lemma TrimEmptyIff(s: string)
    ensures Trim(s) == [] <==> forall i :: 0 <= i < |s| ==> IsWhitespace(s[i])
  {
  }
}
