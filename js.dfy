/** The small part of JavaScript's value semantics the handlers depend on:
    absent request fields, truthiness, String.prototype.trim and the
    UTF-16 length that String.prototype.length reports. */
module Js {

  datatype Option<+T> = None | Some(value: T)

  /** A submitted form field: `undefined` (absent) or a string. */
  type Field = Option<string>

  /** `!!field`: undefined and the empty string are falsy, every other string is truthy. */
  predicate FieldTruthy(f: Field) {
    f.Some? && f.value != ""
  }

  /** `!!flag` for a property that is a boolean or is absent. */
  predicate Truthy(b: Option<bool>) {
    b == Some(true)
  }

  /** The code points trim() removes: ECMAScript WhiteSpace (TAB, VT, FF, ZWNBSP
      and every Unicode "Zs" space) and LineTerminator (LF, CR, LS, PS). */
  predicate IsJsWhitespace(c: char) {
    || c == '\t' || c == '\n' || c == '\U{000B}' || c == '\U{000C}' || c == '\r'
    || c == ' ' || c == '\U{00A0}' || c == '\U{1680}'
    || ('\U{2000}' <= c <= '\U{200A}')
    || c == '\U{2028}' || c == '\U{2029}' || c == '\U{202F}' || c == '\U{205F}'
    || c == '\U{3000}' || c == '\U{FEFF}'
  }

  /** The index of the first non-whitespace character at or after `i`
      (`|s|` when there is none). */
  function SkipWhitespace(s: string, i: nat): (r: nat)
    requires i <= |s|
    ensures i <= r <= |s|
    ensures forall k :: i <= k < r ==> IsJsWhitespace(s[k])
    ensures r < |s| ==> !IsJsWhitespace(s[r])
    decreases |s| - i
  {
    if i < |s| && IsJsWhitespace(s[i]) then SkipWhitespace(s, i + 1) else i
  }

  /** The end of `s[lo..j]` once its trailing whitespace is dropped. */
  function SkipWhitespaceBack(s: string, lo: nat, j: nat): (r: nat)
    requires lo <= j <= |s|
    ensures lo <= r <= j
    ensures forall k :: r <= k < j ==> IsJsWhitespace(s[k])
    ensures lo < r ==> !IsJsWhitespace(s[r - 1])
  {
    if lo < j && IsJsWhitespace(s[j - 1]) then SkipWhitespaceBack(s, lo, j - 1) else j
  }

  /** String.prototype.trim: removes the leading and the trailing whitespace. */
  function Trim(s: string): string {
    var a := SkipWhitespace(s, 0);
    s[a..SkipWhitespaceBack(s, a, |s|)]
  }

  /** trim() keeps exactly the stretch `s[a..b]` between the first and the last
      non-whitespace character; everything outside it is whitespace. */
  lemma TrimBounds(s: string) returns (a: nat, b: nat)
    ensures a <= b <= |s| && Trim(s) == s[a..b]
    ensures forall k :: 0 <= k < a ==> IsJsWhitespace(s[k])
    ensures forall k :: b <= k < |s| ==> IsJsWhitespace(s[k])
    ensures a < b ==> !IsJsWhitespace(s[a]) && !IsJsWhitespace(s[b - 1])
  {
    a := SkipWhitespace(s, 0);
    b := SkipWhitespaceBack(s, a, |s|);
  }

  /** Number of UTF-16 code units of one code point: two for a code point
      outside the Basic Multilingual Plane (a surrogate pair), one otherwise. */
  function Utf16Units(c: char): nat {
    if c as int > 0xFFFF then 2 else 1
  }

  /** String.prototype.length, which counts UTF-16 code units, not code points. */
  function Utf16Length(s: string): nat {
    if s == [] then 0 else Utf16Units(s[0]) + Utf16Length(s[1..])
  }

  lemma {:induction false} Utf16LengthAppend(x: string, y: string)
    ensures Utf16Length(x + y) == Utf16Length(x) + Utf16Length(y)
  {
    if x == [] {
      assert x + y == y;
    } else {
      assert (x + y)[1..] == x[1..] + y;
      Utf16LengthAppend(x[1..], y);
    }
  }

  /** A code point counts one or two code units, so the UTF-16 length lies
      between the number of code points and twice that number. */
  lemma {:induction false} Utf16LengthBounds(s: string)
    ensures |s| <= Utf16Length(s) <= 2 * |s|
  {
    if s != [] {
      Utf16LengthBounds(s[1..]);
    }
  }

  /** A stretch inside a longer stretch of the same string is no longer in UTF-16 units. */
  lemma Utf16LengthSlice(s: string, a: nat, i: nat, j: nat, b: nat)
    requires a <= i <= j <= b <= |s|
    ensures Utf16Length(s[i..j]) <= Utf16Length(s[a..b])
  {
    assert s[a..b] == s[a..i] + (s[i..j] + s[j..b]);
    Utf16LengthAppend(s[a..i], s[i..j] + s[j..b]);
    Utf16LengthAppend(s[i..j], s[j..b]);
  }

  /** `s` has a stretch of at least `n` UTF-16 units that starts and ends with a
      non-whitespace character. */
  ghost predicate HasCoreSpan(s: string, n: nat) {
    exists i, j :: 0 <= i < j <= |s| && !IsJsWhitespace(s[i]) && !IsJsWhitespace(s[j - 1])
                   && Utf16Length(s[i..j]) >= n
  }

  /** `s.trim().length >= n` holds exactly when `s` contains a non-whitespace-bounded
      stretch of at least `n` code units (for any positive `n`). */
  lemma TrimmedLengthAtLeast(s: string, n: nat)
    requires n > 0
    ensures Utf16Length(Trim(s)) >= n <==> HasCoreSpan(s, n)
  {
    var a, b := TrimBounds(s);
    if Utf16Length(Trim(s)) >= n {
      assert a < b;
      assert Utf16Length(s[a..b]) >= n;
    }
    if HasCoreSpan(s, n) {
      var i, j :| 0 <= i < j <= |s| && !IsJsWhitespace(s[i]) && !IsJsWhitespace(s[j - 1])
                  && Utf16Length(s[i..j]) >= n;
      assert a <= i;
      assert j <= b;
      Utf16LengthSlice(s, a, i, j, b);
    }
  }
}
