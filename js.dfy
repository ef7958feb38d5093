/**
 * The few JavaScript value and string operations the registration code relies on:
 * truthiness, template-literal conversion, `substring`, first-occurrence `replace`
 * with an empty replacement, and `toLowerCase` on ASCII text.
 */
module Js {
  /**
   * A JSON field as the code sees it: absent, null, a string, or some other value
   * (number, boolean, object) of which only its truthiness and its `String(...)`
   * text matter. Only strings have `substring` and `replace`.
   */
  datatype JsValue = Undefined | Null | Str(s: string) | Other(truthy: bool, text: string)

  /** JavaScript truthiness; the empty string is falsy. */
  predicate Truthy(v: JsValue)
  {
    match v
    case Undefined => false
    case Null => false
    case Str(s) => s != ""
    case Other(t, _) => t
  }

  /** The text a template literal `${v}` inserts for v. */
  function ToText(v: JsValue): (t: string)
    ensures v.Str? ==> t == v.s
    ensures v.Undefined? ==> t == "undefined"
    ensures v.Null? ==> t == "null"
  {
    match v
    case Undefined => "undefined"
    case Null => "null"
    case Str(s) => s
    case Other(_, text) => text
  }

  function Min(a: int, b: int): int { if a <= b then a else b }

  /** An index argument of `substring`, clamped into [0, len]. */
  function Clamp(i: int, len: nat): (c: nat)
    ensures c <= len
  {
    if i < 0 then 0 else if i > len then len else i
  }

  /**
   * `s.substring(start, end)`: both arguments are clamped into [0, |s|] and, if the
   * first exceeds the second, swapped; the result is the text between them.
   */
  function Substring(s: string, start: int, end: int): (r: string)
    ensures |r| <= |s|
    ensures 0 <= start <= end ==> r == s[Min(start, |s|)..Min(end, |s|)]
  {
    var a, b := Clamp(start, |s|), Clamp(end, |s|);
    if a <= b then s[a..b] else s[b..a]
  }

  lemma SubstringSwaps(s: string, start: int, end: int)
    ensures Substring(s, start, end) == Substring(s, end, start)
  {
  }

  /** pattern occurs in s at index i. */
  predicate OccursAt(s: string, pattern: string, i: nat)
  {
    i + |pattern| <= |s| && s[i..i + |pattern|] == pattern
  }

  /** The first index at or after from where pattern occurs, or -1 (`indexOf`). */
  function IndexOfFrom(s: string, pattern: string, from: nat): (k: int)
    requires from <= |s|
    decreases |s| - from
    ensures k == -1 || from <= k <= |s|
    ensures k >= 0 ==> OccursAt(s, pattern, k)
    ensures forall j :: from <= j < (if k < 0 then |s| + 1 else k) ==> !OccursAt(s, pattern, j)
  {
    if OccursAt(s, pattern, from) then from
    else if from == |s| then -1
    else IndexOfFrom(s, pattern, from + 1)
  }

  function IndexOf(s: string, pattern: string): (k: int)
    ensures k == -1 || 0 <= k <= |s|
    ensures k == -1 <==> forall j :: 0 <= j <= |s| ==> !OccursAt(s, pattern, j)
    ensures k >= 0 ==> OccursAt(s, pattern, k) && forall j :: 0 <= j < k ==> !OccursAt(s, pattern, j)
  {
    IndexOfFrom(s, pattern, 0)
  }

  /** `s.replace(pattern, "")`: removes the first occurrence of pattern, if any. */
  function RemoveFirst(s: string, pattern: string): (r: string)
    ensures IndexOf(s, pattern) == -1 ==> r == s
    ensures IndexOf(s, pattern) >= 0 ==> |r| == |s| - |pattern|
  {
    var k := IndexOf(s, pattern);
    if k < 0 then s else s[..k] + s[k + |pattern|..]
  }

  /** Removing a leading occurrence leaves exactly what follows it. */
  lemma RemoveFirstOfPrefixed(pattern: string, rest: string)
    ensures RemoveFirst(pattern + rest, pattern) == rest
  {
    assert OccursAt(pattern + rest, pattern, 0);
    assert (pattern + rest)[|pattern|..] == rest;
  }

  /** Text that does not contain the pattern is left as it is. */
  lemma RemoveFirstAbsent(s: string, pattern: string)
    requires forall j :: 0 <= j <= |s| ==> !OccursAt(s, pattern, j)
    ensures RemoveFirst(s, pattern) == s
  {
  }

  /** With its first occurrence at k, the pattern is cut out at k. */
  lemma RemoveFirstAt(s: string, pattern: string, k: nat)
    requires OccursAt(s, pattern, k)
    requires forall j :: 0 <= j < k ==> !OccursAt(s, pattern, j)
    ensures RemoveFirst(s, pattern) == s[..k] + s[k + |pattern|..]
  {
    var i := IndexOf(s, pattern);
    assert i != -1;
    assert !(i < k) && !(k < i);
  }

  /** The occurrence removed need not be at the front. */
  lemma RemoveFirstNotAnchored()
    ensures RemoveFirst("x-did:io:y", "did:io:") == "x-y"
  {
    var s := "x-did:io:y";
    assert s[2..9] == "did:io:";
    assert s[0..7][0] == 'x' && s[1..8][0] == '-';
    RemoveFirstAt(s, "did:io:", 2);
    assert s[..2] + s[9..] == "x-y";
  }

  /** Only the first occurrence goes. */
  lemma RemoveFirstOnlyFirst()
    ensures RemoveFirst("did:io:did:io:y", "did:io:") == "did:io:y"
  {
    var t := "did:io:did:io:y";
    assert t[0..7] == "did:io:";
    RemoveFirstAt(t, "did:io:", 0);
    assert t[7..] == "did:io:y";
  }

  function LowerChar(c: char): (l: char)
  {
    if 'A' <= c <= 'Z' then (c as int - 'A' as int + 'a' as int) as char else c
  }

  /** `toLowerCase` on ASCII text: upper-case Latin letters become lower case. */
  function ToLower(s: string): (r: string)
    ensures |r| == |s|
  {
    if s == [] then [] else [LowerChar(s[0])] + ToLower(s[1..])
  }

  /** Each character of the lower-cased text is the lower case of the character at its place. */
  lemma {:induction false} ToLowerAt(s: string)
    ensures forall i :: 0 <= i < |s| ==> ToLower(s)[i] == LowerChar(s[i])
  {
    if s != [] {
      ToLowerAt(s[1..]);
    }
  }

  lemma ToLowerIdempotent(s: string)
    ensures ToLower(ToLower(s)) == ToLower(s)
  {
  }

  /** The comparison `a.toLowerCase() == b.toLowerCase()`. */
  predicate EqualsIgnoringCase(a: string, b: string)
  {
    ToLower(a) == ToLower(b)
  }

  /** Case-insensitive equality is an equivalence that ignores only letter case. */
  lemma EqualsIgnoringCaseMeaning(a: string, b: string)
    ensures EqualsIgnoringCase(a, b) <==>
      |a| == |b| && forall i :: 0 <= i < |a| ==> LowerChar(a[i]) == LowerChar(b[i])
  {
    ToLowerAt(a);
    ToLowerAt(b);
    if |a| == |b| && forall i :: 0 <= i < |a| ==> LowerChar(a[i]) == LowerChar(b[i]) {
      assert forall i :: 0 <= i < |a| ==> ToLower(a)[i] == ToLower(b)[i];
    }
  }
}
