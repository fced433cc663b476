/**
 * The PHP string built-ins the review engine relies on (`pathinfo`,
 * `dirname`, `basename`, `str_replace`, `implode`, `str_repeat`, string
 * truthiness), on strings seen as sequences of characters.
 */
module Php {
  import opened Wrappers

  /** Index of the last occurrence of `c` in `s`, or -1 when `c` does not occur. */
  function LastIndex(s: string, c: char): (r: int)
    ensures -1 <= r < |s|
    ensures r >= 0 ==> s[r] == c
    ensures forall j :: r < j < |s| ==> s[j] != c
  {
    if s == [] then -1
    else if s[|s| - 1] == c then |s| - 1
    else LastIndex(s[..|s| - 1], c)
  }

  /** The last occurrence of `c` is the position after which `c` no longer occurs. */
  lemma LastIndexIs(s: string, c: char, k: nat)
    requires k < |s| && s[k] == c
    requires forall j :: k < j < |s| ==> s[j] != c
    ensures LastIndex(s, c) == k
  {
  }

  lemma NotAfter(s: string, c: char, t: string)
    requires c !in t
    ensures forall j :: |s| < j < |s + [c] + t| ==> (s + [c] + t)[j] != c
  {
    var p := s + [c] + t;
    forall j | |s| < j < |p| ensures p[j] != c {
      assert p[j] == t[j - |s| - 1];
    }
  }

  /** In `s`, `c`, `t` with no `c` in `t`, the last `c` is the one between. */
  lemma LastIndexBefore(s: string, c: char, t: string)
    requires c !in t
    ensures LastIndex(s + [c] + t, c) == |s|
  {
    NotAfter(s, c, t);
    var p := s + [c] + t;
    assert p[|s|] == c;
    LastIndexIs(p, c, |s|);
  }

  /** `basename($p)`: what follows the last slash. */
  function Basename(p: string): (b: string)
    ensures '/' !in b
    ensures |b| <= |p| && p[|p| - |b|..] == b
    ensures LastIndex(p, '/') == |p| - |b| - 1
  {
    p[LastIndex(p, '/') + 1..]
  }

  /** A path without a slash is its own base name. */
  lemma NoSlashBasename(p: string)
    requires '/' !in p
    ensures Basename(p) == p
  {
    assert LastIndex(p, '/') == -1;
  }

  /** `dirname($p)`: what precedes the last slash; "/" at the root, "." without a slash. */
  function Dirname(p: string): string
  {
    var i := LastIndex(p, '/');
    if i < 0 then "." else if i == 0 then "/" else p[..i]
  }

  /** The four parts `pathinfo()` reports; `extension` is absent when the base name has no dot. */
  datatype PathInfo = PathInfo(dirname: string, basename: string, extension: Option<string>, filename: string)

  function Pathinfo(p: string): (info: PathInfo)
    ensures info.dirname == Dirname(p) && info.basename == Basename(p)
    ensures info.extension.None? ==> '.' !in info.basename && info.filename == info.basename
    ensures info.extension.Some? ==>
              '.' !in info.extension.value && info.basename == info.filename + "." + info.extension.value
  {
    var b := Basename(p);
    var d := LastIndex(b, '.');
    if d < 0 then PathInfo(Dirname(p), b, None, b)
    else PathInfo(Dirname(p), b, Some(b[d + 1..]), b[..d])
  }

  /** `search` occurs in `s` at position `i`. */
  predicate OccursAt(search: string, s: string, i: nat)
  {
    i + |search| <= |s| && s[i..i + |search|] == search
  }

  /**
   * `str_replace($search, $replace, $subject)`: every non-overlapping
   * occurrence of `search`, scanning left to right, becomes `replace`; an
   * empty `search` leaves the subject as it is.
   */
  function StrReplace(search: string, replace: string, subject: string): string
    decreases |subject|
  {
    if search == [] || |subject| < |search| then subject
    else if subject[..|search|] == search then replace + StrReplace(search, replace, subject[|search|..])
    else [subject[0]] + StrReplace(search, replace, subject[1..])
  }

  /** A subject in which `search` never occurs comes back unchanged. */
  lemma {:induction false} StrReplaceAbsent(search: string, replace: string, subject: string)
    requires forall i: nat :: !OccursAt(search, subject, i)
    ensures StrReplace(search, replace, subject) == subject
    decreases |subject|
  {
    if search != [] && |subject| >= |search| {
      assert !OccursAt(search, subject, 0);
      assert subject[0..|search|] == subject[..|search|];
      forall i: nat ensures !OccursAt(search, subject[1..], i) {
        assert !OccursAt(search, subject, i + 1);
        if i + |search| <= |subject[1..]| {
          assert subject[1..][i..i + |search|] == subject[i + 1..i + 1 + |search|];
        }
      }
      StrReplaceAbsent(search, replace, subject[1..]);
    }
  }

  /** A subject that starts with `search` gets `replace` in front of the rest, replaced in turn. */
  lemma StrReplaceLeading(search: string, replace: string, rest: string)
    requires search != []
    ensures StrReplace(search, replace, search + rest) == replace + StrReplace(search, replace, rest)
  {
    assert (search + rest)[..|search|] == search;
    assert (search + rest)[|search|..] == rest;
  }

  /** `implode($sep, $parts)`. */
  function Implode(sep: string, parts: seq<string>): string
  {
    if parts == [] then "" else if |parts| == 1 then parts[0] else parts[0] + sep + Implode(sep, parts[1..])
  }

  /** The text a sequence of writes leaves in a buffer, in order. */
  function Concat(chunks: seq<string>): string
  {
    if chunks == [] then "" else Concat(chunks[..|chunks| - 1]) + chunks[|chunks| - 1]
  }

  /** `str_repeat($c, $n)` for a single character. */
  function Repeat(c: char, n: nat): (r: string)
    ensures |r| == n && forall i :: 0 <= i < n ==> r[i] == c
  {
    seq(n, _ => c)
  }

  /** A string is true in a PHP condition unless it is "" or "0". */
  predicate Truthy(s: string)
  {
    s != "" && s != "0"
  }
}
