/** Shared vocabulary of the storefront model: optional values, the outcome of
    a server call, and the few JavaScript string and array operations the
    components rely on (truthiness, `trim`, `toLowerCase`, `includes`,
    `filter`). */
module Common {

  /** A value that may be absent (`null` / `undefined` in the source). */
  datatype Option<+T> = None | Some(value: T) {

    /** The value, or `default` when absent. */
    function GetOr(default: T): T {
      match this
      case Some(v) => v
      case None => default
    }
  }

  /** Why a server call failed: no response reached the client, or the server
      answered with an HTTP error status. */
  datatype Failure = NoResponse | HttpStatus(code: int)

  /** The outcome of one server call, supplied to the model as an input in
      place of the network. */
  datatype Response<+T> = Ok(data: T) | Err(failure: Failure)

  /** `err.response?.status === 401`. */
  predicate Unauthorized(f: Failure) {
    f.HttpStatus? && f.code == 401
  }

  /** Browser key/value storage (`localStorage`, `sessionStorage`). */
  type Storage = map<string, string>

  /** `storage.getItem(key)` used as a condition: a missing key and the empty
      string are both falsy. */
  predicate StoredTruthy(st: Storage, key: string) {
    key in st && st[key] != ""
  }

  /** `p` occurs in `s` starting at offset `i`. */
  predicate OccursAt(s: string, p: string, i: int) {
    0 <= i <= |s| - |p| && s[i..i + |p|] == p
  }

  // ---------------------------------------------------------------------
  // String.prototype.trim

  /** The characters `trim` removes: ECMAScript WhiteSpace (including every
      space separator) and LineTerminator. */
  predicate IsSpace(c: char) {
    || c == '\t' || c == '\n' || c == '\U{000B}' || c == '\U{000C}' || c == '\r'
    || c == ' ' || c == '\U{00A0}' || c == '\U{1680}'
    || ('\U{2000}' <= c <= '\U{200A}')
    || c == '\U{2028}' || c == '\U{2029}' || c == '\U{202F}' || c == '\U{205F}'
    || c == '\U{3000}' || c == '\U{FEFF}'
  }

  /** Every character of `s` is white space (vacuously true of ""). */
  predicate Blank(s: string) {
    forall i :: 0 <= i < |s| ==> IsSpace(s[i])
  }

  /** `s` without its leading white space. */
  function TrimStart(s: string): (r: string)
    ensures |r| <= |s| && r == s[|s| - |r|..]
    ensures forall i :: 0 <= i < |s| - |r| ==> IsSpace(s[i])
    ensures r == [] || !IsSpace(r[0])
  {
    if |s| > 0 && IsSpace(s[0]) then
      var r := TrimStart(s[1..]);
      assert forall i :: 1 <= i < |s| - |r| ==> s[i] == s[1..][i - 1];
      r
    else s
  }

  /** `s` without its trailing white space. */
  function TrimEnd(s: string): (r: string)
    ensures |r| <= |s| && r == s[..|r|]
    ensures forall i :: |r| <= i < |s| ==> IsSpace(s[i])
    ensures r == [] || !IsSpace(r[|r| - 1])
  {
    if |s| > 0 && IsSpace(s[|s| - 1]) then
      var r := TrimEnd(s[..|s| - 1]);
      assert forall i :: |r| <= i < |s| - 1 ==> s[i] == s[..|s| - 1][i];
      r
    else s
  }

  /** `s.trim()`: the piece of `s` left after removing the white space at
      both ends. It neither starts nor ends with white space, only white
      space lies before and after it, and it is empty exactly when `s` is all
      white space. */
  function Trim(s: string): (r: string)
    ensures exists k :: OccursAt(s, r, k) && Blank(s[..k]) && Blank(s[k + |r|..])
    ensures r == [] || (!IsSpace(r[0]) && !IsSpace(r[|r| - 1]))
    ensures r == "" <==> Blank(s)
  {
    var t := TrimStart(s);
    var r := TrimEnd(t);
    TrimLeavesBlankEnds(s, t, r);
    BlankAfterSpaces(s, t);
    r
  }

  /** Cutting leading white space and then trailing white space leaves a
      piece of `s` with only white space on either side. */
  lemma TrimLeavesBlankEnds(s: string, t: string, r: string)
    requires |t| <= |s| && t == s[|s| - |t|..]
    requires forall i :: 0 <= i < |s| - |t| ==> IsSpace(s[i])
    requires |r| <= |t| && r == t[..|r|]
    requires forall i :: |r| <= i < |t| ==> IsSpace(t[i])
    ensures var k := |s| - |t|; OccursAt(s, r, k) && Blank(s[..k]) && Blank(s[k + |r|..])
  {
    var k := |s| - |t|;
    var before := s[..k];
    forall i | 0 <= i < |before| ensures IsSpace(before[i]) {
      assert before[i] == s[i];
    }
    var after := s[k + |r|..];
    assert after == t[|r|..];
    forall i | 0 <= i < |after| ensures IsSpace(after[i]) {
      assert after[i] == t[|r| + i];
    }
  }

  /** A string made of white space followed by a blank suffix is blank. */
  lemma BlankAfterSpaces(s: string, t: string)
    requires |t| <= |s| && t == s[|s| - |t|..]
    requires forall i :: 0 <= i < |s| - |t| ==> IsSpace(s[i])
    ensures Blank(t) ==> Blank(s)
  {
    if Blank(t) {
      forall i | |s| - |t| <= i < |s|
        ensures IsSpace(s[i])
      {
        assert s[i] == t[i - (|s| - |t|)];
      }
    }
  }

  // ---------------------------------------------------------------------
  // String.prototype.toLowerCase, restricted to ASCII letters

  function LowerChar(c: char): (d: char)
    ensures 'A' <= c <= 'Z' ==> d as int == c as int + 32
    ensures !('A' <= c <= 'Z') ==> d == c
    ensures !('A' <= d <= 'Z')
  {
    if 'A' <= c <= 'Z' then (c as int + 32) as char else c
  }

  /** `s.toLowerCase()` on the ASCII letters; every other character is kept. */
  function ToLower(s: string): (r: string)
    ensures |r| == |s|
    ensures forall i :: 0 <= i < |s| ==> r[i] == LowerChar(s[i])
    ensures forall i :: 0 <= i < |r| ==> !('A' <= r[i] <= 'Z')
  {
    seq(|s|, i requires 0 <= i < |s| => LowerChar(s[i]))
  }

  /** Lower-casing twice is lower-casing once. */
  lemma ToLowerIdempotent(s: string)
    ensures ToLower(ToLower(s)) == ToLower(s)
  {
  }

  // ---------------------------------------------------------------------
  // String.prototype.includes

  predicate StartsWith(s: string, p: string) {
    |p| <= |s| && s[..|p|] == p
  }

  /** `s.includes(p)`, written as a left-to-right scan: it succeeds exactly
      when `p` occurs at some offset of `s`. */
  function Contains(s: string, p: string): (b: bool)
    ensures b <==> exists i :: OccursAt(s, p, i)
    decreases |s|
  {
    if StartsWith(s, p) then
      assert OccursAt(s, p, 0);
      true
    else if |s| == 0 then
      assert forall i :: !OccursAt(s, p, i);
      false
    else
      ShiftOccurrence(s, p);
      Contains(s[1..], p)
  }

  /** When `p` is not a prefix of `s`, it occurs in `s` exactly when it occurs
      in the tail of `s`. */
  lemma ShiftOccurrence(s: string, p: string)
    requires |s| > 0 && !StartsWith(s, p)
    ensures (exists i :: OccursAt(s, p, i)) <==> (exists j :: OccursAt(s[1..], p, j))
  {
    if exists i :: OccursAt(s, p, i) {
      var i :| OccursAt(s, p, i);
      assert i != 0;
      assert OccursAt(s[1..], p, i - 1);
    }
    if exists j :: OccursAt(s[1..], p, j) {
      var j :| OccursAt(s[1..], p, j);
      assert s[1..][j..j + |p|] == s[j + 1..j + 1 + |p|];
      assert OccursAt(s, p, j + 1);
    }
  }

  /** Every string contains the empty string. */
  lemma ContainsEmpty(s: string)
    ensures Contains(s, "")
  {
    assert StartsWith(s, "");
  }

  // ---------------------------------------------------------------------
  // Array.prototype.filter

  /** `r` is `s` with some elements dropped and the rest kept in order
      (matched greedily from the left). */
  ghost predicate IsSubsequence<T>(r: seq<T>, s: seq<T>)
    decreases |s|
  {
    if r == [] then true
    else if s == [] then false
    else if r[0] == s[0] then IsSubsequence(r[1..], s[1..])
    else IsSubsequence(r, s[1..])
  }

  /** `s.filter(keep)`. */
  function Filter<T(!new)>(s: seq<T>, keep: T -> bool): (r: seq<T>)
    ensures |r| <= |s|
    ensures forall x :: x in r <==> x in s && keep(x)
    ensures forall x :: multiset(r)[x] == if keep(x) then multiset(s)[x] else 0
    ensures IsSubsequence(r, s)
  {
    if s == [] then []
    else
      var rest := Filter(s[1..], keep);
      assert s == [s[0]] + s[1..];
      if keep(s[0]) then
        assert ([s[0]] + rest)[1..] == rest;
        [s[0]] + rest
      else
        SubsequenceOfTail(rest, s);
        rest
  }

  /** The same first element may be put in front of a subsequence and of
      the sequence it is taken from. */
  lemma SubsequenceCons<T>(x: T, r: seq<T>, s: seq<T>)
    requires IsSubsequence(r, s)
    ensures IsSubsequence([x] + r, [x] + s)
  {
    assert ([x] + r)[1..] == r && ([x] + s)[1..] == s;
  }

  /** A subsequence of the tail is a subsequence of the whole. */
  lemma {:induction false} SubsequenceOfTail<T>(r: seq<T>, s: seq<T>)
    requires |s| > 0 && IsSubsequence(r, s[1..])
    ensures IsSubsequence(r, s)
    decreases |s|, 1
  {
    if r != [] && r[0] == s[0] {
      SubsequenceDropHead(r, s[1..]);
    }
  }

  /** Dropping the first element of a subsequence keeps it a subsequence. */
  lemma {:induction false} SubsequenceDropHead<T>(r: seq<T>, t: seq<T>)
    requires r != [] && IsSubsequence(r, t)
    ensures IsSubsequence(r[1..], t)
    decreases |t| + 1, 0
  {
    if r[0] == t[0] {
      if r[1..] != [] {
        SubsequenceOfTail(r[1..], t);
      }
    } else {
      SubsequenceDropHead(r, t[1..]);
      SubsequenceOfTail(r[1..], t);
    }
  }

  /** An element the filter rejects may be appended without changing the
      result. */
  lemma {:induction false} FilterAppendRejected<T(!new)>(s: seq<T>, x: T, keep: T -> bool)
    requires !keep(x)
    ensures Filter(s + [x], keep) == Filter(s, keep)
  {
    if s == [] {
      assert [] + [x] == [x];
      assert [x][1..] == [];
    } else {
      assert (s + [x])[1..] == s[1..] + [x];
      FilterAppendRejected(s[1..], x, keep);
    }
  }

  /** A filter that keeps everything returns its input. */
  lemma {:induction false} FilterAll<T(!new)>(s: seq<T>, keep: T -> bool)
    requires forall x :: x in s ==> keep(x)
    ensures Filter(s, keep) == s
  {
    if s != [] {
      FilterAll(s[1..], keep);
    }
  }

  /** Filters whose tests agree on every element give the same list. */
  lemma {:induction false} FilterCongruent<T(!new)>(s: seq<T>, keep1: T -> bool, keep2: T -> bool)
    requires forall x :: x in s ==> keep1(x) == keep2(x)
    ensures Filter(s, keep1) == Filter(s, keep2)
  {
    if s != [] {
      FilterCongruent(s[1..], keep1, keep2);
    }
  }
}
