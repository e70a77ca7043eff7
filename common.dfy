/**
 * Shared vocabulary: optional values, identifiers, and the few string and
 * array operations of JavaScript/MongoDB that the controllers rely on
 * (`String.includes`, `String.replace` with a string pattern,
 * `Array.indexOf` + `splice`, `$addToSet`, `$pull`).
 */
module Common {

  datatype Option<T> = None | Some(value: T)

  /** A MongoDB ObjectId, compared through its hexadecimal string form. */
  type UserId = string

  predicate IsHexDigit(c: char)
  {
    '0' <= c <= '9' || 'a' <= c <= 'f' || 'A' <= c <= 'F'
  }

  /**
   * The ODM's ObjectId check: 24 hexadecimal characters, or any 12-character
   * string. A string that fails it makes a query on an ObjectId path throw a
   * CastError.
   */
  predicate IsObjectId(s: string)
  {
    (|s| == 24 && forall i :: 0 <= i < |s| ==> IsHexDigit(s[i])) || |s| == 12
  }

  /** Does `t` occur in `s` starting at position `i`? */
  predicate OccursAt(s: string, t: string, i: nat)
  {
    i + |t| <= |s| && s[i..i + |t|] == t
  }

  /** First position at or after `from` where `t` occurs in `s` (JavaScript `indexOf`). */
  function IndexFrom(s: string, t: string, from: nat): (r: Option<nat>)
    decreases |s| - from
    ensures r.Some? ==> from <= r.value && OccursAt(s, t, r.value)
    ensures r.Some? ==> forall j :: from <= j < r.value ==> !OccursAt(s, t, j)
    ensures r.None? ==> forall j :: from <= j ==> !OccursAt(s, t, j)
  {
    if from + |t| > |s| then None
    else if s[from..from + |t|] == t then Some(from)
    else IndexFrom(s, t, from + 1)
  }

  function IndexOf(s: string, t: string): Option<nat>
  {
    IndexFrom(s, t, 0)
  }

  /** JavaScript `s.includes(t)`. */
  predicate Includes(s: string, t: string)
  {
    IndexOf(s, t).Some?
  }

  lemma IncludesAt(s: string, t: string, i: nat)
    requires OccursAt(s, t, i)
    ensures Includes(s, t)
  {
  }

  /** JavaScript `s.replace(pat, rep)` with a string pattern: only the first occurrence is replaced. */
  function ReplaceFirst(s: string, pat: string, rep: string): (r: string)
    ensures !Includes(s, pat) ==> r == s
    ensures Includes(s, pat) ==>
      var i := IndexOf(s, pat).value;
      r == s[..i] + rep + s[i + |pat|..] && |r| == |s| - |pat| + |rep|
  {
    match IndexOf(s, pat)
    case None => s
    case Some(i) => s[..i] + rep + s[i + |pat|..]
  }

  /** `String.prototype.startsWith`. */
  predicate StartsWith(s: string, prefix: string)
  {
    |prefix| <= |s| && s[..|prefix|] == prefix
  }

  /** A character of the regular-expression class `\w`. */
  predicate IsWordChar(c: char)
  {
    'a' <= c <= 'z' || 'A' <= c <= 'Z' || '0' <= c <= '9' || c == '_'
  }

  /** Characters of the regular-expression class `\s`. */
  predicate IsJsSpace(c: char)
  {
    || c == '\t' || c == '\n' || c == '\U{000B}' || c == '\U{000C}' || c == '\r' || c == ' '
    || c == '\U{00A0}' || c == '\U{1680}' || '\U{2000}' <= c <= '\U{200A}'
    || c == '\U{2028}' || c == '\U{2029}' || c == '\U{202F}' || c == '\U{205F}'
    || c == '\U{3000}' || c == '\U{FEFF}'
  }

  /** The characters a regular-expression `.` does not match. */
  predicate IsLineTerminator(c: char)
  {
    c == '\n' || c == '\r' || c == '\U{2028}' || c == '\U{2029}'
  }

  /** `s` without its leading `\s` characters. */
  function TrimStart(s: string): (r: string)
    ensures |r| <= |s|
  {
    if s != [] && IsJsSpace(s[0]) then TrimStart(s[1..]) else s
  }

  /** `s` without its trailing `\s` characters. */
  function TrimEnd(s: string): (r: string)
    ensures |r| <= |s|
  {
    if s != [] && IsJsSpace(s[|s| - 1]) then TrimEnd(s[..|s| - 1]) else s
  }

  /** TrimStart drops a prefix of white space and stops at the first other character. */
  lemma {:induction false} TrimStartFacts(s: string)
    ensures TrimStart(s) == s[|s| - |TrimStart(s)|..]
    ensures TrimStart(s) == [] || !IsJsSpace(TrimStart(s)[0])
    ensures forall i :: 0 <= i < |s| - |TrimStart(s)| ==> IsJsSpace(s[i])
  {
    if s != [] && IsJsSpace(s[0]) {
      TrimStartFacts(s[1..]);
    }
  }

  /** TrimEnd drops a suffix of white space and stops at the last other character. */
  lemma {:induction false} TrimEndFacts(s: string)
    ensures TrimEnd(s) == s[..|TrimEnd(s)|]
    ensures TrimEnd(s) == [] || !IsJsSpace(TrimEnd(s)[|TrimEnd(s)| - 1])
    ensures forall i :: |TrimEnd(s)| <= i < |s| ==> IsJsSpace(s[i])
  {
    if s != [] && IsJsSpace(s[|s| - 1]) {
      TrimEndFacts(s[..|s| - 1]);
    }
  }

  /**
   * `String.prototype.trim`, which Mongoose applies to a `trim: true` path
   * before validating it: white space and line terminators (the characters
   * of `\s`) are removed from both ends.
   */
  function Trim(s: string): (r: string)
    ensures |r| <= |s|
  {
    TrimEnd(TrimStart(s))
  }

  /**
   * The trimmed text neither starts nor ends with white space; it is empty
   * exactly when the text is all white space; a text with no white space at
   * either end is kept as it is; and trimming twice is trimming once.
   */
  lemma TrimFacts(s: string)
    ensures Trim(s) != [] ==> !IsJsSpace(Trim(s)[0]) && !IsJsSpace(Trim(s)[|Trim(s)| - 1])
    ensures Trim(s) == [] <==> forall i :: 0 <= i < |s| ==> IsJsSpace(s[i])
    ensures s != [] && !IsJsSpace(s[0]) && !IsJsSpace(s[|s| - 1]) ==> Trim(s) == s
    ensures Trim(Trim(s)) == Trim(s)
  {
    var t := TrimStart(s);
    var r := TrimEnd(t);
    TrimStartFacts(s);
    TrimEndFacts(t);
    if r != [] {
      assert r[0] == t[0];
    }
    TrimStartFacts(r);
    TrimEndFacts(r);
  }

  /** Index of the first occurrence of `x` in `s`, as `Array.prototype.indexOf` (which answers -1 when absent). */
  function FirstIndex<T(==)>(s: seq<T>, x: T): (r: int)
    ensures -1 <= r < |s|
    ensures r == -1 <==> x !in s
    ensures 0 <= r ==> s[r] == x && x !in s[..r]
  {
    if |s| == 0 then -1
    else if s[0] == x then 0
    else
      var k := FirstIndex(s[1..], x);
      assert s[1..][..if k < 0 then 0 else k] == s[1..1 + if k < 0 then 0 else k];
      if k < 0 then -1 else k + 1
  }

  /** `a.splice(a.indexOf(x), 1)` guarded by `indexOf > -1`: drop the first occurrence of `x`. */
  function RemoveFirst<T(==)>(s: seq<T>, x: T): (r: seq<T>)
    ensures x !in s ==> r == s
    ensures x in s ==> |r| == |s| - 1 && multiset(r) == multiset(s) - multiset{x}
  {
    var i := FirstIndex(s, x);
    if i < 0 then s
    else
      assert s == s[..i] + [s[i]] + s[i + 1..];
      s[..i] + s[i + 1..]
  }

  /** `Array.prototype.filter`: the elements satisfying `keep`, in their order. */
  function Filter<T(!new)>(s: seq<T>, keep: T -> bool): (r: seq<T>)
    ensures |r| <= |s|
    ensures forall x :: x in r <==> x in s && keep(x)
  {
    if s == [] then []
    else (if keep(s[0]) then [s[0]] else []) + Filter(s[1..], keep)
  }

  /** No element appears twice. */
  predicate NoDuplicates<T(==)>(s: seq<T>)
  {
    forall i, j :: 0 <= i < j < |s| ==> s[i] != s[j]
  }

  /**
   * The like/unlike toggle shared by posts and training videos: remove the
   * caller's first entry when present, append the caller otherwise.
   */
  function Toggle<T(==)>(s: seq<T>, x: T): (r: seq<T>)
    ensures x in s ==> multiset(r) == multiset(s) - multiset{x}
    ensures x !in s ==> r == s + [x]
  {
    if FirstIndex(s, x) > -1 then RemoveFirst(s, x) else s + [x]
  }

  /** MongoDB `$addToSet`: append only when absent. */
  function AddToSet<T(==)>(s: seq<T>, x: T): (r: seq<T>)
    ensures x in r
    ensures forall y :: y in r ==> y in s || y == x
    ensures forall y :: y in s ==> y in r
    ensures x in s ==> r == s
  {
    if x in s then s else s + [x]
  }

  /** MongoDB `$pull`: remove every occurrence. */
  function Pull<T(==)>(s: seq<T>, x: T): (r: seq<T>)
    ensures forall y :: y in r ==> y in s && y != x
    ensures forall y :: y in s && y != x ==> y in r
    ensures |r| <= |s|
  {
    if |s| == 0 then []
    else if s[0] == x then Pull(s[1..], x)
    else [s[0]] + Pull(s[1..], x)
  }

  /** `$pull` keeps a list free of duplicates. */
  lemma {:induction false} PullKeepsNoDuplicates<T>(s: seq<T>, x: T)
    requires NoDuplicates(s)
    ensures NoDuplicates(Pull(s, x))
  {
    if |s| > 0 {
      PullKeepsNoDuplicates(s[1..], x);
      if s[0] != x {
        var r := Pull(s[1..], x);
        assert s[0] !in s[1..];
      }
    }
  }

  /** Dropping one position keeps the no-duplicates property and removes that value entirely. */
  lemma DropKeepsNoDuplicates<T>(s: seq<T>, i: nat)
    requires NoDuplicates(s) && i < |s|
    ensures NoDuplicates(s[..i] + s[i + 1..]) && s[i] !in s[..i] + s[i + 1..]
  {
    var r := s[..i] + s[i + 1..];
    assert forall k :: 0 <= k < |r| ==> r[k] == s[if k < i then k else k + 1];
  }

  lemma RemoveFirstKeepsNoDuplicates<T>(s: seq<T>, x: T)
    requires NoDuplicates(s)
    ensures NoDuplicates(RemoveFirst(s, x)) && x !in RemoveFirst(s, x)
  {
    var i := FirstIndex(s, x);
    if i >= 0 {
      DropKeepsNoDuplicates(s, i);
    }
  }

  /** Under the no-duplicates invariant the toggle flips membership and keeps the invariant. */
  lemma ToggleFlips<T>(s: seq<T>, x: T)
    requires NoDuplicates(s)
    ensures (x in Toggle(s, x)) <==> (x !in s)
    ensures NoDuplicates(Toggle(s, x))
  {
    if x in s {
      RemoveFirstKeepsNoDuplicates(s, x);
    }
  }

  /** Two toggles by the same user restore the original entries (as a multiset; exactly when the user was absent). */
  lemma ToggleTwice<T>(s: seq<T>, x: T)
    requires NoDuplicates(s)
    ensures multiset(Toggle(Toggle(s, x), x)) == multiset(s)
    ensures x !in s ==> Toggle(Toggle(s, x), x) == s
  {
    if x in s {
      RemoveFirstKeepsNoDuplicates(s, x);
    } else {
      var t := s + [x];
      assert FirstIndex(t, x) == |s| by {
        assert t[|s|] == x;
        assert x !in t[..|s|] by { assert t[..|s|] == s; }
      }
      assert t[..|s|] == s;
    }
  }
}
