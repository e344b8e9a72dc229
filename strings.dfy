/**
 * String rules that the orchestrator relies on: Python truthiness of an
 * optional string, ASCII lowercasing, substring search, `sep.join(parts)`
 * and its inverse, splitting on a separator.
 */
module Strings {
  import opened Wrappers

  /** Python's `if field:` on an `Optional[str]`: present and not empty. */
  predicate Truthy(field: Option<string>) {
    field.Some? && field.value != ""
  }

  predicate IsUpper(c: char) {
    'A' <= c <= 'Z'
  }

  function LowerChar(c: char): char {
    if IsUpper(c) then (c as int + 32) as char else c
  }

  /** `s.lower()`, restricted to the ASCII letters. */
  function Lower(s: string): (r: string)
    ensures |r| == |s|
    ensures forall i :: 0 <= i < |s| ==> !IsUpper(r[i])
    ensures forall i :: 0 <= i < |s| && !IsUpper(s[i]) ==> r[i] == s[i]
    ensures forall i :: 0 <= i < |s| && IsUpper(s[i]) ==> r[i] as int == s[i] as int + 32
  {
    seq(|s|, i requires 0 <= i < |s| => LowerChar(s[i]))
  }

  /** `pat` occurs in `s` starting at index `i`. */
  predicate OccursAt(s: string, pat: string, i: int) {
    0 <= i && i + |pat| <= |s| && s[i..i + |pat|] == pat
  }

  lemma OccursShift(s: string, pat: string, j: nat)
    requires s != ""
    ensures OccursAt(s, pat, j + 1) <==> OccursAt(s[1..], pat, j)
  {
    if j + 1 + |pat| <= |s| {
      assert s[1..][j..j + |pat|] == s[j + 1..j + 1 + |pat|];
    }
  }

  /** The index of the first occurrence of `pat` in `s`, as `str.find` finds it. */
  function IndexOf(s: string, pat: string): (r: Option<nat>)
    ensures r.Some? ==> OccursAt(s, pat, r.value)
    ensures r.Some? ==> forall j :: 0 <= j < r.value ==> !OccursAt(s, pat, j)
    ensures r.None? ==> forall j :: !OccursAt(s, pat, j)
    decreases |s|
  {
    if |s| < |pat| then None
    else if s[..|pat|] == pat then Some(0)
    else
      var rest := IndexOf(s[1..], pat);
      assert forall j: nat :: OccursAt(s, pat, j + 1) <==> OccursAt(s[1..], pat, j) by {
        forall j: nat ensures OccursAt(s, pat, j + 1) <==> OccursAt(s[1..], pat, j) {
          OccursShift(s, pat, j);
        }
      }
      assert forall j :: 1 <= j ==> (OccursAt(s, pat, j) <==> OccursAt(s[1..], pat, j - 1)) by {
        forall j | 1 <= j ensures OccursAt(s, pat, j) <==> OccursAt(s[1..], pat, j - 1) {
          OccursShift(s, pat, j - 1);
        }
      }
      match rest
      case None => None
      case Some(i) => Some(i + 1)
  }

  /** Python's `pat in s`. */
  predicate Contains(s: string, pat: string) {
    IndexOf(s, pat).Some?
  }

  /** Lowercasing keeps every occurrence, lowercased, at the same index. */
  lemma {:induction false} LowerKeepsOccurrence(s: string, pat: string, i: int)
    requires OccursAt(s, pat, i)
    ensures OccursAt(Lower(s), Lower(pat), i)
  {
    var ls, lp := Lower(s), Lower(pat);
    forall k | 0 <= k < |pat| ensures ls[i..i + |pat|][k] == lp[k] {
      assert s[i + k] == pat[k];
    }
  }

  /** A needle that is already lowercase is found in `Lower(s)` wherever a case variant of it occurs in `s`. */
  lemma LowerFindsCaseVariant(s: string, variant: string, pat: string, i: int)
    requires OccursAt(s, variant, i) && Lower(variant) == pat
    ensures Contains(Lower(s), pat)
  {
    LowerKeepsOccurrence(s, variant, i);
  }

  lemma OccursInMiddle(a: string, b: string, c: string)
    ensures OccursAt(a + b + c, b, |a|)
  {
    assert (a + b + c)[|a|..|a| + |b|] == b;
  }

  /** Appending to the right keeps an occurrence where it is. */
  lemma OccursAppend(s: string, t: string, pat: string, i: int)
    requires OccursAt(s, pat, i)
    ensures OccursAt(s + t, pat, i)
  {
    assert (s + t)[i..i + |pat|] == s[i..i + |pat|];
  }

  lemma OccursAtEnd(s: string, pat: string)
    ensures OccursAt(s + pat, pat, |s|)
  {
    assert (s + pat)[|s|..|s| + |pat|] == pat;
  }

  /** `sep.join(parts)`. */
  function Join(parts: seq<string>, sep: string): string
    decreases |parts|
  {
    if |parts| == 0 then ""
    else if |parts| == 1 then parts[0]
    else parts[0] + sep + Join(parts[1..], sep)
  }

  predicate EndsWith(s: string, suffix: string) {
    |suffix| <= |s| && s[|s| - |suffix|..] == suffix
  }

  /** The joined string starts with the first part and ends with the last part. */
  lemma {:induction false} JoinBounds(parts: seq<string>, sep: string)
    requires parts != []
    ensures parts[0] <= Join(parts, sep)
    ensures EndsWith(Join(parts, sep), parts[|parts| - 1])
    decreases |parts|
  {
    if |parts| > 1 {
      JoinBounds(parts[1..], sep);
      var rest := Join(parts[1..], sep);
      var last := parts[|parts| - 1];
      assert parts[1..][|parts[1..]| - 1] == last;
      assert (parts[0] + sep + rest)[|parts[0] + sep + rest| - |last|..] == rest[|rest| - |last|..];
    }
  }

  /** Every part occurs in the joined string. */
  lemma {:induction false} JoinHoldsParts(parts: seq<string>, sep: string, i: int)
    requires 0 <= i < |parts|
    ensures Contains(Join(parts, sep), parts[i])
    decreases |parts|
  {
    if i == 0 {
      JoinBounds(parts, sep);
      assert OccursAt(Join(parts, sep), parts[0], 0);
    } else {
      var head, rest := parts[0] + sep, Join(parts[1..], sep);
      JoinHoldsParts(parts[1..], sep, i - 1);
      var j := IndexOf(rest, parts[i]).value;
      assert (head + rest)[|head| + j..|head| + j + |parts[i]|] == rest[j..j + |parts[i]|];
      assert OccursAt(head + rest, parts[i], |head| + j);
    }
  }

  /** Joining one more part appends the separator and that part. */
  lemma {:induction false} JoinSnoc(parts: seq<string>, sep: string, p: string)
    requires parts != []
    ensures Join(parts + [p], sep) == Join(parts, sep) + sep + p
    decreases |parts|
  {
    if |parts| > 1 {
      assert (parts + [p])[1..] == parts[1..] + [p];
      JoinSnoc(parts[1..], sep, p);
    } else {
      assert parts + [p] == [parts[0], p];
      assert [parts[0], p][1..] == [p];
    }
  }

  /**
   * Splitting on a non-empty separator, `s.split(sep)`. Joining the pieces
   * again gives back `s`, whatever `s` is.
   */
  function Split(s: string, sep: string): (parts: seq<string>)
    requires sep != ""
    ensures parts != []
    ensures Join(parts, sep) == s
    decreases |s|
  {
    match IndexOf(s, sep)
    case None => [s]
    case Some(i) =>
      var rest := Split(s[i + |sep|..], sep);
      assert s == s[..i] + sep + s[i + |sep|..];
      assert ([s[..i]] + rest)[1..] == rest;
      [s[..i]] + rest
  }

  /** No part contains the marker character. */
  predicate MarkerFree(parts: seq<string>, marker: char) {
    forall i :: 0 <= i < |parts| ==> marker !in parts[i]
  }

  /** The separator holds `sep[k]` at `k` and nowhere before it. */
  predicate FirstAt(sep: string, k: nat) {
    k < |sep| && forall j :: 0 <= j < k ==> sep[j] != sep[k]
  }

  lemma NoOccurrenceWithoutMarker(s: string, sep: string, k: nat)
    requires FirstAt(sep, k) && sep[k] !in s
    ensures IndexOf(s, sep).None?
  {
  }

  /**
   * When the pieces do not contain the separator's marker character, the
   * first separator in the joined string is the one right after the first piece.
   */
  lemma FirstSeparator(p: string, sep: string, rest: string, k: nat)
    requires FirstAt(sep, k) && sep[k] !in p
    ensures IndexOf(p + sep + rest, sep) == Some(|p|)
  {
    var s := p + sep + rest;
    OccursInMiddle(p, sep, rest);
  }

  /**
   * Split undoes Join when no part contains a character that marks the
   * separator (one that occurs in it at `k` and not before `k`).
   */
  lemma {:induction false} SplitJoin(parts: seq<string>, sep: string, k: nat)
    requires parts != [] && FirstAt(sep, k)
    requires MarkerFree(parts, sep[k])
    ensures Split(Join(parts, sep), sep) == parts
    decreases |parts|
  {
    if |parts| == 1 {
      NoOccurrenceWithoutMarker(parts[0], sep, k);
    } else {
      var rest := Join(parts[1..], sep);
      FirstSeparator(parts[0], sep, rest, k);
      var s := parts[0] + sep + rest;
      assert s[..|parts[0]|] == parts[0];
      assert s[|parts[0]| + |sep|..] == rest;
      assert Split(s, sep) == [parts[0]] + Split(rest, sep);
      SplitJoin(parts[1..], sep, k);
      assert parts == [parts[0]] + parts[1..];
    }
  }
}
