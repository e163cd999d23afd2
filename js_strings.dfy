/**
 * The JavaScript string operations the worker relies on, over `string`
 * (a sequence of characters): `startsWith`, `slice(1)`, `split` with a
 * one-character separator, `indexOf` and `replace` with a string pattern.
 */
module JsStrings {
  import opened Wrappers

  /** `s.startsWith(p)` */
  predicate StartsWith(s: string, p: string) {
    |p| <= |s| && s[..|p|] == p
  }

  /** `s.slice(1)`: everything after the first character; `""` stays `""`. */
  function DropFirst(s: string): (r: string)
    ensures |s| > 0 ==> [s[0]] + r == s
    ensures |s| == 0 ==> r == ""
  {
    if |s| == 0 then "" else s[1..]
  }

  /**
   * `s.split(sep)` for a one-character separator: the fields between
   * consecutive separators, in order; `"".split(sep)` is `[""]`.
   */
  function Split(s: string, sep: char): (fields: seq<string>)
    ensures |fields| >= 1
    ensures sep in s ==> |fields| >= 2
    ensures forall i :: 0 <= i < |fields| ==> sep !in fields[i]
    decreases |s|
  {
    if |s| == 0 then [""]
    else
      var rest := Split(s[1..], sep);
      if s[0] == sep then [""] + rest
      else [[s[0]] + rest[0]] + rest[1..]
  }

  /** `fields.join(sep)`, the inverse of `Split`. */
  function Join(fields: seq<string>, sep: char): string
    requires |fields| >= 1
    decreases |fields|
  {
    if |fields| == 1 then fields[0] else fields[0] + [sep] + Join(fields[1..], sep)
  }

  /** Splitting a string that begins with a separator-free field `u`. */
  lemma {:induction false} SplitCons(u: string, t: string, sep: char)
    requires sep !in u
    ensures Split(u + t, sep) == [u + Split(t, sep)[0]] + Split(t, sep)[1..]
    decreases |u|
  {
    if |u| > 0 {
      SplitCons(u[1..], t, sep);
      assert (u + t)[1..] == u[1..] + t;
      assert [u[0]] + (u[1..] + Split(t, sep)[0]) == u + Split(t, sep)[0];
    } else {
      var fields := Split(t, sep);
      assert u + t == t;
      assert u + fields[0] == fields[0];
      assert fields == [fields[0]] + fields[1..];
    }
  }

  /** A field running to the end of the string or up to a separator is the first field. */
  lemma SplitFirstField(u: string, tail: string, sep: char)
    requires sep !in u
    requires tail == [] || tail[0] == sep
    ensures Split(u + tail, sep)[0] == u
  {
    SplitCons(u, tail, sep);
    assert u + Split(tail, sep)[0] == u;
  }

  /** A separator at the front opens an empty first field. */
  lemma SplitLeadingSeparator(t: string, sep: char)
    requires |t| > 0 && t[0] == sep
    ensures Split(t, sep) == [""] + Split(t[1..], sep)
  {
  }

  /** The second field of `u + t` when `t` is a separator, `p` and `tail`. */
  lemma SplitAfterSeparator(u: string, t: string, p: string, tail: string, sep: char)
    requires sep !in u && sep !in p
    requires tail == [] || tail[0] == sep
    requires t == [sep] + (p + tail)
    ensures |Split(u + t, sep)| >= 2 && Split(u + t, sep)[1] == p
  {
    SplitCons(u, t, sep);
    SplitLeadingSeparator(t, sep);
    assert t[1..] == p + tail;
    var rest := Split(p + tail, sep);
    assert Split(t, sep)[1..] == rest;
    SplitFirstField(p, tail, sep);
    assert Split(u + t, sep) == [u + ""] + rest;
  }

  /** The second field of `u + sep + p + tail`, for separator-free `u` and `p`. */
  lemma SplitSecondField(u: string, p: string, tail: string, sep: char)
    requires sep !in u && sep !in p
    requires tail == [] || tail[0] == sep
    ensures |Split(u + [sep] + p + tail, sep)| >= 2
    ensures Split(u + [sep] + p + tail, sep)[1] == p
  {
    var t := [sep] + (p + tail);
    assert u + [sep] + p + tail == u + t;
    SplitAfterSeparator(u, t, p, tail, sep);
  }

  /** Joining the fields of `s` gives `s` back. */
  lemma {:induction false} JoinSplit(s: string, sep: char)
    ensures Join(Split(s, sep), sep) == s
    decreases |s|
  {
    if |s| > 0 {
      var rest := Split(s[1..], sep);
      JoinSplit(s[1..], sep);
      if s[0] == sep {
        assert ([""] + rest)[1..] == rest;
        assert s == [s[0]] + s[1..];
      } else {
        var fields := [[s[0]] + rest[0]] + rest[1..];
        assert fields[1..] == rest[1..];
        if |rest| == 1 {
          assert s == [s[0]] + s[1..];
        } else {
          calc {
            Join(fields, sep);
            ([s[0]] + rest[0]) + [sep] + Join(rest[1..], sep);
            [s[0]] + (rest[0] + [sep] + Join(rest[1..], sep));
            [s[0]] + Join(rest, sep);
            s;
          }
        }
      }
    }
  }

  /** Splitting a join of separator-free fields gives the fields back. */
  lemma {:induction false} SplitJoin(fields: seq<string>, sep: char)
    requires |fields| >= 1
    requires forall i :: 0 <= i < |fields| ==> sep !in fields[i]
    ensures Split(Join(fields, sep), sep) == fields
    decreases |fields|
  {
    if |fields| == 1 {
      SplitCons(fields[0], "", sep);
      assert fields[0] + "" == fields[0];
    } else {
      var tail := Join(fields[1..], sep);
      var t := [sep] + tail;
      SplitJoin(fields[1..], sep);
      assert Join(fields, sep) == fields[0] + t;
      SplitCons(fields[0], t, sep);
      assert t[0] == sep && t[1..] == tail;
      assert Split(t, sep) == [""] + fields[1..];
      assert fields[0] + "" == fields[0];
      assert fields == [fields[0]] + fields[1..];
    }
  }

  /** `pat` occurs in `s` at index `i`. */
  predicate OccursAt(s: string, pat: string, i: nat) {
    i + |pat| <= |s| && s[i..i + |pat|] == pat
  }

  lemma OccursAtShift(s: string, pat: string, j: nat)
    requires |s| > 0
    ensures OccursAt(s, pat, j + 1) <==> OccursAt(s[1..], pat, j)
  {
    if j + 1 + |pat| <= |s| {
      assert s[j + 1..j + 1 + |pat|] == s[1..][j..j + |pat|];
    }
  }

  /** `s.indexOf(pat)`: the first index at which `pat` occurs, or `None` for -1. */
  function IndexOf(s: string, pat: string): (r: Option<nat>)
    ensures r.Some? ==> OccursAt(s, pat, r.value)
    ensures r.Some? ==> forall j: nat :: j < r.value ==> !OccursAt(s, pat, j)
    ensures r.None? ==> forall j: nat :: !OccursAt(s, pat, j)
    decreases |s|
  {
    if OccursAt(s, pat, 0) then Some(0)
    else if |s| == 0 then None
    else
      var r := IndexOf(s[1..], pat);
      ShiftAll(s, pat);
      if r.None? then None else Some(r.value + 1)
  }

  lemma ShiftAll(s: string, pat: string)
    requires |s| > 0
    ensures forall j: nat :: 0 < j ==> (OccursAt(s, pat, j) <==> OccursAt(s[1..], pat, j - 1))
  {
    forall j: nat | 0 < j ensures OccursAt(s, pat, j) <==> OccursAt(s[1..], pat, j - 1) {
      OccursAtShift(s, pat, j - 1);
    }
  }

  /**
   * `s.replace(pat, rep)` with a string pattern and a replacement without
   * `$` patterns: only the first occurrence is replaced.
   */
  function ReplaceFirst(s: string, pat: string, rep: string): string {
    match IndexOf(s, pat)
    case None => s
    case Some(i) => s[..i] + rep + s[i + |pat|..]
  }

  /** Replacing a prefix of `s` by the empty string strips that prefix. */
  lemma ReplacePrefix(p: string, k: string)
    ensures ReplaceFirst(p + k, p, "") == k
  {
    assert OccursAt(p + k, p, 0);
    assert (p + k)[|p|..] == k;
  }
}
