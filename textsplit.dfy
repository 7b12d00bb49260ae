/** Python's `str.split(sep)` and `sep.join(fields)` on strings, for a non-empty separator. */
module TextSplit {
  import opened Wrappers

  /** `sep` occurs in `s` at position `i`. */
  predicate OccursAt(s: string, sep: string, i: nat)
  {
    i + |sep| <= |s| && s[i..i + |sep|] == sep
  }

  /** `s` holds no occurrence of `sep`. */
  predicate NoSep(s: string, sep: string)
  {
    forall i :: 0 <= i <= |s| ==> !OccursAt(s, sep, i)
  }

  /** No proper suffix of `sep` is also a prefix of it, so two occurrences cannot overlap and an
      occurrence cannot straddle the end of a field that holds none. ", " and "," are such. */
  predicate Borderless(sep: string)
  {
    forall k :: 0 < k < |sep| ==> sep[k..] != sep[..|sep| - k]
  }

  /** The first occurrence of `sep` in `s` at or after `from`. */
  function FindFrom(s: string, sep: string, from: nat): (r: Option<nat>)
    requires |sep| > 0
    ensures r.Some? ==> from <= r.value && OccursAt(s, sep, r.value)
    ensures r.Some? ==> forall j :: from <= j < r.value ==> !OccursAt(s, sep, j)
    ensures r.None? ==> forall j :: from <= j ==> !OccursAt(s, sep, j)
    decreases |s| - from
  {
    if from + |sep| > |s| then None
    else if s[from..from + |sep|] == sep then Some(from)
    else FindFrom(s, sep, from + 1)
  }

  /** `s.split(sep)`: the pieces between the occurrences of `sep`, scanning left to right. */
  function Split(s: string, sep: string): (r: seq<string>)
    requires |sep| > 0
    ensures |r| >= 1
    decreases |s|
  {
    match FindFrom(s, sep, 0)
    case None => [s]
    case Some(i) => [s[..i]] + Split(s[i + |sep|..], sep)
  }

  /** `sep.join(fields)`. */
  function Join(fields: seq<string>, sep: string): string
    decreases |fields|
  {
    if fields == [] then ""
    else if |fields| == 1 then fields[0]
    else fields[0] + sep + Join(fields[1..], sep)
  }

  lemma CommaSpaceBorderless()
    ensures Borderless(", ") && Borderless(",")
  {
    assert ", "[1..] == " " && ", "[..1] == ",";
  }

  /** The search returns the first occurrence at or after `from`. */
  lemma {:induction false} FindFromFirst(s: string, sep: string, from: nat, p: nat)
    requires |sep| > 0 && from <= p && OccursAt(s, sep, p)
    requires forall j :: from <= j < p ==> !OccursAt(s, sep, j)
    ensures FindFrom(s, sep, from) == Some(p)
    decreases p - from
  {
    if from < p {
      assert !OccursAt(s, sep, from);
      FindFromFirst(s, sep, from + 1, p);
    }
  }

  /** An occurrence of `sep` starting inside `a` but not ending there would make a proper suffix of
      `sep` equal to a prefix of it. */
  lemma NoStraddle(a: string, sep: string, rest: string, j: nat)
    requires Borderless(sep) && j < |a| < j + |sep|
    ensures !OccursAt(a + sep + rest, sep, j)
  {
    var s := a + sep + rest;
    var k := |a| - j;
    assert sep[k..] != sep[..|sep| - k];
    var m :| 0 <= m < |sep| - k && sep[k..][m] != sep[..|sep| - k][m];
    assert s[|a| + m] == sep[m];
    assert j + |sep| <= |s| ==> s[j..j + |sep|][k + m] == s[|a| + m];
  }

  /** In `a + sep + rest`, with no `sep` inside `a`, the first occurrence is the one after `a`. */
  lemma FirstSepAfterField(a: string, sep: string, rest: string)
    requires |sep| > 0 && Borderless(sep) && NoSep(a, sep)
    ensures FindFrom(a + sep + rest, sep, 0) == Some(|a|)
  {
    var s := a + sep + rest;
    assert s[|a|..|a| + |sep|] == sep;
    forall j | 0 <= j < |a|
      ensures !OccursAt(s, sep, j)
    {
      if j + |sep| <= |a| {
        assert a[j..j + |sep|] == s[j..j + |sep|];
        assert !OccursAt(a, sep, j);
      } else {
        NoStraddle(a, sep, rest, j);
      }
    }
    FindFromFirst(s, sep, 0, |a|);
  }

  /** Splitting the joined fields gives the fields back when none of them holds the separator. */
  lemma {:induction false} SplitJoin(fields: seq<string>, sep: string)
    requires |sep| > 0 && Borderless(sep) && |fields| >= 1
    requires forall i :: 0 <= i < |fields| ==> NoSep(fields[i], sep)
    ensures Split(Join(fields, sep), sep) == fields
    decreases |fields|
  {
    if |fields| == 1 {
      assert NoSep(fields[0], sep);
      assert FindFrom(fields[0], sep, 0).None?;
    } else {
      var a, rest := fields[0], Join(fields[1..], sep);
      FirstSepAfterField(a, sep, rest);
      assert (a + sep + rest)[..|a|] == a;
      assert (a + sep + rest)[|a| + |sep|..] == rest;
      SplitJoin(fields[1..], sep);
      assert [fields[0]] + fields[1..] == fields;
    }
  }
}
