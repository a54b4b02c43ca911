/**
 * The two PHP string functions the revision display relies on, with the
 * meaning PHP gives them: `strpos` finds the first occurrence of a needle,
 * and `str_replace` with an empty replacement deletes the occurrences it
 * finds in one left-to-right pass over the subject, without rescanning
 * what the deletions join together.
 */
module PhpStrings {
  import opened Base

  /** The marker that makes a column name look like a foreign key */
  const IdMarker: string := "_id"

  /** `needle` occurs in `s` starting at index `i` */
  predicate OccursAt(s: string, needle: string, i: int) {
    0 <= i && i + |needle| <= |s| && s[i..i + |needle|] == needle
  }

  /** `needle` occurs somewhere in `s` */
  predicate Contains(s: string, needle: string) {
    exists i :: 0 <= i <= |s| && OccursAt(s, needle, i)
  }

  /** `strpos($s, $needle, $from)`: the first occurrence at or after `from` */
  function StrPosFrom(s: string, needle: string, from: nat): (r: Option<nat>)
    requires from <= |s|
    ensures r.Some? ==> from <= r.value && OccursAt(s, needle, r.value)
    ensures r.Some? ==> forall i :: from <= i < r.value ==> !OccursAt(s, needle, i)
    ensures r.None? ==> forall i :: from <= i ==> !OccursAt(s, needle, i)
    decreases |s| - from
  {
    if |s| < from + |needle| then None
    else if s[from..from + |needle|] == needle then Some(from)
    else StrPosFrom(s, needle, from + 1)
  }

  /** `strpos($s, $needle)`: the index of the first occurrence, if any */
  function StrPos(s: string, needle: string): (r: Option<nat>)
    ensures r.None? <==> !Contains(s, needle)
    ensures r.Some? ==> OccursAt(s, needle, r.value)
    ensures r.Some? ==> forall i :: 0 <= i < r.value ==> !OccursAt(s, needle, i)
  {
    StrPosFrom(s, needle, 0)
  }

  /** `str_replace('_id', '', $s)` */
  function StripId(s: string): (r: string)
    ensures |r| <= |s|
    decreases |s|
  {
    if |s| < |IdMarker| then s
    else if s[..|IdMarker|] == IdMarker then StripId(s[|IdMarker|..])
    else [s[0]] + StripId(s[1..])
  }

  /** An occurrence in a suffix is an occurrence in the whole string, shifted */
  lemma OccursInSuffix(s: string, needle: string, k: nat, i: int)
    requires k <= |s|
    ensures OccursAt(s[k..], needle, i) <==> 0 <= i && OccursAt(s, needle, i + k)
  {
  }

  /** An occurrence in a prefix is an occurrence in the whole string */
  lemma OccursInPrefix(s: string, needle: string, k: nat, i: int)
    requires k <= |s|
    ensures OccursAt(s[..k], needle, i) <==> OccursAt(s, needle, i) && i + |needle| <= k
  {
  }

  /** A string without an underscore cannot hold the marker */
  lemma NoUnderscoreNoMarker(s: string)
    requires '_' !in s
    ensures !Contains(s, IdMarker)
  {
    forall i
      ensures !OccursAt(s, IdMarker, i)
    {
      if 0 <= i && i + |IdMarker| <= |s| {
        assert s[i] in s;
        assert s[i..i + |IdMarker|][0] == s[i] != IdMarker[0];
      }
    }
  }

  /** With no occurrence of the marker, `str_replace` returns its subject unchanged */
  lemma {:induction false} StripIdWithoutMarker(s: string)
    requires !Contains(s, IdMarker)
    ensures StripId(s) == s
    decreases |s|
  {
    if |s| >= |IdMarker| {
      assert !OccursAt(s, IdMarker, 0);
      forall i
        ensures !OccursAt(s[1..], IdMarker, i)
      {
        OccursInSuffix(s, IdMarker, 1, i);
      }
      StripIdWithoutMarker(s[1..]);
      assert s == [s[0]] + s[1..];
    }
  }

  /** Each occurrence the pass finds shortens the result by the marker's length */
  lemma {:induction false} StripIdWithMarker(s: string)
    requires Contains(s, IdMarker)
    ensures |StripId(s)| <= |s| - |IdMarker|
    decreases |s|
  {
    var i: int :| 0 <= i <= |s| && OccursAt(s, IdMarker, i);
    if s[..|IdMarker|] != IdMarker {
      assert 0 < i && i + |IdMarker| <= |s|;
      OccursInSuffix(s, IdMarker, 1, i - 1);
      assert OccursAt(s[1..], IdMarker, i - 1);
      StripIdWithMarker(s[1..]);
    }
  }

  /** `str_replace` changes its subject exactly when the marker occurs in it */
  lemma StripIdChangesIffMarker(s: string)
    ensures StripId(s) == s <==> !Contains(s, IdMarker)
  {
    if Contains(s, IdMarker) {
      StripIdWithMarker(s);
    } else {
      StripIdWithoutMarker(s);
    }
  }

  /** The pass keeps a marker-free prefix, deletes the first occurrence and
      carries on with the rest of the subject */
  lemma {:induction false} StripIdAfterPrefix(a: string, b: string)
    requires !Contains(a, IdMarker)
    ensures StripId(a + IdMarker + b) == a + StripId(b)
    decreases |a|
  {
    var s := a + IdMarker + b;
    if |a| == 0 {
      assert s == IdMarker + b;
    } else {
      assert s == a + (IdMarker + b);
      MarkerNotAtStart(a, IdMarker + b);
      StripIdSkipsFirst(s);
      TailHasNoMarker(a);
      StripIdAfterPrefix(a[1..], b);
      assert s[1..] == a[1..] + IdMarker + b;
      assert a == [a[0]] + a[1..];
    }
  }

  /** Without a marker at index 0, the pass keeps the first character */
  lemma StripIdSkipsFirst(s: string)
    requires |s| >= |IdMarker| && !OccursAt(s, IdMarker, 0)
    ensures StripId(s) == [s[0]] + StripId(s[1..])
  {
  }

  /** Dropping the first character of a marker-free string keeps it marker-free */
  lemma TailHasNoMarker(a: string)
    requires |a| > 0 && !Contains(a, IdMarker)
    ensures !Contains(a[1..], IdMarker)
  {
    forall i
      ensures !OccursAt(a[1..], IdMarker, i)
    {
      OccursInSuffix(a, IdMarker, 1, i);
    }
  }

  /** A non-empty, marker-free prefix keeps the marker from the first index */
  lemma MarkerNotAtStart(a: string, b: string)
    requires |a| > 0 && !Contains(a, IdMarker)
    requires |b| >= |IdMarker| && b[..|IdMarker|] == IdMarker
    ensures !OccursAt(a + b, IdMarker, 0)
  {
    var s := a + b;
    if |a| >= 3 {
      assert s[..3] == a[..3];
      assert !OccursAt(a, IdMarker, 0);
    } else if |a| == 1 {
      assert s[1] == b[0] == '_';
    } else {
      assert s[2] == b[0] == '_';
    }
  }

  /** The pass does not rescan its own output: deleting the marker can join
      characters into a new marker, which stays in the result */
  lemma StripIdIsSinglePass()
    ensures StripId("a__idid") == "a_id"
    ensures Contains(StripId("a__idid"), IdMarker)
  {
    NoUnderscoreNoMarker("a");
    assert !Contains("a_", IdMarker);
    StripIdAfterPrefix("a_", "id");
    assert "a__idid" == "a_" + IdMarker + "id";
    assert OccursAt("a_id", IdMarker, 1);
  }
}
