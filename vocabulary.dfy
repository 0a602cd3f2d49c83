/**
 * The tag vocabularies shown as pills on the "Bars" page: every ambiance (or drink)
 * tag carried by some loaded bar, once each, in the order the tags first appear.
 */
module Vocabulary {
  import opened Seqs
  import opened Bars

  /** `bars.flatMap(b => b.ambiances || [])` (or `b.drinks`): all tags, bar after bar. */
  function AllTags(bars: seq<Bar>, field: TagField): (r: seq<string>)
    ensures forall t :: t in r <==> exists b :: b in bars && t in TagsOf(b, field)
    decreases |bars|
  {
    if bars == [] then []
    else
      var rest := AllTags(bars[1..], field);
      assert forall b :: b in bars ==> b == bars[0] || b in bars[1..];
      TagsOf(bars[0], field) + rest
  }

  /**
   * `Array.from(new Set(s))`: a `Set` keeps insertion order and ignores an element it
   * already holds, so the last element is added only when it is new.
   */
  function Distinct(s: seq<string>): (r: seq<string>)
    ensures NoDup(r)
    ensures forall x :: x in r <==> x in s
    decreases |s|
  {
    if s == [] then []
    else
      var prev := Distinct(s[..|s| - 1]);
      var x := s[|s| - 1];
      assert forall y :: y in s <==> y in s[..|s| - 1] || y == x;
      if x in prev then prev else prev + [x]
  }

  /** `r` lists elements of `s` in the order of their first occurrence in `s`. */
  predicate InFirstOccurrenceOrder<T(==)>(r: seq<T>, s: seq<T>) {
    (forall x :: x in r ==> x in s) &&
    forall i, j :: 0 <= i < j < |r| ==> r[i] in s && r[j] in s && FirstIndex(s, r[i]) < FirstIndex(s, r[j])
  }

  /** Extending a sequence does not move the first occurrence of an element it already had. */
  lemma FirstIndexOfPrefix<T>(s: seq<T>, x: T, n: nat)
    requires n <= |s| && x in s[..n]
    ensures FirstIndex(s, x) == FirstIndex(s[..n], x)
  {
    var f, k := FirstIndex(s, x), FirstIndex(s[..n], x);
    assert s[k] == s[..n][k] == x;
    assert f <= k;
    assert s[..n][f] == s[f] == x;
  }

  /** `Distinct` keeps first-occurrence order. */
  lemma {:induction false} DistinctOrder(s: seq<string>)
    ensures InFirstOccurrenceOrder(Distinct(s), s)
    decreases |s|
  {
    if s != [] {
      var n := |s| - 1;
      var p := s[..n];
      var x := s[n];
      var prev := Distinct(p);
      DistinctOrder(p);
      forall y | y in p ensures y in s && FirstIndex(s, y) == FirstIndex(p, y) {
        FirstIndexOfPrefix(s, y, n);
      }
      if x !in prev {
        assert x !in p;
        assert FirstIndex(s, x) == n;
        var r := prev + [x];
        forall i, j | 0 <= i < j < |r|
          ensures r[i] in s && r[j] in s && FirstIndex(s, r[i]) < FirstIndex(s, r[j])
        {
          if j < |prev| {
            assert r[i] == prev[i] && r[j] == prev[j];
          } else {
            assert r[i] == prev[i] && prev[i] in p;
          }
        }
      }
    }
  }

  /** A non-empty sequence holds its head. */
  lemma HeadIsMember<T>(b: seq<T>)
    ensures b != [] ==> b[0] in b
  {
  }

  /** In first-occurrence order the head comes before every other element. */
  lemma HeadComesFirst<T>(a: seq<T>, s: seq<T>)
    requires a != [] && InFirstOccurrenceOrder(a, s)
    ensures a[0] in s
    ensures forall x :: x in a && x != a[0] ==> x in s && FirstIndex(s, a[0]) < FirstIndex(s, x)
  {
    forall x | x in a && x != a[0] ensures x in s && FirstIndex(s, a[0]) < FirstIndex(s, x) {
      var j :| 0 <= j < |a| && a[j] == x;
      assert j > 0;
    }
  }

  /** Dropping the head of a first-occurrence ordered list leaves one. */
  lemma TailInOrder<T>(a: seq<T>, s: seq<T>)
    requires a != [] && InFirstOccurrenceOrder(a, s)
    ensures InFirstOccurrenceOrder(a[1..], s)
  {
    forall i, j | 0 <= i < j < |a[1..]|
      ensures a[1..][i] in s && a[1..][j] in s && FirstIndex(s, a[1..][i]) < FirstIndex(s, a[1..][j])
    {
      assert a[1..][i] == a[i + 1] && a[1..][j] == a[j + 1];
    }
  }

  /** Without duplicates, the tail holds exactly the elements other than the head. */
  lemma TailMembers<T>(a: seq<T>)
    requires a != [] && NoDup(a)
    ensures NoDup(a[1..])
    ensures forall x :: x in a[1..] <==> x in a && x != a[0]
  {
    forall x | x in a[1..] ensures x != a[0] {
      var k :| 0 <= k < |a[1..]| && a[1..][k] == x;
      assert a[k + 1] == x;
    }
  }

  /**
   * The three properties pin the vocabulary down: two duplicate-free lists of the same
   * elements, both in first-occurrence order with respect to `s`, are equal.
   */
  lemma {:induction false} FirstOccurrenceOrderUnique<T>(a: seq<T>, b: seq<T>, s: seq<T>)
    requires NoDup(a) && NoDup(b)
    requires forall x :: x in a <==> x in b
    requires InFirstOccurrenceOrder(a, s) && InFirstOccurrenceOrder(b, s)
    ensures a == b
    decreases |a|
  {
    if a != [] {
      assert a[0] in b;
      HeadComesFirst(a, s);
      HeadComesFirst(b, s);
      assert a[0] == b[0];
      TailMembers(a);
      TailMembers(b);
      TailInOrder(a, s);
      TailInOrder(b, s);
      assert forall x :: x in a[1..] <==> x in b[1..];
      FirstOccurrenceOrderUnique(a[1..], b[1..], s);
      assert a == [a[0]] + a[1..];
      assert b == [b[0]] + b[1..];
    } else {
      HeadIsMember(b);
    }
  }

  /**
   * `AMBIANCES` / `DRINKS`: the distinct tags of the loaded bars. The vocabulary has no
   * duplicate and holds exactly the tags some bar carries, a bar without the field
   * contributing none.
   */
  function TagVocabulary(bars: seq<Bar>, field: TagField): (r: seq<string>)
    ensures NoDup(r)
    ensures forall t :: t in r <==> exists b :: b in bars && t in TagsOf(b, field)
  {
    Distinct(AllTags(bars, field))
  }

  /** The vocabulary lists its tags in the order they first appear, bar after bar. */
  lemma VocabularyCharacterized(bars: seq<Bar>, field: TagField)
    ensures InFirstOccurrenceOrder(TagVocabulary(bars, field), AllTags(bars, field))
  {
    DistinctOrder(AllTags(bars, field));
  }

  /** Any list with the three properties is the vocabulary. */
  lemma VocabularyUnique(bars: seq<Bar>, field: TagField, v: seq<string>)
    requires NoDup(v)
    requires forall t :: t in v <==> exists b :: b in bars && t in TagsOf(b, field)
    requires InFirstOccurrenceOrder(v, AllTags(bars, field))
    ensures v == TagVocabulary(bars, field)
  {
    VocabularyCharacterized(bars, field);
    FirstOccurrenceOrderUnique(v, TagVocabulary(bars, field), AllTags(bars, field));
  }

  /** A duplicate-free list is in its own first-occurrence order. */
  lemma NoDupInOwnOrder<T>(s: seq<T>)
    requires NoDup(s)
    ensures InFirstOccurrenceOrder(s, s)
  {
    forall j | 0 <= j < |s| ensures FirstIndex(s, s[j]) == j {
      var f := FirstIndex(s, s[j]);
      assert s[f] == s[j];
    }
  }

  /** A duplicate-free list passes through a `Set` unchanged. */
  lemma DistinctOfNoDup(s: seq<string>)
    requires NoDup(s)
    ensures Distinct(s) == s
  {
    DistinctOrder(s);
    NoDupInOwnOrder(s);
    FirstOccurrenceOrderUnique(s, Distinct(s), s);
  }
}
