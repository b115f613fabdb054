/**
 * Recommendation sampler: the course recommender, which shuffles a field's
 * course list in place and turns its first five entries into records, and the
 * choice of one tip video from a pool.
 */
module Recommendations {
  import opened Common

  /** A catalog entry: a course's name and link, as a pair. */
  type Entry = (string, string)

  /** The `{"name": ..., "link": ...}` record reported for a recommended course. */
  datatype CourseRecord = CourseRecord(name: string, link: string)

  /** At most this many courses are recommended. */
  const MaxCourses: int := 5

  function RecordOf(e: Entry): CourseRecord {
    CourseRecord(e.0, e.1)
  }

  /**
   * `random.shuffle(a)`: Fisher-Yates, swapping each position from the end
   * with a position at or before it. The random draw is an arbitrary choice,
   * so the method covers every order the shuffle can produce.
   */
  method Shuffle(a: array<Entry>)
    modifies a
    ensures multiset(a[..]) == old(multiset(a[..]))
  {
    var i := a.Length - 1;
    while i > 0
      invariant i < a.Length
      invariant multiset(a[..]) == old(multiset(a[..]))
    {
      var j :| 0 <= j <= i;
      a[i], a[j] := a[j], a[i];
      i := i - 1;
    }
  }

  /** The loop over `course_list[:5]`, appending one record per entry. */
  method FirstRecords(courses: seq<Entry>) returns (recs: seq<CourseRecord>)
    ensures |recs| == Min(MaxCourses, |courses|)
    ensures forall k :: 0 <= k < |recs| ==> recs[k] == RecordOf(courses[k])
  {
    var top := courses[..Min(MaxCourses, |courses|)];
    recs := [];
    for i := 0 to |top|
      invariant |recs| == i
      invariant forall k :: 0 <= k < i ==> recs[k] == RecordOf(top[k])
    {
      recs := recs + [RecordOf(top[i])];
    }
  }

  /**
   * `course_recommender(course_list)`: shuffles the caller's list in place,
   * then reports its first (at most five) entries, in the shuffled order.
   */
  method RecommendCourses(courseList: array<Entry>) returns (recs: seq<CourseRecord>)
    modifies courseList
    ensures multiset(courseList[..]) == old(multiset(courseList[..]))
    ensures |recs| == Min(MaxCourses, courseList.Length)
    ensures forall k :: 0 <= k < |recs| ==> recs[k] == RecordOf(courseList[k])
  {
    Shuffle(courseList);
    recs := FirstRecords(courseList[..]);
  }

  predicate NoDuplicates<T(==)>(s: seq<T>) {
    forall i, j :: 0 <= i < j < |s| ==> s[i] != s[j]
  }

  /** In a sequence without duplicates, no element occurs more than once. */
  lemma {:induction false} NoDuplicatesOccurOnce<T>(s: seq<T>, x: T)
    requires NoDuplicates(s)
    ensures multiset(s)[x] <= 1
  {
    if s != [] {
      var last := |s| - 1;
      var front := s[..last];
      assert s == front + [s[last]];
      assert NoDuplicates(front) by {
        forall i, j | 0 <= i < j < |front| ensures front[i] != front[j] {
          assert front[i] == s[i] && front[j] == s[j];
        }
      }
      NoDuplicatesOccurOnce(front, x);
      assert s[last] !in multiset(front) by {
        forall i | 0 <= i < |front| ensures front[i] != s[last] {
          assert front[i] == s[i];
        }
      }
    }
  }

  /** An element at two positions occurs at least twice. */
  lemma RepeatOccursTwice<T>(s: seq<T>, i: int, j: int)
    requires 0 <= i < j < |s| && s[i] == s[j]
    ensures multiset(s)[s[i]] >= 2
  {
    var x := s[i];
    assert s == s[..i] + [x] + s[i + 1..j] + [x] + s[j + 1..];
  }

  /** Reordering a list without duplicates leaves it without duplicates. */
  lemma PermutationKeepsNoDuplicates<T>(a: seq<T>, b: seq<T>)
    requires multiset(a) == multiset(b)
    requires NoDuplicates(a)
    ensures NoDuplicates(b)
  {
    forall i, j | 0 <= i < j < |b| ensures b[i] != b[j] {
      if b[i] == b[j] {
        RepeatOccursTwice(b, i, j);
        NoDuplicatesOccurOnce(a, b[i]);
        assert false;
      }
    }
  }

  /**
   * What a call to the course recommender gives: records of entries of the
   * catalog as it was before the call, with no record twice when the catalog
   * lists no course twice.
   */
  lemma RecommendationsFromCatalog(before: seq<Entry>, after: seq<Entry>, recs: seq<CourseRecord>)
    requires multiset(after) == multiset(before)
    requires |recs| == Min(MaxCourses, |after|)
    requires forall k :: 0 <= k < |recs| ==> recs[k] == RecordOf(after[k])
    ensures |recs| <= MaxCourses && |recs| <= |before|
    ensures forall r :: r in recs ==> exists e :: e in before && RecordOf(e) == r
    ensures NoDuplicates(before) ==> NoDuplicates(recs)
  {
    assert |after| == |before| by {
      assert |multiset(after)| == |multiset(before)|;
    }
    forall r | r in recs ensures exists e :: e in before && RecordOf(e) == r {
      var k :| 0 <= k < |recs| && recs[k] == r;
      assert after[k] in multiset(after);
    }
    if NoDuplicates(before) {
      PermutationKeepsNoDuplicates(before, after);
    }
  }

  /** `random.choice(pool) if pool else None`. */
  method ChooseVideo(pool: seq<string>) returns (pick: Option<string>)
    ensures pick.None? <==> pool == []
    ensures pick.Some? ==> pick.value in pool
  {
    if pool == [] {
      pick := None;
    } else {
      var k :| 0 <= k < |pool|;
      pick := Some(pool[k]);
    }
  }
}
