/**
 * The option lists of the season, streamer and tag drop-downs
 * (app/page.js): `Array.from(new Set(values)).filter(Boolean)`. A `Set`
 * keeps the first occurrence of each value in insertion order, and
 * `filter(Boolean)` then drops the falsy ones: null, undefined and "".
 */
module Vocabulary {
  import opened Wrappers
  import opened Listing

  ghost predicate NoDuplicates<T>(s: seq<T>) {
    forall i, j :: 0 <= i < j < |s| ==> s[i] != s[j]
  }

  /** `s.indexOf(x)`, or `|s|` when `x` does not occur. */
  function FirstIndex<T(==)>(s: seq<T>, x: T): (r: nat)
    ensures r <= |s|
    ensures r < |s| <==> x in s
    ensures r < |s| ==> s[r] == x
    ensures forall i :: 0 <= i < r ==> s[i] != x
    decreases |s|
  {
    if s == [] then 0
    else if s[0] == x then 0
    else 1 + FirstIndex(s[1..], x)
  }

  /** Extending a sequence does not move the first occurrence of a value it already holds. */
  lemma FirstIndexPrefix<T>(p: seq<T>, s: seq<T>, x: T)
    requires x in p && p <= s
    ensures FirstIndex(s, x) == FirstIndex(p, x)
  {
    var k := FirstIndex(p, x);
    assert s[k] == x;
    assert forall i :: 0 <= i < k ==> s[i] != x by {
      forall i | 0 <= i < k ensures s[i] != x {
        assert s[i] == p[i];
      }
    }
  }

  /** `Array.from(new Set(s))`: each value once, at the place it first occurs. */
  function Distinct<T(==)>(s: seq<T>): (r: seq<T>)
    ensures forall i :: 0 <= i < |r| ==> r[i] in s
    ensures forall i :: 0 <= i < |s| ==> s[i] in r
    ensures NoDuplicates(r)
    decreases |s|
  {
    if s == [] then []
    else
      var p := Distinct(s[..|s| - 1]);
      if s[|s| - 1] in p then p else p + [s[|s| - 1]]
  }

  /** Distinct lists values in the order of their first occurrence in `s`. */
  lemma {:induction false} DistinctInFirstOccurrenceOrder<T>(s: seq<T>)
    ensures forall i, j :: 0 <= i < j < |Distinct(s)| ==>
              FirstIndex(s, Distinct(s)[i]) < FirstIndex(s, Distinct(s)[j])
    decreases |s|
  {
    if s != [] {
      var init := s[..|s| - 1];
      var last := s[|s| - 1];
      var p := Distinct(init);
      DistinctInFirstOccurrenceOrder(init);
      forall x | x in p ensures FirstIndex(s, x) == FirstIndex(init, x) {
        FirstIndexPrefix(init, s, x);
      }
      if last !in p {
        assert last !in init;
        assert FirstIndex(s, last) == |s| - 1;
      }
    }
  }

  /** `.filter(Boolean)` over values that are strings or absent. */
  function KeepTruthy(vs: seq<Option<string>>): (r: seq<string>)
    ensures forall x :: x in r <==> x != "" && Some(x) in vs
    decreases |vs|
  {
    if vs == [] then []
    else
      var p := KeepTruthy(vs[..|vs| - 1]);
      assert vs == vs[..|vs| - 1] + [vs[|vs| - 1]];
      if Truthy(vs[|vs| - 1]) then p + [vs[|vs| - 1].value] else p
  }

  /**
   * Dropping values keeps the survivors in order: if `vs` is listed in
   * increasing first-occurrence order in `values`, so is what KeepTruthy keeps.
   */
  lemma {:induction false} KeepTruthyKeepsOrder(vs: seq<Option<string>>, values: seq<Option<string>>)
    requires forall i, j :: 0 <= i < j < |vs| ==> FirstIndex(values, vs[i]) < FirstIndex(values, vs[j])
    ensures forall i, j :: 0 <= i < j < |KeepTruthy(vs)| ==>
              FirstIndex(values, Some(KeepTruthy(vs)[i])) < FirstIndex(values, Some(KeepTruthy(vs)[j]))
    decreases |vs|
  {
    if vs != [] {
      var init := vs[..|vs| - 1];
      var last := vs[|vs| - 1];
      KeepTruthyKeepsOrder(init, values);
      var p := KeepTruthy(init);
      if Truthy(last) {
        var r := p + [last.value];
        forall i | 0 <= i < |p|
          ensures FirstIndex(values, Some(r[i])) < FirstIndex(values, Some(last.value))
        {
          assert Some(p[i]) in init;
          var k :| 0 <= k < |init| && init[k] == Some(p[i]);
          assert vs[k] == Some(p[i]);
        }
      }
    }
  }

  /**
   * An option list: the distinct truthy `values`, each once, in the order
   * of its first occurrence.
   */
  function Options(values: seq<Option<string>>): (r: seq<string>)
    ensures forall x :: x in r <==> x != "" && Some(x) in values
    ensures NoDuplicates(r)
    ensures forall i, j :: 0 <= i < j < |r| ==> FirstIndex(values, Some(r[i])) < FirstIndex(values, Some(r[j]))
  {
    var d := Distinct(values);
    DistinctInFirstOccurrenceOrder(values);
    KeepTruthyKeepsOrder(d, values);
    KeepTruthy(d)
  }

  function SeasonValues(data: seq<Stream>): (r: seq<Option<string>>)
    ensures |r| == |data|
    ensures forall i :: 0 <= i < |data| ==> r[i] == data[i].season
  {
    seq(|data|, i requires 0 <= i < |data| => data[i].season)
  }

  function StreamerValues(data: seq<Stream>): (r: seq<Option<string>>)
    ensures |r| == |data|
    ensures forall i :: 0 <= i < |data| ==> r[i] == data[i].streamer
  {
    seq(|data|, i requires 0 <= i < |data| => data[i].streamer)
  }

  /** The tags of one record, `d.tags || []`. */
  function TagsOf(s: Stream): (r: seq<Option<string>>)
    ensures s.tags.None? ==> r == []
    ensures s.tags.Some? ==> |r| == |s.tags.value| && forall i :: 0 <= i < |r| ==> r[i] == Some(s.tags.value[i])
    ensures forall x :: Some(x) in r <==> s.tags.Some? && x in s.tags.value
  {
    match s.tags
    case None => []
    case Some(ts) =>
      var r := seq(|ts|, i requires 0 <= i < |ts| => Some(ts[i]));
      assert forall x :: x in ts ==> Some(x) in r by {
        forall x | x in ts ensures Some(x) in r {
          var i :| 0 <= i < |ts| && ts[i] == x;
          assert r[i] == Some(x);
        }
      }
      r
  }

  /** `data.flatMap(d => d.tags || [])`. */
  function TagValues(data: seq<Stream>): seq<Option<string>>
    decreases |data|
  {
    if data == [] then [] else TagsOf(data[0]) + TagValues(data[1..])
  }

  /** A tag value comes from some record's tags, and every record's tags are there. */
  lemma {:induction false} TagValuesMembership(data: seq<Stream>, x: string)
    ensures Some(x) in TagValues(data) <==>
              exists i :: 0 <= i < |data| && data[i].tags.Some? && x in data[i].tags.value
    decreases |data|
  {
    if data != [] {
      TagValuesMembership(data[1..], x);
      if exists i :: 0 <= i < |data| && data[i].tags.Some? && x in data[i].tags.value {
        var i :| 0 <= i < |data| && data[i].tags.Some? && x in data[i].tags.value;
        if i > 0 {
          assert data[1..][i - 1] == data[i];
        }
      }
      if exists i :: 0 <= i < |data[1..]| && data[1..][i].tags.Some? && x in data[1..][i].tags.value {
        var i :| 0 <= i < |data[1..]| && data[1..][i].tags.Some? && x in data[1..][i].tags.value;
        assert data[i + 1] == data[1..][i];
      }
    }
  }

  /** The season drop-down. */
  function Seasons(data: seq<Stream>): (r: seq<string>)
    ensures forall x :: x in r <==> x != "" && exists i :: 0 <= i < |data| && data[i].season == Some(x)
    ensures NoDuplicates(r)
    ensures forall i, j :: 0 <= i < j < |r| ==>
              FirstIndex(SeasonValues(data), Some(r[i])) < FirstIndex(SeasonValues(data), Some(r[j]))
  {
    var values := SeasonValues(data);
    assert forall x :: Some(x) in values <==> exists i :: 0 <= i < |data| && data[i].season == Some(x) by {
      forall x ensures Some(x) in values ==> exists i :: 0 <= i < |data| && data[i].season == Some(x) {
        if Some(x) in values {
          var i :| 0 <= i < |values| && values[i] == Some(x);
        }
      }
    }
    Options(values)
  }

  /** The streamer drop-down. */
  function Streamers(data: seq<Stream>): (r: seq<string>)
    ensures forall x :: x in r <==> x != "" && exists i :: 0 <= i < |data| && data[i].streamer == Some(x)
    ensures NoDuplicates(r)
    ensures forall i, j :: 0 <= i < j < |r| ==>
              FirstIndex(StreamerValues(data), Some(r[i])) < FirstIndex(StreamerValues(data), Some(r[j]))
  {
    var values := StreamerValues(data);
    assert forall x :: Some(x) in values <==> exists i :: 0 <= i < |data| && data[i].streamer == Some(x) by {
      forall x ensures Some(x) in values ==> exists i :: 0 <= i < |data| && data[i].streamer == Some(x) {
        if Some(x) in values {
          var i :| 0 <= i < |values| && values[i] == Some(x);
        }
      }
    }
    Options(values)
  }

  /** The tag drop-down. */
  function Tags(data: seq<Stream>): (r: seq<string>)
    ensures forall x :: x in r <==>
              x != "" && exists i :: 0 <= i < |data| && data[i].tags.Some? && x in data[i].tags.value
    ensures NoDuplicates(r)
    ensures forall i, j :: 0 <= i < j < |r| ==>
              FirstIndex(TagValues(data), Some(r[i])) < FirstIndex(TagValues(data), Some(r[j]))
  {
    var values := TagValues(data);
    forall x ensures Some(x) in values <==>
        exists i :: 0 <= i < |data| && data[i].tags.Some? && x in data[i].tags.value {
      TagValuesMembership(data, x);
    }
    Options(values)
  }
}
