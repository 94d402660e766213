/**
 * The listing view's conjunctive filter (app/page.js): a stream record is
 * shown when the search text, the season, streamer, SMP, subtitles and tag
 * selections and the calendar date all accept it. The React state holding
 * the seven criteria is a plain Criteria value passed to Filter.
 */
module Listing {
  import opened Wrappers
  import opened Text

  /** A calendar day, the key `Date.prototype.toDateString` compares by. */
  datatype Day = Day(ordinal: int)

  /**
   * One row of the `streams` table. `title` and `youtubeUrl` are required,
   * the rest may be absent. `date` is the calendar day `new Date` gives
   * for the stored value (for `null` that is the day of the epoch), or None
   * when the value is undefined or does not parse (its `toDateString` is
   * then "Invalid Date", equal to no selected day).
   */
  datatype Stream = Stream(
    id: string,
    title: string,
    description: Option<string>,
    date: Option<Day>,
    season: Option<string>,
    streamer: Option<string>,
    smp: Option<bool>,
    subtitles: Option<bool>,
    tags: Option<seq<string>>,
    youtubeUrl: string)

  /** The seven filter inputs; the empty string (and no date) selects everything. */
  datatype Criteria = Criteria(
    search: string,
    season: string,
    streamer: string,
    smp: string,
    subtitles: string,
    tag: string,
    date: Option<Day>)

  /** The criteria the page starts with. */
  const NO_CRITERIA := Criteria("", "", "", "", "", "", None)

  /** A value JavaScript treats as true: a present, non-empty string. */
  predicate Truthy(v: Option<string>) {
    v.Some? && v.value != ""
  }

  /** Text search over the title, or over the description when it is a non-empty string. */
  predicate MatchesSearch(s: Stream, search: string) {
    Contains(ToLower(search), ToLower(s.title))
    || (Truthy(s.description) && Contains(ToLower(search), ToLower(s.description.value)))
  }

  /** An exact-equality selection, switched off by the empty string. */
  predicate MatchesExactly(field: Option<string>, selected: string) {
    selected == "" || field == Some(selected)
  }

  /** A one-sided "yes" selection: only "yes" constrains, and it asks for `true`. */
  predicate MatchesYes(flag: Option<bool>, selected: string) {
    selected == "" || (if selected == "yes" then flag == Some(true) else true)
  }

  predicate MatchesTag(s: Stream, selected: string) {
    selected == "" || (s.tags.Some? && selected in s.tags.value)
  }

  predicate MatchesDate(s: Stream, selected: Option<Day>) {
    selected.None? || s.date == selected
  }

  /**
   * The predicate `data.filter` applies: all seven criteria at once. With
   * every criterion empty it accepts any record.
   */
  predicate Matches(s: Stream, c: Criteria): (r: bool)
    ensures c == NO_CRITERIA ==> r
  {
    EmptySearchMatches(s);
    && MatchesSearch(s, c.search)
    && MatchesExactly(s.season, c.season)
    && MatchesExactly(s.streamer, c.streamer)
    && MatchesYes(s.smp, c.smp)
    && MatchesYes(s.subtitles, c.subtitles)
    && MatchesTag(s, c.tag)
    && MatchesDate(s, c.date)
  }

  /** `data.filter(stream => Matches(stream, c))`. */
  function Filter(data: seq<Stream>, c: Criteria): (r: seq<Stream>)
    ensures |r| <= |data|
    ensures forall x :: x in r ==> x in data && Matches(x, c)
    decreases |data|
  {
    if data == [] then []
    else (if Matches(data[0], c) then [data[0]] else []) + Filter(data[1..], c)
  }

  /** `sub` is `s` with some elements dropped and the rest kept in order. */
  ghost predicate IsSubsequence<T>(sub: seq<T>, s: seq<T>)
    decreases |s|
  {
    if sub == [] then true
    else if s == [] then false
    else (sub[0] == s[0] && IsSubsequence(sub[1..], s[1..])) || IsSubsequence(sub, s[1..])
  }

  /** The filtered list keeps its records in their original relative order. */
  lemma {:induction false} FilterIsSubsequence(data: seq<Stream>, c: Criteria)
    ensures IsSubsequence(Filter(data, c), data)
    decreases |data|
  {
    if data != [] {
      FilterIsSubsequence(data[1..], c);
      var rest := Filter(data[1..], c);
      if Matches(data[0], c) {
        assert Filter(data, c) == [data[0]] + rest;
        assert ([data[0]] + rest)[1..] == rest;
      } else {
        assert Filter(data, c) == rest;
        if rest != [] {
          assert IsSubsequence(rest, data[1..]);
        }
      }
    }
  }

  /**
   * Exact characterisation: each record occurs in the result as often as in
   * the input when it matches, and not at all otherwise.
   */
  lemma {:induction false} FilterCount(data: seq<Stream>, c: Criteria, x: Stream)
    ensures multiset(Filter(data, c))[x] == if Matches(x, c) then multiset(data)[x] else 0
    decreases |data|
  {
    if data != [] {
      FilterCount(data[1..], c, x);
      assert data == [data[0]] + data[1..];
      assert multiset(data) == multiset([data[0]]) + multiset(data[1..]);
    }
  }

  /** A record is shown if and only if it is in the data and all seven criteria accept it. */
  lemma FilterMembership(data: seq<Stream>, c: Criteria, x: Stream)
    ensures x in Filter(data, c) <==> x in data && Matches(x, c)
  {
    FilterCount(data, c, x);
    assert x in Filter(data, c) <==> multiset(Filter(data, c))[x] > 0;
    assert x in data <==> multiset(data)[x] > 0;
  }

  /** One failing criterion is enough to hide a record. */
  lemma AnyFailingCriterionExcludes(data: seq<Stream>, c: Criteria, x: Stream)
    requires
      || !MatchesSearch(x, c.search)
      || !MatchesExactly(x.season, c.season)
      || !MatchesExactly(x.streamer, c.streamer)
      || !MatchesYes(x.smp, c.smp)
      || !MatchesYes(x.subtitles, c.subtitles)
      || !MatchesTag(x, c.tag)
      || !MatchesDate(x, c.date)
    ensures x !in Filter(data, c)
  {
  }

  /** Filtering a concatenation filters each part. */
  lemma {:induction false} FilterAppend(a: seq<Stream>, b: seq<Stream>, c: Criteria)
    ensures Filter(a + b, c) == Filter(a, c) + Filter(b, c)
    decreases |a|
  {
    if a == [] {
      assert a + b == b;
    } else {
      FilterAppend(a[1..], b, c);
      assert (a + b)[0] == a[0];
      assert (a + b)[1..] == a[1..] + b;
      var head := if Matches(a[0], c) then [a[0]] else [];
      assert Filter(a + b, c) == head + Filter(a[1..] + b, c);
      assert Filter(a, c) == head + Filter(a[1..], c);
    }
  }

  /** Filtering the filtered list again changes nothing. */
  lemma {:induction false} FilterIdempotent(data: seq<Stream>, c: Criteria)
    ensures Filter(Filter(data, c), c) == Filter(data, c)
    decreases |data|
  {
    if data != [] {
      FilterIdempotent(data[1..], c);
      var rest := Filter(data[1..], c);
      if Matches(data[0], c) {
        assert Filter(data, c) == [data[0]] + rest;
        FilterAppend([data[0]], rest, c);
        assert [data[0]][1..] == [];
        assert Filter([data[0]], c) == [data[0]];
      } else {
        assert Filter(data, c) == rest;
      }
    }
  }

  /** The empty search string is included in every title. */
  lemma EmptySearchMatches(s: Stream)
    ensures MatchesSearch(s, "")
  {
    assert ToLower("") == "";
    ContainsEmpty(ToLower(s.title));
  }

  /** With every criterion empty, the whole list is shown unchanged. */
  lemma {:induction false} FilterNoCriteria(data: seq<Stream>)
    ensures Filter(data, NO_CRITERIA) == data
    decreases |data|
  {
    if data != [] {
      EmptySearchMatches(data[0]);
      FilterNoCriteria(data[1..]);
      assert data == [data[0]] + data[1..];
    }
  }

  /** The search ignores case: searching for `q` and for its lower-cased form agree. */
  lemma SearchIgnoresCase(s: Stream, q: string)
    ensures MatchesSearch(s, q) == MatchesSearch(s, ToLower(q))
  {
    ToLowerIdempotent(q);
  }

  /** Two records whose title and description differ only in letter case match the same searches. */
  lemma SearchIgnoresRecordCase(s: Stream, t: Stream, q: string)
    requires ToLower(s.title) == ToLower(t.title)
    requires s.description.None? <==> t.description.None?
    requires s.description.Some? ==> ToLower(s.description.value) == ToLower(t.description.value)
    ensures MatchesSearch(s, q) == MatchesSearch(t, q)
  {
    if s.description.Some? {
      assert s.description.value == "" <==> t.description.value == "";
    }
  }

  /** A record whose title contains the search text verbatim passes the search. */
  lemma VerbatimTitleMatches(s: Stream, q: string)
    requires Contains(q, s.title)
    ensures MatchesSearch(s, q)
  {
    ContainsToLower(q, s.title);
  }

  /**
   * Criteria `c1` are at least as strict as `c2` on `data`: the list they
   * select is a subsequence of the one `c2` selects.
   */
  lemma {:induction false} StricterCriteriaNarrow(data: seq<Stream>, c1: Criteria, c2: Criteria)
    requires forall x :: x in data && Matches(x, c1) ==> Matches(x, c2)
    ensures IsSubsequence(Filter(data, c1), Filter(data, c2))
    decreases |data|
  {
    if data != [] {
      StricterCriteriaNarrow(data[1..], c1, c2);
      var r1, r2 := Filter(data[1..], c1), Filter(data[1..], c2);
      if Matches(data[0], c1) {
        assert Filter(data, c1) == [data[0]] + r1;
        assert Filter(data, c2) == [data[0]] + r2;
        assert ([data[0]] + r1)[1..] == r1;
        assert ([data[0]] + r2)[1..] == r2;
      } else if Matches(data[0], c2) {
        assert Filter(data, c1) == r1;
        assert Filter(data, c2) == [data[0]] + r2;
        assert ([data[0]] + r2)[1..] == r2;
      } else {
        assert Filter(data, c1) == r1;
        assert Filter(data, c2) == r2;
      }
    }
  }

  /**
   * SMP "yes" keeps only records whose `smp` is exactly true, and its result
   * is a subsequence of the result with SMP unselected.
   */
  lemma SmpYesNarrows(data: seq<Stream>, c: Criteria)
    requires c.smp == "yes"
    ensures forall x :: x in Filter(data, c) ==> x.smp == Some(true)
    ensures IsSubsequence(Filter(data, c), Filter(data, c.(smp := "")))
  {
    StricterCriteriaNarrow(data, c, c.(smp := ""));
  }

  /** The same one-sided law for the subtitles selection. */
  lemma SubtitlesYesNarrows(data: seq<Stream>, c: Criteria)
    requires c.subtitles == "yes"
    ensures forall x :: x in Filter(data, c) ==> x.subtitles == Some(true)
    ensures IsSubsequence(Filter(data, c), Filter(data, c.(subtitles := "")))
  {
    StricterCriteriaNarrow(data, c, c.(subtitles := ""));
  }

  /** Records are equal when filtered by criteria that accept the same records of `data`. */
  lemma {:induction false} FilterAgrees(data: seq<Stream>, c1: Criteria, c2: Criteria)
    requires forall x :: x in data ==> (Matches(x, c1) <==> Matches(x, c2))
    ensures Filter(data, c1) == Filter(data, c2)
    decreases |data|
  {
    if data != [] {
      FilterAgrees(data[1..], c1, c2);
    }
  }

  /** A SMP or subtitles value other than "yes" constrains nothing. */
  lemma OtherYesValuesIgnored(data: seq<Stream>, c: Criteria, smp: string, subtitles: string)
    requires smp != "yes" && subtitles != "yes"
    ensures Filter(data, c.(smp := smp, subtitles := subtitles)) == Filter(data, c.(smp := "", subtitles := ""))
  {
    FilterAgrees(data, c.(smp := smp, subtitles := subtitles), c.(smp := "", subtitles := ""));
  }

  /** Non-empty tag, season and streamer selections are met exactly by every shown record. */
  lemma ShownRecordsMeetSelections(data: seq<Stream>, c: Criteria, x: Stream)
    requires x in Filter(data, c)
    ensures c.tag != "" ==> x.tags.Some? && c.tag in x.tags.value
    ensures c.season != "" ==> x.season == Some(c.season)
    ensures c.streamer != "" ==> x.streamer == Some(c.streamer)
    ensures c.date.Some? ==> x.date == c.date
  {
  }
}
