/**
 * The strings one card of the listing shows for a stream (app/page.js):
 * the embeddable player URL, the season/streamer/SMP/subtitles summary
 * line and the comma-joined tag line.
 */
module Card {
  import opened Wrappers
  import opened Text
  import opened Listing

  const WATCH_MARKER := "watch?v="
  const EMBED_MARKER := "embed/"
  const NOT_AVAILABLE := "N/A"
  const TAG_SEPARATOR := ", "
  const SUMMARY_SEPARATOR := " | "

  /**
   * `youtube_url.replace("watch?v=", "embed/")`: the first marker, and only
   * that one, becomes the embed path; a URL without it is left as it is.
   */
  function EmbedUrl(url: string): (r: string)
    ensures (forall i :: !OccursAt(WATCH_MARKER, url, i)) ==> r == url
    ensures forall i {:trigger OccursAt(WATCH_MARKER, url, i)} ::
              OccursAt(WATCH_MARKER, url, i) && (forall j :: 0 <= j < i ==> !OccursAt(WATCH_MARKER, url, j)) ==>
                r == url[..i] + EMBED_MARKER + url[i + |WATCH_MARKER|..] && |r| == |url| - 2
  {
    ReplaceFirst(url, WATCH_MARKER, EMBED_MARKER)
  }

  /** The watch URL of a video becomes its embed URL. */
  lemma EmbedUrlExample()
    ensures EmbedUrl("https://youtube.com/watch?v=abc123") == "https://youtube.com/embed/abc123"
  {
    var host, id := "https://youtube.com/", "abc123";
    var url := host + WATCH_MARKER + id;
    assert url == "https://youtube.com/watch?v=abc123";
    assert url[|host|..|host| + 8] == WATCH_MARKER;
    forall j | 0 <= j < |host| ensures !OccursAt(WATCH_MARKER, url, j) {
      assert url[j] == host[j] != 'w';
      assert url[j..j + 8][0] != WATCH_MARKER[0];
    }
    FindFirstIs(WATCH_MARKER, url, |host|);
    assert url[..|host|] == host && url[|host| + 8..] == id;
    assert host + EMBED_MARKER + id == "https://youtube.com/embed/abc123";
  }

  /** `value || "N/A"` for an optional string. */
  function OrNotAvailable(v: Option<string>): (r: string)
    ensures r != ""
    ensures r == NOT_AVAILABLE <==> !Truthy(v) || v.value == NOT_AVAILABLE
    ensures Truthy(v) ==> r == v.value
  {
    if v.Some? && v.value != "" then v.value else NOT_AVAILABLE
  }

  /** `flag ? "Yes" : "No"` for an optional boolean. */
  function YesNo(flag: Option<bool>): (r: string)
    ensures r == "Yes" || r == "No"
    ensures r == "Yes" <==> flag == Some(true)
  {
    if flag == Some(true) then "Yes" else "No"
  }

  /** The one-line summary under a card's description. */
  function Summary(s: Stream): (r: string)
    ensures r == Join(["Season: " + OrNotAvailable(s.season),
                       "Streamer: " + OrNotAvailable(s.streamer),
                       "SMP: " + YesNo(s.smp),
                       "Subtitles: " + YesNo(s.subtitles)], SUMMARY_SEPARATOR)
  {
    var season, streamer := "Season: " + OrNotAvailable(s.season), "Streamer: " + OrNotAvailable(s.streamer);
    var smp, subtitles := "SMP: " + YesNo(s.smp), "Subtitles: " + YesNo(s.subtitles);
    var j2 := Join([smp, subtitles], " | ");
    var j3 := Join([streamer, smp, subtitles], " | ");
    assert j2 == smp + " | " + subtitles by {
      assert [smp, subtitles][1..] == [subtitles];
      assert Join([subtitles], " | ") == subtitles;
    }
    assert j3 == streamer + " | " + j2 by {
      assert [streamer, smp, subtitles][1..] == [smp, subtitles];
    }
    assert Join([season, streamer, smp, subtitles], " | ") == season + " | " + j3 by {
      assert [season, streamer, smp, subtitles][1..] == [streamer, smp, subtitles];
    }
    season + " | " + streamer + " | " + smp + " | " + subtitles
  }

  /** A record kept by the SMP or subtitles "yes" selection is shown as "Yes" for it. */
  lemma ShownYesFlags(data: seq<Stream>, c: Criteria, x: Stream)
    requires x in Filter(data, c)
    ensures c.smp == "yes" ==> YesNo(x.smp) == "Yes"
    ensures c.subtitles == "yes" ==> YesNo(x.subtitles) == "Yes"
  {
  }

  /** The tag line: present whenever `tags` is, even for an empty list. */
  function TagLine(s: Stream): (r: Option<string>)
    ensures r.Some? <==> s.tags.Some?
    ensures r.Some? ==> |r.value| >= |"Tags: "| && r.value[..|"Tags: "|] == "Tags: "
    ensures r.Some? ==> r.value[|"Tags: "|..] == Join(s.tags.value, TAG_SEPARATOR)
  {
    match s.tags
    case None => None
    case Some(ts) => Some("Tags: " + Join(ts, TAG_SEPARATOR))
  }

  /** A tag without ", " in it separates cleanly from ", ". */
  lemma TagSeparatesCleanly(t: string)
    requires !Contains(TAG_SEPARATOR, t)
    ensures SeparatesCleanly(t, TAG_SEPARATOR)
  {
    forall i | 0 <= i < |t| ensures !OccursAt(TAG_SEPARATOR, t + TAG_SEPARATOR, i) {
      if i + 2 <= |t| {
        assert !OccursAt(TAG_SEPARATOR, t, i);
        assert (t + TAG_SEPARATOR)[i..i + 2] == t[i..i + 2];
      } else {
        assert (t + TAG_SEPARATOR)[i + 1] == ',';
      }
    }
  }

  /**
   * The joined tag list can be read back: when the list is non-empty and no
   * tag holds ", ", cutting the text at every ", " gives the tags again.
   */
  lemma SplitJoinTags(ts: seq<string>)
    requires |ts| > 0
    requires forall i :: 0 <= i < |ts| ==> !Contains(TAG_SEPARATOR, ts[i])
    ensures Split(Join(ts, TAG_SEPARATOR), TAG_SEPARATOR) == ts
  {
    forall i | 0 <= i < |ts| ensures SeparatesCleanly(ts[i], TAG_SEPARATOR) {
      TagSeparatesCleanly(ts[i]);
    }
    SplitJoin(ts, TAG_SEPARATOR);
  }

  /** A text without '|' separates cleanly from " | ". */
  lemma NoBarSeparatesCleanly(t: string)
    requires '|' !in t
    ensures SeparatesCleanly(t, SUMMARY_SEPARATOR)
  {
    forall i | 0 <= i < |t| ensures !OccursAt(SUMMARY_SEPARATOR, t + SUMMARY_SEPARATOR, i) {
      if i + 1 < |t| {
        assert (t + SUMMARY_SEPARATOR)[i + 1] == t[i + 1];
      } else {
        assert (t + SUMMARY_SEPARATOR)[i + 1] == ' ';
      }
    }
  }

  /**
   * The summary can be read back: when neither the season nor the streamer
   * holds '|', cutting it at every " | " gives the four labelled fields.
   */
  lemma SummaryReadBack(s: Stream)
    requires s.season.Some? ==> '|' !in s.season.value
    requires s.streamer.Some? ==> '|' !in s.streamer.value
    ensures Split(Summary(s), SUMMARY_SEPARATOR) ==
              ["Season: " + OrNotAvailable(s.season),
               "Streamer: " + OrNotAvailable(s.streamer),
               "SMP: " + YesNo(s.smp),
               "Subtitles: " + YesNo(s.subtitles)]
  {
    var fields := ["Season: " + OrNotAvailable(s.season),
                   "Streamer: " + OrNotAvailable(s.streamer),
                   "SMP: " + YesNo(s.smp),
                   "Subtitles: " + YesNo(s.subtitles)];
    forall i | 0 <= i < 4 ensures SeparatesCleanly(fields[i], SUMMARY_SEPARATOR) {
      NoBarSeparatesCleanly(fields[i]);
    }
    SplitJoin(fields, SUMMARY_SEPARATOR);
  }
}
