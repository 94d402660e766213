# Stream archive listing — a Dafny model

The stream archive is a small web catalogue of archived video streams. Its
listing page (`app/page.js`) loads every stream record, keeps them in memory
and shows the ones that pass seven independent criteria:

- a case-insensitive text search over title and description;
- a season selection and a streamer selection;
- one-sided SMP and subtitles "yes" selections;
- a tag selection;
- a calendar day.

It also builds the season, streamer and tag drop-downs from the records. Each
shown card gets an embeddable player URL, a one-line summary and a
comma-joined tag line.

This project models that logic as pure Dafny functions over an immutable list
of records, with lemmas about them:

- `wrappers.dfy`: `Option`, for fields that may be null or undefined.
- `text.dfy`: ASCII `toLowerCase`, `indexOf`/`includes`, first-occurrence
  `replace`, and `join`, plus `Split`, its inverse.
- `listing.dfy`: the `Stream` record and the seven `Criteria`. `Matches` is
  the predicate `data.filter` applies, and `Filter` is the filter itself.
- `vocabulary.dfy`: `Array.from(new Set(values)).filter(Boolean)`, applied to
  seasons, streamers and tags.
- `card.dfy`: the embed URL rewrite, the summary line and the tag line.
- `scenarios.dfy`: the filter and the drop-downs evaluated on small concrete
  lists.

Modelling choices:

- A record's date is the abstract calendar day (`Day`) that `new Date` gives for
  the stored value. For a `null` column that is the day of the epoch, which is
  a `Some`. The date is `None` only when the value is undefined or does not
  parse: JavaScript then prints "Invalid Date", which equals no selected day.
- Optional string fields are `Option<string>`. JavaScript truthiness (present
  and non-empty) is `Listing.Truthy`.
- The SMP and subtitles flags are `Option<bool>`. The filter compares them
  with `=== true`, and the card tests them for truthiness; for a boolean field
  both come to the same thing.
- `title` and `youtubeUrl` are required fields, because the page reads them
  without checking.

## Model

| member | source | states |
|---|---|---|
| `Listing.Matches` | app/page.js:29-42 | the conjunction of the seven criteria; with every criterion empty it accepts any record |
| `Listing.Filter` | app/page.js:28-43 | the result is no longer than the data, and every shown record comes from the data and satisfies all seven criteria |
| `Listing.FilterMembership` | app/page.js:28-43 | a record is shown if and only if it is in the data and all seven criteria accept it |
| `Listing.FilterCount` | app/page.js:28-43 | a matching record appears in the result exactly as often as in the data, and a non-matching one never does |
| `Listing.FilterIsSubsequence` | app/page.js:28-43 | the result is a subsequence of the data, so relative order is kept |
| `Listing.AnyFailingCriterionExcludes` | app/page.js:29-42 | one failing criterion is enough to hide a record |
| `Listing.FilterAppend` | app/page.js:28 | filtering a concatenation gives the concatenation of the filtered parts |
| `Listing.FilterIdempotent` | app/page.js:28-43 | filtering the filtered list again gives the same list |
| `Listing.EmptySearchMatches` | app/page.js:29-31 | the empty search matches every record |
| `Listing.FilterNoCriteria` | app/page.js:29-40 | with every criterion empty and no date selected, the result equals the data |
| `Listing.SearchIgnoresCase` | app/page.js:29-31 | a search and its lower-cased form match the same records |
| `Listing.SearchIgnoresRecordCase` | app/page.js:29-31 | records whose title and description differ only in letter case match the same searches |
| `Listing.VerbatimTitleMatches` | app/page.js:30 | a record whose title contains the search text verbatim passes the search |
| `Listing.StricterCriteriaNarrow` | app/page.js:28-43 | when criteria accept only records that other criteria also accept, their result is a subsequence of the other result |
| `Listing.SmpYesNarrows` | app/page.js:35 | with SMP "yes", every shown record has `smp` exactly true, and the result is a subsequence of the result with SMP unselected |
| `Listing.SubtitlesYesNarrows` | app/page.js:36 | the same one-sided law for subtitles |
| `Listing.FilterAgrees` | app/page.js:28-43 | criteria that accept the same records of the data give the same result |
| `Listing.OtherYesValuesIgnored` | app/page.js:35-36 | an SMP or subtitles selection other than "yes" constrains nothing, like the empty one |
| `Listing.ShownRecordsMeetSelections` | app/page.js:33-40 | non-empty tag, season and streamer selections, and a selected date, are met exactly by every shown record |
| `Text.ToLower` | app/page.js:30-31 | lower-casing keeps the length and lowers each ASCII letter |
| `Text.ToLowerIdempotent` | app/page.js:30-31 | lower-casing twice equals lower-casing once |
| `Text.ToLowerSlice` | app/page.js:30-31 | lower-casing commutes with taking a slice |
| `Text.FindFirst` | app/page.js:30-31 | returns the first index where the pattern occurs, or None exactly when it occurs nowhere |
| `Text.ContainsEmpty` | app/page.js:29-31 | every string includes the empty string |
| `Text.ContainsToLower` | app/page.js:30-31 | an occurrence remains one after both strings are lower-cased |
| `Text.ReplaceFirst` | app/page.js:147 | with no occurrence the string is unchanged; otherwise only the first occurrence is replaced |
| `Text.Join` | app/page.js:159 | `join`: the result starts with the first element and is as long as all elements plus one separator between each two; `Text.SplitJoin` reads it back |
| `Text.SplitJoin` | app/page.js:156-159 | a non-empty list whose elements create no stray separator occurrence is what cutting its join at the separator gives back |
| `Vocabulary.Distinct` | app/page.js:46-48 | the result holds exactly the values of the input, each once |
| `Vocabulary.DistinctInFirstOccurrenceOrder` | app/page.js:46-48 | `Set` insertion order: values are listed in the order of their first occurrence |
| `Vocabulary.KeepTruthy` | app/page.js:46-48 | `filter(Boolean)` keeps exactly the present non-empty strings |
| `Vocabulary.KeepTruthyKeepsOrder` | app/page.js:46-48 | dropping falsy values keeps the first-occurrence order of the survivors |
| `Vocabulary.Options` | app/page.js:46-48 | an option list is duplicate-free, holds exactly the truthy values, and follows their first-occurrence order |
| `Vocabulary.TagsOf` | app/page.js:48 | `d.tags \|\| []` yields exactly the record's tags |
| `Vocabulary.TagValuesMembership` | app/page.js:48 | a value is among the flattened tags if and only if some record carries it |
| `Vocabulary.Seasons` | app/page.js:46 | the season list is duplicate-free and in first-occurrence order, and a string is in it if and only if it is non-empty and some record's season |
| `Vocabulary.Streamers` | app/page.js:47 | the same for streamers |
| `Vocabulary.Tags` | app/page.js:48 | the same for tags, where membership means appearing in some record's tag list |
| `Card.EmbedUrl` | app/page.js:147 | the first "watch?v=" becomes "embed/", leaving the URL two characters shorter; a URL without the marker is unchanged |
| `Card.EmbedUrlExample` | app/page.js:147 | "https://youtube.com/watch?v=abc123" becomes "https://youtube.com/embed/abc123" |
| `Card.OrNotAvailable` | app/page.js:156 | the shown text is never empty; it is the value when that is a non-empty string, and "N/A" exactly when the value is absent, empty or itself "N/A" |
| `Card.YesNo` | app/page.js:156 | shows "Yes" exactly when the flag is true, and "No" otherwise |
| `Card.Summary` | app/page.js:156 | the summary is the four labelled fields joined with " \| "; `Card.SummaryReadBack` reads them back |
| `Card.SummaryReadBack` | app/page.js:156 | when neither season nor streamer contains '\|', cutting the summary at " \| " gives back the four labelled fields |
| `Card.ShownYesFlags` | app/page.js:35-36 | a record kept by an SMP or subtitles "yes" selection shows "Yes" for that flag |
| `Card.TagLine` | app/page.js:159 | a tag line exists exactly when `tags` is present, even an empty list; it is "Tags: " followed by the tags joined with ", " |
| `Card.SplitJoinTags` | app/page.js:159 | for a non-empty tag list in which no tag contains ", ", cutting the joined line at ", " gives back the tags (an empty list joins to "", which reads back as [""]) |
| `Scenarios.SmpYesScenario` | app/page.js:35 | of two episodes, SMP "yes" keeps only the one with `smp` true |
| `Scenarios.SearchScenario` | app/page.js:29-31 | the search "ep2" keeps "Ep2" and drops "Ep1" |
| `Scenarios.SeasonsScenario` | app/page.js:46 | the seasons "A", "", absent, "B" give the drop-down ["A", "B"] |

## Left out

- The Supabase query and `setData` (app/page.js:19-25) are network I/O. The
  model starts from an already fetched list. When the query fails, the code
  stores `null` and `data.filter` then throws. The model has no failure path.
- React state, hooks, JSX rendering, the calendar widget and the event
  handlers (app/page.js:9-16, 50-167) are left out. Each handler only replaces
  one criterion, which here is a field of `Criteria`. The "no streams found"
  placeholder (line 164) is shown exactly when `Filter` returns `[]`.
- Parsing with `new Date`, `toDateString` and `toLocaleDateString`
  (app/page.js:40, 142) depends on time zone and locale. The model compares
  abstract calendar days, and it does not model the displayed date string.
- `Text.ToLower`: lowers ASCII letters only, not full Unicode `toLowerCase`.
- A record without `title` or `youtube_url` makes the page crash. The model
  makes both fields required.
- Field values of other JavaScript types (a number as a season, `null` inside
  a tag list) are not modelled. Seasons and streamers are strings or absent,
  and tags are strings.
- The detail page `app/stream/[id]/page.js` is not part of this model. It
  fetches one record by id. It renders the same embed URL and the same N/A and
  Yes/No strings, but puts the four fields on separate lines instead of the
  " | " summary, and it hides the tag line for an empty tag list.
