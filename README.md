# TruckTok normalisation layer in Dafny

TruckTok gathers short truck videos from several platforms and turns every
platform's answer into one shared `Video` record. This project models the part
of it that does that turning:

- the unit formatters: the two `formatViews` (a number for Twitter, a digit
  string for YouTube) and the two `formatDuration` (milliseconds for Twitter,
  an ISO 8601 `PT#H#M#S` duration for YouTube);
- the record mappers: tweet to `Video`, YouTube details item to `Video`, and
  YouTube search item to `YouTubeVideo`;
- the outcome rules of the Twitter and YouTube `GET` handlers, as pure functions
  of the query, the configuration and what the upstream requests returned;
- the shared `Video` record, its closed `platform` set and `isYouTubeVideo`.

Files, one module each: `types.dfy` (src/lib/types.ts), `youtube.dfy`
(src/lib/youtube.ts), `twitter_route.dfy` (src/app/api/twitter/route.ts),
`videos_route.dfy` (src/app/api/videos/route.ts), `gateway.dfy` (the reply
shape and the default query both handlers share), and the helpers `text.dfy`
(digit strings, `toString`, `padStart`, `join`, `split`), `figures.dfy`
(`toFixed(1)` and readers that read a shown figure or clock back) and
`wrappers.dfy` (`Option`). `examples.dfy` works out examples of both routes' formatters.

The properties are stated against independent readers: a shown view figure
("1.5K") is read back and proved to lie within half a shown tenth of the count;
a shown duration is split on ':' and read as a clock, and proved to stand for
the input's seconds; a joined id key is split back into the ids.

Behaviour worth noting:

- the ISO formatter does not pad minutes, so "PT1H2M3S" gives "1:2:03", and it
  never cuts seconds, so "PT120S" gives "0:120" (which is not of the form
  `M:SS`);
- the YouTube handler sends the details request even when the search found no
  ids (with an empty id key) and never looks at the response status; an error
  body fails only because it has no `items` array;
- `types.ts` calls `viewCount` an alias of `views`, but the routes make `views`
  a rendering of `viewCount` ("1.5K" for "1500"); the model states that relation.

## Model

| member | source | states |
|---|---|---|
| Types.WellFormed | src/lib/types.ts:1-16 | the two aliases commented in the record hold: `thumbnailUrl` is `thumbnail` and `creator` is `channelTitle` (a definition; both routes' records are proved to meet it) |
| Types.IsYouTubeVideo | src/lib/types.ts:19-21 | true exactly for YouTube records, so false for every TikTok and Twitter record |
| Types.PlatformTagRoundTrip | src/lib/types.ts:15 | the platform is one of the closed set youtube, tiktok, twitter: each tag reads back as its platform and only those three strings are platforms |
| Gateway.EffectiveQuery | src/app/api/twitter/route.ts:33 | an absent or empty `q` becomes "custom trucks", any other is kept; the result is never empty (same rule at src/app/api/videos/route.ts:6) |
| Figures.RoundedTenths | src/app/api/twitter/route.ts:102 | the tenths `toFixed(1)` shows are within half a tenth of `n / unit` |
| Figures.Fixed1ReadsBack | src/app/api/twitter/route.ts:102 | a one-decimal rendering reads back as the tenths it was made from |
| Figures.ToFixed1ReadsBack | src/app/api/twitter/route.ts:102-105 | a figure with its K or M suffix reads back as tenths of a thousand or a million within half a tenth of the count |
| TwitterRoute.FormatViews | src/app/api/twitter/route.ts:100-108 | the text ends in 'M' exactly from 1,000,000 up and in 'K' exactly from 1,000 up to below 1,000,000 |
| TwitterRoute.FormatViewsReadsBack | src/app/api/twitter/route.ts:100-108 | from 1,000,000 the text reads as millions, from 1,000 as thousands, each within half a shown tenth of the count; below 1,000 it is the exact count, written without leading zeros |
| TwitterRoute.FormatDuration | src/app/api/twitter/route.ts:110-115 | the text ends in ':' and exactly two digits |
| TwitterRoute.FormatDurationReadsBack | src/app/api/twitter/route.ts:110-115 | the text is `m:ss`: two fields, minutes written as `toString` writes them, seconds exactly two digits below 60, and 60·m + ss is the whole seconds of the input |
| TwitterRoute.FormatDurationSingleDigitSeconds | src/app/api/twitter/route.ts:113-114 | fewer than ten remaining seconds get a leading zero |
| TwitterRoute.FirstMedia | src/app/api/twitter/route.ts:81 | `attachments?.media?.[0]`: present exactly when there is a non-empty media list, and then its first element |
| TwitterRoute.ViewCountOf | src/app/api/twitter/route.ts:84-85 | `public_metrics?.view_count`: present exactly when both levels are, and then that count |
| TwitterRoute.TweetToVideo | src/app/api/twitter/route.ts:77-91 | id, status URL, platform twitter, text as title and description, "@" + author as creator and channel title, aliases equal, thumbnail is the first media's non-empty preview URL when there is one and the placeholder otherwise, views agree with viewCount, viewCount is the count or "0", duration has minutes as `toString` writes them and seconds of exactly two digits below 60, and reads as the first media's seconds or 0 |
| TwitterRoute.TweetsToVideos | src/app/api/twitter/route.ts:77 | one record per tweet, same length, same order |
| TwitterRoute.Get | src/app/api/twitter/route.ts:31-98 | a search is sent only with a non-empty token, for "query has:videos"; the reply is the fixed 500 error exactly when the token is missing or empty, the request fails, the status is not 2xx or the body is unreadable; a body without `data` gives 200 `[]`; otherwise 200 with the mapped tweets in order |
| TwitterRoute.GetRecordsAreTwitter | src/app/api/twitter/route.ts:77-93 | every record of a 200 reply is a well-formed Twitter record whose views agree with its count |
| VideosRoute.FormatViews | src/app/api/videos/route.ts:46-55 | below 1,000 the input is returned as is; from 1,000 up the text ends in 'M' exactly from 1,000,000 and in 'K' otherwise |
| VideosRoute.FormatViewsReadsBack | src/app/api/videos/route.ts:46-55 | a count from 1,000 up reads back as thousands or millions within half a shown tenth; below 1,000 the input string is returned unchanged |
| VideosRoute.FormatViewsAgreesWithTwitter | src/app/api/videos/route.ts:46-55 | on a count written as `toString` writes it, both routes' `formatViews` give the same text |
| VideosRoute.FindPT | src/app/api/videos/route.ts:58 | the first index where "PT" starts, or none when there is no "PT" |
| VideosRoute.Component | src/app/api/videos/route.ts:58 | an optional group `(\d+X)?` takes digits and the designator, or nothing |
| VideosRoute.ComponentIsGreedyGroup | src/app/api/videos/route.ts:58 | the group takes part exactly when the text starts with digits followed by the designator, and then takes all of those digits |
| VideosRoute.ComponentOf | src/app/api/videos/route.ts:58 | digits followed by the designator are read as that group, and reading goes on after it |
| VideosRoute.MatchDuration | src/app/api/videos/route.ts:58-59 | the unanchored pattern fails exactly when the input has no "PT" (what it captures is stated by MatchDurationAt and ReadGroupsReads) |
| VideosRoute.ComponentReads | src/app/api/videos/route.ts:58 | an optional group stands at the start of the text, and is empty exactly when no digits-then-designator group does |
| VideosRoute.ReadGroupsReads | src/app/api/videos/route.ts:58 | the hours, minutes and seconds groups stand one after another at the start of the text, each empty exactly when no group of its kind starts at its place |
| VideosRoute.MatchDurationAt | src/app/api/videos/route.ts:58 | when the input has a "PT", the match is read right after its first occurrence: the groups it reports stand one after another at the start of that text |
| VideosRoute.DurationText | src/app/api/videos/route.ts:57-71 | "0:00" when the input has no "PT"; the text always contains ':' |
| VideosRoute.DurationFieldsAreDigits | src/app/api/videos/route.ts:61-68 | three fields exactly when hours are present, each a non-empty digit string without ':', minutes as written or "0", seconds padded to at least two digits and never cut |
| VideosRoute.DurationFieldsClock | src/app/api/videos/route.ts:61-70 | read as a clock (each field sixty of the next), the fields equal 3600·hours + 60·minutes + seconds of the match |
| VideosRoute.DurationTextReadsBack | src/app/api/videos/route.ts:57-71 | "0:00" without a match; otherwise the joined text splits back into those fields, each a non-empty digit string, and reads as the matched duration |
| VideosRoute.DurationParts | src/app/api/videos/route.ts:65-68 | the pushes build the hours (if any), the minutes or "0", and the padded seconds |
| VideosRoute.FormatDuration | src/app/api/videos/route.ts:57-71 | "0:00" without "PT"; otherwise digit fields, three exactly when hours are present, standing as a clock for the matched duration |
| VideosRoute.DetailsToVideo | src/app/api/videos/route.ts:22-37 | id, watch URL, platform youtube, aliases equal, snippet fields copied, viewCount passed through with views its rendering, likeCount passed through, duration formatted |
| VideosRoute.DetailsToVideos | src/app/api/videos/route.ts:22 | one record per item, same length, same order |
| VideosRoute.VideoIds | src/app/api/videos/route.ts:16 | the search items' `videoId`s in search order |
| VideosRoute.IdKey | src/app/api/videos/route.ts:16 | no items give the empty key and one item gives its id alone |
| VideosRoute.IdKeyListsIds | src/app/api/videos/route.ts:16 | the comma-joined key splits back into the ids, in search order |
| VideosRoute.Get | src/app/api/videos/route.ts:4-44 | the search request carries the query; the details request is sent exactly when the search has `items` (two requests, otherwise only the search), keyed by the joined ids; the reply is 200 exactly when both bodies have `items` and every item has statistics, with the mapped items in order, and otherwise the fixed 500 error |
| VideosRoute.EmptySearchStillRequestsDetails | src/app/api/videos/route.ts:16-19 | an empty search still sends the details request, with an empty key |
| VideosRoute.GetRecordsAreYouTube | src/app/api/videos/route.ts:22-39 | every record of a 200 reply is a well-formed YouTube record whose views agree with its count |
| YouTube.MapItem | src/lib/youtube.ts:36-45 | id is `id.videoId`, thumbnail is the high thumbnail URL, viewCount and likeCount absent exactly when statistics are |
| YouTube.MapItemLosesNothing | src/lib/youtube.ts:37-44 | the projection copies every field verbatim: the item can be rebuilt from the video |
| YouTube.MapYouTubeApiResponse | src/lib/youtube.ts:35-46 | one video per item, same length, same order |
| YouTube.MapYouTubeApiResponseLosesNothing | src/lib/youtube.ts:35-46 | the response's items can be rebuilt from the mapped list |
| Text.ParseNatToString | src/app/api/twitter/route.ts:107 | `toString` of a count reads back as the count |
| Text.NatToStringOfParse | src/app/api/twitter/route.ts:85 | a digit string without leading zeros is what `toString` writes for its value |
| Figures.ClockOfThree | src/app/api/videos/route.ts:65-70 | a three-field clock "h:m:s" stands for 3600·h + 60·m + s seconds |
| Text.PadStartZerosKeepsValue | src/app/api/twitter/route.ts:114 | padding a digit string with zeros keeps its value |
| Text.SplitJoin | src/app/api/videos/route.ts:70 | joining parts free of the separator and splitting again gives the parts back |
| Examples.TwitterViewsExamples | src/app/api/twitter/route.ts:100-108 | 999 is "999", 1500 is "1.5K", 2,300,000 is "2.3M" |
| Examples.TwitterDurationPadsSeconds | src/app/api/twitter/route.ts:110-115 | 65,000 ms is "1:05" |
| Examples.TwitterDurationHasNoHours | src/app/api/twitter/route.ts:110-115 | 3,600,000 ms is "60:00" |
| Examples.DurationTextWithHours | src/app/api/videos/route.ts:57-71 | "PT1H2M3S" is "1:2:03" |
| Examples.DurationTextMinutesOnly | src/app/api/videos/route.ts:57-71 | "PT5M" is "5:00" |
| Examples.DurationTextSecondsOnly | src/app/api/videos/route.ts:57-71 | "PT45S" is "0:45" |
| Examples.DurationTextNoGroups | src/app/api/videos/route.ts:57-71 | "PT" is "0:00" |
| Examples.DurationTextLongSeconds | src/app/api/videos/route.ts:57-71 | "PT120S" is "0:120" |
| Examples.DurationTextUnanchored | src/app/api/videos/route.ts:58 | "P5MPT7S" is read at its "PT" and gives "0:07" |

## Left out

- `fetch`, `NextResponse`, `process.env`, `console` and `encodeURIComponent`: requests are modelled by what they carry (the search text, the query, the id key) and their results are inputs (a failed request, a status, a body); the URL encoding and the fixed endpoint parameters are not modelled.
- The YouTube API key is not modelled: the handler sends it without checking it, so a missing key shows up only as an upstream body without `items`.
- Figures.RoundedTenths: `toFixed(1)` works on a binary double; the model rounds exact halves up, and the properties are stated as "within half a shown tenth", which holds whichever way a halfway value rounds.
- VideosRoute.FormatViews: `parseInt` leniency ("12abc" reads as 12) is not modelled; `viewCount` is a digit string (possibly empty, which `parseInt` reads as NaN and the model as a count below 1,000: both return the input).
- TwitterRoute.Tweet: `view_count` and `duration_ms` are non-negative whole numbers; fractional or negative values are not modelled.
- The fields of YouTube details and search items other than `statistics` are taken as present. In the handler a search item without `id`, or a details item without `snippet` or `thumbnails.high`, would throw (and so give the 500 reply); a details item without `id` would not throw but give a record whose `id` is undefined. None of these is modelled. A missing `statistics` is modelled (the handler fails with the 500 error).
- The short-video route (src/app/api/tiktok/route.ts) is not part of this model: it returns a fixed one-element list.
- The React components and pages (src/components, src/app/page.tsx, src/app/layout.tsx), including the client's concurrent fetch of all routes and its merge, are not part of this model.
