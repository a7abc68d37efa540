/** The YouTube search route: its formatters, the batch id key, the details-to-record map and the handler's outcomes (src/app/api/videos/route.ts). */
module VideosRoute {
  import opened Wrappers
  import opened Text
  import opened Figures
  import opened Types
  import opened Gateway
  import YouTube
  import TwitterRoute

  // ---------------------------------------------------------------- views

  /**
   * `formatViews(string)`: "2.3M" from a million up, "1.5K" from a thousand up,
   * and below that the input itself, unchanged.
   */
  function FormatViews(viewCount: Digits): (r: string)
    ensures ParseDigits(viewCount) < 1000 ==> r == viewCount
    ensures ParseDigits(viewCount) >= 1000 ==>
      r != [] && (r[|r| - 1] == 'M' <==> ParseDigits(viewCount) >= 1000000)
      && (r[|r| - 1] == 'K' <==> ParseDigits(viewCount) < 1000000)
  {
    var count := ParseDigits(viewCount);
    if count >= 1000000 then ToFixed1(count, 1000000) + "M"
    else if count >= 1000 then ToFixed1(count, 1000) + "K"
    else viewCount
  }

  lemma FormatViewsReadsBack(viewCount: Digits)
    ensures var count := ParseDigits(viewCount);
      var f := ReadViews(FormatViews(viewCount));
      && (count < 1000 ==> FormatViews(viewCount) == viewCount)
      && (count >= 1000 ==> f.Some? && Approximates(f.value, count)
                            && (f.value.Thousands? <==> count < 1000000)
                            && (f.value.Millions? <==> count >= 1000000))
  {
    var count := ParseDigits(viewCount);
    if count >= 1000000 {
      ToFixed1ReadsBack(count, 1000000, 'M');
    } else if count >= 1000 {
      ToFixed1ReadsBack(count, 1000, 'K');
    }
  }

  /** On a count as `toString` writes it, both routes' formatters give the same text. */
  lemma FormatViewsAgreesWithTwitter(viewCount: Digits)
    requires IsCanonical(viewCount)
    ensures FormatViews(viewCount) == TwitterRoute.FormatViews(ParseDigits(viewCount))
  {
    NatToStringOfParse(viewCount);
  }

  // ---------------------------------------------------------------- durations

  /** "PT" starts at index `i` of `s`. */
  predicate PTAt(s: string, i: int) {
    0 <= i && i + 1 < |s| && s[i] == 'P' && s[i + 1] == 'T'
  }

  predicate ContainsPT(s: string) {
    exists i :: 0 <= i < |s| && PTAt(s, i)
  }

  /** The first index from `from` on where "PT" starts. */
  function FindPT(s: string, from: nat): (r: Option<nat>)
    requires from <= |s|
    ensures r.Some? ==> from <= r.value && PTAt(s, r.value)
    ensures forall i :: from <= i && (r.None? || i < r.value) ==> !PTAt(s, i)
    decreases |s| - from
  {
    if from + 1 >= |s| then None
    else if PTAt(s, from) then Some(from)
    else FindPT(s, from + 1)
  }

  /** The length of the run of digits that `s` starts with. */
  function DigitRun(s: string): (k: nat)
    ensures k <= |s| && IsDigits(s[..k])
    ensures k < |s| ==> !IsDigit(s[k])
  {
    if s != [] && IsDigit(s[0]) then
      var k := 1 + DigitRun(s[1..]);
      assert s[..k] == [s[0]] + s[1..][..k - 1];
      k
    else 0
  }

  /** The optional group `(\d+X)?` at the start of `s`, for designator X: one or more digits followed by X. */
  predicate GroupOfLength(s: string, k: int, designator: char) {
    0 < k < |s| && IsDigits(s[..k]) && s[k] == designator
  }

  /**
   * Matches `(\d+X)?` at the start of `s`: the digits of the group (empty when
   * the group does not take part) and what follows the group.
   */
  function Component(s: string, designator: char): (c: (Digits, string))
    ensures c.0 == "" ==> c.1 == s
    ensures c.0 != "" ==> s == c.0 + [designator] + c.1
  {
    var k := DigitRun(s);
    if 0 < k < |s| && s[k] == designator then
      assert s == s[..k] + [designator] + s[k + 1..];
      (s[..k], s[k + 1..])
    else ("", s)
  }

  /** The group takes part exactly when `s` starts with digits followed by the designator. */
  lemma ComponentIsGreedyGroup(s: string, designator: char)
    requires !IsDigit(designator)
    ensures Component(s, designator).0 != "" <==> exists k :: GroupOfLength(s, k, designator)
    ensures Component(s, designator).0 != "" ==> GroupOfLength(s, |Component(s, designator).0|, designator)
  {
    var k := DigitRun(s);
    if 0 < k < |s| && s[k] == designator {
      assert GroupOfLength(s, k, designator);
    }
    if j :| GroupOfLength(s, j, designator) {
      if j < k {
        assert s[..k][j] == s[j];
      } else if j > k {
        assert s[..j][k] == s[k];
      }
    }
  }

  lemma {:induction false} DigitRunOf(digits: string, rest: string)
    requires IsDigits(digits) && (rest == [] || !IsDigit(rest[0]))
    ensures DigitRun(digits + rest) == |digits|
  {
    if digits != [] {
      assert (digits + rest)[1..] == digits[1..] + rest;
      DigitRunOf(digits[1..], rest);
    } else {
      assert digits + rest == rest;
    }
  }

  /** A group of digits followed by its designator is read as that group, and reading goes on after the designator. */
  lemma ComponentOf(digits: string, designator: char, rest: string)
    requires IsDigits(digits) && digits != [] && !IsDigit(designator)
    ensures Component(digits + [designator] + rest, designator) == (digits, rest)
  {
    var s := digits + [designator] + rest;
    DigitRunOf(digits, [designator] + rest);
    assert s == digits + ([designator] + rest);
    assert s[..|digits|] == digits && s[|digits| + 1..] == rest;
  }

  /** The three groups of `/PT(\d+H)?(\d+M)?(\d+S)?/`, each "" when it does not take part. */
  datatype DurationMatch = DurationMatch(hours: Digits, minutes: Digits, seconds: Digits)

  /** `duration.match(/PT(\d+H)?(\d+M)?(\d+S)?/)`: unanchored, so it matches at the first "PT". */
  function MatchDuration(duration: string): (m: Option<DurationMatch>)
    ensures m.None? <==> !ContainsPT(duration)
  {
    match FindPT(duration, 0)
    case None => None
    case Some(i) =>
      Some(ReadGroups(duration[i + 2..]))
  }

  /** The groups `(\d+H)?(\d+M)?(\d+S)?` read one after the other from the start of `text`. */
  function ReadGroups(text: string): DurationMatch {
    var hours := Component(text, 'H');
    var minutes := Component(hours.1, 'M');
    var seconds := Component(minutes.1, 'S');
    DurationMatch(hours.0, minutes.0, seconds.0)
  }

  /** A group `(\d+X)?` as it stands in the text: the digits and their designator, or nothing. */
  function Group(digits: string, designator: char): string {
    if digits == "" then "" else digits + [designator]
  }

  /** The optional group stands at the start of `s`, and is empty exactly when no group of digits and designator does. */
  lemma ComponentReads(s: string, designator: char) returns (after: string)
    requires !IsDigit(designator)
    ensures s == Group(Component(s, designator).0, designator) + after
    ensures after == Component(s, designator).1
    ensures Component(s, designator).0 == "" <==> forall k :: !GroupOfLength(s, k, designator)
  {
    after := Component(s, designator).1;
    ComponentIsGreedyGroup(s, designator);
  }

  /**
   * The groups are read one after another from the start of the text, and a
   * group is empty exactly when the text at its place does not start with digits
   * followed by its designator.
   */
  lemma ReadGroupsReads(text: string) returns (afterHours: string, afterMinutes: string, rest: string)
    ensures var m := ReadGroups(text);
      && text == Group(m.hours, 'H') + afterHours
      && afterHours == Group(m.minutes, 'M') + afterMinutes
      && afterMinutes == Group(m.seconds, 'S') + rest
    ensures var m := ReadGroups(text);
      && (m.hours == "" <==> forall k :: !GroupOfLength(text, k, 'H'))
      && (m.minutes == "" <==> forall k :: !GroupOfLength(afterHours, k, 'M'))
      && (m.seconds == "" <==> forall k :: !GroupOfLength(afterMinutes, k, 'S'))
  {
    afterHours := ComponentReads(text, 'H');
    afterMinutes := ComponentReads(afterHours, 'M');
    rest := ComponentReads(afterMinutes, 'S');
  }

  /**
   * The match is read right after the first "PT": the groups it reports stand one
   * after another at the start of the text that follows it.
   */
  lemma MatchDurationAt(duration: string, i: nat) returns (afterHours: string, afterMinutes: string, rest: string)
    requires FindPT(duration, 0) == Some(i)
    ensures MatchDuration(duration) == Some(ReadGroups(duration[i + 2..]))
    ensures var m := MatchDuration(duration).value;
      && duration[i + 2..] == Group(m.hours, 'H') + afterHours
      && afterHours == Group(m.minutes, 'M') + afterMinutes
      && afterMinutes == Group(m.seconds, 'S') + rest
  {
    afterHours, afterMinutes, rest := ReadGroupsReads(duration[i + 2..]);
  }

  /** The number of seconds the matched groups denote. */
  function MatchedSeconds(m: DurationMatch): nat {
    3600 * ParseDigits(m.hours) + 60 * ParseDigits(m.minutes) + ParseDigits(m.seconds)
  }

  /** The fields `formatDuration` pushes: the hours if given, the minutes or "0", the seconds padded to two digits. */
  function DurationFields(m: DurationMatch): seq<string> {
    var minutes := if m.minutes != "" then m.minutes else "0";
    var padded := PadStart(m.seconds, 2, '0');
    var seconds := if padded != "" then padded else "00";
    if m.hours != "" then [m.hours, minutes, seconds] else [minutes, seconds]
  }

  /** What `formatDuration(string)` returns. */
  function DurationText(duration: string): (r: string)
    ensures !ContainsPT(duration) ==> r == "0:00"
    ensures ':' in r
  {
    match MatchDuration(duration)
    case None => "0:00"
    case Some(m) => Join(DurationFields(m), ':')
  }

  /** The fields are the hours (if any), the minutes or "0", and the padded seconds. */
  lemma DurationFieldsList(m: DurationMatch)
    ensures var minutes := if m.minutes != "" then m.minutes else "0";
      var padded := PadStart(m.seconds, 2, '0');
      DurationFields(m) == (if m.hours != "" then [m.hours, minutes, padded] else [minutes, padded])
  {
    assert PadStart(m.seconds, 2, '0') != "";
  }

  lemma DurationFieldsAreDigits(m: DurationMatch)
    ensures var fields := DurationFields(m);
      (forall i :: 0 <= i < |fields| ==> IsDigits(fields[i]) && fields[i] != "" && ':' !in fields[i])
      && (|fields| == 3 <==> m.hours != "") && (|fields| == 2 <==> m.hours == "")
      && (m.hours != "" ==> fields[0] == m.hours)
      && fields[|fields| - 2] == (if m.minutes != "" then m.minutes else "0")
      && |fields[|fields| - 1]| == (if |m.seconds| >= 2 then |m.seconds| else 2)
      && fields[|fields| - 1][|fields[|fields| - 1]| - |m.seconds|..] == m.seconds
  {
    var minutes := if m.minutes != "" then m.minutes else "0";
    var padded := PadStart(m.seconds, 2, '0');
    DurationFieldsList(m);
    PadStartZerosAreDigits(m.seconds, 2);
    DigitsHaveNoSeparator(padded, ':');
    DigitsHaveNoSeparator(minutes, ':');
    if m.hours != "" {
      DigitsHaveNoSeparator(m.hours, ':');
    }
  }

  /** The minutes field ("0" when the group is absent) has the value of the group. */
  lemma MinutesFieldValue(m: DurationMatch)
    ensures var minutes := if m.minutes != "" then m.minutes else "0";
      IsDigits(minutes) && ParseDigits(minutes) == ParseDigits(m.minutes)
  {
    assert ParseDigits("0") == 0;
  }

  /** With an hours group, the three fields read as a clock give the matched seconds. */
  lemma ClockWithHours(m: DurationMatch)
    requires m.hours != ""
    ensures forall i :: 0 <= i < |DurationFields(m)| ==> IsDigits(DurationFields(m)[i])
    ensures ClockSeconds(DurationFields(m)) == MatchedSeconds(m)
  {
    var minutes := if m.minutes != "" then m.minutes else "0";
    var padded := PadStart(m.seconds, 2, '0');
    MinutesFieldValue(m);
    PadStartZerosKeepsValue(m.seconds, 2);
    assert padded != "";
    assert DurationFields(m) == [m.hours, minutes, padded];
    ClockOfThree(m.hours, minutes, padded);
  }

  /** Without an hours group, the two fields read as a clock give the matched seconds. */
  lemma ClockWithoutHours(m: DurationMatch)
    requires m.hours == ""
    ensures forall i :: 0 <= i < |DurationFields(m)| ==> IsDigits(DurationFields(m)[i])
    ensures ClockSeconds(DurationFields(m)) == MatchedSeconds(m)
  {
    var minutes := if m.minutes != "" then m.minutes else "0";
    var padded := PadStart(m.seconds, 2, '0');
    MinutesFieldValue(m);
    PadStartZerosKeepsValue(m.seconds, 2);
    assert padded != "";
    assert DurationFields(m) == [minutes, padded];
    ClockOfTwo(minutes, padded);
  }

  /** Read as a clock, the fields stand for the matched number of seconds. */
  lemma DurationFieldsClock(m: DurationMatch)
    ensures forall i :: 0 <= i < |DurationFields(m)| ==> IsDigits(DurationFields(m)[i])
    ensures ClockSeconds(DurationFields(m)) == MatchedSeconds(m)
  {
    if m.hours != "" {
      ClockWithHours(m);
    } else {
      ClockWithoutHours(m);
    }
  }

  /**
   * The result has three fields (hours, minutes, seconds) exactly when an hours
   * group is present and two otherwise, each a digit string; the minutes are as
   * written (default "0"), the seconds are padded on the left to two digits and
   * never cut; and read as a clock it stands for the matched duration.
   */
  lemma DurationTextReadsBack(duration: string)
    ensures var fields := Split(DurationText(duration), ':');
      && (forall i :: 0 <= i < |fields| ==> IsDigits(fields[i]) && fields[i] != "")
      && |fields[|fields| - 1]| >= 2
      && match MatchDuration(duration) {
           case None => DurationText(duration) == "0:00"
           case Some(m) =>
             && (|fields| == 3 <==> m.hours != "")
             && (|fields| == 2 <==> m.hours == "")
             && (m.hours != "" ==> fields[0] == m.hours)
             && fields[|fields| - 2] == (if m.minutes != "" then m.minutes else "0")
             && |fields[|fields| - 1]| >= |m.seconds|
             && fields[|fields| - 1][|fields[|fields| - 1]| - |m.seconds|..] == m.seconds
             && ClockSeconds(fields) == MatchedSeconds(m)
         }
  {
    match MatchDuration(duration)
    case None =>
      NoMatchReadsBack(duration);
    case Some(m) =>
      assert DurationText(duration) == Join(DurationFields(m), ':');
      FieldsReadBack(m);
      DurationFieldsAreDigits(m);
      DurationFieldsClock(m);
  }

  /** Without a match the text is "0:00", two digit fields worth nothing. */
  lemma NoMatchReadsBack(duration: string)
    requires MatchDuration(duration).None?
    ensures DurationText(duration) == "0:00"
    ensures var fields := Split("0:00", ':');
      fields == ["0", "00"] && ClockSeconds(fields) == 0
  {
    assert "0:00" == Join(["0", "00"], ':');
    SplitJoin(["0", "00"], ':');
    ClockOfTwo("0", "00");
    assert ParseDigits("00") == 0 && ParseDigits("0") == 0;
  }

  /** Joined with ':' and split again, the fields come back unchanged. */
  lemma FieldsReadBack(m: DurationMatch)
    ensures Split(Join(DurationFields(m), ':'), ':') == DurationFields(m)
  {
    DurationFieldsAreDigits(m);
    SplitJoin(DurationFields(m), ':');
  }

  /** The fields `formatDuration(string)` pushes onto its list `parts`, one push at a time. */
  method DurationParts(m: DurationMatch) returns (parts: seq<string>)
    ensures parts == DurationFields(m)
    ensures |parts| == (if m.hours != "" then 3 else 2)
  {
    parts := [];
    if m.hours != "" {
      parts := parts + [m.hours];
    }
    parts := parts + [if m.minutes != "" then m.minutes else "0"];
    var padded := PadStart(m.seconds, 2, '0');
    parts := parts + [if padded != "" then padded else "00"];
  }

  /**
   * `formatDuration(string)`: "0:00" when the input has no "PT"; otherwise the
   * pushed fields joined with ':', which read as a clock stand for the matched
   * duration.
   */
  method FormatDuration(duration: string) returns (r: string)
    ensures r == DurationText(duration)
    ensures !ContainsPT(duration) ==> r == "0:00"
    ensures var fields := Split(r, ':');
      && (forall i :: 0 <= i < |fields| ==> IsDigits(fields[i]) && fields[i] != "")
      && (ContainsPT(duration) ==>
            && (|fields| == 3 <==> MatchDuration(duration).value.hours != "")
            && ClockSeconds(fields) == MatchedSeconds(MatchDuration(duration).value))
  {
    DurationTextReadsBack(duration);
    var matched := MatchDuration(duration);
    if matched.None? {
      return "0:00";
    }
    var parts := DurationParts(matched.value);
    r := Join(parts, ':');
  }

  // ---------------------------------------------------------------- records

  const WatchUrlPrefix := "https://www.youtube.com/watch?v="
  const ErrorMessage := "Failed to fetch videos"

  datatype Statistics = Statistics(viewCount: Digits, likeCount: Option<string>)
  datatype ContentDetails = ContentDetails(duration: string)

  /** An item of the batch details response (`part=snippet,statistics,contentDetails`). */
  datatype DetailsItem = DetailsItem(
    id: string,
    snippet: YouTube.Snippet,
    statistics: Option<Statistics>,
    contentDetails: ContentDetails)

  /** Views agree with the raw count: `views` is the rendering of the digit string `viewCount`. */
  predicate DetailsViewsAgree(v: Video) {
    IsDigits(v.viewCount) && v.views == FormatViews(v.viewCount)
  }

  /** One details item as a record; `video.statistics.viewCount` needs the statistics to be there. */
  function DetailsToVideo(video: DetailsItem): (v: Video)
    requires video.statistics.Some?
    ensures v.id == video.id && v.videoUrl == WatchUrlPrefix + video.id
    ensures v.platform == YouTube && IsYouTubeVideo(v) && WellFormed(v)
    ensures v.title == video.snippet.title && v.description == video.snippet.description
    ensures v.thumbnail == video.snippet.thumbnails.high.url
    ensures v.creator == video.snippet.channelTitle && v.publishedAt == video.snippet.publishedAt
    ensures v.viewCount == video.statistics.value.viewCount && DetailsViewsAgree(v)
    ensures v.likeCount == video.statistics.value.likeCount
    ensures v.duration == DurationText(video.contentDetails.duration)
  {
    Video(
      video.id,
      video.snippet.title,
      video.snippet.description,
      video.snippet.thumbnails.high.url,
      video.snippet.thumbnails.high.url,
      video.snippet.publishedAt,
      video.snippet.channelTitle,
      video.snippet.channelTitle,
      FormatViews(video.statistics.value.viewCount),
      video.statistics.value.viewCount,
      DurationText(video.contentDetails.duration),
      video.statistics.value.likeCount,
      WatchUrlPrefix + video.id,
      YouTube)
  }

  predicate AllHaveStatistics(items: seq<DetailsItem>) {
    forall i :: 0 <= i < |items| ==> items[i].statistics.Some?
  }

  /** `videosData.items.map(...)`: one record per item, in the same order. */
  function DetailsToVideos(items: seq<DetailsItem>): (videos: seq<Video>)
    requires AllHaveStatistics(items)
    ensures |videos| == |items|
    ensures forall i :: 0 <= i < |items| ==> videos[i] == DetailsToVideo(items[i])
  {
    seq(|items|, i requires 0 <= i < |items| => DetailsToVideo(items[i]))
  }

  // ---------------------------------------------------------------- the handler

  function VideoIds(items: seq<YouTube.Item>): (ids: seq<string>)
    ensures |ids| == |items|
    ensures forall i :: 0 <= i < |items| ==> ids[i] == items[i].id.videoId
  {
    seq(|items|, i requires 0 <= i < |items| => items[i].id.videoId)
  }

  /** `searchData.items.map(item => item.id.videoId).join(',')`. */
  function IdKey(items: seq<YouTube.Item>): (r: string)
    ensures items == [] ==> r == ""
    ensures |items| == 1 ==> r == items[0].id.videoId
  {
    Join(VideoIds(items), ',')
  }

  /** The batch key lists the search results' ids in search order. */
  lemma IdKeyListsIds(items: seq<YouTube.Item>)
    requires items != []
    requires forall i :: 0 <= i < |items| ==> ',' !in items[i].id.videoId
    ensures Split(IdKey(items), ',') == VideoIds(items)
  {
    SplitJoin(VideoIds(items), ',');
  }

  /** The result of a request: it failed, or its body arrived. */
  datatype Fetched<B> = NetworkError | Received(body: B)

  /** A JSON body that is unreadable, or an object whose `items` may be absent or not an array. */
  datatype SearchBody = SearchUnreadable | SearchJson(items: Option<seq<YouTube.Item>>)
  datatype DetailsBody = DetailsUnreadable | DetailsJson(items: Option<seq<DetailsItem>>)

  datatype Request = SearchRequest(query: string) | DetailsRequest(ids: string)

  /** What the handler does: the requests it sends, in order, and its reply. */
  datatype Exchange = Exchange(requests: seq<Request>, reply: Reply)

  function SearchItems(search: Fetched<SearchBody>): Option<seq<YouTube.Item>> {
    if search.Received? && search.body.SearchJson? then search.body.items else None
  }

  function DetailsItems(details: Fetched<DetailsBody>): Option<seq<DetailsItem>> {
    if details.Received? && details.body.DetailsJson? then details.body.items else None
  }

  /**
   * `GET`: searches for the query, then asks for the details of every id found
   * (even none), and replies with the mapped items. Any failure on the way (a
   * request that fails, a body that is not JSON, a missing `items` array, an item
   * without statistics) is the fixed 500 error; the response status is never
   * looked at. `details` is what the details request returned.
   */
  function Get(q: Option<string>, search: Fetched<SearchBody>, details: Fetched<DetailsBody>): (x: Exchange)
    ensures |x.requests| >= 1 && x.requests[0] == SearchRequest(EffectiveQuery(q))
    ensures |x.requests| == (if SearchItems(search).Some? then 2 else 1)
    ensures |x.requests| == 2 ==> x.requests[1] == DetailsRequest(IdKey(SearchItems(search).value))
    ensures x.reply.Ok200? <==>
      SearchItems(search).Some? && DetailsItems(details).Some? && AllHaveStatistics(DetailsItems(details).value)
    ensures x.reply.Err500? ==> x.reply.error == ErrorMessage
    ensures x.reply.Ok200? ==>
      |x.reply.videos| == |DetailsItems(details).value|
      && forall i :: 0 <= i < |x.reply.videos| ==> x.reply.videos[i] == DetailsToVideo(DetailsItems(details).value[i])
  {
    var searchRequest := SearchRequest(EffectiveQuery(q));
    match search
    case NetworkError => Exchange([searchRequest], Err500(ErrorMessage))
    case Received(SearchUnreadable) => Exchange([searchRequest], Err500(ErrorMessage))
    case Received(SearchJson(None)) => Exchange([searchRequest], Err500(ErrorMessage))
    case Received(SearchJson(Some(items))) =>
      var requests := [searchRequest, DetailsRequest(IdKey(items))];
      match details
      case NetworkError => Exchange(requests, Err500(ErrorMessage))
      case Received(DetailsUnreadable) => Exchange(requests, Err500(ErrorMessage))
      case Received(DetailsJson(None)) => Exchange(requests, Err500(ErrorMessage))
      case Received(DetailsJson(Some(videos))) =>
        if AllHaveStatistics(videos) then Exchange(requests, Ok200(DetailsToVideos(videos)))
        else Exchange(requests, Err500(ErrorMessage))
  }

  /** An empty search still sends the details request, with an empty id key. */
  lemma EmptySearchStillRequestsDetails(q: Option<string>, details: Fetched<DetailsBody>)
    ensures Get(q, Received(SearchJson(Some([]))), details).requests
      == [SearchRequest(EffectiveQuery(q)), DetailsRequest("")]
  {
  }

  /** Every record in a successful reply is a well-formed YouTube record whose views agree with its count. */
  lemma GetRecordsAreYouTube(q: Option<string>, search: Fetched<SearchBody>, details: Fetched<DetailsBody>)
    ensures var r := Get(q, search, details).reply;
      r.Ok200? ==> forall v :: v in r.videos ==> IsYouTubeVideo(v) && WellFormed(v) && DetailsViewsAgree(v)
  {
  }
}
