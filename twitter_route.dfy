/** The Twitter search route: its formatters, the tweet-to-record map and the handler's outcomes (src/app/api/twitter/route.ts). */
module TwitterRoute {
  import opened Wrappers
  import opened Text
  import opened Figures
  import opened Types
  import opened Gateway

  datatype PublicMetrics = PublicMetrics(viewCount: Option<nat>)
  datatype Media = Media(previewImageUrl: Option<string>, durationMs: Option<nat>)
  datatype Attachments = Attachments(media: Option<seq<Media>>)
  datatype Tweet = Tweet(
    id: string,
    text: string,
    createdAt: string,
    authorId: string,
    publicMetrics: Option<PublicMetrics>,
    attachments: Option<Attachments>)

  /** The result of the search request: the request failed, or a status and a body. */
  datatype Upstream = NetworkError | Response(status: int, body: Body)

  /**
   * The body of a 2xx response: unreadable when it is not JSON or is JSON `null` (reading `data` throws);
   * otherwise any JSON value, whose `data` may be absent or not an array (a number, string or array has no `data`).
   */
  datatype Body = Unreadable | Json(data: Option<seq<Tweet>>)

  /** What the handler does: the search text it sends, if it sends one, and its reply. */
  datatype Exchange = Exchange(searchText: Option<string>, reply: Reply)

  const Placeholder := "https://picsum.photos/400/300"
  const StatusUrlPrefix := "https://twitter.com/i/status/"
  const ErrorMessage := "Failed to fetch Twitter videos"

  /** `formatViews(number)`: "2.3M" from a million up, "1.5K" from a thousand up, the plain count below. */
  function FormatViews(viewCount: nat): (r: string)
    ensures r != [] && (r[|r| - 1] == 'M' <==> viewCount >= 1000000)
    ensures r[|r| - 1] == 'K' <==> 1000 <= viewCount < 1000000
  {
    if viewCount >= 1000000 then ToFixed1(viewCount, 1000000) + "M"
    else if viewCount >= 1000 then ToFixed1(viewCount, 1000) + "K"
    else
      var s := NatToString(viewCount);
      assert IsDigit(s[|s| - 1]);
      s
  }

  lemma FormatViewsReadsBack(n: nat)
    ensures var f := ReadViews(FormatViews(n));
      f.Some? && Approximates(f.value, n)
      && (f.value.Plain? <==> n < 1000)
      && (n < 1000 ==> IsCanonical(FormatViews(n)))
      && (f.value.Thousands? <==> 1000 <= n < 1000000)
      && (f.value.Millions? <==> n >= 1000000)
  {
    if n >= 1000000 {
      ToFixed1ReadsBack(n, 1000000, 'M');
    } else if n >= 1000 {
      ToFixed1ReadsBack(n, 1000, 'K');
    } else {
      var s := NatToString(n);
      ParseNatToString(n);
      assert s[|s| - 1] != 'M' && s[|s| - 1] != 'K';
    }
  }

  /** `formatDuration(ms)`: whole minutes, a colon, then the remaining seconds as two digits. */
  function FormatDuration(durationMs: nat): (r: string)
    ensures |r| >= 4 && r[|r| - 3] == ':' && IsDigits(r[|r| - 2..])
  {
    var seconds := durationMs / 1000;
    var minutes := seconds / 60;
    var remainingSeconds := seconds % 60;
    var padded := PadStart(NatToString(remainingSeconds), 2, '0');
    assert |padded| == 2 && IsDigits(padded) by {
      var rs := NatToString(remainingSeconds);
      if remainingSeconds >= 10 {
        assert rs == NatToString(remainingSeconds / 10) + [DigitChar(remainingSeconds % 10)];
        assert NatToString(remainingSeconds / 10) == [DigitChar(remainingSeconds / 10)];
      }
      assert |rs| <= 2;
      PadStartZerosAreDigits(NatToString(remainingSeconds), 2);
    }
    var r := NatToString(minutes) + ":" + padded;
    assert r[|r| - 2..] == padded;
    r
  }

  /** The duration has two fields, minutes and exactly two digits of seconds below 60, standing for the whole seconds of the input. */
  lemma FormatDurationReadsBack(durationMs: nat)
    ensures var fields := Split(FormatDuration(durationMs), ':');
      |fields| == 2 && IsCanonical(fields[0]) && IsDigits(fields[1])
      && |fields[1]| == 2 && ParseDigits(fields[1]) < 60
      && ClockSeconds(fields) == durationMs / 1000
  {
    var seconds := durationMs / 1000;
    var m := NatToString(seconds / 60);
    var rs := NatToString(seconds % 60);
    var ss := PadStart(rs, 2, '0');
    assert FormatDuration(durationMs) == Join([m, ss], ':');
    PadStartZerosKeepsValue(rs, 2);
    ParseNatToString(seconds / 60);
    ParseNatToString(seconds % 60);
    DigitsHaveNoSeparator(m, ':');
    DigitsHaveNoSeparator(ss, ':');
    SplitJoin([m, ss], ':');
    assert [m, ss][..1] == [m];
    assert [m, ss][..1][..0] == [];
    assert ClockSeconds([m]) == ParseDigits(m);
  }

  lemma FormatDurationOfZero()
    ensures FormatDuration(0) == "0:00"
  {
    assert NatToString(0) == "0" && PadStart("0", 2, '0') == "00";
  }

  /** Fewer than ten remaining seconds are shown with a leading zero. */
  lemma FormatDurationSingleDigitSeconds(durationMs: nat, minutes: nat, seconds: nat)
    requires seconds < 10 && durationMs / 1000 == 60 * minutes + seconds
    ensures FormatDuration(durationMs) == NatToString(minutes) + ":0" + NatToString(seconds)
  {
    var total := durationMs / 1000;
    assert total / 60 == minutes && total % 60 == seconds;
    assert Repeat('0', 1) == "0";
  }

  /** `tweet.attachments?.media?.[0]`. */
  function FirstMedia(tweet: Tweet): (r: Option<Media>)
    ensures r.Some? <==> tweet.attachments.Some? && tweet.attachments.value.media.Some? && tweet.attachments.value.media.value != []
    ensures r.Some? ==> r.value == tweet.attachments.value.media.value[0]
  {
    if tweet.attachments.Some? && tweet.attachments.value.media.Some? && |tweet.attachments.value.media.value| > 0
    then Some(tweet.attachments.value.media.value[0])
    else None
  }

  /** `tweet.public_metrics?.view_count`. */
  function ViewCountOf(tweet: Tweet): (r: Option<nat>)
    ensures r.Some? <==> tweet.publicMetrics.Some? && tweet.publicMetrics.value.viewCount.Some?
    ensures r.Some? ==> r == tweet.publicMetrics.value.viewCount
  {
    if tweet.publicMetrics.Some? then tweet.publicMetrics.value.viewCount else None
  }

  /** Views agree with the raw count: `viewCount` is a number as written by `toString`, and `views` is its rendering. */
  predicate TweetViewsAgree(v: Video) {
    IsCanonical(v.viewCount) && v.views == FormatViews(ParseDigits(v.viewCount))
  }

  /** One tweet as a record; every field falls back to a default when the tweet lacks it. */
  function TweetToVideo(tweet: Tweet): (v: Video)
    ensures v.id == tweet.id && v.videoUrl == StatusUrlPrefix + tweet.id
    ensures v.platform == Twitter && !IsYouTubeVideo(v)
    ensures v.title == tweet.text && v.description == tweet.text
    ensures v.creator == "@" + tweet.authorId && WellFormed(v)
    ensures v.publishedAt == tweet.createdAt && v.likeCount.None?
    ensures v.thumbnail != ""
    ensures FirstMedia(tweet).Some? && FirstMedia(tweet).value.previewImageUrl.GetOr("") != "" ==>
      v.thumbnail == FirstMedia(tweet).value.previewImageUrl.value
    ensures v.thumbnail == Placeholder <==>
      (FirstMedia(tweet).None? || FirstMedia(tweet).value.previewImageUrl.GetOr("") in {"", Placeholder})
    ensures TweetViewsAgree(v) && ParseDigits(v.viewCount) == ViewCountOf(tweet).GetOr(0)
    ensures var fields := Split(v.duration, ':');
      |fields| == 2 && IsCanonical(fields[0]) && IsDigits(fields[1]) && |fields[1]| == 2
      && ParseDigits(fields[1]) < 60
      && ClockSeconds(fields) == (if FirstMedia(tweet).Some? then FirstMedia(tweet).value.durationMs.GetOr(0) else 0) / 1000
  {
    var media := FirstMedia(tweet);
    var preview := if media.Some? then media.value.previewImageUrl else None;
    var thumbnail := if preview.Some? && preview.value != "" then preview.value else Placeholder;
    var count := ViewCountOf(tweet);
    var durationMs := if media.Some? then media.value.durationMs else None;
    ParseNatToString(count.GetOr(0));
    FormatDurationReadsBack(durationMs.GetOr(0));
    FormatDurationOfZero();
    Video(
      tweet.id,
      tweet.text,
      tweet.text,
      thumbnail,
      thumbnail,
      tweet.createdAt,
      "@" + tweet.authorId,
      "@" + tweet.authorId,
      if count.Some? && count.value != 0 then FormatViews(count.value) else "0",
      if count.Some? then NatToString(count.value) else "0",
      if durationMs.Some? && durationMs.value != 0 then FormatDuration(durationMs.value) else "0:00",
      None,
      StatusUrlPrefix + tweet.id,
      Twitter)
  }

  /** `data.data.map(...)`: one record per tweet, in the same order. */
  function TweetsToVideos(tweets: seq<Tweet>): (videos: seq<Video>)
    ensures |videos| == |tweets|
    ensures forall i :: 0 <= i < |tweets| ==> videos[i] == TweetToVideo(tweets[i])
  {
    seq(|tweets|, i requires 0 <= i < |tweets| => TweetToVideo(tweets[i]))
  }

  /** Whether the reply is a failure: no token, a failed request, a non-2xx status or an unreadable body. */
  predicate Fails(token: Option<string>, upstream: Upstream) {
    token.None? || token.value == "" || upstream.NetworkError?
    || !IsOkStatus(upstream.status) || upstream.body.Unreadable?
  }

  /**
   * `GET`: with a bearer token, sends "<query> has:videos" to the search endpoint,
   * and replies with the mapped tweets, `[]` when `data` is missing, or the fixed
   * 500 error. `upstream` is what the search request returned.
   */
  function Get(q: Option<string>, token: Option<string>, upstream: Upstream): (x: Exchange)
    ensures x.searchText.Some? <==> token.Some? && token.value != ""
    ensures x.searchText.Some? ==> x.searchText.value == EffectiveQuery(q) + " has:videos"
    ensures x.reply.Err500? <==> Fails(token, upstream)
    ensures x.reply.Err500? ==> x.reply.error == ErrorMessage
    ensures x.reply.Ok200? ==> upstream.Response? && upstream.body.Json?
    ensures x.reply.Ok200? && upstream.body.data.None? ==> x.reply.videos == []
    ensures x.reply.Ok200? && upstream.body.data.Some? ==>
      |x.reply.videos| == |upstream.body.data.value|
      && forall i :: 0 <= i < |x.reply.videos| ==> x.reply.videos[i] == TweetToVideo(upstream.body.data.value[i])
  {
    var query := EffectiveQuery(q);
    if token.None? || token.value == "" then
      Exchange(None, Err500(ErrorMessage))
    else
      var searchText := Some(query + " has:videos");
      match upstream
      case NetworkError => Exchange(searchText, Err500(ErrorMessage))
      case Response(status, body) =>
        if !IsOkStatus(status) then Exchange(searchText, Err500(ErrorMessage))
        else match body
          case Unreadable => Exchange(searchText, Err500(ErrorMessage))
          case Json(None) => Exchange(searchText, Ok200([]))
          case Json(Some(tweets)) => Exchange(searchText, Ok200(TweetsToVideos(tweets)))
  }

  /** Every record in a successful reply is a well-formed Twitter record whose views agree with its count. */
  lemma GetRecordsAreTwitter(q: Option<string>, token: Option<string>, upstream: Upstream)
    ensures var r := Get(q, token, upstream).reply;
      r.Ok200? ==> forall v :: v in r.videos ==> v.platform == Twitter && WellFormed(v) && TweetViewsAgree(v) && !IsYouTubeVideo(v)
  {
  }
}
