/**
 * The presenter of the "weekly must-watch" page (HomeHotsWeeklyRequest): it fetches the
 * list of weekly issues, caches it, loads the newest issue's videos automatically, loads
 * any cached issue by its position, and provides the labels of the issue selector.
 *
 * The API client (BilibiliClient) is asynchronous: a request is logged when it is issued,
 * and its success and error continuations are methods the client calls later with the
 * response. The view callbacks (onHotsWeeklyList, onHotsWeeklyVideoList) are logged too,
 * in the one log, so that the order of callbacks and requests is visible.
 */
module HotsWeekly {

  /** One weekly issue of HotsWeeklyListResult. */
  datatype WeeklyBucket = WeeklyBucket(number: int, name: string, subject: string)

  /** One video of an issue (HotsWeeklyVideoListResult); the presenter only forwards them. */
  datatype WeeklyVideo = WeeklyVideo(bvid: string, title: string)

  datatype Event =
    /** BilibiliClient::get_hots_weekly_list was called. */
    | RequestWeeklyList
    /** BilibiliClient::get_hots_weekly(number) was called. */
    | RequestWeeklyVideos(number: int)
    /** The view's onHotsWeeklyList received `result`; `cached` was the cache at that moment. */
    | ShowWeeklyList(result: seq<WeeklyBucket>, cached: seq<WeeklyBucket>)
    /** The view's onHotsWeeklyVideoList received an issue's videos. */
    | ShowWeeklyVideos(videos: seq<WeeklyVideo>, issueLabel: string, reminder: string)

  /** The first label of the selector, the refresh entry ("刷新"). */
  const RefreshLabel := "刷新"

  /** The selector label of one issue: its name and subject, four spaces apart. */
  function BucketLabel(w: WeeklyBucket): (r: string)
    ensures |r| == |w.name| + 4 + |w.subject|
    ensures r[..|w.name|] == w.name && r[|r| - |w.subject|..] == w.subject
    ensures forall i | |w.name| <= i < |w.name| + 4 :: r[i] == ' '
  {
    w.name + "    " + w.subject
  }

  class HomeHotsWeeklyRequest {
    var weeklyList: seq<WeeklyBucket>
    var log: seq<Event>

    constructor ()
      ensures weeklyList == [] && log == []
    {
      weeklyList := [];
      log := [];
    }

    /** requestData: the same as requestHotsWeeklyList. */
    method RequestData()
      modifies this
      ensures weeklyList == old(weeklyList)
      ensures log == old(log) + [RequestWeeklyList]
    {
      RequestHotsWeeklyList();
    }

    method RequestHotsWeeklyList()
      modifies this
      ensures weeklyList == old(weeklyList)
      ensures log == old(log) + [RequestWeeklyList]
    {
      log := log + [RequestWeeklyList];
    }

    /**
     * The success continuation of the list request: the view is given the result while the
     * old list is still cached, then the cache is replaced, then the newest issue (the first
     * one) is requested, if there is any.
     */
    method OnWeeklyListSuccess(result: seq<WeeklyBucket>)
      modifies this
      ensures weeklyList == result
      ensures log == old(log) + [ShowWeeklyList(result, old(weeklyList))]
                   + (if |result| > 0 then [RequestWeeklyVideos(result[0].number)] else [])
    {
      log := log + [ShowWeeklyList(result, weeklyList)];
      weeklyList := result;
      if |result| > 0 {
        RequestHotsWeeklyVideoList(result[0].number);
      }
    }

    /** The error continuation of the list request does nothing. */
    method OnWeeklyListError(error: string)
      ensures weeklyList == old(weeklyList) && log == old(log)
    {
    }

    method RequestHotsWeeklyVideoList(number: int)
      modifies this
      ensures weeklyList == old(weeklyList)
      ensures log == old(log) + [RequestWeeklyVideos(number)]
    {
      log := log + [RequestWeeklyVideos(number)];
    }

    /** The success continuation of an issue request forwards the videos to the view. */
    method OnWeeklyVideosSuccess(videos: seq<WeeklyVideo>, issueLabel: string, reminder: string)
      modifies this
      ensures weeklyList == old(weeklyList)
      ensures log == old(log) + [ShowWeeklyVideos(videos, issueLabel, reminder)]
    {
      log := log + [ShowWeeklyVideos(videos, issueLabel, reminder)];
    }

    /** The error continuation of an issue request does nothing. */
    method OnWeeklyVideosError(error: string)
      ensures weeklyList == old(weeklyList) && log == old(log)
    {
    }

    /** Requests the issue at `index` of the cache; an index past the end is ignored. */
    method RequestHotsWeeklyVideoListByIndex(index: nat)
      modifies this
      ensures weeklyList == old(weeklyList)
      ensures index >= |weeklyList| ==> log == old(log)
      ensures index < |weeklyList| ==> log == old(log) + [RequestWeeklyVideos(weeklyList[index].number)]
    {
      if index >= |weeklyList| {
        return;
      }
      RequestHotsWeeklyVideoList(weeklyList[index].number);
    }

    /** The selector labels: the refresh entry, then one label per cached issue, in order. */
    method GetWeeklyList() returns (res: seq<string>)
      ensures |res| == |weeklyList| + 1
      ensures res[0] == RefreshLabel
      ensures forall k :: 0 <= k < |weeklyList| ==> res[k + 1] == BucketLabel(weeklyList[k])
    {
      res := [RefreshLabel];
      for i := 0 to |weeklyList|
        invariant |res| == i + 1
        invariant res[0] == RefreshLabel
        invariant forall k :: 0 <= k < i ==> res[k + 1] == BucketLabel(weeklyList[k])
      {
        res := res + [BucketLabel(weeklyList[i])];
      }
    }
  }

  /**
   * A client: a page load whose list request succeeds with a non-empty list requests the
   * newest issue exactly once; selecting position 0 afterwards requests that issue again.
   */
  method LoadThenSelectFirst(p: HomeHotsWeeklyRequest, result: seq<WeeklyBucket>)
    requires |result| > 0
    modifies p
    ensures p.weeklyList == result
    ensures p.log == old(p.log) + [RequestWeeklyList, ShowWeeklyList(result, old(p.weeklyList)),
                                   RequestWeeklyVideos(result[0].number),
                                   RequestWeeklyVideos(result[0].number)]
  {
    p.RequestData();
    p.OnWeeklyListSuccess(result);
    p.RequestHotsWeeklyVideoListByIndex(0);
  }
}
