/**
 * The data source behind the "hot history" video grid: a list of video cards from the
 * API with the entries of banned uploaders filtered out, once when the source is built
 * and again for every batch appended to it.
 *
 * The ban list (ProgramConfig::HasBanUser) is given to each operation as a set of
 * uploader ids; ImageHelper::h_ext, the thumbnail suffix appended to a cover URL, is a
 * parameter of the cell binding.
 */
module HotsHistory {
  import opened PyString

  datatype Owner = Owner(mid: int, name: string)

  datatype Stat = Stat(view: int, danmaku: int)

  /** One entry of a HotsHistoryVideoListResult. */
  datatype Video = Video(
    bvid: string,
    title: string,
    pic: string,
    owner: Owner,
    pubdate: int,
    stat: Stat,
    duration: int,
    achievement: string)

  /** The values a grid cell is bound to (RecyclingGridItemVideoCard::setCard and setAchievement). */
  datatype Card = Card(
    cover: string,
    title: string,
    ownerName: string,
    pubdate: int,
    view: int,
    danmaku: int,
    duration: int,
    achievement: string)

  predicate IsBanned(v: Video, banned: set<int>) {
    v.owner.mid in banned
  }

  /** The entries of `list` whose uploader is not banned, in their original order. */
  function Unbanned(list: seq<Video>, banned: set<int>): (r: seq<Video>)
    ensures |r| <= |list|
    ensures forall v :: v in r <==> v in list && !IsBanned(v, banned)
  {
    if list == [] then []
    else if IsBanned(list[0], banned) then Unbanned(list[1..], banned)
    else [list[0]] + Unbanned(list[1..], banned)
  }

  /** `r` can be obtained from `s` by deleting elements, keeping the rest in order. */
  ghost predicate SubsequenceOf(r: seq<Video>, s: seq<Video>)
    decreases |s|
  {
    if r == [] then true
    else if s == [] then false
    else (r[0] == s[0] && SubsequenceOf(r[1..], s[1..])) || SubsequenceOf(r, s[1..])
  }

  /** Filtering keeps the relative order of the entries it keeps. */
  lemma {:induction false} UnbannedIsSubsequence(list: seq<Video>, banned: set<int>)
    ensures SubsequenceOf(Unbanned(list, banned), list)
    decreases |list|
  {
    if list != [] {
      UnbannedIsSubsequence(list[1..], banned);
      var rest := Unbanned(list[1..], banned);
      if !IsBanned(list[0], banned) {
        assert ([list[0]] + rest)[1..] == rest;
      }
    }
  }

  /** Filtering a concatenation filters each part: the filter looks at one entry at a time. */
  lemma {:induction false} UnbannedAppend(a: seq<Video>, b: seq<Video>, banned: set<int>)
    ensures Unbanned(a + b, banned) == Unbanned(a, banned) + Unbanned(b, banned)
    decreases |a|
  {
    if a == [] {
      assert a + b == b;
    } else {
      assert (a + b)[0] == a[0];
      assert (a + b)[1..] == a[1..] + b;
      UnbannedAppend(a[1..], b, banned);
    }
  }

  /** A list is left as it is exactly when none of its entries is banned. */
  lemma {:induction false} UnbannedIdentity(list: seq<Video>, banned: set<int>)
    ensures Unbanned(list, banned) == list <==> forall v :: v in list ==> !IsBanned(v, banned)
    decreases |list|
  {
    if list != [] {
      UnbannedIdentity(list[1..], banned);
      if IsBanned(list[0], banned) {
        assert list[0] in list;
      } else {
        assert forall v :: v in list <==> v == list[0] || v in list[1..];
      }
    }
  }

  /** Filtering a second time with the same ban list changes nothing. */
  lemma UnbannedIdempotent(list: seq<Video>, banned: set<int>)
    ensures Unbanned(Unbanned(list, banned), banned) == Unbanned(list, banned)
  {
    UnbannedIdentity(Unbanned(list, banned), banned);
  }

  /**
   * The cover URL of a cell: the picture URL followed by the thumbnail suffix, where for a
   * ".gif" picture every ".webp" of the suffix becomes ".jpg" (gif covers are fetched as jpg).
   */
  function CoverUrl(pic: string, hExt: string): (url: string)
    ensures !EndsWith(pic, ".gif") ==> url == pic + hExt
    ensures |pic| <= |url| && url[..|pic|] == pic
    ensures EndsWith(pic, ".gif") ==> !Occurs(url[|pic|..], Webp)
    ensures EndsWith(pic, ".gif") && !Occurs(hExt, Webp) ==> url == pic + hExt
    ensures EndsWith(pic, ".gif") && EndsWith(hExt, Webp) ==> EndsWith(url, Jpg)
    ensures EndsWith(pic, ".gif") && EndsWith(hExt, Webp) && !Occurs(hExt[..|hExt| - |Webp|], Webp)
            ==> url == pic + hExt[..|hExt| - |Webp|] + Jpg
    ensures EndsWith(pic, ".gif") ==>
              forall k | 0 <= k && OccursAt(hExt, Webp, k) && (forall i | 0 <= i < k :: !OccursAt(hExt, Webp, i)) ::
                url == pic + hExt[..k] + Jpg + ReplaceAll(hExt[k + |Webp|..], Webp, Jpg)
  {
    var ext := if EndsWith(pic, ".gif") then ReplaceAll(hExt, Webp, Jpg) else hExt;
    WebpSuffixToJpg(hExt);
    FirstWebpToJpg(hExt);
    EndsWithAppend(pic, ext, Jpg);
    assert (pic + ext)[..|pic|] == pic && (pic + ext)[|pic|..] == ext;
    pic + ext
  }

  /** The filter looks at the first entry and then filters the rest. */
  lemma UnbannedUnfold(v: seq<Video>, it: nat, banned: set<int>)
    requires it < |v|
    ensures Unbanned(v[it..], banned) ==
              if IsBanned(v[it], banned) then Unbanned(v[it + 1..], banned)
              else [v[it]] + Unbanned(v[it + 1..], banned)
  {
    assert v[it..][1..] == v[it + 1..];
  }

  /** Erasing the entry at `it` leaves the entries before it, followed by those after it. */
  lemma EraseSplit(v: seq<Video>, it: nat)
    requires it < |v|
    ensures (v[..it] + v[it + 1..])[..it] == v[..it]
    ensures (v[..it] + v[it + 1..])[it..] == v[it + 1..]
  {
  }

  /** Erasing a banned entry at `it` keeps "entries before `it`, then the filtered rest". */
  lemma EraseKeepsFiltered(v: seq<Video>, it: nat, banned: set<int>)
    requires it < |v| && IsBanned(v[it], banned)
    ensures var w := v[..it] + v[it + 1..];
      w[..it] + Unbanned(w[it..], banned) == v[..it] + Unbanned(v[it..], banned)
  {
    UnbannedUnfold(v, it, banned);
    EraseSplit(v, it);
  }

  /** Stepping past an unbanned entry at `it` keeps "entries before `it`, then the filtered rest". */
  lemma SkipKeepsFiltered(v: seq<Video>, it: nat, banned: set<int>)
    requires it < |v| && !IsBanned(v[it], banned)
    ensures v[..it + 1] + Unbanned(v[it + 1..], banned) == v[..it] + Unbanned(v[it..], banned)
  {
    UnbannedUnfold(v, it, banned);
    assert v[..it + 1] == v[..it] + [v[it]];
  }

  /** Filtering one more entry of `data` adds that entry exactly when it is not banned. */
  lemma UnbannedExtend(kept: seq<Video>, data: seq<Video>, i: nat, banned: set<int>)
    requires i < |data|
    ensures kept + Unbanned(data[..i + 1], banned) ==
              if IsBanned(data[i], banned) then kept + Unbanned(data[..i], banned)
              else kept + Unbanned(data[..i], banned) + [data[i]]
  {
    assert data[..i + 1] == data[..i] + [data[i]];
    UnbannedAppend(data[..i], [data[i]], banned);
    assert [data[i]][1..] == [];
  }

  /** Before the erase loop nothing is kept yet and the whole list is still to be filtered. */
  lemma FilteredSplitAtStart(v: seq<Video>, banned: set<int>)
    ensures v[..0] + Unbanned(v[0..], banned) == Unbanned(v, banned)
  {
    assert v[..0] == [] && v[0..] == v;
  }

  /** After the erase loop everything is kept and nothing is left to filter. */
  lemma FilteredSplitAtEnd(v: seq<Video>, banned: set<int>)
    ensures v[..|v|] + Unbanned(v[|v|..], banned) == v
  {
    assert v[..|v|] == v && v[|v|..] == [];
  }

  /** DataSourceHotsHistoryVideoList. */
  class HotsHistoryDataSource {
    var videoList: seq<Video>

    /** Takes the API result and erases, in place, every entry whose uploader is banned. */
    constructor (result: seq<Video>, banned: set<int>)
      ensures videoList == Unbanned(result, banned)
    {
      videoList := result;
      new;
      var it := 0;
      FilteredSplitAtStart(videoList, banned);
      while it < |videoList|
        invariant it <= |videoList|
        invariant videoList[..it] + Unbanned(videoList[it..], banned) == Unbanned(result, banned)
        decreases |videoList| - it
      {
        if IsBanned(videoList[it], banned) {
          EraseKeepsFiltered(videoList, it, banned);
          videoList := videoList[..it] + videoList[it + 1..];
        } else {
          SkipKeepsFiltered(videoList, it, banned);
          it := it + 1;
        }
      }
      FilteredSplitAtEnd(videoList, banned);
    }

    /** The number of cells in the grid. */
    method GetItemCount() returns (n: nat)
      ensures n == |videoList|
    {
      n := |videoList|;
    }

    /** Selecting cell `index` opens the video with this bvid (Intent::openBV). */
    method OnItemSelected(index: nat) returns (bvid: string)
      requires index < |videoList|
      ensures bvid == videoList[index].bvid
    {
      bvid := videoList[index].bvid;
    }

    /** The values cell `index` is bound to. */
    method CellForRow(index: nat, hExt: string) returns (card: Card)
      requires index < |videoList|
      ensures var v := videoList[index];
        card == Card(CoverUrl(v.pic, hExt), v.title, v.owner.name, v.pubdate,
                     v.stat.view, v.stat.danmaku, v.duration, v.achievement)
    {
      var r := videoList[index];
      var ext := hExt;
      if EndsWith(r.pic, ".gif") {
        ext := ReplaceAll(ext, Webp, Jpg);
      }
      card := Card(r.pic + ext, r.title, r.owner.name, r.pubdate,
                   r.stat.view, r.stat.danmaku, r.duration, r.achievement);
    }

    /** Appends the unbanned entries of the next page, in order, after the current ones. */
    method AppendData(data: seq<Video>, banned: set<int>)
      modifies this
      ensures videoList == old(videoList) + Unbanned(data, banned)
    {
      for i := 0 to |data|
        invariant videoList == old(videoList) + Unbanned(data[..i], banned)
      {
        UnbannedExtend(old(videoList), data, i, banned);
        if IsBanned(data[i], banned) {
          continue;
        }
        videoList := videoList + [data[i]];
      }
      assert data[..|data|] == data;
    }

    method ClearData()
      modifies this
      ensures videoList == []
    {
      videoList := [];
    }
  }
}
