/** generate_channel.js: the page of one channel — its video descriptors,
    their order, the channel's title, description, icon and banner. */
module ChannelGen {
  import opened Common
  import opened Strings
  import opened Seqs
  import opened OrderedMap
  import opened FileSystem
  import opened Descriptor
  import Utils

  const VideosPerPage := 30
  const PlaceholderThumbnail := "placeholder.png"
  const PlaceholderIcon := "./img/placeholder-icon.png"
  const PlaceholderBanner := "./img/placeholder-banner.jpg"

  // ---------------------------------------------------------------------
  // The order file
  // ---------------------------------------------------------------------

  function TrimAll(parts: seq<string>): (r: seq<string>)
    ensures |r| == |parts|
    ensures forall i :: 0 <= i < |r| ==> r[i] == Trim(parts[i])
  {
    seq(|parts|, i requires 0 <= i < |parts| => Trim(parts[i]))
  }

  predicate NonEmpty(id: string) {
    |id| > 0
  }

  /** A line of the order file that needs no trimming and is not blank. */
  predicate IsCleanId(id: string) {
    |id| > 0 && !IsSpace(id[0]) && !IsSpace(id[|id| - 1]) && '\n' !in id
  }

  /** `content.split('\n').map(id => id.trim()).filter(id => id.length > 0)`;
      a file that cannot be read gives no ids. */
  function ParseIds(text: Option<string>): (ids: seq<string>)
    ensures forall i :: 0 <= i < |ids| ==> IsCleanId(ids[i])
    ensures text.None? ==> ids == []
  {
    match text
    case None => []
    case Some(t) =>
      var lines := Split(t, '\n');
      var ids := Filter(TrimAll(lines), NonEmpty);
      CleanLines(lines, ids);
      ids
  }

  lemma CleanLines(lines: seq<string>, ids: seq<string>)
    requires forall i :: 0 <= i < |lines| ==> '\n' !in lines[i]
    requires forall x :: x in ids ==> x in TrimAll(lines) && NonEmpty(x)
    ensures forall i :: 0 <= i < |ids| ==> IsCleanId(ids[i])
  {
    var trimmed := TrimAll(lines);
    forall i | 0 <= i < |ids| ensures IsCleanId(ids[i]) {
      assert ids[i] in trimmed;
      var j :| 0 <= j < |trimmed| && trimmed[j] == ids[i];
      TrimInfix(lines[j]);
    }
  }

  /** Clean ids survive trimming unchanged. */
  lemma TrimAllClean(ids: seq<string>)
    requires forall i :: 0 <= i < |ids| ==> IsCleanId(ids[i])
    ensures TrimAll(ids) == ids
  {
    forall i | 0 <= i < |ids| ensures Trim(ids[i]) == ids[i] {
      TrimTrimmed(ids[i]);
    }
  }

  /** Reading a file is splitting, trimming and dropping blank lines. */
  lemma ParseIdsSome(text: string)
    ensures ParseIds(Some(text)) == Filter(TrimAll(Split(text, '\n')), NonEmpty)
  {
  }

  /** An empty order file lists no ids. */
  lemma ParseEmptyFile()
    ensures ParseIds(Some("")) == []
  {
    var lines := Split("", '\n');
    assert lines == [""];
    TrimEmptyIff("");
    var trimmed := TrimAll(lines);
    assert trimmed == [""];
    assert trimmed[1..] == [];
    assert Filter(trimmed, NonEmpty) == Filter(trimmed[1..], NonEmpty);
    ParseIdsSome("");
  }

  lemma SplitJoinedIds(ids: seq<string>)
    requires |ids| > 0
    requires forall i :: 0 <= i < |ids| ==> IsCleanId(ids[i])
    ensures Split(Join(ids, "\n"), '\n') == ids
  {
    assert "\n" == ['\n'];
    SplitJoin(ids, '\n');
  }

  lemma KeepCleanIds(ids: seq<string>)
    requires forall i :: 0 <= i < |ids| ==> IsCleanId(ids[i])
    ensures Filter(TrimAll(ids), NonEmpty) == ids
  {
    TrimAllClean(ids);
    FilterAll(ids, NonEmpty);
  }

  /** Writing clean ids one per line and reading the file back gives the same
      ids in the same order. */
  lemma ParseIdsJoin(ids: seq<string>)
    requires forall i :: 0 <= i < |ids| ==> IsCleanId(ids[i])
    ensures ParseIds(Some(Join(ids, "\n"))) == ids
  {
    if |ids| == 0 {
      ParseEmptyFile();
    } else {
      SplitJoinedIds(ids);
      KeepCleanIds(ids);
      ParseIdsSome(Join(ids, "\n"));
    }
  }

  // ---------------------------------------------------------------------
  // Collecting the video folders
  // ---------------------------------------------------------------------

  /** The channel-level folder filter: 'stuff' is not excluded here. */
  predicate IsVideoFolder(e: Entry) {
    e.isDir && e.name !in {".", "..", "img", "css", "js"}
  }

  predicate IsImage(e: Entry) {
    EndsWith(e.name, ".jpg") || EndsWith(e.name, ".webp")
  }

  /** The thumbnail of video `id`: its own `<id>.jpg` when that is a file;
      otherwise, when the stat succeeds, the first '.jpg'/'.webp' in the
      folder or the metadata's URL; when the stat or the listing throws, the
      metadata's URL or 'placeholder.png'. */
  function ResolveThumbnail(id: string, meta: Metadata, d: VideoDir): (r: string)
    ensures id + ".jpg" in d.stat && d.stat[id + ".jpg"] ==> r == "./" + id + "/" + id + ".jpg"
    ensures id + ".jpg" !in d.stat ==> r == Or(meta.thumbnail, PlaceholderThumbnail)
    ensures id + ".jpg" in d.stat && !d.stat[id + ".jpg"] && d.listing.Some? ==>
      match FirstWhere(d.listing.value, IsImage)
      case Some(i) => r == "./" + id + "/" + d.listing.value[i].name
      case None => r == meta.thumbnail
  {
    var local := id + ".jpg";
    if local !in d.stat then Or(meta.thumbnail, PlaceholderThumbnail)
    else if d.stat[local] then "./" + id + "/" + local
    else match d.listing
      case None => Or(meta.thumbnail, PlaceholderThumbnail)
      case Some(es) =>
        match FirstWhere(es, IsImage)
        case Some(i) => "./" + id + "/" + es[i].name
        case None => meta.thumbnail
  }

  /** The thumbnail is empty exactly when `<id>.jpg` exists but is not a
      file, the folder lists, nothing in it is a '.jpg' or '.webp', and the
      metadata has no thumbnail URL. */
  lemma ThumbnailEmptyIff(id: string, meta: Metadata, d: VideoDir)
    ensures ResolveThumbnail(id, meta, d) == "" <==>
      && id + ".jpg" in d.stat && !d.stat[id + ".jpg"]
      && d.listing.Some?
      && (forall j :: 0 <= j < |d.listing.value| ==> !IsImage(d.listing.value[j]))
      && meta.thumbnail == ""
  {
    var r := ResolveThumbnail(id, meta, d);
    if id + ".jpg" in d.stat && !d.stat[id + ".jpg"] && d.listing.Some? {
      match FirstWhere(d.listing.value, IsImage)
      case Some(i) => assert |r| > 0;
      case None =>
    }
  }

  /** The descriptor of video folder `id`. */
  function Describe(id: string, meta: Metadata, d: VideoDir, channelTitle: string): (v: Video)
    ensures v.title == meta.title && v.channel == channelTitle
    ensures v.link == "./" + id + "/index.html"
    ensures v.thumbnail == ResolveThumbnail(id, meta, d)
    ensures v.description == ShortDescription(meta.description)
    ensures v.date == DisplayDateOf(meta.uploadDate)
    ensures v.id == Some(id) && v.fullDescription.None?
  {
    Video(meta.title, "./" + id + "/index.html", ResolveThumbnail(id, meta, d), channelTitle,
          ShortDescription(meta.description), DisplayDateOf(meta.uploadDate), Some(id), None)
  }

  /** The names of the listed entries that pass the folder filter. */
  function FolderNames(es: seq<Entry>): seq<string> {
    NamesWhere(es, IsVideoFolder)
  }

  /** A folder name that the collection keeps: it passes the filter and its
      metadata reads. */
  predicate Collected(ch: ChannelDir, es: seq<Entry>, k: string) {
    k in FolderNames(es) && Utils.ReadVideoMetadata(VideoDirOf(ch.videos, k)).Some?
  }

  /** Lines 53-106 over the first entries `es` of the channel listing: one
      map entry per folder whose metadata reads, keyed by folder name. */
  function CollectVideos(ch: ChannelDir, es: seq<Entry>, channelTitle: string): (m: OMap<string, Video>)
    ensures Valid(m)
    decreases |es|
  {
    if |es| == 0 then Empty()
    else
      var m := CollectVideos(ch, es[..|es| - 1], channelTitle);
      var e := es[|es| - 1];
      var d := VideoDirOf(ch.videos, e.name);
      if IsVideoFolder(e) then
        match Utils.ReadVideoMetadata(d)
        case Some(meta) => Put(m, e.name, Describe(e.name, meta, d, channelTitle))
        case None => m
      else m
  }

  /** The collection holds exactly the filtered folders whose metadata
      reads, each under its own name with the descriptor built from its own
      folder. */
  lemma CollectSpec(ch: ChannelDir, es: seq<Entry>, channelTitle: string)
    ensures var m := CollectVideos(ch, es, channelTitle);
      forall k :: Get(m, k).Some? <==> Collected(ch, es, k)
    ensures var m := CollectVideos(ch, es, channelTitle);
      forall k :: Get(m, k).Some? ==>
        var d := VideoDirOf(ch.videos, k);
        && Utils.ReadVideoMetadata(d).Some?
        && Get(m, k).value == Describe(k, Utils.ReadVideoMetadata(d).value, d, channelTitle)
  {
    CollectKeys(ch, es, channelTitle);
    CollectValues(ch, es, channelTitle);
  }

  /** `v` is the descriptor built for folder `k` from its own metadata. */
  predicate BuiltFor(ch: ChannelDir, channelTitle: string, k: string, v: Video) {
    var d := VideoDirOf(ch.videos, k);
    && Utils.ReadVideoMetadata(d).Some?
    && v == Describe(k, Utils.ReadVideoMetadata(d).value, d, channelTitle)
  }

  /** The map the collection builds from `es` before its last entry. */
  function CollectInit(ch: ChannelDir, es: seq<Entry>, channelTitle: string): OMap<string, Video>
    requires |es| > 0
  {
    CollectVideos(ch, es[..|es| - 1], channelTitle)
  }

  /** The last entry is stored, under its own name, exactly when it passes
      the filter and its metadata reads; otherwise the map is unchanged. */
  lemma CollectStep(ch: ChannelDir, es: seq<Entry>, channelTitle: string)
    requires |es| > 0
    ensures Collected(ch, es[|es| - 1..], es[|es| - 1].name) ==>
      var e := es[|es| - 1];
      var d := VideoDirOf(ch.videos, e.name);
      CollectVideos(ch, es, channelTitle)
        == Put(CollectInit(ch, es, channelTitle), e.name,
               Describe(e.name, Utils.ReadVideoMetadata(d).value, d, channelTitle))
    ensures !Collected(ch, es[|es| - 1..], es[|es| - 1].name) ==>
      CollectVideos(ch, es, channelTitle) == CollectInit(ch, es, channelTitle)
  {
    var e := es[|es| - 1];
    assert FolderNames(es[|es| - 1..]) == if IsVideoFolder(e) then [e.name] else [];
  }

  lemma {:induction false} CollectKeys(ch: ChannelDir, es: seq<Entry>, channelTitle: string)
    ensures forall k :: Get(CollectVideos(ch, es, channelTitle), k).Some? <==> Collected(ch, es, k)
    decreases |es|
  {
    if |es| > 0 {
      var init := es[..|es| - 1];
      var e := es[|es| - 1];
      var m0 := CollectVideos(ch, init, channelTitle);
      var m := CollectVideos(ch, es, channelTitle);
      CollectKeys(ch, init, channelTitle);
      CollectStep(ch, es, channelTitle);
      assert FolderNames(es[|es| - 1..]) == if IsVideoFolder(e) then [e.name] else [];
      assert FolderNames(es) == FolderNames(init) + FolderNames(es[|es| - 1..]);
      forall k ensures Get(m, k).Some? <==> Collected(ch, es, k) {
        if k != e.name {
          assert Get(m, k) == Get(m0, k);
        }
      }
    }
  }

  lemma {:induction false} CollectValues(ch: ChannelDir, es: seq<Entry>, channelTitle: string)
    ensures forall k :: Get(CollectVideos(ch, es, channelTitle), k).Some? ==>
      BuiltFor(ch, channelTitle, k, Get(CollectVideos(ch, es, channelTitle), k).value)
    decreases |es|
  {
    if |es| > 0 {
      var e := es[|es| - 1];
      var m0 := CollectVideos(ch, es[..|es| - 1], channelTitle);
      var m := CollectVideos(ch, es, channelTitle);
      CollectValues(ch, es[..|es| - 1], channelTitle);
      CollectStep(ch, es, channelTitle);
      forall k | Get(m, k).Some? ensures BuiltFor(ch, channelTitle, k, Get(m, k).value) {
        if k != e.name || !Collected(ch, es[|es| - 1..], e.name) {
          assert Get(m, k) == Get(m0, k);
        }
      }
    }
  }

  // ---------------------------------------------------------------------
  // Ordering
  // ---------------------------------------------------------------------

  /** The ids of `ids` that are keys of `m`, each at its first occurrence. */
  function Present<V>(ids: seq<string>, m: OMap<string, V>): seq<string>
    decreases |ids|
  {
    if |ids| == 0 then []
    else
      var prefix := ids[..|ids| - 1];
      var last := ids[|ids| - 1];
      if Get(m, last).Some? && last !in prefix then Present(prefix, m) + [last]
      else Present(prefix, m)
  }

  /** `Present` lists each id of the file that the map holds, once. */
  lemma {:induction false} PresentSpec<V>(ids: seq<string>, m: OMap<string, V>)
    ensures Distinct(Present(ids, m))
    ensures forall x :: x in Present(ids, m) <==> x in ids && Get(m, x).Some?
    decreases |ids|
  {
    if |ids| > 0 {
      var prefix := ids[..|ids| - 1];
      var last := ids[|ids| - 1];
      PresentSpec(prefix, m);
      assert ids == prefix + [last];
      if Get(m, last).Some? && last !in prefix {
        var p := Present(prefix, m);
        assert last !in p;
        forall a, b | 0 <= a < b < |p + [last]| ensures (p + [last])[a] != (p + [last])[b] {
          if b < |p| {
            assert (p + [last])[a] == p[a] && (p + [last])[b] == p[b];
          } else {
            assert (p + [last])[a] == p[a];
          }
        }
      }
    }
  }

  /** The values of `m` at the keys `ks` it holds, in the order of `ks`. */
  function LookupAll<V>(m: OMap<string, V>, ks: seq<string>): (r: seq<V>)
    ensures |r| <= |ks|
    decreases |ks|
  {
    if |ks| == 0 then []
    else
      var r := LookupAll(m, ks[..|ks| - 1]);
      match Get(m, ks[|ks| - 1])
      case Some(v) => r + [v]
      case None => r
  }

  /** When every key is held, `LookupAll` is the pointwise lookup. */
  lemma {:induction false} LookupAllHeld<V>(m: OMap<string, V>, ks: seq<string>)
    requires forall i :: 0 <= i < |ks| ==> Get(m, ks[i]).Some?
    ensures |LookupAll(m, ks)| == |ks|
    ensures forall i :: 0 <= i < |ks| ==> LookupAll(m, ks)[i] == Get(m, ks[i]).value
    decreases |ks|
  {
    if |ks| > 0 {
      var p := ks[..|ks| - 1];
      var last := ks[|ks| - 1];
      LookupAllHeld(m, p);
      assert Get(m, last).Some?;
      var r := LookupAll(m, ks);
      assert r == LookupAll(m, p) + [Get(m, last).value];
      forall i | 0 <= i < |ks| ensures r[i] == Get(m, ks[i]).value {
        if i < |p| {
          assert p[i] == ks[i];
        }
      }
    }
  }

  lemma LookupAllSnoc<V>(m: OMap<string, V>, ks: seq<string>, k: string)
    requires Get(m, k).Some?
    ensures LookupAll(m, ks + [k]) == LookupAll(m, ks) + [Get(m, k).value]
  {
    assert (ks + [k])[..|ks|] == ks;
  }

  /** `a.title.localeCompare(b.title)` as an order on descriptors, given the
      order `titleLe` on strings. */
  function ByTitle(titleLe: (string, string) -> bool): (le: (Video, Video) -> bool)
    ensures forall a, b :: le(a, b) == titleLe(a.title, b.title)
  {
    (a: Video, b: Video) => titleLe(a.title, b.title)
  }

  lemma ByTitleTotal(titleLe: (string, string) -> bool)
    requires TotalPreorder(titleLe)
    ensures TotalPreorder(ByTitle(titleLe))
  {
    var le := ByTitle(titleLe);
    forall a: Video, b: Video, c: Video | le(a, b) && le(b, c) ensures le(a, c) {
      assert titleLe(a.title, b.title) && titleLe(b.title, c.title);
    }
  }

  /** Lines 111-128: the videos named in the order file, in its order, then
      every remaining video sorted by title; without an order file, all of
      them sorted by title. Nothing is lost or repeated. */
  method MergeOrder(orderedIds: seq<string>, videoMap: OMap<string, Video>, le: (Video, Video) -> bool)
      returns (videoData: seq<Video>)
    requires Valid(videoMap)
    ensures videoData
      == LookupAll(videoMap, Present(orderedIds, videoMap)) + SortBy(Values(Without(videoMap, orderedIds)), le)
    ensures multiset(videoData) == multiset(Values(videoMap))
  {
    if |orderedIds| > 0 {
      var listed, rest := TakeListed(orderedIds, videoMap);
      videoData := listed + SortBy(Values(rest), le);
    } else {
      videoData := SortBy(Values(videoMap), le);
    }
  }

  /** Lines 114-121: walking the order file, each id still in the map is
      taken out of it and appended; what is left is the map without the
      listed ids. */
  method TakeListed(orderedIds: seq<string>, videoMap: OMap<string, Video>)
      returns (listed: seq<Video>, rest: OMap<string, Video>)
    requires Valid(videoMap)
    ensures rest == Without(videoMap, orderedIds)
    ensures listed == LookupAll(videoMap, Present(orderedIds, videoMap))
    ensures multiset(listed) + multiset(Values(rest)) == multiset(Values(videoMap))
  {
    listed := [];
    rest := videoMap;
    var i := 0;
    while i < |orderedIds|
      invariant 0 <= i <= |orderedIds|
      invariant rest == Without(videoMap, orderedIds[..i])
      invariant listed == LookupAll(videoMap, Present(orderedIds[..i], videoMap))
      invariant multiset(listed) + multiset(Values(rest)) == multiset(Values(videoMap))
    {
      var id := orderedIds[i];
      MergeStep(videoMap, orderedIds, i, rest);
      var data := Get(rest, id);
      if data.Some? {
        MoveValue(listed, rest, id);
        listed := listed + [data.value];
        rest := Delete(rest, id);
      }
      i := i + 1;
    }
    assert orderedIds[..i] == orderedIds;
  }

  /** Moving one value from the map to the end of the list keeps the
      multiset of the two together. */
  lemma MoveValue(videoData: seq<Video>, rest: OMap<string, Video>, id: string)
    requires Valid(rest) && Get(rest, id).Some?
    ensures multiset(videoData + [Get(rest, id).value]) + multiset(Values(Delete(rest, id)))
      == multiset(videoData) + multiset(Values(rest))
  {
    DeleteValues(rest, id);
  }

  /** One turn of the loop: the id is either taken out of the map and
      appended, or it is absent and nothing changes. */
  lemma MergeStep(m: OMap<string, Video>, ids: seq<string>, i: int, rest: OMap<string, Video>)
    requires Valid(m) && 0 <= i < |ids| && rest == Without(m, ids[..i])
    ensures Valid(rest)
    ensures Get(rest, ids[i]).Some? ==>
      && Without(m, ids[..i + 1]) == Delete(rest, ids[i])
      && LookupAll(m, Present(ids[..i + 1], m)) == LookupAll(m, Present(ids[..i], m)) + [Get(rest, ids[i]).value]
    ensures Get(rest, ids[i]).None? ==>
      && Without(m, ids[..i + 1]) == rest
      && Present(ids[..i + 1], m) == Present(ids[..i], m)
  {
    var id := ids[i];
    WithoutGet(m, ids[..i]);
    WithoutStep(m, ids, i);
    PresentStep(m, ids, i);
    if Get(rest, id).None? {
      DeleteAbsent(rest.entries, id);
    } else {
      assert id !in ids[..i] && Get(rest, id) == Get(m, id);
      LookupAllSnoc(m, Present(ids[..i], m), id);
    }
  }

  lemma PresentStep<V>(m: OMap<string, V>, ids: seq<string>, i: int)
    requires 0 <= i < |ids|
    ensures Present(ids[..i + 1], m)
      == if Get(m, ids[i]).Some? && ids[i] !in ids[..i] then Present(ids[..i], m) + [ids[i]]
         else Present(ids[..i], m)
  {
    var p := ids[..i + 1];
    assert p[..|p| - 1] == ids[..i];
  }

  /** When the order file names nothing the channel has, the order is the
      title sort of every video. */
  lemma MergeOrderNoneListed(orderedIds: seq<string>, videoMap: OMap<string, Video>, le: (Video, Video) -> bool)
    requires forall i :: 0 <= i < |orderedIds| ==> Get(videoMap, orderedIds[i]).None?
    ensures LookupAll(videoMap, Present(orderedIds, videoMap)) + SortBy(Values(Without(videoMap, orderedIds)), le)
      == SortBy(Values(videoMap), le)
  {
    PresentNone(orderedIds, videoMap);
    WithoutAbsent(videoMap, orderedIds);
  }

  lemma {:induction false} PresentNone<V>(ids: seq<string>, m: OMap<string, V>)
    requires forall i :: 0 <= i < |ids| ==> Get(m, ids[i]).None?
    ensures Present(ids, m) == []
    decreases |ids|
  {
    if |ids| > 0 {
      PresentNone(ids[..|ids| - 1], m);
    }
  }

  lemma {:induction false} WithoutAbsent<V>(m: OMap<string, V>, ks: seq<string>)
    requires forall i :: 0 <= i < |ks| ==> Get(m, ks[i]).None?
    ensures Without(m, ks) == m
    decreases |ks|
  {
    if |ks| > 0 {
      WithoutAbsent(m, ks[..|ks| - 1]);
      DeleteAbsent(m.entries, ks[|ks| - 1]);
    }
  }

  // ---------------------------------------------------------------------
  // Channel header
  // ---------------------------------------------------------------------

  /** `channelInfo.channel || channelName`, or the folder name when the info
      file is missing or not JSON. */
  function ChannelTitle(info: Option<ChannelInfo>, channelName: string): (r: string)
    ensures info.None? ==> r == channelName
    ensures info.Some? && info.value.channel != "" ==> r == info.value.channel
    ensures info.Some? && info.value.channel == "" ==> r == channelName
  {
    match info
    case None => channelName
    case Some(ci) => Or(ci.channel, channelName)
  }

  function ChannelDescription(info: Option<ChannelInfo>): (r: string)
    ensures r != ""
    ensures info.Some? && info.value.description != "" ==> r == info.value.description
    ensures (info.None? || info.value.description == "") ==> r == NoDescription
  {
    match info
    case None => NoDescription
    case Some(ci) => Or(ci.description, NoDescription)
  }

  predicate IsIcon(e: Entry) {
    ToLower(e.name) == "icon.png"
  }

  predicate IsBanner(e: Entry) {
    StartsWith(e.name, "banner_") && (EndsWith(e.name, ".jpg") || EndsWith(e.name, ".jpeg"))
  }

  /** The last listed `img/` entry named 'icon.png' in any letter case, or
      the placeholder. */
  function IconPath(img: Option<seq<Entry>>): (r: string)
    ensures img.Some? ==> match LastWhere(img.value, IsIcon)
      case Some(i) => r == "./img/" + img.value[i].name
      case None => r == PlaceholderIcon
    ensures img.None? ==> r == PlaceholderIcon
  {
    match img
    case None => PlaceholderIcon
    case Some(es) =>
      match LastWhere(es, IsIcon)
      case Some(i) => "./img/" + es[i].name
      case None => PlaceholderIcon
  }

  /** The last listed `img/` entry named 'banner_*.jpg' or 'banner_*.jpeg',
      or the placeholder. */
  function BannerPath(img: Option<seq<Entry>>): (r: string)
    ensures img.Some? ==> match LastWhere(img.value, IsBanner)
      case Some(i) => r == "./img/" + img.value[i].name
      case None => r == PlaceholderBanner
    ensures img.None? ==> r == PlaceholderBanner
  {
    match img
    case None => PlaceholderBanner
    case Some(es) =>
      match LastWhere(es, IsBanner)
      case Some(i) => "./img/" + es[i].name
      case None => PlaceholderBanner
  }

  /** The placeholder icon is used exactly when no readable `img/` entry is
      an icon: a found icon can never be mistaken for it. */
  lemma IconPlaceholderIff(img: Option<seq<Entry>>)
    ensures IconPath(img) == PlaceholderIcon <==>
      img.None? || forall j :: 0 <= j < |img.value| ==> !IsIcon(img.value[j])
  {
    if img.Some? {
      match LastWhere(img.value, IsIcon)
      case Some(i) =>
        assert |img.value[i].name| == |ToLower(img.value[i].name)| == 8;
        assert |IconPath(img)| == 14 != |PlaceholderIcon|;
      case None =>
    }
  }

  lemma BannerPlaceholderIff(img: Option<seq<Entry>>)
    ensures BannerPath(img) == PlaceholderBanner <==>
      img.None? || forall j :: 0 <= j < |img.value| ==> !IsBanner(img.value[j])
  {
    if img.Some? {
      match LastWhere(img.value, IsBanner)
      case Some(i) =>
        var r := BannerPath(img);
        assert r[6] == img.value[i].name[0] == 'b';
        assert PlaceholderBanner[6] == 'p';
      case None =>
    }
  }

  // ---------------------------------------------------------------------
  // The page
  // ---------------------------------------------------------------------

  /** What the generated `index.html` of a channel carries. */
  datatype ChannelPage = ChannelPage(
    pageTitle: string,                   // the wrapper's <title>
    title: string,                       // the <h1> and the banner/icon alt texts
    description: string,
    banner: string,
    icon: string,
    videos: seq<Video>,                  // ALL_VIDEOS_DATA, in page order
    perPage: nat,                        // VIDEOS_PER_PAGE
    hiddenLinks: seq<(string, string)>)  // the crawler list: (href, text) per video

  /** The hidden crawler list: one link per video, in page order. */
  function HiddenLinks(videos: seq<Video>): (r: seq<(string, string)>)
    requires forall i :: 0 <= i < |videos| ==> videos[i].id.Some?
    ensures |r| == |videos|
    ensures forall i :: 0 <= i < |r| ==>
      r[i] == ("./" + videos[i].id.value + "/index.html", videos[i].title)
  {
    seq(|videos|, i requires 0 <= i < |videos| => ("./" + videos[i].id.value + "/index.html", videos[i].title))
  }

  /** `v` is the descriptor the collection builds for the folder named by
      its id. */
  predicate Describes(ch: ChannelDir, title: string, v: Video) {
    && v.id.Some?
    && v.id.value in FolderNames(ch.entries)
    && var d := VideoDirOf(ch.videos, v.id.value);
       match Utils.ReadVideoMetadata(d)
       case Some(meta) => v == Describe(v.id.value, meta, d, title)
       case None => false
  }

  /** `generateChannelPage(channelPath)` for the folder `channelName`: the
      page lists every collected video exactly once, each described from its
      own folder, in the merged order. */
  method GenerateChannelPage(ch: ChannelDir, channelName: string, titleLe: (string, string) -> bool)
      returns (page: ChannelPage)
    ensures page.title == ChannelTitle(ch.info, channelName)
    ensures page.pageTitle == "Canal: " + page.title
    ensures page.description == ChannelDescription(ch.info)
    ensures page.icon == IconPath(ch.img) && page.banner == BannerPath(ch.img)
    ensures page.perPage == VideosPerPage
    ensures var m := CollectVideos(ch, ch.entries, page.title);
      var ids := ParseIds(ch.idsText);
      && page.videos == LookupAll(m, Present(ids, m)) + SortBy(Values(Without(m, ids)), ByTitle(titleLe))
      && multiset(page.videos) == multiset(Values(m))
    ensures forall v :: v in page.videos ==> Describes(ch, page.title, v)
    ensures forall v :: multiset(page.videos)[v] <= 1
    ensures |page.hiddenLinks| == |page.videos|
    ensures forall i :: 0 <= i < |page.videos| ==>
      page.hiddenLinks[i] == (page.videos[i].link, page.videos[i].title)
  {
    var orderedIds := ParseIds(ch.idsText);
    var title := ChannelTitle(ch.info, channelName);
    var m := CollectVideos(ch, ch.entries, title);
    var videos := MergeOrder(orderedIds, m, ByTitle(titleLe));
    ArrangedDescribed(ch, title, videos);
    ArrangedOnce(ch, title, videos);
    DescribedLinks(ch, title, videos);
    page := ChannelPage("Canal: " + title, title, ChannelDescription(ch.info),
                        BannerPath(ch.img), IconPath(ch.img), videos, VideosPerPage, HiddenLinks(videos));
  }

  /** Any arrangement of the collected values is made of descriptors of
      their own folders. */
  lemma ArrangedDescribed(ch: ChannelDir, title: string, videos: seq<Video>)
    requires multiset(videos) == multiset(Values(CollectVideos(ch, ch.entries, title)))
    ensures forall v :: v in videos ==> Describes(ch, title, v)
  {
    CollectedValues(ch, title);
    forall v | v in videos ensures Describes(ch, title, v) {
      assert v in multiset(videos);
    }
  }

  /** A described video's link is its folder's page, so the hidden
      crawler list agrees with the data. */
  lemma DescribedLinks(ch: ChannelDir, title: string, videos: seq<Video>)
    requires forall v :: v in videos ==> Describes(ch, title, v)
    ensures forall i :: 0 <= i < |videos| ==>
      videos[i].id.Some? && videos[i].link == "./" + videos[i].id.value + "/index.html"
  {
    forall i | 0 <= i < |videos|
      ensures videos[i].id.Some? && videos[i].link == "./" + videos[i].id.value + "/index.html"
    {
      assert Describes(ch, title, videos[i]);
    }
  }

  /** Any arrangement of the collected values holds each of them once. */
  lemma ArrangedOnce(ch: ChannelDir, title: string, videos: seq<Video>)
    requires multiset(videos) == multiset(Values(CollectVideos(ch, ch.entries, title)))
    ensures forall v :: multiset(videos)[v] <= 1
  {
    var m := CollectVideos(ch, ch.entries, title);
    CollectedIds(ch, title);
    forall v ensures multiset(videos)[v] <= 1 {
      ValueCountOne(m, v);
    }
  }

  lemma CollectedIds(ch: ChannelDir, title: string)
    ensures var m := CollectVideos(ch, ch.entries, title);
      forall k :: Get(m, k).Some? ==> Get(m, k).value.id == Some(k)
  {
    CollectSpec(ch, ch.entries, title);
  }

  /** Every value of the collected map describes its own folder. */
  lemma CollectedValues(ch: ChannelDir, title: string)
    ensures var m := CollectVideos(ch, ch.entries, title);
      forall v :: v in multiset(Values(m)) ==> Describes(ch, title, v)
  {
    var m := CollectVideos(ch, ch.entries, title);
    CollectSpec(ch, ch.entries, title);
    var ks := Keys(m);
    var vs := Values(m);
    forall v | v in multiset(vs) ensures Describes(ch, title, v) {
      var j :| 0 <= j < |vs| && vs[j] == v;
      KeyValueAt(m.entries, j);
      assert Get(m, ks[j]) == Some(v);
    }
  }

  lemma {:induction false} KeyValueAt<V>(es: seq<(string, V)>, j: int)
    requires Distinct(EntryKeys(es)) && 0 <= j < |es|
    ensures EntryGet(es, es[j].0) == Some(es[j].1)
    decreases |es|
  {
    assert EntryKeys(es) == [es[0].0] + EntryKeys(es[1..]);
    if j > 0 {
      assert EntryKeys(es[1..]) == EntryKeys(es)[1..];
      assert es[0].0 != es[j].0 by { assert EntryKeys(es)[0] != EntryKeys(es)[j]; }
      KeyValueAt(es[1..], j - 1);
    }
  }

  /** In a map whose values carry their own key as id, every value occurs
      once among the values. */
  lemma ValueCountOne(m: OMap<string, Video>, v: Video)
    requires Valid(m)
    requires forall k :: Get(m, k).Some? ==> Get(m, k).value.id == Some(k)
    ensures multiset(Values(m))[v] <= 1
  {
    EntryValueCountOne(m.entries, v);
  }

  lemma {:induction false} EntryValueCountOne(es: seq<(string, Video)>, v: Video)
    requires Distinct(EntryKeys(es))
    requires forall k :: EntryGet(es, k).Some? ==> EntryGet(es, k).value.id == Some(k)
    ensures multiset(EntryValues(es))[v] <= 1
    decreases |es|
  {
    if |es| > 0 {
      assert EntryKeys(es) == [es[0].0] + EntryKeys(es[1..]);
      assert EntryKeys(es[1..]) == EntryKeys(es)[1..];
      assert EntryValues(es) == [es[0].1] + EntryValues(es[1..]);
      forall k | EntryGet(es[1..], k).Some? ensures EntryGet(es[1..], k).value.id == Some(k) {
        assert k != es[0].0;
        assert EntryGet(es, k) == EntryGet(es[1..], k);
      }
      EntryValueCountOne(es[1..], v);
      if es[0].1 == v {
        assert EntryGet(es, es[0].0) == Some(v);
        forall j | 0 <= j < |es[1..]| ensures EntryValues(es[1..])[j] != v {
          KeyValueAt(es[1..], j);
          assert es[1..][j].0 != es[0].0 by { assert EntryKeys(es)[j + 1] != EntryKeys(es)[0]; }
        }
        assert v !in EntryValues(es[1..]);
      }
    }
  }
}
