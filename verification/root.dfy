/** generate_root.js: the home page — every complete video of every channel
    in shuffled order, and the crawler list of channels read back from the
    menu-data module. */
module RootGen {
  import opened Common
  import opened Strings
  import opened FileSystem
  import opened Descriptor
  import opened MenuGen
  import Utils

  const VideosPerPage := 50

  // ---------------------------------------------------------------------
  // Collection
  // ---------------------------------------------------------------------

  /** `checkFiles(videoPath, videoId)`: both `<id>.mp4` and `<id>.jpg` stat
      as files; a stat that throws makes it false. */
  predicate CheckFiles(d: VideoDir, id: string) {
    && id + ".mp4" in d.stat && d.stat[id + ".mp4"]
    && id + ".jpg" in d.stat && d.stat[id + ".jpg"]
  }

  /** A video sub-folder of a channel that enters the home page: a folder,
      with metadata, with both media files. */
  predicate Admits(ch: ChannelDir, e: Entry) {
    && e.isDir
    && var d := VideoDirOf(ch.videos, e.name);
       Utils.ReadVideoMetadata(d).Some? && CheckFiles(d, e.name)
  }

  /** The home-page descriptor of video `id` of channel folder `channel`. */
  function RootDescriptor(channel: string, id: string, meta: Metadata): (v: Video)
    ensures v.link == "./" + channel + "/" + id + "/index.html"
    ensures v.thumbnail == "./" + channel + "/" + id + "/" + id + ".jpg"
    ensures meta.uploader != "" ==> v.channel == meta.uploader
    ensures meta.uploader == "" ==> v.channel == channel
    ensures v.title == meta.title && v.description == ShortDescription(meta.description)
    ensures v.date == DisplayDateOf(meta.uploadDate)
    ensures v.id.None? && v.fullDescription.None?
  {
    Video(meta.title, "./" + channel + "/" + id + "/index.html",
          "./" + channel + "/" + id + "/" + id + ".jpg", Or(meta.uploader, channel),
          ShortDescription(meta.description), DisplayDateOf(meta.uploadDate), None, None)
  }

  /** The descriptor of an admitted entry. */
  function DescriptorOf(channel: string, ch: ChannelDir, e: Entry): Video
    requires Admits(ch, e)
  {
    RootDescriptor(channel, e.name, Utils.ReadVideoMetadata(VideoDirOf(ch.videos, e.name)).value)
  }

  /** Lines 61-94 over the first entries `es` of one channel listing: one
      descriptor per admitted entry, in listing order. */
  function ChannelVideos(channel: string, ch: ChannelDir, es: seq<Entry>): (r: seq<Video>)
    ensures |r| <= |es|
    decreases |es|
  {
    if |es| == 0 then []
    else
      var init := es[..|es| - 1];
      var e := es[|es| - 1];
      var rest := ChannelVideos(channel, ch, init);
      if Admits(ch, e) then rest + [DescriptorOf(channel, ch, e)] else rest
  }

  /** A channel contributes exactly the descriptors of its admitted
      entries. */
  lemma ChannelVideosSpec(channel: string, ch: ChannelDir, es: seq<Entry>)
    ensures forall v :: v in ChannelVideos(channel, ch, es) ==>
      exists i :: 0 <= i < |es| && Admits(ch, es[i]) && v == DescriptorOf(channel, ch, es[i])
    ensures forall i :: 0 <= i < |es| && Admits(ch, es[i]) ==> DescriptorOf(channel, ch, es[i]) in ChannelVideos(channel, ch, es)
  {
    ChannelVideosSound(channel, ch, es);
    ChannelVideosAll(channel, ch, es);
  }

  /** Every contributed descriptor is that of an admitted entry. */
  lemma {:induction false} ChannelVideosSound(channel: string, ch: ChannelDir, es: seq<Entry>)
    ensures forall v :: v in ChannelVideos(channel, ch, es) ==>
      exists i :: 0 <= i < |es| && Admits(ch, es[i]) && v == DescriptorOf(channel, ch, es[i])
    decreases |es|
  {
    if |es| > 0 {
      var init := es[..|es| - 1];
      ChannelVideosSound(channel, ch, init);
      forall v | v in ChannelVideos(channel, ch, es)
        ensures exists i :: 0 <= i < |es| && Admits(ch, es[i]) && v == DescriptorOf(channel, ch, es[i])
      {
        if v in ChannelVideos(channel, ch, init) {
          var i :| 0 <= i < |init| && Admits(ch, init[i]) && v == DescriptorOf(channel, ch, init[i]);
          assert init[i] == es[i];
        } else {
          assert Admits(ch, es[|es| - 1]) && v == DescriptorOf(channel, ch, es[|es| - 1]);
        }
      }
    }
  }

  /** Every admitted entry contributes its descriptor. */
  lemma {:induction false} ChannelVideosAll(channel: string, ch: ChannelDir, es: seq<Entry>)
    ensures forall i :: 0 <= i < |es| && Admits(ch, es[i]) ==> DescriptorOf(channel, ch, es[i]) in ChannelVideos(channel, ch, es)
    decreases |es|
  {
    if |es| > 0 {
      var init := es[..|es| - 1];
      ChannelVideosAll(channel, ch, init);
      forall i | 0 <= i < |es| && Admits(ch, es[i])
        ensures DescriptorOf(channel, ch, es[i]) in ChannelVideos(channel, ch, es)
      {
        if i < |init| {
          assert init[i] == es[i];
        }
      }
    }
  }

  /** Every home-page video of a channel has both of its media files. */
  lemma ChannelVideosComplete(channel: string, ch: ChannelDir, v: Video)
    requires v in ChannelVideos(channel, ch, ch.entries)
    ensures exists id :: (
      && CheckFiles(VideoDirOf(ch.videos, id), id)
      && v.link == "./" + channel + "/" + id + "/index.html"
      && v.thumbnail == "./" + channel + "/" + id + "/" + id + ".jpg")
  {
    ChannelVideosSpec(channel, ch, ch.entries);
    var i :| 0 <= i < |ch.entries| && Admits(ch, ch.entries[i]) && v == DescriptorOf(channel, ch, ch.entries[i]);
    var id := ch.entries[i].name;
    assert CheckFiles(VideoDirOf(ch.videos, id), id);
  }

  /** Lines 48-96 over the first entries `es` of the root listing: the
      videos of each channel folder in turn; `None` when a channel folder
      cannot be listed (the uncaught exception ends the script before any
      page is written). */
  function RootVideos(root: RootDir, es: seq<Entry>): (r: Option<seq<Video>>)
    ensures r.None? <==> exists i :: 0 <= i < |es| && IsChannelDirChained(es[i]) && es[i].name !in root.channels
    ensures r.Some? ==> forall v :: v in r.value <==>
      exists i :: 0 <= i < |es| && IsChannelDirChained(es[i])
        && v in ChannelVideos(es[i].name, root.channels[es[i].name], root.channels[es[i].name].entries)
    decreases |es|
  {
    if |es| == 0 then Some([])
    else
      var init := es[..|es| - 1];
      var e := es[|es| - 1];
      var rest := RootVideos(root, init);
      assert forall i :: 0 <= i < |init| ==> init[i] == es[i];
      if rest.None? then None
      else if !IsChannelDirChained(e) then rest
      else if e.name !in root.channels then None
      else
        var ch := root.channels[e.name];
        Some(rest.value + ChannelVideos(e.name, ch, ch.entries))
  }

  /** The utility folders and plain files at the top level never contribute
      videos, whatever they hold. */
  lemma UtilityFoldersIgnored(root: RootDir, es: seq<Entry>, name: string)
    requires name in IgnoredDirs
    ensures RootVideos(root, es + [Entry(name, true)]) == RootVideos(root, es)
    ensures RootVideos(root, es + [Entry(name, false)]) == RootVideos(root, es)
  {
    assert (es + [Entry(name, true)])[..|es|] == es;
    assert (es + [Entry(name, false)])[..|es|] == es;
  }

  // ---------------------------------------------------------------------
  // Shuffle
  // ---------------------------------------------------------------------

  /** Lines 101-104: the Fisher–Yates pass from the last index down to 1,
      swapping index `i` with `rnd(i)`, where `rnd(i)` stands for
      `Math.floor(Math.random() * (i + 1))` and so lies in `[0, i]`. The
      result is a rearrangement of the input. */
  method Shuffle<T>(a: seq<T>, rnd: nat -> nat) returns (r: seq<T>)
    requires forall i: nat :: rnd(i) <= i
    ensures |r| == |a|
    ensures multiset(r) == multiset(a)
  {
    r := a;
    var i := |a| - 1;
    while i > 0
      invariant -1 <= i < |a|
      invariant |r| == |a|
      invariant multiset(r) == multiset(a)
    {
      var j := rnd(i);
      var ri, rj := r[i], r[j];
      r := r[i := rj][j := ri];
      i := i - 1;
    }
  }

  // ---------------------------------------------------------------------
  // The crawler list
  // ---------------------------------------------------------------------

  /** `jsContent.replace('export const menuData = ', '').replace(/;$/, '')`. */
  function StripMenuModule(text: string): (r: string)
    ensures !Contains(text, ModulePrefix) && !EndsWith(text, ";") ==> r == text
  {
    NoIndexWithoutContains(text, ModulePrefix);
    DropFinalSemicolon(ReplaceFirst(text, ModulePrefix, ""))
  }

  lemma NoIndexWithoutContains(s: string, t: string)
    ensures !Contains(s, t) ==> IndexOf(s, t).None?
  {
    if IndexOf(s, t).Some? {
      ContainsIff(s, t, IndexOf(s, t).value);
    }
  }

  /** Stripping the module text the menu builders write gives back the JSON
      text they embedded. */
  lemma StripInvertsModule(json: string)
    ensures StripMenuModule(GenerateJsModule(json)) == json
  {
    var m := GenerateJsModule(json);
    assert OccursAt(m, ModulePrefix, 0);
    assert IndexOf(m, ModulePrefix) == Some(0);
    var replaced := ReplaceFirst(m, ModulePrefix, "");
    assert replaced == json + ";";
  }

  /** One `<li><a href=url>name</a></li>` of the crawler list. */
  datatype SeoItem = SeoItem(href: string, text: string)

  /** Lines 107-129: the crawler list, or `None` (no section at all) when
      `menu_data.js` cannot be read or its stripped text does not parse.
      `parse` stands for `JSON.parse`. */
  function SeoList(menuModule: Option<string>, parse: string -> Option<seq<ChannelData>>): (r: Option<seq<SeoItem>>)
    ensures menuModule.None? ==> r.None?
    ensures menuModule.Some? ==> (r.Some? <==> parse(StripMenuModule(menuModule.value)).Some?)
    ensures r.Some? ==> var cs := parse(StripMenuModule(menuModule.value)).value;
      |r.value| == |cs| && forall i :: 0 <= i < |cs| ==> r.value[i] == SeoItem(cs[i].url, cs[i].name)
  {
    match menuModule
    case None => None
    case Some(text) =>
      match parse(StripMenuModule(text))
      case None => None
      case Some(cs) => Some(seq(|cs|, i requires 0 <= i < |cs| => SeoItem(cs[i].url, cs[i].name)))
  }

  /** Reading back the module the menu builder wrote for a listing gives one
      crawler link per channel folder, in listing order, to its page. */
  lemma SeoListOfMenuModule(listing: seq<Entry>, stringify: seq<ChannelData> -> string,
                            parse: string -> Option<seq<ChannelData>>)
    requires forall cs :: parse(stringify(cs)) == Some(cs)
    ensures var r := SeoList(MenuModule(Some(listing), stringify), parse);
      var names := NamesWhere(listing, IsChannelDir);
      && r.Some? && |r.value| == |names|
      && forall i :: 0 <= i < |names| ==> r.value[i] == SeoItem("./" + names[i] + "/index.html", names[i])
  {
    var cs := BuildMenuData(listing, IsChannelDir);
    StripInvertsModule(stringify(cs));
    assert DataNames(cs) == NamesWhere(listing, IsChannelDir);
  }

  // ---------------------------------------------------------------------
  // The page
  // ---------------------------------------------------------------------

  /** What the generated home `index.html` carries. */
  datatype RootPage = RootPage(
    pageTitle: string,
    videos: seq<Video>,             // ALL_VIDEOS_DATA, shuffled
    perPage: nat,                   // VIDEOS_PER_PAGE
    seo: Option<seq<SeoItem>>)      // the crawler section, when present

  /** `generateIndexPage(rootDir)`; `None` when the script dies before
      writing. */
  method GenerateIndexPage(root: RootDir, rnd: nat -> nat, parse: string -> Option<seq<ChannelData>>)
      returns (page: Option<RootPage>)
    requires forall i: nat :: rnd(i) <= i
    ensures page.None? <==> RootVideos(root, root.entries).None?
    ensures page.Some? ==>
      && multiset(page.value.videos) == multiset(RootVideos(root, root.entries).value)
      && page.value.perPage == VideosPerPage
      && page.value.seo == SeoList(root.menuModule, parse)
      && page.value.pageTitle == "Índice Principal"
  {
    match RootVideos(root, root.entries)
    case None => page := None;
    case Some(all) =>
      var shuffled := Shuffle(all, rnd);
      page := Some(RootPage("Índice Principal", shuffled, VideosPerPage, SeoList(root.menuModule, parse)));
  }
}
