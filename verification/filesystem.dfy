/** The file system as the generators see it, given as data: each
    `Deno.readDir` is a listing, each `Deno.statSync(...).isFile` a lookup,
    each `readTextFile` + `JSON.parse` a lookup that may fail. */
module FileSystem {
  import opened Common

  /** One `Deno.readDir` entry. */
  datatype Entry = Entry(name: string, isDir: bool)

  /** The fields of a video's `*.info.json` the generators read; `""` stands
      for a field that is absent or falsy. */
  datatype Metadata = Metadata(
    id: string,
    title: string,
    fulltitle: string,
    description: string,
    uploadDate: string,
    uploader: string,
    thumbnail: string)

  /** The names of the listed entries satisfying `p`, in listing order. */
  function NamesWhere(es: seq<Entry>, p: Entry -> bool): (r: seq<string>)
    ensures |r| <= |es|
    ensures forall k :: k in r <==> exists i :: 0 <= i < |es| && p(es[i]) && es[i].name == k
    decreases |es|
  {
    if |es| == 0 then []
    else
      var rest := NamesWhere(es[..|es| - 1], p);
      assert forall i :: 0 <= i < |es| - 1 ==> es[..|es| - 1][i] == es[i];
      if p(es[|es| - 1]) then rest + [es[|es| - 1].name] else rest
  }

  /** One more entry of the listing adds its name exactly when it passes. */
  lemma NamesWhereSnoc(es: seq<Entry>, i: int, p: Entry -> bool)
    requires 0 <= i < |es|
    ensures NamesWhere(es[..i + 1], p)
      == NamesWhere(es[..i], p) + (if p(es[i]) then [es[i].name] else [])
  {
    assert es[..i + 1][..i] == es[..i];
  }

  /** One video folder. */
  datatype VideoDir = VideoDir(
    listing: Option<seq<Entry>>,    // readDir of the folder; None when it throws
    parsed: map<string, Metadata>,  // files that read and parse as metadata JSON
    texts: map<string, string>,     // files whose text reads
    stat: map<string, bool>)        // statSync(name).isFile; absent when statSync throws

  /** A folder every read of which fails. */
  const Unreadable: VideoDir := VideoDir(None, map[], map[], map[])

  /** The sub-folder `name` of a channel; a name with no folder behind it
      reads as `Unreadable`. */
  function VideoDirOf(videos: map<string, VideoDir>, name: string): VideoDir {
    if name in videos then videos[name] else Unreadable
  }

  /** `channel.info.json`, `""` for an absent or falsy field. */
  datatype ChannelInfo = ChannelInfo(channel: string, description: string)

  /** One channel folder. */
  datatype ChannelDir = ChannelDir(
    entries: seq<Entry>,              // readDir of the channel folder
    videos: map<string, VideoDir>,    // its sub-folders by name
    idsText: Option<string>,          // video_ids_for_download.txt; None when unreadable
    info: Option<ChannelInfo>,        // channel.info.json; None when unreadable or not JSON
    img: Option<seq<Entry>>)          // readDir of img/; None when it throws

  /** The root folder that holds the channels. */
  datatype RootDir = RootDir(
    entries: seq<Entry>,                 // readDir of the root
    channels: map<string, ChannelDir>,   // channel folders whose listing reads
    menuModule: Option<string>)          // text of js/menu_data.js; None when unreadable
}
