/** generate_video.js: the page of one video — its media file names, the
    subtitle `<track>` list, and the subtitle text block for crawlers. */
module VideoGen {
  import opened Common
  import opened Strings
  import opened FileSystem
  import opened Descriptor
  import opened Seqs
  import Utils

  /** `DEFAULT_SUBTITLE_ACTIVE`. */
  const DefaultSubtitleActive := true
  const UnknownLanguage := "desconocido"

  predicate IsSubtitleFile(e: Entry) {
    EndsWith(e.name, ".vtt") || EndsWith(e.name, ".srt")
  }

  // ---------------------------------------------------------------------
  // Tracks
  // ---------------------------------------------------------------------

  /** The language code of a subtitle file: the second-to-last '.'-separated
      segment, or 'desconocido' for a name without a '.'. */
  function LangCode(name: string): (code: string)
    ensures '.' !in code || code == UnknownLanguage
  {
    var parts := Split(name, '.');
    if |parts| > 1 then parts[|parts| - 2] else UnknownLanguage
  }

  /** For a name assembled from dot-free segments, the code is the segment
      before the extension. */
  lemma LangCodeOfSegments(segments: seq<string>)
    requires |segments| >= 2
    requires forall i :: 0 <= i < |segments| ==> '.' !in segments[i]
    ensures LangCode(Join(segments, ".")) == segments[|segments| - 2]
  {
    var name := Join(segments, ['.']);
    SplitJoin(segments, '.');
    var parts := Split(name, '.');
    assert parts == segments && |parts| > 1;
  }

  /** A subtitle file name always holds a '.', so the 'desconocido' fallback
      is never taken for one. */
  lemma SubtitleHasLangCode(e: Entry)
    requires IsSubtitleFile(e)
    ensures |Split(e.name, '.')| >= 2
    ensures LangCode(e.name) == Split(e.name, '.')[|Split(e.name, '.')| - 2]
  {
    assert e.name[|e.name| - 4] == '.';
    SplitAtLeastTwo(e.name, '.');
  }

  /** A subtitle without a language segment takes its base name as the
      code: "My Video.vtt" gives "My Video" and ".vtt" gives "", neither
      a language tag. */
  lemma PlainNameCodes()
    ensures LangCode("My Video.vtt") == "My Video"
    ensures LangCode(".vtt") == ""
  {
    LangCodeOfSegments(["My Video", "vtt"]);
    LangCodeOfSegments(["", "vtt"]);
    assert Join(["My Video", "vtt"], ".") == "My Video.vtt";
    assert Join(["", "vtt"], ".") == ".vtt";
  }

  /** One `<track kind="subtitles" src=... srclang=... label=...[ default]>`. */
  datatype Track = Track(src: string, srclang: string, labelText: string, isDefault: bool)

  /** `Intl.DisplayNames(['es'], { type: 'language' }).of(code)`: `None` when
      it throws a `RangeError` (a code that is not a well-formed language
      tag, such as "" or "My Video"), `Some("")` when it gives `undefined`. */
  type DisplayNames = string -> Option<string>

  /** The display name accepts the language code of `name`. */
  predicate Accepted(name: string, displayName: DisplayNames) {
    displayName(LangCode(name)).Some?
  }

  /** The label: the language's display name (or the code when there is
      none), marked ' (Auto)' for automatic captions; a code the display
      name rejects throws. */
  function Label(name: string, displayName: DisplayNames): (r: Result<string>)
    ensures r.Thrown? <==> !Accepted(name, displayName)
    ensures r.Ok? ==>
      var langName := Or(displayName(LangCode(name)).value, LangCode(name));
      && (Contains(name, ".auto.") <==> r.value == langName + " (Auto)")
      && (!Contains(name, ".auto.") ==> r.value == langName)
  {
    var code := LangCode(name);
    match displayName(code)
    case None => Thrown("RangeError")
    case Some(shown) =>
      var langName := Or(shown, code);
      if Contains(name, ".auto.") then Ok(langName + " (Auto)")
      else
        assert !(langName == langName + " (Auto)");
        Ok(langName)
  }

  /** The `<track>` of subtitle file `name`, or the label's throw. */
  function TrackFor(name: string, displayName: DisplayNames, isDefault: bool): (t: Result<Track>)
    ensures t.Thrown? <==> !Accepted(name, displayName)
    ensures t.Ok? ==>
      && t.value.src == "./" + name && t.value.srclang == LangCode(name)
      && Label(name, displayName).Ok? && t.value.labelText == Label(name, displayName).value
      && t.value.isDefault == isDefault
  {
    match Label(name, displayName)
    case Thrown(e) => Thrown(e)
    case Ok(text) => Ok(Track("./" + name, LangCode(name), text, isDefault))
  }

  /** One of the subtitle file names has a code the display name
      rejects. */
  predicate SomeRejected(names: seq<string>, displayName: DisplayNames) {
    exists n :: n in names && !Accepted(n, displayName)
  }

  /** `tracks` are the tracks of subtitle files `names`, in order, the
      first marked default exactly when `defaultActive`. */
  predicate TracksOf(names: seq<string>, tracks: seq<Track>, displayName: DisplayNames, defaultActive: bool) {
    && |tracks| == |names|
    && forall k :: 0 <= k < |names| ==>
         TrackFor(names[k], displayName, defaultActive && k == 0) == Ok(tracks[k])
  }

  lemma TracksOfSnoc(names: seq<string>, tracks: seq<Track>, name: string, t: Track,
                     displayName: DisplayNames, defaultActive: bool)
    requires TracksOf(names, tracks, displayName, defaultActive)
    requires TrackFor(name, displayName, defaultActive && |names| == 0) == Ok(t)
    ensures TracksOf(names + [name], tracks + [t], displayName, defaultActive)
  {
    var ns := names + [name];
    var ts := tracks + [t];
    forall k | 0 <= k < |ns| ensures TrackFor(ns[k], displayName, defaultActive && k == 0) == Ok(ts[k]) {
      if k < |names| {
        assert ns[k] == names[k] && ts[k] == tracks[k];
      }
    }
  }

  /** One pass of the loop body for subtitle file `name`: the `default`
      attribute for the first track only, then the track or its throw. */
  method NextTrack(names: seq<string>, built: seq<Track>, isFirstTrack: bool, name: string,
                   displayName: DisplayNames, defaultActive: bool)
      returns (t: Result<Track>, stillFirst: bool)
    requires TracksOf(names, built, displayName, defaultActive)
    requires isFirstTrack <==> !defaultActive || |built| == 0
    ensures t.Thrown? <==> !Accepted(name, displayName)
    ensures t.Ok? ==> TracksOf(names + [name], built + [t.value], displayName, defaultActive)
    ensures stillFirst <==> !defaultActive
  {
    var isDefault := false;
    stillFirst := isFirstTrack;
    if defaultActive && isFirstTrack {
      isDefault := true;
      stillFirst := false;
    }
    t := TrackFor(name, displayName, isDefault);
    if t.Ok? {
      TracksOfSnoc(names, built, name, t.value, displayName, defaultActive);
    }
  }

  /** Lines 79-103: one track per subtitle file, in listing order; with
      `defaultActive`, exactly the first carries `default`. The loop is not
      inside a `try`, so a rejected code throws out of it. */
  method BuildTracks(es: seq<Entry>, displayName: DisplayNames, defaultActive: bool)
      returns (tracks: Result<seq<Track>>)
    ensures tracks.Thrown? <==> SomeRejected(NamesWhere(es, IsSubtitleFile), displayName)
    ensures tracks.Ok? ==> TracksOf(NamesWhere(es, IsSubtitleFile), tracks.value, displayName, defaultActive)
  {
    var built: seq<Track> := [];
    var isFirstTrack := true;
    var i := 0;
    while i < |es|
      invariant 0 <= i <= |es|
      invariant TracksOf(NamesWhere(es[..i], IsSubtitleFile), built, displayName, defaultActive)
      invariant isFirstTrack <==> !defaultActive || |built| == 0
    {
      var e := es[i];
      NamesWhereSnoc(es, i, IsSubtitleFile);
      if IsSubtitleFile(e) {
        var t;
        t, isFirstTrack := NextTrack(NamesWhere(es[..i], IsSubtitleFile), built, isFirstTrack,
                                     e.name, displayName, defaultActive);
        if t.Thrown? {
          RejectedAt(es, i, displayName);
          return Thrown(t.error);
        }
        built := built + [t.value];
      }
      i := i + 1;
    }
    assert es[..i] == es;
    NoneRejected(NamesWhere(es, IsSubtitleFile), built, displayName, defaultActive);
    return Ok(built);
  }

  lemma RejectedAt(es: seq<Entry>, i: int, displayName: DisplayNames)
    requires 0 <= i < |es| && IsSubtitleFile(es[i]) && !Accepted(es[i].name, displayName)
    ensures SomeRejected(NamesWhere(es, IsSubtitleFile), displayName)
  {
    assert es[i].name in NamesWhere(es, IsSubtitleFile);
  }

  /** Names that all have tracks have no rejected code. */
  lemma NoneRejected(names: seq<string>, tracks: seq<Track>, displayName: DisplayNames, defaultActive: bool)
    requires TracksOf(names, tracks, displayName, defaultActive)
    ensures !SomeRejected(names, displayName)
  {
    forall n | n in names ensures Accepted(n, displayName) {
      var k :| 0 <= k < |names| && names[k] == n;
      assert TrackFor(names[k], displayName, defaultActive && k == 0).Ok?;
    }
  }

  /** At most one track is marked default, and one is exactly when the
      switch is on and there is a subtitle file. */
  lemma OneDefaultTrack(names: seq<string>, displayName: DisplayNames, defaultActive: bool, tracks: seq<Track>)
    requires |tracks| == |names|
    requires forall k :: 0 <= k < |names| ==> TrackFor(names[k], displayName, defaultActive && k == 0) == Ok(tracks[k])
    ensures forall a, b :: 0 <= a < b < |tracks| ==> !(tracks[a].isDefault && tracks[b].isDefault)
    ensures (exists k :: 0 <= k < |tracks| && tracks[k].isDefault) <==> defaultActive && |tracks| > 0
  {
    if defaultActive && |tracks| > 0 {
      assert TrackFor(names[0], displayName, true) == Ok(tracks[0]);
      assert tracks[0].isDefault;
    }
  }

  // ---------------------------------------------------------------------
  // Subtitle text
  // ---------------------------------------------------------------------

  /** The block appended for one subtitle file. */
  function Section(name: string, cleaned: string): (r: string)
    ensures |r| > 1 && r[1] == '-'
  {
    "\n--- Subtítulos (" + name + ") ---\n" + cleaned + "\n"
  }

  /** The loop of `readSubtitlesContent` over `es`: a section per subtitle
      file in listing order, stopping at the first file that cannot be read
      (the exception leaves the loop with what was gathered). `clean`
      stands for the regular-expression cleaning and `trim`. */
  function SubtitleSections(es: seq<Entry>, texts: map<string, string>, clean: string -> string): string
    decreases |es|
  {
    if |es| == 0 then ""
    else if !IsSubtitleFile(es[0]) then SubtitleSections(es[1..], texts, clean)
    else if es[0].name !in texts then ""
    else Section(es[0].name, clean(texts[es[0].name])) + SubtitleSections(es[1..], texts, clean)
  }

  /** `readSubtitlesContent(videoPath)`; an unreadable folder gives `""`. */
  function ReadSubtitlesContent(d: VideoDir, clean: string -> string): string {
    match d.listing
    case None => ""
    case Some(es) => SubtitleSections(es, d.texts, clean)
  }

  /** The first subtitle file of the listing, if any, reads. */
  predicate FirstSubtitleReads(es: seq<Entry>, texts: map<string, string>) {
    match FirstWhere(es, IsSubtitleFile)
    case Some(i) => es[i].name in texts
    case None => false
  }

  /** The gathered text is empty, or starts with a section; it is non-empty
      exactly when the first subtitle file of the listing reads. */
  lemma {:induction false} SectionsShape(es: seq<Entry>, texts: map<string, string>, clean: string -> string)
    ensures var s := SubtitleSections(es, texts, clean);
      s == "" || (|s| > 1 && s[1] == '-')
    ensures SubtitleSections(es, texts, clean) != "" <==> FirstSubtitleReads(es, texts)
    decreases |es|
  {
    if |es| > 0 {
      SectionsShape(es[1..], texts, clean);
      if IsSubtitleFile(es[0]) && es[0].name in texts {
        var sec := Section(es[0].name, clean(texts[es[0].name]));
        assert (sec + SubtitleSections(es[1..], texts, clean))[1] == sec[1];
      }
    }
  }

  lemma DashNotSpace()
    ensures !IsSpace('-')
  {
  }

  /** The gathered text of a listing trims to something exactly when its
      first subtitle file reads. */
  lemma SectionsTrimIff(es: seq<Entry>, texts: map<string, string>, clean: string -> string)
    ensures Trim(SubtitleSections(es, texts, clean)) != "" <==> FirstSubtitleReads(es, texts)
  {
    var s := SubtitleSections(es, texts, clean);
    SectionsShape(es, texts, clean);
    TrimEmptyIff(s);
    if s != "" {
      DashNotSpace();
      assert !IsSpace(s[1]);
    }
  }

  /** Lines 69 and 181-190: the `<details>` block is shown exactly when the
      folder lists and its first subtitle file reads. */
  lemma HasSubtitlesIff(d: VideoDir, clean: string -> string)
    ensures Trim(ReadSubtitlesContent(d, clean)) != "" <==>
      d.listing.Some? && FirstSubtitleReads(d.listing.value, d.texts)
  {
    match d.listing
    case None =>
      TrimEmptyIff("");
    case Some(es) =>
      SectionsTrimIff(es, d.texts, clean);
  }

  // ---------------------------------------------------------------------
  // The page
  // ---------------------------------------------------------------------

  /** What the generated `index.html` of a video carries. */
  datatype VideoPage = VideoPage(
    pageTitle: string,            // the wrapper's <title>: the metadata title
    heading: string,              // <h1>: fulltitle, else title
    videoFile: string,            // <source src="./...">
    poster: string,
    youtubeUrl: string,
    banner: string,
    description: string,
    tracks: seq<Track>,
    subtitles: Option<string>)    // the <details> block's text, when shown

  /** `generateVideoPage(videoPath)` for a folder inside channel folder
      `channelDirName`: `Ok(None)` when the metadata cannot be read (nothing
      is written), `Thrown` when a subtitle's language code makes the
      display name throw (the script stops before writing). The media names
      come from the metadata's `id`, not from the folder name. */
  method GenerateVideoPage(d: VideoDir, channelDirName: string, clean: string -> string,
                           displayName: DisplayNames)
      returns (page: Result<Option<VideoPage>>)
    ensures page == Ok(None) <==> Utils.ReadVideoMetadata(d).None?
    ensures page.Thrown? <==>
      && Utils.ReadVideoMetadata(d).Some? && d.listing.Some?
      && SomeRejected(NamesWhere(d.listing.value, IsSubtitleFile), displayName)
    ensures page.Ok? && page.value.Some? ==>
      var meta := Utils.ReadVideoMetadata(d).value;
      var p := page.value.value;
      && p.videoFile == meta.id + ".mp4"
      && p.poster == "./" + meta.id + ".jpg"
      && p.youtubeUrl == "https://www.youtube.com/watch?v=" + meta.id
      && p.pageTitle == meta.title
      && p.heading == Or(meta.fulltitle, meta.title)
      && p.banner == "../img/banner_" + channelDirName + ".jpg"
      && p.description == Or(meta.description, NoDescription)
      && |p.tracks| == |NamesWhere(d.listing.value, IsSubtitleFile)|
      && (p.subtitles.Some? <==> Trim(ReadSubtitlesContent(d, clean)) != "")
  {
    var metadata := Utils.ReadVideoMetadata(d);
    if metadata.None? {
      return Ok(None);
    }
    var meta := metadata.value;
    var full := ReadSubtitlesContent(d, clean);
    var tracks := BuildTracks(d.listing.value, displayName, DefaultSubtitleActive);
    if tracks.Thrown? {
      return Thrown(tracks.error);
    }
    var subtitles := if Trim(full) != "" then Some(full) else None;
    page := Ok(Some(VideoPage(meta.title, Or(meta.fulltitle, meta.title), meta.id + ".mp4",
                              "./" + meta.id + ".jpg", "https://www.youtube.com/watch?v=" + meta.id,
                              "../img/banner_" + channelDirName + ".jpg",
                              Or(meta.description, NoDescription), tracks.value, subtitles)));
  }
}
