# AP_You2Pub core, modelled in Dafny

AP_You2Pub turns a folder tree of downloaded videos into a static, offline
web site. Each video folder holds an `*.info.json` metadata sidecar, the
`<id>.mp4`, thumbnails and subtitles, and the folders are grouped by
channel. Deno scripts write three kinds of pages:

- the home page, `generate_root.js`;
- one page per channel, `generate_channel.js`;
- one page per video, `generate_video.js`.

They also write a `menu_data.js` module listing the channels
(`generate_menu.ts`, in two copies). Browser scripts then draw the pages
incrementally:

- the video grid in batches (`lazy-load.js`);
- the channel sidebar in batches (`menu_base.js`), or all at once and
  sorted (`menu.js`);
- the font-size buttons (`font-size.js`);
- a search box (`search.js`).

This project models that data shaping and those client state machines as
pure Dafny functions over immutable data, and proves what they guarantee.

- **File system as data.** A `Deno.readDir` is a listing
  `seq<Entry(name, isDir)>`. A listing that throws is `None`. A
  `statSync(...).isFile` is a `map<string, bool>` lookup, and a stat that
  throws is a missing key. A `readTextFile` + `JSON.parse` that can fail is
  a partial map (`FileSystem`).
- **JavaScript semantics written out.**
  - A falsy string field is `""`, and `a || b` is `Strings.Or`.
  - `trim` strips exactly the ECMAScript white-space and line-terminator set.
  - `split` on one character, `substring`, `replace` of the first match and
    decimal `parseInt` (including `parseInt(null)` → `NaN`) are modelled.
  - A JS `Map` is an insertion-ordered association list (`OrderedMap`).
- **Abstract services as parameters.** These are:
  - `localeCompare`: an order `le`, a total preorder where sortedness is
    claimed;
  - `Math.random`: an index oracle `rnd` with `rnd(i) <= i`;
  - `JSON.stringify`/`JSON.parse`: `stringify`/`parse`;
  - `Intl.DisplayNames`: `displayName`, partial, where `None` is the
    `RangeError` it throws for a code that is no language tag;
  - the subtitle regex cleaning: `clean`.
- **Client scripts as state machines.**
  - The video grid cursor (`LazyLoad.Grid`), with the observer flag and the
    loading message.
  - The sidebar batch counter (`MenuBase.Menu`), with the end flag and the
    "Cargando canales..." placeholder.
  - The collapse toggle (`Sidebar.Toggle`) and the font size
    (`FontSize.FontState`).
  - The search handler's view of the page (`Search.View`).

Modules follow the source files: `ChannelGen`, `RootGen`, `VideoGen`,
`MenuGen`, `Utils`, `LazyLoad`, `MenuBase`, `Sidebar`, `FontSize` and
`Search`. They sit on shared modules: `Common`, `Strings`, `Seqs`,
`OrderedMap`, `FileSystem` and `Descriptor`.

## Model

| member | source | states |
|---|---|---|
| ChannelGen.ParseIds | generate_channel.js:29-38 | every id read from the order file is non-empty, has no white space at either end and no newline; an unreadable file gives no ids |
| ChannelGen.ParseIdsJoin | generate_channel.js:34 | writing clean ids one per line and reading the file back gives the same ids in the same order |
| ChannelGen.ParseEmptyFile | generate_channel.js:34 | an empty order file lists no ids, so the alphabetical fallback is taken |
| ChannelGen.ResolveThumbnail | generate_channel.js:63-81 | `./<id>/<id>.jpg` when that stats as a file; metadata URL or 'placeholder.png' when the stat throws; the first '.jpg'/'.webp' of the folder (else the metadata URL) only when the path exists but is not a file |
| ChannelGen.ThumbnailEmptyIff | generate_channel.js:63-81 | the thumbnail is empty exactly when `<id>.jpg` exists as a non-file, the folder lists without any image and the metadata has no URL |
| ChannelGen.Describe | generate_channel.js:83-103 | the channel descriptor links to `./<id>/index.html`, carries the folder id, the channel title, the resolved thumbnail and the truncated description, and no full description |
| Descriptor.ShortDescription | generate_channel.js:86 | the display description is the first min(n,100) characters of the description (or 'Sin descripción.') followed by '...', length min(n,100)+3 |
| ChannelGen.CollectVideos | generate_channel.js:53-106 | the collected map has distinct keys |
| ChannelGen.CollectSpec | generate_channel.js:53-106 | a folder name is a key exactly when it passes the channel folder filter (which keeps 'stuff') and its metadata reads; its value is the descriptor built from its own folder |
| ChannelGen.PresentSpec | generate_channel.js:115-121 | the ids the override loop takes are distinct and are exactly the ids of the file that the map holds |
| ChannelGen.TakeListed | generate_channel.js:113-121 | the loop emits the held ids' videos in file order, each once, and leaves the map without the listed ids; emitted plus left is the original multiset |
| ChannelGen.MergeOrder | generate_channel.js:111-128 | with an order file the result is the listed videos in file order followed by the rest sorted by title, without one all videos sorted by title; either way a permutation of the collected videos |
| ChannelGen.MergeOrderNoneListed | generate_channel.js:113-127 | an order file naming no collected video gives the same order as no order file |
| ChannelGen.ByTitleTotal | generate_channel.js:123 | comparing descriptors by title is a total preorder when the title order is |
| ChannelGen.ChannelTitle | generate_channel.js:44-51 | the page title is the info file's non-empty `channel`, else the folder name |
| ChannelGen.ChannelDescription | generate_channel.js:48 | the description is never empty: the info file's description or 'Sin descripción.' |
| ChannelGen.IconPath | generate_channel.js:135-156 | the last `img/` entry whose lower-cased name is 'icon.png' wins; the placeholder when there is none or `img/` cannot be read |
| ChannelGen.BannerPath | generate_channel.js:135-156 | the last `img/` entry named 'banner_*.jpg' or 'banner_*.jpeg' wins; the placeholder otherwise |
| ChannelGen.IconPlaceholderIff | generate_channel.js:139-156 | the icon placeholder is used exactly when no readable entry is an icon |
| ChannelGen.BannerPlaceholderIff | generate_channel.js:139-156 | the banner placeholder is used exactly when no readable entry is a banner |
| ChannelGen.HiddenLinks | generate_channel.js:205-208 | the crawler list has one `(./<id>/index.html, title)` link per video, in page order |
| ChannelGen.GenerateChannelPage | generate_channel.js:19-232 | the page lists every collected video exactly once, each described from its own folder, in the merged order; title, description, icon, banner, page size 30 and crawler links agree with the data |
| RootGen.RootDescriptor | generate_root.js:72-89 | a home descriptor links to `./<channel>/<id>/index.html`, its thumbnail is `./<channel>/<id>/<id>.jpg`, its channel the uploader or else the folder name |
| RootGen.ChannelVideosSpec | generate_root.js:61-94 | a channel contributes exactly the descriptors of its sub-folders with metadata and both media files |
| RootGen.ChannelVideosComplete | generate_root.js:24-41 | every home-page video has an `<id>.mp4` and `<id>.jpg` that stat as files, and its link and thumbnail name that id |
| RootGen.RootVideos | generate_root.js:48-96 | the home list holds exactly the videos of the non-reserved channel folders; it is missing exactly when one of them cannot be listed |
| RootGen.UtilityFoldersIgnored | generate_root.js:51-58 | a top-level '.', '..', 'css', 'img', 'stuff' or 'js' entry, folder or not, adds nothing |
| RootGen.Shuffle | generate_root.js:100-104 | the Fisher–Yates pass with any index oracle in `[0, i]` returns a permutation of its input |
| RootGen.StripMenuModule | generate_root.js:111 | text without the export prefix and without a final ';' is left as it is |
| RootGen.StripInvertsModule | generate_root.js:111 | stripping the module text a menu builder writes gives back the JSON text it embedded |
| RootGen.SeoList | generate_root.js:106-129 | an unreadable or unparsable menu module gives no crawler section; otherwise one `(url, name)` item per menu entry, in order |
| RootGen.SeoListOfMenuModule | generate_root.js:115-117 | reading back the menu module written for a listing gives one crawler link per channel folder, in listing order, to `./<name>/index.html` |
| RootGen.GenerateIndexPage | generate_root.js:44-192 | the home page exists exactly when every channel lists, holds a permutation of the collected videos with page size 50 and the crawler section |
| MenuGen.ChainedIsSet | generate_menu.ts:43-50 | the chained `!==` test and the `IGNORED_DIRS` set test accept the same entries |
| MenuGen.ChannelDataFor | you2pub_files/generate_menu.ts:57-73 | a channel's url is `./<name>/index.html` and its icon `./<name>/img/icon.png` |
| MenuGen.BuildMenuData | you2pub_files/generate_menu.ts:52-75 | one entry per qualifying folder, in listing order, each built from its own name |
| MenuGen.BuildersAgree | generate_menu.ts:39-65 | both builders produce the same menu data from the same listing |
| MenuGen.GenerateJsModule | you2pub_files/generate_menu.ts:32-36 | the module text is the export prefix, the JSON text, then one ';' |
| MenuGen.MenuModule | you2pub_files/generate_menu.ts:42-95 | a menu module is written exactly when the root lists, and it wraps the JSON of the built menu data |
| MenuGen.MenuModuleChained | generate_menu.ts:34-81 | the top-level builder writes the same module text as the other copy |
| Utils.ReadVideoMetadata | you2pub_files/utils.js:10-28 | the metadata is that of the first '.info.json' entry in listing order; an unreadable folder, no such entry or an unreadable or unparsable file give none |
| Utils.ScriptTags | you2pub_files/utils.js:41-43 | an empty script list gives no tags |
| Utils.ScriptTagLines | you2pub_files/utils.js:41-43 | read line by line, the tags are one `<script src=… defer>` per list entry, in order, each line after the first indented by four spaces |
| Utils.HtmlWrapper | you2pub_files/utils.js:38-67 | the page carries the title in `<title>`, the stylesheet link, the body inside `div.container` right after the template's comment, and the script tags |
| Utils.WrapperKeepsBody | you2pub_files/utils.js:45-66 | the wrapper keeps the body intact: with the same title, stylesheet and scripts, two pages are equal exactly when their bodies are |
| VideoGen.LangCode | generate_video.js:87-89 | the language code holds no '.', unless it is 'desconocido' |
| VideoGen.LangCodeOfSegments | generate_video.js:87-89 | for a name built from dot-free segments, the code is the segment before the extension |
| VideoGen.SubtitleHasLangCode | generate_video.js:86-89 | a '.vtt'/'.srt' name always splits into at least two parts, so the 'desconocido' fallback never applies to one |
| VideoGen.PlainNameCodes | generate_video.js:87-89 | a subtitle without a language segment takes its base name as the code ('My Video.vtt' gives 'My Video', '.vtt' gives ''), which is no language tag |
| VideoGen.Label | generate_video.js:91-92 | the label throws exactly when `Intl.DisplayNames.of` rejects the code; otherwise it is the display name (or the code), with ' (Auto)' exactly when the name contains '.auto.' |
| VideoGen.TrackFor | generate_video.js:91-101 | a track throws exactly when its code is rejected; otherwise its source is `./<name>`, its `srclang` the language code and its label the computed label |
| VideoGen.BuildTracks | generate_video.js:79-103 | the uncaught loop throws exactly when some subtitle file's code is rejected; otherwise one track per subtitle file in listing order, and with the default switch on exactly the first is marked default |
| VideoGen.OneDefaultTrack | generate_video.js:95-99 | at most one track is default, and one is exactly when the switch is on and there is a subtitle file |
| VideoGen.Section | generate_video.js:39 | every subtitle section has '-' as its second character, so it never trims to nothing |
| VideoGen.SectionsShape | generate_video.js:21-46 | the gathered subtitle text is non-empty exactly when the first subtitle file of the listing reads |
| VideoGen.HasSubtitlesIff | generate_video.js:68-69 | the `<details>` block is shown exactly when the folder lists and its first subtitle file reads |
| VideoGen.GenerateVideoPage | generate_video.js:48-210 | no page without metadata; the script throws, writing nothing, exactly when metadata reads and some subtitle's code is rejected; otherwise the media, poster and YouTube URL come from the metadata id, the heading is fulltitle else title, and there is one track per subtitle file |
| LazyLoad.LoadMoreSpec | Videos/js/lazy-load.js:78-139 | a call throws exactly when the message element is missing; otherwise the grid stays the data's prefix, the cursor moves by at most one batch and never past the end, and the end message and the stopped observer come exactly when the end is reached |
| LazyLoad.LoadMoreExhausted | Videos/js/lazy-load.js:86-99 | a call past the end renders nothing, keeps the cursor and stops observing |
| LazyLoad.CallsPrefix | Videos/js/lazy-load.js:78-139 | after k calls the grid shows exactly the first min(kB, N) items, and the end message shows exactly once kB ≥ N |
| LazyLoad.StartGuards | Videos/js/lazy-load.js:13-32 | without the data, the container or the sentinel nothing happens; a missing message element aborts the start |
| LazyLoad.StartDrawsOneBatch | Videos/js/lazy-load.js:163-169 | exactly one batch is drawn before observing starts, and observing starts even after a final batch |
| LazyLoad.ExhaustedFirstBatch | Videos/js/lazy-load.js:163-169 | when the first batch held everything, the next intersection only stops the observer and later ones change nothing |
| LazyLoad.ScrollPrefix | Videos/js/lazy-load.js:144-169 | after the start and k intersections the grid holds exactly the first min((k+1)B, N) items, and the observer still watches exactly when k = 0 or items remain |
| MenuBase.LinkForBuilt | Videos/js/menu_base.js:51-53 | a rewritten link and icon are the prefix followed by the stored root-relative path without its './' |
| MenuBase.BatchSpec | Videos/js/menu_base.js:34-74 | one batch keeps the drawn links equal to the data's prefix and moves the counter by at most 30; only a call that draws nothing raises the end flag |
| MenuBase.BatchesPrefix | Videos/js/menu_base.js:34-74 | after k calls exactly min(30k, N) channels are drawn; the end flag is up exactly when call k found nothing left; only a `<p>` placeholder is removed, by the first drawing batch |
| MenuBase.EmptyMenuKeepsPlaceholder | Videos/js/menu_base.js:70-73 | with no channels the loading placeholder is never removed |
| MenuBase.FirstRender | Videos/js/menu_base.js:19-77 | without the container nothing changes; otherwise the first min(30, N) channels are drawn, and the end flag is up only for an empty list |
| MenuBase.RenderAfterAllLoaded | Videos/js/menu_base.js:7-9 | with the module-level end flag up, a later render draws nothing |
| MenuBase.OnScrollSpec | Videos/js/menu_base.js:85-100 | scrolling keeps the drawn links the data's prefix, and a scroll 100 pixels or more from the bottom changes nothing |
| Sidebar.ChannelItem | Videos/js/menu.js:35-42 | a channel entry links to the channel's url with tooltip 'Ver canal: <name>', its icon and its name |
| Sidebar.RenderMenu | Videos/js/menu.js:17-46 | missing or empty data gives only the notice; otherwise the home link, the separator and one entry per channel of the reordered data |
| Sidebar.RenderSorted | Videos/js/menu.js:34 | the channel entries are in ascending name order, and the sorted data is a permutation of the data |
| Sidebar.ByNameTotal | Videos/js/menu.js:34 | comparing channels by name is a total preorder when the name order is |
| Sidebar.InitCollapse | Videos/js/menu.js:52-58 | a stored 'true' collapses the sidebar under '▶'; anything else shows '◀' and leaves the class from the markup |
| Sidebar.Click | Videos/js/menu.js:60-64 | a click flips the class, stores the new state as 'true'/'false', and shows '▶' exactly when collapsed |
| Sidebar.ClickPersists | Videos/js/menu.js:52-64 | with markup that does not collapse the sidebar, a reload restores what the last click stored |
| Sidebar.ClickTwice | Videos/js/menu.js:60-64 | two clicks restore the class and, when it agreed with the class, the button text |
| Sidebar.InitMismatch | Videos/js/menu.js:52-58 | the button disagrees with the sidebar exactly when the markup collapsed it and no 'true' was stored |
| Sidebar.ExpandForgotten | Videos/js/menu.js:52-64 | on the generated pages an expanding click is forgotten: the next load is collapsed again, under '◀' |
| Sidebar.RestoreCollapse | Videos/js/menu.js:52-58 | corrected start-up: a stored value decides the state either way, the markup only when nothing is stored, and the glyph matches the state |
| Sidebar.RestorePersists | Videos/js/menu.js:52-64 | with the corrected start-up a reload restores what the last click stored, whatever the markup |
| FontSize.Clamp | Videos/js/font-size.js:23 | the size is kept in [10, 36], unchanged inside the range and pinned to the nearest bound outside it |
| FontSize.Apply | Videos/js/font-size.js:21-33 | the applied size is in range, the CSS value is the stored text plus 'px', and reading the stored text back gives the size |
| FontSize.Init | Videos/js/font-size.js:15-36 | a stored value that is not a number gives 16; a number is clamped |
| FontSize.AlwaysInRange | Videos/js/font-size.js:15-53 | after start-up and after any click the size is in [10, 36] |
| FontSize.Saturation | Videos/js/font-size.js:40-53 | increasing at the top stays at 36, decreasing at the bottom stays at 10 |
| FontSize.IncreaseDecrease | Videos/js/font-size.js:40-53 | away from the top bound, one step up and one step down return to the same size |
| FontSize.DecreaseIncrease | Videos/js/font-size.js:40-53 | away from the bottom bound, one step down and one step up return to the same size |
| FontSize.ReloadRestores | Videos/js/font-size.js:15-36 | reloading the page restores the size the last click stored |
| Search.Normalize | you2pub_files/js/search.js:20 | the normalized term is empty exactly when the query is all white space, and holds no upper-case letter |
| Search.NormalizeIdempotent | you2pub_files/js/search.js:20 | normalizing twice is normalizing once |
| Search.FilterVideosSpec | you2pub_files/js/search.js:18-41 | searching is on exactly when the query is not blank; a blank query returns all data; otherwise a video is returned exactly when it is in the data and matches, in data order |
| Search.FilterAsWrittenSpec | you2pub_files/js/search.js:31-40 | the written filter throws exactly when some video lacks a full description, and otherwise agrees with the corrected one |
| Search.GeneratedDataThrows | you2pub_files/js/search.js:34 | over descriptors as both generators write them, any non-blank query throws |
| Search.CorrectedAgreesWhenComplete | you2pub_files/js/search.js:31-40 | when every video has a full description, the written and corrected filters agree |
| Search.OnInput | you2pub_files/js/search.js:46-89 | after an input the grid is cleared, searching is on exactly for a non-blank query, and the sentinel is shown exactly when not searching or results exceed a page |
| Search.InputEmptiesGrid | you2pub_files/js/search.js:60-74 | with the grid script's hooks absent, an input empties the grid and nothing redraws it |
| Search.InputAsWrittenStalls | you2pub_files/js/search.js:46-61 | as written, a query over generated data leaves the count message, the results and the grid untouched |
| Strings.Trim | generate_channel.js:34 | `trim` gives the infix of the text between white-space runs at both ends, with no white space at either end of the result |
| Strings.TrimEmptyIff | generate_video.js:69 | a text trims to empty exactly when it is all white space |
| Strings.JoinSplit | generate_channel.js:34 | joining the parts of a split with the separator gives back the text |
| Strings.SplitJoin | generate_video.js:87 | splitting separator-free parts joined by the separator gives back the parts |
| Strings.ParseInt | Videos/js/font-size.js:15 | `parseInt` is `NaN` exactly when, after leading white space and one sign, no digit follows; a missing stored value reads as 'null' |
| Strings.ParseIntOfNatToString | Videos/js/font-size.js:15-32 | parsing the decimal text of a natural number gives the number |
| Strings.ReplaceFirst | generate_root.js:111 | only the first occurrence is replaced, and text without the pattern is unchanged |
| Strings.DropFinalSemicolon | generate_root.js:111 | `replace(/;$/, '')` removes exactly one final ';' and nothing else |
| Strings.ToLower | generate_channel.js:144 | lower-casing keeps the length, leaves no upper-case letter and changes no other character |
| Seqs.Filter | you2pub_files/js/search.js:31-40 | `filter` keeps exactly the elements that pass, in order, each as often as in the input |
| Seqs.SortBySorted | generate_channel.js:127 | under a total preorder the sort's result is sorted |
| Seqs.SortBy | generate_channel.js:127 | the sort returns a permutation of its input |
| Seqs.FirstWhere | generate_channel.js:72-77 | the first index whose element passes, or none when none does |
| Seqs.LastWhere | generate_channel.js:140-153 | the last index whose element passes, or none when none does |
| OrderedMap.Put | generate_channel.js:94-103 | `Map.set` binds the key, keeps every other binding, and appends a new key or keeps an old key's place |
| OrderedMap.Delete | generate_channel.js:119 | `Map.delete` unbinds the key and keeps every other binding |

## Left out

- you2pub_files/generate_css.js is not modelled. It writes one constant stylesheet.
- servidor_test.py is not modelled. It is an HTTP server and browser launcher, pure I/O.
- you2pub_files/js/video-page.js and Videos/js/theme-toggle.js are not modelled. They are DOM and media glue around floating-point times and one boolean.
- you2pub_files/js/menu_channel.js and menu_root.js only call `renderMenu` with a fixed prefix ('../' or './'). The prefix is a parameter of `MenuBase.RenderMenu`.
- menu_base.js's own toggle listener (lines 104-113) is not modelled. It is a bare class flip with no state kept.
- Deno file-system calls, `Deno.exit`, `Deno.mkdir`, console logging and the writing of the output files are not modelled. Listings and file contents are inputs, and the pages are result values.
- Date construction and `toLocaleDateString('es-ES')` are not modelled. The display date keeps the raw `upload_date` (`Descriptor.DisplayDate`), and 'N/A' is `NotAvailable`.
- The HTML markup beyond the fields each page datatype carries is not modelled. This covers the card markup of `createVideoElement`, the transient "Cargando..." message of `loadMoreVideos` and the layout of the crawler sections.
- `IntersectionObserver` geometry is not modelled. An intersection is an event. Scroll geometry is the threshold predicate of `MenuBase.OnScroll`.
- Menu.js's missing elements are not modelled. Its comment says the checks are omitted, and a missing `#sidebar-content` or `#toggleSidebar` throws in the browser. The model assumes the elements the generated pages always contain.
- search.js is loaded by no generated page and needs a `#searchInput` that no page has. It is modelled as the component it is meant to be, with the hooks `resetLazyLoad` and `loadNextVideos` optional (`Search.Hooks`). Lazy-load.js defines neither.
- A descriptor whose `title` or `channel` is missing would make `toLowerCase` throw in search.js. The model reads missing fields as `""`, so that case is not modelled.
- RootGen.Shuffle: proves the permutation property only; the uniformity of `Math.random` is not a property of the code.
- Strings.ToLower: ASCII letters only. Full Unicode case mapping is not modelled.
- Strings.ParseInt: decimal only. `parseInt`'s '0x' hexadecimal prefix is not modelled; no stored font size is written in hexadecimal.
- Seqs.SortBy: the order is a parameter. The claim is sortedness under any total preorder and a permutation; equality with the engine's `localeCompare` sort is not claimed.
- Descriptor.ShortDescription: counts characters, whereas JavaScript's `substring` counts UTF-16 code units, which differ for characters outside the Basic Multilingual Plane.
- Utils.HtmlWrapper: the claims are about the pieces the page contains, and that the body is kept intact (`Utils.WrapperKeepsBody`); the text is modelled whole, both HTML comments included.
- VideoGen.GenerateVideoPage: the track list is stated by count here; its contents are stated by `VideoGen.BuildTracks`. The uploader, date and download links of the page are not part of the datatype. A missing metadata field reads as `""`, while the template text turns it into 'undefined': a missing `id` gives 'undefined.mp4', './undefined.jpg' and a '…watch?v=undefined' link (generate_video.js:61-65), where the model gives '.mp4', './.jpg' and an empty video id.
- ChannelGen.MergeOrder: a video whose metadata has no `title` is read with the title `""` and sorted by `le`. The comparator `a.title.localeCompare(b.title)` (generate_channel.js:123, 127) throws a `TypeError` whenever the engine passes that video as `a`, and then no channel page is written; when the engine only ever passes it as `b`, it compares as the text 'undefined'. Which of the two happens depends on the engine's sort algorithm, so neither is modelled.
- ChannelGen.GenerateChannelPage: claims a page whenever the channel folder lists, including the case above where an untitled video among the unlisted ones can make the source's sort throw and write no page.
- Four behaviours of the code that the model follows as written:
  - The thumbnail scan for the first '.jpg'/'.webp' runs only when `<id>.jpg` exists but is not a file, because `statSync` throws on a missing file.
  - The channel page does not exclude a 'stuff' folder.
  - The sidebar's end flag is raised by the call after the last batch, not by the batch itself.
  - The metadata reader takes the first '.info.json' of the listing rather than requiring exactly one.

## Findings

| source | as written | input that shows it | evidently intended | confidence | as-written member | corrected member |
|---|---|---|---|---|---|---|
| you2pub_files/js/search.js:34 | every video's `fullDescription.toLowerCase()` is read | any non-blank query over the descriptors either generator writes, which carry no `fullDescription`: the filter throws a `TypeError`, and the handler stops with only `isSearching` set | a video without a full description is matched on its title and channel only | not executed | Search.GeneratedDataThrows | Search.FilterVideosSpec |
| Videos/js/menu.js:52-58 | a stored value other than 'true' only sets the '◀' glyph, and every generated page's markup already has the sidebar collapsed | collapse state 'true', click to expand (stores 'false'), reload: the sidebar is collapsed again while the button shows '◀' | the stored state is restored either way, and the glyph matches the state | not executed | Sidebar.ExpandForgotten | Sidebar.RestorePersists |
