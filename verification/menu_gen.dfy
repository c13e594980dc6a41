/** Both menu-data builders (generate_menu.ts at the top level and the copy
    in you2pub_files/): the list of channel folders with their page and
    icon paths, written out as a JavaScript module. */
module MenuGen {
  import opened Common
  import opened Strings
  import opened FileSystem

  /** `IGNORED_DIRS`: the utility folders that are never channels. */
  const IgnoredDirs: set<string> := {".", "..", "css", "img", "stuff", "js"}

  const ModulePrefix := "export const menuData = "

  /** One entry of the menu data. */
  datatype ChannelData = ChannelData(name: string, url: string, icon: string)

  /** The set-based test of you2pub_files/generate_menu.ts. */
  predicate IsChannelDir(e: Entry) {
    e.isDir && e.name !in IgnoredDirs
  }

  /** The chained `!==` test of generate_menu.ts (and of generate_root.js). */
  predicate IsChannelDirChained(e: Entry) {
    && e.isDir
    && e.name != "." && e.name != ".." && e.name != "css"
    && e.name != "img" && e.name != "stuff" && e.name != "js"
  }

  /** The two spellings of the folder test agree on every entry. */
  lemma ChainedIsSet(e: Entry)
    ensures IsChannelDirChained(e) <==> IsChannelDir(e)
  {
  }

  /** The entry for channel folder `name`: its page and its icon, both
      relative to the root. */
  function ChannelDataFor(name: string): (c: ChannelData)
    ensures c.name == name
    ensures StartsWith(c.url, "./") && Drop(c.url, 2) == name + "/index.html"
    ensures StartsWith(c.icon, "./") && Drop(c.icon, 2) == name + "/img/icon.png"
  {
    var c := ChannelData(name, "./" + name + "/index.html", "./" + name + "/img/icon.png");
    assert c.url == "./" + (name + "/index.html");
    assert c.icon == "./" + (name + "/img/icon.png");
    c
  }

  function DataNames(cs: seq<ChannelData>): (ns: seq<string>)
    ensures |ns| == |cs|
    ensures forall i :: 0 <= i < |cs| ==> ns[i] == cs[i].name
  {
    seq(|cs|, i requires 0 <= i < |cs| => cs[i].name)
  }

  /** The collection loop under the folder test `isChannel`: one entry per
      listed channel folder, in listing order. */
  function BuildMenuData(es: seq<Entry>, isChannel: Entry -> bool): (cs: seq<ChannelData>)
    ensures forall i :: 0 <= i < |cs| ==> cs[i] == ChannelDataFor(cs[i].name)
    ensures DataNames(cs) == NamesWhere(es, isChannel)
    decreases |es|
  {
    if |es| == 0 then []
    else
      var rest := BuildMenuData(es[..|es| - 1], isChannel);
      var e := es[|es| - 1];
      if isChannel(e) then
        assert DataNames(rest + [ChannelDataFor(e.name)]) == DataNames(rest) + [e.name];
        rest + [ChannelDataFor(e.name)]
      else rest
  }

  /** Folder tests that agree on every entry build the same menu data. */
  lemma {:induction false} BuildMenuDataAgree(es: seq<Entry>, p: Entry -> bool, q: Entry -> bool)
    requires forall e :: p(e) == q(e)
    ensures BuildMenuData(es, p) == BuildMenuData(es, q)
    decreases |es|
  {
    if |es| > 0 {
      BuildMenuDataAgree(es[..|es| - 1], p, q);
    }
  }

  /** The two builders produce the same menu data from the same listing. */
  lemma BuildersAgree(es: seq<Entry>)
    ensures BuildMenuData(es, IsChannelDirChained) == BuildMenuData(es, IsChannelDir)
  {
    BuildMenuDataAgree(es, IsChannelDirChained, IsChannelDir);
  }

  /** `generateJsModule`: the JSON text behind the export prefix, closed by
      one ';'. */
  function GenerateJsModule(json: string): (r: string)
    ensures StartsWith(r, ModulePrefix) && EndsWith(r, ";")
    ensures |r| == |ModulePrefix| + |json| + 1
    ensures r[|ModulePrefix|..|r| - 1] == json
  {
    ModulePrefix + json + ";"
  }

  /** `generateMenuFiles(rootDir)` of you2pub_files/generate_menu.ts: the
      text written to `js/menu_data.js`, or `None` when the root cannot be
      listed (the script exits with status 1). `stringify` stands for
      `JSON.stringify(channels, null, 4)`. */
  function MenuModule(listing: Option<seq<Entry>>, stringify: seq<ChannelData> -> string): (r: Option<string>)
    ensures r.None? <==> listing.None?
    ensures listing.Some? ==>
      r.value == GenerateJsModule(stringify(BuildMenuData(listing.value, IsChannelDir)))
  {
    match listing
    case None => None
    case Some(es) => Some(GenerateJsModule(stringify(BuildMenuData(es, IsChannelDir))))
  }

  /** `generateMenuFiles(rootDir)` of the top-level generate_menu.ts. */
  function MenuModuleChained(listing: Option<seq<Entry>>, stringify: seq<ChannelData> -> string): (r: Option<string>)
    ensures r == MenuModule(listing, stringify)
  {
    match listing
    case None => None
    case Some(es) =>
      BuildersAgree(es);
      Some(GenerateJsModule(stringify(BuildMenuData(es, IsChannelDirChained))))
  }
}
