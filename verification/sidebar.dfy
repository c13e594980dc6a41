/** Videos/js/menu.js: the whole-list sidebar, sorted by channel name, with
    a collapse toggle remembered in local storage. */
module Sidebar {
  import opened Common
  import opened Seqs
  import opened MenuGen

  const NoChannels := "No hay canales disponibles."
  const StorageKey := "sidebarCollapsed"
  const CollapsedGlyph := "▶"
  const ExpandedGlyph := "◀"

  /** The entries `renderMenu(data)` writes into the container. */
  datatype Item =
    | Notice(text: string)                                     // the lone empty-list line
    | HomeLink(href: string)                                   // "🏠 Inicio / Todos los Videos"
    | Separator                                                // the `<hr>`
    | ChannelLink(href: string, tooltip: string, icon: string, name: string)

  /** The `<li>` of one channel. */
  function ChannelItem(c: ChannelData): (r: Item)
    ensures r.ChannelLink? && r.name == c.name && r.href == c.url && r.icon == c.icon
    ensures r.tooltip == "Ver canal: " + c.name
  {
    ChannelLink(c.url, "Ver canal: " + c.name, c.icon, c.name)
  }

  /** `(a, b) => a.name.localeCompare(b.name) <= 0` for a name order
      `nameLe`. */
  function ByName(nameLe: (string, string) -> bool): (le: (ChannelData, ChannelData) -> bool)
    ensures forall a, b :: le(a, b) == nameLe(a.name, b.name)
  {
    (a: ChannelData, b: ChannelData) => nameLe(a.name, b.name)
  }

  lemma ByNameTotal(nameLe: (string, string) -> bool)
    requires TotalPreorder(nameLe)
    ensures TotalPreorder(ByName(nameLe))
  {
    var le := ByName(nameLe);
    forall a: ChannelData, b: ChannelData, c: ChannelData | le(a, b) && le(b, c) ensures le(a, c) {
      assert nameLe(a.name, b.name) && nameLe(b.name, c.name);
    }
  }

  /** The container's content, and `data` after the in-place sort. */
  datatype Rendered = Rendered(items: seq<Item>, data: Option<seq<ChannelData>>)

  /** `renderMenu(data)`: missing or empty data gives the lone notice;
      otherwise the home link, the separator and one entry per channel in
      name order. The content is replaced, never appended to, and the sort
      reorders the imported array itself. */
  function RenderMenu(data: Option<seq<ChannelData>>, nameLe: (string, string) -> bool): (r: Rendered)
    ensures data.None? || |data.value| == 0 ==> r.items == [Notice(NoChannels)] && r.data == data
    ensures data.Some? && |data.value| > 0 ==>
      && |r.items| == |data.value| + 2
      && r.items[0] == HomeLink("./") && r.items[1] == Separator
      && r.data.Some? && |r.data.value| == |data.value|
      && multiset(r.data.value) == multiset(data.value)
      && forall i :: 0 <= i < |data.value| ==> r.items[i + 2] == ChannelItem(r.data.value[i])
  {
    if data.None? || |data.value| == 0 then Rendered([Notice(NoChannels)], data)
    else
      var sorted := SortBy(data.value, ByName(nameLe));
      Rendered([HomeLink("./"), Separator] + seq(|sorted|, i requires 0 <= i < |sorted| => ChannelItem(sorted[i])),
               Some(sorted))
  }

  /** With a name order that is total and transitive, the channel entries
      appear in ascending name order, and each channel of the data appears
      exactly as often as in the data. */
  lemma RenderSorted(data: seq<ChannelData>, nameLe: (string, string) -> bool)
    requires |data| > 0 && TotalPreorder(nameLe)
    ensures var r := RenderMenu(Some(data), nameLe);
      forall i, j :: 2 <= i < j < |r.items| ==> nameLe(r.items[i].name, r.items[j].name)
    ensures var r := RenderMenu(Some(data), nameLe);
      forall c :: multiset(r.data.value)[c] == multiset(data)[c]
  {
    ByNameTotal(nameLe);
    SortBySorted(data, ByName(nameLe));
    var r := RenderMenu(Some(data), nameLe);
    assert r.data.value == SortBy(data, ByName(nameLe));
    SortedItems(r.items, r.data.value, nameLe);
  }

  /** Entries drawn from a list sorted by name are in name order. */
  lemma SortedItems(items: seq<Item>, sorted: seq<ChannelData>, nameLe: (string, string) -> bool)
    requires |items| == |sorted| + 2
    requires forall i :: 0 <= i < |sorted| ==> items[i + 2] == ChannelItem(sorted[i])
    requires SortedBy(sorted, ByName(nameLe))
    ensures forall i :: 2 <= i < |items| ==> items[i].ChannelLink?
    ensures forall i, j :: 2 <= i < j < |items| ==> nameLe(items[i].name, items[j].name)
  {
    forall i | 2 <= i < |items| ensures items[i].ChannelLink? {
      assert items[i] == ChannelItem(sorted[i - 2]);
    }
    forall i, j | 2 <= i < j < |items| ensures nameLe(items[i].name, items[j].name) {
      assert items[i] == ChannelItem(sorted[i - 2]) && items[j] == ChannelItem(sorted[j - 2]);
      assert ByName(nameLe)(sorted[i - 2], sorted[j - 2]);
    }
  }

  // ---------------------------------------------------------------------
  // Collapse toggle
  // ---------------------------------------------------------------------

  /** The sidebar's `collapsed` class, the toggle button's text and the
      stored `sidebarCollapsed` value. */
  datatype Toggle = Toggle(collapsed: bool, button: string, stored: Option<string>)

  /** Lines 52-58: a stored 'true' collapses the sidebar; anything else
      shows the expand glyph but leaves the class as the page had it. */
  function InitCollapse(stored: Option<string>, classAtLoad: bool): (t: Toggle)
    ensures stored == Some("true") ==> t.collapsed && t.button == CollapsedGlyph
    ensures stored != Some("true") ==> t.collapsed == classAtLoad && t.button == ExpandedGlyph
    ensures t.stored == stored
  {
    if stored == Some("true") then Toggle(true, CollapsedGlyph, stored)
    else Toggle(classAtLoad, ExpandedGlyph, stored)
  }

  /** The toggle's click: the class flips, its new value is stored as
      'true' or 'false' (the boolean turned to text), and the button shows
      the collapsed glyph exactly when collapsed. */
  function Click(t: Toggle): (r: Toggle)
    ensures r.collapsed == !t.collapsed
    ensures r.button == CollapsedGlyph <==> r.collapsed
    ensures r.stored == Some(if r.collapsed then "true" else "false")
  {
    var c := !t.collapsed;
    Toggle(c, if c then CollapsedGlyph else ExpandedGlyph, Some(if c then "true" else "false"))
  }

  /** What a click stores is what the next page load restores, when the
      page's markup does not collapse the sidebar itself. */
  lemma ClickPersists(t: Toggle)
    ensures InitCollapse(Click(t).stored, false) == Click(t)
  {
  }

  /** Two clicks give back the class and, when the button agreed with the
      class, the button text. */
  lemma ClickTwice(t: Toggle)
    requires t.button == (if t.collapsed then CollapsedGlyph else ExpandedGlyph)
    ensures Click(Click(t)).collapsed == t.collapsed
    ensures Click(Click(t)).button == t.button
  {
  }

  /** The one state in which the button disagrees with the sidebar: the
      page's markup collapsed it and nothing 'true' was stored. */
  lemma InitMismatch(stored: Option<string>, classAtLoad: bool)
    ensures var t := InitCollapse(stored, classAtLoad);
      (t.collapsed <==> t.button == CollapsedGlyph) <==> (stored == Some("true") || !classAtLoad)
  {
  }

  /** Every generated page marks the sidebar `collapsed` in its markup, so
      an expanding click is stored as 'false' and then forgotten: the next
      load shows the sidebar collapsed again, under the expand glyph. */
  lemma ExpandForgotten(t: Toggle)
    requires t.collapsed
    ensures !Click(t).collapsed
    ensures InitCollapse(Click(t).stored, true).collapsed
    ensures InitCollapse(Click(t).stored, true).button == ExpandedGlyph
  {
  }

  /** The evidently intended start-up: a stored value decides the state
      either way, the markup only when nothing is stored, and the button
      always shows the glyph of the state. */
  function RestoreCollapse(stored: Option<string>, classAtLoad: bool): (t: Toggle)
    ensures stored.Some? ==> (t.collapsed <==> stored == Some("true"))
    ensures stored.None? ==> t.collapsed == classAtLoad
    ensures t.button == CollapsedGlyph <==> t.collapsed
    ensures t.stored == stored
  {
    var c := if stored.Some? then stored == Some("true") else classAtLoad;
    Toggle(c, if c then CollapsedGlyph else ExpandedGlyph, stored)
  }

  /** With the intended start-up, what a click stores is what the next
      load shows, whatever the markup says. */
  lemma RestorePersists(t: Toggle, classAtLoad: bool)
    ensures RestoreCollapse(Click(t).stored, classAtLoad) == Click(t)
  {
  }
}
