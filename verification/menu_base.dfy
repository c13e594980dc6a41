/** Videos/js/menu_base.js: the channel sidebar drawn in batches of thirty
    as the reader scrolls it, with links rewritten for the page's depth. */
module MenuBase {
  import opened Common
  import opened Strings
  import opened MenuGen

  const ChannelsPerLoad := 30
  const ScrollThreshold := 100

  /** One drawn `<li>`: the rewritten page link and icon, and the name. */
  datatype MenuLink = MenuLink(href: string, icon: string, name: string)

  /** The static "Cargando canales..." element the generated page puts in
      the container: a `<p>` on the home page, an `<li>` elsewhere. */
  datatype Placeholder = NoPlaceholder | Paragraph | ListItem

  /** The two module-level counters (`channelsLoadedCount`,
      `isAllChannelsLoaded`) with the container they feed. */
  datatype Menu = Menu(count: nat, allLoaded: bool, placeholder: Placeholder, links: seq<MenuLink>)

  /** `prefix + path.substring(2)`: a root-relative `./x` path seen from a
      page `prefix` levels down. */
  function Rebase(prefix: string, path: string): string {
    prefix + Drop(path, 2)
  }

  function LinkFor(prefix: string, c: ChannelData): MenuLink {
    MenuLink(Rebase(prefix, c.url), Rebase(prefix, c.icon), c.name)
  }

  function Links(prefix: string, cs: seq<ChannelData>): (r: seq<MenuLink>)
    ensures |r| == |cs|
  {
    seq(|cs|, i requires 0 <= i < |cs| => LinkFor(prefix, cs[i]))
  }

  /** For the entries the menu builder writes, the rewritten link leads to
      the channel page and its icon from the page's depth. */
  lemma LinkForBuilt(prefix: string, name: string)
    ensures LinkFor(prefix, ChannelDataFor(name))
      == MenuLink(prefix + name + "/index.html", prefix + name + "/img/icon.png", name)
  {
  }

  /** The container shows the first `count` channels, each once, in data
      order; the end flag is only raised once all are shown, and the
      paragraph placeholder is gone once anything is shown. */
  predicate Consistent(data: seq<ChannelData>, prefix: string, m: Menu) {
    && m.count <= |data|
    && m.links == Links(prefix, data[..m.count])
    && (m.allLoaded ==> m.count == |data|)
    && (m.count > 0 ==> m.placeholder != Paragraph)
  }

  /** `loadNextBatch()`. */
  function LoadNextBatch(data: seq<ChannelData>, prefix: string, m: Menu): Menu {
    if m.allLoaded then m
    else
      var start := m.count;
      var end := Min(|data|, start + ChannelsPerLoad);
      if start >= end then m.(allLoaded := true)
      else
        Menu(end, false,
             if start == 0 && m.placeholder == Paragraph then NoPlaceholder else m.placeholder,
             m.links + Links(prefix, data[start..end]))
  }

  /** One batch keeps the container consistent and moves the counter by at
      most thirty; the end flag is raised only by a call that draws
      nothing, and a call that draws leaves it down. */
  lemma BatchSpec(data: seq<ChannelData>, prefix: string, m: Menu)
    requires Consistent(data, prefix, m)
    ensures var r := LoadNextBatch(data, prefix, m);
      && Consistent(data, prefix, r)
      && m.count <= r.count <= m.count + ChannelsPerLoad
      && (!m.allLoaded && r.allLoaded ==> r.links == m.links && m.count == |data|)
      && (r.count > m.count ==> !r.allLoaded)
      && (m.placeholder == ListItem ==> r.placeholder == ListItem)
  {
    var start := m.count;
    var end := Min(|data|, start + ChannelsPerLoad);
    if !m.allLoaded && start < end {
      assert data[..end] == data[..start] + data[start..end];
      assert Links(prefix, data[..end]) == Links(prefix, data[..start]) + Links(prefix, data[start..end]);
    }
  }

  function Batches(data: seq<ChannelData>, prefix: string, m: Menu, k: nat): Menu
    decreases k
  {
    if k == 0 then m else LoadNextBatch(data, prefix, Batches(data, prefix, m, k - 1))
  }

  /** From the page's fresh state, `k` batches show exactly the first
      `min(30k, N)` channels; the end flag is up exactly when the `k`-th
      call found nothing left; the paragraph placeholder is removed by the
      first batch that draws, and any other placeholder stays. */
  lemma {:induction false} BatchesPrefix(data: seq<ChannelData>, prefix: string, ph: Placeholder, k: nat)
    ensures var r := Batches(data, prefix, Menu(0, false, ph, []), k);
      && Consistent(data, prefix, r)
      && r.count == Min(k * ChannelsPerLoad, |data|)
      && (r.allLoaded <==> k > 0 && (k - 1) * ChannelsPerLoad >= |data|)
      && r.placeholder == (if ph == Paragraph && r.count > 0 then NoPlaceholder else ph)
    decreases k
  {
    var m0 := Menu(0, false, ph, []);
    if k > 0 {
      BatchesPrefix(data, prefix, ph, k - 1);
      var h := Batches(data, prefix, m0, k - 1);
      BatchSpec(data, prefix, h);
      assert (k - 1) * ChannelsPerLoad + ChannelsPerLoad == k * ChannelsPerLoad;
      if h.count < |data| {
        assert h.count == (k - 1) * ChannelsPerLoad;
      }
    } else {
      assert data[..0] == [];
    }
  }

  /** With no channels the "Cargando canales..." placeholder is never
      removed, whatever its kind. */
  lemma EmptyMenuKeepsPlaceholder(prefix: string, ph: Placeholder, k: nat)
    ensures Batches([], prefix, Menu(0, false, ph, []), k).placeholder == ph
    ensures Batches([], prefix, Menu(0, false, ph, []), k).links == []
  {
    BatchesPrefix([], prefix, ph, k);
  }

  /** `renderMenu(prefix)`: without the container nothing happens;
      otherwise the first batch is drawn. The counters live at module level,
      so a second call continues where the first stopped. */
  function RenderMenu(data: seq<ChannelData>, prefix: string, hasContainer: bool, m: Menu): Menu {
    if hasContainer then LoadNextBatch(data, prefix, m) else m
  }

  /** The page's call from the fresh state: without the container the menu
      stays as it was; otherwise exactly the first thirty channels (or all of
      them) are drawn, and the end flag is up only for an empty list. */
  lemma FirstRender(data: seq<ChannelData>, prefix: string, hasContainer: bool, ph: Placeholder)
    ensures var m0 := Menu(0, false, ph, []);
      !hasContainer ==> RenderMenu(data, prefix, hasContainer, m0) == m0
    ensures var r := RenderMenu(data, prefix, hasContainer, Menu(0, false, ph, []));
      hasContainer ==>
        && r.count == Min(ChannelsPerLoad, |data|)
        && r.links == Links(prefix, data[..Min(ChannelsPerLoad, |data|)])
        && (r.allLoaded <==> |data| == 0)
  {
    BatchesPrefix(data, prefix, ph, 1);
    assert Batches(data, prefix, Menu(0, false, ph, []), 1)
      == LoadNextBatch(data, prefix, Menu(0, false, ph, []));
  }

  /** A render after everything was loaded draws nothing. */
  lemma RenderAfterAllLoaded(data: seq<ChannelData>, prefix: string, hasContainer: bool, m: Menu)
    requires m.allLoaded
    ensures RenderMenu(data, prefix, hasContainer, m) == m
  {
  }

  /** The sidebar's scroll listener: a batch is drawn only while the end
      flag is down and the remaining scroll distance is under 100 pixels. */
  function OnScroll(data: seq<ChannelData>, prefix: string, m: Menu,
                    scrollHeight: int, clientHeight: int, scrollTop: int): Menu
  {
    if m.allLoaded then m
    else if (scrollHeight - clientHeight) - scrollTop < ScrollThreshold then LoadNextBatch(data, prefix, m)
    else m
  }

  /** Scrolling keeps the container consistent, and a scroll far from the
      bottom changes nothing. */
  lemma OnScrollSpec(data: seq<ChannelData>, prefix: string, m: Menu,
                     scrollHeight: int, clientHeight: int, scrollTop: int)
    requires Consistent(data, prefix, m)
    ensures Consistent(data, prefix, OnScroll(data, prefix, m, scrollHeight, clientHeight, scrollTop))
    ensures scrollHeight - clientHeight - scrollTop >= ScrollThreshold
      ==> OnScroll(data, prefix, m, scrollHeight, clientHeight, scrollTop) == m
  {
    BatchSpec(data, prefix, m);
  }
}
