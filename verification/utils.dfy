/** you2pub_files/utils.js: reading a video's metadata sidecar with lenient
    failure, and the HTML page wrapper with its script-tag list. */
module Utils {
  import opened Common
  import opened Strings
  import opened Seqs
  import opened FileSystem

  predicate IsInfoJson(e: Entry) {
    EndsWith(e.name, ".info.json")
  }

  /** `es[i]` is the first entry, in iteration order, whose name ends in
      '.info.json'. */
  ghost predicate IsFirstInfoJson(es: seq<Entry>, i: int) {
    && 0 <= i < |es|
    && IsInfoJson(es[i])
    && forall j :: 0 <= j < i ==> !IsInfoJson(es[j])
  }

  /** `readVideoMetadata(videoPath)`: the parsed content of the first
      '.info.json' entry of the folder; every failure on the way (folder
      unreadable, no such entry, file unreadable, not JSON) gives `None`
      instead of throwing. */
  function ReadVideoMetadata(d: VideoDir): (r: Option<Metadata>)
    ensures d.listing.None? ==> r.None?
    ensures d.listing.Some? && (forall j :: 0 <= j < |d.listing.value| ==> !IsInfoJson(d.listing.value[j]))
      ==> r.None?
    ensures d.listing.Some? ==> forall i :: IsFirstInfoJson(d.listing.value, i) ==>
      && (r.Some? <==> d.listing.value[i].name in d.parsed)
      && (r.Some? ==> r.value == d.parsed[d.listing.value[i].name])
  {
    match d.listing
    case None => None
    case Some(es) =>
      match FirstWhere(es, IsInfoJson)
      case None => None
      case Some(i) =>
        assert forall k :: IsFirstInfoJson(es, k) ==> k == i;
        if es[i].name in d.parsed then Some(d.parsed[es[i].name]) else None
  }

  function ScriptTag(path: string): string {
    "<script src=\"" + path + "\" defer></script>"
  }

  /** `scriptList.map(...)`: one tag per path. */
  function Tags(scripts: seq<string>): (r: seq<string>)
    ensures |r| == |scripts|
    decreases |scripts|
  {
    if |scripts| == 0 then [] else [ScriptTag(scripts[0])] + Tags(scripts[1..])
  }

  /** `scriptList.map(...).join('\n    ')`. */
  function ScriptTags(scripts: seq<string>): (r: string)
    ensures |scripts| == 0 ==> r == ""
  {
    Join(Tags(scripts), "\n    ")
  }

  /** Each line prefixed with `indent`. */
  function Indent(lines: seq<string>, indent: string): (r: seq<string>)
    ensures |r| == |lines|
    decreases |lines|
  {
    if |lines| == 0 then [] else [indent + lines[0]] + Indent(lines[1..], indent)
  }

  lemma {:induction false} JoinIndented(parts: seq<string>, indent: string)
    requires |parts| >= 1
    ensures indent + Join(parts, "\n" + indent) == Join(Indent(parts, indent), "\n")
    decreases |parts|
  {
    if |parts| > 1 {
      JoinIndented(parts[1..], indent);
      var ind := Indent(parts, indent);
      assert ind[1..] == Indent(parts[1..], indent);
      calc {
        indent + Join(parts, "\n" + indent);
        indent + (parts[0] + ("\n" + indent) + Join(parts[1..], "\n" + indent));
        (indent + parts[0]) + "\n" + (indent + Join(parts[1..], "\n" + indent));
        (indent + parts[0]) + "\n" + Join(Indent(parts[1..], indent), "\n");
        Join(ind, "\n");
      }
    }
  }

  /** Joining with a newline and an indent is joining with a newline the
      first part and the indented rest. */
  lemma JoinIndentedTail(parts: seq<string>, indent: string)
    requires |parts| >= 1
    ensures Join(parts, "\n" + indent) == Join([parts[0]] + Indent(parts[1..], indent), "\n")
  {
    var lines := [parts[0]] + Indent(parts[1..], indent);
    if |parts| > 1 {
      JoinIndented(parts[1..], indent);
      assert lines[1..] == Indent(parts[1..], indent);
      calc {
        Join(parts, "\n" + indent);
        parts[0] + ("\n" + indent) + Join(parts[1..], "\n" + indent);
        parts[0] + "\n" + (indent + Join(parts[1..], "\n" + indent));
        parts[0] + "\n" + Join(Indent(parts[1..], indent), "\n");
        Join(lines, "\n");
      }
    } else {
      assert lines == [parts[0]];
    }
  }

  lemma ScriptTagHasNoNewline(path: string)
    requires '\n' !in path
    ensures '\n' !in ScriptTag(path)
  {
    var a := "<script src=\"";
    var b := "\" defer></script>";
    assert forall k :: 0 <= k < |a| ==> a[k] != '\n';
    assert forall k :: 0 <= k < |b| ==> b[k] != '\n';
    assert ScriptTag(path) == a + path + b;
  }

  lemma {:induction false} TagsHaveNoNewline(scripts: seq<string>)
    requires forall i :: 0 <= i < |scripts| ==> '\n' !in scripts[i]
    ensures forall i :: 0 <= i < |scripts| ==> '\n' !in Tags(scripts)[i]
    decreases |scripts|
  {
    if |scripts| > 0 {
      ScriptTagHasNoNewline(scripts[0]);
      TagsHaveNoNewline(scripts[1..]);
      assert Tags(scripts)[1..] == Tags(scripts[1..]);
    }
  }

  lemma {:induction false} IndentHasNoNewline(lines: seq<string>, indent: string)
    requires '\n' !in indent
    requires forall i :: 0 <= i < |lines| ==> '\n' !in lines[i]
    ensures forall i :: 0 <= i < |lines| ==> '\n' !in Indent(lines, indent)[i]
    decreases |lines|
  {
    if |lines| > 0 {
      IndentHasNoNewline(lines[1..], indent);
      assert Indent(lines, indent)[1..] == Indent(lines[1..], indent);
    }
  }

  /** Read line by line, the script tags are one `<script src=... defer>`
      per entry of the list, in order, every line after the first indented
      by four spaces. */
  lemma ScriptTagLines(scripts: seq<string>)
    requires |scripts| >= 1
    requires forall i :: 0 <= i < |scripts| ==> '\n' !in scripts[i]
    ensures Split(ScriptTags(scripts), '\n')
      == [ScriptTag(scripts[0])] + Indent(Tags(scripts[1..]), "    ")
  {
    var tags := Tags(scripts);
    assert tags[1..] == Tags(scripts[1..]);
    var lines := [tags[0]] + Indent(tags[1..], "    ");
    JoinIndentedTail(tags, "    ");
    assert "\n" + "    " == "\n    ";
    TagsHaveNoNewline(scripts);
    IndentHasNoNewline(tags[1..], "    ");
    assert forall i :: 0 <= i < |lines| ==> '\n' !in lines[i] by {
      forall i | 0 <= i < |lines| ensures '\n' !in lines[i] {
        if i > 0 {
          assert lines[i] == Indent(tags[1..], "    ")[i - 1];
        }
      }
    }
    SplitJoin(lines, '\n');
  }

  /** Each of four pieces is included in a text that interleaves them with
      five fixed fillers. */
  lemma ContainsPieces(f0: string, a: string, f1: string, b: string, f2: string,
                       c: string, f3: string, d: string, f4: string)
    ensures var r := f0 + a + f1 + b + f2 + c + f3 + d + f4;
      Contains(r, a) && Contains(r, b) && Contains(r, c) && Contains(r, d)
  {
    var r := f0 + a + f1 + b + f2 + c + f3 + d + f4;
    assert r == f0 + a + (f1 + b + f2 + c + f3 + d + f4);
    ContainsMiddle(f0, a, f1 + b + f2 + c + f3 + d + f4);
    assert r == (f0 + a + f1) + b + (f2 + c + f3 + d + f4);
    ContainsMiddle(f0 + a + f1, b, f2 + c + f3 + d + f4);
    assert r == (f0 + a + f1 + b + f2) + c + (f3 + d + f4);
    ContainsMiddle(f0 + a + f1 + b + f2, c, f3 + d + f4);
    ContainsMiddle(f0 + a + f1 + b + f2 + c + f3, d, f4);
  }

  /** The HTML comment the template puts inside `div.container`, ahead of
      the body. */
  const ContainerComment := "<!-- El contenido principal del body no está envuelto en <h1> ni <a> aquí. \n"
    + "             generate_root.js ya maneja su propia estructura de encabezado. -->"

  /** The HTML comment the template puts ahead of the script tags. */
  const ScriptsComment := "<!-- Scripts cargados por generateHtmlWrapper -->"

  /** The fixed stretches of the template, in page order. */
  const PageHead := "\n<!DOCTYPE html>\n<html lang=\"es\">\n<head>\n    <meta charset=\"UTF-8\">\n"
    + "    <meta name=\"viewport\" content=\"width=device-width, initial-scale=1.0\">\n    "
  const AfterTitle := "\n    "
  const AfterLink := "\n</head>\n<body>\n    "
  const ContainerOpen := "<div class=\"container\">\n        " + ContainerComment + "\n        "
  const ContainerClose := "\n    </div>"
  const BeforeScripts := "\n    \n    " + ScriptsComment + "\n    "
  const PageTail := " \n\n</body>\n</html>\n"

  function TitleTag(title: string): string {
    "<title>" + title + "</title>"
  }

  function StylesheetLink(cssPath: string): string {
    "<link rel=\"stylesheet\" href=\"" + cssPath + "\">"
  }

  /** `div.container`: the template's comment, then the body. */
  function Container(body: string): string {
    ContainerOpen + body + ContainerClose
  }

  /** `generateHtmlWrapper(title, bodyContent, cssPath, scriptList)`: the
      title goes into `<title>`, the stylesheet link points at `cssPath`, the
      body sits inside `div.container` after the template's comment, and the
      script tags follow it. */
  function HtmlWrapper(title: string, body: string, cssPath: string, scripts: seq<string>): (r: string)
    ensures Contains(r, "<title>" + title + "</title>")
    ensures Contains(r, "<link rel=\"stylesheet\" href=\"" + cssPath + "\">")
    ensures Contains(r, "<div class=\"container\">\n        " + ContainerComment + "\n        " + body + "\n    </div>")
    ensures Contains(r, ScriptTags(scripts))
  {
    ContainsPieces(PageHead, TitleTag(title), AfterTitle, StylesheetLink(cssPath), AfterLink,
                   Container(body), BeforeScripts, ScriptTags(scripts), PageTail);
    PageHead + TitleTag(title) + AfterTitle + StylesheetLink(cssPath) + AfterLink
    + Container(body) + BeforeScripts + ScriptTags(scripts) + PageTail
  }

  /** The wrapper keeps the body intact: with the same title, stylesheet
      and scripts, two pages are equal exactly when their bodies are. */
  lemma WrapperKeepsBody(title: string, b1: string, b2: string, cssPath: string, scripts: seq<string>)
    ensures HtmlWrapper(title, b1, cssPath, scripts) == HtmlWrapper(title, b2, cssPath, scripts) <==> b1 == b2
  {
    var before := PageHead + TitleTag(title) + AfterTitle + StylesheetLink(cssPath) + AfterLink + ContainerOpen;
    var after := ContainerClose + BeforeScripts + ScriptTags(scripts) + PageTail;
    Regroup(PageHead, TitleTag(title), AfterTitle, StylesheetLink(cssPath), AfterLink, ContainerOpen,
            b1, ContainerClose, BeforeScripts, ScriptTags(scripts), PageTail);
    Regroup(PageHead, TitleTag(title), AfterTitle, StylesheetLink(cssPath), AfterLink, ContainerOpen,
            b2, ContainerClose, BeforeScripts, ScriptTags(scripts), PageTail);
    if before + b1 + after == before + b2 + after {
      SameFrameSameMiddle(before, b1, b2, after);
    }
  }

  /** The page, regrouped as the text before the body, the body and the
      text after it. */
  lemma Regroup(a: string, b: string, c: string, d: string, e: string, f: string,
                x: string, g: string, h: string, i: string, j: string)
    ensures a + b + c + d + e + (f + x + g) + h + i + j
      == (a + b + c + d + e + f) + x + (g + h + i + j)
  {
    var p := a + b + c + d + e;
    assert p + (f + x + g) == p + f + x + g;
    assert p + f + x + g + h + i + j == (p + f) + x + (g + h + i + j);
  }

  /** A text framed by the same two texts determines the frame's middle. */
  lemma SameFrameSameMiddle(before: string, x: string, y: string, after: string)
    requires before + x + after == before + y + after
    ensures x == y
  {
    var r := before + x + after;
    assert |x| == |y|;
    assert r[|before|..|before| + |x|] == x;
    assert (before + y + after)[|before|..|before| + |y|] == y;
  }
}
