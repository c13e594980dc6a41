/** you2pub_files/js/search.js: the search box over `ALL_VIDEOS_DATA`,
    matching the trimmed, lower-cased term against each video's title,
    channel and full description. */
module Search {
  import opened Common
  import opened Strings
  import opened Seqs
  import opened Descriptor

  /** `searchTerm.trim().toLowerCase()`. */
  function Normalize(q: string): (r: string)
    ensures |r| == 0 <==> AllSpace(q)
    ensures forall i :: 0 <= i < |r| ==> !IsUpper(r[i])
  {
    TrimEmptyIff(q);
    ToLower(Trim(q))
  }

  /** Some field of `v`, lower-cased, includes `term`; `description` is the
      full description the filter reads. */
  predicate MatchesWith(term: string, v: Video, description: string) {
    || Contains(ToLower(v.title), term)
    || Contains(ToLower(v.channel), term)
    || Contains(ToLower(description), term)
  }

  /** The match with a missing full description read as empty text. */
  predicate Matches(term: string, v: Video) {
    MatchesWith(term, v, if v.fullDescription.Some? then v.fullDescription.value else "")
  }

  /** What `filterVideos(searchTerm)` hands back and the `isSearching` flag
      it leaves. */
  datatype Outcome = Outcome(isSearching: bool, results: seq<Video>)

  /** `filterVideos` with a missing full description read as empty: every
      video for a blank term, otherwise the matching ones in data order. */
  function FilterVideos(data: seq<Video>, q: string): (r: Outcome)
  {
    var term := Normalize(q);
    if |term| == 0 then Outcome(false, data)
    else Outcome(true, Filter(data, (v: Video) => Matches(term, v)))
  }

  /** The search is on exactly when the term holds something besides
      white space; a video is found exactly when it is in the data and
      matches; the results keep the data's order and multiplicities. */
  lemma FilterVideosSpec(data: seq<Video>, q: string)
    ensures FilterVideos(data, q).isSearching <==> !AllSpace(q)
    ensures !FilterVideos(data, q).isSearching ==> FilterVideos(data, q).results == data
    ensures FilterVideos(data, q).isSearching ==>
      forall v :: v in FilterVideos(data, q).results <==> v in data && Matches(Normalize(q), v)
    ensures SubseqOf(FilterVideos(data, q).results, data)
    ensures forall v :: multiset(FilterVideos(data, q).results)[v] <= multiset(data)[v]
  {
    if !FilterVideos(data, q).isSearching {
      SubseqOfSelf(data);
    }
  }

  lemma {:induction false} SubseqOfSelf<T>(s: seq<T>)
    ensures SubseqOf(s, s)
    decreases |s|
  {
    if |s| > 0 {
      SubseqOfSelf(s[1..]);
    }
  }

  /** The search is not sensitive to case or to surrounding white space in
      the term. */
  lemma NormalizeIdempotent(q: string)
    ensures Normalize(Normalize(q)) == Normalize(q)
  {
    var t := Trim(q);
    var l := ToLower(t);
    LowerKeepsEnds(t);
    TrimTrimmed(l);
    LowerLower(l);
  }

  /** Lower-casing keeps a text's first and last characters non-blank. */
  lemma LowerKeepsEnds(t: string)
    requires t == [] || (!IsSpace(t[0]) && !IsSpace(t[|t| - 1]))
    ensures var l := ToLower(t); l == [] || (!IsSpace(l[0]) && !IsSpace(l[|l| - 1]))
  {
    if |t| > 0 {
      LowerNotSpace(t[0]);
      LowerNotSpace(t[|t| - 1]);
    }
  }

  lemma LowerNotSpace(c: char)
    requires !IsSpace(c)
    ensures !IsSpace(LowerChar(c))
  {
    if IsUpper(c) {
      assert 'a' <= LowerChar(c) <= 'z';
    }
  }

  lemma LowerLower(s: string)
    requires forall i :: 0 <= i < |s| ==> !IsUpper(s[i])
    ensures ToLower(s) == s
  {
  }

  // ---------------------------------------------------------------------
  // As written: the full description is read unconditionally
  // ---------------------------------------------------------------------

  /** `ALL_VIDEOS_DATA.filter(...)` as written: `video.fullDescription
      .toLowerCase()` throws a `TypeError` at the first video without a full
      description. */
  function FilterAsWritten(data: seq<Video>, term: string): (r: Result<seq<Video>>)
    decreases |data|
  {
    if |data| == 0 then Ok([])
    else if data[0].fullDescription.None? then Thrown("TypeError")
    else match FilterAsWritten(data[1..], term)
      case Thrown(e) => Thrown(e)
      case Ok(rest) =>
        if MatchesWith(term, data[0], data[0].fullDescription.value) then Ok([data[0]] + rest) else Ok(rest)
  }

  /** `filterVideos(searchTerm)` as written. */
  function FilterVideosAsWritten(data: seq<Video>, q: string): Result<Outcome> {
    var term := Normalize(q);
    if |term| == 0 then Ok(Outcome(false, data))
    else match FilterAsWritten(data, term)
      case Thrown(e) => Thrown(e)
      case Ok(found) => Ok(Outcome(true, found))
  }

  /** The written filter throws exactly when some video lacks its full
      description, and otherwise agrees with the corrected one. */
  lemma {:induction false} FilterAsWrittenSpec(data: seq<Video>, term: string)
    ensures FilterAsWritten(data, term).Thrown?
      <==> exists i :: 0 <= i < |data| && data[i].fullDescription.None?
    ensures FilterAsWritten(data, term).Ok?
      ==> FilterAsWritten(data, term).value == Filter(data, (v: Video) => Matches(term, v))
    decreases |data|
  {
    if |data| > 0 {
      FilterAsWrittenSpec(data[1..], term);
      if data[0].fullDescription.Some? && FilterAsWritten(data[1..], term).Thrown? {
        var i :| 0 <= i < |data[1..]| && data[1..][i].fullDescription.None?;
        assert data[i + 1].fullDescription.None?;
      }
      if exists i :: 0 <= i < |data| && data[i].fullDescription.None? {
        var i :| 0 <= i < |data| && data[i].fullDescription.None?;
        if i > 0 {
          assert data[1..][i - 1].fullDescription.None?;
        }
      }
    }
  }

  /** The descriptors both generators write carry no full description, so
      any non-blank term typed over a non-empty list throws. */
  lemma GeneratedDataThrows(data: seq<Video>, q: string)
    requires |data| > 0 && forall i :: 0 <= i < |data| ==> data[i].fullDescription.None?
    requires !AllSpace(q)
    ensures FilterVideosAsWritten(data, q).Thrown?
  {
    FilterAsWrittenSpec(data, Normalize(q));
    assert data[0].fullDescription.None?;
  }

  /** When every video does carry its full description, the written filter
      and the corrected one agree. */
  lemma CorrectedAgreesWhenComplete(data: seq<Video>, q: string)
    requires forall i :: 0 <= i < |data| ==> data[i].fullDescription.Some?
    ensures FilterVideosAsWritten(data, q) == Ok(FilterVideos(data, q))
  {
    FilterAsWrittenSpec(data, Normalize(q));
  }

  // ---------------------------------------------------------------------
  // The input handler
  // ---------------------------------------------------------------------

  /** The page as the input handler leaves it. `countMessage` and
      `sentinelShown` are `None` when the page lacks the element;
      `handedOver` is what reached a `loadNextVideos` hook, when one
      exists. */
  datatype View = View(
    isSearching: bool,
    filtered: seq<Video>,
    countMessage: Option<string>,
    containerCleared: bool,
    resetCalled: bool,
    handedOver: Option<seq<Video>>,
    sentinelShown: Option<bool>)

  /** The hooks `resetLazyLoad` and `loadNextVideos` are optional; the grid
      script defines neither. */
  datatype Hooks = Hooks(hasReset: bool, hasLoadNext: bool)

  function CountMessage(data: seq<Video>, q: string, o: Outcome): string {
    if o.isSearching then
      "Mostrando " + NatToString(|o.results|) + " resultados para \"" + q + "\"."
    else
      "Mostrando " + NatToString(|data|) + " videos de todos los canales. (Videos cargados de forma aleatoria)."
  }

  /** The `input` handler after a successful filter. */
  function Show(v: View, data: seq<Video>, q: string, perPage: int, hooks: Hooks, o: Outcome): View {
    View(o.isSearching, o.results,
         if v.countMessage.Some? then Some(CountMessage(data, q, o)) else None,
         true,
         hooks.hasReset,
         if hooks.hasLoadNext then Some(o.results) else None,
         if v.sentinelShown.Some? then Some(!o.isSearching || |o.results| > perPage) else None)
  }

  /** The `input` handler, with the corrected filter. */
  function OnInput(v: View, data: seq<Video>, q: string, perPage: int, hooks: Hooks): (r: View)
    ensures r.isSearching <==> !AllSpace(q)
    ensures r.containerCleared
    ensures r.countMessage.Some? <==> v.countMessage.Some?
    ensures r.sentinelShown.Some? <==> v.sentinelShown.Some?
    ensures r.sentinelShown.Some? ==> (r.sentinelShown.value <==> !r.isSearching || |r.filtered| > perPage)
    ensures r.handedOver.Some? <==> hooks.hasLoadNext
  {
    FilterVideosSpec(data, q);
    Show(v, data, q, perPage, hooks, FilterVideos(data, q))
  }

  /** With the grid script's (absent) hooks, every input empties the grid
      and nothing draws the results into it. */
  lemma InputEmptiesGrid(v: View, data: seq<Video>, q: string, perPage: int)
    ensures var r := OnInput(v, data, q, perPage, Hooks(false, false));
      r.containerCleared && r.handedOver.None? && !r.resetCalled
  {
  }

  /** The `input` handler as written: when the filter throws, the flag is
      already up but nothing else on the page changes. */
  function OnInputAsWritten(v: View, data: seq<Video>, q: string, perPage: int, hooks: Hooks): View {
    match FilterVideosAsWritten(data, q)
    case Thrown(_) => v.(isSearching := true)
    case Ok(o) => Show(v, data, q, perPage, hooks, o)
  }

  /** Typing a term over generated data leaves the count message, the
      results and the grid as they were, while the corrected handler
      updates them. */
  lemma InputAsWrittenStalls(v: View, data: seq<Video>, q: string, perPage: int, hooks: Hooks)
    requires |data| > 0 && forall i :: 0 <= i < |data| ==> data[i].fullDescription.None?
    requires !AllSpace(q)
    ensures var r := OnInputAsWritten(v, data, q, perPage, hooks);
      r.filtered == v.filtered && r.countMessage == v.countMessage && r.containerCleared == v.containerCleared
    ensures OnInput(v, data, q, perPage, hooks).containerCleared
  {
    GeneratedDataThrows(data, q);
  }
}
