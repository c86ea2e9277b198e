/** The stop-list builder of the offline downloader: for every entry of
    `lines.yml` it asks the TransitLand REST API for the route named by the
    entry's value (a OneStop id) and turns the stops of the first route in the
    answer into CSV rows `[stop_id, stop_name, LED_PLACEHOLDER]`. An answer
    with no route prints a diagnostic and the next entry is processed. */
module StopIds {
  import opened YamlKeys

  const TRANSIT_LAND_URL: string := "https://transit.land/api/v2/rest/"

  /** Placeholder written in the LED column, to be replaced by hand. */
  const LED_PLACEHOLDER: int := 0

  /** One entry of `lines.yml`: the key is only a label for people, the value
      is the TransitLand OneStop id of the route. */
  datatype LineEntry = LineEntry(key: YamlKey, oneStopId: string)

  /** `stop` of one element of `route_stops`. */
  datatype Stop = Stop(stopId: string, stopName: string)

  /** One element of `routes`; only its `route_stops` is read. */
  datatype Route = Route(routeStops: seq<Stop>)

  /** The parsed answer to one route request: its `routes` array. */
  datatype RouteResponse = RouteResponse(routes: seq<Route>)

  /** One CSV field: the stop id and name are text, the LED column a number. */
  datatype Field = Text(s: string) | Number(n: int)

  type CsvRow = seq<Field>

  /** Base of every route request. */
  function RoutesBase(): string { TRANSIT_LAND_URL + "routes/" }

  /** The request URL for a line; the OneStop id can be read back from it. */
  function RequestUrl(oneStopId: string): (url: string)
    ensures |url| == |RoutesBase()| + |oneStopId|
    ensures url[..|RoutesBase()|] == RoutesBase() && url[|RoutesBase()|..] == oneStopId
  {
    RoutesBase() + oneStopId
  }

  /** Distinct OneStop ids are requested at distinct URLs. */
  lemma RequestUrlInjective(a: string, b: string)
    requires RequestUrl(a) == RequestUrl(b)
    ensures a == b
  {
  }

  function RowOf(stop: Stop): CsvRow
  {
    [Text(stop.stopId), Text(stop.stopName), Number(LED_PLACEHOLDER)]
  }

  /** The rows of a stop sequence, in order. */
  function RowsOf(stops: seq<Stop>): (rows: seq<CsvRow>)
    ensures |rows| == |stops|
    decreases |stops|
  {
    if stops == [] then [] else RowsOf(stops[..|stops| - 1]) + [RowOf(stops[|stops| - 1])]
  }

  /** The rows one answer contributes: those of `routes[0]`, none when
      `routes` is empty. */
  function LineRows(response: RouteResponse): seq<CsvRow>
  {
    if |response.routes| == 0 then [] else RowsOf(response.routes[0].routeStops)
  }

  /** The report for an entry whose answer holds no route: the entry's key
      and its OneStop id. */
  datatype Diagnostic = InvalidOneStopId(key: YamlKey, oneStopId: string)

  function DiagnosticOf(entry: LineEntry): Diagnostic
  {
    InvalidOneStopId(entry.key, entry.oneStopId)
  }

  const ERROR_PREFIX: string := "Error parsing line "
  const ID_PREFIX: string := "Current OneStop ID: "

  /** The two lines printed for a diagnostic: the first names the key (as
      `str()` renders it), the second ends with the OneStop id. */
  function Printed(d: Diagnostic): (lines: seq<string>)
    ensures |lines| == 2
    ensures |lines[0]| >= |ERROR_PREFIX| + |PyStr(d.key)|
    ensures lines[0][..|ERROR_PREFIX|] == ERROR_PREFIX
    ensures lines[0][|ERROR_PREFIX|..|ERROR_PREFIX| + |PyStr(d.key)|] == PyStr(d.key)
    ensures |lines[1]| == |ID_PREFIX| + |d.oneStopId|
    ensures lines[1][..|ID_PREFIX|] == ID_PREFIX && lines[1][|ID_PREFIX|..] == d.oneStopId
  {
    [ ERROR_PREFIX + PyStr(d.key) + ". Check that the Transitland OneStop ID number is correct."
    , ID_PREFIX + d.oneStopId ]
  }

  /** The answer to the request for an entry. */
  function Answer(entry: LineEntry, fetch: string -> RouteResponse): RouteResponse
  {
    fetch(RequestUrl(entry.oneStopId))
  }

  /** `stop_list` after the loop over `lines`. */
  function StopList(lines: seq<LineEntry>, fetch: string -> RouteResponse): seq<CsvRow>
    decreases |lines|
  {
    if lines == [] then []
    else StopList(lines[..|lines| - 1], fetch) + LineRows(Answer(lines[|lines| - 1], fetch))
  }

  /** The diagnostics reported by the loop over `lines`, in order. */
  function Diagnostics(lines: seq<LineEntry>, fetch: string -> RouteResponse): seq<Diagnostic>
    decreases |lines|
  {
    if lines == [] then []
    else
      var last := lines[|lines| - 1];
      Diagnostics(lines[..|lines| - 1], fetch)
        + (if |Answer(last, fetch).routes| == 0 then [DiagnosticOf(last)] else [])
  }

  /** Number of stops on the first route of every answer that has one. */
  function StopCount(lines: seq<LineEntry>, fetch: string -> RouteResponse): nat
    decreases |lines|
  {
    if lines == [] then 0
    else
      var answer := Answer(lines[|lines| - 1], fetch);
      StopCount(lines[..|lines| - 1], fetch)
        + (if |answer.routes| == 0 then 0 else |answer.routes[0].routeStops|)
  }

  /** The downloader's main loop: one request per entry, one row appended per
      stop of the first route, a diagnostic for an answer without routes. The
      diagnostics are returned rather than printed; Printed gives their text. */
  method BuildStopList(lines: seq<LineEntry>, fetch: string -> RouteResponse)
    returns (stopList: seq<CsvRow>, reported: seq<Diagnostic>)
    ensures stopList == StopList(lines, fetch)
    ensures reported == Diagnostics(lines, fetch)
  {
    stopList, reported := [], [];
    var i := 0;
    while i < |lines|
      invariant 0 <= i <= |lines|
      invariant stopList == StopList(lines[..i], fetch)
      invariant reported == Diagnostics(lines[..i], fetch)
    {
      assert lines[..i + 1][..i] == lines[..i];
      var entry := lines[i];
      var lineRequestUrl := RequestUrl(entry.oneStopId);
      var routeJson := fetch(lineRequestUrl).routes;
      if |routeJson| == 0 {
        // route_json[0] raises IndexError before anything is appended
        reported := reported + [InvalidOneStopId(entry.key, entry.oneStopId)];
      } else {
        var stops := routeJson[0].routeStops;
        var j := 0;
        while j < |stops|
          invariant 0 <= j <= |stops|
          invariant stopList == StopList(lines[..i], fetch) + RowsOf(stops[..j])
        {
          assert stops[..j + 1][..j] == stops[..j];
          var stop := stops[j];
          stopList := stopList + [[Text(stop.stopId), Text(stop.stopName), Number(LED_PLACEHOLDER)]];
          j := j + 1;
        }
        assert stops[..|stops|] == stops;
      }
      i := i + 1;
    }
    assert lines[..|lines|] == lines;
  }

  /** The rows of a stop sequence copy each stop's id and name unchanged, one
      row per stop and in the same order, with the placeholder LED. */
  lemma {:induction false} RowsOfAt(stops: seq<Stop>, k: nat)
    requires k < |stops|
    ensures RowsOf(stops)[k] == [Text(stops[k].stopId), Text(stops[k].stopName), Number(LED_PLACEHOLDER)]
    decreases |stops|
  {
    if k < |stops| - 1 {
      RowsOfAt(stops[..|stops| - 1], k);
    }
  }

  /** Every row has exactly three fields: the stop id and name as text and
      LED_PLACEHOLDER as the third. */
  lemma {:induction false} RowsHaveThreeFields(lines: seq<LineEntry>, fetch: string -> RouteResponse, k: nat)
    requires k < |StopList(lines, fetch)|
    ensures |StopList(lines, fetch)[k]| == 3
    ensures StopList(lines, fetch)[k][0].Text? && StopList(lines, fetch)[k][1].Text?
    ensures StopList(lines, fetch)[k][2] == Number(LED_PLACEHOLDER)
    decreases |lines|
  {
    var init := lines[..|lines| - 1];
    var answer := Answer(lines[|lines| - 1], fetch);
    if k < |StopList(init, fetch)| {
      RowsHaveThreeFields(init, fetch, k);
    } else {
      var stops := answer.routes[0].routeStops;
      RowsOfAt(stops, k - |StopList(init, fetch)|);
    }
  }

  /** Rows follow the order of the lines: the rows for `first + second` are
      those for `first` followed by those for `second`. Nothing is merged, so
      a stop served by two lines appears twice. */
  lemma {:induction false} StopListConcat(first: seq<LineEntry>, second: seq<LineEntry>, fetch: string -> RouteResponse)
    ensures StopList(first + second, fetch) == StopList(first, fetch) + StopList(second, fetch)
    decreases |second|
  {
    if second == [] {
      assert first + second == first;
    } else {
      var init, last := second[..|second| - 1], second[|second| - 1];
      assert second == init + [last];
      assert first + second == (first + init) + [last];
      StopListConcat(first, init, fetch);
      StopListAppend(first + init, last, fetch);
      StopListAppend(init, last, fetch);
      ConcatAssociative(StopList(first, fetch), StopList(init, fetch), LineRows(Answer(last, fetch)));
    }
  }

  /** Concatenation is associative; stated once so the proofs above need
      not rediscover it for sequences of rows. */
  lemma ConcatAssociative<T>(a: seq<T>, b: seq<T>, c: seq<T>)
    ensures a + b + c == a + (b + c)
  {
  }

  /** Appending one entry appends the rows of its answer. */
  lemma StopListAppend(lines: seq<LineEntry>, entry: LineEntry, fetch: string -> RouteResponse)
    ensures StopList(lines + [entry], fetch) == StopList(lines, fetch) + LineRows(Answer(entry, fetch))
  {
    var whole := lines + [entry];
    assert whole[..|whole| - 1] == lines;
    assert whole[|whole| - 1] == entry;
  }

  /** Diagnostics are printed in the order of the lines. */
  lemma {:induction false} DiagnosticsConcat(first: seq<LineEntry>, second: seq<LineEntry>, fetch: string -> RouteResponse)
    ensures Diagnostics(first + second, fetch) == Diagnostics(first, fetch) + Diagnostics(second, fetch)
    decreases |second|
  {
    if second == [] {
      assert first + second == first;
    } else {
      var whole, init, last := first + second, second[..|second| - 1], second[|second| - 1];
      assert whole[..|whole| - 1] == first + init;
      assert whole[|whole| - 1] == last;
      DiagnosticsConcat(first, init, fetch);
      var tail := if |Answer(last, fetch).routes| == 0 then [DiagnosticOf(last)] else [];
      var a, b := Diagnostics(first, fetch), Diagnostics(init, fetch);
      assert Diagnostics(whole, fetch) == a + b + tail;
      assert a + b + tail == a + (b + tail);
      assert Diagnostics(second, fetch) == b + tail;
    }
  }

  /** An entry whose answer holds no route contributes no row, and the
      entries after it are still processed. */
  lemma SkipsLineWithoutRoutes(before: seq<LineEntry>, bad: LineEntry, after: seq<LineEntry>, fetch: string -> RouteResponse)
    requires |Answer(bad, fetch).routes| == 0
    ensures StopList(before + [bad] + after, fetch) == StopList(before, fetch) + StopList(after, fetch)
  {
    StopListConcat(before + [bad], after, fetch);
    StopListConcat(before, [bad], fetch);
    assert [bad][..0] == [];
    assert StopList([bad], fetch) == [];
    assert StopList(before, fetch) + [] == StopList(before, fetch);
  }

  /** An entry whose answer holds no route is reported, in its place among
      the reports of the other entries. */
  lemma ReportsLineWithoutRoutes(before: seq<LineEntry>, bad: LineEntry, after: seq<LineEntry>, fetch: string -> RouteResponse)
    requires |Answer(bad, fetch).routes| == 0
    ensures Diagnostics(before + [bad] + after, fetch)
              == Diagnostics(before, fetch) + [DiagnosticOf(bad)] + Diagnostics(after, fetch)
  {
    DiagnosticsConcat(before + [bad], after, fetch);
    DiagnosticsConcat(before, [bad], fetch);
    assert [bad][..0] == [];
    assert Diagnostics([bad], fetch) == [DiagnosticOf(bad)];
  }

  /** The first route of an answer, if any. */
  function FirstRoute(response: RouteResponse): seq<Route>
  {
    if |response.routes| == 0 then [] else [response.routes[0]]
  }

  /** Two API behaviours that agree on the first route of every answer give
      the same rows and print the same diagnostics. */
  lemma {:induction false} LaterRoutesIgnored(lines: seq<LineEntry>, fetch: string -> RouteResponse, other: string -> RouteResponse)
    requires forall i :: 0 <= i < |lines| ==> FirstRoute(Answer(lines[i], fetch)) == FirstRoute(Answer(lines[i], other))
    ensures StopList(lines, fetch) == StopList(lines, other)
    ensures Diagnostics(lines, fetch) == Diagnostics(lines, other)
    decreases |lines|
  {
    if lines != [] {
      var init := lines[..|lines| - 1];
      forall i | 0 <= i < |init|
        ensures FirstRoute(Answer(init[i], fetch)) == FirstRoute(Answer(init[i], other))
      {
        assert init[i] == lines[i];
      }
      LaterRoutesIgnored(init, fetch, other);
      var last := lines[|lines| - 1];
      assert FirstRoute(Answer(last, fetch)) == FirstRoute(Answer(last, other));
    }
  }

  /** The rows depend on the values of `lines.yml` only: two configurations
      with the same OneStop ids in the same order, whatever their keys, give
      the same rows. */
  lemma {:induction false} KeysDoNotAffectRows(lines: seq<LineEntry>, relabelled: seq<LineEntry>, fetch: string -> RouteResponse)
    requires |lines| == |relabelled|
    requires forall i :: 0 <= i < |lines| ==> lines[i].oneStopId == relabelled[i].oneStopId
    ensures StopList(lines, fetch) == StopList(relabelled, fetch)
    decreases |lines|
  {
    if lines != [] {
      var init, init' := lines[..|lines| - 1], relabelled[..|relabelled| - 1];
      forall i | 0 <= i < |init| ensures init[i].oneStopId == init'[i].oneStopId {
        assert init[i] == lines[i] && init'[i] == relabelled[i];
      }
      KeysDoNotAffectRows(init, init', fetch);
    }
  }

  /** The number of rows (the count reported as written) is the sum, over the
      entries whose answer has a route, of the stops on its first route. */
  lemma {:induction false} RowCount(lines: seq<LineEntry>, fetch: string -> RouteResponse)
    ensures |StopList(lines, fetch)| == StopCount(lines, fetch)
    decreases |lines|
  {
    if lines != [] {
      RowCount(lines[..|lines| - 1], fetch);
    }
  }
}
