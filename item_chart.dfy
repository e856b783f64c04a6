/** The price-history chart of one item: the request address built from
    the selected range and location, the flattening of the response into
    two parallel series, and the line colour of each location. */
module ItemChart {
  import opened Text
  import opened Sequences

  // ---------------------------------------------------------------------
  // The request

  /** Hours per point: a week asks for 168, anything else for 24. */
  function TimeScale(range: string): (hours: nat)
    ensures hours == 168 <==> range == "1week"
    ensures hours != 168 ==> hours == 24
  {
    if range == "1week" then 168 else 24
  }

  /** `selectedLocation ? `&locations=${selectedLocation}` : ""`. */
  function LocationQuery(location: string): (q: string)
    ensures location != "" ==> q == "&locations=" + location
    ensures location == "" ==> q == ""
  {
    if location != "" then "&locations=" + location else ""
  }

  const HistoryPath: string := "https://west.albion-online-data.com/api/v2/stats/history/"

  /** The address of the history request. */
  function HistoryUrl(itemId: string, range: string, location: string): string {
    HistoryPath + itemId + "?time-scale=" + NatToString(TimeScale(range)) + LocationQuery(location)
  }

  /** The address is the history path, the item id, the time-scale
      parameter and the location part, in that order; for an id without
      `?`, the id and the time scale can be read back from it. */
  lemma HistoryUrlParts(itemId: string, range: string, location: string)
    requires '?' !in itemId
    ensures var url := HistoryUrl(itemId, range, location);
      var rest := url[|HistoryPath|..];
      && StartsWith(url, HistoryPath)
      && IndexOf(rest, '?') == |itemId|
      && rest[..|itemId|] == itemId
      && rest[|itemId|..] == "?time-scale=" + NatToString(TimeScale(range)) + LocationQuery(location)
  {
    UrlParts(HistoryPath, itemId, "?time-scale=", NatToString(TimeScale(range)), LocationQuery(location));
  }

  /** The parts of `path + id + query + value + rest`, read back. */
  lemma UrlParts(path: string, id: string, query: string, value: string, rest: string)
    requires '?' !in id && |query| > 0 && query[0] == '?'
    ensures var url := path + id + query + value + rest;
      var after := url[|path|..];
      && StartsWith(url, path)
      && IndexOf(after, '?') == |id|
      && after[..|id|] == id
      && after[|id|..] == query + value + rest
  {
    var url := path + id + query + value + rest;
    var tail := query + value + rest;
    assert url == path + (id + tail);
    var after := url[|path|..];
    assert after == id + tail;
    assert url[..|path|] == path;
    assert after[..|id|] == id;
    IndexOfAfterPrefix(id, tail, '?');
  }

  /** The first `c` in `a + b`, when `a` has none and `b` starts with it,
      is at `|a|`. */
  lemma {:induction false} IndexOfAfterPrefix(a: string, b: string, c: char)
    requires c !in a && |b| > 0 && b[0] == c
    ensures IndexOf(a + b, c) == |a|
  {
    if a != [] {
      assert (a + b)[1..] == a[1..] + b;
      assert a[0] in a;
      IndexOfAfterPrefix(a[1..], b, c);
    }
  }

  /** A week asks for `time-scale=168`, any other range for `time-scale=24`. */
  lemma TimeScaleDigits(range: string)
    ensures NatToString(TimeScale(range)) == (if range == "1week" then "168" else "24")
  {
    if range == "1week" {
      assert NatToString(16) == "16";
      assert NatToString(168) == NatToString(16) + "8";
    } else {
      assert NatToString(24) == NatToString(2) + "4";
    }
  }

  // ---------------------------------------------------------------------
  // The response

  /** One point of a location's history; the price is kept as an integer. */
  datatype Point<Time> = Point(timestamp: Time, avgPrice: int)

  /** One entry of the response: a location and its points. */
  datatype Entry<Time> = Entry(location: string, data: seq<Point<Time>>)

  /** `data.flatMap(entry => entry.data)`. */
  function Flatten<Time>(entries: seq<Entry<Time>>): seq<Point<Time>> {
    if entries == [] then [] else entries[0].data + Flatten(entries[1..])
  }

  /** The number of points over all entries. */
  function TotalPoints<Time>(entries: seq<Entry<Time>>): nat {
    if entries == [] then 0 else |entries[0].data| + TotalPoints(entries[1..])
  }

  lemma {:induction false} TotalPointsConcat<Time>(a: seq<Entry<Time>>, b: seq<Entry<Time>>)
    ensures TotalPoints(a + b) == TotalPoints(a) + TotalPoints(b)
  {
    if a == [] {
      assert a + b == b;
    } else {
      assert (a + b)[0] == a[0];
      assert (a + b)[1..] == a[1..] + b;
      TotalPointsConcat(a[1..], b);
    }
  }

  /** The flattened list holds every point of every entry, entry after
      entry: it has as many points as all entries together, and the
      `j`-th point of entry `k` sits after the points of the earlier
      entries. */
  lemma {:induction false} FlattenAt<Time>(entries: seq<Entry<Time>>, k: nat, j: nat)
    requires k < |entries| && j < |entries[k].data|
    ensures |Flatten(entries)| == TotalPoints(entries)
    ensures TotalPoints(entries[..k]) + j < |Flatten(entries)|
    ensures Flatten(entries)[TotalPoints(entries[..k]) + j] == entries[k].data[j]
  {
    FlattenLength(entries);
    if k == 0 {
      assert entries[..0] == [];
    } else {
      FlattenAt(entries[1..], k - 1, j);
      assert entries[..k] == [entries[0]] + entries[1..][..k - 1];
      TotalPointsConcat([entries[0]], entries[1..][..k - 1]);
      assert TotalPoints([entries[0]]) == |entries[0].data| by {
        assert [entries[0]][1..] == [];
      }
    }
  }

  lemma {:induction false} FlattenLength<Time>(entries: seq<Entry<Time>>)
    ensures |Flatten(entries)| == TotalPoints(entries)
  {
    if entries != [] {
      FlattenLength(entries[1..]);
    }
  }

  /** The chart's two series. */
  class ChartState<Time> {
    var timestamps: seq<string>
    var pricesAvg: seq<int>
    /** How many "no results" notices have been shown. */
    var notices: nat

    /** The series pair up point by point. */
    predicate Parallel()
      reads this
    {
      |timestamps| == |pricesAvg|
    }

    constructor ()
      ensures timestamps == [] && pricesAvg == [] && notices == 0
      ensures Parallel()
    {
      timestamps := [];
      pricesAvg := [];
      notices := 0;
    }

    /** The body of `getData` after the response arrives. A non-empty
        response replaces both series with the formatted timestamps and
        the average prices of the flattened points; an empty one leaves
        them as they were and raises a notice when the toast is mounted.
        `format` stands for the date formatting of a timestamp. */
    method ApplyResponse(response: seq<Entry<Time>>, format: Time -> string, toastMounted: bool)
      modifies this
      ensures |response| > 0 ==>
        && timestamps == Map(Flatten(response), (p: Point<Time>) => format(p.timestamp))
        && pricesAvg == Map(Flatten(response), (p: Point<Time>) => p.avgPrice)
        && notices == old(notices)
      ensures |response| == 0 ==>
        && timestamps == old(timestamps) && pricesAvg == old(pricesAvg)
        && notices == old(notices) + (if toastMounted then 1 else 0)
      ensures old(Parallel()) ==> Parallel()
      ensures |response| > 0 ==> Parallel() && |pricesAvg| == TotalPoints(response)
    {
      if |response| > 0 {
        var consolidated := Flatten(response);
        FlattenLength(response);
        timestamps := Map(consolidated, (p: Point<Time>) => format(p.timestamp));
        pricesAvg := Map(consolidated, (p: Point<Time>) => p.avgPrice);
      } else if toastMounted {
        notices := notices + 1;
      }
    }
  }

  /** After a non-empty response, the `i`-th price is the average price of
      the `j`-th point of entry `k`, where `i` counts the points of the
      entries before `k` plus `j`. */
  lemma PriceAt<Time>(response: seq<Entry<Time>>, k: nat, j: nat)
    requires k < |response| && j < |response[k].data|
    ensures var prices := Map(Flatten(response), (p: Point<Time>) => p.avgPrice);
      TotalPoints(response[..k]) + j < |prices|
      && prices[TotalPoints(response[..k]) + j] == response[k].data[j].avgPrice
  {
    FlattenAt(response, k, j);
  }

  // ---------------------------------------------------------------------
  // Line colours

  /** The selectable locations, in menu order. */
  const Locations: seq<string> :=
    ["Bridgewatch", "Martlock", "Thetford", "Fort Sterling", "Lymhurst", "Caerleon", "Black Market", "Brecilien"]

  const Fallback: string := "#ffffffff"

  /** `locationColors[location] || "#ffffffff"`. */
  function LineColour(location: string): string {
    if location == "Bridgewatch" then "#FFD700"
    else if location == "Martlock" then "#87CEEB"
    else if location == "Thetford" then "#8A2BE2"
    else if location == "Fort Sterling" then "#A9A9A9"
    else if location == "Lymhurst" then "#32CD32"
    else if location == "Caerleon" then "#FF0000"
    else if location == "Black Market" then "#000000"
    else if location == "Brecilien" then "#FF69B4"
    else Fallback
  }

  /** Every selectable location has a colour of its own, and the empty
      or an unknown location falls back to white. */
  lemma LineColours(location: string)
    ensures location in Locations ==> LineColour(location) != Fallback
    ensures location !in Locations ==> LineColour(location) == Fallback
    ensures forall i, j :: 0 <= i < j < |Locations| ==> LineColour(Locations[i]) != LineColour(Locations[j])
  {
  }
}
