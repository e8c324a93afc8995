/** The pure part of the indicator service client: the shapes of its
    responses, the requests it issues, and the transforms it applies to
    `response.data` before handing it to the components. The HTTP calls
    themselves are not modelled; their responses are inputs here. */
module Api {
  import opened Common
  import opened Strings
  import Json

  /** The indicator used when none is given. */
  const DefaultIndicator := "dolar"
  /** How many points of a provider series the chart and series calls keep. */
  const SeriesLimit := 30
  /** Separator between the year, month and day of a date. */
  const DateSeparator := '-'

  /** One point of a provider series; `fecha` is a timestamp. */
  datatype SeriesPoint = SeriesPoint(fecha: int, valor: real)

  /** The body of a per-year lookup. */
  datatype YearResponse = YearResponse(nombre: string, unidadMedida: string, serie: seq<SeriesPoint>)

  /** The requests the client issues, one HTTP GET each. */
  datatype Request =
    | AllIndicators                                     // GET {base}
    | HistoricalValue(indicator: string, date: string)  // GET {base}/{indicator}/{dd-mm-yyyy}
    | FullSeries(indicator: string)                     // GET {base}/{indicator}
    | ByYear(indicator: string, year: int)              // GET {base}/{indicator}/{year}

  /** What awaiting a request yields in a component: the response body, or
      the rejection (the component's own timeout, an HTTP 404, anything else). */
  datatype FetchOutcome<T> = Fetched(value: T) | TimedOut | NotFound | Failed

  /** The `valor` of every point, in order. */
  function Valores(serie: seq<SeriesPoint>): (vs: seq<real>)
    ensures |vs| == |serie|
    ensures forall i :: 0 <= i < |serie| ==> vs[i] == serie[i].valor
  {
    seq(|serie|, i requires 0 <= i < |serie| => serie[i].valor)
  }

  /** `date.split('-').reverse().join('-')`: turns the date input's
      `yyyy-mm-dd` into the provider's `dd-mm-yyyy`. */
  function FormatProviderDate(date: string): string
  {
    Join(Reversed(Split(date, DateSeparator)), DateSeparator)
  }

  /** The request `getHistoricalIndicatorValue(indicator, date)` issues. */
  function HistoricalValueRequest(indicator: string, date: string): (r: Request)
    ensures r.HistoricalValue? && r.indicator == indicator
    ensures Split(r.date, DateSeparator) == Reversed(Split(date, DateSeparator))
  {
    FormatReversesComponents(date);
    HistoricalValue(indicator, FormatProviderDate(date))
  }

  /** The components of the reformatted date are those of the input, in reverse order. */
  lemma FormatReversesComponents(date: string)
    ensures Split(FormatProviderDate(date), DateSeparator) == Reversed(Split(date, DateSeparator))
  {
    var parts := Split(date, DateSeparator);
    var rev := Reversed(parts);
    assert forall i :: 0 <= i < |rev| ==> DateSeparator !in rev[i];
    SplitJoin(rev, DateSeparator);
  }

  /** Reformatting twice gives back the original date. */
  lemma FormatTwice(date: string)
    ensures FormatProviderDate(FormatProviderDate(date)) == date
  {
    var parts := Split(date, DateSeparator);
    FormatReversesComponents(date);
    ReversedTwice(parts);
    JoinSplit(date, DateSeparator);
  }

  /** Reformatting keeps the number of components and the length of the string. */
  lemma FormatPreservesShape(date: string)
    ensures |Split(FormatProviderDate(date), DateSeparator)| == |Split(date, DateSeparator)|
    ensures |FormatProviderDate(date)| == |date|
  {
    var parts := Split(date, DateSeparator);
    FormatReversesComponents(date);
    JoinLength(Reversed(parts), DateSeparator);
    JoinLength(parts, DateSeparator);
    ReversedTotalLength(parts);
    JoinSplit(date, DateSeparator);
  }

  lemma {:induction false} ReversedTotalLength(parts: seq<string>)
    ensures TotalLength(Reversed(parts)) == TotalLength(parts)
  {
    if parts != [] {
      ReversedTotalLength(parts[1..]);
      TotalLengthAppend(Reversed(parts[1..]), [parts[0]]);
      assert TotalLength([parts[0]]) == |parts[0]|;
    }
  }

  lemma SplitExample()
    ensures Split("2024-05-01", DateSeparator) == ["2024", "05", "01"]
  {
    assert "2024-05-01" == "2024" + [DateSeparator] + "05-01";
    assert "05-01" == "05" + [DateSeparator] + "01";
    SplitAfterPart("2024", "05-01", DateSeparator);
    SplitAfterPart("05", "01", DateSeparator);
    SplitWithoutSeparator("01", DateSeparator);
  }

  lemma JoinExample()
    ensures Join(["01", "05", "2024"], DateSeparator) == "01-05-2024"
  {
    var rev: seq<string> := ["01", "05", "2024"];
    assert Join(rev[1..], DateSeparator) == "05" + [DateSeparator] + Join(rev[2..], DateSeparator);
    assert "01" + [DateSeparator] + "05-2024" == "01-05-2024";
  }

  lemma ReversedOfThree<T>(a: T, b: T, c: T)
    ensures Reversed([a, b, c]) == [c, b, a]
  {
    assert |Reversed([a, b, c])| == 3;
  }

  /** The documented example: "2024-05-01" becomes "01-05-2024". */
  lemma FormatExample()
    ensures FormatProviderDate("2024-05-01") == "01-05-2024"
  {
    SplitExample();
    ReversedOfThree("2024", "05", "01");
    JoinExample();
  }

  /** `response.data.serie[0]` in `getHistoricalIndicatorValue`: the point
      for the requested date, or `undefined` (None) for an empty series. */
  function GetHistoricalIndicatorValue(serie: seq<SeriesPoint>): (r: Option<SeriesPoint>)
    ensures r.None? <==> serie == []
    ensures r.Some? ==> r.value == serie[0]
  {
    if serie == [] then None else Some(serie[0])
  }

  /** How many points `slice(0, 30)` keeps. */
  function Kept(serie: seq<SeriesPoint>): (n: nat)
    ensures n <= SeriesLimit && n <= |serie|
    ensures n == SeriesLimit || n == |serie|
  {
    Min(SeriesLimit, |serie|)
  }

  /** `serie.slice(0, 30)` in `getDollarLast30Days`: the first points, in provider order. */
  function GetDollarLast30Days(serie: seq<SeriesPoint>): (r: seq<SeriesPoint>)
    ensures |r| == Kept(serie)
    ensures forall i :: 0 <= i < |r| ==> r[i] == serie[i]
  {
    serie[..Kept(serie)]
  }

  /** `serie.slice(0, 30).reverse()` in `getIndicatorSeries` and `getDollarSeries`. */
  function GetIndicatorSeries(serie: seq<SeriesPoint>): (r: seq<SeriesPoint>)
    ensures |r| == Kept(serie)
    ensures forall i :: 0 <= i < |r| ==> r[i] == serie[|r| - 1 - i]
  {
    Reversed(GetDollarLast30Days(serie))
  }

  /** The provider lists a series newest first. */
  ghost predicate NewestFirst(serie: seq<SeriesPoint>)
  {
    forall i, j :: 0 <= i < j < |serie| ==> serie[i].fecha > serie[j].fecha
  }

  /** The charts want a series oldest first. */
  ghost predicate OldestFirst(serie: seq<SeriesPoint>)
  {
    forall i, j :: 0 <= i < j < |serie| ==> serie[i].fecha < serie[j].fecha
  }

  /** On a newest-first provider series, the series call yields its most
      recent points oldest first, and every point it drops is older than
      every point it keeps. */
  lemma IndicatorSeriesChronological(serie: seq<SeriesPoint>)
    requires NewestFirst(serie)
    ensures OldestFirst(GetIndicatorSeries(serie))
    ensures forall i, j :: 0 <= i < |GetIndicatorSeries(serie)| && Kept(serie) <= j < |serie| ==>
              serie[j].fecha < GetIndicatorSeries(serie)[i].fecha
  {
    var r := GetIndicatorSeries(serie);
    forall i, j | 0 <= i < j < |r| ensures r[i].fecha < r[j].fecha {
      assert r[i] == serie[|r| - 1 - i] && r[j] == serie[|r| - 1 - j];
    }
    forall i, j | 0 <= i < |r| && Kept(serie) <= j < |serie| ensures serie[j].fecha < r[i].fecha {
      assert r[i] == serie[|r| - 1 - i];
    }
  }

  /** `response.data[indicator]` in `getIndicatorValue` (and `.dolar` in
      `getDollarValue`): the snapshot entry, or None for `undefined`. */
  function GetIndicatorValue(snapshot: seq<(string, Json.Value)>, indicator: string := DefaultIndicator): (r: Option<Json.Value>)
    ensures r.Some? <==> Json.HasKey(snapshot, indicator)
    ensures Json.DistinctKeys(snapshot) ==> forall i :: 0 <= i < |snapshot| && snapshot[i].0 == indicator ==> r == Some(snapshot[i].1)
  {
    var r := Json.Get(snapshot, indicator);
    forall i | 0 <= i < |snapshot| && snapshot[i].0 == indicator && Json.DistinctKeys(snapshot)
      ensures r == Some(snapshot[i].1)
    {
      Json.GetMember(snapshot, i);
    }
    r
  }
}
