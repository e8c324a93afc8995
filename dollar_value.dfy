/** The comparison widget: the current value of an indicator, compared with
    its value on a chosen date or with its average over a chosen year. The
    pure decisions (direction, difference, percentage, validation, the
    indicator-key filter, the unit label) are functions; the component's
    state and its handlers are the class `Widget`. */
module DollarValue {
  import opened Common
  import opened Strings
  import Json
  import opened Api

  /** The earliest year the year comparison accepts. */
  const MinYear := 2000
  /** The unit label shown for Chilean pesos and when no unit is known. */
  const PesoCode := "CLP"

  /** The direction of a comparison: `'increased'`, `'decreased'` or `'unchanged'`. */
  datatype Direction = Increased | Decreased | Unchanged

  /** What `compareValues` stores in `compareResult`, before `toFixed`. */
  datatype ComparisonResult = ComparisonResult(status: Direction, difference: real, percentage: Num)

  /** `comparisonType`: `'date'` or `'year'`. */
  datatype ComparisonType = DateMode | YearMode

  /** The messages `compareError` can hold, one tag per message. */
  datatype CompareError =
    | WeekendDate          // the chosen date is a Saturday or a Sunday
    | YearOutOfRange       // the year lies outside [2000, current year]
    | NoData               // the provider has no (non-zero) value for the date or year
    | MissingCurrentValue  // there is no current value to compare with
    | ProcessingFailed     // `compareValues` threw
    | RequestTimedOut      // the 60 s / 90 s race was lost
    | RequestNotFound      // the provider answered 404
    | RequestFailed        // any other rejection

  /** What one fetched comparison leaves behind: the reference data it stores
      (`historicalData` or `yearData`), the result and the error. */
  datatype Outcome<R> = Outcome(reference: Option<R>, result: Option<ComparisonResult>, error: Option<CompareError>)

  /** What the comparison area shows (`renderComparisonResult`). */
  datatype Shown =
    | ShowsError(error: CompareError)      // the stored `compareError`
    | ShowsNoValidData                     // "No se pudieron obtener datos válidos": no indicator name to show
    | ShowsResult(result: ComparisonResult)
    | ShowsNothing

  // ---------------------------------------------------------------------
  // compareValues

  /** The branches of `compareValues` once both values are known: the
      direction, the non-negative difference, and that difference as a
      percentage of the historical value (no finite number when the
      historical value is 0). */
  function Compare(current: real, historical: real): (r: ComparisonResult)
    ensures r.status == Increased <==> current > historical
    ensures r.status == Decreased <==> current < historical
    ensures r.status == Unchanged <==> current == historical
    ensures r.difference >= 0.0
    ensures r.status == Increased ==> historical + r.difference == current
    ensures r.status == Decreased ==> historical - r.difference == current
    ensures r.status == Unchanged ==> r.difference == 0.0 && r.percentage == Finite(0.0)
    ensures r.status != Unchanged ==> r.percentage == Percent(r.difference, historical)
  {
    if current > historical then
      ComparisonResult(Increased, current - historical, Percent(current - historical, historical))
    else if current < historical then
      ComparisonResult(Decreased, historical - current, Percent(historical - current, historical))
    else
      ComparisonResult(Unchanged, 0.0, Finite(0.0))
  }

  /** The signed change a result describes: `+difference`, `-difference` or 0. */
  function SignedChange(r: ComparisonResult): real
  {
    match r.status
    case Increased => r.difference
    case Decreased => -r.difference
    case Unchanged => 0.0
  }

  function Opposite(d: Direction): Direction
  {
    match d
    case Increased => Decreased
    case Decreased => Increased
    case Unchanged => Unchanged
  }

  /** A result determines the current value from the historical one, and the
      difference is the absolute difference of the two values. */
  lemma CompareRestoresCurrent(current: real, historical: real)
    ensures historical + SignedChange(Compare(current, historical)) == current
    ensures Compare(current, historical).difference == Abs(current - historical)
  {
  }

  /** Swapping the two values flips the direction and keeps the difference. */
  lemma CompareSwapped(a: real, b: real)
    ensures Compare(b, a).status == Opposite(Compare(a, b).status)
    ensures Compare(b, a).difference == Compare(a, b).difference
  {
  }

  /** When the historical value is not 0, the percentage is finite and is
      the difference relative to the historical value, times 100. */
  lemma ComparePercentage(current: real, historical: real)
    requires historical != 0.0
    ensures Compare(current, historical).percentage.Finite?
    ensures Compare(current, historical).percentage.value * historical == Compare(current, historical).difference * 100.0
  {
  }

  /** `indicatorData.valor` when it is truthy: the current value, or None
      when there is no indicator data, it has no numeric `valor`, or the
      `valor` is 0. */
  function CurrentValor(indicatorData: Option<Json.Value>): (r: Option<real>)
    ensures r.Some? <==>
              indicatorData.Some? && indicatorData.value.Object? &&
              (exists n :: Json.Get(indicatorData.value.members, "valor") == Some(Json.Number(n)) && n != 0.0)
    ensures r.Some? ==> r.value != 0.0 && Json.Get(indicatorData.value.members, "valor") == Some(Json.Number(r.value))
  {
    match indicatorData
    case Some(Object(members)) =>
      (match Json.Get(members, "valor")
       case Some(Number(n)) => if n != 0.0 then Some(n) else None
       case _ => None)
    case _ => None
  }

  /** `compareValues(historicalValue)`: None where it throws (no current
      data, a falsy current `valor`, or no historical value), and otherwise
      the comparison of the current value with the historical one. */
  function CompareValues(indicatorData: Option<Json.Value>, historicalValue: Option<real>): (r: Option<ComparisonResult>)
    ensures r.None? <==> CurrentValor(indicatorData).None? || historicalValue.None?
    ensures r.Some? ==> r.value == Compare(CurrentValor(indicatorData).value, historicalValue.value)
  {
    match (CurrentValor(indicatorData), historicalValue)
    case (Some(c), Some(h)) => Some(Compare(c, h))
    case _ => None
  }

  // ---------------------------------------------------------------------
  // Validation and the yearly reference

  /** `dayOfWeek === 0 || dayOfWeek === 6`: Sunday or Saturday. */
  predicate IsWeekend(weekday: int)
  {
    weekday == 0 || weekday == 6
  }

  /** The year check of `compareByYear`: not below 2000 and not after the current year. */
  predicate YearInRange(year: int, currentYear: int)
  {
    !(year < MinYear || year > currentYear)
  }

  /** The reference value of a year comparison: the average `valor` of the
      year's series, which the caller has checked to be non-empty. */
  function YearlyMean(serie: seq<SeriesPoint>): real
    requires serie != []
  {
    Mean(Valores(serie))
  }

  /** The yearly mean lies between the year's lowest and highest value. */
  lemma YearlyMeanWithinSeries(serie: seq<SeriesPoint>)
    requires serie != []
    ensures exists i :: 0 <= i < |serie| && serie[i].valor <= YearlyMean(serie)
    ensures exists j :: 0 <= j < |serie| && YearlyMean(serie) <= serie[j].valor
  {
    var vs := Valores(serie);
    MeanBounds(vs);
    var lo :| 0 <= lo < |vs| && vs[lo] == MinOf(vs);
    var hi :| 0 <= hi < |vs| && vs[hi] == MaxOf(vs);
    assert serie[lo].valor <= YearlyMean(serie);
    assert YearlyMean(serie) <= serie[hi].valor;
  }

  /** A year at a constant value averages to that value. */
  lemma YearlyMeanOfFlatYear(serie: seq<SeriesPoint>, c: real)
    requires serie != []
    requires forall i :: 0 <= i < |serie| ==> serie[i].valor == c
    ensures YearlyMean(serie) == c
  {
    MeanOfConstant(Valores(serie), c);
  }

  // ---------------------------------------------------------------------
  // The indicator-key filter of fetchIndicators

  /** `typeof v === 'object' && v !== null && 'codigo' in v`. Arrays are
      objects too, but never have a `codigo` key. */
  predicate IsIndicatorEntry(v: Json.Value)
  {
    v.Object? && Json.HasKey(v.members, "codigo")
  }

  /** `Object.keys(allData).filter(...)`: the keys of the entries that are
      indicators, in key order. */
  function AvailableIndicators(snapshot: seq<(string, Json.Value)>): (keys: seq<string>)
    ensures |keys| <= |snapshot|
    ensures forall k :: k in keys <==> exists i :: 0 <= i < |snapshot| && snapshot[i].0 == k && IsIndicatorEntry(snapshot[i].1)
  {
    if snapshot == [] then []
    else
      var rest := AvailableIndicators(snapshot[1..]);
      assert forall i :: 0 <= i < |snapshot| - 1 ==> snapshot[1..][i] == snapshot[i + 1];
      if IsIndicatorEntry(snapshot[0].1) then [snapshot[0].0] + rest else rest
  }

  /** The filter keeps the entries' order: the keys it yields appear in the
      snapshot in the same relative order. */
  lemma {:induction false} AvailableIndicatorsInOrder(snapshot: seq<(string, Json.Value)>)
    ensures IsSubsequence(AvailableIndicators(snapshot), Keys(snapshot))
  {
    if snapshot != [] {
      AvailableIndicatorsInOrder(snapshot[1..]);
      assert Keys(snapshot) == [snapshot[0].0] + Keys(snapshot[1..]);
      var rest := AvailableIndicators(snapshot[1..]);
      if IsIndicatorEntry(snapshot[0].1) {
        assert ([snapshot[0].0] + rest)[1..] == rest;
      } else {
        SubsequenceOfTail(rest, Keys(snapshot));
      }
    }
  }

  /** `Object.keys(obj)`. */
  function Keys(snapshot: seq<(string, Json.Value)>): (keys: seq<string>)
    ensures |keys| == |snapshot|
    ensures forall i :: 0 <= i < |snapshot| ==> keys[i] == snapshot[i].0
  {
    if snapshot == [] then [] else [snapshot[0].0] + Keys(snapshot[1..])
  }

  /** `a` can be obtained from `b` by deleting elements. */
  predicate IsSubsequence<T(==)>(a: seq<T>, b: seq<T>)
    decreases |b|
  {
    if a == [] then true
    else if b == [] then false
    else if a[0] == b[0] then IsSubsequence(a[1..], b[1..])
    else IsSubsequence(a, b[1..])
  }

  lemma SubsequenceOfTail<T>(a: seq<T>, b: seq<T>)
    requires b != [] && IsSubsequence(a, b[1..])
    ensures IsSubsequence(a, b)
    decreases |a| + |b|
  {
    if a != [] && a[0] == b[0] {
      assert IsSubsequence(a[1..], b[1..]) by {
        SubsequenceDropHead(a, b[1..]);
      }
    }
  }

  /** Dropping the first element of `a` keeps it a subsequence. */
  lemma SubsequenceDropHead<T>(a: seq<T>, b: seq<T>)
    requires a != [] && IsSubsequence(a, b)
    ensures IsSubsequence(a[1..], b)
    decreases |a| + |b|
  {
    if b != [] {
      if a[0] == b[0] {
        if a[1..] != [] {
          SubsequenceDropHead(a[1..], b[1..]);
          SubsequenceOfTail(a[1..], b);
        }
      } else {
        SubsequenceDropHead(a, b[1..]);
        SubsequenceOfTail(a[1..], b);
      }
    }
  }

  /** With distinct keys, a key is offered exactly when `allData[key]` is an indicator entry. */
  lemma AvailableIndicatorsByLookup(snapshot: seq<(string, Json.Value)>, key: string)
    requires Json.DistinctKeys(snapshot)
    ensures key in AvailableIndicators(snapshot) <==>
              Json.Get(snapshot, key).Some? && IsIndicatorEntry(Json.Get(snapshot, key).value)
  {
    if key in AvailableIndicators(snapshot) {
      var i :| 0 <= i < |snapshot| && snapshot[i].0 == key && IsIndicatorEntry(snapshot[i].1);
      Json.GetMember(snapshot, i);
    }
    if Json.Get(snapshot, key).Some? {
      var i :| 0 <= i < |snapshot| && snapshot[i] == (key, Json.Get(snapshot, key).value);
    }
  }

  // ---------------------------------------------------------------------
  // Unit labels

  /** `u.toLowerCase() === 'pesos' ? 'CLP' : u`. */
  function NormalizeUnit(u: string): string
  {
    if ToLower(u) == "pesos" then PesoCode else u
  }

  /** The label is "CLP" exactly for "CLP" itself and for any capitalisation of "pesos". */
  lemma NormalizeUnitCases(u: string)
    ensures NormalizeUnit(u) == PesoCode <==> u == PesoCode || ToLower(u) == "pesos"
    ensures NormalizeUnit(u) != PesoCode ==> NormalizeUnit(u) == u
  {
    if u == PesoCode {
      assert ToLower(u)[0] == 'c';
    }
  }

  /** Normalising a label twice gives the label once normalised. */
  lemma NormalizeUnitIdempotent(u: string)
    ensures NormalizeUnit(NormalizeUnit(u)) == NormalizeUnit(u)
  {
    NormalizeUnitCases(u);
    if NormalizeUnit(u) == PesoCode {
      NormalizeUnitCases(PesoCode);
    }
  }

  lemma NormalizeUnitExamples()
    ensures NormalizeUnit("Pesos") == PesoCode
    ensures NormalizeUnit("PESOS") == PesoCode
    ensures NormalizeUnit("Dólar") == "Dólar"
  {
    assert ToLower("Pesos") == "pesos";
    assert ToLower("PESOS") == "pesos";
    assert |ToLower("Dólar")| == 5 && ToLower("Dólar")[1] == 'ó';
  }

  /** The unit next to the current value: `unidad_medida`, with "pesos" in
      any capitalisation shown as "CLP"; an empty unit stays empty. */
  function CurrentUnit(unidadMedida: string): (r: string)
    ensures r == NormalizeUnit(unidadMedida)
  {
    if unidadMedida != "" && ToLower(unidadMedida) == "pesos" then PesoCode else unidadMedida
  }

  /** The unit next to the compared value: "CLP" unless the reference data
      carries a non-empty `unidad_medida`, which is then normalised. */
  function ComparisonUnit(unidadMedida: string): (r: string)
    ensures unidadMedida == "" ==> r == PesoCode
    ensures unidadMedida != "" ==> r == NormalizeUnit(unidadMedida)
  {
    if unidadMedida != "" then NormalizeUnit(unidadMedida) else PesoCode
  }

  // ---------------------------------------------------------------------
  // The two comparison flows, from the awaited response on

  /** The tag of the `catch` branch of a comparison whose request was rejected. */
  function RejectionError<T>(response: FetchOutcome<T>): (e: CompareError)
    requires !response.Fetched?
    ensures e == RequestTimedOut <==> response.TimedOut?
    ensures e == RequestNotFound <==> response.NotFound?
    ensures e == RequestFailed <==> response.Failed?
  {
    match response
    case TimedOut => RequestTimedOut
    case NotFound => RequestNotFound
    case Failed => RequestFailed
  }

  /** `compareByDate` after the request: the provider's point for the date
      becomes `historicalData` unless it is missing or has a falsy `valor`;
      the comparison then needs the current data. */
  function DateComparison(indicatorData: Option<Json.Value>, response: FetchOutcome<seq<SeriesPoint>>): (o: Outcome<SeriesPoint>)
    ensures o.result.Some? <==> o.error.None?
    ensures !response.Fetched? ==> o == Outcome(None, None, Some(RejectionError(response)))
    ensures response.Fetched? && (response.value == [] || response.value[0].valor == 0.0) ==> o == Outcome(None, None, Some(NoData))
    ensures response.Fetched? && response.value != [] && response.value[0].valor != 0.0 ==>
              o.reference == Some(response.value[0])
    ensures o.result.Some? ==> o.reference.Some?
    ensures o.reference.Some? ==> o.result == CompareValues(indicatorData, Some(o.reference.value.valor))
    ensures o.reference.Some? && o.result.None? ==>
              o.error == Some(if indicatorData.None? || !Json.Truthy(indicatorData.value) then MissingCurrentValue else ProcessingFailed)
  {
    match response
    case Fetched(serie) =>
      var data := GetHistoricalIndicatorValue(serie);
      if data.None? || data.value.valor == 0.0 then Outcome(None, None, Some(NoData))
      else if indicatorData.None? || !Json.Truthy(indicatorData.value) then Outcome(data, None, Some(MissingCurrentValue))
      else
        (match CompareValues(indicatorData, Some(data.value.valor))
         case Some(r) => Outcome(data, Some(r), None)
         case None => Outcome(data, None, Some(ProcessingFailed)))
    case _ => Outcome(None, None, Some(RejectionError(response)))
  }

  /** `compareByYear` after the request: a year with points becomes
      `yearData`, and its average is the reference value. */
  function YearComparison(indicatorData: Option<Json.Value>, response: FetchOutcome<YearResponse>): (o: Outcome<YearResponse>)
    ensures o.result.Some? <==> o.error.None?
    ensures !response.Fetched? ==> o == Outcome(None, None, Some(RejectionError(response)))
    ensures response.Fetched? && response.value.serie == [] ==> o == Outcome(None, None, Some(NoData))
    ensures response.Fetched? && response.value.serie != [] ==> o.reference == Some(response.value)
    ensures o.result.Some? ==> o.reference.Some?
    ensures o.reference.Some? ==> o.reference.value.serie != []
    ensures o.reference.Some? ==> o.result == CompareValues(indicatorData, Some(YearlyMean(o.reference.value.serie)))
    ensures o.reference.Some? && o.result.None? ==>
              o.error == Some(if indicatorData.None? || !Json.Truthy(indicatorData.value) then MissingCurrentValue else ProcessingFailed)
  {
    match response
    case Fetched(yearResponse) =>
      if yearResponse.serie == [] then Outcome(None, None, Some(NoData))
      else if indicatorData.None? || !Json.Truthy(indicatorData.value) then Outcome(Some(yearResponse), None, Some(MissingCurrentValue))
      else
        (match CompareValues(indicatorData, Some(YearlyMean(yearResponse.serie)))
         case Some(r) => Outcome(Some(yearResponse), Some(r), None)
         case None => Outcome(Some(yearResponse), None, Some(ProcessingFailed)))
    case _ => Outcome(None, None, Some(RejectionError(response)))
  }

  /** A successful date comparison reports the current value relative to the
      provider's value for the date: the direction and difference restore the
      current value from the historical one. */
  lemma DateComparisonRestoresCurrent(indicatorData: Option<Json.Value>, response: FetchOutcome<seq<SeriesPoint>>)
    requires DateComparison(indicatorData, response).result.Some?
    ensures response.Fetched? && response.value != []
    ensures CurrentValor(indicatorData).Some?
    ensures response.value[0].valor + SignedChange(DateComparison(indicatorData, response).result.value) == CurrentValor(indicatorData).value
    ensures DateComparison(indicatorData, response).result.value.percentage.Finite?
  {
    var o := DateComparison(indicatorData, response);
    CompareRestoresCurrent(CurrentValor(indicatorData).value, response.value[0].valor);
  }

  /** A successful year comparison reports the current value relative to the
      year's average, which lies within the year's values. */
  lemma YearComparisonRestoresCurrent(indicatorData: Option<Json.Value>, response: FetchOutcome<YearResponse>)
    requires YearComparison(indicatorData, response).result.Some?
    ensures response.Fetched? && response.value.serie != []
    ensures CurrentValor(indicatorData).Some?
    ensures YearlyMean(response.value.serie) + SignedChange(YearComparison(indicatorData, response).result.value) == CurrentValor(indicatorData).value
    ensures exists i :: 0 <= i < |response.value.serie| && response.value.serie[i].valor <= YearlyMean(response.value.serie)
    ensures exists j :: 0 <= j < |response.value.serie| && YearlyMean(response.value.serie) <= response.value.serie[j].valor
  {
    var o := YearComparison(indicatorData, response);
    CompareRestoresCurrent(CurrentValor(indicatorData).value, YearlyMean(response.value.serie));
    YearlyMeanWithinSeries(response.value.serie);
  }

  // ---------------------------------------------------------------------
  // The component

  /** The state of the `DollarValue` component: one field per `useState`.
      `error` stands for the non-null error message of the current value,
      and `selectedYear` holds the year input already read as a number
      (None for the empty input). */
  class Widget {
    var indicatorData: Option<Json.Value>
    var historicalData: Option<SeriesPoint>
    var selectedDate: string
    var selectedYear: Option<int>
    var compareResult: Option<ComparisonResult>
    var loading: bool
    var error: bool
    var comparing: bool
    var compareError: Option<CompareError>
    var availableIndicators: seq<string>
    var selectedIndicator: string
    var compareIndicator: string
    var comparisonType: ComparisonType
    var yearData: Option<YearResponse>

    /** The initial values of the `useState` calls. */
    constructor ()
      ensures indicatorData.None? && historicalData.None? && selectedDate == "" && selectedYear.None?
      ensures compareResult.None? && loading && !error && !comparing && compareError.None?
      ensures availableIndicators == [] && selectedIndicator == DefaultIndicator && compareIndicator == DefaultIndicator
      ensures comparisonType == DateMode && yearData.None?
      ensures Consistent()
    {
      indicatorData := None;
      historicalData := None;
      selectedDate := "";
      selectedYear := None;
      compareResult := None;
      loading := true;
      error := false;
      comparing := false;
      compareError := None;
      availableIndicators := [];
      selectedIndicator := DefaultIndicator;
      compareIndicator := DefaultIndicator;
      comparisonType := DateMode;
      yearData := None;
    }

    /** Between handlers: no comparison is under way, a result and an error
        are never both set, and a result comes with the reference data of
        the current comparison mode. */
    predicate Consistent()
      reads this
    {
      && !comparing
      && !(compareResult.Some? && compareError.Some?)
      && (compareResult.Some? && comparisonType == DateMode ==> historicalData.Some?)
      && (compareResult.Some? && comparisonType == YearMode ==> yearData.Some?)
    }

    /** `comparedIndicatorName` in `renderComparisonResult`: a provider
        point has no `nombre`, so in date mode it is the compared indicator
        upper-cased; in year mode the year's `nombre`, or that upper-cased
        indicator when the `nombre` is empty; and "" when the current mode
        has no reference data. */
    function ComparedIndicatorName(): (name: string)
      reads this
      ensures name == "" <==>
                !(comparisonType == DateMode && historicalData.Some? && compareIndicator != "") &&
                !(comparisonType == YearMode && yearData.Some? && (yearData.value.nombre != "" || compareIndicator != ""))
    {
      if comparisonType == DateMode && historicalData.Some? then ToUpper(compareIndicator)
      else if comparisonType == YearMode && yearData.Some? then
        (if yearData.value.nombre != "" then yearData.value.nombre else ToUpper(compareIndicator))
      else ""
    }

    /** `renderComparisonResult`: the error if there is one; nothing without
        reference data or a result; the "no valid data" error when there is
        no indicator name to show; otherwise the result. */
    function ShownComparison(): Shown
      reads this
    {
      if compareError.Some? then ShowsError(compareError.value)
      else if (historicalData.None? && yearData.None?) || compareResult.None? then ShowsNothing
      else if ComparedIndicatorName() == "" then ShowsNoValidData
      else ShowsResult(compareResult.value)
    }

    /** In a consistent state a stored error is always shown, and a stored
        result is shown exactly when there is an indicator name to show it
        with: in date mode a non-empty compared indicator, in year mode a
        non-empty `nombre` or compared indicator. Otherwise the "no valid
        data" error is shown instead. */
    lemma ConsistentShowsResult()
      requires Consistent()
      ensures compareError.Some? ==> ShownComparison() == ShowsError(compareError.value)
      ensures compareResult.Some? && comparisonType == DateMode ==>
                ShownComparison() == (if compareIndicator != "" then ShowsResult(compareResult.value) else ShowsNoValidData)
      ensures compareResult.Some? && comparisonType == YearMode ==>
                ShownComparison() == (if yearData.value.nombre != "" || compareIndicator != "" then ShowsResult(compareResult.value) else ShowsNoValidData)
    {
    }

    /** `resetComparisonData`: clears the seven comparison fields and nothing else. */
    method ResetComparisonData()
      modifies this`historicalData, this`yearData, this`compareResult, this`compareError,
               this`selectedDate, this`selectedYear, this`comparing
      ensures historicalData.None? && yearData.None? && compareResult.None? && compareError.None?
      ensures selectedDate == "" && selectedYear.None? && !comparing
      ensures Consistent()
    {
      historicalData := None;
      yearData := None;
      compareResult := None;
      compareError := None;
      selectedDate := "";
      selectedYear := None;
      comparing := false;
    }

    /** `handleDateChange`: stores the date and clears the date comparison's
        data, result and error; the year fields stay as they are. */
    method HandleDateChange(date: string)
      modifies this`selectedDate, this`historicalData, this`compareResult, this`compareError
      ensures selectedDate == date
      ensures historicalData.None? && compareResult.None? && compareError.None?
      ensures old(!comparing) ==> Consistent()
    {
      selectedDate := date;
      historicalData := None;
      compareResult := None;
      compareError := None;
    }

    /** `handleYearChange`: stores the year and clears the year comparison's
        data, result and error; the date fields stay as they are. */
    method HandleYearChange(year: Option<int>)
      modifies this`selectedYear, this`yearData, this`compareResult, this`compareError
      ensures selectedYear == year
      ensures yearData.None? && compareResult.None? && compareError.None?
      ensures old(!comparing) ==> Consistent()
    {
      selectedYear := year;
      yearData := None;
      compareResult := None;
      compareError := None;
    }

    /** `handleCompareIndicatorChange`: a new indicator to compare, with the comparison reset. */
    method HandleCompareIndicatorChange(indicator: string)
      modifies this`compareIndicator, this`historicalData, this`yearData, this`compareResult,
               this`compareError, this`selectedDate, this`selectedYear, this`comparing
      ensures compareIndicator == indicator
      ensures historicalData.None? && yearData.None? && compareResult.None? && compareError.None?
      ensures selectedDate == "" && selectedYear.None? && !comparing
      ensures Consistent()
    {
      compareIndicator := indicator;
      ResetComparisonData();
    }

    /** `handleComparisonTypeChange`: a new comparison mode, with the comparison reset. */
    method HandleComparisonTypeChange(t: ComparisonType)
      modifies this`comparisonType, this`historicalData, this`yearData, this`compareResult,
               this`compareError, this`selectedDate, this`selectedYear, this`comparing
      ensures comparisonType == t
      ensures historicalData.None? && yearData.None? && compareResult.None? && compareError.None?
      ensures selectedDate == "" && selectedYear.None? && !comparing
      ensures Consistent()
    {
      comparisonType := t;
      ResetComparisonData();
    }

    /** `fetchIndicators`, given the awaited snapshot of all indicators: on
        success the indicator keys are offered; a rejection changes nothing. */
    method FetchIndicators(response: FetchOutcome<seq<(string, Json.Value)>>)
      modifies this`availableIndicators
      ensures response.Fetched? ==> availableIndicators == AvailableIndicators(response.value)
      ensures !response.Fetched? ==> availableIndicators == old(availableIndicators)
    {
      if response.Fetched? {
        availableIndicators := AvailableIndicators(response.value);
      }
    }

    /** `fetchIndicatorValue`, given the awaited snapshot the service reads
        `data[selectedIndicator]` from: on success the entry (or None when
        the key is absent) becomes the current data; on failure the error is
        set and the previous data stays. */
    method FetchIndicatorValue(response: FetchOutcome<seq<(string, Json.Value)>>)
      modifies this`loading, this`error, this`indicatorData
      ensures !loading
      ensures error <==> !response.Fetched?
      ensures response.Fetched? ==> indicatorData == GetIndicatorValue(response.value, selectedIndicator)
      ensures !response.Fetched? ==> indicatorData == old(indicatorData)
    {
      loading := true;
      error := false;
      if response.Fetched? {
        indicatorData := GetIndicatorValue(response.value, selectedIndicator);
        loading := false;
      } else {
        error := true;
        loading := false;
      }
    }

    /** The effects that run when `selectedIndicator` takes a new value:
        for a non-empty indicator, its value is fetched and the comparison
        reset; in every case the compared indicator follows it. */
    method SelectedIndicatorEffects(response: FetchOutcome<seq<(string, Json.Value)>>)
      modifies this`loading, this`error, this`indicatorData, this`compareIndicator,
               this`historicalData, this`yearData, this`compareResult, this`compareError,
               this`selectedDate, this`selectedYear, this`comparing
      ensures compareIndicator == selectedIndicator
      ensures selectedIndicator != "" ==>
                && !loading && (error <==> !response.Fetched?)
                && (response.Fetched? ==> indicatorData == GetIndicatorValue(response.value, selectedIndicator))
                && (!response.Fetched? ==> indicatorData == old(indicatorData))
                && historicalData.None? && yearData.None? && compareResult.None? && compareError.None?
                && selectedDate == "" && selectedYear.None? && !comparing
      ensures selectedIndicator == "" ==>
                && loading == old(loading) && error == old(error) && indicatorData == old(indicatorData)
                && historicalData == old(historicalData) && yearData == old(yearData)
                && compareResult == old(compareResult) && compareError == old(compareError)
                && selectedDate == old(selectedDate) && selectedYear == old(selectedYear) && comparing == old(comparing)
    {
      if selectedIndicator != "" {
        FetchIndicatorValue(response);
        ResetComparisonData();
      }
      compareIndicator := selectedIndicator;
    }

    /** Mounting: the indicator list is fetched, and the effects of the
        initial `selectedIndicator` run. */
    method Mount(allResponse: FetchOutcome<seq<(string, Json.Value)>>, valueResponse: FetchOutcome<seq<(string, Json.Value)>>)
      requires selectedIndicator == DefaultIndicator
      modifies this
      ensures selectedIndicator == DefaultIndicator && compareIndicator == DefaultIndicator
      ensures allResponse.Fetched? ==> availableIndicators == AvailableIndicators(allResponse.value)
      ensures !allResponse.Fetched? ==> availableIndicators == old(availableIndicators)
      ensures !loading && (error <==> !valueResponse.Fetched?)
      ensures valueResponse.Fetched? ==> indicatorData == GetIndicatorValue(valueResponse.value, DefaultIndicator)
      ensures !valueResponse.Fetched? ==> indicatorData == old(indicatorData)
      ensures historicalData.None? && yearData.None? && compareResult.None? && compareError.None?
      ensures selectedDate == "" && selectedYear.None? && comparisonType == old(comparisonType)
      ensures Consistent()
    {
      FetchIndicators(allResponse);
      SelectedIndicatorEffects(valueResponse);
    }

    /** `handleIndicatorChange`: selecting a different indicator runs the
        effects that depend on it; selecting the same one changes nothing,
        as React does not re-run an effect whose dependency is unchanged. */
    method HandleIndicatorChange(indicator: string, response: FetchOutcome<seq<(string, Json.Value)>>)
      modifies this`selectedIndicator, this`loading, this`error, this`indicatorData, this`compareIndicator,
               this`historicalData, this`yearData, this`compareResult, this`compareError,
               this`selectedDate, this`selectedYear, this`comparing
      ensures selectedIndicator == indicator
      ensures indicator == old(selectedIndicator) ==>
                && compareIndicator == old(compareIndicator) && indicatorData == old(indicatorData)
                && loading == old(loading) && error == old(error)
                && compareResult == old(compareResult) && compareError == old(compareError)
                && historicalData == old(historicalData) && yearData == old(yearData)
                && selectedDate == old(selectedDate) && selectedYear == old(selectedYear) && comparing == old(comparing)
      ensures indicator != old(selectedIndicator) ==> compareIndicator == indicator
      ensures indicator != old(selectedIndicator) && indicator != "" ==>
                && !loading && (error <==> !response.Fetched?)
                && (response.Fetched? ==> indicatorData == GetIndicatorValue(response.value, indicator))
                && (!response.Fetched? ==> indicatorData == old(indicatorData))
                && historicalData.None? && yearData.None? && compareResult.None? && compareError.None?
                && selectedDate == "" && selectedYear.None? && !comparing
      ensures indicator != old(selectedIndicator) && indicator == "" ==>
                && indicatorData == old(indicatorData) && loading == old(loading) && error == old(error)
                && compareResult == old(compareResult) && compareError == old(compareError)
                && historicalData == old(historicalData) && yearData == old(yearData)
                && selectedDate == old(selectedDate) && selectedYear == old(selectedYear) && comparing == old(comparing)
      ensures old(Consistent()) ==> Consistent()
    {
      if indicator != selectedIndicator {
        selectedIndicator := indicator;
        SelectedIndicatorEffects(response);
      }
    }

    /** `compareByDate`, given the weekday of the chosen date and the awaited
        response. It returns the request it issued, None when it stopped
        before fetching: for an empty date (nothing changes) and for a weekend
        date (the weekend error is set and `comparing` is false). */
    method CompareByDate(weekday: int, response: FetchOutcome<seq<SeriesPoint>>) returns (request: Option<Request>)
      modifies this`historicalData, this`compareResult, this`comparing, this`compareError
      ensures selectedDate == "" ==>
                request.None? && historicalData == old(historicalData) && compareResult == old(compareResult)
                && comparing == old(comparing) && compareError == old(compareError)
      ensures selectedDate != "" && IsWeekend(weekday) ==>
                request.None? && historicalData.None? && compareResult.None?
                && !comparing && compareError == Some(WeekendDate)
      ensures selectedDate != "" && !IsWeekend(weekday) ==>
                && request == Some(HistoricalValueRequest(compareIndicator, selectedDate))
                && !comparing
                && historicalData == DateComparison(indicatorData, response).reference
                && compareResult == DateComparison(indicatorData, response).result
                && compareError == DateComparison(indicatorData, response).error
    {
      if selectedDate == "" {
        return None;
      }
      historicalData := None;
      compareResult := None;
      comparing := true;
      compareError := None;
      if IsWeekend(weekday) {
        compareError := Some(WeekendDate);
        comparing := false;
        return None;
      }
      request := Some(HistoricalValueRequest(compareIndicator, selectedDate));
      var o := DateComparison(indicatorData, response);
      historicalData := o.reference;
      compareResult := o.result;
      compareError := o.error;
      comparing := false;
    }

    /** `compareByYear`, given the current year and the awaited response. It
        returns the request it issued, None when it stopped before fetching:
        for an empty year (nothing changes) and for a year outside
        [2000, currentYear] (only the error is set; `comparing` is untouched). */
    method CompareByYear(currentYear: int, response: FetchOutcome<YearResponse>) returns (request: Option<Request>)
      modifies this`yearData, this`compareResult, this`comparing, this`compareError
      ensures selectedYear.None? ==>
                request.None? && yearData == old(yearData) && compareResult == old(compareResult)
                && comparing == old(comparing) && compareError == old(compareError)
      ensures selectedYear.Some? && !YearInRange(selectedYear.value, currentYear) ==>
                request.None? && compareError == Some(YearOutOfRange)
                && yearData == old(yearData) && compareResult == old(compareResult) && comparing == old(comparing)
      ensures selectedYear.Some? && YearInRange(selectedYear.value, currentYear) ==>
                && request == Some(ByYear(compareIndicator, selectedYear.value))
                && !comparing
                && yearData == YearComparison(indicatorData, response).reference
                && compareResult == YearComparison(indicatorData, response).result
                && compareError == YearComparison(indicatorData, response).error
    {
      if selectedYear.None? {
        return None;
      }
      var year := selectedYear.value;
      if !YearInRange(year, currentYear) {
        compareError := Some(YearOutOfRange);
        return None;
      }
      yearData := None;
      compareResult := None;
      comparing := true;
      compareError := None;
      request := Some(ByYear(compareIndicator, year));
      var o := YearComparison(indicatorData, response);
      yearData := o.reference;
      compareResult := o.result;
      compareError := o.error;
      comparing := false;
    }

    /** `handleCompare`: clears the previous result and runs the comparison
        of the current mode. It keeps the widget consistent, and a comparison
        that reached the provider always ends showing a result or an error. */
    method HandleCompare(weekday: int, currentYear: int,
                         dateResponse: FetchOutcome<seq<SeriesPoint>>, yearResponse: FetchOutcome<YearResponse>)
      returns (request: Option<Request>)
      requires Consistent()
      modifies this`historicalData, this`yearData, this`compareResult, this`comparing, this`compareError
      ensures Consistent()
      ensures comparisonType == DateMode ==> yearData == old(yearData)
      ensures comparisonType == YearMode ==> historicalData == old(historicalData)
      ensures comparisonType == DateMode && selectedDate == "" ==>
                request.None? && compareResult.None?
                && historicalData == old(historicalData) && compareError == old(compareError)
      ensures comparisonType == DateMode && selectedDate != "" && IsWeekend(weekday) ==>
                request.None? && compareResult.None? && historicalData.None? && compareError == Some(WeekendDate)
      ensures comparisonType == DateMode && selectedDate != "" && !IsWeekend(weekday) ==>
                && request == Some(HistoricalValueRequest(compareIndicator, selectedDate))
                && historicalData == DateComparison(indicatorData, dateResponse).reference
                && compareResult == DateComparison(indicatorData, dateResponse).result
                && compareError == DateComparison(indicatorData, dateResponse).error
      ensures comparisonType == YearMode && selectedYear.None? ==>
                request.None? && compareResult.None?
                && yearData == old(yearData) && compareError == old(compareError)
      ensures comparisonType == YearMode && selectedYear.Some? && !YearInRange(selectedYear.value, currentYear) ==>
                request.None? && compareResult.None? && yearData == old(yearData) && compareError == Some(YearOutOfRange)
      ensures comparisonType == YearMode && selectedYear.Some? && YearInRange(selectedYear.value, currentYear) ==>
                && request == Some(ByYear(compareIndicator, selectedYear.value))
                && yearData == YearComparison(indicatorData, yearResponse).reference
                && compareResult == YearComparison(indicatorData, yearResponse).result
                && compareError == YearComparison(indicatorData, yearResponse).error
      ensures request.Some? ==> ShownComparison() != ShowsNothing
    {
      compareResult := None;
      if comparisonType == DateMode {
        request := CompareByDate(weekday, dateResponse);
      } else {
        request := CompareByYear(currentYear, yearResponse);
      }
    }
  }
}
