/** The backend's air-quality endpoints (backend/app.py): fixed readings and
    five-day histories for ten Indian cities, answered from in-memory tables
    with a default reading of 40 for any other city. */
module AqiService {
  import opened Common

  /** The reading reported for a city missing from the tables. */
  const DefaultAqi := 40

  /** The station index every reading carries. */
  const StationIdx := 1451

  /** The cities of AQI_DATA, in the order the dictionary lists them. */
  const Cities: seq<string> :=
    ["Delhi", "Mumbai", "Bangalore", "Chennai", "Kolkata",
     "Hyderabad", "Pune", "Ahmedabad", "Jaipur", "Lucknow"]

  /** AQI_DATA: the current reading per city. */
  const AqiData: map<string, int> := map[
    "Delhi" := 180, "Mumbai" := 90, "Bangalore" := 45, "Chennai" := 120, "Kolkata" := 150,
    "Hyderabad" := 60, "Pune" := 70, "Ahmedabad" := 110, "Jaipur" := 130, "Lucknow" := 140]

  /** AQI_HISTORY: five past readings per city. */
  const AqiHistory: map<string, seq<int>> := map[
    "Delhi" := [180, 175, 190, 200, 170],
    "Mumbai" := [90, 85, 95, 100, 80],
    "Bangalore" := [45, 40, 50, 55, 35],
    "Chennai" := [120, 115, 125, 130, 110],
    "Kolkata" := [150, 145, 155, 160, 140],
    "Hyderabad" := [60, 55, 65, 70, 50],
    "Pune" := [70, 65, 75, 80, 60],
    "Ahmedabad" := [110, 105, 115, 120, 100],
    "Jaipur" := [130, 125, 135, 140, 120],
    "Lucknow" := [140, 135, 145, 150, 130]]

  /** The labels every history is sent with. */
  const HistoryLabels: seq<string> := ["Day 5", "Day 4", "Day 3", "Day 2", "Day 1"]

  /** The `data` object of a reading; its `attributions` list is always empty. */
  datatype Reading = Reading(aqi: int, idx: int)

  /** The `data` object of a history reply. */
  datatype History = History(history: seq<int>, labels: seq<string>)

  /** GET /api/cities: the keys of AQI_DATA. */
  function GetCities(): (r: seq<string>)
    ensures forall c :: c in r <==> c in AqiData
    ensures NoDuplicates(r)
    ensures r == Cities
  {
    Cities
  }

  /** GET /api/aqi. */
  function GetAqi(city: string): (r: Response<Reading>)
    ensures r.status == StatusBadRequest <==> city == ""
    ensures r.status == StatusOk <==> city != ""
    ensures r.status == StatusBadRequest ==> r.body.None?
    ensures r.status == StatusOk ==> r.body.Some? && r.body.value.idx == StationIdx
    ensures city != "" && city in AqiData ==> r.body == Some(Reading(AqiData[city], StationIdx))
    ensures city != "" && city !in AqiData ==> r.body == Some(Reading(DefaultAqi, StationIdx))
  {
    if city == "" then Response(StatusBadRequest, None)
    else Response(StatusOk, Some(Reading(if city in AqiData then AqiData[city] else DefaultAqi, StationIdx)))
  }

  /** GET /api/aqi-history. */
  function GetAqiHistory(city: string): (r: Response<History>)
    ensures r.status == StatusBadRequest <==> city == ""
    ensures r.status == StatusOk <==> city != ""
    ensures r.status == StatusBadRequest ==> r.body.None?
    ensures r.status == StatusOk ==>
              r.body.Some? && |r.body.value.history| == 5 && r.body.value.labels == HistoryLabels
    ensures city != "" && city in AqiHistory ==> r.body.value.history == AqiHistory[city]
    ensures city != "" && city !in AqiHistory ==> r.body.value.history == [40, 40, 40, 40, 40]
  {
    if city == "" then Response(StatusBadRequest, None)
    else
      var history := if city in AqiHistory then AqiHistory[city] else seq(5, _ => DefaultAqi);
      Response(StatusOk, Some(History(history, HistoryLabels)))
  }

  /** The two tables, and so the city list, name the same ten cities. */
  lemma TablesAgree()
    ensures forall c :: c in AqiData <==> c in AqiHistory
    ensures |Cities| == 10
  {
  }

  /** For every city, known or not, the current reading is the first
      entry of the history the other endpoint reports. */
  lemma CurrentIsHistoryHead(city: string)
    requires city != ""
    ensures GetAqi(city).body.value.aqi == GetAqiHistory(city).body.value.history[0]
  {
    if city in AqiData {
      assert city in Cities;
    }
  }

  /** Every reported reading, current or past, is positive and at most 200,
      so none of them reaches the two highest AQI categories. */
  lemma ReadingsBounded(city: string)
    requires city != ""
    ensures 0 < GetAqi(city).body.value.aqi <= 200
    ensures forall k :: 0 <= k < 5 ==> 0 < GetAqiHistory(city).body.value.history[k] <= 200
  {
    CurrentIsHistoryHead(city);
    if city in AqiHistory {
      HistoryBounded(city);
    }
  }

  /** The tabulated histories stay within (0, 200]. */
  lemma HistoryBounded(city: string)
    requires city in AqiHistory
    ensures forall k :: 0 <= k < 5 ==> 0 < AqiHistory[city][k] <= 200
  {
    assert city in Cities;
  }
}
