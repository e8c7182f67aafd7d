/** The expected values of the transform library's unit tests, stated of the model. */
module EventUtilsExamples {
  import opened Wrappers
  import opened Strings
  import opened EventUtils

  lemma ScoreColorExamples()
    ensures ScoreColor(5) == "#10b981" && ScoreColor(8) == "#10b981"
    ensures ScoreColor(1) == "#84cc16" && ScoreColor(4) == "#84cc16"
    ensures ScoreColor(0) == "#6b7280"
    ensures ScoreColor(-1) == "#f59e0b" && ScoreColor(-3) == "#f59e0b"
    ensures ScoreColor(-4) == "#ef4444" && ScoreColor(-8) == "#ef4444"
  {
  }

  lemma FormatScoreExamples()
    ensures FormatScore(1) == "+1" && FormatScore(8) == "+8"
    ensures FormatScore(0) == "0"
    ensures FormatScore(-1) == "-1" && FormatScore(-8) == "-8"
  {
  }

  /** Three events whose dates strictly increase, listed last-first-second, come out in date order. */
  lemma SortThree(a: Event, b: Event, c: Event)
    requires LexLe(a.date, b.date) && !LexLe(c.date, a.date) && !LexLe(c.date, b.date)
    ensures SortByDate([c, a, b]) == [a, b, c]
  {
    var one, two, three := [b], [a, b], [c, a, b];
    assert one[1..] == [] && two[1..] == one && three[1..] == two;
    assert SortByDate(one) == InsertByDate(b, []) == [b];
    assert SortByDate(two) == InsertByDate(a, one) == two;
    assert InsertByDate(c, one) == [b] + InsertByDate(c, []) == [b, c];
    assert InsertByDate(c, two) == [a] + InsertByDate(c, one);
    assert SortByDate(three) == InsertByDate(c, two);
  }

  lemma SortByDateExample()
    ensures
      var march := Event(1, "March", 0, "2024-03-01", false, "2024-03-01");
      var january := Event(2, "January", 0, "2024-01-01", false, "2024-01-01");
      var february := Event(3, "February", 0, "2024-02-01", false, "2024-02-01");
      SortByDate([march, january, february]) == [january, february, march]
  {
    var march := Event(1, "March", 0, "2024-03-01", false, "2024-03-01");
    var january := Event(2, "January", 0, "2024-01-01", false, "2024-01-01");
    var february := Event(3, "February", 0, "2024-02-01", false, "2024-02-01");
    var year := "2024-0";
    assert january.date == year + "1-01" && february.date == year + "2-01" && march.date == year + "3-01";
    LexLeAppend(year, "1-01", year, "2-01");
    LexLeAppend(year, "3-01", year, "1-01");
    LexLeAppend(year, "3-01", year, "2-01");
    SortThree(january, february, march);
  }

  lemma CreateEventObjectExamples(now: int)
    ensures CreateEventObject(Draft("New Event", 5, "2024-01-15", false), None, [], now).id == now
    ensures CreateEventObject(Draft("New Event", 5, "2024-01-15", false), None, [], now).displayDate == "2024-01-15"
    ensures CreateEventObject(Draft("Monthly Event", 0, "2024-01-15", true), None, [], now).displayDate == "2024-01"
    ensures CreateEventObject(Draft("Updated Event", 3, "2024-01-15", false), Some(0),
                              [Event(123, "Original Event", 0, "", false, "")], now).id == 123
  {
  }

  /** The four-key element of most import tests, with a given score. */
  function TestRecord(score: Json): map<string, Json>
  {
    map["id" := JNumber(1.0), "description" := JString("Test"), "score" := score, "date" := JString("2024-01-01")]
  }

  /** The element of the first import test: an exported event with all six keys. */
  function ExportedTestRecord(): map<string, Json>
  {
    map["id" := JNumber(1.0), "description" := JString("Valid Event"), "score" := JNumber(5.0),
        "date" := JString("2024-01-01"), "displayDate" := JString("2024-01-01"), "monthOnly" := JBool(false)]
  }

  lemma ValidateImportedDataAccepts()
    ensures ValidateImportedData(JArray([JObject(ExportedTestRecord())])) == Returned(true)
    ensures ValidateImportedData(JArray([JObject(TestRecord(JNumber(8.0)))])) == Returned(true)
    ensures ValidateImportedData(JArray([JObject(TestRecord(JNumber(-8.0)))])) == Returned(true)
    ensures ValidateImportedData(JArray([JObject(TestRecord(JNumber(3.5)))])) == Returned(true)
    ensures ValidateImportedData(JArray([])) == Returned(true)
  {
  }

  lemma ValidateImportedDataRejectsScores()
    ensures ValidateImportedData(JArray([JObject(TestRecord(JNumber(9.0)))])) == Returned(false)
    ensures ValidateImportedData(JArray([JObject(TestRecord(JNumber(-9.0)))])) == Returned(false)
    ensures ValidateImportedData(JArray([JObject(TestRecord(JString("5")))])) == Returned(false)
  {
  }

  lemma ValidateImportedDataRejectsShapes()
    ensures ValidateImportedData(JArray([JObject(TestRecord(JNumber(5.0)) - {"id"})])) == Returned(false)
    ensures ValidateImportedData(JArray([JObject(TestRecord(JNumber(5.0)) - {"description"})])) == Returned(false)
    ensures ValidateImportedData(JArray([JObject(TestRecord(JNumber(5.0)) - {"score"})])) == Returned(false)
    ensures ValidateImportedData(JArray([JObject(TestRecord(JNumber(5.0)) - {"date"})])) == Returned(false)
    ensures ValidateImportedData(JObject(map[])) == Returned(false)
    ensures ValidateImportedData(JString("string")) == Returned(false)
    ensures ValidateImportedData(JNull) == Returned(false)
    ensures ValidateImportedData(JArray([JNull])) == ThrewTypeError
  {
  }
}
