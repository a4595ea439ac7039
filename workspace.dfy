/**
 * The page of src/app/page.tsx: the loaded records and the loaded flag, with the handlers
 * for loading the sample, resetting and uploading a file.
 *
 * Reading the chosen file is not modelled: the upload handler is given the file's text, or
 * `None` when no file was chosen.
 */
module Workspace {
  import opened Options
  import opened Records
  import opened CsvParser
  import opened Utils

  /** The seventeen built-in records of src/lib/sampleData.ts. */
  const SampleSalesData: seq<SalesData> := [
    SalesData("1", "2024-01-05", "ProDesk X1", "North", 48000.0, 120.0, "Hardware"),
    SalesData("2", "2024-01-12", "CloudSync Pro", "South", 102000.0, 340.0, "Software"),
    SalesData("3", "2024-01-20", "ProDesk X1", "East", 38000.0, 95.0, "Hardware"),
    SalesData("4", "2024-02-03", "ErgoChair V2", "North", 63000.0, 210.0, "Furniture"),
    SalesData("5", "2024-02-14", "CloudSync Pro", "West", 124500.0, 415.0, "Software"),
    SalesData("6", "2024-02-22", "DataVault Plus", "South", 44000.0, 88.0, "Software"),
    SalesData("7", "2024-03-01", "ProDesk X1", "West", 58000.0, 145.0, "Hardware"),
    SalesData("8", "2024-03-10", "ErgoChair V2", "East", 52500.0, 175.0, "Furniture"),
    SalesData("9", "2024-03-18", "CloudSync Pro", "North", 156000.0, 520.0, "Software"),
    SalesData("10", "2024-04-04", "DataVault Plus", "West", 51000.0, 102.0, "Software"),
    SalesData("11", "2024-04-15", "ProDesk X1", "South", 35200.0, 88.0, "Hardware"),
    SalesData("12", "2024-04-28", "ErgoChair V2", "North", 72000.0, 240.0, "Furniture"),
    SalesData("13", "2024-05-06", "CloudSync Pro", "East", 183000.0, 610.0, "Software"),
    SalesData("14", "2024-05-19", "ProDesk X1", "North", 64000.0, 160.0, "Hardware"),
    SalesData("15", "2024-06-02", "DataVault Plus", "North", 65000.0, 130.0, "Software"),
    SalesData("16", "2024-06-14", "ErgoChair V2", "South", 58500.0, 195.0, "Furniture"),
    SalesData("17", "2024-06-25", "CloudSync Pro", "West", 144000.0, 480.0, "Software")
  ]

  /** What an upload of `file` leaves as the records: the parsed records, unless there are none. */
  function AfterUpload(rows: seq<SalesData>, file: Option<string>): (r: seq<SalesData>)
  {
    if file.Some? && |ParseCSV(file.value)| > 0 then ParseCSV(file.value) else rows
  }

  /** An upload never empties the records, and keeps them exactly when the file yields no record. */
  lemma UploadKeepsOrReplaces(rows: seq<SalesData>, file: Option<string>)
    ensures file.None? ==> AfterUpload(rows, file) == rows
    ensures file.Some? && ParseCSV(file.value) == [] ==> AfterUpload(rows, file) == rows
    ensures file.Some? && ParseCSV(file.value) != [] ==> AfterUpload(rows, file) == ParseCSV(file.value)
    ensures |rows| > 0 ==> |AfterUpload(rows, file)| > 0
  {
  }

  /** A file whose text has fewer than two non-blank lines leaves the records as they were. */
  lemma ShortFileKeepsRecords(rows: seq<SalesData>, text: string)
    requires |NonBlankLines(text)| < 2
    ensures AfterUpload(rows, Some(text)) == rows
  {
    ShortInputGivesNoRecords(text);
  }

  /** The page's state, updated in place by its handlers. */
  class Home {
    var salesRows: seq<SalesData>
    var isLoaded: bool

    /** The flag says whether there are records. */
    predicate Valid()
      reads this
    {
      isLoaded <==> |salesRows| > 0
    }

    /** The digest `buildDataSummary` makes of the current records on every render. */
    function Summary(): (s: DataSummary)
      reads this
      ensures s.dataCount == |salesRows|
    {
      BuildDataSummary(salesRows)
    }

    constructor()
      ensures Valid() && salesRows == [] && !isLoaded
    {
      salesRows := [];
      isLoaded := false;
    }

    /** `handleLoadSample` */
    method LoadSample()
      modifies this
      ensures Valid() && salesRows == SampleSalesData && isLoaded
    {
      salesRows := SampleSalesData;
      isLoaded := true;
    }

    /** `handleReset` */
    method Reset()
      modifies this
      ensures Valid() && salesRows == [] && !isLoaded
    {
      salesRows := [];
      isLoaded := false;
    }

    /** `handleFileUpload`, given the chosen file's text. */
    method Upload(file: Option<string>)
      requires Valid()
      modifies this
      ensures Valid()
      ensures salesRows == AfterUpload(old(salesRows), file)
      ensures isLoaded == (old(isLoaded) || (file.Some? && |ParseCSV(file.value)| > 0))
    {
      if file.None? {
        return;
      }
      var rows := ParseCSV(file.value);
      if |rows| > 0 {
        salesRows := rows;
        isLoaded := true;
      }
    }
  }
}
