/**
 * Dataset fetching (`fetch_data_from_gcs`, whose lookup and error handling
 * are the same in final.py and main.py; main.py also opens its storage
 * client first, outside the try, which the chatbot session models): the category is lower-cased and looked up in a fixed table of
 * storage object names; an unknown key is answered with "Invalid category"
 * before the bucket is touched. The download and the CSV parse are the
 * parameter `bucket`, which maps an object name to a table or to the text of
 * the exception raised.
 */
module Storage {
  import opened Wrappers
  import opened Text
  import opened Categories

  /** A parsed CSV file: its header and its data rows. */
  datatype Table = Table(columns: seq<string>, rows: seq<seq<string>>) {
    /** pandas' `DataFrame.empty`: no columns or no rows. */
    predicate IsEmpty() {
      |columns| == 0 || |rows| == 0
    }
  }

  /** What reading an object from the bucket gives: a table, or the error raised. */
  datatype Download = Downloaded(table: Table) | DownloadFailed(error: string)

  /** The pair `(df, status)` the fetch returns; `table` is None when `df` is None. */
  datatype Fetched = Fetched(table: Option<Table>, status: string)

  /** The fixed category-to-object-name table. */
  const FileMap: map<string, string> := map["bank" := "Bank", "smart city" := "SmartCity", "hospital" := "Hospital"]

  const InvalidCategory: string := "Invalid category"
  const FetchSuccess: string := "Success"
  const FetchErrorPrefix: string := "Error fetching data: "

  /** The storage object holding a category's dataset. */
  function ObjectName(c: Category): string {
    match c
    case Bank => "Bank"
    case SmartCity => "SmartCity"
    case Hospital => "Hospital"
  }

  /** The table's keys are exactly the category labels, each mapped to that category's object. */
  lemma FileMapIsCategoryTable(key: string)
    ensures key in FileMap <==> exists c: Category :: Label(c) == key
    ensures forall c: Category :: Label(c) in FileMap && FileMap[Label(c)] == ObjectName(c)
  {
    if key in FileMap {
      assert key == Label(Bank) || key == Label(SmartCity) || key == Label(Hospital);
    }
  }

  /** Look up the lower-cased category, then read the object it names. */
  function FetchData(category: string, bucket: string -> Download): (r: Fetched)
    ensures r.table.Some? <==> Lower(category) in FileMap && bucket(FileMap[Lower(category)]).Downloaded?
    ensures r.table.Some? ==> r.status == FetchSuccess && r.table.value == bucket(FileMap[Lower(category)]).table
    ensures r.table.None? && Lower(category) in FileMap ==>
              r.status == FetchErrorPrefix + bucket(FileMap[Lower(category)]).error
  {
    var key := Lower(category);
    if key !in FileMap then
      Fetched(None, InvalidCategory)
    else
      match bucket(FileMap[key])
      case Downloaded(df) => Fetched(Some(df), FetchSuccess)
      case DownloadFailed(e) => Fetched(None, FetchErrorPrefix + e)
  }

  /** The fetch gave a present, non-empty table: the condition for going on. */
  predicate FetchedRows(category: string, bucket: string -> Download) {
    var fetched := FetchData(category, bucket);
    fetched.table.Some? && !fetched.table.value.IsEmpty()
  }

  /**
   * An unknown category is refused before any storage access: every bucket
   * gives the same answer, (None, "Invalid category").
   */
  lemma UnknownCategoryTouchesNoStorage(category: string, b1: string -> Download, b2: string -> Download)
    requires Lower(category) !in FileMap
    ensures FetchData(category, b1) == FetchData(category, b2) == Fetched(None, InvalidCategory)
  {
  }

  /** The lookup ignores case: spellings that differ only in case fetch the same object. */
  lemma FetchIgnoresCase(s: string, t: string, bucket: string -> Download)
    requires SameIgnoringCase(s, t)
    ensures FetchData(s, bucket) == FetchData(t, bucket)
  {
    LowerSameIgnoringCase(s, t);
  }

  /**
   * A detected category always resolves: fetching by its label reads that
   * category's object and never reports "Invalid category".
   */
  lemma {:induction false} DetectedCategoryResolves(c: Category, bucket: string -> Download)
    ensures FetchData(Label(c), bucket).table.Some? <==> bucket(ObjectName(c)).Downloaded?
    ensures FetchData(Label(c), bucket).status != InvalidCategory
  {
    LabelIsLowerCase(c);
    FileMapIsCategoryTable(Label(c));
    var r := FetchData(Label(c), bucket);
    if r.table.None? {
      assert r.status == FetchErrorPrefix + bucket(ObjectName(c)).error;
      assert |r.status| >= |FetchErrorPrefix| > |InvalidCategory|;
    }
  }
}
