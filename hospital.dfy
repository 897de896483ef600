/**
 * The per-row field rules of the hospital dataset generator (hospital.py):
 * the age group of a date of birth, the report date, the hospital's region
 * and the zero-padded patient id. The random choices are parameters: a
 * `random.choice` over a list is the index it picks.
 */
module Hospital {
  import opened Text

  /** A calendar date, as Python's `datetime.date` holds it. */
  datatype Date = Date(year: int, month: int, day: int)

  predicate IsLeapYear(y: int) {
    y % 4 == 0 && (y % 100 != 0 || y % 400 == 0)
  }

  function DaysInMonth(y: int, m: int): int
    requires 1 <= m <= 12
  {
    if m == 2 then (if IsLeapYear(y) then 29 else 28)
    else if m == 4 || m == 6 || m == 9 || m == 11 then 30
    else 31
  }

  /** A date Python's `date` type accepts. */
  predicate ValidDate(d: Date) {
    1 <= d.year <= 9999 && 1 <= d.month <= 12 && 1 <= d.day <= DaysInMonth(d.year, d.month)
  }

  /** Days in the months before month `m` of a common year (index 0 unused). */
  const DaysBeforeMonth: seq<int> := [0, 0, 31, 59, 90, 120, 151, 181, 212, 243, 273, 304, 334]

  /** Days in the years before year `y` of the proleptic Gregorian calendar. */
  function DaysBeforeYear(y: int): int
    requires y >= 1
  {
    var y1 := y - 1;
    y1 * 365 + y1 / 4 - y1 / 100 + y1 / 400
  }

  /** Python's `date.toordinal()`: 1 January of year 1 is day 1. */
  function Ordinal(d: Date): (n: int)
    requires ValidDate(d)
    ensures n >= 1
    ensures DaysBeforeYear(d.year) < n <= DaysBeforeYear(d.year) + (if IsLeapYear(d.year) then 366 else 365)
  {
    DaysBeforeYear(d.year) + DaysBeforeMonth[d.month]
      + (if d.month > 2 && IsLeapYear(d.year) then 1 else 0) + d.day
  }

  /** The next day within a month is the next ordinal. */
  lemma OrdinalNextDay(d: Date)
    requires ValidDate(d) && d.day < DaysInMonth(d.year, d.month)
    ensures ValidDate(Date(d.year, d.month, d.day + 1))
    ensures Ordinal(Date(d.year, d.month, d.day + 1)) == Ordinal(d) + 1
  {
  }

  /** The first of a month follows the last day of the month before. */
  lemma OrdinalNextMonth(y: int, m: int)
    requires 1 <= y <= 9999 && 1 <= m < 12
    ensures ValidDate(Date(y, m, DaysInMonth(y, m))) && ValidDate(Date(y, m + 1, 1))
    ensures Ordinal(Date(y, m + 1, 1)) == Ordinal(Date(y, m, DaysInMonth(y, m))) + 1
  {
  }

  /** New Year's Day follows the 31st of December of the year before. */
  lemma OrdinalNextYear(y: int)
    requires 1 <= y < 9999
    ensures ValidDate(Date(y, 12, 31)) && ValidDate(Date(y + 1, 1, 1))
    ensures Ordinal(Date(y + 1, 1, 1)) == Ordinal(Date(y, 12, 31)) + 1
  {
    YearLength(y);
  }

  /** A year has 366 days when it is a leap year and 365 otherwise. */
  lemma YearLength(y: int)
    requires y >= 1
    ensures DaysBeforeYear(y + 1) == DaysBeforeYear(y) + if IsLeapYear(y) then 366 else 365
  {
    MultiplesOf4(y);
    MultiplesOf100(y);
    MultiplesOf400(y);
  }

  /** Going from y - 1 to y adds one multiple of 4 exactly when 4 divides y; likewise for 100 and 400. */
  lemma MultiplesOf4(y: int)
    ensures y / 4 - (y - 1) / 4 == if y % 4 == 0 then 1 else 0
  {
  }

  lemma MultiplesOf100(y: int)
    ensures y / 100 - (y - 1) / 100 == if y % 100 == 0 then 1 else 0
  {
  }

  lemma MultiplesOf400(y: int)
    ensures y / 400 - (y - 1) / 400 == if y % 400 == 0 then 1 else 0
  {
  }

  /** Whole years in a day count: floor division by 365, as Python's `//` does. */
  function AgeInYears(elapsedDays: int): (age: int)
    ensures 365 * age <= elapsedDays < 365 * age + 365
  {
    elapsedDays / 365
  }

  /** The six age-group labels, youngest first. */
  const AgeGroups: seq<string> := ["0-19", "20-29", "30-39", "40-49", "50-59", "60+"]

  /** The bucket of an age, as `calculate_age_group` chooses it. */
  function AgeGroup(age: int): (g: string)
    ensures g in AgeGroups
  {
    if age < 20 then "0-19"
    else if age < 30 then "20-29"
    else if age < 40 then "30-39"
    else if age < 50 then "40-49"
    else if age < 60 then "50-59"
    else "60+"
  }

  /** `calculate_age_group`: the bucket of the whole years between `dob` and `today`. */
  function CalculateAgeGroup(today: Date, dob: Date): (g: string)
    requires ValidDate(today) && ValidDate(dob)
    ensures g in AgeGroups
  {
    AgeGroup(AgeInYears(Ordinal(today) - Ordinal(dob)))
  }

  /**
   * Reference definition of the buckets: bucket 0 holds the ages below 20,
   * bucket 5 those from 60 on, and bucket k in between the ages from
   * 10k + 10 up to but excluding 10k + 20.
   */
  predicate InBucket(k: nat, age: int) {
    (k == 0 || 10 * k + 10 <= age) && (k == 5 || age < 10 * k + 20)
  }

  /** `AgeGroup` answers label k exactly for the ages of bucket k. */
  lemma {:induction false} AgeGroupBuckets(age: int, k: nat)
    requires k < |AgeGroups|
    ensures AgeGroup(age) == AgeGroups[k] <==> InBucket(k, age)
  {
    var i := AgeGroupIndex(age);
    assert AgeGroup(age) == AgeGroups[i];
    assert i == k <==> InBucket(k, age);
    LabelsDistinct(i, k);
  }

  /** The position of an age's label in `AgeGroups`. */
  function AgeGroupIndex(age: int): (k: nat)
    ensures k < |AgeGroups| && AgeGroup(age) == AgeGroups[k] && InBucket(k, age)
  {
    if age < 20 then 0
    else if age < 30 then 1
    else if age < 40 then 2
    else if age < 50 then 3
    else if age < 60 then 4
    else 5
  }

  /** The six labels are distinct. */
  lemma LabelsDistinct(i: nat, j: nat)
    requires i < |AgeGroups| && j < |AgeGroups|
    ensures AgeGroups[i] == AgeGroups[j] ==> i == j
  {
    if i != j {
      assert AgeGroups[i][0] != AgeGroups[j][0] || |AgeGroups[i]| != |AgeGroups[j]|;
    }
  }

  /** The bucket is monotone: an older age never falls in an earlier bucket. */
  lemma {:induction false} AgeGroupMonotone(a: int, b: int, i: nat, j: nat)
    requires a <= b && i < |AgeGroups| && j < |AgeGroups|
    requires AgeGroup(a) == AgeGroups[i] && AgeGroup(b) == AgeGroups[j]
    ensures i <= j
  {
    AgeGroupBuckets(a, i);
    AgeGroupBuckets(b, j);
  }

  /** The years `random_report_date` chooses from. */
  const ReportYears: seq<int> := [2023, 2024, 2025]

  /** `random_report_date`: the first day of the picked month of the picked year. */
  function RandomReportDate(yearPick: nat, monthPick: nat): (d: Date)
    requires yearPick < |ReportYears| && monthPick < 12
    ensures ValidDate(d)
    ensures d.day == 1 && 1 <= d.month <= 12 && d.year in {2023, 2024, 2025}
  {
    Date(ReportYears[yearPick], monthPick + 1, 1)
  }

  /** Every first of a month in 2023 to 2025 is a possible report date. */
  lemma ReportDatesCover(y: int, m: int)
    requires y in {2023, 2024, 2025} && 1 <= m <= 12
    ensures exists yp: nat, mp: nat :: yp < |ReportYears| && mp < 12 && RandomReportDate(yp, mp) == Date(y, m, 1)
  {
    var yp := y - 2023;
    assert RandomReportDate(yp, m - 1) == Date(y, m, 1);
  }

  /** The hospitals a row can name. */
  const Hospitals: seq<string> := [
    "Riyadh General Hospital",
    "Jeddah Medical Center",
    "Dammam Health Complex",
    "Makkah Specialty Hospital"
  ]

  /** The region of each hospital. */
  const HospitalRegions: map<string, string> := map[
    "Riyadh General Hospital" := "Central Region",
    "Jeddah Medical Center" := "Western Region",
    "Dammam Health Complex" := "Eastern Region",
    "Makkah Specialty Hospital" := "Western Region"
  ]

  /** The lookup is total on the hospitals a row can name. */
  lemma RegionsCoverHospitals()
    ensures forall h :: h in Hospitals ==> h in HospitalRegions
  {
  }

  /** The region column of a row whose hospital is `Hospitals[hospitalPick]`. */
  function RegionOf(hospitalPick: nat): (r: string)
    requires hospitalPick < |Hospitals|
    ensures r in {"Central Region", "Western Region", "Eastern Region"}
  {
    HospitalRegions[Hospitals[hospitalPick]]
  }

  /** The id of the row at loop index `i`: `str(i+1).zfill(3)`. */
  function PatientId(i: nat): (id: string)
    ensures IsDecimal(id) && |id| >= 3
    ensures DecimalValue(id) == i + 1
  {
    ZFillDecimal(NatToString(i + 1), 3);
    ZFill(NatToString(i + 1), 3)
  }

  /**
   * A patient id is a decimal string of length at least 3, exactly 3 when
   * i+1 is at most 999, and it denotes i+1.
   */
  lemma {:induction false} PatientIdShape(i: nat)
    ensures IsDecimal(PatientId(i))
    ensures |PatientId(i)| >= 3
    ensures |PatientId(i)| == 3 <==> i + 1 <= 999
    ensures DecimalValue(PatientId(i)) == i + 1
  {
    var digits := NatToString(i + 1);
    ZFillDecimal(digits, 3);
    NatToStringLength(i + 1, 2);
    assert Pow10(3) == 1000;
  }

  /** Distinct rows get distinct patient ids. */
  lemma PatientIdsDistinct(i: nat, j: nat)
    requires i != j
    ensures PatientId(i) != PatientId(j)
  {
    PatientIdShape(i);
    PatientIdShape(j);
  }
}
