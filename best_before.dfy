/**
 * BestBefore.java: reads "A/B/C", tries the three numbers in all six orders as
 * year/month/day, and prints the earliest legal date among them as YYYY-MM-DD, or
 * "<input> is illegal" when there is none.
 */
module BestBefore {
  import opened JavaText

  const NumFields := 3
  const NumPerms := 6

  const MinDay := 1
  const MinMonth := 1
  const MaxMonth := 12
  const MinYear := 2000
  const MaxYear := 2999

  /** datePermIdxs: row i sends input number j to position DatePermIdxs[i][j]. */
  const DatePermIdxs: seq<seq<int>> := [[0, 1, 2], [0, 2, 1], [1, 0, 2], [1, 2, 0], [2, 0, 1], [2, 1, 0]]

  const LeapMonthDays: seq<int> := [31, 29, 31, 30, 31, 30, 31, 31, 30, 31, 30, 31]
  const CommonMonthDays: seq<int> := [31, 28, 31, 30, 31, 30, 31, 31, 30, 31, 30, 31]

  // ---------------------------------------------------------------------------------------
  // The calendar (DateValidator)
  // ---------------------------------------------------------------------------------------

  /**
   * Divisible by 4, and not by 100 unless by 400. Java's % truncates where Dafny's does not,
   * but the two agree on whether the remainder is zero, which is all this tests.
   */
  predicate IsLeapYear(year: int)
  {
    year % 4 == 0 && (year % 100 != 0 || year % 400 == 0)
  }

  /** canonicalizeYear: a two-digit year 0..99 stands for 2000..2099. */
  function CanonicalYear(year: int): int
  {
    if 0 <= year <= 99 then year + 2000 else year
  }

  function DaysInMonth(year: int, month: int): int
    requires MinMonth <= month <= MaxMonth
  {
    (if IsLeapYear(year) then LeapMonthDays else CommonMonthDays)[month - 1]
  }

  /** What isValid accepts: a canonical year in range, a month, and a day of that month. */
  predicate ValidDate(nums: seq<int>)
    requires |nums| == NumFields
  {
    var year := CanonicalYear(nums[0]);
    MinYear <= year <= MaxYear && MinMonth <= nums[1] <= MaxMonth &&
    MinDay <= nums[2] <= DaysInMonth(year, nums[1])
  }

  /** isValidDateString on the '/'-fields: any four-character field must be a year in range. */
  function DateStringCheck(parts: seq<string>): Outcome<bool>
  {
    if parts == [] then Ok(true)
    else if |parts[0]| == 4 then
      match ParseInt(parts[0])
      case Thrown(e) => Thrown(e)
      case Ok(year) => if year < MinYear || year > MaxYear then Ok(false) else DateStringCheck(parts[1..])
    else DateStringCheck(parts[1..])
  }

  /** A field isValidDateString lets through: not four characters long, or a year in range. */
  predicate YearFieldPasses(s: string)
  {
    |s| != 4 || (ParseInt(s).Ok? && MinYear <= ParseInt(s).value <= MaxYear)
  }

  /** A four-character field that is a number outside the year range. */
  predicate YearFieldFails(s: string)
  {
    |s| == 4 && ParseInt(s).Ok? && !(MinYear <= ParseInt(s).value <= MaxYear)
  }

  /** A four-character field that parseInt rejects. */
  predicate YearFieldThrows(s: string)
  {
    |s| == 4 && ParseInt(s).Thrown?
  }

  /** isValidDateString answers true exactly when every field passes. */
  lemma {:induction false} DateStringCheckTrue(parts: seq<string>)
    ensures DateStringCheck(parts) == Ok(true) <==> forall k :: 0 <= k < |parts| ==> YearFieldPasses(parts[k])
  {
    hide ParseInt;
    if parts != [] {
      var rest := parts[1..];
      DateStringCheckTrue(rest);
      assert forall k :: 0 < k < |parts| ==> parts[k] == rest[k - 1];
      if YearFieldPasses(parts[0]) {
        assert DateStringCheck(parts) == DateStringCheck(rest);
      }
    }
  }

  /** isValidDateString answers false exactly when the first field that does not pass is an out-of-range year. */
  lemma {:induction false} DateStringCheckFalse(parts: seq<string>)
    ensures DateStringCheck(parts) == Ok(false) <==>
      exists i :: 0 <= i < |parts| && YearFieldFails(parts[i]) && forall k :: 0 <= k < i ==> YearFieldPasses(parts[k])
  {
    hide ParseInt;
    if parts == [] || !YearFieldPasses(parts[0]) {
      return;
    }
    var rest := parts[1..];
    DateStringCheckFalse(rest);
    assert DateStringCheck(parts) == DateStringCheck(rest);
    if exists j :: 0 <= j < |rest| && YearFieldFails(rest[j]) && forall k :: 0 <= k < j ==> YearFieldPasses(rest[k]) {
      var j :| 0 <= j < |rest| && YearFieldFails(rest[j]) && forall k :: 0 <= k < j ==> YearFieldPasses(rest[k]);
      assert forall k :: 0 < k < j + 1 ==> parts[k] == rest[k - 1];
      assert YearFieldFails(parts[j + 1]) && forall k :: 0 <= k < j + 1 ==> YearFieldPasses(parts[k]);
    }
    if exists i :: 0 <= i < |parts| && YearFieldFails(parts[i]) && forall k :: 0 <= k < i ==> YearFieldPasses(parts[k]) {
      var i :| 0 <= i < |parts| && YearFieldFails(parts[i]) && forall k :: 0 <= k < i ==> YearFieldPasses(parts[k]);
      assert forall k :: 0 < k < i ==> parts[k] == rest[k - 1];
      assert YearFieldFails(rest[i - 1]) && forall k :: 0 <= k < i - 1 ==> YearFieldPasses(rest[k]);
    }
  }

  /** isValidDateString throws exactly when the first field that does not pass fails to parse. */
  lemma {:induction false} DateStringCheckThrows(parts: seq<string>)
    ensures DateStringCheck(parts).Thrown? <==>
      exists i :: 0 <= i < |parts| && YearFieldThrows(parts[i]) && forall k :: 0 <= k < i ==> YearFieldPasses(parts[k])
  {
    hide ParseInt;
    if parts == [] || !YearFieldPasses(parts[0]) {
      return;
    }
    var rest := parts[1..];
    DateStringCheckThrows(rest);
    assert DateStringCheck(parts) == DateStringCheck(rest);
    if exists j :: 0 <= j < |rest| && YearFieldThrows(rest[j]) && forall k :: 0 <= k < j ==> YearFieldPasses(rest[k]) {
      var j :| 0 <= j < |rest| && YearFieldThrows(rest[j]) && forall k :: 0 <= k < j ==> YearFieldPasses(rest[k]);
      assert forall k :: 0 < k < j + 1 ==> parts[k] == rest[k - 1];
      assert YearFieldThrows(parts[j + 1]) && forall k :: 0 <= k < j + 1 ==> YearFieldPasses(parts[k]);
    }
    if exists i :: 0 <= i < |parts| && YearFieldThrows(parts[i]) && forall k :: 0 <= k < i ==> YearFieldPasses(parts[k]) {
      var i :| 0 <= i < |parts| && YearFieldThrows(parts[i]) && forall k :: 0 <= k < i ==> YearFieldPasses(parts[k]);
      assert forall k :: 0 < k < i ==> parts[k] == rest[k - 1];
      assert YearFieldThrows(rest[i - 1]) && forall k :: 0 <= k < i - 1 ==> YearFieldPasses(rest[k]);
    }
  }

  /**
   * What isValidDateString answers, stated without the scan: true when every field passes,
   * false when the first field that does not pass is an out-of-range year, and the exception
   * when that first field does not parse.
   */
  lemma DateStringCheckMeans(parts: seq<string>)
    ensures DateStringCheck(parts) == Ok(true) <==> forall k :: 0 <= k < |parts| ==> YearFieldPasses(parts[k])
    ensures DateStringCheck(parts) == Ok(false) <==>
      exists i :: 0 <= i < |parts| && YearFieldFails(parts[i]) && forall k :: 0 <= k < i ==> YearFieldPasses(parts[k])
    ensures DateStringCheck(parts).Thrown? <==>
      exists i :: 0 <= i < |parts| && YearFieldThrows(parts[i]) && forall k :: 0 <= k < i ==> YearFieldPasses(parts[k])
  {
    DateStringCheckTrue(parts);
    DateStringCheckFalse(parts);
    DateStringCheckThrows(parts);
  }

  /** Once dateFromString has parsed the three fields, the form check on them cannot throw. */
  lemma FormCheckTotal(input: string)
    requires ParseDate(input).Ok?
    ensures DateStringCheck(Split(input, '/')).Ok?
  {
    var fields := Split(input, '/');
    DateStringCheckMeans(fields);
    assert forall k :: 0 <= k < |fields| ==> ParseInt(fields[k]).Ok?;
  }

  class DateValidator {
    var year: int
    var month: int
    var day: int

    constructor ()
      ensures year == 0 && month == 0 && day == 0
    {
      year, month, day := 0, 0, 0;
    }

    /** isValid: loads the three fields of pd, canonicalises the year and checks all three. */
    method IsValid(pd: PotentialDate) returns (valid: bool)
      requires |pd.dateNums| == NumFields
      modifies this
      ensures year == CanonicalYear(pd.dateNums[0]) && month == pd.dateNums[1] && day == pd.dateNums[2]
      ensures valid == ValidDate(pd.dateNums)
    {
      year := pd.GetYear();
      month := pd.GetMonth();
      day := pd.GetDay();
      CanonicalizeYear();
      valid := IsValidYear() && IsValidMonth() && IsValidDay();
    }

    /** isValidDateString: scans the fields in order and stops at the first bad year. */
    method IsValidDateString(dateParts: seq<string>) returns (r: Outcome<bool>)
      ensures r == DateStringCheck(dateParts)
    {
      for i := 0 to |dateParts|
        invariant DateStringCheck(dateParts) == DateStringCheck(dateParts[i..])
      {
        var s := dateParts[i];
        assert dateParts[i..][1..] == dateParts[i + 1..];
        if |s| == 4 {
          var parsed := ParseInt(s);
          if parsed.Thrown? {
            return Thrown(parsed.exception);
          }
          if parsed.value < MinYear || parsed.value > MaxYear {
            return Ok(false);
          }
        }
      }
      return Ok(true);
    }

    method CanonicalizeYear()
      modifies this`year
      ensures year == CanonicalYear(old(year))
    {
      if year >= 0 && year <= 99 {
        year := year + 2000;
      }
    }

    predicate IsValidYear()
      reads this`year
    {
      MinYear <= year <= MaxYear
    }

    predicate IsValidMonth()
      reads this`month
    {
      MinMonth <= month <= MaxMonth
    }

    predicate IsValidDay()
      reads this
    {
      if IsValidMonth() then MinDay <= day <= DaysInMonth(year, month) else false
    }
  }

  // ---------------------------------------------------------------------------------------
  // The candidate dates (PotentialDate)
  // ---------------------------------------------------------------------------------------

  /** The number that row idx of the permutation table places at position k. */
  function Place(nums: seq<int>, idx: seq<int>, k: int): int
    requires |nums| == NumFields && |idx| == NumFields
  {
    if idx[0] == k then nums[0] else if idx[1] == k then nums[1] else nums[2]
  }

  /** The date getDatePermutations builds from one row of the permutation table. */
  function Arrange(nums: seq<int>, idx: seq<int>): seq<int>
    requires |nums| == NumFields && |idx| == NumFields
  {
    [Place(nums, idx, 0), Place(nums, idx, 1), Place(nums, idx, 2)]
  }

  /** outputDate: a year below 100 gets 2000 added, then "%04d-%02d-%02d". */
  function OutputDate(dateNums: seq<int>): string
    requires |dateNums| == NumFields
  {
    var year := if dateNums[0] < 100 then dateNums[0] + 2000 else dateNums[0];
    FormatZeroPadded(year, 4) + "-" + FormatZeroPadded(dateNums[1], 2) + "-" + FormatZeroPadded(dateNums[2], 2)
  }

  /** The formatted legal orderings among the first n rows of the table, in table order. */
  function ValidOutputsUpTo(nums: seq<int>, n: nat): seq<string>
    requires |nums| == NumFields && n <= NumPerms
  {
    if n == 0 then []
    else
      PermIdxsFacts(n - 1);
      var date := Arrange(nums, DatePermIdxs[n - 1]);
      ValidOutputsUpTo(nums, n - 1) + (if ValidDate(date) then [OutputDate(date)] else [])
  }

  function ValidOutputs(nums: seq<int>): seq<string>
    requires |nums| == NumFields
  {
    ValidOutputsUpTo(nums, NumPerms)
  }

  /** Integer.parseInt on the first three fields, left to right. */
  function ParseFields(fields: seq<string>): Outcome<seq<int>>
    requires |fields| >= NumFields
  {
    match ParseInt(fields[0])
    case Thrown(e) => Thrown(e)
    case Ok(a) =>
      match ParseInt(fields[1])
      case Thrown(e) => Thrown(e)
      case Ok(b) =>
        match ParseInt(fields[2])
        case Thrown(e) => Thrown(e)
        case Ok(c) => Ok([a, b, c])
  }

  /** dateFromString: exactly three '/'-fields, each a 32-bit integer. */
  function ParseDate(input: string): Outcome<seq<int>>
  {
    var fields := Split(input, '/');
    if |fields| != NumFields then Thrown(IllegalArgument) else ParseFields(fields)
  }

  /** What the program prints for one line of input, or the exception that ends it. */
  function Answer(input: string): Outcome<string>
  {
    match ParseDate(input)
    case Thrown(e) => Thrown(e)
    case Ok(nums) =>
      match DateStringCheck(Split(input, '/'))
      case Thrown(e) => Thrown(e)
      case Ok(formOk) =>
        if !formOk || |ValidOutputs(nums)| == 0 then Ok(input + " is illegal")
        else Ok(Least(ValidOutputs(nums)))
  }

  class PotentialDate {
    const origRepresentation: string
    const dateNums: seq<int>
    const dv: DateValidator

    constructor (origRepresentation: string, dateNums: seq<int>)
      ensures this.origRepresentation == origRepresentation && this.dateNums == dateNums
      ensures fresh(dv)
    {
      this.origRepresentation := origRepresentation;
      this.dateNums := dateNums;
      dv := new DateValidator();
    }

    /** The constructor from the '/'-fields, which throws when a field is not a number. */
    static method FromFields(origRepresentation: string, fields: seq<string>) returns (r: Outcome<PotentialDate>)
      requires |fields| >= NumFields
      ensures r.Thrown? ==> ParseFields(fields) == Thrown(r.exception)
      ensures r.Ok? ==> (ParseFields(fields).Ok? && fresh(r.value) && fresh(r.value.dv) &&
        r.value.origRepresentation == origRepresentation && r.value.dateNums == ParseFields(fields).value)
    {
      var a := ParseInt(fields[0]);
      if a.Thrown? {
        return Thrown(a.exception);
      }
      var b := ParseInt(fields[1]);
      if b.Thrown? {
        return Thrown(b.exception);
      }
      var c := ParseInt(fields[2]);
      if c.Thrown? {
        return Thrown(c.exception);
      }
      var pd := new PotentialDate(origRepresentation, [a.value, b.value, c.value]);
      return Ok(pd);
    }

    /** dateFromString: rejects anything but three fields, then parses them. */
    static method DateFromString(input: string) returns (r: Outcome<PotentialDate>)
      ensures r.Thrown? ==> ParseDate(input) == Thrown(r.exception)
      ensures r.Ok? ==> (ParseDate(input).Ok? && fresh(r.value) && fresh(r.value.dv) &&
        r.value.origRepresentation == input && r.value.dateNums == ParseDate(input).value)
    {
      var fields := Split(input, '/');
      if |fields| != NumFields {
        return Thrown(IllegalArgument);
      }
      r := FromFields(input, fields);
    }

    function GetYear(): int
      requires |dateNums| == NumFields
    {
      dateNums[0]
    }

    function GetMonth(): int
      requires |dateNums| == NumFields
    {
      dateNums[1]
    }

    function GetDay(): int
      requires |dateNums| == NumFields
    {
      dateNums[2]
    }

    method StringFormIsValid() returns (r: Outcome<bool>)
      ensures r == DateStringCheck(Split(origRepresentation, '/'))
    {
      r := dv.IsValidDateString(Split(origRepresentation, '/'));
    }

    /** getDatePermutations: fills a 6x3 table so that row i is the i-th rearrangement. */
    method GetDatePermutations() returns (datePerms: seq<PotentialDate>)
      requires |dateNums| == NumFields
      ensures |datePerms| == NumPerms
      ensures forall i :: 0 <= i < NumPerms ==>
        datePerms[i].origRepresentation == origRepresentation &&
        |DatePermIdxs[i]| == NumFields && datePerms[i].dateNums == Arrange(dateNums, DatePermIdxs[i])
    {
      var dateFieldPerms := new int[NumPerms, NumFields];
      datePerms := [];
      for i := 0 to NumPerms
        invariant |datePerms| == i
        invariant forall k :: 0 <= k < i ==>
          datePerms[k].origRepresentation == origRepresentation &&
          |DatePermIdxs[k]| == NumFields && datePerms[k].dateNums == Arrange(dateNums, DatePermIdxs[k])
      {
        PermIdxsFacts(i);
        var idx := DatePermIdxs[i];
        for j := 0 to NumFields
          invariant forall k :: 0 <= k < j ==> dateFieldPerms[i, idx[k]] == dateNums[k]
        {
          dateFieldPerms[i, idx[j]] := dateNums[j];
        }
        var row := [dateFieldPerms[i, 0], dateFieldPerms[i, 1], dateFieldPerms[i, 2]];
        RowIsArrangement(i, dateNums, row);
        var perm := new PotentialDate(origRepresentation, row);
        datePerms := datePerms + [perm];
      }
    }

    /** addValidPermutationsTo: appends the formatted legal orderings to the collection. */
    method AddValidPermutationsTo(c: seq<string>) returns (result: seq<string>)
      requires |dateNums| == NumFields
      modifies dv
      ensures result == c + ValidOutputs(dateNums)
    {
      var perms := GetDatePermutations();
      result := c;
      for i := 0 to NumPerms
        invariant result == c + ValidOutputsUpTo(dateNums, i)
      {
        var perm := perms[i];
        assert perm.dateNums == Arrange(dateNums, DatePermIdxs[i]);
        var valid := dv.IsValid(perm);
        assert ValidOutputsUpTo(dateNums, i + 1) ==
          ValidOutputsUpTo(dateNums, i) + (if valid then [OutputDate(perm.dateNums)] else []);
        if valid {
          result := result + [OutputDate(perm.dateNums)];
        }
      }
    }
  }

  /**
   * main on one line of input: the line it prints, or the exception it ends with. The
   * PriorityQueue is a sequence here, and peek its least element.
   */
  method Disambiguate(input: string) returns (out: Outcome<string>)
    ensures out == Answer(input)
  {
    var pd := PotentialDate.DateFromString(input);
    if pd.Thrown? {
      return Thrown(pd.exception);
    }
    var date := pd.value;
    assert ParseDate(input) == Ok(date.dateNums);
    var formOk := date.StringFormIsValid();
    if formOk.Thrown? {
      return Thrown(formOk.exception);
    }
    if !formOk.value {
      return Ok(date.origRepresentation + " is illegal");
    }
    var minDateHeap := date.AddValidPermutationsTo([]);
    assert minDateHeap == ValidOutputs(date.dateNums);
    if |minDateHeap| == 0 {
      out := Ok(date.origRepresentation + " is illegal");
    } else {
      out := Ok(Least(minDateHeap));
    }
  }

  // ---------------------------------------------------------------------------------------
  // Properties
  // ---------------------------------------------------------------------------------------

  lemma PermIdxsFacts(i: int)
    requires 0 <= i < NumPerms
    ensures |DatePermIdxs[i]| == NumFields
    ensures forall j :: 0 <= j < NumFields ==> 0 <= DatePermIdxs[i][j] < NumFields
    ensures forall j, k :: 0 <= j < k < NumFields ==> DatePermIdxs[i][j] != DatePermIdxs[i][k]
  {
  }

  /** A row in which number j sits at position idx[j], for every j, is the arrangement. */
  lemma RowIsArrangement(i: int, nums: seq<int>, row: seq<int>)
    requires 0 <= i < NumPerms && |nums| == NumFields && |row| == NumFields
    requires |DatePermIdxs[i]| == NumFields
    requires forall j :: 0 <= j < NumFields ==> 0 <= DatePermIdxs[i][j] < NumFields && row[DatePermIdxs[i][j]] == nums[j]
    ensures row == Arrange(nums, DatePermIdxs[i])
  {
    var idx := DatePermIdxs[i];
    PermIdxsFacts(i);
    forall k | 0 <= k < NumFields
      ensures row[k] == Arrange(nums, idx)[k]
    {
      if idx[0] == k {
      } else if idx[1] == k {
      } else {
        assert idx[2] == k;
      }
    }
  }

  /** Three distinct positions 0..2 in some order: one way of reading the three numbers. */
  predicate IsOrdering(p: seq<int>)
  {
    |p| == NumFields && (forall j :: 0 <= j < NumFields ==> 0 <= p[j] < NumFields) &&
    p[0] != p[1] && p[0] != p[2] && p[1] != p[2]
  }

  /** Each of the six dates holds the three input numbers, rearranged. */
  lemma ArrangementsAreRearrangements(nums: seq<int>, i: int)
    requires |nums| == NumFields && 0 <= i < NumPerms
    ensures |DatePermIdxs[i]| == NumFields
    ensures exists p :: IsOrdering(p) && Arrange(nums, DatePermIdxs[i]) == [nums[p[0]], nums[p[1]], nums[p[2]]]
    ensures multiset(Arrange(nums, DatePermIdxs[i])) == multiset(nums)
  {
    var inverse := [[0, 1, 2], [0, 2, 1], [1, 0, 2], [2, 0, 1], [1, 2, 0], [2, 1, 0]][i];
    assert IsOrdering(inverse);
    assert Arrange(nums, DatePermIdxs[i]) == [nums[inverse[0]], nums[inverse[1]], nums[inverse[2]]];
    OrderingKeepsNumbers(nums, inverse);
  }

  /** Reading the numbers in any order reads each of them once. */
  lemma OrderingKeepsNumbers(nums: seq<int>, p: seq<int>)
    requires |nums| == NumFields && IsOrdering(p)
    ensures multiset([nums[p[0]], nums[p[1]], nums[p[2]]]) == multiset(nums)
  {
    var x, y, z := nums[0], nums[1], nums[2];
    var i, j, k := p[0], p[1], p[2];
    assert 0 <= i < 3 && 0 <= j < 3 && 0 <= k < 3;
    assert nums == [x, y, z];
    var q := [nums[i], nums[j], nums[k]];
    if i == 0 && j == 1 {
      assert k == 2;
      ThreeInOrder(x, y, z, x, y, z);
    } else if i == 0 {
      assert j == 2 && k == 1;
      ThreeInOrder(x, y, z, x, z, y);
    } else if i == 1 && j == 0 {
      assert k == 2;
      ThreeInOrder(x, y, z, y, x, z);
    } else if i == 1 {
      assert j == 2 && k == 0;
      ThreeInOrder(x, y, z, y, z, x);
    } else if j == 0 {
      assert i == 2 && k == 1;
      ThreeInOrder(x, y, z, z, x, y);
    } else {
      assert i == 2 && j == 1 && k == 0;
      ThreeInOrder(x, y, z, z, y, x);
    }
  }

  lemma ThreeInOrder(x: int, y: int, z: int, a: int, b: int, c: int)
    requires multiset{a, b, c} == multiset{x, y, z}
    ensures multiset([a, b, c]) == multiset([x, y, z])
  {
  }

  /** Every way of reading the three numbers as year, month and day is among the six dates. */
  lemma EveryOrderingGenerated(nums: seq<int>, p: seq<int>)
    requires |nums| == NumFields && IsOrdering(p)
    ensures exists i :: (0 <= i < NumPerms && |DatePermIdxs[i]| == NumFields &&
      Arrange(nums, DatePermIdxs[i]) == [nums[p[0]], nums[p[1]], nums[p[2]]])
  {
    var i :=
      if p == [0, 1, 2] then 0 else if p == [0, 2, 1] then 1 else if p == [1, 0, 2] then 2
      else if p == [2, 0, 1] then 3 else if p == [1, 2, 0] then 4 else 5;
    assert p == [p[0], p[1], p[2]];
    assert Arrange(nums, DatePermIdxs[i]) == [nums[p[0]], nums[p[1]], nums[p[2]]];
  }

  /** canonicalizeYear maps 0..99 onto 2000..2099, leaves every other year alone, and is idempotent. */
  lemma CanonicalYearFacts(year: int)
    ensures 0 <= year <= 99 ==> 2000 <= CanonicalYear(year) <= 2099
    ensures !(0 <= year <= 99) ==> CanonicalYear(year) == year
    ensures CanonicalYear(CanonicalYear(year)) == CanonicalYear(year)
  {
  }

  /** February has 29 days exactly in leap years; every other month keeps its length. */
  lemma DaysInMonthFacts(year: int, month: int)
    requires MinMonth <= month <= MaxMonth
    ensures 28 <= DaysInMonth(year, month) <= 31
    ensures month == 2 ==> (DaysInMonth(year, month) == 29 <==> IsLeapYear(year))
    ensures month != 2 ==> DaysInMonth(year, month) == DaysInMonth(year + 1, month)
  {
  }

  function MonthTotal(year: int, months: nat): int
    requires months <= MaxMonth
  {
    if months == 0 then 0 else MonthTotal(year, months - 1) + DaysInMonth(year, months)
  }

  /** The month table adds up to 366 days in a leap year and 365 otherwise. */
  lemma YearLength(year: int)
    ensures MonthTotal(year, MaxMonth) == if IsLeapYear(year) then 366 else 365
  {
    var t := if IsLeapYear(year) then LeapMonthDays else CommonMonthDays;
    assert MonthTotal(year, 1) == t[0];
    assert MonthTotal(year, 2) == t[0] + t[1];
    assert MonthTotal(year, 3) == MonthTotal(year, 2) + t[2];
    assert MonthTotal(year, 4) == MonthTotal(year, 3) + t[3];
    assert MonthTotal(year, 5) == MonthTotal(year, 4) + t[4];
    assert MonthTotal(year, 6) == MonthTotal(year, 5) + t[5];
    assert MonthTotal(year, 7) == MonthTotal(year, 6) + t[6];
    assert MonthTotal(year, 8) == MonthTotal(year, 7) + t[7];
    assert MonthTotal(year, 9) == MonthTotal(year, 8) + t[8];
    assert MonthTotal(year, 10) == MonthTotal(year, 9) + t[9];
    assert MonthTotal(year, 11) == MonthTotal(year, 10) + t[10];
  }

  /** The date a legal ordering stands for: canonical year, month, day. */
  function Canonical(nums: seq<int>): (int, int, int)
    requires |nums| == NumFields
  {
    (CanonicalYear(nums[0]), nums[1], nums[2])
  }

  predicate Before(a: (int, int, int), b: (int, int, int))
  {
    a.0 < b.0 || (a.0 == b.0 && (a.1 < b.1 || (a.1 == b.1 && a.2 < b.2)))
  }

  /**
   * A legal date is written in exactly ten characters: the canonical year in four digits,
   * then the month and the day in two each. Integer.parseInt reads each field back.
   */
  lemma OutputDateFields(nums: seq<int>)
    requires |nums| == NumFields && ValidDate(nums)
    ensures OutputDate(nums) == Fixed(CanonicalYear(nums[0]), 4) + "-" + Fixed(nums[1], 2) + "-" + Fixed(nums[2], 2)
    ensures |OutputDate(nums)| == 10
    ensures ParseInt(FormatZeroPadded(CanonicalYear(nums[0]), 4)) == Ok(CanonicalYear(nums[0]))
    ensures ParseInt(FormatZeroPadded(nums[1], 2)) == Ok(nums[1])
    ensures ParseInt(FormatZeroPadded(nums[2], 2)) == Ok(nums[2])
  {
    var y := CanonicalYear(nums[0]);
    DaysInMonthFacts(y, nums[1]);
    assert Pow10(4) == 10000 && Pow10(2) == 100;
    PadIsFixed(y, 4);
    PadIsFixed(nums[1], 2);
    PadIsFixed(nums[2], 2);
    FixedOrder(y, y, 4);
    FixedOrder(nums[1], nums[1], 2);
    FixedOrder(nums[2], nums[2], 2);
    ParseFormatRoundTrip(y, 4);
    ParseFormatRoundTrip(nums[1], 2);
    ParseFormatRoundTrip(nums[2], 2);
  }

  /** Comparing two "Y-M-D" strings with fields of matching widths compares field by field. */
  lemma CompareDashed(y1: string, y2: string, m1: string, m2: string, d1: string, d2: string)
    requires |y1| == |y2| && |m1| == |m2|
    ensures LexLess(y1 + "-" + m1 + "-" + d1, y2 + "-" + m2 + "-" + d2) <==>
      LexLess(y1, y2) || (y1 == y2 && (LexLess(m1, m2) || (m1 == m2 && LexLess(d1, d2))))
    ensures y1 + "-" + m1 + "-" + d1 == y2 + "-" + m2 + "-" + d2 <==> y1 == y2 && m1 == m2 && d1 == d2
  {
    var r1, r2 := "-" + (m1 + ("-" + d1)), "-" + (m2 + ("-" + d2));
    assert y1 + "-" + m1 + "-" + d1 == y1 + r1;
    assert y2 + "-" + m2 + "-" + d2 == y2 + r2;
    LexLessIrreflexive("-");
    LexLessAppend("-", "-", d1, d2);
    SplitEqual("-", "-", d1, d2);
    LexLessAppend(m1, m2, "-" + d1, "-" + d2);
    SplitEqual(m1, m2, "-" + d1, "-" + d2);
    LexLessAppend("-", "-", m1 + ("-" + d1), m2 + ("-" + d2));
    SplitEqual("-", "-", m1 + ("-" + d1), m2 + ("-" + d2));
    LexLessAppend(y1, y2, r1, r2);
    SplitEqual(y1, y2, r1, r2);
  }

  lemma SplitEqual(a: string, b: string, c: string, d: string)
    requires |a| == |b|
    ensures a + c == b + d <==> a == b && c == d
  {
    if a + c == b + d {
      assert a == (a + c)[..|a|] && b == (b + d)[..|b|];
      assert c == (a + c)[|a|..] && d == (b + d)[|b|..];
    }
  }

  /**
   * For legal dates, String order on the printed forms is calendar order, and two dates
   * print alike only when they are the same date: the least string is the earliest date.
   */
  lemma OutputOrderIsDateOrder(a: seq<int>, b: seq<int>)
    requires |a| == NumFields && |b| == NumFields && ValidDate(a) && ValidDate(b)
    ensures LexLess(OutputDate(a), OutputDate(b)) <==> Before(Canonical(a), Canonical(b))
    ensures OutputDate(a) == OutputDate(b) <==> Canonical(a) == Canonical(b)
  {
    ValidIsPrintable(a);
    ValidIsPrintable(b);
    PrintedOrder(a, b);
  }

  /** Three numbers whose printed fields take exactly their nominal widths. */
  predicate Printable(a: seq<int>)
  {
    |a| == NumFields && MinYear <= CanonicalYear(a[0]) < Pow10(4) && 0 <= a[1] < Pow10(2) && 0 <= a[2] < Pow10(2)
  }

  lemma ValidIsPrintable(a: seq<int>)
    requires |a| == NumFields && ValidDate(a)
    ensures Printable(a)
  {
    DaysInMonthFacts(CanonicalYear(a[0]), a[1]);
    assert Pow10(4) == 10000 && Pow10(2) == 100;
  }

  lemma PrintedFields(a: seq<int>)
    requires Printable(a)
    ensures OutputDate(a) == Fixed(CanonicalYear(a[0]), 4) + "-" + Fixed(a[1], 2) + "-" + Fixed(a[2], 2)
  {
    PadIsFixed(CanonicalYear(a[0]), 4);
    PadIsFixed(a[1], 2);
    PadIsFixed(a[2], 2);
  }

  lemma PrintedOrder(a: seq<int>, b: seq<int>)
    requires Printable(a) && Printable(b)
    ensures LexLess(OutputDate(a), OutputDate(b)) <==> Before(Canonical(a), Canonical(b))
    ensures OutputDate(a) == OutputDate(b) <==> Canonical(a) == Canonical(b)
  {
    var ya, yb := CanonicalYear(a[0]), CanonicalYear(b[0]);
    PrintedFields(a);
    PrintedFields(b);
    FixedPairOrder(ya, yb, 4);
    FixedPairOrder(a[1], b[1], 2);
    FixedPairOrder(a[2], b[2], 2);
    DashedOrder(Fixed(ya, 4), Fixed(yb, 4), Fixed(a[1], 2), Fixed(b[1], 2), Fixed(a[2], 2), Fixed(b[2], 2), Canonical(a), Canonical(b));
  }

  lemma FixedPairOrder(x: int, y: int, w: nat)
    requires 0 <= x < Pow10(w) && 0 <= y < Pow10(w)
    ensures |Fixed(x, w)| == |Fixed(y, w)|
    ensures (LexLess(Fixed(x, w), Fixed(y, w)) <==> x < y) && (Fixed(x, w) == Fixed(y, w) <==> x == y)
  {
    FixedOrder(x, y, w);
    FixedOrderFlip(x, y, w);
  }

  /** "Y-M-D" strings whose fields compare as some numbers do compare as the triples of those numbers. */
  lemma DashedOrder(y1: string, y2: string, m1: string, m2: string, d1: string, d2: string, a: (int, int, int), b: (int, int, int))
    requires |y1| == |y2| && |m1| == |m2|
    requires (LexLess(y1, y2) <==> a.0 < b.0) && (y1 == y2 <==> a.0 == b.0)
    requires (LexLess(m1, m2) <==> a.1 < b.1) && (m1 == m2 <==> a.1 == b.1)
    requires (LexLess(d1, d2) <==> a.2 < b.2) && (d1 == d2 <==> a.2 == b.2)
    ensures LexLess(y1 + "-" + m1 + "-" + d1, y2 + "-" + m2 + "-" + d2) <==> Before(a, b)
    ensures y1 + "-" + m1 + "-" + d1 == y2 + "-" + m2 + "-" + d2 <==> a == b
  {
    CompareDashed(y1, y2, m1, m2, d1, d2);
  }


  /** A legal row of the table is printed. */
  lemma {:induction false} RowOutputListed(nums: seq<int>, n: nat, j: nat)
    requires |nums| == NumFields && j < n <= NumPerms && |DatePermIdxs[j]| == NumFields
    requires ValidDate(Arrange(nums, DatePermIdxs[j]))
    ensures OutputDate(Arrange(nums, DatePermIdxs[j])) in ValidOutputsUpTo(nums, n)
  {
    hide ValidDate, OutputDate;
    if j < n - 1 {
      RowOutputListed(nums, n - 1, j);
    }
  }

  /** Whatever is printed comes from a legal row of the table. */
  lemma {:induction false} ListedOutputFromRow(nums: seq<int>, n: nat, s: string) returns (i: nat)
    requires |nums| == NumFields && n <= NumPerms && s in ValidOutputsUpTo(nums, n)
    ensures i < n && |DatePermIdxs[i]| == NumFields
    ensures ValidDate(Arrange(nums, DatePermIdxs[i])) && s == OutputDate(Arrange(nums, DatePermIdxs[i]))
  {
    PermIdxsFacts(n - 1);
    if s in ValidOutputsUpTo(nums, n - 1) {
      i := ListedOutputFromRow(nums, n - 1, s);
    } else {
      i := n - 1;
    }
  }

  /** The head of the queue is the printed form of some legal ordering and no printed date is smaller. */
  lemma LeastFromOrdering(nums: seq<int>) returns (p: seq<int>)
    requires |nums| == NumFields && |ValidOutputs(nums)| > 0
    ensures IsOrdering(p) && ValidDate([nums[p[0]], nums[p[1]], nums[p[2]]])
    ensures Least(ValidOutputs(nums)) == OutputDate([nums[p[0]], nums[p[1]], nums[p[2]]])
    ensures forall s :: s in ValidOutputs(nums) ==> !LexLess(s, Least(ValidOutputs(nums)))
  {
    var outs := ValidOutputs(nums);
    LeastIsLeast(outs);
    var i := ListedOutputFromRow(nums, NumPerms, Least(outs));
    ArrangementsAreRearrangements(nums, i);
    p :| IsOrdering(p) && Arrange(nums, DatePermIdxs[i]) == [nums[p[0]], nums[p[1]], nums[p[2]]];
  }

  /** Every legal way of reading the numbers is printed. */
  lemma OrderingListed(nums: seq<int>, q: seq<int>)
    requires |nums| == NumFields && IsOrdering(q) && ValidDate([nums[q[0]], nums[q[1]], nums[q[2]]])
    ensures OutputDate([nums[q[0]], nums[q[1]], nums[q[2]]]) in ValidOutputs(nums)
  {
    EveryOrderingGenerated(nums, q);
    var j :| 0 <= j < NumPerms && |DatePermIdxs[j]| == NumFields &&
      Arrange(nums, DatePermIdxs[j]) == [nums[q[0]], nums[q[1]], nums[q[2]]];
    RowOutputListed(nums, NumPerms, j);
  }

  /**
   * The printed date: when the input is legal, the answer is the printed form of one legal
   * ordering of its numbers, and no legal ordering is an earlier date.
   */
  lemma AnswerIsEarliestDate(input: string)
    requires ParseDate(input).Ok? && DateStringCheck(Split(input, '/')) == Ok(true)
    requires |ValidOutputs(ParseDate(input).value)| > 0
    ensures var nums := ParseDate(input).value;
      exists p :: IsOrdering(p) && ValidDate([nums[p[0]], nums[p[1]], nums[p[2]]]) &&
        Answer(input) == Ok(OutputDate([nums[p[0]], nums[p[1]], nums[p[2]]])) &&
        forall q :: IsOrdering(q) && ValidDate([nums[q[0]], nums[q[1]], nums[q[2]]]) ==>
          !Before(Canonical([nums[q[0]], nums[q[1]], nums[q[2]]]), Canonical([nums[p[0]], nums[p[1]], nums[p[2]]]))
  {
    var nums := ParseDate(input).value;
    assert Answer(input) == Ok(Least(ValidOutputs(nums)));
    var p := LeastFromOrdering(nums);
    var best := [nums[p[0]], nums[p[1]], nums[p[2]]];
    forall q | IsOrdering(q) && ValidDate([nums[q[0]], nums[q[1]], nums[q[2]]])
      ensures !Before(Canonical([nums[q[0]], nums[q[1]], nums[q[2]]]), Canonical(best))
    {
      var other := [nums[q[0]], nums[q[1]], nums[q[2]]];
      OrderingListed(nums, q);
      OutputOrderIsDateOrder(other, best);
    }
  }

  /** When the program prints "<input> is illegal": a bad year field, or no legal ordering at all. */
  lemma AnswerIllegal(input: string)
    requires ParseDate(input).Ok?
    ensures DateStringCheck(Split(input, '/')).Ok?
    ensures var nums := ParseDate(input).value;
      Answer(input) == Ok(input + " is illegal") <==>
        (DateStringCheck(Split(input, '/')) == Ok(false) ||
         forall p :: IsOrdering(p) ==> !ValidDate([nums[p[0]], nums[p[1]], nums[p[2]]]))
  {
    FormCheckTotal(input);
    var nums := ParseDate(input).value;
    var outs := ValidOutputs(nums);
    if |outs| > 0 {
      var p := LeastFromOrdering(nums);
      OutputDateFields([nums[p[0]], nums[p[1]], nums[p[2]]]);
      assert |input + " is illegal"| > 10;
    } else {
      forall p | IsOrdering(p)
        ensures !ValidDate([nums[p[0]], nums[p[1]], nums[p[2]]])
      {
        if ValidDate([nums[p[0]], nums[p[1]], nums[p[2]]]) {
          OrderingListed(nums, p);
        }
      }
    }
  }
}
