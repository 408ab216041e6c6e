/** The dataset loader: field parsers for ratings, costs and cuisines, the
    cleaned restaurant table, the vocabularies the validators resolve
    against, and the loader object whose `rawData` / `processedData` fields
    guard every query. */
module DataLoader {
  import opened Wrappers
  import opened Text
  import Seqs

  // ---------------------------------------------------------------------
  // parse_rate
  // ---------------------------------------------------------------------

  /** The rating texts that mean "no rating". */
  predicate IsRateSentinel(s: string) {
    s == "NEW" || s == "-" || s == "" || s == "nan"
  }

  function Clamp(v: real, lo: real, hi: real): real {
    if v < lo then lo else if v > hi then hi else v
  }

  /** `parse_rate`: the first, optionally negative, number clamped to [0, 5]. */
  function ParseRate(rate: Option<string>): (r: Option<real>)
    ensures rate.None? ==> r.None?
    ensures rate.Some? && IsRateSentinel(rate.value) ==> r.None?
    ensures r.Some? ==> 0.0 <= r.value <= 5.0
    ensures rate.Some? && !IsRateSentinel(rate.value) ==>
              match FirstSignedNumber(rate.value, 0)
              case None => r.None?
              case Some(v) =>
                && r.Some?
                && (0.0 <= v <= 5.0 ==> r.value == v)
                && (v < 0.0 ==> r.value == 0.0)
                && (v > 5.0 ==> r.value == 5.0)
  {
    match rate
    case None => None
    case Some(s) =>
      if IsRateSentinel(s) then None
      else match FirstSignedNumber(s, 0)
        case None => None
        case Some(v) => Some(Clamp(v, 0.0, 5.0))
  }

  /** "4.1/5" reads 4.1, "6/5" clamps to 5 and "-1/5" clamps to 0. */
  lemma ParseRateExamples()
    ensures ParseRate(Some("4.1/5")) == Some(4.1)
    ensures ParseRate(Some("6/5")) == Some(5.0)
    ensures ParseRate(Some("-1/5")) == Some(0.0)
    ensures ParseRate(Some("NEW")) == None
  {
    var a := "4.1/5";
    assert DigitSpan(a, 2) == 3;
    assert DigitSpan(a, 0) == 1;
    assert a[0..1] == "4" && a[2..3] == "1";
    assert DecimalValue("4", "1") == 4.1;
    var b := "6/5";
    assert DigitSpan(b, 0) == 1;
    assert b[0..1] == "6";
    var c := "-1/5";
    assert DigitSpan(c, 1) == 2;
    assert c[1..2] == "1";
  }

  // ---------------------------------------------------------------------
  // parse_cost
  // ---------------------------------------------------------------------

  /** The characters `[,\s₹$]` removed before the digits are read. */
  predicate IsCostNoise(c: char) {
    c == ',' || IsSpace(c) || c == '\U{20B9}' || c == '$'
  }

  predicate KeepCostChar(c: char) {
    !IsCostNoise(c)
  }

  /** The `\d+` runs of the cleaned cost text. */
  function CostNumbers(s: string): seq<nat> {
    DigitRuns(Seqs.Filter(Strip(s), KeepCostChar), 0)
  }

  /** `parse_cost`: one number is the cost, two are a range whose midpoint is
      the cost, and with more the first one counts. */
  function ParseCost(cost: Option<string>): (r: Option<real>)
    ensures r.Some? ==> r.value >= 0.0
    ensures cost.None? || cost == Some("") || cost == Some("nan") ==> r.None?
    ensures cost.Some? && cost.value != "" && cost.value != "nan" ==>
              var nums := CostNumbers(cost.value);
              && (nums == [] ==> r.None?)
              && (|nums| == 1 ==> r == Some(nums[0] as real))
              && (|nums| == 2 ==> r.Some? && r.value - nums[0] as real == nums[1] as real - r.value)
              && (|nums| >= 3 ==> r == Some(nums[0] as real))
  {
    match cost
    case None => None
    case Some(s) =>
      if s == "" || s == "nan" then None
      else
        var nums := CostNumbers(s);
        if nums == [] then None
        else if |nums| == 1 then Some(nums[0] as real)
        else if |nums| == 2 then Some((nums[0] as real + nums[1] as real) / 2.0)
        else Some(nums[0] as real)
  }

  lemma {:induction false} DigitRunsEmpty(s: string, i: nat)
    requires i <= |s|
    ensures DigitRuns(s, i) == [] <==> forall k :: i <= k < |s| ==> !IsDigit(s[k])
    decreases |s| - i
  {
    if i < |s| && !IsDigit(s[i]) {
      DigitRunsEmpty(s, i + 1);
    }
  }

  /** Stripping keeps every digit of the text. */
  lemma StripKeepsDigit(s: string, d: char)
    requires IsDigit(d)
    ensures d in Strip(s) <==> d in s
  {
    StripChars(s, d);
  }

  /** The cleaning before `\d+` keeps exactly the digits of the text. */
  lemma CostTextDigit(s: string, d: char)
    requires IsDigit(d)
    ensures d in Seqs.Filter(Strip(s), KeepCostChar) <==> d in s
  {
    StripKeepsDigit(s, d);
    Seqs.FilterMembership(Strip(s), KeepCostChar, d);
  }

  lemma CostNumbersEmpty(s: string)
    ensures CostNumbers(s) == [] <==> forall k :: 0 <= k < |s| ==> !IsDigit(s[k])
  {
    var u := Seqs.Filter(Strip(s), KeepCostChar);
    DigitRunsEmpty(u, 0);
    forall k | 0 <= k < |s| && IsDigit(s[k]) ensures exists j :: 0 <= j < |u| && IsDigit(u[j]) {
      CostTextDigit(s, s[k]);
      var j :| 0 <= j < |u| && u[j] == s[k];
    }
    forall j | 0 <= j < |u| && IsDigit(u[j]) ensures exists k :: 0 <= k < |s| && IsDigit(s[k]) {
      CostTextDigit(s, u[j]);
      var k :| 0 <= k < |s| && s[k] == u[j];
    }
  }

  /** A cost is read exactly when the text holds a digit and is no sentinel. */
  lemma ParseCostDefined(cost: Option<string>)
    ensures ParseCost(cost).Some? <==>
              cost.Some? && cost.value != "" && cost.value != "nan" && exists k :: 0 <= k < |cost.value| && IsDigit(cost.value[k])
  {
    if cost.Some? && cost.value != "" && cost.value != "nan" {
      assert ParseCost(cost).Some? <==> CostNumbers(cost.value) != [];
      CostNumbersEmpty(cost.value);
    }
  }

  lemma ParseCostSingle()
    ensures ParseCost(Some("500")) == Some(500.0)
  {
    var a := "500";
    assert Strip(a) == a;
    assert Seqs.Filter(a, KeepCostChar) == a;
    assert DigitSpan(a, 0) == 3;
    assert a[0..3] == "500";
    assert "500"[..2] == "50" && "50"[..1] == "5" && "5"[..0] == "";
    assert DigitsValue("5") == 5;
    assert DigitsValue("50") == 50;
    assert DigitsValue("500") == 500;
  }

  /** A plain numeral is its own cost. */
  lemma ParseCostDigits(d: string)
    requires d != [] && AllDigits(d)
    ensures ParseCost(Some(d)) == Some(DigitsValue(d) as real)
  {
    assert IsDigit(d[0]) && IsDigit(d[|d| - 1]);
    assert d != "nan";
    StripTrimmed(d);
    FilterKeepsAll(d, KeepCostChar);
    DigitSpanAt(d, 0, |d|);
    assert d[0..|d|] == d;
    assert DigitRuns(d, 0) == [DigitsValue(d)] + DigitRuns(d, |d|);
    assert Seqs.Filter(Strip(d), KeepCostChar) == d;
    assert CostNumbers(d) == [DigitsValue(d)];
  }

  /** `DigitSpan` stops exactly at the end of a run of digits. */
  lemma DigitSpanAt(s: string, i: nat, j: nat)
    requires i <= j <= |s|
    requires forall k :: i <= k < j ==> IsDigit(s[k])
    requires j == |s| || !IsDigit(s[j])
    ensures DigitSpan(s, i) == j
  {
  }

  lemma {:induction false} FilterKeepsAll<T>(s: seq<T>, keep: T -> bool)
    requires forall i :: 0 <= i < |s| ==> keep(s[i])
    ensures Seqs.Filter(s, keep) == s
  {
    if s != [] {
      FilterKeepsAll(s[1..], keep);
      assert s == [s[0]] + s[1..];
    }
  }

  lemma RangeTextShape(low: string, high: string, s: string)
    requires low != [] && high != [] && AllDigits(low) && AllDigits(high)
    requires s == low + "-" + high
    ensures forall i :: 0 <= i < |s| ==> KeepCostChar(s[i])
    ensures IsTrimmed(s)
  {
    var m := |low|;
    forall i | 0 <= i < |s| ensures IsDigit(s[i]) || s[i] == '-' {
      if i < m {
        assert s[i] == low[i];
      } else if i > m {
        assert s[i] == high[i - m - 1];
      }
    }
    assert s[0] == low[0];
    assert s[|s| - 1] == high[|high| - 1];
  }

  lemma RangeDigitRuns(low: string, high: string, s: string)
    requires low != [] && high != [] && AllDigits(low) && AllDigits(high)
    requires s == low + "-" + high
    ensures DigitRuns(s, 0) == [DigitsValue(low), DigitsValue(high)]
  {
    var m := |low|;
    assert s[m] == '-';
    assert forall k :: 0 <= k < m ==> s[k] == low[k];
    assert forall k :: m + 1 <= k < |s| ==> s[k] == high[k - m - 1];
    DigitSpanAt(s, 0, m);
    DigitSpanAt(s, m + 1, |s|);
    assert s[0..m] == low && s[m + 1..|s|] == high;
    assert DigitRuns(s, m + 1) == [DigitsValue(high)] + DigitRuns(s, |s|);
    assert DigitRuns(s, m) == DigitRuns(s, m + 1);
    assert DigitRuns(s, 0) == [DigitsValue(low)] + DigitRuns(s, m);
  }

  lemma RangeCostNumbers(low: string, high: string, s: string)
    requires low != [] && high != [] && AllDigits(low) && AllDigits(high)
    requires s == low + "-" + high
    ensures CostNumbers(s) == [DigitsValue(low), DigitsValue(high)]
  {
    RangeTextShape(low, high, s);
    StripTrimmed(s);
    FilterKeepsAll(s, KeepCostChar);
    RangeDigitRuns(low, high, s);
  }

  /** A range written "low-high" costs its midpoint. */
  lemma ParseCostRange(low: string, high: string, text: string)
    requires low != [] && high != [] && AllDigits(low) && AllDigits(high)
    requires text == low + "-" + high
    ensures ParseCost(Some(text)) == Some((DigitsValue(low) as real + DigitsValue(high) as real) / 2.0)
  {
    assert text[0] == low[0];
    RangeCostNumbers(low, high, text);
    ParseCostPair(text);
  }

  lemma ParseCostPair(s: string)
    requires s != "" && s != "nan" && |CostNumbers(s)| == 2
    ensures ParseCost(Some(s)) == Some((CostNumbers(s)[0] as real + CostNumbers(s)[1] as real) / 2.0)
  {
  }

  lemma ParseCostNoDigits()
    ensures ParseCost(Some("N/A")) == None
  {
    var s := "N/A";
    assert forall k :: 0 <= k < |s| ==> !IsDigit(s[k]);
    CostNumbersEmpty(s);
  }

  // ---------------------------------------------------------------------
  // normalize_cuisines
  // ---------------------------------------------------------------------

  predicate NonEmpty(s: string) {
    s != []
  }

  function StripAll(parts: seq<string>): (r: seq<string>)
    ensures |r| == |parts| && forall i :: 0 <= i < |r| ==> r[i] == Strip(parts[i])
  {
    seq(|parts|, i requires 0 <= i < |parts| => Strip(parts[i]))
  }

  /** `normalize_cuisines`: comma-separated pieces, trimmed, empties dropped. */
  function NormalizeCuisines(cuisines: Option<string>): (r: seq<string>)
    ensures cuisines.None? || cuisines == Some("") ==> r == []
    ensures forall i :: 0 <= i < |r| ==> r[i] != [] && IsTrimmed(r[i]) && ',' !in r[i]
  {
    match cuisines
    case None => []
    case Some(s) =>
      if s == "" then []
      else
        var r := Seqs.Filter(StripAll(Split(s, ',')), NonEmpty);
        CuisinePiecesClean(s, r);
        r
  }

  /** Every kept piece is non-empty, trimmed and free of commas. */
  lemma CuisinePiecesClean(s: string, r: seq<string>)
    requires r == Seqs.Filter(StripAll(Split(s, ',')), NonEmpty)
    ensures forall i :: 0 <= i < |r| ==> r[i] != [] && IsTrimmed(r[i]) && ',' !in r[i]
  {
    var pieces := StripAll(Split(s, ','));
    forall i | 0 <= i < |r| ensures r[i] != [] && IsTrimmed(r[i]) && ',' !in r[i] {
      Seqs.FilterMembership(pieces, NonEmpty, r[i]);
      var j :| 0 <= j < |pieces| && pieces[j] == r[i];
      StripSubstring(Split(s, ',')[j]);
    }
  }

  lemma StripSubstring(s: string)
    ensures forall c :: c in Strip(s) ==> c in s
  {
    forall c | c in Strip(s) ensures c in s {
      StripChars(s, c);
    }
  }

  /** The cuisines keep the order of the comma-separated text, and every
      non-empty stripped piece is kept, as often as it occurs. */
  lemma NormalizeCuisinesOrder(s: string)
    requires s != ""
    ensures Seqs.IsSubseq(NormalizeCuisines(Some(s)), StripAll(Split(s, ',')))
    ensures forall x :: multiset(NormalizeCuisines(Some(s)))[x] ==
                          if x != "" then multiset(StripAll(Split(s, ',')))[x] else 0
  {
    var pieces := StripAll(Split(s, ','));
    assert NormalizeCuisines(Some(s)) == Seqs.Filter(pieces, NonEmpty);
    Seqs.FilterIsSubseq(pieces, NonEmpty);
    NonEmptyCount(pieces);
  }

  lemma NonEmptyCount(pieces: seq<string>)
    ensures forall x :: multiset(Seqs.Filter(pieces, NonEmpty))[x] == if x != "" then multiset(pieces)[x] else 0
  {
    forall x ensures multiset(Seqs.Filter(pieces, NonEmpty))[x] == if x != "" then multiset(pieces)[x] else 0 {
      Seqs.FilterCount(pieces, NonEmpty, x);
    }
  }

  function Padded(parts: seq<string>, pad: string): (r: seq<string>)
    requires parts != []
    ensures |r| == |parts| && r[0] == parts[0]
    ensures forall i :: 1 <= i < |r| ==> r[i] == pad + parts[i]
  {
    [parts[0]] + seq(|parts| - 1, i requires 0 <= i < |parts| - 1 => pad + parts[i + 1])
  }

  lemma {:induction false} JoinPadded(parts: seq<string>, pad: string)
    requires parts != []
    ensures Join(parts, "," + pad) == Join(Padded(parts, pad), ",")
  {
    if |parts| > 1 {
      JoinPadded(parts[1..], pad);
      var p := Padded(parts, pad);
      var q := Padded(parts[1..], pad);
      assert p[1..] == [pad + parts[1]] + q[1..];
      assert Join(p[1..], ",") == pad + Join(q, ",") by {
        if |parts| > 2 {
          assert Join(p[1..], ",") == (pad + parts[1]) + "," + Join(p[2..], ",");
          assert q[1..] == p[2..];
          assert Join(q, ",") == parts[1] + "," + Join(q[1..], ",");
        } else {
          assert Join(q, ",") == parts[1];
        }
      }
    }
  }

  lemma PaddedPieces(parts: seq<string>, pad: string)
    requires parts != []
    requires forall i :: 0 <= i < |parts| ==> IsTrimmed(parts[i]) && parts[i] != [] && ',' !in parts[i]
    requires forall i :: 0 <= i < |pad| ==> IsSpace(pad[i])
    ensures forall i :: 0 <= i < |Padded(parts, pad)| ==> ',' !in Padded(parts, pad)[i]
    ensures StripAll(Padded(parts, pad)) == parts
  {
    var p := Padded(parts, pad);
    forall i | 0 <= i < |p| ensures ',' !in p[i] && Strip(p[i]) == parts[i] {
      StripTrimmed(parts[i]);
      if i > 0 {
        assert p[i] == pad + parts[i];
        assert forall k :: 0 <= k < |pad| ==> pad[k] != ',';
        TrimStartSpaces(pad, parts[i]);
      }
    }
  }

  lemma JoinNonEmpty(parts: seq<string>, sep: string)
    requires parts != [] && parts[0] != []
    ensures Join(parts, sep) != ""
  {
    if |parts| > 1 {
      assert Join(parts, sep) == parts[0] + sep + Join(parts[1..], sep);
    }
  }

  lemma CuisinePiecesOfJoin(parts: seq<string>, pad: string)
    requires parts != []
    requires forall i :: 0 <= i < |parts| ==> parts[i] != [] && IsTrimmed(parts[i]) && ',' !in parts[i]
    requires forall i :: 0 <= i < |pad| ==> IsSpace(pad[i])
    ensures StripAll(Split(Join(parts, "," + pad), ',')) == parts
  {
    JoinPadded(parts, pad);
    PaddedPieces(parts, pad);
    SplitJoin(Padded(parts, pad), ',');
  }

  /** Cuisine lists written the way the dataset writes them ("North Indian,
      Chinese") are read back unchanged. */
  lemma NormalizeCuisinesJoin(parts: seq<string>, pad: string)
    requires forall i :: 0 <= i < |parts| ==> parts[i] != [] && IsTrimmed(parts[i]) && ',' !in parts[i]
    requires forall i :: 0 <= i < |pad| ==> IsSpace(pad[i])
    ensures NormalizeCuisines(Some(Join(parts, "," + pad))) == parts
  {
    if parts != [] {
      JoinNonEmpty(parts, "," + pad);
      CuisinePiecesOfJoin(parts, pad);
      FilterAllKept(parts);
    }
  }

  lemma {:induction false} FilterAllKept(parts: seq<string>)
    requires forall i :: 0 <= i < |parts| ==> parts[i] != []
    ensures Seqs.Filter(parts, NonEmpty) == parts
  {
    if parts != [] {
      FilterAllKept(parts[1..]);
      assert parts == [parts[0]] + parts[1..];
    }
  }

  // ---------------------------------------------------------------------
  // Tables
  // ---------------------------------------------------------------------

  /** One row of the dataset as published; `None` is a missing (NaN) cell. */
  datatype RawRestaurant = RawRestaurant(
    name: string,
    address: Option<string>,
    url: Option<string>,
    location: Option<string>,
    restType: Option<string>,
    rate: Option<string>,
    approxCost: Option<string>,
    cuisines: Option<string>,
    listedInCity: Option<string>,
    votes: Option<int>)

  /** The raw frame: its rows and which of the optional columns it has. */
  datatype RawTable = RawTable(
    rows: seq<RawRestaurant>,
    hasRate: bool,
    hasCost: bool,
    hasCuisines: bool,
    hasCity: bool,
    hasVotes: bool)

  /** One row of the cleaned frame: the raw columns plus the derived ones. */
  datatype Restaurant = Restaurant(
    name: string,
    address: Option<string>,
    url: Option<string>,
    location: Option<string>,
    restType: Option<string>,
    rate: Option<string>,
    approxCost: Option<string>,
    cuisines: Option<string>,
    listedInCity: Option<string>,
    votes: Option<int>,
    ratingNumeric: Option<real>,
    costNumeric: Option<real>,
    cuisinesList: Option<seq<string>>,
    cityNormalized: Option<string>)

  datatype Table = Table(
    rows: seq<Restaurant>,
    hasRating: bool,
    hasCost: bool,
    hasCuisinesList: bool,
    hasCity: bool,
    hasVotes: bool)

  /** An absent column is missing in every row. */
  predicate WellFormed(t: Table) {
    forall i :: 0 <= i < |t.rows| ==>
      && (!t.hasRating ==> t.rows[i].ratingNumeric.None?)
      && (!t.hasCost ==> t.rows[i].costNumeric.None?)
      && (!t.hasCuisinesList ==> t.rows[i].cuisinesList.None?)
      && (!t.hasCity ==> t.rows[i].cityNormalized.None?)
      && (!t.hasVotes ==> t.rows[i].votes.None?)
  }

  /** `str(x)` for a text cell: a missing cell prints as "nan". */
  function CellText(cell: Option<string>): string {
    match cell
    case None => "nan"
    case Some(s) => s
  }

  /** The cleaned row `c` of raw row `r`: the raw columns are kept, votes are
      coerced with 0 for a missing cell, and each derived column present in
      the frame holds its parser's value on the raw cell. */
  predicate CleanedFrom(t: RawTable, r: RawRestaurant, c: Restaurant) {
    && c.name == r.name && c.address == r.address && c.url == r.url && c.location == r.location
    && c.restType == r.restType && c.rate == r.rate && c.approxCost == r.approxCost
    && c.cuisines == r.cuisines && c.listedInCity == r.listedInCity
    && c.votes == (if t.hasVotes then Some(r.votes.GetOr(0)) else None)
    && c.ratingNumeric == (if t.hasRate then ParseRate(r.rate) else None)
    && c.costNumeric == (if t.hasCost then ParseCost(r.approxCost) else None)
    && c.cuisinesList == (if t.hasCuisines then Some(NormalizeCuisines(r.cuisines)) else None)
    && c.cityNormalized == (if t.hasCity then Some(Strip(CellText(r.listedInCity))) else None)
  }

  /** The per-row work of `clean_and_validate`. */
  function CleanRow(t: RawTable, r: RawRestaurant): (c: Restaurant)
    ensures CleanedFrom(t, r, c)
    ensures c.name == r.name
    ensures (t.hasVotes ==> c.votes.Some?) && (!t.hasVotes ==> c.votes.None?)
    ensures !t.hasRate ==> c.ratingNumeric.None?
    ensures !t.hasCost ==> c.costNumeric.None?
    ensures !t.hasCuisines ==> c.cuisinesList.None?
    ensures (t.hasCity ==> c.cityNormalized.Some? && IsTrimmed(c.cityNormalized.value)) && (!t.hasCity ==> c.cityNormalized.None?)
    ensures c.ratingNumeric.Some? ==> 0.0 <= c.ratingNumeric.value <= 5.0
    ensures c.costNumeric.Some? ==> c.costNumeric.value >= 0.0
  {
    Restaurant(
      r.name, r.address, r.url, r.location, r.restType, r.rate, r.approxCost, r.cuisines, r.listedInCity,
      if t.hasVotes then Some(r.votes.GetOr(0)) else None,
      if t.hasRate then ParseRate(r.rate) else None,
      if t.hasCost then ParseCost(r.approxCost) else None,
      if t.hasCuisines then Some(NormalizeCuisines(r.cuisines)) else None,
      if t.hasCity then Some(Strip(CellText(r.listedInCity))) else None)
  }

  /** `clean_and_validate` on a frame: one cleaned row per raw row, in order. */
  function CleanTable(t: RawTable): (r: Table)
    ensures WellFormed(r)
    ensures |r.rows| == |t.rows|
    ensures forall i :: 0 <= i < |r.rows| ==> r.rows[i].name == t.rows[i].name
    ensures forall i :: 0 <= i < |r.rows| ==> CleanedFrom(t, t.rows[i], r.rows[i])
    ensures forall i :: 0 <= i < |r.rows| && r.hasVotes ==> r.rows[i].votes.Some?
    ensures forall i :: 0 <= i < |r.rows| && r.hasCity ==> r.rows[i].cityNormalized.Some? && IsTrimmed(r.rows[i].cityNormalized.value)
    ensures forall i :: 0 <= i < |r.rows| && r.rows[i].ratingNumeric.Some? ==> 0.0 <= r.rows[i].ratingNumeric.value <= 5.0
    ensures forall i :: 0 <= i < |r.rows| && r.rows[i].costNumeric.Some? ==> r.rows[i].costNumeric.value >= 0.0
  {
    Table(seq(|t.rows|, i requires 0 <= i < |t.rows| => CleanRow(t, t.rows[i])),
          t.hasRate, t.hasCost, t.hasCuisines, t.hasCity, t.hasVotes)
  }

  // ---------------------------------------------------------------------
  // get_unique_cities / get_unique_cuisines
  // ---------------------------------------------------------------------

  /** The non-missing `city_normalized` cells, in row order. */
  function CityCells(rows: seq<Restaurant>): (r: seq<string>)
    ensures forall x :: x in r <==> exists i :: 0 <= i < |rows| && rows[i].cityNormalized == Some(x)
  {
    if rows == [] then []
    else
      var rest := CityCells(rows[1..]);
      assert forall x :: (exists i :: 0 <= i < |rows[1..]| && rows[1..][i].cityNormalized == Some(x))
                         <==> (exists i :: 1 <= i < |rows| && rows[i].cityNormalized == Some(x)) by {
        forall x | exists i :: 1 <= i < |rows| && rows[i].cityNormalized == Some(x)
          ensures exists i :: 0 <= i < |rows[1..]| && rows[1..][i].cityNormalized == Some(x)
        {
          var i :| 1 <= i < |rows| && rows[i].cityNormalized == Some(x);
          assert rows[1..][i - 1] == rows[i];
        }
      }
      match rows[0].cityNormalized
      case None => rest
      case Some(c) => [c] + rest
  }

  predicate NonBlank(s: string) {
    Strip(s) != []
  }

  predicate StrictlyIncreasing(s: seq<string>) {
    forall i, j :: 0 <= i < j < |s| ==> StrLess(s[i], s[j])
  }

  /** `get_unique_cities` on a processed table. */
  function UniqueCities(t: Table): seq<string> {
    if !t.hasCity then ["Bangalore"]
    else Seqs.SortBy(Seqs.Filter(Seqs.Dedup(CityCells(t.rows)), NonBlank), StrLess)
  }

  /** The cities are strictly increasing, so duplicate-free. */
  lemma UniqueCitiesIncreasing(t: Table)
    requires t.hasCity
    ensures StrictlyIncreasing(UniqueCities(t))
  {
    var d := Seqs.Dedup(CityCells(t.rows));
    var f := Seqs.Filter(d, NonBlank);
    var r := Seqs.SortBy(f, StrLess);
    Seqs.FilterPreservesDistinct(d, NonBlank);
    Seqs.MultisetPreservesDistinct(f, r);
    StrLessStrictWeakOrder();
    Seqs.SortBySorted(f, StrLess);
    SortedDistinctIncreasing(r);
  }

  /** The cities are exactly the non-blank city cells of the table. */
  lemma UniqueCitiesMembers(t: Table, x: string)
    requires t.hasCity
    ensures x in UniqueCities(t) <==>
              NonBlank(x) && exists i :: 0 <= i < |t.rows| && t.rows[i].cityNormalized == Some(x)
  {
    var cells := CityCells(t.rows);
    var d := Seqs.Dedup(cells);
    var f := Seqs.Filter(d, NonBlank);
    Seqs.SortByMembership(f, StrLess, x);
    Seqs.FilterMembership(d, NonBlank, x);
    Seqs.DedupMembership(cells, x);
  }

  /** Without a city column the loader falls back to one city. */
  lemma UniqueCitiesFallback(t: Table)
    requires !t.hasCity
    ensures UniqueCities(t) == ["Bangalore"]
  {
  }

  /** The set of cuisines listed by any row. */
  function CuisineUnion(rows: seq<Restaurant>): set<string> {
    if rows == [] then {}
    else
      CuisineUnion(rows[..|rows| - 1]) +
      match rows[|rows| - 1].cuisinesList
      case None => {}
      case Some(cs) => set j | 0 <= j < |cs| :: cs[j]
  }

  lemma {:induction false} CuisineUnionMembers(rows: seq<Restaurant>, x: string)
    ensures x in CuisineUnion(rows) <==>
              exists i :: 0 <= i < |rows| && rows[i].cuisinesList.Some? && x in rows[i].cuisinesList.value
  {
    if rows != [] {
      var p := rows[..|rows| - 1];
      CuisineUnionMembers(p, x);
      assert forall i :: 0 <= i < |p| ==> p[i] == rows[i];
      var last := rows[|rows| - 1];
      if last.cuisinesList.Some? && x in last.cuisinesList.value {
        var j :| 0 <= j < |last.cuisinesList.value| && last.cuisinesList.value[j] == x;
      }
    }
  }

  // ---------------------------------------------------------------------
  // The loader object
  // ---------------------------------------------------------------------

  datatype LoaderError =
    | NoDataLoaded
    | NotProcessed(withHint: bool)
    | MissingColumn(column: string)

  function Message(e: LoaderError): string {
    match e
    case NoDataLoaded => "No data loaded. Call load_dataset() first."
    case NotProcessed(withHint) =>
      if withHint then "Data not processed. Call load_dataset() and clean_and_validate() first."
      else "Data not processed."
    case MissingColumn(c) => c
  }

  const DefaultDatasetName: string := "ManikaSaini/zomato-restaurant-recommendation"

  /** `ZomatoDataLoader`: the raw frame once downloaded, the processed frame
      once cleaned. */
  class ZomatoDataLoader {
    const datasetName: string
    var rawData: Option<RawTable>
    var processedData: Option<Table>

    constructor (datasetName: string := DefaultDatasetName)
      ensures this.datasetName == datasetName
      ensures rawData == None && processedData == None
    {
      this.datasetName := datasetName;
      rawData := None;
      processedData := None;
    }

    /** `load_dataset`, with the downloaded frame given as a parameter. */
    method LoadDataset(downloaded: RawTable) returns (r: RawTable)
      modifies this
      ensures rawData == Some(downloaded) && processedData == old(processedData)
      ensures r == downloaded
    {
      rawData := Some(downloaded);
      r := downloaded;
    }

    /** `clean_and_validate`: cleans the given frame, or the raw frame when
        none is given, and keeps the result as the processed frame. */
    method CleanAndValidate(df: Option<RawTable>) returns (r: Result<Table, LoaderError>)
      modifies this
      ensures rawData == old(rawData)
      ensures df.None? && old(rawData).None? ==> r == Err(NoDataLoaded) && processedData == old(processedData)
      ensures df.Some? ==> r == Ok(CleanTable(df.value)) && processedData == Some(r.value)
      ensures df.None? && old(rawData).Some? ==> r == Ok(CleanTable(old(rawData).value)) && processedData == Some(r.value)
    {
      var source: RawTable;
      if df.None? {
        if rawData.None? {
          return Err(NoDataLoaded);
        }
        source := rawData.value;
      } else {
        source := df.value;
      }
      var cleaned := CleanTable(source);
      processedData := Some(cleaned);
      r := Ok(cleaned);
    }

    /** `get_processed_data`. */
    method GetProcessedData() returns (r: Result<Table, LoaderError>)
      ensures processedData.None? ==> r == Err(NotProcessed(true))
      ensures processedData.Some? ==> r == Ok(processedData.value)
    {
      if processedData.None? {
        return Err(NotProcessed(true));
      }
      r := Ok(processedData.value);
    }

    /** `get_unique_cities`. */
    method GetUniqueCities() returns (r: Result<seq<string>, LoaderError>)
      ensures processedData.None? ==> r == Err(NotProcessed(false))
      ensures processedData.Some? ==> r == Ok(UniqueCities(processedData.value))
    {
      if processedData.None? {
        return Err(NotProcessed(false));
      }
      r := Ok(UniqueCities(processedData.value));
    }

    /** `get_unique_cuisines`: the union of every row's cuisine list, sorted. */
    method GetUniqueCuisines() returns (r: Result<seq<string>, LoaderError>)
      ensures processedData.None? ==> r == Err(NotProcessed(false))
      ensures processedData.Some? && !processedData.value.hasCuisinesList ==> r == Err(MissingColumn("cuisines_list"))
      ensures processedData.Some? && processedData.value.hasCuisinesList ==>
                && r.Ok?
                && StrictlyIncreasing(r.value)
                && forall x :: x in r.value <==> x in CuisineUnion(processedData.value.rows)
    {
      if processedData.None? {
        return Err(NotProcessed(false));
      }
      var t := processedData.value;
      if !t.hasCuisinesList {
        return Err(MissingColumn("cuisines_list"));
      }
      var all := CollectCuisines(t.rows);
      var sorted := SortedElements(all);
      r := Ok(sorted);
    }
  }

  /** The loop of `get_unique_cuisines` that gathers every row's cuisines. */
  method CollectCuisines(rows: seq<Restaurant>) returns (all: set<string>)
    ensures all == CuisineUnion(rows)
  {
    all := {};
    var i := 0;
    while i < |rows|
      invariant 0 <= i <= |rows|
      invariant all == CuisineUnion(rows[..i])
    {
      assert rows[..i + 1][..i] == rows[..i];
      match rows[i].cuisinesList {
        case None =>
        case Some(cs) =>
          all := all + set j | 0 <= j < |cs| :: cs[j];
      }
      i := i + 1;
    }
    assert rows[..|rows|] == rows;
  }

  /** `sorted(set)`: the elements of a finite set in increasing order. */
  method SortedElements(all: set<string>) returns (sorted: seq<string>)
    ensures StrictlyIncreasing(sorted)
    ensures forall x :: x in sorted <==> x in all
  {
    var rest := all;
    var listed: seq<string> := [];
    while rest != {}
      invariant rest <= all
      invariant forall x :: x in listed <==> x in all && x !in rest
      invariant Seqs.Distinct(listed)
      decreases |rest|
    {
      var x :| x in rest;
      listed := listed + [x];
      rest := rest - {x};
    }
    sorted := Seqs.SortBy(listed, StrLess);
    Seqs.MultisetPreservesDistinct(listed, sorted);
    StrLessStrictWeakOrder();
    Seqs.SortBySorted(listed, StrLess);
    SortedDistinctIncreasing(sorted);
    forall x ensures x in sorted <==> x in listed {
      assert x in sorted <==> x in multiset(sorted);
      assert x in listed <==> x in multiset(listed);
    }
  }
}
