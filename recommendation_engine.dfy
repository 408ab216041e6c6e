/** The recommendation pipeline: three row masks (city, cuisine, price), the
    deterministic ranking, and the engine object whose `GetRecommendations`
    narrows the table to candidates, asks the language model to pick among
    them, maps its picks back onto table rows (or falls back to the ranked
    order), and truncates to `top_n`. */
module RecommendationEngine {
  import opened Wrappers
  import opened Text
  import Seqs
  import opened DataLoader
  import opened InputValidation
  import opened GroqClient

  /** `RecommendedRestaurant`: a missing cell is `None`. */
  datatype RecommendedRestaurant = RecommendedRestaurant(
    name: string,
    address: Option<string>,
    city: Option<string>,
    cuisines: Option<seq<string>>,
    rating: Option<real>,
    costForTwo: Option<real>,
    url: Option<string>,
    reason: Option<string>)

  /** What pandas raises inside the pipeline: a column lookup on an absent
      column, and `reindex` on a non-unique index. */
  datatype EngineError =
    | KeyError(column: string)
    | DuplicateLabels

  // ---------------------------------------------------------------------
  // _filter_by_city / _filter_by_cuisine
  // ---------------------------------------------------------------------

  /** `city_normalized == city`; a missing cell never matches. */
  predicate InCity(city: string, r: Restaurant) {
    r.cityNormalized == Some(city)
  }

  /** The cuisine is in the row's list; a row without a list never matches. */
  predicate ServesCuisine(cuisine: string, r: Restaurant) {
    r.cuisinesList.Some? && cuisine in r.cuisinesList.value
  }

  /** Every occurrence of every row that `keep` selects, and nothing else,
      in the original order. */
  ghost predicate SelectsExactly(rows: seq<Restaurant>, from: seq<Restaurant>, keep: Restaurant -> bool) {
    && Seqs.IsSubseq(rows, from)
    && forall x :: multiset(rows)[x] == if keep(x) then multiset(from)[x] else 0
  }

  lemma MaskSelectsExactly(s: seq<Restaurant>, keep: Restaurant -> bool)
    ensures SelectsExactly(Seqs.Filter(s, keep), s, keep)
  {
    Seqs.FilterIsSubseq(s, keep);
    forall x ensures multiset(Seqs.Filter(s, keep))[x] == if keep(x) then multiset(s)[x] else 0 {
      Seqs.FilterCount(s, keep, x);
    }
  }

  function FilterByCity(t: Table, city: string): (r: Result<Table, EngineError>)
    ensures !t.hasCity ==> r == Err(KeyError("city_normalized"))
    ensures t.hasCity ==> r.Ok? && r.value.(rows := t.rows) == t
    ensures r.Ok? ==> SelectsExactly(r.value.rows, t.rows, x => InCity(city, x))
  {
    if !t.hasCity then Err(KeyError("city_normalized"))
    else
      MaskSelectsExactly(t.rows, x => InCity(city, x));
      Ok(t.(rows := Seqs.Filter(t.rows, x => InCity(city, x))))
  }

  function FilterByCuisine(t: Table, cuisine: string): (r: Result<Table, EngineError>)
    ensures !t.hasCuisinesList ==> r == Err(KeyError("cuisines_list"))
    ensures t.hasCuisinesList ==> r.Ok? && r.value.(rows := t.rows) == t
    ensures r.Ok? ==> SelectsExactly(r.value.rows, t.rows, x => ServesCuisine(cuisine, x))
  {
    if !t.hasCuisinesList then Err(KeyError("cuisines_list"))
    else
      MaskSelectsExactly(t.rows, x => ServesCuisine(cuisine, x));
      Ok(t.(rows := Seqs.Filter(t.rows, x => ServesCuisine(cuisine, x))))
  }

  // ---------------------------------------------------------------------
  // _filter_by_price
  // ---------------------------------------------------------------------

  /** pandas `cost >= bound`: false for a missing cost, and false in every
      row when the bound itself is `None`. */
  predicate AtLeast(cost: Option<real>, bound: Option<real>) {
    cost.Some? && bound.Some? && cost.value >= bound.value
  }

  predicate AtMost(cost: Option<real>, bound: Option<real>) {
    cost.Some? && bound.Some? && cost.value <= bound.value
  }

  /** The mask `_filter_by_price` applies to one cost: an exact value first
      (with the wider 15% / 150 window), then range fields, then a category's
      fixed thresholds; an unknown category or no preference keeps the row. */
  predicate PriceKeeps(p: PricePreference, cost: Option<real>) {
    if p.exact.Some? then
      var window := AsRange(p, 0.15, 150.0);
      AtLeast(cost, window.0) && AtMost(cost, window.1)
    else if p.minValue.Some? || p.maxValue.Some? then
      var bounds := AsRange(p, 0.10, 100.0);
      if bounds.0.Some? && bounds.1.Some? then AtLeast(cost, bounds.0) && AtMost(cost, bounds.1)
      else if bounds.0.Some? then AtLeast(cost, bounds.0)
      else AtMost(cost, bounds.1)
    else if p.category.Some? then
      match p.category.value
      case Budget => AtMost(cost, Some(500.0))
      case Moderate => AtLeast(cost, Some(501.0)) && AtMost(cost, Some(1000.0))
      case Premium => AtLeast(cost, Some(1001.0))
      case Unlisted => true
    else true
  }

  predicate CostKept(p: PricePreference, x: Restaurant) {
    PriceKeeps(p, x.costNumeric)
  }

  function FilterByPrice(t: Table, p: PricePreference): (r: Table)
    ensures r.(rows := t.rows) == t
    ensures t.rows == [] || !t.hasCost ==> r == t
    ensures t.hasCost ==> SelectsExactly(r.rows, t.rows, x => CostKept(p, x))
    ensures Seqs.IsSubseq(r.rows, t.rows)
  {
    if t.rows == [] || !t.hasCost then
      Seqs.SubseqRefl(t.rows);
      t
    else
      MaskSelectsExactly(t.rows, x => CostKept(p, x));
      t.(rows := Seqs.Filter(t.rows, x => CostKept(p, x)))
  }

  /** An exact target keeps precisely the costs in its 15% / 150 window, so
      700 keeps [550, 850] and with it 800, 700 and 600 but not 500 or 1200;
      the target itself is always kept. */
  lemma ExactWindow(e: real, c: real)
    requires e >= 0.0
    ensures var p := PricePreference(Some(e), None, None, None);
            var tol := Max(150.0, e * 0.15);
            && PriceKeeps(p, Some(e))
            && (PriceKeeps(p, Some(c)) <==> c >= 0.0 && e - tol <= c <= e + tol)
            && !PriceKeeps(p, None)
  {
  }

  lemma ExactSevenHundred(c: real)
    ensures PriceKeeps(PricePreference(Some(700.0), None, None, None), Some(c)) <==> 550.0 <= c <= 850.0
  {
  }

  /** Range fields bound the cost on each side that is set. */
  lemma RangeBounds(p: PricePreference, c: real)
    requires p.exact.None?
    ensures p.minValue.Some? && p.maxValue.Some? ==>
              (PriceKeeps(p, Some(c)) <==> p.minValue.value <= c <= p.maxValue.value)
    ensures p.minValue.Some? && p.maxValue.None? ==> (PriceKeeps(p, Some(c)) <==> c >= p.minValue.value)
    ensures p.minValue.None? && p.maxValue.Some? ==> (PriceKeeps(p, Some(c)) <==> c <= p.maxValue.value)
    ensures p.minValue.Some? || p.maxValue.Some? ==> !PriceKeeps(p, None)
  {
  }

  /** A bare category uses the fixed thresholds. */
  lemma CategoryThresholds(p: PricePreference, c: real)
    requires p.exact.None? && p.minValue.None? && p.maxValue.None? && p.category.Some?
    ensures p.category.value == Budget ==> (PriceKeeps(p, Some(c)) <==> c <= 500.0)
    ensures p.category.value == Moderate ==> (PriceKeeps(p, Some(c)) <==> 501.0 <= c <= 1000.0)
    ensures p.category.value == Premium ==> (PriceKeeps(p, Some(c)) <==> c >= 1001.0)
    ensures p.category.value == Unlisted ==> PriceKeeps(p, Some(c)) && PriceKeeps(p, None)
  {
  }

  /** An exact value together with only one range bound compares the costs
      against `None`, which selects nothing. */
  lemma ExactWithOneBound(p: PricePreference, cost: Option<real>)
    requires p.exact.Some? && (p.minValue.None? != p.maxValue.None?)
    ensures !PriceKeeps(p, cost)
  {
  }

  /** The parser's category preferences carry range fields, so the filter
      uses the configured limits and never the fixed thresholds. */
  lemma ParsedCategoryUsesRange(userPrice: Option<string>, budgetMax: real, moderateMax: real, c: real)
    requires ParsePricePreference(userPrice, budgetMax, moderateMax).Ok?
    requires ParsePricePreference(userPrice, budgetMax, moderateMax).value.category.Some?
    ensures var p := ParsePricePreference(userPrice, budgetMax, moderateMax).value;
            && (p.category.value == Budget ==> (PriceKeeps(p, Some(c)) <==> 0.0 <= c <= budgetMax))
            && (p.category.value == Moderate ==> (PriceKeeps(p, Some(c)) <==> budgetMax <= c <= moderateMax))
            && (p.category.value == Premium ==> (PriceKeeps(p, Some(c)) <==> c >= moderateMax))
            && p.category.value != Unlisted
  {
    var q := NormalizeToken(userPrice);
    ParsePriceKeywords(userPrice, budgetMax, moderateMax);
    if q != "" && !IsBudgetWord(q) && !IsModerateWord(q) && !IsPremiumWord(q) {
      ParsePriceNumbers(userPrice, budgetMax, moderateMax);
    }
    BoundsKeep(ParsePricePreference(userPrice, budgetMax, moderateMax).value, c);
  }

  /** Without an exact value, range fields keep exactly the costs within
      the bounds that are set. */
  lemma BoundsKeep(p: PricePreference, c: real)
    requires p.exact.None? && (p.minValue.Some? || p.maxValue.Some?)
    ensures PriceKeeps(p, Some(c)) <==>
              (p.minValue.None? || p.minValue.value <= c) && (p.maxValue.None? || c <= p.maxValue.value)
  {
    assert AsRange(p, 0.10, 100.0) == (p.minValue, p.maxValue);
  }

  // ---------------------------------------------------------------------
  // _deterministic_rank
  // ---------------------------------------------------------------------

  /** rating (missing as 0) * 100 + votes (missing as 0). */
  function SortScore(r: Restaurant): real {
    r.ratingNumeric.GetOr(0.0) * 100.0 + r.votes.GetOr(0) as real
  }

  /** Higher score first, then name ascending. */
  predicate RankBefore(a: Restaurant, b: Restaurant) {
    SortScore(a) > SortScore(b) || (SortScore(a) == SortScore(b) && StrLess(a.name, b.name))
  }

  lemma RankBeforeStrictWeakOrder()
    ensures Seqs.StrictWeakOrder(RankBefore)
  {
    StrLessStrictWeakOrder();
    forall a: Restaurant, b: Restaurant ensures RankBefore(a, b) ==> !RankBefore(b, a) {
      StrLessAsymmetric(a.name, b.name);
    }
    forall a: Restaurant, b: Restaurant, c: Restaurant | !RankBefore(a, b) && !RankBefore(b, c)
      ensures !RankBefore(a, c)
    {
      assert !StrLess(a.name, b.name) && !StrLess(b.name, c.name) ==> !StrLess(a.name, c.name);
    }
  }

  /** The votes column after `fillna(0)`. */
  function FillVotes(r: Restaurant): (f: Restaurant)
    ensures f.(votes := r.votes) == r
    ensures f.votes == Some(r.votes.GetOr(0))
    ensures SortScore(f) == SortScore(r)
  {
    r.(votes := Some(r.votes.GetOr(0)))
  }

  function FilledVotes(rows: seq<Restaurant>): (r: seq<Restaurant>)
    ensures |r| == |rows| && forall i :: 0 <= i < |rows| ==> r[i] == FillVotes(rows[i])
  {
    seq(|rows|, i requires 0 <= i < |rows| => FillVotes(rows[i]))
  }

  /** `_deterministic_rank`: the vote-filled rows, rearranged so that scores
      never increase and equal scores list names in ascending order. */
  function Rank(t: Table): (r: Result<Table, EngineError>)
    ensures !t.hasRating ==> r == Err(KeyError("rating_numeric"))
    ensures t.hasRating && !t.hasVotes ==> r == Err(KeyError("votes"))
    ensures t.hasRating && t.hasVotes ==> r.Ok? && r.value.(rows := t.rows) == t
    ensures r.Ok? ==> multiset(r.value.rows) == multiset(FilledVotes(t.rows))
    ensures r.Ok? ==> |r.value.rows| == |t.rows|
    ensures r.Ok? ==> Seqs.SortedBy(r.value.rows, RankBefore)
  {
    if !t.hasRating then Err(KeyError("rating_numeric"))
    else if !t.hasVotes then Err(KeyError("votes"))
    else
      var sorted := Seqs.SortBy(FilledVotes(t.rows), RankBefore);
      RankBeforeStrictWeakOrder();
      Seqs.SortBySorted(FilledVotes(t.rows), RankBefore);
      assert |sorted| == |multiset(sorted)| == |FilledVotes(t.rows)|;
      Ok(t.(rows := sorted))
  }

  /** The ranked order spelled out. */
  lemma RankOrder(t: Table, i: nat, j: nat)
    requires Rank(t).Ok? && i < j < |Rank(t).value.rows|
    ensures var rows := Rank(t).value.rows;
            && SortScore(rows[i]) >= SortScore(rows[j])
            && (SortScore(rows[i]) == SortScore(rows[j]) ==> !StrLess(rows[j].name, rows[i].name))
  {
  }

  /** Ranking a ranked table changes nothing. */
  lemma RankIdempotent(t: Table)
    requires Rank(t).Ok?
    ensures Rank(Rank(t).value) == Rank(t)
  {
    var u := Rank(t).value;
    forall i | 0 <= i < |u.rows| ensures FillVotes(u.rows[i]) == u.rows[i] {
      assert u.rows[i] in multiset(FilledVotes(t.rows));
      var k :| 0 <= k < |t.rows| && FilledVotes(t.rows)[k] == u.rows[i];
    }
    assert FilledVotes(u.rows) == u.rows;
    Seqs.SortByOfSorted(u.rows, RankBefore);
  }

  // ---------------------------------------------------------------------
  // get_recommendations
  // ---------------------------------------------------------------------

  /** The three masks in order. */
  function Filtered(t: Table, input: ValidatedUserInput): Result<Table, EngineError> {
    var byCity :- FilterByCity(t, input.city);
    var byCuisine :- FilterByCuisine(byCity, input.cuisine);
    Ok(FilterByPrice(byCuisine, input.price))
  }

  /** One row test for the whole filtering stage. */
  predicate Matches(t: Table, input: ValidatedUserInput, x: Restaurant) {
    InCity(input.city, x) && ServesCuisine(input.cuisine, x) && (t.hasCost ==> PriceKeeps(input.price, x.costNumeric))
  }

  /** Filtering fails exactly when the city or cuisine column is absent, and
      otherwise selects, in table order, exactly the rows that pass all three
      tests. */
  lemma FilteredSelects(t: Table, input: ValidatedUserInput)
    ensures Filtered(t, input).Err? <==> !t.hasCity || !t.hasCuisinesList
    ensures Filtered(t, input).Ok? ==>
              && Filtered(t, input).value.(rows := t.rows) == t
              && SelectsExactly(Filtered(t, input).value.rows, t.rows, x => Matches(t, input, x))
  {
    if t.hasCity && t.hasCuisinesList {
      var city := (x: Restaurant) => InCity(input.city, x);
      var cuisine := (x: Restaurant) => ServesCuisine(input.cuisine, x);
      var price := (x: Restaurant) => CostKept(input.price, x);
      var both := (x: Restaurant) => InCity(input.city, x) && ServesCuisine(input.cuisine, x);
      var all := (x: Restaurant) => Matches(t, input, x);
      var c1 := Seqs.Filter(t.rows, city);
      var c2 := Seqs.Filter(c1, cuisine);
      Seqs.FilterFilter(t.rows, city, cuisine, both);
      var f := Filtered(t, input).value;
      if t.hasCost {
        Seqs.FilterFilter(t.rows, both, price, all);
        if c2 == [] {
          assert Seqs.Filter(c2, price) == [];
        }
        assert f.rows == Seqs.Filter(t.rows, all);
      } else {
        Seqs.FilterFilter(t.rows, both, (x: Restaurant) => true, all);
        Seqs.FilterFilter(c2, (x: Restaurant) => true, (x: Restaurant) => true, (x: Restaurant) => true);
        FilterAll(c2);
        assert f.rows == Seqs.Filter(t.rows, all);
      }
      MaskSelectsExactly(t.rows, all);
    }
  }

  lemma {:induction false} FilterAll(s: seq<Restaurant>)
    ensures Seqs.Filter(s, (x: Restaurant) => true) == s
  {
    if s != [] {
      FilterAll(s[1..]);
    }
  }

  /** The top `limit` rows of the ranked filtered table (`head(limit)`). */
  function CandidatesFor(t: Table, input: ValidatedUserInput, limit: int): Result<seq<Restaurant>, EngineError> {
    var filtered :- Filtered(t, input);
    if filtered.rows == [] then Ok([])
    else
      var ranked :- Rank(filtered);
      Ok(Seqs.Take(ranked.rows, limit))
  }

  /** The language-model call, given `city`, `cuisine`, the preference's
      `as_range()` pair, the candidate rows and `top_n`; it either answers or
      raises `GroqError`. */
  type Llm = (string, string, (Option<real>, Option<real>), seq<Restaurant>, int) -> Result<LLMRecommendationResponse, GroqError>

  function Ask(llm: Llm, input: ValidatedUserInput, candidates: seq<Restaurant>, topN: int): Result<LLMRecommendationResponse, GroqError> {
    llm(input.city, input.cuisine, AsRange(input.price, 0.10, 100.0), candidates, topN)
  }

  const FallbackReason: string := "Deterministically ranked based on rating and votes."

  /** A row of the table as a recommendation. */
  function FromRow(row: Restaurant, reason: Option<string>): (r: RecommendedRestaurant)
    ensures r.name == row.name && r.address == row.address && r.url == row.url && r.reason == reason
    ensures r.city == row.cityNormalized && r.cuisines == row.cuisinesList
    ensures r.rating == row.ratingNumeric && r.costForTwo == row.costNumeric
  {
    RecommendedRestaurant(row.name, row.address, row.cityNormalized, row.cuisinesList,
                          row.ratingNumeric, row.costNumeric, row.url, reason)
  }

  /** The `name` column of a frame's rows. */
  function Names(rows: seq<Restaurant>): (r: seq<string>)
    ensures |r| == |rows| && forall i :: 0 <= i < |rows| ==> r[i] == rows[i].name
  {
    seq(|rows|, i requires 0 <= i < |rows| => rows[i].name)
  }

  /** `[r.name for r in recommendations]`: the LLM's picks in its order. */
  function PickedNames(recs: seq<LLMRecommendation>): (r: seq<string>)
    ensures |r| == |recs| && forall i :: 0 <= i < |recs| ==> r[i] == recs[i].name
  {
    seq(|recs|, i requires 0 <= i < |recs| => recs[i].name)
  }

  /** `{r.name: r.reason for r in recommendations}`. */
  function ReasonsMap(recs: seq<LLMRecommendation>): map<string, string> {
    if recs == [] then map[]
    else ReasonsMap(recs[..|recs| - 1])[recs[|recs| - 1].name := recs[|recs| - 1].reason]
  }

  /** Every picked name has an entry, and it holds the reason of the last
      pick with that name. */
  lemma {:induction false} ReasonsMapLastWins(recs: seq<LLMRecommendation>, i: nat)
    requires i < |recs|
    ensures recs[i].name in ReasonsMap(recs)
    ensures exists j :: i <= j < |recs| && recs[j].name == recs[i].name
                        && ReasonsMap(recs)[recs[i].name] == recs[j].reason
                        && forall k :: j < k < |recs| ==> recs[k].name != recs[i].name
  {
    var last := |recs| - 1;
    if i == last || recs[last].name == recs[i].name {
      assert ReasonsMap(recs)[recs[i].name] == recs[last].reason;
    } else {
      var init := recs[..last];
      ReasonsMapLastWins(init, i);
      var j :| i <= j < |init| && init[j].name == init[i].name
               && ReasonsMap(init)[init[i].name] == init[j].reason
               && forall k :: j < k < |init| ==> init[k].name != init[i].name;
      assert recs[j] == init[j];
      assert forall k :: j < k < |recs| ==> recs[k].name != recs[i].name by {
        forall k | j < k < |recs| ensures recs[k].name != recs[i].name {
          if k < last {
            assert recs[k] == init[k];
          }
        }
      }
    }
  }

  /** `dict.get`. */
  function ReasonFor(m: map<string, string>, n: string): Option<string> {
    if n in m then Some(m[n]) else None
  }

  /** The first row with the given name. */
  function RowNamed(rows: seq<Restaurant>, n: string): (r: Option<Restaurant>)
    ensures r.Some? ==> r.value in rows && r.value.name == n
    ensures r.None? ==> forall j :: 0 <= j < |rows| ==> rows[j].name != n
  {
    if rows == [] then None
    else if rows[0].name == n then Some(rows[0])
    else RowNamed(rows[1..], n)
  }

  /** `name.isin(names)`. */
  predicate IsPicked(names: seq<string>, x: Restaurant) {
    x.name in names
  }

  /** `candidates[candidates["name"].isin(names)]`. */
  function Picked(candidates: seq<Restaurant>, names: seq<string>): (r: seq<Restaurant>)
    ensures forall x :: x in r <==> x in candidates && x.name in names
    ensures Seqs.IsSubseq(r, candidates)
    ensures forall x :: multiset(r)[x] == if x.name in names then multiset(candidates)[x] else 0
  {
    var keep := (x: Restaurant) => IsPicked(names, x);
    Seqs.FilterIsSubseq(candidates, keep);
    forall x ensures multiset(Seqs.Filter(candidates, keep))[x] == if x.name in names then multiset(candidates)[x] else 0 {
      Seqs.FilterCount(candidates, keep, x);
    }
    assert forall x :: x in Seqs.Filter(candidates, keep) <==> x in candidates && x.name in names by {
      forall x ensures x in Seqs.Filter(candidates, keep) <==> x in candidates && x.name in names {
        Seqs.FilterMembership(candidates, keep, x);
      }
    }
    Seqs.Filter(candidates, keep)
  }

  /** A row of the reindexed frame: a candidate, or a label that matched no
      candidate and so carries no data. */
  datatype Slot = Found(row: Restaurant) | Absent(pick: string)

  function SlotName(s: Slot): string {
    match s
    case Found(row) => row.name
    case Absent(n) => n
  }

  /** `candidates[name.isin(names)].set_index("name").reindex(names)`, as
      written: pandas returns the frame unchanged when the labels already
      equal `names`, refuses a non-unique index otherwise, and gives a
      label that is not in the index a row of missing values. */
  function Reindex(candidates: seq<Restaurant>, names: seq<string>): (r: Result<seq<Slot>, EngineError>)
    ensures var labels := Names(Picked(candidates, names));
            r.Err? <==> labels != names && !Seqs.Distinct(labels)
    ensures r.Err? ==> r.error == DuplicateLabels
    ensures r.Ok? ==> |r.value| == |names|
    ensures r.Ok? ==> forall i :: 0 <= i < |names| ==>
              && SlotName(r.value[i]) == names[i]
              && (r.value[i].Found? ==> r.value[i].row in candidates)
              && (r.value[i].Absent? ==> forall c :: c in candidates ==> c.name != names[i])
  {
    var picked := Picked(candidates, names);
    var labels := Names(picked);
    if labels == names then
      Ok(seq(|picked|, i requires 0 <= i < |picked| => Found(picked[i])))
    else if !Seqs.Distinct(labels) then Err(DuplicateLabels)
    else
      Ok(seq(|names|, i requires 0 <= i < |names| =>
        match RowNamed(picked, names[i])
        case Some(row) => Found(row)
        case None => Absent(names[i])))
  }

  /** A reindexed row with the pick's reason. */
  function SlotRecommendation(s: Slot, reasons: map<string, string>): (r: RecommendedRestaurant)
    ensures r.name == SlotName(s) && r.reason == ReasonFor(reasons, SlotName(s))
    ensures s.Found? ==> r == FromRow(s.row, ReasonFor(reasons, SlotName(s)))
    ensures s.Absent? ==> r.address.None? && r.city.None? && r.cuisines.None? && r.rating.None?
                          && r.costForTwo.None? && r.url.None?
  {
    match s
    case Found(row) => FromRow(row, ReasonFor(reasons, row.name))
    case Absent(n) => RecommendedRestaurant(n, None, None, None, None, None, None, ReasonFor(reasons, n))
  }

  function LlmRecommendations(slots: seq<Slot>, reasons: map<string, string>): (r: seq<RecommendedRestaurant>)
    ensures |r| == |slots| && forall i :: 0 <= i < |slots| ==> r[i] == SlotRecommendation(slots[i], reasons)
  {
    if slots == [] then []
    else LlmRecommendations(slots[..|slots| - 1], reasons) + [SlotRecommendation(slots[|slots| - 1], reasons)]
  }

  function FallbackRecommendations(rows: seq<Restaurant>): (r: seq<RecommendedRestaurant>)
    ensures |r| == |rows| && forall i :: 0 <= i < |rows| ==> r[i] == FromRow(rows[i], Some(FallbackReason))
  {
    if rows == [] then []
    else FallbackRecommendations(rows[..|rows| - 1]) + [FromRow(rows[|rows| - 1], Some(FallbackReason))]
  }

  /** What `get_recommendations` returns for resolved `top_n` and candidate
      limit. */
  function Recommend(t: Table, input: ValidatedUserInput, topN: int, limit: int, llm: Llm): (r: Result<seq<RecommendedRestaurant>, EngineError>)
    ensures topN >= 0 && r.Ok? ==> |r.value| <= topN
  {
    var candidates :- CandidatesFor(t, input, limit);
    if candidates == [] then Ok([])
    else
      var response := Ask(llm, input, candidates, topN);
      if response.Ok? && response.value.recommendations != [] then
        LlmAnswer(candidates, response.value.recommendations, topN)
      else
        Ok(Seqs.Take(FallbackRecommendations(Seqs.Take(candidates, topN)), topN))
  }

  /** The answer built from the LLM's picks: the candidates reindexed by the
      picked names, each with its reason, cut to `top_n`. */
  function LlmAnswer(candidates: seq<Restaurant>, recs: seq<LLMRecommendation>, topN: int): (r: Result<seq<RecommendedRestaurant>, EngineError>)
    ensures topN >= 0 && r.Ok? ==> |r.value| <= topN
  {
    var slots :- Reindex(candidates, PickedNames(recs));
    Ok(Seqs.Take(LlmRecommendations(slots, ReasonsMap(recs)), topN))
  }

  /** When filtering leaves no rows, or the limit leaves no candidates, the
      answer is empty (or the column error) whatever the model would say: it
      is never asked. */
  lemma NoCandidatesNoCall(t: Table, input: ValidatedUserInput, topN: int, limit: int, llm1: Llm, llm2: Llm)
    requires Filtered(t, input).Ok?
    requires Filtered(t, input).value.rows == [] || Seqs.Take(Filtered(t, input).value.rows, limit) == []
    ensures Recommend(t, input, topN, limit, llm1) == Recommend(t, input, topN, limit, llm2)
    ensures Recommend(t, input, topN, limit, llm1).Ok? ==> Recommend(t, input, topN, limit, llm1).value == []
    ensures Filtered(t, input).value.rows == [] ==> Recommend(t, input, topN, limit, llm1) == Ok([])
  {
    var f := Filtered(t, input).value;
    if f.rows != [] && Rank(f).Ok? {
      assert |Seqs.Take(Rank(f).value.rows, limit)| == |Seqs.Take(f.rows, limit)|;
    }
  }

  /** On a model error or an empty pick list, the answer is the first
      `top_n` candidates in ranked order with the fixed reason. */
  lemma Fallback(t: Table, input: ValidatedUserInput, topN: int, limit: int, llm: Llm)
    requires topN >= 0
    requires CandidatesFor(t, input, limit).Ok? && CandidatesFor(t, input, limit).value != []
    requires var response := Ask(llm, input, CandidatesFor(t, input, limit).value, topN);
             response.Err? || response.value.recommendations == []
    ensures var candidates := CandidatesFor(t, input, limit).value;
            var r := Recommend(t, input, topN, limit, llm);
            && r.Ok?
            && |r.value| == (if topN <= |candidates| then topN else |candidates|)
            && forall i :: 0 <= i < |r.value| ==> r.value[i] == FromRow(candidates[i], Some(FallbackReason))
  {
    var candidates := CandidatesFor(t, input, limit).value;
    var head := Seqs.Take(candidates, topN);
    var out := FallbackRecommendations(head);
    assert Recommend(t, input, topN, limit, llm) == Ok(Seqs.Take(out, topN));
    assert Seqs.Take(out, topN) == out;
    forall i | 0 <= i < |out| ensures out[i] == FromRow(candidates[i], Some(FallbackReason)) {
      assert head[i] == candidates[i];
    }
  }

  /** On a non-empty pick list that pandas can reindex, the i-th answer is
      the i-th pick, with that name's (last) reason, and with the data of a
      candidate of that name when there is one and no data otherwise. */
  lemma LlmOrder(t: Table, input: ValidatedUserInput, topN: int, limit: int, llm: Llm, i: nat)
    requires topN >= 0
    requires CandidatesFor(t, input, limit).Ok? && CandidatesFor(t, input, limit).value != []
    requires Ask(llm, input, CandidatesFor(t, input, limit).value, topN).Ok?
    requires Ask(llm, input, CandidatesFor(t, input, limit).value, topN).value.recommendations != []
    requires Reindex(CandidatesFor(t, input, limit).value,
                     PickedNames(Ask(llm, input, CandidatesFor(t, input, limit).value, topN).value.recommendations)).Ok?
    requires i < topN && i < |Ask(llm, input, CandidatesFor(t, input, limit).value, topN).value.recommendations|
    ensures var candidates := CandidatesFor(t, input, limit).value;
            var recs := Ask(llm, input, candidates, topN).value.recommendations;
            var r := Recommend(t, input, topN, limit, llm);
            && r.Ok?
            && |r.value| == (if topN <= |recs| then topN else |recs|)
            && r.value[i].name == recs[i].name
            && (exists j :: i <= j < |recs| && recs[j].name == recs[i].name && r.value[i].reason == Some(recs[j].reason)
                            && forall k :: j < k < |recs| ==> recs[k].name != recs[i].name)
            && ((exists c :: c in candidates && c.name == recs[i].name) ==>
                  exists c :: c in candidates && c.name == recs[i].name && r.value[i] == FromRow(c, r.value[i].reason))
            && ((forall c :: c in candidates ==> c.name != recs[i].name) ==>
                  r.value[i] == RecommendedRestaurant(recs[i].name, None, None, None, None, None, None, r.value[i].reason))
  {
    var candidates := CandidatesFor(t, input, limit).value;
    var recs := Ask(llm, input, candidates, topN).value.recommendations;
    var slots := Reindex(candidates, PickedNames(recs)).value;
    ReasonsMapLastWins(recs, i);
    var out := LlmRecommendations(slots, ReasonsMap(recs));
    assert Recommend(t, input, topN, limit, llm) == Ok(Seqs.Take(out, topN));
    assert out[i] == SlotRecommendation(slots[i], ReasonsMap(recs));
    if slots[i].Found? {
      assert slots[i].row in candidates && slots[i].row.name == recs[i].name;
    }
  }

  // ---------------------------------------------------------------------
  // The engine object
  // ---------------------------------------------------------------------

  /** `RecommendationEngine`: the processed table and the two defaults,
      fixed at construction. */
  class RecommendationEngine {
    const df: Table
    const llmCandidateLimit: int
    const topNRecommendations: int

    constructor (df: Table, llmCandidateLimit: int := 20, topNRecommendations: int := 10)
      ensures this.df == df
      ensures this.llmCandidateLimit == llmCandidateLimit && this.topNRecommendations == topNRecommendations
    {
      this.df := df;
      this.llmCandidateLimit := llmCandidateLimit;
      this.topNRecommendations := topNRecommendations;
    }

    /** `get_recommendations`: the filters and ranking, the model call, the
        two `append` loops and the final `[:top_n]`. */
    method GetRecommendations(input: ValidatedUserInput, topN: Option<int>, limit: Option<int>, llm: Llm)
      returns (r: Result<seq<RecommendedRestaurant>, EngineError>)
      ensures r == Recommend(df, input, topN.GetOr(topNRecommendations), limit.GetOr(llmCandidateLimit), llm)
      ensures topN.GetOr(topNRecommendations) >= 0 && r.Ok? ==> |r.value| <= topN.GetOr(topNRecommendations)
    {
      var n := if topN.None? then topNRecommendations else topN.value;
      var k := if limit.None? then llmCandidateLimit else limit.value;
      var candidates :- CandidatesFor(df, input, k);
      if candidates == [] {
        return Ok([]);
      }
      var response := Ask(llm, input, candidates, n);
      var recommendations: seq<RecommendedRestaurant> := [];
      if response.Ok? && response.value.recommendations != [] {
        var recs := response.value.recommendations;
        var reasons := ReasonsMap(recs);
        var ordered :- Reindex(candidates, PickedNames(recs));
        recommendations := CollectPicks(ordered, reasons);
      } else {
        recommendations := CollectFallback(Seqs.Take(candidates, n));
      }
      r := Ok(Seqs.Take(recommendations, n));
    }
  }

  /** The `append` loop over the reindexed rows. */
  method CollectPicks(ordered: seq<Slot>, reasons: map<string, string>) returns (recommendations: seq<RecommendedRestaurant>)
    ensures recommendations == LlmRecommendations(ordered, reasons)
  {
    recommendations := [];
    var i := 0;
    while i < |ordered|
      invariant 0 <= i <= |ordered|
      invariant recommendations == LlmRecommendations(ordered[..i], reasons)
    {
      assert ordered[..i + 1][..i] == ordered[..i];
      recommendations := recommendations + [SlotRecommendation(ordered[i], reasons)];
      i := i + 1;
    }
    assert ordered[..|ordered|] == ordered;
  }

  /** The `append` loop over the first `top_n` ranked candidates. */
  method CollectFallback(head: seq<Restaurant>) returns (recommendations: seq<RecommendedRestaurant>)
    ensures recommendations == FallbackRecommendations(head)
  {
    recommendations := [];
    var i := 0;
    while i < |head|
      invariant 0 <= i <= |head|
      invariant recommendations == FallbackRecommendations(head[..i])
    {
      assert head[..i + 1][..i] == head[..i];
      recommendations := recommendations + [FromRow(head[i], Some(FallbackReason))];
      i := i + 1;
    }
    assert head[..|head|] == head;
  }

  /** `RecommendationEngine.__init__`: cleans the loader's raw frame and
      keeps the processed table, failing as the loader does when nothing
      was loaded. */
  method NewEngine(loader: ZomatoDataLoader, llmCandidateLimit: int := 20, topNRecommendations: int := 10)
    returns (r: Result<RecommendationEngine, LoaderError>)
    modifies loader
    ensures loader.rawData == old(loader.rawData)
    ensures old(loader.rawData).None? ==> r == Err(NoDataLoaded) && loader.processedData == old(loader.processedData)
    ensures old(loader.rawData).Some? ==>
              && r.Ok? && fresh(r.value)
              && r.value.df == CleanTable(old(loader.rawData).value)
              && r.value.llmCandidateLimit == llmCandidateLimit
              && r.value.topNRecommendations == topNRecommendations
              && loader.processedData == Some(r.value.df)
  {
    var cleaned := loader.CleanAndValidate(None);
    if cleaned.Err? {
      return Err(cleaned.error);
    }
    var processed := loader.GetProcessedData();
    var engine := new RecommendationEngine(processed.value, llmCandidateLimit, topNRecommendations);
    r := Ok(engine);
  }

  // ---------------------------------------------------------------------
  // Reindexing keeps names the candidates do not have
  // ---------------------------------------------------------------------

  /** A pick that names no candidate still becomes a row, with no data. */
  lemma ReindexKeepsUnknownPick()
    ensures var known := Restaurant("A", Some("Addr A"), None, None, None, None, None, None, None,
                                    Some(500), Some(4.5), Some(800.0), Some(["North Indian"]), Some("Bangalore"));
            Reindex([known], ["Z"]) == Ok([Absent("Z")])
  {
    var known := Restaurant("A", Some("Addr A"), None, None, None, None, None, None, None,
                            Some(500), Some(4.5), Some(800.0), Some(["North Indian"]), Some("Bangalore"));
    var picked := Picked([known], ["Z"]);
    assert known !in picked;
    assert picked == [];
    assert Names(picked) == [];
    assert RowNamed(picked, "Z") == None;
    assert Names(picked) != ["Z"] && Seqs.Distinct(Names(picked));
    var r := Reindex([known], ["Z"]);
    assert r.Ok? && |r.value| == 1;
    assert r.value[0] == Absent("Z");
    assert r.value == [Absent("Z")];
  }

  /** The evident intent, "keeping only LLM picks" among the candidates:
      picks that name no candidate are dropped, the others keep the LLM's
      order. */
  function ReindexPicked(candidates: seq<Restaurant>, names: seq<string>): (r: Result<seq<Restaurant>, EngineError>)
    ensures r.Err? <==> Reindex(candidates, names).Err?
    ensures r.Ok? ==> forall i :: 0 <= i < |r.value| ==> r.value[i] in candidates && r.value[i].name in names
    ensures r.Ok? ==> forall n :: n in names && (exists c :: c in candidates && c.name == n) ==>
                        exists i :: 0 <= i < |r.value| && r.value[i].name == n
    ensures r.Ok? ==> Seqs.IsSubseq(Names(r.value), names)
  {
    var slots :- Reindex(candidates, names);
    ReindexFound(candidates, names);
    Ok(FoundRows(slots))
  }

  /** The found rows of a successful reindex are named candidates, cover
      every picked name some candidate has, and keep the labels' order. */
  lemma ReindexFound(candidates: seq<Restaurant>, names: seq<string>)
    requires Reindex(candidates, names).Ok?
    ensures var rows := FoundRows(Reindex(candidates, names).value);
            && (forall i :: 0 <= i < |rows| ==> rows[i] in candidates && rows[i].name in names)
            && (forall n :: n in names && (exists c :: c in candidates && c.name == n) ==>
                  exists i :: 0 <= i < |rows| && rows[i].name == n)
            && Seqs.IsSubseq(Names(rows), names)
  {
    var slots := Reindex(candidates, names).value;
    FoundNamesInOrder(slots, names);
    FoundCovers(candidates, names, slots);
  }

  lemma FoundCovers(candidates: seq<Restaurant>, names: seq<string>, slots: seq<Slot>)
    requires |slots| == |names|
    requires forall i :: 0 <= i < |names| ==>
               && SlotName(slots[i]) == names[i]
               && (slots[i].Found? ==> slots[i].row in candidates)
               && (slots[i].Absent? ==> forall c :: c in candidates ==> c.name != names[i])
    ensures forall i :: 0 <= i < |FoundRows(slots)| ==> FoundRows(slots)[i] in candidates && FoundRows(slots)[i].name in names
    ensures forall n :: n in names && (exists c :: c in candidates && c.name == n) ==>
              exists i :: 0 <= i < |FoundRows(slots)| && FoundRows(slots)[i].name == n
  {
    var rows := FoundRows(slots);
    forall i | 0 <= i < |rows| ensures rows[i] in candidates && rows[i].name in names {
      var k :| 0 <= k < |slots| && slots[k] == Found(rows[i]);
      assert SlotName(slots[k]) == names[k];
    }
    forall n | n in names && (exists c :: c in candidates && c.name == n)
      ensures exists i :: 0 <= i < |rows| && rows[i].name == n
    {
      var k :| 0 <= k < |names| && names[k] == n;
      var c :| c in candidates && c.name == n;
      assert slots[k].Found?;
      var i :| 0 <= i < |rows| && rows[i] == slots[k].row;
      assert rows[i].name == SlotName(slots[k]);
    }
  }

  /** The rows found by reindexing come in the order of the labels. */
  lemma {:induction false} FoundNamesInOrder(slots: seq<Slot>, names: seq<string>)
    requires |slots| == |names| && forall i :: 0 <= i < |slots| ==> SlotName(slots[i]) == names[i]
    ensures Seqs.IsSubseq(Names(FoundRows(slots)), names)
  {
    if slots != [] {
      FoundNamesInOrder(slots[1..], names[1..]);
      var rest := Names(FoundRows(slots[1..]));
      if slots[0].Found? {
        FoundHeadName(slots);
        Seqs.SubseqCons(Names(FoundRows(slots)), names);
      } else {
        assert FoundRows(slots) == FoundRows(slots[1..]);
        Seqs.SubseqOfTail(rest, names);
      }
    }
  }

  lemma FoundHeadName(slots: seq<Slot>)
    requires slots != [] && slots[0].Found?
    ensures var n := Names(FoundRows(slots));
            n != [] && n[0] == SlotName(slots[0]) && n[1..] == Names(FoundRows(slots[1..]))
  {
    var rest := FoundRows(slots[1..]);
    assert FoundRows(slots) == [slots[0].row] + rest;
    assert Names([slots[0].row] + rest)[1..] == Names(rest);
  }

  function FoundRows(slots: seq<Slot>): (r: seq<Restaurant>)
    ensures forall i :: 0 <= i < |r| ==> Found(r[i]) in slots
    ensures forall i :: 0 <= i < |slots| && slots[i].Found? ==> slots[i].row in r
  {
    if slots == [] then []
    else (if slots[0].Found? then [slots[0].row] else []) + FoundRows(slots[1..])
  }
}
