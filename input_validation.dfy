/** User input validation: token normalisation, resolution of a city or a
    cuisine against the dataset's vocabulary, and price-preference parsing
    into an exact value, a range or a category. */
module InputValidation {
  import opened Wrappers
  import opened Text
  import Seqs

  // ---------------------------------------------------------------------
  // normalize_token
  // ---------------------------------------------------------------------

  /** Trim, lowercase, then collapse every whitespace run to one space. */
  function NormalizeText(s: string): string {
    CollapseSpaces(Lower(Strip(s)))
  }

  /** `normalize_token`: `None` becomes the empty string. */
  function NormalizeToken(value: Option<string>): string {
    match value
    case None => ""
    case Some(s) => NormalizeText(s)
  }

  /** The canonical shape of a normalised token. */
  predicate IsNormalized(s: string) {
    && IsTrimmed(s)
    && SpacesCollapsed(s)
    && (forall i :: 0 <= i < |s| ==> !IsUpper(s[i]))
  }

  /** A normalised token has no leading or trailing whitespace, no whitespace
      other than single spaces, and no upper-case letter. */
  lemma NormalizeTokenShape(value: Option<string>)
    ensures IsNormalized(NormalizeToken(value))
    ensures value.None? ==> NormalizeToken(value) == ""
  {
    if value.Some? {
      var t := Strip(value.value);
      var l := Lower(t);
      assert IsTrimmed(l);
      CollapseTrimmed(l);
      CollapseSpacesShape(l);
      CollapseLowerNoUpper(t);
    }
  }

  /** Collapsing whitespace keeps a trimmed text trimmed. */
  lemma CollapseTrimmed(l: string)
    requires IsTrimmed(l)
    ensures IsTrimmed(CollapseSpaces(l))
  {
    if l != [] {
      CollapseSpacesLast(l);
    }
  }

  /** Collapsing whitespace in a lowered text introduces no upper-case letter. */
  lemma CollapseLowerNoUpper(t: string)
    ensures forall i :: 0 <= i < |CollapseSpaces(Lower(t))| ==> !IsUpper(CollapseSpaces(Lower(t))[i])
  {
    var c := CollapseSpaces(Lower(t));
    CollapseSpacesChars(Lower(t));
    forall i | 0 <= i < |c| ensures !IsUpper(c[i]) {
      if c[i] != ' ' {
        LowerMember(t, c[i]);
      }
    }
  }

  /** A token that is already normalised is a fixed point. */
  lemma NormalizeTextFixed(s: string)
    requires IsNormalized(s)
    ensures NormalizeText(s) == s
  {
    StripTrimmed(s);
    assert Lower(s) == s;
    CollapseSpacesFixed(s);
  }

  /** Normalising twice is normalising once. */
  lemma NormalizeTokenIdempotent(value: Option<string>)
    ensures NormalizeToken(Some(NormalizeToken(value))) == NormalizeToken(value)
  {
    NormalizeTokenShape(value);
    NormalizeTextFixed(NormalizeToken(value));
  }

  // ---------------------------------------------------------------------
  // Validation errors
  // ---------------------------------------------------------------------

  datatype Field = City | Cuisine

  datatype ValidationError =
    | NoneAvailable(field: Field)
    | Required(field: Field)
    | NotFound(field: Field, suggestions: seq<string>)
    | PriceRequired
    | PriceInvalid

  function Label(f: Field): string {
    match f
    case City => "City"
    case Cuisine => "Cuisine"
  }

  function PluralLabel(f: Field): string {
    match f
    case City => "cities"
    case Cuisine => "cuisines"
  }

  /** The text of the `ValidationError` raised for each case. */
  function Message(e: ValidationError): string {
    match e
    case NoneAvailable(f) => "No " + PluralLabel(f) + " available for validation."
    case Required(f) => Label(f) + " is required."
    case NotFound(f, s) =>
      if s == [] then Label(f) + " not found."
      else Label(f) + " not found. Did you mean: " + Join(s, ", ") + "?"
    case PriceRequired => "Price is required."
    case PriceInvalid => "Price must be a number, range, or category (budget/moderate/premium)."
  }

  // ---------------------------------------------------------------------
  // The normalisation map {normalize_token(c): c for c in vocabulary}
  // ---------------------------------------------------------------------

  /** A Python dict from normalised form to vocabulary entry, as its list of
      items in insertion order. */
  type NormMap = seq<(string, string)>

  function KeyIndex(m: NormMap, k: string): (r: Option<nat>)
    ensures r.Some? ==> r.value < |m| && m[r.value].0 == k && forall j :: 0 <= j < r.value ==> m[j].0 != k
    ensures r.None? ==> forall j :: 0 <= j < |m| ==> m[j].0 != k
  {
    if m == [] then None
    else if m[0].0 == k then Some(0)
    else match KeyIndex(m[1..], k)
      case None => None
      case Some(i) => Some(i + 1)
  }

  /** `m.get(k)`. */
  function Lookup(m: NormMap, k: string): (r: Option<string>)
    ensures r.Some? <==> exists j :: 0 <= j < |m| && m[j].0 == k
  {
    match KeyIndex(m, k)
    case None => None
    case Some(i) => Some(m[i].1)
  }

  /** `m[k] = v`: an existing key keeps its position and takes the new value;
      a new key goes last. */
  function Assign(m: NormMap, k: string, v: string): NormMap {
    match KeyIndex(m, k)
    case None => m + [(k, v)]
    case Some(i) => m[i := (k, v)]
  }

  function Keys(m: NormMap): (ks: seq<string>)
    ensures |ks| == |m| && forall i :: 0 <= i < |m| ==> ks[i] == m[i].0
  {
    seq(|m|, i requires 0 <= i < |m| => m[i].0)
  }

  predicate DistinctKeys(m: NormMap) {
    forall i, j :: 0 <= i < j < |m| ==> m[i].0 != m[j].0
  }

  /** The dict comprehension over the vocabulary, skipping `None` entries. */
  function BuildNormMap(vocab: seq<Option<string>>): NormMap {
    if vocab == [] then []
    else
      var m := BuildNormMap(vocab[..|vocab| - 1]);
      match vocab[|vocab| - 1]
      case None => m
      case Some(c) => Assign(m, NormalizeText(c), c)
  }

  /** Reference meaning of the map: the LAST vocabulary entry whose
      normalised form is `k`. */
  function LastWithKey(vocab: seq<Option<string>>, k: string): (r: Option<string>)
    ensures r.Some? ==> Some(r.value) in vocab && NormalizeText(r.value) == k
    ensures r.None? ==> forall i :: 0 <= i < |vocab| && vocab[i].Some? ==> NormalizeText(vocab[i].value) != k
  {
    if vocab == [] then None
    else
      var last := vocab[|vocab| - 1];
      if last.Some? && NormalizeText(last.value) == k then last
      else LastWithKey(vocab[..|vocab| - 1], k)
  }

  lemma AssignLookup(m: NormMap, k: string, v: string, k2: string)
    ensures Lookup(Assign(m, k, v), k2) == if k2 == k then Some(v) else Lookup(m, k2)
  {
    var m' := Assign(m, k, v);
    match KeyIndex(m, k)
    case None =>
      if k2 != k {
        match KeyIndex(m, k2)
        case None =>
        case Some(j) =>
          assert m'[j] == m[j];
          assert KeyIndex(m', k2) == Some(j);
      } else {
        assert m'[|m|] == (k, v);
        assert KeyIndex(m', k2) == Some(|m|);
      }
    case Some(i) =>
      assert Keys(m') == Keys(m);
      if k2 != k {
        match KeyIndex(m, k2)
        case None =>
        case Some(j) =>
          assert j != i;
          assert KeyIndex(m', k2) == Some(j);
      } else {
        assert KeyIndex(m', k2) == Some(i);
      }
  }

  lemma AssignDistinct(m: NormMap, k: string, v: string)
    requires DistinctKeys(m)
    ensures DistinctKeys(Assign(m, k, v))
  {
  }

  /** The map holds, for every normalised form, the last entry with that form. */
  lemma {:induction false} BuildNormMapLookup(vocab: seq<Option<string>>, k: string)
    ensures Lookup(BuildNormMap(vocab), k) == LastWithKey(vocab, k)
  {
    if vocab != [] {
      var prefix := vocab[..|vocab| - 1];
      BuildNormMapLookup(prefix, k);
      match vocab[|vocab| - 1]
      case None =>
      case Some(c) =>
        AssignLookup(BuildNormMap(prefix), NormalizeText(c), c, k);
    }
  }

  lemma {:induction false} BuildNormMapDistinct(vocab: seq<Option<string>>)
    ensures DistinctKeys(BuildNormMap(vocab))
  {
    if vocab != [] {
      BuildNormMapDistinct(vocab[..|vocab| - 1]);
      match vocab[|vocab| - 1]
      case None =>
      case Some(c) =>
        AssignDistinct(BuildNormMap(vocab[..|vocab| - 1]), NormalizeText(c), c);
    }
  }

  /** Every value of the map is a vocabulary entry filed under its own
      normalised form. */
  lemma BuildNormMapValues(vocab: seq<Option<string>>, j: nat)
    requires j < |BuildNormMap(vocab)|
    ensures Some(BuildNormMap(vocab)[j].1) in vocab
    ensures NormalizeText(BuildNormMap(vocab)[j].1) == BuildNormMap(vocab)[j].0
  {
    var m := BuildNormMap(vocab);
    BuildNormMapDistinct(vocab);
    BuildNormMapLookup(vocab, m[j].0);
    assert KeyIndex(m, m[j].0) == Some(j);
  }

  // ---------------------------------------------------------------------
  // validate_city / validate_cuisine
  // ---------------------------------------------------------------------

  /** The items whose key contains `q` (the `contains` comprehension keeps
      their values). */
  function Containing(m: NormMap, q: string): (r: NormMap)
    ensures |r| <= |m|
    ensures forall i :: 0 <= i < |r| ==> r[i] in m && IsSubstring(q, r[i].0)
    ensures forall i :: 0 <= i < |m| && IsSubstring(q, m[i].0) ==> m[i] in r
  {
    if m == [] then []
    else (if IsSubstring(q, m[0].0) then [m[0]] else []) + Containing(m[1..], q)
  }

  /** What `difflib.get_close_matches(q, keys, n=5, cutoff=0.6)` promises:
      at most five results, each one of the keys it was given. */
  ghost predicate CloseMatcher(closeMatches: (string, seq<string>) -> seq<string>) {
    forall q, keys ::
      |closeMatches(q, keys)| <= 5 &&
      forall i :: 0 <= i < |closeMatches(q, keys)| ==> closeMatches(q, keys)[i] in keys
  }

  /** Reference set: the distinct normalised vocabulary forms that contain `q`. */
  ghost function ContainingForms(vocab: seq<Option<string>>, q: string): set<string> {
    set i | 0 <= i < |vocab| && vocab[i].Some? && IsSubstring(q, NormalizeText(vocab[i].value))
      :: NormalizeText(vocab[i].value)
  }

  /** `validate_city` (field City) and `validate_cuisine` (field Cuisine). */
  function Resolve(field: Field, query: Option<string>, vocab: seq<Option<string>>,
                   closeMatches: (string, seq<string>) -> seq<string>): (r: Result<string, ValidationError>)
    requires CloseMatcher(closeMatches)
    ensures vocab == [] ==> r == Err(NoneAvailable(field))
    ensures vocab != [] && NormalizeToken(query) == "" ==> r == Err(Required(field))
    ensures r.Ok? ==> Some(r.value) in vocab
    ensures r.Err? ==> (r.error.NoneAvailable? || r.error.Required? || r.error.NotFound?) && r.error.field == field
    ensures r.Err? && r.error.NotFound? ==>
              |r.error.suggestions| <= 5 && forall i :: 0 <= i < |r.error.suggestions| ==> Some(r.error.suggestions[i]) in vocab
  {
    if vocab == [] then Err(NoneAvailable(field))
    else
      var q := NormalizeToken(query);
      if q == "" then Err(Required(field))
      else ResolveNormalized(field, q, vocab, closeMatches)
  }

  /** The lookup proper, on a non-empty normalised query: exact match, then
      a unique containment match, then "not found". */
  function ResolveNormalized(field: Field, q: string, vocab: seq<Option<string>>,
                             closeMatches: (string, seq<string>) -> seq<string>): (r: Result<string, ValidationError>)
    requires CloseMatcher(closeMatches)
    ensures r.Ok? ==> Some(r.value) in vocab
    ensures r.Err? ==> r.error.NotFound? && r.error.field == field
    ensures r.Err? && r.error.NotFound? ==>
              |r.error.suggestions| <= 5 && forall i :: 0 <= i < |r.error.suggestions| ==> Some(r.error.suggestions[i]) in vocab
  {
    var m := BuildNormMap(vocab);
    match Lookup(m, q)
    case Some(c) =>
      BuildNormMapLookup(vocab, q);
      Ok(c)
    case None =>
      var contains := Containing(m, q);
      if |contains| == 1 then
        var j :| 0 <= j < |m| && m[j] == contains[0];
        BuildNormMapValues(vocab, j);
        Ok(contains[0].1)
      else Err(NotFoundError(field, q, vocab, closeMatches))
  }

  /** The "not found" error with `norm_map` values of the close matches. */
  function NotFoundError(field: Field, q: string, vocab: seq<Option<string>>,
                         closeMatches: (string, seq<string>) -> seq<string>): (e: ValidationError)
    requires CloseMatcher(closeMatches)
    ensures e.NotFound? && e.field == field
    ensures |e.suggestions| <= 5 && forall i :: 0 <= i < |e.suggestions| ==> Some(e.suggestions[i]) in vocab
    ensures var m := BuildNormMap(vocab);
            var s := closeMatches(q, Keys(m));
            |e.suggestions| == |s| && forall i :: 0 <= i < |s| ==> Lookup(m, s[i]) == Some(e.suggestions[i])
  {
    var m := BuildNormMap(vocab);
    var suggestions := closeMatches(q, Keys(m));
    if suggestions == [] then NotFound(field, [])
    else
      var suggested := SuggestedValues(vocab, m, suggestions);
      NotFound(field, Seqs.Take(suggested, 5))
  }

  /** `[norm_map[s] for s in suggestions]`. */
  function SuggestedValues(vocab: seq<Option<string>>, m: NormMap, suggestions: seq<string>): (r: seq<string>)
    requires m == BuildNormMap(vocab)
    requires forall i :: 0 <= i < |suggestions| ==> suggestions[i] in Keys(m)
    ensures |r| == |suggestions|
    ensures forall i :: 0 <= i < |r| ==> Some(r[i]) in vocab && Lookup(m, suggestions[i]) == Some(r[i])
  {
    if suggestions == [] then []
    else
      LookupKey(vocab, suggestions[0]);
      [Lookup(m, suggestions[0]).value] + SuggestedValues(vocab, m, suggestions[1..])
  }

  /** A key of the dict maps to a vocabulary entry. */
  lemma LookupKey(vocab: seq<Option<string>>, k: string)
    requires k in Keys(BuildNormMap(vocab))
    ensures Lookup(BuildNormMap(vocab), k).Some?
    ensures Some(Lookup(BuildNormMap(vocab), k).value) in vocab
  {
    var m := BuildNormMap(vocab);
    var j :| 0 <= j < |Keys(m)| && Keys(m)[j] == k;
    assert m[j].0 == k;
    BuildNormMapLookup(vocab, k);
  }

  /** An exact match on normalised forms wins, and among entries sharing that
      form the later one is returned. */
  lemma ResolveExact(field: Field, query: Option<string>, vocab: seq<Option<string>>,
                     closeMatches: (string, seq<string>) -> seq<string>)
    requires CloseMatcher(closeMatches)
    requires vocab != [] && NormalizeToken(query) != ""
    requires LastWithKey(vocab, NormalizeToken(query)).Some?
    ensures Resolve(field, query, vocab, closeMatches) == Ok(LastWithKey(vocab, NormalizeToken(query)).value)
  {
    BuildNormMapLookup(vocab, NormalizeToken(query));
  }

  lemma {:induction false} ContainingDistinct(m: NormMap, q: string)
    requires DistinctKeys(m)
    ensures DistinctKeys(Containing(m, q))
  {
    if m != [] {
      ContainingDistinct(m[1..], q);
    }
  }

  /** The set of keys of a dict's items. */
  ghost function KeySet(m: NormMap): set<string> {
    set i | 0 <= i < |m| :: m[i].0
  }

  lemma KeySetCons(m: NormMap)
    requires m != []
    ensures KeySet(m) == KeySet(m[1..]) + {m[0].0}
  {
    var rest := m[1..];
    forall x | x in KeySet(m) ensures x in KeySet(rest) + {m[0].0} {
      var i :| 0 <= i < |m| && m[i].0 == x;
      if i > 0 {
        assert rest[i - 1].0 == x;
      }
    }
    forall x | x in KeySet(rest) ensures x in KeySet(m) {
      var i :| 0 <= i < |rest| && rest[i].0 == x;
      assert m[i + 1].0 == x;
    }
  }

  lemma {:induction false} DistinctKeysCard(m: NormMap)
    requires DistinctKeys(m)
    ensures |KeySet(m)| == |m|
  {
    if m != [] {
      var rest := m[1..];
      assert DistinctKeys(rest) by {
        forall i, j | 0 <= i < j < |rest| ensures rest[i].0 != rest[j].0 {
          assert rest[i] == m[i + 1] && rest[j] == m[j + 1];
        }
      }
      DistinctKeysCard(rest);
      KeySetCons(m);
      forall i | 0 <= i < |rest| ensures rest[i].0 != m[0].0 {
        assert rest[i] == m[i + 1];
      }
      assert m[0].0 !in KeySet(rest);
    }
  }

  /** A key of an item containing `q` is a containing form. */
  lemma ContainingKeyIsForm(vocab: seq<Option<string>>, q: string, k: string)
    requires k in KeySet(Containing(BuildNormMap(vocab), q))
    ensures k in ContainingForms(vocab, q)
  {
    var m := BuildNormMap(vocab);
    var c := Containing(m, q);
    var i :| 0 <= i < |c| && c[i].0 == k;
    assert c[i] in m && IsSubstring(q, k);
    var j :| 0 <= j < |m| && m[j] == c[i];
    BuildNormMapValues(vocab, j);
    var t :| 0 <= t < |vocab| && vocab[t] == Some(m[j].1);
    assert NormalizeText(vocab[t].value) == k;
  }

  /** A containing form is the key of an item containing `q`. */
  lemma ContainingFormIsKey(vocab: seq<Option<string>>, q: string, k: string)
    requires k in ContainingForms(vocab, q)
    ensures k in KeySet(Containing(BuildNormMap(vocab), q))
  {
    var m := BuildNormMap(vocab);
    var c := Containing(m, q);
    var t :| 0 <= t < |vocab| && vocab[t].Some? && IsSubstring(q, NormalizeText(vocab[t].value))
             && NormalizeText(vocab[t].value) == k;
    BuildNormMapLookup(vocab, k);
    assert LastWithKey(vocab, k).Some?;
    var j :| 0 <= j < |m| && m[j].0 == k;
    assert m[j] in c;
    var i :| 0 <= i < |c| && c[i] == m[j];
    assert c[i].0 == k;
  }

  /** The keys of the items containing `q` are exactly the containing forms. */
  lemma ContainingKeysAreForms(vocab: seq<Option<string>>, q: string)
    ensures KeySet(Containing(BuildNormMap(vocab), q)) == ContainingForms(vocab, q)
  {
    forall k | k in KeySet(Containing(BuildNormMap(vocab), q)) ensures k in ContainingForms(vocab, q) {
      ContainingKeyIsForm(vocab, q, k);
    }
    forall k | k in ContainingForms(vocab, q) ensures k in KeySet(Containing(BuildNormMap(vocab), q)) {
      ContainingFormIsKey(vocab, q, k);
    }
  }

  /** The number of matching items is the number of distinct containing forms. */
  lemma ContainingCount(vocab: seq<Option<string>>, q: string)
    ensures |Containing(BuildNormMap(vocab), q)| == |ContainingForms(vocab, q)|
  {
    var m := BuildNormMap(vocab);
    var c := Containing(m, q);
    BuildNormMapDistinct(vocab);
    ContainingDistinct(m, q);
    DistinctKeysCard(c);
    ContainingKeysAreForms(vocab, q);
  }

  /** The lookup without an exact match: one containing item is the answer,
      anything else is "not found". */
  lemma ResolveNormalizedNoExact(field: Field, q: string, vocab: seq<Option<string>>,
                                 closeMatches: (string, seq<string>) -> seq<string>)
    requires CloseMatcher(closeMatches)
    requires Lookup(BuildNormMap(vocab), q).None?
    ensures var c := Containing(BuildNormMap(vocab), q);
            var r := ResolveNormalized(field, q, vocab, closeMatches);
            && (|c| == 1 ==> r == Ok(c[0].1))
            && (|c| != 1 ==> r.Err? && r.error.NotFound?)
  {
  }

  /** A single containing item holds the last entry of a containing form. */
  lemma SingleContainingEntry(vocab: seq<Option<string>>, q: string)
    requires |Containing(BuildNormMap(vocab), q)| == 1
    ensures var e := Containing(BuildNormMap(vocab), q)[0];
            && NormalizeText(e.1) in ContainingForms(vocab, q)
            && LastWithKey(vocab, NormalizeText(e.1)) == Some(e.1)
  {
    var m := BuildNormMap(vocab);
    var c := Containing(m, q);
    var j :| 0 <= j < |m| && m[j] == c[0];
    BuildNormMapValues(vocab, j);
    assert NormalizeText(c[0].1) == c[0].0;
    BuildNormMapLookup(vocab, c[0].0);
    BuildNormMapDistinct(vocab);
    assert KeyIndex(m, m[j].0) == Some(j);
    assert c[0].0 in KeySet(c);
    ContainingKeyIsForm(vocab, q, c[0].0);
  }

  /** Without an exact match, the query resolves exactly when one distinct
      normalised form contains it, and then to the last entry with that form;
      two or more containing forms fall through to "not found". */
  lemma ResolveContainment(field: Field, query: Option<string>, vocab: seq<Option<string>>,
                           closeMatches: (string, seq<string>) -> seq<string>)
    requires CloseMatcher(closeMatches)
    requires vocab != [] && NormalizeToken(query) != ""
    requires LastWithKey(vocab, NormalizeToken(query)).None?
    ensures var r := Resolve(field, query, vocab, closeMatches);
            && (r.Ok? <==> |ContainingForms(vocab, NormalizeToken(query))| == 1)
            && (r.Ok? ==> NormalizeText(r.value) in ContainingForms(vocab, NormalizeToken(query))
                          && LastWithKey(vocab, NormalizeText(r.value)) == Some(r.value))
            && (r.Err? ==> r.error.NotFound?)
  {
    var q := NormalizeToken(query);
    assert Resolve(field, query, vocab, closeMatches) == ResolveNormalized(field, q, vocab, closeMatches);
    BuildNormMapLookup(vocab, q);
    ResolveNormalizedNoExact(field, q, vocab, closeMatches);
    ContainingCount(vocab, q);
    if |Containing(BuildNormMap(vocab), q)| == 1 {
      SingleContainingEntry(vocab, q);
    }
  }

  /** With no suggestion from the similarity matcher the error is the plain
      "not found" message; with suggestions it lists at most five of them. */
  lemma NotFoundMessage(field: Field, suggestions: seq<string>)
    ensures suggestions == [] ==> Message(NotFound(field, suggestions)) == Label(field) + " not found."
    ensures suggestions != [] ==>
              Message(NotFound(field, suggestions)) == Label(field) + " not found. Did you mean: " + Join(suggestions, ", ") + "?"
  {
  }

  // ---------------------------------------------------------------------
  // PricePreference and as_range
  // ---------------------------------------------------------------------

  /** The enum's three members; `Unlisted` stands for any other value a
      caller stores in the (untyped) field. */
  datatype PriceCategory = Budget | Moderate | Premium | Unlisted

  datatype PricePreference = PricePreference(
    exact: Option<real>,
    minValue: Option<real>,
    maxValue: Option<real>,
    category: Option<PriceCategory>)

  function Max(a: real, b: real): real {
    if a >= b then a else b
  }

  /** `as_range`: a set range verbatim, else a tolerance window around the
      exact value, else fully open. */
  function AsRange(p: PricePreference, tolerancePct: real := 0.10, toleranceAbs: real := 100.0): (r: (Option<real>, Option<real>))
    ensures p.minValue.Some? || p.maxValue.Some? ==> r == (p.minValue, p.maxValue)
    ensures p.minValue.None? && p.maxValue.None? && p.exact.None? ==> r == (None, None)
    ensures p.minValue.None? && p.maxValue.None? && p.exact.Some? ==>
              var e := p.exact.value;
              && r.0.Some? && r.1.Some?
              && r.0.value >= 0.0
              && r.1.value - e >= toleranceAbs
              && r.1.value - e >= e * tolerancePct
              && (r.1.value - e == toleranceAbs || r.1.value - e == e * tolerancePct)
              && (r.0.value == 0.0 || e - r.0.value == r.1.value - e)
              && (r.0.value == 0.0 <==> e - (r.1.value - e) <= 0.0)
              && (e >= 0.0 && toleranceAbs >= 0.0 ==> r.0.value <= e <= r.1.value)
  {
    if p.minValue.Some? || p.maxValue.Some? then (p.minValue, p.maxValue)
    else if p.exact.Some? then
      var tol := Max(toleranceAbs, p.exact.value * tolerancePct);
      (Some(Max(0.0, p.exact.value - tol)), Some(p.exact.value + tol))
    else (None, None)
  }

  /** The filter's wider window: 700 gives [550, 850] and 800 gives [650, 950]. */
  lemma AsRangeExamples()
    ensures AsRange(PricePreference(Some(700.0), None, None, None), 0.15, 150.0) == (Some(550.0), Some(850.0))
    ensures AsRange(PricePreference(Some(800.0), None, None, None), 0.15, 150.0) == (Some(650.0), Some(950.0))
    ensures AsRange(PricePreference(Some(2000.0), None, None, None), 0.15, 150.0) == (Some(1700.0), Some(2300.0))
  {
  }

  // ---------------------------------------------------------------------
  // parse_price_preference
  // ---------------------------------------------------------------------

  predicate IsBudgetWord(q: string) { q == "budget" || q == "low" || q == "cheap" }
  predicate IsModerateWord(q: string) { q == "moderate" || q == "mid" || q == "medium" }
  predicate IsPremiumWord(q: string) { q == "premium" || q == "high" || q == "expensive" }

  /** En dash, em dash and the word "to" all become "-". */
  function NormalizeSeparators(q: string): string {
    ReplaceAll(ReplaceAll(ReplaceAll(q, "\U{2013}", "-"), "\U{2014}", "-"), " to ", "-")
  }

  /** The numbers `\d+(?:\.\d+)?` finds in the normalised price text. */
  function PriceNumbers(q: string): seq<real> {
    DecimalNumbers(NormalizeSeparators(q), 0)
  }

  /** A preference uses one mode: an exact value alone, or range fields
      (possibly tagged with a category), or a bare category. */
  predicate SingleMode(p: PricePreference) {
    p.exact.Some? ==> p.minValue.None? && p.maxValue.None? && p.category.None?
  }

  function ParsePricePreference(userPrice: Option<string>, budgetMax: real := 500.0, moderateMax: real := 1000.0): (r: Result<PricePreference, ValidationError>)
    ensures r.Ok? ==> SingleMode(r.value)
    ensures r.Err? ==> r.error == PriceRequired || r.error == PriceInvalid
    ensures r.Ok? && r.value.category.None? ==>
              && (r.value.exact.Some? ==> r.value.exact.value >= 0.0)
              && (r.value.exact.None? ==> r.value.minValue.Some? && r.value.maxValue.Some?
                                          && 0.0 <= r.value.minValue.value <= r.value.maxValue.value)
  {
    var q := NormalizeToken(userPrice);
    if q == "" then Err(PriceRequired)
    else if IsBudgetWord(q) then Ok(PricePreference(None, Some(0.0), Some(budgetMax), Some(Budget)))
    else if IsModerateWord(q) then Ok(PricePreference(None, Some(budgetMax), Some(moderateMax), Some(Moderate)))
    else if IsPremiumWord(q) then Ok(PricePreference(None, Some(moderateMax), None, Some(Premium)))
    else
      var nums := PriceNumbers(q);
      DecimalNumbersNonNegative(NormalizeSeparators(q), 0);
      if nums == [] then Err(PriceInvalid)
      else if |nums| == 1 then Ok(PricePreference(Some(nums[0]), None, None, None))
      else
        var mn := nums[0];
        var mx := nums[1];
        if mn > mx then Ok(PricePreference(None, Some(mx), Some(mn), None))
        else Ok(PricePreference(None, Some(mn), Some(mx), None))
  }

  lemma {:induction false} DecimalNumbersNonNegative(s: string, i: nat)
    requires i <= |s|
    ensures forall k :: 0 <= k < |DecimalNumbers(s, i)| ==> DecimalNumbers(s, i)[k] >= 0.0
    decreases |s| - i
  {
    if i < |s| {
      if IsDigit(s[i]) {
        DecimalNumbersNonNegative(s, DecimalAt(s, i).1);
      } else {
        DecimalNumbersNonNegative(s, i + 1);
      }
    }
  }

  /** The keyword grammar: empty text is refused, and each synonym group maps
      to its category and range. */
  lemma ParsePriceKeywords(userPrice: Option<string>, budgetMax: real, moderateMax: real)
    ensures var q := NormalizeToken(userPrice);
            var r := ParsePricePreference(userPrice, budgetMax, moderateMax);
            && (q == "" ==> r == Err(PriceRequired))
            && (IsBudgetWord(q) ==> r == Ok(PricePreference(None, Some(0.0), Some(budgetMax), Some(Budget))))
            && (IsModerateWord(q) ==> r == Ok(PricePreference(None, Some(budgetMax), Some(moderateMax), Some(Moderate))))
            && (IsPremiumWord(q) ==> r == Ok(PricePreference(None, Some(moderateMax), None, Some(Premium))))
  {
    KeywordGroupsDisjoint(NormalizeToken(userPrice));
  }

  /** With the default limits the categories cover [0, 500], [500, 1000] and
      1000 upwards, and an exact value gets the default window of at least
      100 either side. */
  lemma ParsePriceDefaults(userPrice: Option<string>)
    ensures var q := NormalizeToken(userPrice);
            var r := ParsePricePreference(userPrice);
            && (IsBudgetWord(q) ==> r.Ok? && AsRange(r.value) == (Some(0.0), Some(500.0)))
            && (IsModerateWord(q) ==> r.Ok? && AsRange(r.value) == (Some(500.0), Some(1000.0)))
            && (IsPremiumWord(q) ==> r.Ok? && AsRange(r.value) == (Some(1000.0), None))
    ensures AsRange(PricePreference(Some(700.0), None, None, None)) == (Some(600.0), Some(800.0))
    ensures AsRange(PricePreference(Some(2000.0), None, None, None)) == (Some(1800.0), Some(2200.0))
    ensures AsRange(PricePreference(Some(50.0), None, None, None)) == (Some(0.0), Some(150.0))
  {
    ParsePriceKeywords(userPrice, 500.0, 1000.0);
  }

  /** The three synonym groups share no word: their first letters differ. */
  lemma KeywordGroupsDisjoint(q: string)
    ensures IsBudgetWord(q) || IsModerateWord(q) || IsPremiumWord(q) ==> q != ""
    ensures IsModerateWord(q) ==> !IsBudgetWord(q)
    ensures IsPremiumWord(q) ==> !IsBudgetWord(q) && !IsModerateWord(q)
  {
    if IsModerateWord(q) {
      assert q[0] == 'm';
    }
    if IsPremiumWord(q) {
      assert q[0] == 'p' || q[0] == 'h' || q[0] == 'e';
    }
  }

  /** The number grammar: no number is an error, one number is an exact
      value, and two or more use the first two as an ordered range. */
  lemma ParsePriceNumbers(userPrice: Option<string>, budgetMax: real, moderateMax: real)
    requires var q := NormalizeToken(userPrice); q != "" && !IsBudgetWord(q) && !IsModerateWord(q) && !IsPremiumWord(q)
    ensures var nums := PriceNumbers(NormalizeToken(userPrice));
            var r := ParsePricePreference(userPrice, budgetMax, moderateMax);
            && (nums == [] ==> r == Err(PriceInvalid))
            && (|nums| == 1 ==> r == Ok(PricePreference(Some(nums[0]), None, None, None)))
            && (|nums| >= 2 ==> r.Ok? && r.value.exact.None? && r.value.category.None?
                                && {r.value.minValue.value, r.value.maxValue.value} == {nums[0], nums[1]}
                                && r.value.minValue.value <= r.value.maxValue.value)
  {
  }

  // ---------------------------------------------------------------------
  // validate_user_input
  // ---------------------------------------------------------------------

  datatype ValidatedUserInput = ValidatedUserInput(city: string, cuisine: string, price: PricePreference)

  /** Validates the city, then the cuisine, then the price; the first failure
      is the one reported. */
  function ValidateUserInput(city: Option<string>, cuisine: Option<string>, price: Option<string>,
                             availableCities: seq<Option<string>>, availableCuisines: seq<Option<string>>,
                             closeMatches: (string, seq<string>) -> seq<string>,
                             budgetMax: real := 500.0, moderateMax: real := 1000.0): (r: Result<ValidatedUserInput, ValidationError>)
    requires CloseMatcher(closeMatches)
    ensures r.Ok? ==> Some(r.value.city) in availableCities && Some(r.value.cuisine) in availableCuisines
    ensures r.Ok? ==> SingleMode(r.value.price)
    ensures Resolve(City, city, availableCities, closeMatches).Err? ==>
              r == Err(Resolve(City, city, availableCities, closeMatches).error)
    ensures Resolve(City, city, availableCities, closeMatches).Ok? && Resolve(Cuisine, cuisine, availableCuisines, closeMatches).Err? ==>
              r == Err(Resolve(Cuisine, cuisine, availableCuisines, closeMatches).error)
    ensures var vCity := Resolve(City, city, availableCities, closeMatches);
            var vCuisine := Resolve(Cuisine, cuisine, availableCuisines, closeMatches);
            var vPrice := ParsePricePreference(price, budgetMax, moderateMax);
            vCity.Ok? && vCuisine.Ok? ==>
              && (vPrice.Ok? ==> r == Ok(ValidatedUserInput(vCity.value, vCuisine.value, vPrice.value)))
              && (vPrice.Err? ==> r == Err(vPrice.error))
  {
    var vCity :- Resolve(City, city, availableCities, closeMatches);
    var vCuisine :- Resolve(Cuisine, cuisine, availableCuisines, closeMatches);
    var vPrice :- ParsePricePreference(price, budgetMax, moderateMax);
    Ok(ValidatedUserInput(vCity, vCuisine, vPrice))
  }
}
