/** The LLM side of the system: the prompt built from the candidate
    restaurants, the extraction of a JSON object from the model's reply, and
    the strict validation of the decoded recommendations. */
module GroqClient {
  import opened Wrappers
  import opened Text

  // ---------------------------------------------------------------------
  // Values and errors
  // ---------------------------------------------------------------------

  /** The Python values that reach this module: decoded JSON, and the cells
      of a candidate record. */
  datatype PyValue =
    | PyNone
    | PyBool(b: bool)
    | PyInt(i: int)
    | PyFloat(x: real)
    | PyNaN
    | PyStr(s: string)
    | PyList(items: seq<PyValue>)
    | PyDict(entries: map<string, PyValue>)

  /** Python truthiness (`NaN` is truthy, zero and empty containers are not). */
  predicate Truthy(v: PyValue) {
    match v
    case PyNone => false
    case PyBool(b) => b
    case PyInt(i) => i != 0
    case PyFloat(x) => x != 0.0
    case PyNaN => true
    case PyStr(s) => s != ""
    case PyList(items) => items != []
    case PyDict(entries) => entries != map[]
  }

  /** `d.get(k)`. */
  function Get(d: map<string, PyValue>, k: string): PyValue {
    if k in d then d[k] else PyNone
  }

  /** `a or b`. */
  function Or(a: PyValue, b: PyValue): (r: PyValue)
    ensures Truthy(a) ==> r == a
    ensures !Truthy(a) ==> r == b
  {
    if Truthy(a) then a else b
  }

  datatype GroqError =
    | EmptyResponse
    | NoJsonObject
    | InvalidJson
    | MissingRecommendations
    | EntryNotObject(index: nat)
    | InvalidName(index: nat)
    | InvalidReason(index: nat)

  /** The message of each `GroqError` this module raises (the decoder's own
      detail after "Invalid JSON from LLM: " is not modelled). */
  function Message(e: GroqError): string {
    match e
    case EmptyResponse => "Empty LLM response."
    case NoJsonObject => "LLM response does not contain a JSON object."
    case InvalidJson => "Invalid JSON from LLM."
    case MissingRecommendations => "JSON must contain a 'recommendations' list."
    case EntryNotObject(i) => "Recommendation at index " + NatToString(i) + " must be an object."
    case InvalidName(i) => "Recommendation at index " + NatToString(i) + " has invalid 'name'."
    case InvalidReason(i) => "Recommendation at index " + NatToString(i) + " has invalid 'reason'."
  }

  datatype LLMRecommendation = LLMRecommendation(name: string, reason: string)

  datatype LLMRecommendationResponse = LLMRecommendationResponse(recommendations: seq<LLMRecommendation>)

  // ---------------------------------------------------------------------
  // build_recommendation_prompt
  // ---------------------------------------------------------------------

  /** The compact record sent to the model for one candidate. */
  datatype SafeCandidate = SafeCandidate(
    name: PyValue,
    city: PyValue,
    location: PyValue,
    cuisines: PyValue,
    rating: PyValue,
    votes: PyValue,
    costForTwo: PyValue,
    restType: PyValue)

  /** The projection of one candidate record, with the `or` fallbacks for
      city, rating and cost. */
  function Project(c: map<string, PyValue>): SafeCandidate {
    SafeCandidate(
      Get(c, "name"),
      Or(Or(Get(c, "city_normalized"), Get(c, "listed_in_city")), Get(c, "city")),
      Get(c, "location"),
      Get(c, "cuisines"),
      Or(Get(c, "rating_numeric"), Get(c, "rate")),
      Get(c, "votes"),
      Or(Or(Get(c, "cost_numeric"), Get(c, "approx_cost_for_two")), Get(c, "approx_cost(for two people)")),
      Get(c, "rest_type"))
  }

  /** The city sent is the first truthy one of the normalised city, the
      listed city and the raw city column (the last one even when falsy);
      the rating and the cost for two fall back the same way to the raw
      columns, and the other fields are copied. */
  lemma ProjectFallbacks(c: map<string, PyValue>)
    ensures var r := Project(c);
            && r.name == Get(c, "name") && r.location == Get(c, "location") && r.cuisines == Get(c, "cuisines")
            && r.votes == Get(c, "votes") && r.restType == Get(c, "rest_type")
            && (Truthy(r.city) ==> r.city in {Get(c, "city_normalized"), Get(c, "listed_in_city"), Get(c, "city")})
            && (Truthy(Get(c, "city_normalized")) ==> r.city == Get(c, "city_normalized"))
            && (!Truthy(Get(c, "city_normalized")) && Truthy(Get(c, "listed_in_city")) ==> r.city == Get(c, "listed_in_city"))
            && (!Truthy(Get(c, "city_normalized")) && !Truthy(Get(c, "listed_in_city")) ==> r.city == Get(c, "city"))
            && (Truthy(Get(c, "rating_numeric")) ==> r.rating == Get(c, "rating_numeric"))
            && (!Truthy(Get(c, "rating_numeric")) ==> r.rating == Get(c, "rate"))
            && (Truthy(Get(c, "cost_numeric")) ==> r.costForTwo == Get(c, "cost_numeric"))
            && (!Truthy(Get(c, "cost_numeric")) && Truthy(Get(c, "approx_cost_for_two")) ==>
                  r.costForTwo == Get(c, "approx_cost_for_two"))
            && (!Truthy(Get(c, "cost_numeric")) && !Truthy(Get(c, "approx_cost_for_two")) ==>
                  r.costForTwo == Get(c, "approx_cost(for two people)"))
  {
  }

  function Projected(candidates: seq<map<string, PyValue>>): (r: seq<SafeCandidate>)
    ensures |r| == |candidates|
    ensures forall i :: 0 <= i < |candidates| ==> r[i] == Project(candidates[i])
  {
    seq(|candidates|, i requires 0 <= i < |candidates| => Project(candidates[i]))
  }

  /** `json.dumps` of the fixed response schema. */
  const SchemaJson: string :=
    "{\"recommendations\": [{\"name\": \"string (MUST match exactly one candidate name)\", " +
    "\"reason\": \"string (short, factual, based on provided candidate fields)\"}]}"

  // The fixed parts of the prompt, between the interpolated values.
  // The intro is split after "You are a " so that its first character can
  // be read off a short literal.
  const PromptIntro: string := "You are a " + "restaurant recommendation engine.\n\nUser preferences:\n- "
  const PromptItem: string := "\n- "
  const PromptRules: string :=
    " (approx cost for two)\n\nYou MUST recommend ONLY from the provided candidate restaurants.\n" +
    "Do NOT invent or rename restaurants.\n\nTask:\n- "
  const PromptTask: string :=
    " from the candidates.\n- Rank them from best to worst.\n" +
    "- Provide a short reason for each pick, grounded only in the candidate data.\n\n" +
    "Return STRICT JSON matching this schema:\n"
  const PromptCandidates: string := "\n\nCandidates (JSON):"

  function CityLine(city: string): string { "City: " + city }
  function CuisineLine(cuisine: string): string { "Cuisine: " + cuisine }
  function PriceLine(price: string): string { "Price: " + price }
  function PickLine(topN: int): string { "Pick the best " + IntToString(topN) + " restaurants" }

  /** The fixed and interpolated parts of the prompt up to the candidates'
      JSON, in order. */
  function PrefacePieces(city: string, cuisine: string, price: string, topN: int): seq<string> {
    [PromptIntro, CityLine(city), PromptItem, CuisineLine(cuisine), PromptItem, PriceLine(price),
     PromptRules, PickLine(topN), PromptTask, SchemaJson, PromptCandidates]
  }

  function PromptPreface(city: string, cuisine: string, price: string, topN: int): string {
    Concat(PrefacePieces(city, cuisine, price, topN))
  }

  /** The stripped prompt for given projected candidates; `dumps` stands for
      `json.dumps(safe_candidates, ensure_ascii=False)`. */
  function PromptFor(city: string, cuisine: string, price: string, safe: seq<SafeCandidate>, topN: int,
                     dumps: seq<SafeCandidate> -> string): string {
    Strip("\n" + PromptPreface(city, cuisine, price, topN) + "\n" + dumps(safe) + "\n")
  }

  /** `build_recommendation_prompt`: one projected record per candidate, in
      order, embedded in the fixed prompt. */
  method BuildRecommendationPrompt(city: string, cuisine: string, price: string,
                                   candidates: seq<map<string, PyValue>>, topN: int,
                                   dumps: seq<SafeCandidate> -> string)
    returns (prompt: string, safeCandidates: seq<SafeCandidate>)
    ensures safeCandidates == Projected(candidates)
    ensures prompt == PromptFor(city, cuisine, price, safeCandidates, topN, dumps)
  {
    safeCandidates := [];
    var i := 0;
    while i < |candidates|
      invariant 0 <= i <= |candidates|
      invariant safeCandidates == Projected(candidates[..i])
    {
      assert candidates[..i + 1][..i] == candidates[..i];
      safeCandidates := safeCandidates + [Project(candidates[i])];
      i := i + 1;
    }
    assert candidates[..i] == candidates;
    prompt := PromptFor(city, cuisine, price, safeCandidates, topN, dumps);
  }

  lemma PrefaceShape(city: string, cuisine: string, price: string, topN: int)
    ensures var p := PromptPreface(city, cuisine, price, topN);
            p != [] && !IsSpace(p[0]) && !IsSpace(p[|p| - 1])
  {
    var ps := PrefacePieces(city, cuisine, price, topN);
    assert PromptCandidates[|PromptCandidates| - 1] == ':';
    assert PromptIntro[0] == 'Y';
    ConcatTrimmed(ps);
  }

  /** The preface survives the final `strip()` whole. */
  lemma PrefaceKept(city: string, cuisine: string, price: string, safe: seq<SafeCandidate>, topN: int,
                    dumps: seq<SafeCandidate> -> string)
    ensures PromptPreface(city, cuisine, price, topN) <= PromptFor(city, cuisine, price, safe, topN, dumps)
  {
    PrefaceShape(city, cuisine, price, topN);
    LineKept(PromptPreface(city, cuisine, price, topN), dumps(safe));
  }

  /** A trimmed first line survives stripping the prompt around it. */
  lemma LineKept(p: string, body: string)
    requires p != [] && !IsSpace(p[0]) && !IsSpace(p[|p| - 1])
    ensures p <= Strip("\n" + p + "\n" + body + "\n")
  {
    var tail := "\n" + body + "\n";
    assert "\n" + p + "\n" + body + "\n" == "\n" + p + tail;
    StripKeepsBody("\n", p, tail);
  }

  /** The prompt states the user's city, cuisine and price and asks for
      `top_n` picks. */
  lemma PromptMentionsPreferences(city: string, cuisine: string, price: string, safe: seq<SafeCandidate>, topN: int,
                                  dumps: seq<SafeCandidate> -> string)
    ensures var prompt := PromptFor(city, cuisine, price, safe, topN, dumps);
            && IsSubstring("City: " + city, prompt)
            && IsSubstring("Cuisine: " + cuisine, prompt)
            && IsSubstring("Price: " + price, prompt)
            && IsSubstring("Pick the best " + IntToString(topN) + " restaurants", prompt)
  {
    var prompt := PromptFor(city, cuisine, price, safe, topN, dumps);
    var ps := PrefacePieces(city, cuisine, price, topN);
    PrefaceKept(city, cuisine, price, safe, topN, dumps);
    PieceInPrefixed(ps, 1, prompt);
    PieceInPrefixed(ps, 3, prompt);
    PieceInPrefixed(ps, 5, prompt);
    PieceInPrefixed(ps, 7, prompt);
  }

  // ---------------------------------------------------------------------
  // _extract_json
  // ---------------------------------------------------------------------

  const Fence: string := "```"

  /** The body of the leftmost fenced block, as
      "```(?:json)?\s*([\s\S]*?)\s*```" (case-insensitive) captures it and
      `.strip()` cleans it: the opening fence is the first "```", an
      immediately following "json" in any case is skipped, the block ends at
      the next "```", and there is no block when no closing fence follows. */
  function FenceInner(text: string): (r: Option<string>)
    ensures r.Some? ==> FindFrom(text, Fence, 0).Some?
  {
    match FindFrom(text, Fence, 0)
    case None => None
    case Some(p) =>
      var a := if p + 7 <= |text| && Lower(text[p + 3..p + 7]) == "json" then p + 7 else p + 3;
      match FindFrom(text, Fence, a)
      case None => None
      case Some(c) => Some(Strip(text[a..c]))
  }

  /** The text searched for braces: the fenced body when there is one. */
  function Searched(text: string): string {
    match FenceInner(text)
    case None => text
    case Some(inner) => inner
  }

  /** A text that opens with "{" and closes with "}". */
  predicate Braced(s: string) {
    |s| >= 2 && s[0] == '{' && s[|s| - 1] == '}'
  }

  /** The slice from the first "{" to the last "}". */
  function ObjectSpan(u: string): (r: Result<string, GroqError>)
    ensures r.Err? ==> r.error == NoJsonObject
    ensures r.Ok? ==> Braced(r.value)
  {
    match (FindChar(u, '{'), RFindChar(u, '}'))
    case (Some(start), Some(end)) =>
      if end <= start then Err(NoJsonObject) else Ok(u[start..end + 1])
    case _ => Err(NoJsonObject)
  }

  /** `_extract_json`. */
  function ExtractJson(text: Option<string>): (r: Result<string, GroqError>)
    ensures text.None? ==> r == Err(EmptyResponse)
    ensures text.Some? && r.Err? ==> r.error == NoJsonObject
    ensures text.Some? && r.Ok? ==> Braced(r.value)
  {
    match text
    case None => Err(EmptyResponse)
    case Some(t) => ObjectSpan(Searched(t))
  }

  /** The span exists exactly when some "{" comes before some "}". */
  lemma ObjectSpanDefined(u: string)
    ensures ObjectSpan(u).Ok? <==> exists i, j :: 0 <= i < j < |u| && u[i] == '{' && u[j] == '}'
  {
    if exists i, j :: 0 <= i < j < |u| && u[i] == '{' && u[j] == '}' {
      var i, j :| 0 <= i < j < |u| && u[i] == '{' && u[j] == '}';
      assert FindChar(u, '{').Some? && FindChar(u, '{').value <= i;
      assert RFindChar(u, '}').Some? && j <= RFindChar(u, '}').value;
    }
  }

  /** The span runs from the first "{" to the last "}". */
  lemma ObjectSpanBounds(u: string)
    requires ObjectSpan(u).Ok?
    ensures exists i, j :: 0 <= i < j < |u| && u[i] == '{' && u[j] == '}' && ObjectSpan(u).value == u[i..j + 1]
                           && (forall k :: 0 <= k < i ==> u[k] != '{')
                           && (forall k :: j < k < |u| ==> u[k] != '}')
  {
    var i := FindChar(u, '{').value;
    var j := RFindChar(u, '}').value;
    assert u[i] == '{' && u[j] == '}';
  }

  /** `_extract_json` on a reply: it succeeds exactly when the searched text
      (the fenced body, else the whole reply) has a "{" before a "}", and
      then yields the slice from the first "{" to the last "}". */
  lemma ExtractJsonSpan(t: string)
    ensures var u := Searched(t);
            ExtractJson(Some(t)).Ok? <==> exists i, j :: 0 <= i < j < |u| && u[i] == '{' && u[j] == '}'
    ensures var u := Searched(t);
            ExtractJson(Some(t)).Ok? ==>
              exists i, j :: 0 <= i < j < |u| && u[i] == '{' && u[j] == '}' && ExtractJson(Some(t)).value == u[i..j + 1]
                             && (forall k :: 0 <= k < i ==> u[k] != '{')
                             && (forall k :: j < k < |u| ==> u[k] != '}')
  {
    var u := Searched(t);
    assert ExtractJson(Some(t)) == ObjectSpan(u);
    ObjectSpanDefined(u);
    if ObjectSpan(u).Ok? {
      ObjectSpanBounds(u);
    }
  }

  /** A text without "```" has no fenced block. */
  lemma NoFenceNoBlock(s: string)
    requires forall j :: 0 <= j <= |s| ==> !OccursAt(s, Fence, j)
    ensures FenceInner(s).None?
  {
  }

  /** The stripped text before the first occurrence of `pat` at or after
      `a` holds no occurrence of it. */
  lemma NoFenceBeforeClose(text: string, pat: string, a: nat, c: nat)
    requires pat != [] && FindFrom(text, pat, a) == Some(c)
    ensures var inner := Strip(text[a..c]);
            forall j :: 0 <= j <= |inner| ==> !OccursAt(inner, pat, j)
  {
    NoOccurrenceInSlice(text, pat, a, c, text[a..c]);
    NoOccurrenceStrip(text[a..c], pat);
  }

  /** A fenced body holds no further fence. */
  lemma FenceInnerHasNoFence(text: string)
    requires FenceInner(text).Some?
    ensures FenceInner(FenceInner(text).value).None?
  {
    var p := FindFrom(text, Fence, 0).value;
    var a := if p + 7 <= |text| && Lower(text[p + 3..p + 7]) == "json" then p + 7 else p + 3;
    var c := FindFrom(text, Fence, a).value;
    assert FenceInner(text).value == Strip(text[a..c]);
    NoFenceBeforeClose(text, Fence, a, c);
    NoFenceNoBlock(Strip(text[a..c]));
  }

  /** With a fenced block, only its body is searched for the object. */
  lemma ExtractJsonFenced(text: string)
    requires FenceInner(text).Some?
    ensures ExtractJson(Some(text)) == ExtractJson(Some(FenceInner(text).value))
  {
    FenceInnerHasNoFence(text);
  }

  /** Without a fenced block, the whole reply is searched. */
  lemma ExtractJsonUnfenced(text: string)
    requires forall j :: 0 <= j <= |text| ==> !OccursAt(text, Fence, j)
    ensures ExtractJson(Some(text)) == ObjectSpan(text)
  {
    NoFenceNoBlock(text);
  }

  // ---------------------------------------------------------------------
  // parse_llm_recommendation_json
  // ---------------------------------------------------------------------

  /** What `json.loads` guarantees on a text that begins with "{": if it
      decodes at all, it decodes to an object. */
  ghost predicate ObjectDecoder(decode: string -> Option<PyValue>) {
    forall s :: s != [] && s[0] == '{' && decode(s).Some? ==> decode(s).value.PyDict?
  }

  /** An entry that passes the checks: an object whose "name" is a string
      with a non-space character and whose "reason", when present, is a
      string. */
  predicate EntryValid(v: PyValue) {
    && v.PyDict?
    && Get(v.entries, "name").PyStr? && Strip(Get(v.entries, "name").s) != []
    && ("reason" in v.entries ==> v.entries["reason"].PyStr?)
  }

  /** The checks on entry `i` of the "recommendations" list. */
  function ParseEntry(i: nat, v: PyValue): (r: Result<LLMRecommendation, GroqError>)
    ensures r.Err? ==> r.error == EntryNotObject(i) || r.error == InvalidName(i) || r.error == InvalidReason(i)
    ensures r.Ok? ==> r.value.name != [] && IsTrimmed(r.value.name) && IsTrimmed(r.value.reason)
  {
    if !v.PyDict? then Err(EntryNotObject(i))
    else
      var name := Get(v.entries, "name");
      var reason := if "reason" in v.entries then v.entries["reason"] else PyStr("");
      if !name.PyStr? || Strip(name.s) == [] then Err(InvalidName(i))
      else if !reason.PyStr? then Err(InvalidReason(i))
      else Ok(LLMRecommendation(Strip(name.s), Strip(reason.s)))
  }

  /** An entry is accepted exactly when it is valid; its name and reason
      (empty when absent) are then stripped, and a rejection names the first
      check that failed. */
  lemma ParseEntryValid(i: nat, v: PyValue)
    ensures ParseEntry(i, v).Ok? <==> EntryValid(v)
    ensures ParseEntry(i, v).Ok? ==>
              && ParseEntry(i, v).value.name == Strip(Get(v.entries, "name").s)
              && ParseEntry(i, v).value.reason == (if "reason" in v.entries then Strip(v.entries["reason"].s) else "")
    ensures !v.PyDict? ==> ParseEntry(i, v) == Err(EntryNotObject(i))
    ensures v.PyDict? && !(Get(v.entries, "name").PyStr? && Strip(Get(v.entries, "name").s) != []) ==>
              ParseEntry(i, v) == Err(InvalidName(i))
  {
    assert Strip("") == "";
  }

  /** One entry's outcome in front of the outcome of the entries after it. */
  function Cons<T>(head: Result<T, GroqError>, rest: Result<seq<T>, GroqError>): Result<seq<T>, GroqError>
  {
    if head.Err? then Err(head.error)
    else if rest.Err? then Err(rest.error)
    else Ok([head.value] + rest.value)
  }

  /** The entries from index `i` on, each checked by `entry`, all or
      nothing. */
  function ParseFrom<T>(recs: seq<PyValue>, i: nat, entry: (nat, PyValue) -> Result<T, GroqError>): Result<seq<T>, GroqError>
    requires i <= |recs|
    decreases |recs| - i
  {
    if i == |recs| then Ok([]) else Cons(entry(i, recs[i]), ParseFrom(recs, i + 1, entry))
  }

  /** Success keeps one result per entry, in order. */
  lemma {:induction false} ParseFromOk<T>(recs: seq<PyValue>, i: nat, entry: (nat, PyValue) -> Result<T, GroqError>)
    requires i <= |recs|
    ensures ParseFrom(recs, i, entry).Ok? <==> forall k :: i <= k < |recs| ==> entry(k, recs[k]).Ok?
    ensures ParseFrom(recs, i, entry).Ok? ==>
              && |ParseFrom(recs, i, entry).value| == |recs| - i
              && forall k :: i <= k < |recs| ==> ParseFrom(recs, i, entry).value[k - i] == entry(k, recs[k]).value
    decreases |recs| - i
  {
    if i < |recs| {
      ParseFromOk(recs, i + 1, entry);
      var head := entry(i, recs[i]);
      var rest := ParseFrom(recs, i + 1, entry);
      if head.Ok? && rest.Ok? {
        assert ParseFrom(recs, i, entry) == Ok([head.value] + rest.value);
        var out := ParseFrom(recs, i, entry).value;
        forall k | i < k < |recs| ensures out[k - i] == entry(k, recs[k]).value {
          assert out[k - i] == rest.value[k - (i + 1)];
        }
      }
    }
  }

  /** Failure reports the first entry that fails its checks. */
  lemma {:induction false} ParseFromErr<T>(recs: seq<PyValue>, i: nat, entry: (nat, PyValue) -> Result<T, GroqError>)
    requires i <= |recs|
    requires ParseFrom(recs, i, entry).Err?
    ensures exists k :: i <= k < |recs| && entry(k, recs[k]).Err?
                        && ParseFrom(recs, i, entry).error == entry(k, recs[k]).error
                        && forall j :: i <= j < k ==> entry(j, recs[j]).Ok?
    decreases |recs| - i
  {
    if entry(i, recs[i]).Ok? {
      ParseFromErr(recs, i + 1, entry);
      var k :| i + 1 <= k < |recs| && entry(k, recs[k]).Err?
               && ParseFrom(recs, i + 1, entry).error == entry(k, recs[k]).error
               && forall j :: i + 1 <= j < k ==> entry(j, recs[j]).Ok?;
      assert forall j :: i <= j < k ==> entry(j, recs[j]).Ok?;
    }
  }

  /** The validation of a decoded object, each entry checked by `entry`. */
  function ParseObjectWith(obj: map<string, PyValue>, entry: (nat, PyValue) -> Result<LLMRecommendation, GroqError>):
    Result<LLMRecommendationResponse, GroqError>
  {
    var recs := Get(obj, "recommendations");
    if !recs.PyList? then Err(MissingRecommendations)
    else match ParseFrom(recs.items, 0, entry)
      case Err(e) => Err(e)
      case Ok(parsed) => Ok(LLMRecommendationResponse(parsed))
  }

  /** The validation of a decoded object. */
  function ParseObject(obj: map<string, PyValue>): Result<LLMRecommendationResponse, GroqError> {
    ParseObjectWith(obj, ParseEntry)
  }

  /** `parse_llm_recommendation_json` as a whole. */
  function ParseResponse(text: Option<string>, decode: string -> Option<PyValue>): Result<LLMRecommendationResponse, GroqError>
    requires ObjectDecoder(decode)
  {
    match ExtractJson(text)
    case Err(e) => Err(e)
    case Ok(raw) =>
      match decode(raw)
      case None => Err(InvalidJson)
      case Some(obj) => ParseObject(obj.entries)
  }

  function Prepend<T>(parsed: seq<T>, r: Result<seq<T>, GroqError>): Result<seq<T>, GroqError> {
    match r
    case Err(e) => Err(e)
    case Ok(rest) => Ok(parsed + rest)
  }

  lemma PrependStep<T>(parsed: seq<T>, head: Result<T, GroqError>, rest: Result<seq<T>, GroqError>)
    requires head.Ok?
    ensures Prepend(parsed, Cons(head, rest)) == Prepend(parsed + [head.value], rest)
  {
    if rest.Ok? {
      assert parsed + ([head.value] + rest.value) == (parsed + [head.value]) + rest.value;
    }
  }

  /** The loop over the entries, failing on the first one that `entry`
      rejects. */
  method ParseEntries<T>(items: seq<PyValue>, entry: (nat, PyValue) -> Result<T, GroqError>)
    returns (r: Result<seq<T>, GroqError>)
    ensures r == ParseFrom(items, 0, entry)
  {
    var parsed: seq<T> := [];
    var i := 0;
    if ParseFrom(items, 0, entry).Ok? {
      assert parsed + ParseFrom(items, 0, entry).value == ParseFrom(items, 0, entry).value;
    }
    while i < |items|
      invariant 0 <= i <= |items|
      invariant ParseFrom(items, 0, entry) == Prepend(parsed, ParseFrom(items, i, entry))
    {
      var e := entry(i, items[i]);
      if e.Err? {
        return Err(e.error);
      }
      PrependStep(parsed, e, ParseFrom(items, i + 1, entry));
      parsed := parsed + [e.value];
      i := i + 1;
    }
    assert parsed + [] == parsed;
    r := Ok(parsed);
  }

  /** The validation of the decoded object's "recommendations" list. */
  method ParseRecommendations(obj: map<string, PyValue>) returns (r: Result<LLMRecommendationResponse, GroqError>)
    ensures r == ParseObject(obj)
  {
    var recs := Get(obj, "recommendations");
    if !recs.PyList? {
      return Err(MissingRecommendations);
    }
    var parsed := ParseEntries(recs.items, ParseEntry);
    if parsed.Err? {
      return Err(parsed.error);
    }
    r := Ok(LLMRecommendationResponse(parsed.value));
  }

  /** `parse_llm_recommendation_json`: extracts and decodes the object, then
      validates its entries. */
  method ParseLlmRecommendationJson(text: Option<string>, decode: string -> Option<PyValue>)
    returns (r: Result<LLMRecommendationResponse, GroqError>)
    requires ObjectDecoder(decode)
    ensures r == ParseResponse(text, decode)
  {
    var extracted := ExtractJson(text);
    if extracted.Err? {
      return Err(extracted.error);
    }
    var decoded := decode(extracted.value);
    if decoded.None? {
      return Err(InvalidJson);
    }
    r := ParseRecommendations(decoded.value.entries);
  }

  /** A successful validation keeps, in order, the outcome of each entry. */
  lemma ParseObjectEntries(obj: map<string, PyValue>, entry: (nat, PyValue) -> Result<LLMRecommendation, GroqError>)
    requires ParseObjectWith(obj, entry).Ok?
    ensures var recs := Get(obj, "recommendations");
            var out := ParseObjectWith(obj, entry).value.recommendations;
            && recs.PyList?
            && |out| == |recs.items|
            && forall k :: 0 <= k < |out| ==> entry(k, recs.items[k]) == Ok(out[k])
  {
    var recs := Get(obj, "recommendations");
    assert recs.PyList?;
    var parsed := ParseFrom(recs.items, 0, entry);
    assert parsed.Ok? && ParseObjectWith(obj, entry) == Ok(LLMRecommendationResponse(parsed.value));
    ParseFromOk(recs.items, 0, entry);
    forall k | 0 <= k < |parsed.value| ensures entry(k, recs.items[k]) == Ok(parsed.value[k]) {
      assert parsed.value[k - 0] == entry(k, recs.items[k]).value;
    }
  }

  /** A successful validation has one recommendation per entry, in order,
      each with the entry's stripped, non-empty name and a stripped reason. */
  lemma ParseObjectOk(obj: map<string, PyValue>)
    requires ParseObject(obj).Ok?
    ensures var recs := Get(obj, "recommendations");
            var out := ParseObject(obj).value.recommendations;
            && recs.PyList?
            && |out| == |recs.items|
            && forall k :: 0 <= k < |out| ==>
                 && EntryValid(recs.items[k])
                 && out[k].name == Strip(Get(recs.items[k].entries, "name").s)
                 && out[k].name != [] && IsTrimmed(out[k].name) && IsTrimmed(out[k].reason)
  {
    ParseObjectEntries(obj, ParseEntry);
    var recs := Get(obj, "recommendations");
    var out := ParseObject(obj).value.recommendations;
    forall k | 0 <= k < |out|
      ensures EntryValid(recs.items[k])
      ensures out[k].name == Strip(Get(recs.items[k].entries, "name").s)
    {
      ParseEntryValid(k, recs.items[k]);
    }
  }

  /** A list whose entries are all valid is accepted. */
  lemma ParseObjectAllValid(obj: map<string, PyValue>)
    requires Get(obj, "recommendations").PyList?
    requires forall k :: 0 <= k < |Get(obj, "recommendations").items| ==> EntryValid(Get(obj, "recommendations").items[k])
    ensures ParseObject(obj).Ok?
  {
    var recs := Get(obj, "recommendations");
    forall k | 0 <= k < |recs.items| ensures ParseEntry(k, recs.items[k]).Ok? {
      ParseEntryValid(k, recs.items[k]);
    }
    ParseFromOk(recs.items, 0, ParseEntry);
  }

  /** An object without a "recommendations" list is rejected, and so is a
      list with an invalid entry: the error is that of the first invalid
      entry, and nothing of the list is kept. */
  lemma ParseObjectRejects(obj: map<string, PyValue>)
    ensures !Get(obj, "recommendations").PyList? ==> ParseObject(obj) == Err(MissingRecommendations)
    ensures var recs := Get(obj, "recommendations");
            recs.PyList? && ParseObject(obj).Err? ==>
              exists k :: 0 <= k < |recs.items| && !EntryValid(recs.items[k])
                          && ParseObject(obj).error == ParseEntry(k, recs.items[k]).error
                          && forall j :: 0 <= j < k ==> EntryValid(recs.items[j])
  {
    var recs := Get(obj, "recommendations");
    if recs.PyList? && ParseObject(obj).Err? {
      ParseFromErr(recs.items, 0, ParseEntry);
      var k :| 0 <= k < |recs.items| && ParseEntry(k, recs.items[k]).Err?
               && ParseFrom(recs.items, 0, ParseEntry).error == ParseEntry(k, recs.items[k]).error
               && forall j :: 0 <= j < k ==> ParseEntry(j, recs.items[j]).Ok?;
      ParseEntryValid(k, recs.items[k]);
      forall j | 0 <= j < k ensures EntryValid(recs.items[j]) {
        ParseEntryValid(j, recs.items[j]);
      }
    }
  }

  /** Extraction failures come first, then decoding failures; a decoded
      reply is validated as the object it decodes to. */
  lemma ParseResponseStages(text: Option<string>, decode: string -> Option<PyValue>)
    requires ObjectDecoder(decode)
    ensures text.None? ==> ParseResponse(text, decode) == Err(EmptyResponse)
    ensures ExtractJson(text).Err? ==> ParseResponse(text, decode) == Err(ExtractJson(text).error)
    ensures ExtractJson(text).Ok? && decode(ExtractJson(text).value).None? ==> ParseResponse(text, decode) == Err(InvalidJson)
    ensures ExtractJson(text).Ok? && decode(ExtractJson(text).value).Some? ==>
              && decode(ExtractJson(text).value).value.PyDict?
              && ParseResponse(text, decode) == ParseObject(decode(ExtractJson(text).value).value.entries)
  {
  }

  // ---------------------------------------------------------------------
  // GroqClient.get_recommendations
  // ---------------------------------------------------------------------

  const SystemPrompt: string := "You return strict JSON only. No prose."

  /** `GroqClient.get_recommendations`: the prompt, one chat completion, then
      the strict parse. The HTTP exchange is the parameter `chat`, which maps
      the system and user messages to the reply's content (possibly absent)
      or to a `GroqError` for a failed request, an error status or an
      unexpected response shape. */
  function ClientRecommendations(city: string, cuisine: string, price: string,
                                 candidates: seq<map<string, PyValue>>, topN: int,
                                 dumps: seq<SafeCandidate> -> string,
                                 chat: (string, string) -> Result<Option<string>, GroqError>,
                                 decode: string -> Option<PyValue>): (r: Result<LLMRecommendationResponse, GroqError>)
    requires ObjectDecoder(decode)
    ensures var reply := chat(SystemPrompt, PromptFor(city, cuisine, price, Projected(candidates), topN, dumps));
            && (reply.Err? ==> r == Err(reply.error))
            && (reply.Ok? && reply.value.None? ==> r == Err(EmptyResponse))
            && (reply.Ok? ==> r == ParseResponse(reply.value, decode))
    ensures r.Ok? ==> forall k :: 0 <= k < |r.value.recommendations| ==>
                        r.value.recommendations[k].name != [] && IsTrimmed(r.value.recommendations[k].name)
  {
    var text :- chat(SystemPrompt, PromptFor(city, cuisine, price, Projected(candidates), topN, dumps));
    var parsed := ParseResponse(text, decode);
    if parsed.Ok? then
      ParseResponseStages(text, decode);
      ParseObjectOk(decode(ExtractJson(text).value).value.entries);
      parsed
    else parsed
  }
}
