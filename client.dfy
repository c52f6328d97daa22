/**
 * The last two steps of `SmartJobParser` (app1_parser.py): asking the language-model backends
 * in order until one answers with JSON (`parse_with_gpt5`), and `run`, which chains cleaning,
 * conversion, heuristics and that call, then fills missing or falsy keys from the heuristics.
 */
module ExtractionClient {
  import opened Wrappers
  import opened PyText
  import opened Json
  import TextNormalizer
  import MarkdownConverter
  import HeuristicExtractor

  /** The backends, in the order they are tried. */
  const Backends: seq<string> := ["gpt-5", "gpt-4o"]

  /**
   * What one chat-completion call comes back with: it raised, or it returned a message whose
   * `content` may be missing (`None`, on which `.strip()` raises `AttributeError`).
   */
  datatype Reply = Raised | Replied(content: Option<string>)

  /**
   * The backend call, as a function of the backend name and of the two inputs the prompt is
   * built from (the Markdown text and the heuristics).
   */
  type Ask = (string, string, map<string, Json>) -> Reply

  /**
   * One turn of the loop: the parsed value, or nothing when the loop moves on (the call raised,
   * the content was missing or blank after `strip()`, or `json.loads` (`decode`) raised).
   */
  function Attempt(reply: Reply, decode: string -> Option<Json>): (r: Option<Json>)
    ensures reply.Raised? || reply.content.None? ==> r.None?
    ensures reply.Replied? && reply.content.Some? && Strip(reply.content.value) == [] ==> r.None?
  {
    match reply
    case Raised => None
    case Replied(None) => None
    case Replied(Some(c)) =>
      var t := Strip(c);
      if t == [] then None else decode(t)
  }

  function Outcome(model: string, markdown: string, heuristics: map<string, Json>, ask: Ask, decode: string -> Option<Json>): Option<Json> {
    Attempt(ask(model, markdown, heuristics), decode)
  }

  /** The index of the first backend from `from` on whose attempt succeeds. */
  function FirstSuccess(models: seq<string>, from: nat, markdown: string, heuristics: map<string, Json>, ask: Ask, decode: string -> Option<Json>): (r: Option<nat>)
    requires from <= |models|
    ensures r.Some? ==> from <= r.value < |models| && Outcome(models[r.value], markdown, heuristics, ask, decode).Some?
    ensures r.Some? ==> forall j :: from <= j < r.value ==> Outcome(models[j], markdown, heuristics, ask, decode).None?
    ensures r.None? ==> forall j :: from <= j < |models| ==> Outcome(models[j], markdown, heuristics, ask, decode).None?
    decreases |models| - from
  {
    if from == |models| then None
    else if Outcome(models[from], markdown, heuristics, ask, decode).Some? then Some(from)
    else FirstSuccess(models, from + 1, markdown, heuristics, ask, decode)
  }

  /** What `parse_with_gpt5` returns: the first successful parse, or `{}` when every backend failed. */
  function Parsed(markdown: string, heuristics: map<string, Json>, ask: Ask, decode: string -> Option<Json>): Json {
    match FirstSuccess(Backends, 0, markdown, heuristics, ask, decode)
    case None => JObject(map[])
    case Some(i) => Outcome(Backends[i], markdown, heuristics, ask, decode).value
  }

  /**
   * The fallback loop of `parse_with_gpt5`. `tried` lists the backends called, in order: the
   * loop stops at the first success, so no backend after it is called.
   */
  method ParseWithFallback(markdown: string, heuristics: map<string, Json>, ask: Ask, decode: string -> Option<Json>)
    returns (parsed: Json, tried: seq<string>)
    ensures parsed == Parsed(markdown, heuristics, ask, decode)
    ensures match FirstSuccess(Backends, 0, markdown, heuristics, ask, decode)
      case None => tried == Backends
      case Some(i) => tried == Backends[..i + 1]
  {
    tried := [];
    var i := 0;
    while i < |Backends|
      invariant 0 <= i <= |Backends|
      invariant tried == Backends[..i]
      invariant FirstSuccess(Backends, 0, markdown, heuristics, ask, decode) == FirstSuccess(Backends, i, markdown, heuristics, ask, decode)
    {
      var model := Backends[i];
      tried := tried + [model];
      var reply := ask(model, markdown, heuristics);
      if reply.Raised? || reply.content.None? {
        i := i + 1;
        continue;
      }
      var content := Strip(reply.content.value);
      if content == [] {
        i := i + 1;
        continue;
      }
      var decoded := decode(content);
      if decoded.None? {
        i := i + 1;
        continue;
      }
      return decoded.value, tried;
    }
    return JObject(map[]), tried;
  }

  /**
   * Backends are tried in order: a backend that succeeds hides every later one, and the
   * result is `{}` exactly when both fail.
   */
  lemma {:induction false} FallbackOrder(markdown: string, heuristics: map<string, Json>, ask: Ask, decode: string -> Option<Json>)
    ensures Outcome("gpt-5", markdown, heuristics, ask, decode).Some? ==>
      Parsed(markdown, heuristics, ask, decode) == Outcome("gpt-5", markdown, heuristics, ask, decode).value
    ensures Outcome("gpt-5", markdown, heuristics, ask, decode).None? && Outcome("gpt-4o", markdown, heuristics, ask, decode).Some? ==>
      Parsed(markdown, heuristics, ask, decode) == Outcome("gpt-4o", markdown, heuristics, ask, decode).value
    ensures Outcome("gpt-5", markdown, heuristics, ask, decode).None? && Outcome("gpt-4o", markdown, heuristics, ask, decode).None? ==>
      Parsed(markdown, heuristics, ask, decode) == JObject(map[])
  {
    assert Backends[0] == "gpt-5" && Backends[1] == "gpt-4o";
    var r := FirstSuccess(Backends, 0, markdown, heuristics, ask, decode);
    if r.Some? && r.value == 1 {
      assert Outcome(Backends[0], markdown, heuristics, ask, decode).None?;
    }
  }

  // ---------- the merge in run ----------

  /**
   * The dict `run` returns: each heuristic key whose parsed value is missing or falsy takes
   * the heuristic value; every other key keeps the parsed value.
   */
  function Merged(parsed: map<string, Json>, heuristics: map<string, Json>): map<string, Json> {
    map k | k in parsed.Keys + heuristics.Keys ::
      if k in heuristics && (k !in parsed || !Truthy(parsed[k])) then heuristics[k] else parsed[k]
  }

  /** The heuristic entries the merge loop has already visited: those whose key is not in `todo`. */
  function Done(heuristics: map<string, Json>, todo: set<string>): map<string, Json> {
    map k | k in heuristics && k !in todo :: heuristics[k]
  }

  /** Visiting key `k` updates the merge over the visited entries to the merge over one more. */
  lemma MergeStep(parsed: map<string, Json>, heuristics: map<string, Json>, todo: set<string>, k: string)
    requires k in todo && todo <= heuristics.Keys
    ensures var fields := Merged(parsed, Done(heuristics, todo));
      (if k !in fields || !Truthy(fields[k]) then fields[k := heuristics[k]] else fields)
      == Merged(parsed, Done(heuristics, todo - {k}))
  {
    var fields := Merged(parsed, Done(heuristics, todo));
    var after := Merged(parsed, Done(heuristics, todo - {k}));
    assert Done(heuristics, todo - {k}) == Done(heuristics, todo)[k := heuristics[k]];
    if k !in fields || !Truthy(fields[k]) {
      assert fields[k := heuristics[k]] == after;
    } else {
      assert fields == after;
    }
  }

  /**
   * The loop of `run` over `heuristics.items()`, which assigns `parsed[k]` in place. On a
   * parsed value that is not a dict, `k not in parsed` or `parsed[k]` raises `TypeError` on the
   * first key (a list, a string, a number, `None`); with no heuristic keys the loop does not run.
   */
  method MergeHeuristics(parsed: Json, heuristics: map<string, Json>) returns (r: Result<Json, PyError>)
    ensures parsed.JObject? ==> r == Success(JObject(Merged(parsed.fields, heuristics)))
    ensures !parsed.JObject? ==> r == if heuristics == map[] then Success(parsed) else Failure(TypeError)
  {
    if !parsed.JObject? {
      if heuristics == map[] {
        return Success(parsed);
      }
      return Failure(TypeError);
    }
    var fields := MergeInto(parsed.fields, heuristics);
    return Success(JObject(fields));
  }

  /** The loop itself, on a dict: one assignment per heuristic key whose parsed value is missing or falsy. */
  method MergeInto(parsed: map<string, Json>, heuristics: map<string, Json>) returns (fields: map<string, Json>)
    ensures fields == Merged(parsed, heuristics)
  {
    fields := parsed;
    var todo := heuristics.Keys;
    assert Done(heuristics, todo) == map[];
    assert Merged(parsed, map[]) == parsed;
    while todo != {}
      invariant todo <= heuristics.Keys
      invariant fields == Merged(parsed, Done(heuristics, todo))
      decreases |todo|
    {
      var k :| k in todo;
      MergeStep(parsed, heuristics, todo, k);
      if k !in fields || !Truthy(fields[k]) {
        fields := fields[k := heuristics[k]];
      }
      todo := todo - {k};
    }
    assert Done(heuristics, {}) == heuristics;
  }

  /**
   * The merge: its keys are those of both dicts, an absent or falsy parsed value (a `false`
   * visa flag from the model included) gives way to the heuristic one, and every other key,
   * the ones the heuristics never computed among them, is left as parsed.
   */
  lemma MergedKeys(parsed: map<string, Json>, heuristics: map<string, Json>)
    ensures Merged(parsed, heuristics).Keys == parsed.Keys + heuristics.Keys
    ensures forall k :: k in heuristics && (k !in parsed || !Truthy(parsed[k])) ==> Merged(parsed, heuristics)[k] == heuristics[k]
    ensures forall k :: k in parsed && (k !in heuristics || Truthy(parsed[k])) ==> Merged(parsed, heuristics)[k] == parsed[k]
  {
  }

  /** A heuristic key that is in the result is truthy there unless the heuristic value itself is falsy. */
  lemma MergedFillsFalsy(parsed: map<string, Json>, heuristics: map<string, Json>, k: string)
    requires k in heuristics
    ensures k in Merged(parsed, heuristics)
    ensures Truthy(Merged(parsed, heuristics)[k]) || Merged(parsed, heuristics)[k] == heuristics[k]
  {
  }

  /** A model-given `false` for the visa flag is replaced by the heuristic value. */
  lemma FalseVisaReplaced(parsed: map<string, Json>, heuristics: map<string, Json>)
    requires "visa_sponsorship" in heuristics && "visa_sponsorship" in parsed && parsed["visa_sponsorship"] == JBool(false)
    ensures Merged(parsed, heuristics)["visa_sponsorship"] == heuristics["visa_sponsorship"]
  {
  }

  /** Merging the same heuristics twice changes nothing more. */
  lemma MergeIdempotent(parsed: map<string, Json>, heuristics: map<string, Json>)
    ensures Merged(Merged(parsed, heuristics), heuristics) == Merged(parsed, heuristics)
  {
    var once := Merged(parsed, heuristics);
    forall k | k in once
      ensures Merged(once, heuristics)[k] == once[k]
    {
      if k in heuristics && !Truthy(once[k]) {
        assert k !in parsed || !Truthy(parsed[k]);
      }
    }
  }

  // ---------- run ----------

  /** What `run` returns for `jd`: the merged record and the Markdown text, or the exception it raises. */
  function Pipeline(jd: Option<string>, markdownify: string -> string, ask: Ask, decode: string -> Option<Json>): Result<(Json, string), PyError> {
    var cleaned := TextNormalizer.Cleaned(jd);
    var md := MarkdownConverter.Converted(cleaned, markdownify);
    match HeuristicExtractor.Heuristics(cleaned)
    case Failure(e) => Failure(e)
    case Success(heuristics) =>
      var parsed := Parsed(md, heuristics, ask, decode);
      if parsed.JObject? then Success((JObject(Merged(parsed.fields, heuristics)), md))
      else Failure(TypeError)
  }

  /** `run`: clean, convert, extract, ask the backends, merge. */
  method Run(jd: Option<string>, markdownify: string -> string, ask: Ask, decode: string -> Option<Json>)
    returns (r: Result<(Json, string), PyError>)
    ensures r == Pipeline(jd, markdownify, ask, decode)
  {
    var cleaned := TextNormalizer.CleanText(jd);
    var md := MarkdownConverter.ConvertToMarkdown(cleaned, markdownify);
    var heuristics := HeuristicExtractor.HeuristicExtract(cleaned);
    if heuristics.Failure? {
      return Failure(heuristics.error);
    }
    var parsed, _ := ParseWithFallback(md, heuristics.value, ask, decode);
    HeuristicExtractor.HeuristicsKeysBounded(cleaned);
    var merged := MergeHeuristics(parsed, heuristics.value);
    if merged.Failure? {
      return Failure(merged.error);
    }
    return Success((merged.value, md));
  }

  /**
   * `run` fails exactly when the heuristics raise or the backend answer is not a JSON object;
   * otherwise the record holds every heuristic key (so always `visa_sponsorship`), and the
   * Markdown text is the converted cleaned input.
   */
  lemma PipelineOutcome(jd: Option<string>, markdownify: string -> string, ask: Ask, decode: string -> Option<Json>)
    ensures var cleaned := TextNormalizer.Cleaned(jd);
      Pipeline(jd, markdownify, ask, decode).Failure? <==>
        HeuristicExtractor.Heuristics(cleaned).Failure?
        || !Parsed(MarkdownConverter.Converted(cleaned, markdownify), HeuristicExtractor.Heuristics(cleaned).value, ask, decode).JObject?
    ensures Pipeline(jd, markdownify, ask, decode).Success? ==>
      var (record, md) := Pipeline(jd, markdownify, ask, decode).value;
      var cleaned := TextNormalizer.Cleaned(jd);
      && md == MarkdownConverter.Converted(cleaned, markdownify)
      && record.JObject?
      && HeuristicExtractor.Heuristics(cleaned).value.Keys <= record.fields.Keys
      && "visa_sponsorship" in record.fields
  {
    var cleaned := TextNormalizer.Cleaned(jd);
    if HeuristicExtractor.Heuristics(cleaned).Success? {
      HeuristicExtractor.HeuristicsKeysBounded(cleaned);
    }
  }

  /** When every backend fails, `run` returns exactly the heuristics. */
  lemma AllBackendsFail(jd: Option<string>, markdownify: string -> string, ask: Ask, decode: string -> Option<Json>)
    requires var cleaned := TextNormalizer.Cleaned(jd);
      HeuristicExtractor.Heuristics(cleaned).Success?
      && FirstSuccess(Backends, 0, MarkdownConverter.Converted(cleaned, markdownify), HeuristicExtractor.Heuristics(cleaned).value, ask, decode).None?
    ensures Pipeline(jd, markdownify, ask, decode).Success?
    ensures Pipeline(jd, markdownify, ask, decode).value.0 == JObject(HeuristicExtractor.Heuristics(TextNormalizer.Cleaned(jd)).value)
  {
    var cleaned := TextNormalizer.Cleaned(jd);
    var md := MarkdownConverter.Converted(cleaned, markdownify);
    var h := HeuristicExtractor.Heuristics(cleaned).value;
    assert Parsed(md, h, ask, decode) == JObject(map[]);
    MergedIntoEmpty(h);
    assert Pipeline(jd, markdownify, ask, decode) == Success((JObject(Merged(map[], h)), md));
  }

  /** Merging into an empty answer gives the heuristics themselves. */
  lemma MergedIntoEmpty(h: map<string, Json>)
    ensures Merged(map[], h) == h
  {
    assert Merged(map[], h).Keys == h.Keys;
  }
}
