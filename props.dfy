/**
 * The pure helpers of app2_notion_uploader_v3.py: the job fingerprint, reading the first page
 * id out of a query result, and the three builders of Notion page properties.
 */
module NotionProps {
  import opened Wrappers
  import opened PyText
  import opened Json

  // ---------- hash_job_text ----------

  /**
   * The f-string rendering of a value: a string is itself; any other value is rendered by
   * `pyStr`, standing for Python's `str()`.
   */
  function Display(v: Json, pyStr: Json -> string): string {
    if v.JString? then v.s else pyStr(v)
  }

  /** The string that is hashed: company first, then `_`, then the text. */
  function FingerprintBase(text: string, company: string): string {
    company + "_" + text
  }

  /** The same job text under two different company names hashes two different strings. */
  lemma FingerprintBaseSeparatesCompanies(text: string, c1: string, c2: string)
    ensures FingerprintBase(text, c1) == FingerprintBase(text, c2) ==> c1 == c2
  {
    if FingerprintBase(text, c1) == FingerprintBase(text, c2) {
      assert |c1| == |c2|;
      assert c1 == FingerprintBase(text, c1)[..|c1|];
      assert c2 == FingerprintBase(text, c2)[..|c2|];
    }
  }

  /** "X" at Acme and "X" at Acme2 get different fingerprint strings. */
  lemma FingerprintBaseExample()
    ensures FingerprintBase("X", "Acme") != FingerprintBase("X", "Acme2")
  {
    FingerprintBaseSeparatesCompanies("X", "Acme", "Acme2");
  }

  /**
   * `hash_job_text(text, company)`: the first 16 characters of the hex digest, where `sha256hex`
   * stands for `hashlib.sha256(...).hexdigest()` (64 characters).
   */
  function HashJobText(text: string, company: string, sha256hex: string -> string): (r: string)
    ensures |r| <= 16 && |r| <= |sha256hex(FingerprintBase(text, company))|
    ensures r == sha256hex(FingerprintBase(text, company))[..|r|]
    ensures |sha256hex(FingerprintBase(text, company))| >= 16 ==> |r| == 16
  {
    Take(sha256hex(FingerprintBase(text, company)), 16)
  }

  /** The fingerprint depends on its arguments only through the base string. */
  lemma FingerprintOfBase(t1: string, c1: string, t2: string, c2: string, sha256hex: string -> string)
    requires FingerprintBase(t1, c1) == FingerprintBase(t2, c2)
    ensures HashJobText(t1, c1, sha256hex) == HashJobText(t2, c2, sha256hex)
  {
  }

  /**
   * Because `_` may occur in either argument, two different (text, company) pairs can share a
   * base string and so a fingerprint, whatever the hash: ("b_c", "a") and ("c", "a_b").
   */
  lemma FingerprintBaseAmbiguous(sha256hex: string -> string)
    ensures ("b_c", "a") != ("c", "a_b")
    ensures HashJobText("b_c", "a", sha256hex) == HashJobText("c", "a_b", sha256hex)
  {
    assert FingerprintBase("b_c", "a") == FingerprintBase("c", "a_b");
  }

  // ---------- get_first_page_id ----------

  /**
   * `get_first_page_id(query_result)` for every JSON value: `None` when the value is falsy,
   * lacks "results" or has falsy results, else `query_result["results"][0]["id"]`, with the
   * exceptions Python raises when those subscripts do not apply.
   */
  function GetFirstPageId(q: Json): (r: Result<Option<Json>, PyError>)
    ensures !Truthy(q) ==> r == Success(None)
    ensures q.JObject? && "results" !in q.fields ==> r == Success(None)
    ensures q.JObject? && "results" in q.fields && !Truthy(q.fields["results"]) ==> r == Success(None)
  {
    if !Truthy(q) then Success(None)
    else match q
      case JObject(fields) =>
        if "results" !in fields || !Truthy(fields["results"]) then Success(None)
        else FirstId(fields["results"])
      case JArray(items) =>
        // `"results" not in q` tests list membership, and `q["results"]` then fails
        if JString("results") !in items then Success(None) else Failure(TypeError)
      case JString(s) =>
        // `in` on a string is a substring test
        if !Contains(s, "results") then Success(None) else Failure(TypeError)
      case _ => Failure(TypeError)
  }

  /** `t` occurs in `s` as a substring. */
  predicate Contains(s: string, t: string) {
    exists i :: 0 <= i <= |s| - |t| && OccursAt(s, t, i)
  }

  predicate OccursAt(s: string, t: string, i: nat) {
    i + |t| <= |s| && s[i..i + |t|] == t
  }

  /** `results[0]["id"]` for truthy `results`. */
  function FirstId(results: Json): Result<Option<Json>, PyError>
    requires Truthy(results)
  {
    match results
    case JArray(items) => IdOf(items[0])
    case JObject(_) => Failure(KeyError)         // `[0]` on a dict with string keys
    case _ => Failure(TypeError)                 // a string's `[0]` is a string, and `"a"["id"]` fails; numbers are not subscriptable
  }

  /** `item["id"]` */
  function IdOf(item: Json): Result<Option<Json>, PyError> {
    match item
    case JObject(fields) => if "id" in fields then Success(Some(fields["id"])) else Failure(KeyError)
    case _ => Failure(TypeError)
  }

  /**
   * On a Notion-shaped result (a dict whose results are a list of pages), the first page's id
   * is returned exactly when there is a first page, and it is that page's id.
   */
  lemma FirstPageOfResults(q: map<string, Json>)
    requires "results" in q && q["results"].JArray?
    requires forall p :: p in q["results"].items ==> p.JObject? && "id" in p.fields
    ensures GetFirstPageId(JObject(q)).Success?
    ensures GetFirstPageId(JObject(q)).value.None? <==> q["results"].items == []
    ensures q["results"].items != [] ==> GetFirstPageId(JObject(q)).value == Some(q["results"].items[0].fields["id"])
  {
    if q["results"].items != [] {
      assert q["results"].items[0] in q["results"].items;
    }
  }

  // ---------- property values ----------

  /** `{kind: [{"text": {"content": content}}]}`, the shape of a title or rich-text property. */
  function TextProp(kind: string, content: Json): Json {
    JObject(map[kind := JArray([JObject(map["text" := JObject(map["content" := content])])])])
  }

  /** The content of a title or rich-text property of that shape. */
  function ContentOf(kind: string, prop: Json): Option<Json> {
    if prop.JObject? && kind in prop.fields && prop.fields[kind].JArray? && |prop.fields[kind].items| > 0
      && prop.fields[kind].items[0].JObject? && "text" in prop.fields[kind].items[0].fields
      && prop.fields[kind].items[0].fields["text"].JObject? && "content" in prop.fields[kind].items[0].fields["text"].fields
    then Some(prop.fields[kind].items[0].fields["text"].fields["content"])
    else None
  }

  lemma ContentOfTextProp(kind: string, content: Json)
    ensures ContentOf(kind, TextProp(kind, content)) == Some(content)
  {
  }

  /** `{"multi_select": [{"name": n} for n in names]}` */
  function MultiSelect(names: seq<Json>): Json {
    JObject(map["multi_select" := JArray(seq(|names|, i requires 0 <= i < |names| => JObject(map["name" := names[i]])))])
  }

  function DateProp(start: string): Json {
    JObject(map["date" := JObject(map["start" := JString(start)])])
  }

  function Relation(id: Json): Json {
    JObject(map["relation" := JArray([JObject(map["id" := id])])])
  }

  /** The id a relation property of that shape points to. */
  function RelationTarget(prop: Json): Option<Json> {
    if prop.JObject? && "relation" in prop.fields && prop.fields["relation"].JArray?
      && |prop.fields["relation"].items| == 1 && prop.fields["relation"].items[0].JObject?
      && "id" in prop.fields["relation"].items[0].fields
    then Some(prop.fields["relation"].items[0].fields["id"])
    else None
  }

  lemma RelationTargetOf(id: Json)
    ensures RelationTarget(Relation(id)) == Some(id)
  {
  }

  /**
   * The items `for x in v` visits. A list yields its items and a string its characters;
   * a dict would yield its keys in insertion order, which a map does not keep, so iterating
   * one counts as a failure here; other values are not iterable.
   */
  function Iterate(v: Json): Result<seq<Json>, PyError> {
    match v
    case JArray(items) => Success(items)
    case JString(s) => Success(seq(|s|, i requires 0 <= i < |s| => JString([s[i]])))
    case _ => Failure(TypeError)
  }

  /** The strings of a sequence of values, or `None` if one is not a string. */
  function Strings(xs: seq<Json>): (r: Option<seq<string>>)
    ensures r.Some? ==> |r.value| == |xs| && forall i :: 0 <= i < |xs| ==> xs[i] == JString(r.value[i])
    ensures r.None? ==> exists i :: 0 <= i < |xs| && !xs[i].JString?
  {
    if xs == [] then Some([])
    else if !xs[0].JString? then None
    else match Strings(xs[1..])
      case None => None
      case Some(rest) => Some([xs[0].s] + rest)
  }

  /** `sep.join(v)`: `TypeError` unless every item is a string. */
  function JoinValue(sep: string, v: Json): Result<string, PyError> {
    match Iterate(v)
    case Failure(e) => Failure(e)
    case Success(items) =>
      match Strings(items)
      case None => Failure(TypeError)
      case Some(xs) => Success(Join(sep, xs))
  }

  /**
   * `sep.join(v)` succeeds exactly on a string or on a list whose items are all strings; in
   * every other case it raises `TypeError`.
   */
  lemma JoinValueSucceeds(sep: string, v: Json)
    ensures JoinValue(sep, v).Success? <==> v.JString? || (v.JArray? && forall i :: 0 <= i < |v.items| ==> v.items[i].JString?)
    ensures JoinValue(sep, v).Failure? ==> JoinValue(sep, v).error == TypeError
  {
  }

  /** `"\n• " + "\n• ".join(v)`: a bullet list; an empty list gives a lone bullet. */
  function Bullets(v: Json): Result<string, PyError> {
    match JoinValue("\n" + [Bullet] + " ", v)
    case Failure(e) => Failure(e)
    case Success(t) => Success("\n" + [Bullet] + " " + t)
  }

  /** `[r.replace(',', '') for r in v]`: `AttributeError` on an item that is not a string. */
  function Regions(v: Json): Result<seq<Json>, PyError> {
    match Iterate(v)
    case Failure(e) => Failure(e)
    case Success(items) =>
      match Strings(items)
      case None => Failure(AttributeError)
      case Some(xs) => Success(seq(|xs|, i requires 0 <= i < |xs| => JString(RemoveChar(xs[i], ','))))
  }

  /** `d.get(k, default)` where `d` must be a dict: on any other value `.get` raises `AttributeError`. */
  function GetFrom(d: Json, k: string, default: Json): Result<Json, PyError> {
    if d.JObject? then Success(Get(d.fields, k, default)) else Failure(AttributeError)
  }

  /** `json.dumps(parsed, ensure_ascii=False)[:1900]`, with `dumps` standing for the serialiser. */
  function Snapshot(parsed: map<string, Json>, dumps: Json -> string): string {
    Take(dumps(JObject(parsed)), 1900)
  }

  // ---------- build_job_props ----------

  const JobKeys: set<string> := {"Job Title", "Company", "Job Description", "Parsed Snapshot", "Source URL",
    "Hash / Fingerprint", "Date Collected", "Status"}

  /**
   * `build_job_props(parsed, jd_text, source_url, job_hash)`; `today` is the clock's
   * `utcnow().strftime("%Y-%m-%d")`.
   */
  function BuildJobProps(parsed: map<string, Json>, jd: string, sourceUrl: string, jobHash: string,
                         dumps: Json -> string, today: string): map<string, Json>
  {
    map[
      "Job Title" := TextProp("title", Get(parsed, "position_title", JString("Untitled Job"))),
      "Company" := TextProp("rich_text", Get(parsed, "company", JString("Unknown Company"))),
      "Job Description" := TextProp("rich_text", JString(Take(jd, 1900))),
      "Parsed Snapshot" := TextProp("rich_text", JString(Snapshot(parsed, dumps))),
      "Source URL" := JObject(map["url" := if sourceUrl == [] then JNull else JString(sourceUrl)]),
      "Hash / Fingerprint" := TextProp("rich_text", JString(jobHash)),
      "Date Collected" := DateProp(today),
      "Status" := JObject(map["select" := JObject(map["name" := JString("Parsed")])])
    ]
  }

  /** The job properties are exactly the eight fields, and the status is always "Parsed". */
  lemma JobPropsKeys(parsed: map<string, Json>, jd: string, sourceUrl: string, jobHash: string, dumps: Json -> string, today: string)
    ensures var p := BuildJobProps(parsed, jd, sourceUrl, jobHash, dumps, today);
      p.Keys == JobKeys && p["Status"] == JObject(map["select" := JObject(map["name" := JString("Parsed")])])
  {
  }

  /**
   * The description holds the text cut to its first 1900 characters, and the snapshot the
   * serialised record cut the same way.
   */
  lemma JobPropsCapped(parsed: map<string, Json>, jd: string, sourceUrl: string, jobHash: string, dumps: Json -> string, today: string)
    ensures var p := BuildJobProps(parsed, jd, sourceUrl, jobHash, dumps, today);
      ContentOf("rich_text", p["Job Description"]).Some? && ContentOf("rich_text", p["Parsed Snapshot"]).Some?
    ensures var p := BuildJobProps(parsed, jd, sourceUrl, jobHash, dumps, today);
      var d := ContentOf("rich_text", p["Job Description"]).value;
      var t := ContentOf("rich_text", p["Parsed Snapshot"]).value;
      && d.JString? && |d.s| == (if |jd| < 1900 then |jd| else 1900) && d.s == jd[..|d.s|]
      && t.JString? && |t.s| <= 1900 && t.s == dumps(JObject(parsed))[..|t.s|]
  {
    var p := BuildJobProps(parsed, jd, sourceUrl, jobHash, dumps, today);
    assert p["Job Description"] == TextProp("rich_text", JString(Take(jd, 1900)));
    assert p["Parsed Snapshot"] == TextProp("rich_text", JString(Snapshot(parsed, dumps)));
    ContentOfTextProp("rich_text", JString(Take(jd, 1900)));
    ContentOfTextProp("rich_text", JString(Snapshot(parsed, dumps)));
  }

  /** The title and company fall back to "Untitled Job" and "Unknown Company" only when absent. */
  lemma JobPropsDefaults(parsed: map<string, Json>, jd: string, sourceUrl: string, jobHash: string, dumps: Json -> string, today: string)
    ensures var p := BuildJobProps(parsed, jd, sourceUrl, jobHash, dumps, today);
      && ContentOf("title", p["Job Title"]) == Some(if "position_title" in parsed then parsed["position_title"] else JString("Untitled Job"))
      && ContentOf("rich_text", p["Company"]) == Some(if "company" in parsed then parsed["company"] else JString("Unknown Company"))
  {
    var p := BuildJobProps(parsed, jd, sourceUrl, jobHash, dumps, today);
    assert p["Job Title"] == TextProp("title", Get(parsed, "position_title", JString("Untitled Job")));
    assert p["Company"] == TextProp("rich_text", Get(parsed, "company", JString("Unknown Company")));
    ContentOfTextProp("title", Get(parsed, "position_title", JString("Untitled Job")));
    ContentOfTextProp("rich_text", Get(parsed, "company", JString("Unknown Company")));
  }

  /** The fingerprint field holds the hash it is given. */
  lemma JobPropsFingerprint(parsed: map<string, Json>, jd: string, sourceUrl: string, jobHash: string, dumps: Json -> string, today: string)
    ensures ContentOf("rich_text", BuildJobProps(parsed, jd, sourceUrl, jobHash, dumps, today)["Hash / Fingerprint"]) == Some(JString(jobHash))
  {
    var p := BuildJobProps(parsed, jd, sourceUrl, jobHash, dumps, today);
    assert p["Hash / Fingerprint"] == TextProp("rich_text", JString(jobHash));
    ContentOfTextProp("rich_text", JString(jobHash));
  }

  // ---------- build_role_props ----------

  const RoleKeys: set<string> := {"Role Title", "Function", "Core Competencies", "Responsibility", "Role Requirements",
    "Technical Tools", "Industry ID", "ATS Keywords", "Regions", "Soft Skills", "Target Companies", "last_parsed_date",
    "parsed_json"}

  /** The values `build_role_props` reads that can make it raise, evaluated in the order the dict literal does. */
  datatype RoleParts = RoleParts(competencies: string, responsibilities: string, tools: string, industry: string,
                                 ats: seq<Json>, regions: seq<Json>, soft: seq<Json>)

  function RoleValues(parsed: map<string, Json>): Result<RoleParts, PyError> {
    var skills := Get(parsed, "required_preferred_skills", JObject(map[]));
    match GetFrom(skills, "core_competencies", JArray([]))
    case Failure(e) => Failure(e)
    case Success(cc) =>
      match Bullets(cc)
      case Failure(e) => Failure(e)
      case Success(competencies) =>
        match Bullets(Get(parsed, "responsibilities", JArray([])))
        case Failure(e) => Failure(e)
        case Success(responsibilities) =>
          match GetFrom(skills, "tools_technologies", JArray([]))
          case Failure(e) => Failure(e)
          case Success(tt) =>
            match Bullets(tt)
            case Failure(e) => Failure(e)
            case Success(tools) =>
              match JoinValue(", ", Get(parsed, "industry_keywords", JArray([])))
              case Failure(e) => Failure(e)
              case Success(industry) =>
                match Iterate(Get(parsed, "ats_triggers", JArray([])))
                case Failure(e) => Failure(e)
                case Success(ats) =>
                  match GetFrom(Get(parsed, "location", JObject(map[])), "regions", JArray([JString("Global")]))
                  case Failure(e) => Failure(e)
                  case Success(rv) =>
                    match Regions(rv)
                    case Failure(e) => Failure(e)
                    case Success(regions) =>
                      match GetFrom(skills, "soft", JArray([]))
                      case Failure(e) => Failure(e)
                      case Success(sv) =>
                        match Iterate(sv)
                        case Failure(e) => Failure(e)
                        case Success(soft) => Success(RoleParts(competencies, responsibilities, tools, industry, ats, regions, soft))
  }

  /** `build_role_props(parsed)`; `stamp` is the clock's `utcnow().isoformat()`. */
  function BuildRoleProps(parsed: map<string, Json>, dumps: Json -> string, stamp: string): Result<map<string, Json>, PyError> {
    match RoleValues(parsed)
    case Failure(e) => Failure(e)
    case Success(rp) => Success(RoleMap(parsed, rp, dumps, stamp))
  }

  /** The dict literal of `build_role_props`, once the parts that can raise are evaluated. */
  function RoleMap(parsed: map<string, Json>, rp: RoleParts, dumps: Json -> string, stamp: string): map<string, Json> {
      map[
        "Role Title" := TextProp("title", Get(parsed, "position_title", JString("Untitled Role"))),
        "Function" := TextProp("rich_text", Get(parsed, "function", JString(""))),
        "Core Competencies" := TextProp("rich_text", JString(rp.competencies)),
        "Responsibility" := TextProp("rich_text", JString(rp.responsibilities)),
        "Role Requirements" := TextProp("rich_text", Get(parsed, "experience_level", JString(""))),
        "Technical Tools" := TextProp("rich_text", JString(rp.tools)),
        "Industry ID" := TextProp("rich_text", JString(rp.industry)),
        "ATS Keywords" := MultiSelect(rp.ats),
        "Regions" := MultiSelect(rp.regions),
        "Soft Skills" := MultiSelect(rp.soft),
        "Target Companies" := MultiSelect([Get(parsed, "company", JString("Unknown Company"))]),
        "last_parsed_date" := DateProp(stamp),
        "parsed_json" := TextProp("rich_text", JString(Snapshot(parsed, dumps)))
      ]
  }

  /** A bullet list of strings: a bullet before each item, so an empty list is a lone bullet. */
  lemma BulletsOfStrings(xs: seq<string>)
    ensures Bullets(JArray(seq(|xs|, i requires 0 <= i < |xs| => JString(xs[i]))))
      == Success("\n" + [Bullet] + " " + Join("\n" + [Bullet] + " ", xs))
    ensures xs != [] ==>
      Bullets(JArray(seq(|xs|, i requires 0 <= i < |xs| => JString(xs[i])))) == Success(EachPrefixed("\n" + [Bullet] + " ", xs))
    ensures Bullets(JArray([])) == Success("\n" + [Bullet] + " ")
  {
    var items := seq(|xs|, i requires 0 <= i < |xs| => JString(xs[i]));
    assert Strings(items).value == xs;
    assert Strings([]) == Some([]);
    assert "\n" + [Bullet] + " " + [] == "\n" + [Bullet] + " ";
    if xs != [] {
      JoinPrefixed("\n" + [Bullet] + " ", xs);
    }
  }

  /** Without a "regions" entry in a dict location (or without a location), the one region is "Global". */
  lemma RegionsDefault(parsed: map<string, Json>)
    requires "location" !in parsed || (parsed["location"].JObject? && "regions" !in parsed["location"].fields)
    ensures GetFrom(Get(parsed, "location", JObject(map[])), "regions", JArray([JString("Global")])) == Success(JArray([JString("Global")]))
    ensures Regions(JArray([JString("Global")])) == Success([JString("Global")])
  {
    GlobalRegion();
  }

  lemma GlobalRegion()
    ensures Regions(JArray([JString("Global")])) == Success([JString("Global")])
  {
    GlobalIsString();
    GlobalKeepsName();
  }

  lemma GlobalIsString()
    ensures Strings([JString("Global")]) == Some(["Global"])
  {
    var one := [JString("Global")];
    assert one[1..] == [];
    assert Strings(one[1..]) == Some([]);
    assert ["Global"] + [] == ["Global"];
  }

  lemma GlobalKeepsName()
    ensures var xs := ["Global"];
      seq(|xs|, i requires 0 <= i < |xs| => JString(RemoveChar(xs[i], ','))) == [JString("Global")]
  {
    RemoveAbsentChar("Global", ',');
  }

  /** Each region loses its commas. */
  lemma RegionsCommaFree(v: Json)
    requires Regions(v).Success?
    ensures forall r :: r in Regions(v).value ==> r.JString? && ',' !in r.s
    ensures |Regions(v).value| == |Iterate(v).value|
  {
  }

  /** A location that is present but not a dict makes the builder raise `AttributeError`. */
  lemma RoleLocationMustBeDict(parsed: map<string, Json>)
    requires "location" in parsed && !parsed["location"].JObject?
    ensures GetFrom(Get(parsed, "location", JObject(map[])), "regions", JArray([JString("Global")])) == Failure(AttributeError)
  {
  }

  /**
   * The role properties, when built: the thirteen fields, the title defaulting to
   * "Untitled Role", and the one target company defaulting to "Unknown Company".
   */
  lemma RolePropsFacts(parsed: map<string, Json>, dumps: Json -> string, stamp: string)
    requires BuildRoleProps(parsed, dumps, stamp).Success?
    ensures var p := BuildRoleProps(parsed, dumps, stamp).value;
      && p.Keys == RoleKeys
      && ContentOf("title", p["Role Title"]) == Some(if "position_title" in parsed then parsed["position_title"] else JString("Untitled Role"))
      && p["Target Companies"] == MultiSelect([if "company" in parsed then parsed["company"] else JString("Unknown Company")])
      && p["Regions"] == MultiSelect(RoleValues(parsed).value.regions)
  {
    var rp := RoleValues(parsed).value;
    assert BuildRoleProps(parsed, dumps, stamp).value == RoleMap(parsed, rp, dumps, stamp);
    RoleMapFacts(parsed, rp, dumps, stamp);
  }

  lemma RoleMapFacts(parsed: map<string, Json>, rp: RoleParts, dumps: Json -> string, stamp: string)
    ensures var p := RoleMap(parsed, rp, dumps, stamp);
      && p.Keys == RoleKeys
      && ContentOf("title", p["Role Title"]) == Some(if "position_title" in parsed then parsed["position_title"] else JString("Untitled Role"))
      && p["Target Companies"] == MultiSelect([if "company" in parsed then parsed["company"] else JString("Unknown Company")])
      && p["Regions"] == MultiSelect(rp.regions)
  {
    RoleMapKeys(parsed, rp, dumps, stamp);
    RoleMapTitle(parsed, rp, dumps, stamp);
    RoleMapLists(parsed, rp, dumps, stamp);
  }

  lemma RoleMapKeys(parsed: map<string, Json>, rp: RoleParts, dumps: Json -> string, stamp: string)
    ensures RoleMap(parsed, rp, dumps, stamp).Keys == RoleKeys
  {
  }

  lemma RoleMapTitle(parsed: map<string, Json>, rp: RoleParts, dumps: Json -> string, stamp: string)
    ensures "Role Title" in RoleMap(parsed, rp, dumps, stamp)
    ensures ContentOf("title", RoleMap(parsed, rp, dumps, stamp)["Role Title"])
      == Some(if "position_title" in parsed then parsed["position_title"] else JString("Untitled Role"))
  {
    var p := RoleMap(parsed, rp, dumps, stamp);
    assert p["Role Title"] == TextProp("title", Get(parsed, "position_title", JString("Untitled Role")));
    ContentOfTextProp("title", Get(parsed, "position_title", JString("Untitled Role")));
  }

  lemma RoleMapLists(parsed: map<string, Json>, rp: RoleParts, dumps: Json -> string, stamp: string)
    ensures "Target Companies" in RoleMap(parsed, rp, dumps, stamp) && "Regions" in RoleMap(parsed, rp, dumps, stamp)
    ensures RoleMap(parsed, rp, dumps, stamp)["Target Companies"] == MultiSelect([if "company" in parsed then parsed["company"] else JString("Unknown Company")])
    ensures RoleMap(parsed, rp, dumps, stamp)["Regions"] == MultiSelect(rp.regions)
  {
  }

  // ---------- build_company_props ----------

  const CompanyKeys: set<string> := {"Name", "Industry", "Visa Policy", "Culture / Values", "Hiring Focus",
    "Last Parsed Date", "parsed_json"}

  /** `build_company_props(parsed)`; `stamp` is the clock's `utcnow().isoformat()`. */
  function BuildCompanyProps(parsed: map<string, Json>, dumps: Json -> string, stamp: string): Result<map<string, Json>, PyError> {
    match Iterate(Get(parsed, "industry_keywords", JArray([])))
    case Failure(e) => Failure(e)
    case Success(industry) => Success(CompanyMap(parsed, industry, dumps, stamp))
  }

  /** The dict literal of `build_company_props`. */
  function CompanyMap(parsed: map<string, Json>, industry: seq<Json>, dumps: Json -> string, stamp: string): map<string, Json> {
      map[
        "Name" := TextProp("title", Get(parsed, "company", JString("Unknown Company"))),
        "Industry" := MultiSelect(industry),
        "Visa Policy" := TextProp("rich_text", Get(parsed, "visa_citizenship_notes", JString(""))),
        "Culture / Values" := TextProp("rich_text", Get(parsed, "culture", JString(""))),
        "Hiring Focus" := TextProp("rich_text", Get(parsed, "company_focus", JString(""))),
        "Last Parsed Date" := DateProp(stamp),
        "parsed_json" := TextProp("rich_text", JString(Snapshot(parsed, dumps)))
      ]
  }

  /**
   * The company properties: built whenever the industry keywords are a list or a string (or
   * absent), with the seven fields and the name defaulting to "Unknown Company".
   */
  lemma CompanyPropsFacts(parsed: map<string, Json>, dumps: Json -> string, stamp: string)
    ensures BuildCompanyProps(parsed, dumps, stamp).Success? <==>
      "industry_keywords" !in parsed || parsed["industry_keywords"].JArray? || parsed["industry_keywords"].JString?
    ensures BuildCompanyProps(parsed, dumps, stamp).Success? ==>
      var p := BuildCompanyProps(parsed, dumps, stamp).value;
      && p.Keys == CompanyKeys
      && ContentOf("title", p["Name"]) == Some(if "company" in parsed then parsed["company"] else JString("Unknown Company"))
  {
    if BuildCompanyProps(parsed, dumps, stamp).Success? {
      var industry := Iterate(Get(parsed, "industry_keywords", JArray([]))).value;
      assert BuildCompanyProps(parsed, dumps, stamp).value == CompanyMap(parsed, industry, dumps, stamp);
      CompanyMapFacts(parsed, industry, dumps, stamp);
    }
  }

  lemma CompanyMapFacts(parsed: map<string, Json>, industry: seq<Json>, dumps: Json -> string, stamp: string)
    ensures var p := CompanyMap(parsed, industry, dumps, stamp);
      && p.Keys == CompanyKeys
      && ContentOf("title", p["Name"]) == Some(if "company" in parsed then parsed["company"] else JString("Unknown Company"))
  {
    CompanyMapKeys(parsed, industry, dumps, stamp);
    CompanyMapName(parsed, industry, dumps, stamp);
  }

  lemma CompanyMapKeys(parsed: map<string, Json>, industry: seq<Json>, dumps: Json -> string, stamp: string)
    ensures CompanyMap(parsed, industry, dumps, stamp).Keys == CompanyKeys
  {
  }

  lemma CompanyMapName(parsed: map<string, Json>, industry: seq<Json>, dumps: Json -> string, stamp: string)
    ensures "Name" in CompanyMap(parsed, industry, dumps, stamp)
    ensures ContentOf("title", CompanyMap(parsed, industry, dumps, stamp)["Name"])
      == Some(if "company" in parsed then parsed["company"] else JString("Unknown Company"))
  {
    assert CompanyMap(parsed, industry, dumps, stamp)["Name"] == TextProp("title", Get(parsed, "company", JString("Unknown Company")));
    ContentOfTextProp("title", Get(parsed, "company", JString("Unknown Company")));
  }
}
