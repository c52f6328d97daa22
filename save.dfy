/**
 * `save_to_notion(parsed, jd_text, source_url)`: skip a job whose fingerprint is already in
 * the Jobs database; otherwise upsert the company record, upsert the role template (related
 * to the company), and create the job page (related to both). Every step is a pure function
 * of the store's state; `SaveToNotion` performs the calls on a `Store` in the source's order.
 * An exception ends the save and is re-raised; the writes made before it stay.
 */
module NotionSave {
  import opened Wrappers
  import opened PyText
  import opened Json
  import opened NotionProps
  import opened NotionStore

  /**
   * What the save depends on besides its arguments: the hash and the serialisers it calls,
   * and the three clock readings (the date of the job page, the time stamps of the company
   * and role records).
   */
  datatype Env = Env(sha256hex: string -> string, pyStr: Json -> string, dumps: Json -> string,
                     today: string, companyStamp: string, roleStamp: string)

  /** The job's fingerprint: `hash_job_text(jd_text, company)` with the company's default. */
  function Fingerprint(parsed: map<string, Json>, jd: string, env: Env): string {
    HashJobText(jd, Display(Get(parsed, "company", JString("Unknown Company")), env.pyStr), env.sha256hex)
  }

  /**
   * The company name as the f-string renders it into the hashed text: a string as itself,
   * "Unknown Company" when the key is absent, and any other value through `str()`.
   */
  lemma FingerprintOfCompany(parsed: map<string, Json>, jd: string, env: Env)
    ensures "company" !in parsed ==> Fingerprint(parsed, jd, env) == HashJobText(jd, "Unknown Company", env.sha256hex)
    ensures "company" in parsed && parsed["company"].JString? ==>
      Fingerprint(parsed, jd, env) == HashJobText(jd, parsed["company"].s, env.sha256hex)
    ensures "company" in parsed && !parsed["company"].JString? ==>
      Fingerprint(parsed, jd, env) == HashJobText(jd, env.pyStr(parsed["company"]), env.sha256hex)
  {
  }

  /**
   * `v[:60]` as a title filter value, as CPython 3.12 and later evaluate it. A list slices to
   * a list, which the query then sends and Notion rejects. A slice is hashable, so on a dict
   * it is a key lookup that misses. Other values that are not strings cannot be subscripted.
   */
  function Slice60(v: Json): (r: Result<string, PyError>)
    ensures r.Success? <==> v.JString?
    ensures v.JString? ==> |r.value| == (if |v.s| < 60 then |v.s| else 60) && r.value == v.s[..|r.value|]
    ensures v.JArray? ==> r == Failure(ApiError)
    ensures v.JObject? ==> r == Failure(KeyError)
    ensures !v.JString? && !v.JArray? && !v.JObject? ==> r == Failure(TypeError)
  {
    match v
    case JString(s) => Success(Take(s, 60))
    case JArray(_) => Failure(ApiError)
    case JObject(_) => Failure(KeyError)
    case _ => Failure(TypeError)
  }

  /** `v[k]` */
  function Subscript(v: Json, k: string): Result<Json, PyError> {
    match v
    case JObject(fields) => if k in fields then Success(fields[k]) else Failure(KeyError)
    case _ => Failure(TypeError)
  }

  /** The duplicate check: whether the Jobs query for the fingerprint has results. */
  function IsDuplicate(st: StoreState, parsed: map<string, Json>, jd: string, env: Env): Result<bool, PyError> {
    match QueryOf(st, Jobs, RichTextEquals("Hash / Fingerprint", Fingerprint(parsed, jd, env)))
    case Failure(e) => Failure(e)
    case Success(q) =>
      match GetFrom(q, "results", JNull)
      case Failure(e) => Failure(e)
      case Success(results) => Success(Truthy(results))
  }

  /**
   * After a query `q` of `db`: update the first page it found when that id is truthy, else
   * create a page and take its id. The result is the id of the page written.
   */
  function Upsert(st: StoreState, db: Db, q: Json, props: map<string, Json>): (Result<Json, PyError>, StoreState) {
    match GetFirstPageId(q)
    case Failure(e) => (Failure(e), st)
    case Success(found) =>
      if found.Some? && Truthy(found.value) then
        var (u, st') := UpdateOf(st, db, found.value, props);
        (if u.Success? then Success(found.value) else Failure(u.error), st')
      else
        var (c, st') := CreateOf(st, db, props);
        match c
        case Failure(e) => (Failure(e), st')
        case Success(created) => (Subscript(created, "id"), st')
  }

  /** The company block: query by the name's first 60 characters, build, upsert. */
  function CompanyStep(st: StoreState, parsed: map<string, Json>, env: Env): (Result<Json, PyError>, StoreState) {
    match Slice60(Get(parsed, "company", JString("Unknown Company")))
    case Failure(e) => (Failure(e), st)
    case Success(name) =>
      match QueryOf(st, Companies, TitleContains("Name", name))
      case Failure(e) => (Failure(e), st)
      case Success(q) =>
        match BuildCompanyProps(parsed, env.dumps, env.companyStamp)
        case Failure(e) => (Failure(e), st)
        case Success(props) => Upsert(st, Companies, q, props)
  }

  /** The role block: query by the title's first 60 characters, build, relate to the company, upsert. */
  function RoleStep(st: StoreState, parsed: map<string, Json>, companyId: Json, env: Env): (Result<Json, PyError>, StoreState) {
    match Slice60(Get(parsed, "position_title", JString("")))
    case Failure(e) => (Failure(e), st)
    case Success(title) =>
      match QueryOf(st, Roles, TitleContains("Role Title", title))
      case Failure(e) => (Failure(e), st)
      case Success(q) =>
        match BuildRoleProps(parsed, env.dumps, env.roleStamp)
        case Failure(e) => (Failure(e), st)
        case Success(props) => Upsert(st, Roles, q, props["Parsed Company" := Relation(companyId)])
  }

  /** The job page's properties, related to the role template and the company. */
  function JobPageProps(parsed: map<string, Json>, jd: string, sourceUrl: string, roleId: Json, companyId: Json, env: Env): map<string, Json> {
    BuildJobProps(parsed, jd, sourceUrl, Fingerprint(parsed, jd, env), env.dumps, env.today)
      ["Parsed Role Template" := Relation(roleId)]["Parsed Company" := Relation(companyId)]
  }

  /** The job block: create the job page and return its id. */
  function JobStep(st: StoreState, parsed: map<string, Json>, jd: string, sourceUrl: string, roleId: Json, companyId: Json, env: Env)
    : (Result<Option<Json>, PyError>, StoreState)
  {
    var (c, st') := CreateOf(st, Jobs, JobPageProps(parsed, jd, sourceUrl, roleId, companyId, env));
    match c
    case Failure(e) => (Failure(e), st')
    case Success(created) =>
      match Subscript(created, "id")
      case Failure(e) => (Failure(e), st')
      case Success(id) => (Success(Some(id)), st')
  }

  /**
   * `save_to_notion`: `Success(None)` for a duplicate, `Success(Some(id))` with the new job's
   * id, or the exception that ended it, with the store as the calls left it.
   */
  function Saved(st: StoreState, parsed: map<string, Json>, jd: string, sourceUrl: string, env: Env)
    : (Result<Option<Json>, PyError>, StoreState)
  {
    match IsDuplicate(st, parsed, jd, env)
    case Failure(e) => (Failure(e), st)
    case Success(dup) => if dup then (Success(None), st) else SavedNew(st, parsed, jd, sourceUrl, env)
  }

  /** The company, role and job blocks of a job that is not a duplicate. */
  function SavedNew(st: StoreState, parsed: map<string, Json>, jd: string, sourceUrl: string, env: Env)
    : (Result<Option<Json>, PyError>, StoreState)
  {
    var (c, st1) := CompanyStep(st, parsed, env);
    match c
    case Failure(e) => (Failure(e), st1)
    case Success(companyId) =>
      var (ro, st2) := RoleStep(st1, parsed, companyId, env);
      match ro
      case Failure(e) => (Failure(e), st2)
      case Success(roleId) => JobStep(st2, parsed, jd, sourceUrl, roleId, companyId, env)
  }

  // ---------- the calls, in order ----------

  /** `get_first_page_id(q)`, then `notion.pages.update` or `notion.pages.create`. */
  method UpsertPage(store: Store, db: Db, q: Json, props: map<string, Json>) returns (r: Result<Json, PyError>)
    modifies store
    ensures (r, store.State()) == Upsert(old(store.State()), db, q, props)
  {
    var found := GetFirstPageId(q);
    if found.Failure? {
      return Failure(found.error);
    }
    if found.value.Some? && Truthy(found.value.value) {
      var u := store.Update(db, found.value.value, props);
      if u.Failure? {
        return Failure(u.error);
      }
      return Success(found.value.value);
    }
    var created := store.Create(db, props);
    if created.Failure? {
      return Failure(created.error);
    }
    return Subscript(created.value, "id");
  }

  method SaveCompany(store: Store, parsed: map<string, Json>, env: Env) returns (r: Result<Json, PyError>)
    modifies store
    ensures (r, store.State()) == CompanyStep(old(store.State()), parsed, env)
  {
    var name := Slice60(Get(parsed, "company", JString("Unknown Company")));
    if name.Failure? {
      return Failure(name.error);
    }
    var q := store.Query(Companies, TitleContains("Name", name.value));
    if q.Failure? {
      return Failure(q.error);
    }
    var props := BuildCompanyProps(parsed, env.dumps, env.companyStamp);
    if props.Failure? {
      return Failure(props.error);
    }
    r := UpsertPage(store, Companies, q.value, props.value);
  }

  method SaveRole(store: Store, parsed: map<string, Json>, companyId: Json, env: Env) returns (r: Result<Json, PyError>)
    modifies store
    ensures (r, store.State()) == RoleStep(old(store.State()), parsed, companyId, env)
  {
    var title := Slice60(Get(parsed, "position_title", JString("")));
    if title.Failure? {
      return Failure(title.error);
    }
    var q := store.Query(Roles, TitleContains("Role Title", title.value));
    if q.Failure? {
      return Failure(q.error);
    }
    var built := BuildRoleProps(parsed, env.dumps, env.roleStamp);
    if built.Failure? {
      return Failure(built.error);
    }
    var props := built.value;
    props := props["Parsed Company" := Relation(companyId)];
    r := UpsertPage(store, Roles, q.value, props);
  }

  method SaveJob(store: Store, parsed: map<string, Json>, jd: string, sourceUrl: string, roleId: Json, companyId: Json, env: Env)
    returns (r: Result<Option<Json>, PyError>)
    modifies store
    ensures (r, store.State()) == JobStep(old(store.State()), parsed, jd, sourceUrl, roleId, companyId, env)
  {
    var jobHash := HashJobText(jd, Display(Get(parsed, "company", JString("Unknown Company")), env.pyStr), env.sha256hex);
    var jobProps := BuildJobProps(parsed, jd, sourceUrl, jobHash, env.dumps, env.today);
    jobProps := jobProps["Parsed Role Template" := Relation(roleId)];
    jobProps := jobProps["Parsed Company" := Relation(companyId)];
    var newJob := store.Create(Jobs, jobProps);
    if newJob.Failure? {
      return Failure(newJob.error);
    }
    var id := Subscript(newJob.value, "id");
    if id.Failure? {
      return Failure(id.error);
    }
    return Success(Some(id.value));
  }

  /** The company, role and job blocks, on the store. */
  method SaveNew(store: Store, parsed: map<string, Json>, jd: string, sourceUrl: string, env: Env)
    returns (r: Result<Option<Json>, PyError>)
    modifies store
    ensures (r, store.State()) == SavedNew(old(store.State()), parsed, jd, sourceUrl, env)
  {
    var companyId := SaveCompany(store, parsed, env);
    if companyId.Failure? {
      return Failure(companyId.error);
    }
    var roleId := SaveRole(store, parsed, companyId.value, env);
    if roleId.Failure? {
      return Failure(roleId.error);
    }
    r := SaveJob(store, parsed, jd, sourceUrl, roleId.value, companyId.value, env);
  }

  /** `save_to_notion(parsed, jd_text, source_url)` on the store. */
  method SaveToNotion(store: Store, parsed: map<string, Json>, jd: string, sourceUrl: string, env: Env)
    returns (r: Result<Option<Json>, PyError>)
    modifies store
    ensures (r, store.State()) == Saved(old(store.State()), parsed, jd, sourceUrl, env)
  {
    var company := Get(parsed, "company", JString("Unknown Company"));
    var jobHash := HashJobText(jd, Display(company, env.pyStr), env.sha256hex);
    var q := store.Query(Jobs, RichTextEquals("Hash / Fingerprint", jobHash));
    if q.Failure? {
      return Failure(q.error);
    }
    var results := GetFrom(q.value, "results", JNull);
    if results.Failure? {
      return Failure(results.error);
    }
    if Truthy(results.value) {
      return Success(None);
    }
    r := SaveNew(store, parsed, jd, sourceUrl, env);
  }

  // ---------- properties ----------

  /** From `st` to `st'`, one write to `db` on page `id` was logged and no other database changed. */
  predicate Wrote(st: StoreState, st': StoreState, db: Db, id: string) {
    && |st'.log| == |st.log| + 1 && st'.log[..|st.log|] == st.log
    && st'.log[|st.log|].db == db && st'.log[|st.log|].id == id
    && st'.down == st.down && st'.rejects == st.rejects && st.nextNum <= st'.nextNum
    && (forall other :: other != db ==> PagesOf(st', other) == PagesOf(st, other))
  }

  /** Every property of `props` has that value in `m`. */
  predicate Includes(m: map<string, Json>, props: map<string, Json>) {
    forall k :: k in props ==> k in m && m[k] == props[k]
  }

  /** Page `id` of `pages` holds the properties `props`. */
  predicate HasPage(pages: seq<Page>, id: string, props: map<string, Json>) {
    exists i :: 0 <= i < |pages| && PageId(pages[i].num) == id && Includes(pages[i].props, props)
  }

  lemma UpdateWrites(st: StoreState, db: Db, id: Json, props: map<string, Json>)
    requires UpdateOf(st, db, id, props).0.Success?
    ensures id.JString?
    ensures Wrote(st, UpdateOf(st, db, id, props).1, db, id.s)
    ensures HasPage(PagesOf(UpdateOf(st, db, id, props).1, db), id.s, props)
  {
    var st' := UpdateOf(st, db, id, props).1;
    var pages := PagesOf(st, db);
    var i := FindPage(pages, id.s).value;
    var after := pages[i := Page(pages[i].num, pages[i].props + props)];
    assert PagesOf(st', db) == after;
    assert after[i].props == pages[i].props + props;
    assert PageId(after[i].num) == id.s;
  }

  lemma CreateWrites(st: StoreState, db: Db, props: map<string, Json>)
    requires Writable(st, db)
    ensures Wrote(st, CreateOf(st, db, props).1, db, PageId(st.nextNum))
    ensures HasPage(PagesOf(CreateOf(st, db, props).1, db), PageId(st.nextNum), props)
  {
    var pages := PagesOf(st, db);
    var st' := CreateOf(st, db, props).1;
    assert PagesOf(st', db) == pages + [Page(st.nextNum, props)];
    assert PagesOf(st', db)[|pages|] == Page(st.nextNum, props);
  }

  /**
   * An upsert either fails and changes nothing, or writes one page of `db` (the one whose
   * id it returns), which then holds the given properties.
   */
  lemma UpsertWrites(st: StoreState, db: Db, q: Json, props: map<string, Json>)
    ensures var (r, st') := Upsert(st, db, q, props);
      r.Failure? ==> st' == st
    ensures var (r, st') := Upsert(st, db, q, props);
      r.Success? ==> r.value.JString? && Wrote(st, st', db, r.value.s) && HasPage(PagesOf(st', db), r.value.s, props)
  {
    var found := GetFirstPageId(q);
    if found.Success? && found.value.Some? && Truthy(found.value.value) {
      if UpdateOf(st, db, found.value.value, props).0.Success? {
        UpdateWrites(st, db, found.value.value, props);
      }
    } else if found.Success? && Writable(st, db) {
      CreateWrites(st, db, props);
    }
  }

  /** The first page id of a query response: none when no page matches, else a matching page's. */
  lemma QueryFirstPage(pages: seq<Page>, f: Filter)
    ensures (forall i :: 0 <= i < |pages| ==> !Matches(pages[i], f)) ==> GetFirstPageId(QueryResponse(pages, f)) == Success(None)
    ensures (exists i :: 0 <= i < |pages| && Matches(pages[i], f)) ==>
      exists i :: 0 <= i < |pages| && Matches(pages[i], f) && GetFirstPageId(QueryResponse(pages, f)) == Success(Some(JString(PageId(pages[i].num))))
  {
    var ids := MatchingIds(pages, f);
    MatchingIdsNonEmpty(pages, f);
    MatchingIdsFromPages(pages, f);
    FirstPageOfResults(map["results" := JArray(ids)]);
    if ids != [] {
      assert ids[0] in ids;
    }
  }

  /** Updating a page by its own id succeeds when the database takes writes. */
  lemma UpdateExisting(st: StoreState, db: Db, i: nat, props: map<string, Json>)
    requires Writable(st, db) && i < |PagesOf(st, db)|
    ensures UpdateOf(st, db, JString(PageId(PagesOf(st, db)[i].num)), props).0.Success?
  {
    assert FindPage(PagesOf(st, db), PageId(PagesOf(st, db)[i].num)).Some?;
  }

  /** An upsert into a database that does not take writes raises, whatever the query returned. */
  lemma UpsertUnwritable(st: StoreState, db: Db, q: Json, props: map<string, Json>)
    requires !Writable(st, db)
    ensures Upsert(st, db, q, props).0.Failure?
  {
  }

  lemma UpsertOfNone(st: StoreState, db: Db, q: Json, props: map<string, Json>)
    requires GetFirstPageId(q) == Success(None) && Writable(st, db)
    ensures Upsert(st, db, q, props) == (Success(JString(PageId(st.nextNum))), CreateOf(st, db, props).1)
  {
    var created := CreateOf(st, db, props).0;
    assert created == Success(JObject(map["id" := JString(PageId(st.nextNum))]));
    assert Subscript(created.value, "id") == Success(JString(PageId(st.nextNum)));
  }

  lemma UpsertOfFound(st: StoreState, db: Db, q: Json, props: map<string, Json>, id: string)
    requires GetFirstPageId(q) == Success(Some(JString(id))) && id != []
    requires UpdateOf(st, db, JString(id), props).0.Success?
    ensures Upsert(st, db, q, props) == (Success(JString(id)), UpdateOf(st, db, JString(id), props).1)
  {
  }

  /**
   * After a query of `db` that succeeded: when some page matches the filter, a matching page
   * is updated and no page is created; when none does, a new page is created.
   */
  lemma UpsertAfterQuery(st: StoreState, db: Db, f: Filter, props: map<string, Json>)
    requires Writable(st, db)
    ensures var pages := PagesOf(st, db);
      (forall i :: 0 <= i < |pages| ==> !Matches(pages[i], f)) ==>
        Upsert(st, db, QueryResponse(pages, f), props) == (Success(JString(PageId(st.nextNum))), CreateOf(st, db, props).1)
    ensures var pages := PagesOf(st, db);
      (exists i :: 0 <= i < |pages| && Matches(pages[i], f)) ==>
        exists i :: 0 <= i < |pages| && Matches(pages[i], f)
          && UpdateOf(st, db, JString(PageId(pages[i].num)), props).0.Success?
          && Upsert(st, db, QueryResponse(pages, f), props) == (Success(JString(PageId(pages[i].num))), UpdateOf(st, db, JString(PageId(pages[i].num)), props).1)
  {
    var pages := PagesOf(st, db);
    QueryFirstPage(pages, f);
    if exists i :: 0 <= i < |pages| && Matches(pages[i], f) {
      var i :| 0 <= i < |pages| && Matches(pages[i], f) && GetFirstPageId(QueryResponse(pages, f)) == Success(Some(JString(PageId(pages[i].num))));
      assert PageId(pages[i].num)[0] == 'p';
      UpdateExisting(st, db, i, props);
      UpsertOfFound(st, db, QueryResponse(pages, f), props, PageId(pages[i].num));
    } else {
      UpsertOfNone(st, db, QueryResponse(pages, f), props);
    }
  }

  /** The company block fails with nothing written, or writes one company page holding the built properties. */
  lemma CompanyStepWrites(st: StoreState, parsed: map<string, Json>, env: Env)
    ensures var (r, st') := CompanyStep(st, parsed, env);
      r.Failure? ==> st' == st
    ensures var (r, st') := CompanyStep(st, parsed, env);
      r.Success? ==>
        && r.value.JString? && Wrote(st, st', Companies, r.value.s)
        && BuildCompanyProps(parsed, env.dumps, env.companyStamp).Success?
        && HasPage(st'.companies, r.value.s, BuildCompanyProps(parsed, env.dumps, env.companyStamp).value)
  {
    var name := Slice60(Get(parsed, "company", JString("Unknown Company")));
    if name.Success? {
      var q := QueryOf(st, Companies, TitleContains("Name", name.value));
      var props := BuildCompanyProps(parsed, env.dumps, env.companyStamp);
      if q.Success? && props.Success? {
        UpsertWrites(st, Companies, q.value, props.value);
      }
    }
  }

  /** The role block likewise, and the role page it writes holds the relation to the company. */
  lemma RoleStepWrites(st: StoreState, parsed: map<string, Json>, companyId: Json, env: Env)
    ensures var (r, st') := RoleStep(st, parsed, companyId, env);
      r.Failure? ==> st' == st
    ensures var (r, st') := RoleStep(st, parsed, companyId, env);
      r.Success? ==>
        && r.value.JString? && Wrote(st, st', Roles, r.value.s)
        && BuildRoleProps(parsed, env.dumps, env.roleStamp).Success?
        && HasPage(st'.roles, r.value.s, BuildRoleProps(parsed, env.dumps, env.roleStamp).value["Parsed Company" := Relation(companyId)])
  {
    var title := Slice60(Get(parsed, "position_title", JString("")));
    if title.Success? {
      var q := QueryOf(st, Roles, TitleContains("Role Title", title.value));
      var props := BuildRoleProps(parsed, env.dumps, env.roleStamp);
      if q.Success? && props.Success? {
        UpsertWrites(st, Roles, q.value, props.value["Parsed Company" := Relation(companyId)]);
      }
    }
  }

  /** A page holding a property map updated at `k` holds that value at `k`. */
  lemma HasPageUpdated(pages: seq<Page>, id: string, props: map<string, Json>, k: string, v: Json)
    requires HasPage(pages, id, props[k := v])
    ensures HasPage(pages, id, map[k := v])
  {
    var i :| 0 <= i < |pages| && PageId(pages[i].num) == id && Includes(pages[i].props, props[k := v]);
    assert k in props[k := v];
  }

  /** The job block creates the job page exactly when Jobs takes writes, and returns its id. */
  lemma JobStepWrites(st: StoreState, parsed: map<string, Json>, jd: string, sourceUrl: string, roleId: Json, companyId: Json, env: Env)
    ensures var (r, st') := JobStep(st, parsed, jd, sourceUrl, roleId, companyId, env);
      !Writable(st, Jobs) ==> r == Failure(ApiError) && st' == st
    ensures var (r, st') := JobStep(st, parsed, jd, sourceUrl, roleId, companyId, env);
      Writable(st, Jobs) ==>
        r == Success(Some(JString(PageId(st.nextNum)))) && st' == CreateOf(st, Jobs, JobPageProps(parsed, jd, sourceUrl, roleId, companyId, env)).1
  {
    var created := CreateOf(st, Jobs, JobPageProps(parsed, jd, sourceUrl, roleId, companyId, env)).0;
    if Writable(st, Jobs) {
      assert created == Success(JObject(map["id" := JString(PageId(st.nextNum))]));
      assert Subscript(created.value, "id") == Success(JString(PageId(st.nextNum)));
    }
  }

  /** The job page relates to the role template and the company it is given, and carries the fingerprint. */
  lemma JobPagePropsFacts(parsed: map<string, Json>, jd: string, sourceUrl: string, roleId: Json, companyId: Json, env: Env)
    ensures var p := JobPageProps(parsed, jd, sourceUrl, roleId, companyId, env);
      && p.Keys == JobKeys + {"Parsed Role Template", "Parsed Company"}
      && RelationTarget(p["Parsed Company"]) == Some(companyId)
      && RelationTarget(p["Parsed Role Template"]) == Some(roleId)
      && ContentOf("rich_text", p["Hash / Fingerprint"]) == Some(JString(Fingerprint(parsed, jd, env)))
  {
    var base := BuildJobProps(parsed, jd, sourceUrl, Fingerprint(parsed, jd, env), env.dumps, env.today);
    JobPropsKeys(parsed, jd, sourceUrl, Fingerprint(parsed, jd, env), env.dumps, env.today);
    JobPropsFingerprint(parsed, jd, sourceUrl, Fingerprint(parsed, jd, env), env.dumps, env.today);
    RelationTargetOf(roleId);
    RelationTargetOf(companyId);
    RelationsAdded(base, "Hash / Fingerprint", Relation(roleId), Relation(companyId));
  }

  /** Adding the two relations keeps every other property and adds exactly their keys. */
  lemma RelationsAdded(base: map<string, Json>, k: string, role: Json, company: Json)
    requires k in base && k != "Parsed Role Template" && k != "Parsed Company"
    ensures var p := base["Parsed Role Template" := role]["Parsed Company" := company];
      && p.Keys == base.Keys + {"Parsed Role Template", "Parsed Company"}
      && p["Parsed Company"] == company && p["Parsed Role Template"] == role && p[k] == base[k]
  {
  }

  /**
   * The first write after `st` went to Companies, it stays in the log, and that company page
   * holds the company properties.
   */
  predicate CompanyKept(st: StoreState, st': StoreState, parsed: map<string, Json>, env: Env) {
    var n := |st.log|;
    && |st'.log| > n && st'.log[..n] == st.log && st'.log[n].db == Companies
    && BuildCompanyProps(parsed, env.dumps, env.companyStamp).Success?
    && HasPage(st'.companies, st'.log[n].id, BuildCompanyProps(parsed, env.dumps, env.companyStamp).value)
  }

  /** The second write after `st` went to Roles, and that role template relates to the company of the first. */
  predicate RoleKept(st: StoreState, st': StoreState) {
    var n := |st.log|;
    && |st'.log| > n + 1 && st'.log[n + 1].db == Roles
    && HasPage(st'.roles, st'.log[n + 1].id, map["Parsed Company" := Relation(JString(st'.log[n].id))])
  }

  /**
   * What a save that returns an id has done: exactly three writes, in order a company, a
   * role template and a new job page; the job page is the one new page of Jobs, its id is
   * returned, and it relates to the company and the role template written; the role template
   * relates to the company, and the company page holds the company properties.
   */
  predicate Recorded(st: StoreState, st': StoreState, parsed: map<string, Json>, jd: string, sourceUrl: string, env: Env, id: Json) {
    var n := |st.log|;
    && |st'.log| == n + 3 && CompanyKept(st, st', parsed, env) && RoleKept(st, st')
    && st'.down == st.down && st'.rejects == st.rejects && Writable(st, Jobs)
    && |st'.jobs| == |st.jobs| + 1 && st'.jobs[..|st.jobs|] == st.jobs
    && var job := st'.jobs[|st.jobs|];
    && job.props == JobPageProps(parsed, jd, sourceUrl, JString(st'.log[n + 1].id), JString(st'.log[n].id), env)
    && st'.log[n + 2] == Created(Jobs, PageId(job.num))
    && id == JString(PageId(job.num))
  }

  /** A company write followed by a role write: both stay, and Jobs is as it was. */
  lemma TwoWritesKept(st: StoreState, st1: StoreState, st2: StoreState, parsed: map<string, Json>, env: Env,
                      companyId: string, roleId: string)
    requires Wrote(st, st1, Companies, companyId) && Wrote(st1, st2, Roles, roleId)
    requires BuildCompanyProps(parsed, env.dumps, env.companyStamp).Success?
    requires HasPage(st1.companies, companyId, BuildCompanyProps(parsed, env.dumps, env.companyStamp).value)
    requires HasPage(st2.roles, roleId, map["Parsed Company" := Relation(JString(companyId))])
    ensures |st2.log| == |st.log| + 2 && st2.jobs == st.jobs && st2.down == st.down && st2.rejects == st.rejects
    ensures CompanyKept(st, st2, parsed, env) && RoleKept(st, st2)
  {
    var n := |st.log|;
    assert PagesOf(st2, Companies) == PagesOf(st1, Companies);
    assert PagesOf(st1, Jobs) == PagesOf(st, Jobs) && PagesOf(st2, Jobs) == PagesOf(st1, Jobs);
    assert st2.log[..|st1.log|] == st1.log;
    assert st2.log[..n] == st1.log[..n];
    assert st2.log[n] == st1.log[n];
  }

  /** The three writes, put together. */
  lemma RecordedOfWrites(st: StoreState, st1: StoreState, st2: StoreState, parsed: map<string, Json>, jd: string, sourceUrl: string,
                         env: Env, companyId: string, roleId: string)
    requires Wrote(st, st1, Companies, companyId) && Wrote(st1, st2, Roles, roleId)
    requires BuildCompanyProps(parsed, env.dumps, env.companyStamp).Success?
    requires HasPage(st1.companies, companyId, BuildCompanyProps(parsed, env.dumps, env.companyStamp).value)
    requires HasPage(st2.roles, roleId, map["Parsed Company" := Relation(JString(companyId))])
    requires Writable(st2, Jobs)
    ensures Recorded(st, CreateOf(st2, Jobs, JobPageProps(parsed, jd, sourceUrl, JString(roleId), JString(companyId), env)).1,
                     parsed, jd, sourceUrl, env, JString(PageId(st2.nextNum)))
  {
    var props := JobPageProps(parsed, jd, sourceUrl, JString(roleId), JString(companyId), env);
    var st' := CreateOf(st2, Jobs, props).1;
    var n := |st.log|;
    TwoWritesKept(st, st1, st2, parsed, env, companyId, roleId);
    assert st'.jobs == st.jobs + [Page(st2.nextNum, props)];
    assert st'.log == st2.log + [Created(Jobs, PageId(st2.nextNum))];
    assert st'.log[..n] == st2.log[..n];
    assert st'.log[n] == st2.log[n] && st'.log[n + 1] == st2.log[n + 1];
  }

  lemma SavedNewRecords(st: StoreState, parsed: map<string, Json>, jd: string, sourceUrl: string, env: Env)
    ensures var (r, st') := SavedNew(st, parsed, jd, sourceUrl, env);
      r.Success? ==> r.value.Some? && Recorded(st, st', parsed, jd, sourceUrl, env, r.value.value)
  {
    var (c, st1) := CompanyStep(st, parsed, env);
    CompanyStepWrites(st, parsed, env);
    if c.Success? {
      var (ro, st2) := RoleStep(st1, parsed, c.value, env);
      RoleStepWrites(st1, parsed, c.value, env);
      if ro.Success? {
        JobStepWrites(st2, parsed, jd, sourceUrl, ro.value, c.value, env);
        if Writable(st2, Jobs) {
          HasPageUpdated(st2.roles, ro.value.s, BuildRoleProps(parsed, env.dumps, env.roleStamp).value, "Parsed Company", Relation(c.value));
          RecordedOfWrites(st, st1, st2, parsed, jd, sourceUrl, env, c.value.s, ro.value.s);
        }
      }
    }
  }

  /** A save that returns an id has recorded the job as `Recorded` says. */
  lemma SaveRecordsJob(st: StoreState, parsed: map<string, Json>, jd: string, sourceUrl: string, env: Env)
    ensures var (r, st') := Saved(st, parsed, jd, sourceUrl, env);
      r.Success? && r.value.Some? ==> Recorded(st, st', parsed, jd, sourceUrl, env, r.value.value)
  {
    if IsDuplicate(st, parsed, jd, env) == Success(false) {
      SavedNewRecords(st, parsed, jd, sourceUrl, env);
    }
  }

  /** The Jobs filter that finds a fingerprint. */
  function FingerprintFilter(parsed: map<string, Json>, jd: string, env: Env): Filter {
    RichTextEquals("Hash / Fingerprint", Fingerprint(parsed, jd, env))
  }

  /**
   * The save returns nothing exactly when Jobs is reachable and already holds a page with the
   * job's fingerprint, and then it writes nothing.
   */
  lemma SaveSkipsDuplicate(st: StoreState, parsed: map<string, Json>, jd: string, sourceUrl: string, env: Env)
    ensures var (r, st') := Saved(st, parsed, jd, sourceUrl, env);
      r == Success(None) <==> Jobs !in st.down && exists i :: 0 <= i < |st.jobs| && Matches(st.jobs[i], FingerprintFilter(parsed, jd, env))
    ensures var (r, st') := Saved(st, parsed, jd, sourceUrl, env);
      r == Success(None) ==> st' == st
  {
    DuplicateCheck(st, parsed, jd, env);
    SavedNewNotNone(st, parsed, jd, sourceUrl, env);
  }

  /** The duplicate check fails exactly when Jobs is down, and otherwise says whether a page has the fingerprint. */
  lemma DuplicateCheck(st: StoreState, parsed: map<string, Json>, jd: string, env: Env)
    ensures IsDuplicate(st, parsed, jd, env) ==
      if Jobs in st.down then Failure(ApiError)
      else Success(exists i :: 0 <= i < |st.jobs| && Matches(st.jobs[i], FingerprintFilter(parsed, jd, env)))
  {
    MatchingIdsNonEmpty(st.jobs, FingerprintFilter(parsed, jd, env));
  }

  /** The blocks after the duplicate check never return nothing. */
  lemma SavedNewNotNone(st: StoreState, parsed: map<string, Json>, jd: string, sourceUrl: string, env: Env)
    ensures SavedNew(st, parsed, jd, sourceUrl, env).0 != Success(None)
  {
    SavedNewRecords(st, parsed, jd, sourceUrl, env);
  }

  /**
   * What a save that raised leaves: Jobs as it was, the same databases down or refusing
   * writes, and either no write, or the company write alone, or the company write followed by
   * the role template write related to it.
   */
  predicate KeptWrites(st: StoreState, st': StoreState, parsed: map<string, Json>, env: Env) {
    && st'.jobs == st.jobs && st'.down == st.down && st'.rejects == st.rejects
    && (|| st' == st
        || (|st'.log| == |st.log| + 1 && CompanyKept(st, st', parsed, env))
        || (|st'.log| == |st.log| + 2 && CompanyKept(st, st', parsed, env) && RoleKept(st, st')))
  }

  /** The company write alone, with Jobs as it was. */
  lemma CompanyWriteKept(st: StoreState, st1: StoreState, parsed: map<string, Json>, env: Env, companyId: string)
    requires Wrote(st, st1, Companies, companyId)
    requires BuildCompanyProps(parsed, env.dumps, env.companyStamp).Success?
    requires HasPage(st1.companies, companyId, BuildCompanyProps(parsed, env.dumps, env.companyStamp).value)
    ensures |st1.log| == |st.log| + 1 && st1.jobs == st.jobs && CompanyKept(st, st1, parsed, env)
  {
    assert PagesOf(st1, Jobs) == PagesOf(st, Jobs);
  }

  /**
   * A failure after the duplicate check keeps the writes of the blocks that completed: none
   * when the company block raised, the company write when the role block raised, and both
   * writes when the job block raised.
   */
  lemma SavedNewFailure(st: StoreState, parsed: map<string, Json>, jd: string, sourceUrl: string, env: Env)
    ensures var (r, st') := SavedNew(st, parsed, jd, sourceUrl, env);
      r.Failure? ==> KeptWrites(st, st', parsed, env)
    ensures var (r, st') := SavedNew(st, parsed, jd, sourceUrl, env);
      r.Failure? && CompanyStep(st, parsed, env).0.Failure? ==> st' == st
    ensures var (r, st') := SavedNew(st, parsed, jd, sourceUrl, env);
      r.Failure? && CompanyStep(st, parsed, env).0.Success? ==> CompanyKept(st, st', parsed, env)
    ensures var (r, st') := SavedNew(st, parsed, jd, sourceUrl, env);
      var (c, st1) := CompanyStep(st, parsed, env);
      r.Failure? && c.Success? && RoleStep(st1, parsed, c.value, env).0.Success? ==>
        |st'.log| == |st.log| + 2 && RoleKept(st, st')
  {
    var (c, st1) := CompanyStep(st, parsed, env);
    CompanyStepWrites(st, parsed, env);
    if c.Success? {
      CompanyWriteKept(st, st1, parsed, env, c.value.s);
      var (ro, st2) := RoleStep(st1, parsed, c.value, env);
      RoleStepWrites(st1, parsed, c.value, env);
      if ro.Success? {
        JobStepWrites(st2, parsed, jd, sourceUrl, ro.value, c.value, env);
        HasPageUpdated(st2.roles, ro.value.s, BuildRoleProps(parsed, env.dumps, env.roleStamp).value, "Parsed Company", Relation(c.value));
        TwoWritesKept(st, st1, st2, parsed, env, c.value.s, ro.value.s);
      }
    }
  }

  /** A save that raises has created no job page, and the writes made before it stay. */
  lemma SaveFailureKeepsJobs(st: StoreState, parsed: map<string, Json>, jd: string, sourceUrl: string, env: Env)
    ensures var (r, st') := Saved(st, parsed, jd, sourceUrl, env);
      r.Failure? ==> KeptWrites(st, st', parsed, env)
  {
    if IsDuplicate(st, parsed, jd, env) == Success(false) {
      SavedNewFailure(st, parsed, jd, sourceUrl, env);
    }
  }

  /**
   * When the company can be written but Roles cannot, the save raises after the company
   * write, which stays.
   */
  lemma RoleFailureKeepsCompany(st: StoreState, parsed: map<string, Json>, jd: string, sourceUrl: string, env: Env)
    requires Jobs !in st.down && forall i :: 0 <= i < |st.jobs| ==> !Matches(st.jobs[i], FingerprintFilter(parsed, jd, env))
    requires Writable(st, Companies) && !Writable(st, Roles)
    requires Get(parsed, "company", JString("Unknown Company")).JString? && BuildCompanyProps(parsed, env.dumps, env.companyStamp).Success?
    ensures var (r, st') := Saved(st, parsed, jd, sourceUrl, env);
      r.Failure? && |st'.log| == |st.log| + 1 && CompanyKept(st, st', parsed, env) && st'.jobs == st.jobs
  {
    DuplicateCheck(st, parsed, jd, env);
    assert Saved(st, parsed, jd, sourceUrl, env) == SavedNew(st, parsed, jd, sourceUrl, env);
    var (c, st1) := CompanyStep(st, parsed, env);
    CompanyStepSucceeds(st, parsed, env);
    CompanyStepWrites(st, parsed, env);
    CompanyWriteKept(st, st1, parsed, env, c.value.s);
    var (ro, st2) := RoleStep(st1, parsed, c.value, env);
    RoleStepSucceeds(st1, parsed, c.value, env);
    RoleStepWrites(st1, parsed, c.value, env);
    assert SavedNew(st, parsed, jd, sourceUrl, env) == (Failure(ro.error), st1);
  }

  /**
   * When the company and the role template can be written but Jobs refuses the create, the
   * save raises after both writes, which stay.
   */
  lemma JobFailureKeepsWrites(st: StoreState, parsed: map<string, Json>, jd: string, sourceUrl: string, env: Env)
    requires Jobs !in st.down && Jobs in st.rejects && Storable(st, parsed, env)
    requires forall i :: 0 <= i < |st.jobs| ==> !Matches(st.jobs[i], FingerprintFilter(parsed, jd, env))
    ensures var (r, st') := Saved(st, parsed, jd, sourceUrl, env);
      && r == Failure(ApiError) && |st'.log| == |st.log| + 2 && st'.jobs == st.jobs
      && CompanyKept(st, st', parsed, env) && RoleKept(st, st')
  {
    DuplicateCheck(st, parsed, jd, env);
    var (c, st1) := CompanyStep(st, parsed, env);
    CompanyStepSucceeds(st, parsed, env);
    CompanyStepWrites(st, parsed, env);
    var (ro, st2) := RoleStep(st1, parsed, c.value, env);
    RoleStepSucceeds(st1, parsed, c.value, env);
    RoleStepWrites(st1, parsed, c.value, env);
    JobStepWrites(st2, parsed, jd, sourceUrl, ro.value, c.value, env);
    SavedNewFailure(st, parsed, jd, sourceUrl, env);
  }

  /** An upsert after a query adds a page only when no page matched. */
  lemma UpsertReusesMatch(st: StoreState, db: Db, f: Filter, props: map<string, Json>)
    requires Writable(st, db)
    ensures var pages := PagesOf(st, db);
      var st' := Upsert(st, db, QueryResponse(pages, f), props).1;
      (exists i :: 0 <= i < |pages| && Matches(pages[i], f)) ==> |PagesOf(st', db)| == |pages| && st'.nextNum == st.nextNum
    ensures var pages := PagesOf(st, db);
      var st' := Upsert(st, db, QueryResponse(pages, f), props).1;
      (forall i :: 0 <= i < |pages| ==> !Matches(pages[i], f)) ==> PagesOf(st', db) == pages + [Page(st.nextNum, props)]
  {
    var pages := PagesOf(st, db);
    UpsertAfterQuery(st, db, f, props);
    if exists i :: 0 <= i < |pages| && Matches(pages[i], f) {
      var i :| 0 <= i < |pages| && Matches(pages[i], f)
        && UpdateOf(st, db, JString(PageId(pages[i].num)), props).0.Success?
        && Upsert(st, db, QueryResponse(pages, f), props) == (Success(JString(PageId(pages[i].num))), UpdateOf(st, db, JString(PageId(pages[i].num)), props).1);
      UpdateEffect(st, db, JString(PageId(pages[i].num)), props);
    }
  }

  /**
   * In a valid store, an upsert after a query that matched changes exactly one matching page:
   * the given properties are merged into it, and every other page of every database stays.
   */
  lemma UpsertUpdatesMatch(st: StoreState, db: Db, f: Filter, props: map<string, Json>)
    requires Valid(st) && Writable(st, db)
    requires exists i :: 0 <= i < |PagesOf(st, db)| && Matches(PagesOf(st, db)[i], f)
    ensures var pages := PagesOf(st, db);
      var st' := Upsert(st, db, QueryResponse(pages, f), props).1;
      exists i :: 0 <= i < |pages| && Matches(pages[i], f)
        && PagesOf(st', db) == pages[i := Page(pages[i].num, pages[i].props + props)]
        && (forall other :: other != db ==> PagesOf(st', other) == PagesOf(st, other))
  {
    var pages := PagesOf(st, db);
    UpsertAfterQuery(st, db, f, props);
    var i :| 0 <= i < |pages| && Matches(pages[i], f)
      && UpdateOf(st, db, JString(PageId(pages[i].num)), props).0.Success?
      && Upsert(st, db, QueryResponse(pages, f), props) == (Success(JString(PageId(pages[i].num))), UpdateOf(st, db, JString(PageId(pages[i].num)), props).1);
    UpdateAt(st, db, i, props);
  }

  /**
   * The company block keeps one record per name: when a company's title contains the
   * name's first 60 characters, that record is updated and no page is added; otherwise a new
   * page with the company properties is appended.
   */
  lemma CompanyRecordReused(st: StoreState, parsed: map<string, Json>, env: Env)
    requires Writable(st, Companies)
    requires Get(parsed, "company", JString("Unknown Company")).JString?
    requires BuildCompanyProps(parsed, env.dumps, env.companyStamp).Success?
    ensures var f := TitleContains("Name", Take(Get(parsed, "company", JString("Unknown Company")).s, 60));
      var st' := CompanyStep(st, parsed, env).1;
      (exists i :: 0 <= i < |st.companies| && Matches(st.companies[i], f)) ==> |st'.companies| == |st.companies| && st'.nextNum == st.nextNum
    ensures var f := TitleContains("Name", Take(Get(parsed, "company", JString("Unknown Company")).s, 60));
      var st' := CompanyStep(st, parsed, env).1;
      (forall i :: 0 <= i < |st.companies| ==> !Matches(st.companies[i], f)) ==>
        st'.companies == st.companies + [Page(st.nextNum, BuildCompanyProps(parsed, env.dumps, env.companyStamp).value)]
  {
    var f := TitleContains("Name", Take(Get(parsed, "company", JString("Unknown Company")).s, 60));
    var props := BuildCompanyProps(parsed, env.dumps, env.companyStamp).value;
    CompanyStepUpserts(st, parsed, env);
    UpsertReusesMatch(st, Companies, f, props);
    var st' := CompanyStep(st, parsed, env).1;
    assert PagesOf(st, Companies) == st.companies && PagesOf(st', Companies) == st'.companies;
  }

  /** Once the name is a string and the properties build, the company block is an upsert on the query's answer. */
  lemma CompanyStepUpserts(st: StoreState, parsed: map<string, Json>, env: Env)
    requires Companies !in st.down
    requires Get(parsed, "company", JString("Unknown Company")).JString?
    requires BuildCompanyProps(parsed, env.dumps, env.companyStamp).Success?
    ensures CompanyStep(st, parsed, env) ==
      Upsert(st, Companies, QueryResponse(PagesOf(st, Companies), TitleContains("Name", Take(Get(parsed, "company", JString("Unknown Company")).s, 60))),
             BuildCompanyProps(parsed, env.dumps, env.companyStamp).value)
  {
  }

  /** The role block likewise keeps one role template per title prefix. */
  lemma RoleTemplateReused(st: StoreState, parsed: map<string, Json>, companyId: Json, env: Env)
    requires Writable(st, Roles)
    requires Get(parsed, "position_title", JString("")).JString?
    requires BuildRoleProps(parsed, env.dumps, env.roleStamp).Success?
    ensures var f := TitleContains("Role Title", Take(Get(parsed, "position_title", JString("")).s, 60));
      var st' := RoleStep(st, parsed, companyId, env).1;
      (exists i :: 0 <= i < |st.roles| && Matches(st.roles[i], f)) ==> |st'.roles| == |st.roles| && st'.nextNum == st.nextNum
    ensures var f := TitleContains("Role Title", Take(Get(parsed, "position_title", JString("")).s, 60));
      var st' := RoleStep(st, parsed, companyId, env).1;
      (forall i :: 0 <= i < |st.roles| ==> !Matches(st.roles[i], f)) ==>
        st'.roles == st.roles + [Page(st.nextNum, BuildRoleProps(parsed, env.dumps, env.roleStamp).value["Parsed Company" := Relation(companyId)])]
  {
    var f := TitleContains("Role Title", Take(Get(parsed, "position_title", JString("")).s, 60));
    var props := BuildRoleProps(parsed, env.dumps, env.roleStamp).value["Parsed Company" := Relation(companyId)];
    RoleStepUpserts(st, parsed, companyId, env);
    UpsertReusesMatch(st, Roles, f, props);
    var st' := RoleStep(st, parsed, companyId, env).1;
    assert PagesOf(st, Roles) == st.roles && PagesOf(st', Roles) == st'.roles;
  }

  /** Once the title is a string and the properties build, the role block is an upsert on the query's answer. */
  lemma RoleStepUpserts(st: StoreState, parsed: map<string, Json>, companyId: Json, env: Env)
    requires Roles !in st.down
    requires Get(parsed, "position_title", JString("")).JString?
    requires BuildRoleProps(parsed, env.dumps, env.roleStamp).Success?
    ensures RoleStep(st, parsed, companyId, env) ==
      Upsert(st, Roles, QueryResponse(PagesOf(st, Roles), TitleContains("Role Title", Take(Get(parsed, "position_title", JString("")).s, 60))),
             BuildRoleProps(parsed, env.dumps, env.roleStamp).value["Parsed Company" := Relation(companyId)])
  {
  }

  // ---------- when a save succeeds ----------

  /** The company block succeeds exactly when Companies takes writes, the name is a string and the properties build. */
  lemma CompanyStepSucceeds(st: StoreState, parsed: map<string, Json>, env: Env)
    ensures CompanyStep(st, parsed, env).0.Success? <==>
      && Writable(st, Companies)
      && Get(parsed, "company", JString("Unknown Company")).JString?
      && BuildCompanyProps(parsed, env.dumps, env.companyStamp).Success?
  {
    var name := Slice60(Get(parsed, "company", JString("Unknown Company")));
    var props := BuildCompanyProps(parsed, env.dumps, env.companyStamp);
    if Writable(st, Companies) && name.Success? && props.Success? {
      UpsertAfterQuery(st, Companies, TitleContains("Name", name.value), props.value);
    }
  }

  /** The role block succeeds exactly when Roles takes writes, the title is a string and the properties build. */
  lemma RoleStepSucceeds(st: StoreState, parsed: map<string, Json>, companyId: Json, env: Env)
    ensures RoleStep(st, parsed, companyId, env).0.Success? <==>
      && Writable(st, Roles)
      && Get(parsed, "position_title", JString("")).JString?
      && BuildRoleProps(parsed, env.dumps, env.roleStamp).Success?
  {
    var title := Slice60(Get(parsed, "position_title", JString("")));
    var props := BuildRoleProps(parsed, env.dumps, env.roleStamp);
    if title.Failure? {
      assert RoleStep(st, parsed, companyId, env).0 == Failure(title.error);
    } else if props.Failure? || Roles in st.down {
    } else if Writable(st, Roles) {
      UpsertAfterQuery(st, Roles, TitleContains("Role Title", title.value), props.value["Parsed Company" := Relation(companyId)]);
    } else {
      UpsertUnwritable(st, Roles, QueryOf(st, Roles, TitleContains("Role Title", title.value)).value, props.value["Parsed Company" := Relation(companyId)]);
    }
  }

  /** What a new job needs to be stored, besides a Jobs database that takes writes. */
  predicate Storable(st: StoreState, parsed: map<string, Json>, env: Env) {
    && Writable(st, Companies) && Writable(st, Roles)
    && Get(parsed, "company", JString("Unknown Company")).JString?
    && Get(parsed, "position_title", JString("")).JString?
    && BuildCompanyProps(parsed, env.dumps, env.companyStamp).Success?
    && BuildRoleProps(parsed, env.dumps, env.roleStamp).Success?
  }

  lemma SavedNewSucceeds(st: StoreState, parsed: map<string, Json>, jd: string, sourceUrl: string, env: Env)
    ensures SavedNew(st, parsed, jd, sourceUrl, env).0.Success? <==> Writable(st, Jobs) && Storable(st, parsed, env)
  {
    var (c, st1) := CompanyStep(st, parsed, env);
    CompanyStepSucceeds(st, parsed, env);
    CompanyStepWrites(st, parsed, env);
    if c.Success? {
      var (ro, st2) := RoleStep(st1, parsed, c.value, env);
      RoleStepSucceeds(st1, parsed, c.value, env);
      RoleStepWrites(st1, parsed, c.value, env);
      if ro.Success? {
        JobStepWrites(st2, parsed, jd, sourceUrl, ro.value, c.value, env);
      }
    }
  }

  /**
   * A save succeeds exactly when Jobs is reachable and either the job is a duplicate or Jobs
   * takes writes and the job can be stored; every other case raises.
   */
  lemma SaveSucceedsIff(st: StoreState, parsed: map<string, Json>, jd: string, sourceUrl: string, env: Env)
    ensures Saved(st, parsed, jd, sourceUrl, env).0.Success? <==>
      && Jobs !in st.down
      && ((exists i :: 0 <= i < |st.jobs| && Matches(st.jobs[i], FingerprintFilter(parsed, jd, env)))
          || (Jobs !in st.rejects && Storable(st, parsed, env)))
  {
    MatchingIdsNonEmpty(st.jobs, FingerprintFilter(parsed, jd, env));
    SavedNewSucceeds(st, parsed, jd, sourceUrl, env);
  }

  // ---------- invariants across saves ----------

  lemma UpsertPreservesValid(st: StoreState, db: Db, q: Json, props: map<string, Json>)
    requires Valid(st)
    ensures Valid(Upsert(st, db, q, props).1)
  {
    var found := GetFirstPageId(q);
    if found.Success? {
      if found.value.Some? && Truthy(found.value.value) {
        UpdatePreservesValid(st, db, found.value.value, props);
      } else {
        CreatePreservesValid(st, db, props);
      }
    }
  }

  lemma CompanyStepPreservesValid(st: StoreState, parsed: map<string, Json>, env: Env)
    requires Valid(st)
    ensures Valid(CompanyStep(st, parsed, env).1)
  {
    var name := Slice60(Get(parsed, "company", JString("Unknown Company")));
    if name.Success? {
      var q := QueryOf(st, Companies, TitleContains("Name", name.value));
      var props := BuildCompanyProps(parsed, env.dumps, env.companyStamp);
      if q.Success? && props.Success? {
        UpsertPreservesValid(st, Companies, q.value, props.value);
      }
    }
  }

  lemma RoleStepPreservesValid(st: StoreState, parsed: map<string, Json>, companyId: Json, env: Env)
    requires Valid(st)
    ensures Valid(RoleStep(st, parsed, companyId, env).1)
  {
    var title := Slice60(Get(parsed, "position_title", JString("")));
    if title.Success? {
      var q := QueryOf(st, Roles, TitleContains("Role Title", title.value));
      var props := BuildRoleProps(parsed, env.dumps, env.roleStamp);
      if q.Success? && props.Success? {
        UpsertPreservesValid(st, Roles, q.value, props.value["Parsed Company" := Relation(companyId)]);
      }
    }
  }

  lemma JobStepPreservesValid(st: StoreState, parsed: map<string, Json>, jd: string, sourceUrl: string, roleId: Json, companyId: Json, env: Env)
    requires Valid(st)
    ensures Valid(JobStep(st, parsed, jd, sourceUrl, roleId, companyId, env).1)
  {
    CreatePreservesValid(st, Jobs, JobPageProps(parsed, jd, sourceUrl, roleId, companyId, env));
  }

  lemma SavedNewPreservesValid(st: StoreState, parsed: map<string, Json>, jd: string, sourceUrl: string, env: Env)
    requires Valid(st)
    ensures Valid(SavedNew(st, parsed, jd, sourceUrl, env).1)
  {
    var (c, st1) := CompanyStep(st, parsed, env);
    CompanyStepPreservesValid(st, parsed, env);
    if c.Success? {
      var (ro, st2) := RoleStep(st1, parsed, c.value, env);
      RoleStepPreservesValid(st1, parsed, c.value, env);
      if ro.Success? {
        JobStepPreservesValid(st2, parsed, jd, sourceUrl, ro.value, c.value, env);
      }
    }
  }

  /** Every save keeps page numbers below the next one, so ids stay unique. */
  lemma SavePreservesValid(st: StoreState, parsed: map<string, Json>, jd: string, sourceUrl: string, env: Env)
    requires Valid(st)
    ensures Valid(Saved(st, parsed, jd, sourceUrl, env).1)
  {
    SavedNewPreservesValid(st, parsed, jd, sourceUrl, env);
  }

  /**
   * Saving the same job text for the same company again, once a save has returned an id, is
   * detected as a duplicate and writes nothing, whatever the source URL and the clock.
   */
  lemma SecondSaveIsDuplicate(st: StoreState, parsed: map<string, Json>, jd: string, sourceUrl: string, env: Env,
                              sourceUrl2: string, env2: Env)
    requires env2.sha256hex == env.sha256hex && env2.pyStr == env.pyStr
    ensures var (r, st') := Saved(st, parsed, jd, sourceUrl, env);
      r.Success? && r.value.Some? ==> Saved(st', parsed, jd, sourceUrl2, env2) == (Success(None), st')
  {
    var (r, st') := Saved(st, parsed, jd, sourceUrl, env);
    SaveRecordsJob(st, parsed, jd, sourceUrl, env);
    if r.Success? && r.value.Some? {
      var n := |st.log|;
      var k := |st.jobs|;
      JobPagePropsFacts(parsed, jd, sourceUrl, JString(st'.log[n + 1].id), JString(st'.log[n].id), env);
      assert FingerprintFilter(parsed, jd, env2) == FingerprintFilter(parsed, jd, env);
      assert Matches(st'.jobs[k], FingerprintFilter(parsed, jd, env2));
      SaveSkipsDuplicate(st', parsed, jd, sourceUrl2, env2);
    }
  }
}
