/**
 * An in-memory stand-in for the three Notion databases `save_to_notion` talks to (Jobs, Role
 * Templates, Companies): a class whose fields the query, create and update calls act on, each
 * specified by a pure function of the store's state.
 */
module NotionStore {
  import opened Wrappers
  import opened PyText
  import opened Json
  import NotionProps

  datatype Db = Jobs | Roles | Companies

  /** A page: its number (its id is `PageId(num)`) and its properties. */
  datatype Page = Page(num: nat, props: map<string, Json>)

  /** A write the store performed, in order. */
  datatype Write = Created(db: Db, id: string) | Updated(db: Db, id: string)

  /**
   * The store's state: the pages of each database, the next page number, the writes so far,
   * the databases whose every call raises (an unreachable service), and the databases whose
   * creates and updates are refused while their queries still answer (a rejected request).
   */
  datatype StoreState = StoreState(jobs: seq<Page>, roles: seq<Page>, companies: seq<Page>, nextNum: nat,
                                   log: seq<Write>, down: set<Db>, rejects: set<Db>)

  /** The two filters the uploader sends: rich-text `equals` and title `contains`. */
  datatype Filter = RichTextEquals(prop: string, value: string) | TitleContains(prop: string, value: string)

  function PageId(n: nat): string {
    "page-" + NatToString(n)
  }

  lemma PageIdInjective(m: nat, n: nat)
    ensures PageId(m) == PageId(n) ==> m == n
  {
    if PageId(m) == PageId(n) {
      assert NatToString(m) == PageId(m)[5..];
      assert NatToString(n) == PageId(n)[5..];
      NatToStringInjective(m, n);
    }
  }

  function PagesOf(st: StoreState, db: Db): seq<Page> {
    match db
    case Jobs => st.jobs
    case Roles => st.roles
    case Companies => st.companies
  }

  /** `st` with the pages of `db` replaced. */
  function WithPages(st: StoreState, db: Db, pages: seq<Page>): StoreState {
    match db
    case Jobs => st.(jobs := pages)
    case Roles => st.(roles := pages)
    case Companies => st.(companies := pages)
  }

  /** Whether a page satisfies a filter: the property's first text run equals, or contains, the value. */
  predicate Matches(p: Page, f: Filter) {
    match f
    case RichTextEquals(prop, value) =>
      prop in p.props && NotionProps.ContentOf("rich_text", p.props[prop]) == Some(JString(value))
    case TitleContains(prop, value) =>
      && prop in p.props
      && var c := NotionProps.ContentOf("title", p.props[prop]);
        c.Some? && c.value.JString? && NotionProps.Contains(c.value.s, value)
  }

  /** `{"id": id}` for each matching page, in store order. */
  function MatchingIds(pages: seq<Page>, f: Filter): (r: seq<Json>)
    ensures |r| <= |pages|
  {
    if pages == [] then []
    else
      var last := pages[|pages| - 1];
      MatchingIds(pages[..|pages| - 1], f) + (if Matches(last, f) then [JObject(map["id" := JString(PageId(last.num))])] else [])
  }

  /** Some page matches exactly when the result list is non-empty. */
  lemma {:induction false} MatchingIdsNonEmpty(pages: seq<Page>, f: Filter)
    ensures MatchingIds(pages, f) != [] <==> exists i :: 0 <= i < |pages| && Matches(pages[i], f)
  {
    if pages != [] {
      var init := pages[..|pages| - 1];
      MatchingIdsNonEmpty(init, f);
      if exists i :: 0 <= i < |init| && Matches(init[i], f) {
        var i :| 0 <= i < |init| && Matches(init[i], f);
        assert pages[i] == init[i];
      }
      if exists i :: 0 <= i < |pages| && Matches(pages[i], f) {
        var i :| 0 <= i < |pages| && Matches(pages[i], f);
        if i < |init| {
          assert init[i] == pages[i];
        }
      }
    }
  }

  /** Every result is `{"id": id}` for a matching page of `pages`. */
  lemma {:induction false} MatchingIdsFromPages(pages: seq<Page>, f: Filter)
    ensures forall r :: r in MatchingIds(pages, f) ==>
      exists i :: 0 <= i < |pages| && Matches(pages[i], f) && r == JObject(map["id" := JString(PageId(pages[i].num))])
  {
    if pages != [] {
      var init := pages[..|pages| - 1];
      MatchingIdsFromPages(init, f);
      forall r | r in MatchingIds(pages, f)
        ensures exists i :: 0 <= i < |pages| && Matches(pages[i], f) && r == JObject(map["id" := JString(PageId(pages[i].num))])
      {
        if r in MatchingIds(init, f) {
          var i :| 0 <= i < |init| && Matches(init[i], f) && r == JObject(map["id" := JString(PageId(init[i].num))]);
          assert pages[i] == init[i];
        } else {
          assert Matches(pages[|pages| - 1], f);
        }
      }
    }
  }

  /** Every matching page of `pages` has its `{"id": id}` among the results. */
  lemma {:induction false} MatchingIdsComplete(pages: seq<Page>, f: Filter)
    ensures forall i :: 0 <= i < |pages| && Matches(pages[i], f) ==>
      JObject(map["id" := JString(PageId(pages[i].num))]) in MatchingIds(pages, f)
  {
    if pages != [] {
      var init := pages[..|pages| - 1];
      MatchingIdsComplete(init, f);
      forall i | 0 <= i < |pages| && Matches(pages[i], f)
        ensures JObject(map["id" := JString(PageId(pages[i].num))]) in MatchingIds(pages, f)
      {
        if i < |init| {
          assert init[i] == pages[i];
        }
      }
    }
  }

  /** The body of a query response. */
  function QueryResponse(pages: seq<Page>, f: Filter): Json {
    JObject(map["results" := JArray(MatchingIds(pages, f))])
  }

  /** A query of `db` with filter `f`. */
  function QueryOf(st: StoreState, db: Db, f: Filter): Result<Json, PyError> {
    if db in st.down then Failure(ApiError) else Success(QueryResponse(PagesOf(st, db), f))
  }

  /** Whether creates and updates of `db` go through. */
  predicate Writable(st: StoreState, db: Db) {
    db !in st.down && db !in st.rejects
  }

  /** Creating a page in `db`: it gets the next number, is appended, and its id is returned. */
  function CreateOf(st: StoreState, db: Db, props: map<string, Json>): (Result<Json, PyError>, StoreState) {
    if !Writable(st, db) then (Failure(ApiError), st)
    else
      var id := PageId(st.nextNum);
      (Success(JObject(map["id" := JString(id)])),
       WithPages(st, db, PagesOf(st, db) + [Page(st.nextNum, props)]).(nextNum := st.nextNum + 1, log := st.log + [Created(db, id)]))
  }

  /** The index of the page of `pages` whose id is `id`. */
  function FindPage(pages: seq<Page>, id: string): (r: Option<nat>)
    ensures r.Some? ==> r.value < |pages| && PageId(pages[r.value].num) == id
    ensures r.None? ==> forall i :: 0 <= i < |pages| ==> PageId(pages[i].num) != id
  {
    if pages == [] then None
    else if PageId(pages[|pages| - 1].num) == id then Some(|pages| - 1)
    else FindPage(pages[..|pages| - 1], id)
  }

  /**
   * Updating page `id` of `db`: the given properties replace those of the same name, the others
   * stay. An id that is not a string, or names no page of `db`, is rejected.
   */
  function UpdateOf(st: StoreState, db: Db, id: Json, props: map<string, Json>): (Result<(), PyError>, StoreState) {
    if !Writable(st, db) || !id.JString? then (Failure(ApiError), st)
    else
      var pages := PagesOf(st, db);
      match FindPage(pages, id.s)
      case None => (Failure(ApiError), st)
      case Some(i) =>
        (Success(()), WithPages(st, db, pages[i := Page(pages[i].num, pages[i].props + props)]).(log := st.log + [Updated(db, id.s)]))
  }

  /** Every page's number is below the next one and no two pages share a number, so ids are unique. */
  predicate Valid(st: StoreState) {
    && (forall db, i :: 0 <= i < |PagesOf(st, db)| ==> PagesOf(st, db)[i].num < st.nextNum)
    && (forall d, i, e, j :: 0 <= i < |PagesOf(st, d)| && 0 <= j < |PagesOf(st, e)| && (d != e || i != j) ==>
          PagesOf(st, d)[i].num != PagesOf(st, e)[j].num)
  }

  lemma CreatePreservesValid(st: StoreState, db: Db, props: map<string, Json>)
    requires Valid(st)
    ensures Valid(CreateOf(st, db, props).1)
    ensures forall p :: p in PagesOf(st, db) ==> PageId(p.num) != PageId(st.nextNum)
  {
    forall p | p in PagesOf(st, db)
      ensures PageId(p.num) != PageId(st.nextNum)
    {
      var i :| 0 <= i < |PagesOf(st, db)| && PagesOf(st, db)[i] == p;
      PageIdInjective(p.num, st.nextNum);
    }
    if Writable(st, db) {
      var st' := CreateOf(st, db, props).1;
      forall e, j | 0 <= j < |PagesOf(st', e)|
        ensures PagesOf(st', e)[j].num == (if e == db && j == |PagesOf(st, db)| then st.nextNum else PagesOf(st, e)[j].num)
        ensures e != db || j != |PagesOf(st, db)| ==> j < |PagesOf(st, e)|
      {
      }
    }
  }

  /** An update keeps every page's number, so it keeps `Valid`. */
  lemma UpdatePreservesValid(st: StoreState, db: Db, id: Json, props: map<string, Json>)
    requires Valid(st)
    ensures Valid(UpdateOf(st, db, id, props).1)
  {
    var st' := UpdateOf(st, db, id, props).1;
    forall e, j | 0 <= j < |PagesOf(st', e)|
      ensures |PagesOf(st', e)| == |PagesOf(st, e)| && PagesOf(st', e)[j].num == PagesOf(st, e)[j].num
    {
    }
  }

  /** In a valid store, the page an id names is the only page with that id. */
  lemma FindPageUnique(st: StoreState, db: Db, i: nat)
    requires Valid(st) && i < |PagesOf(st, db)|
    ensures FindPage(PagesOf(st, db), PageId(PagesOf(st, db)[i].num)) == Some(i)
  {
    var pages := PagesOf(st, db);
    var k := FindPage(pages, PageId(pages[i].num));
    PageIdInjective(pages[k.value].num, pages[i].num);
  }

  /** In a valid store, updating page `i` by its id merges the properties into that page and no other. */
  lemma UpdateAt(st: StoreState, db: Db, i: nat, props: map<string, Json>)
    requires Valid(st) && Writable(st, db) && i < |PagesOf(st, db)|
    ensures var pages := PagesOf(st, db);
      var (r, st') := UpdateOf(st, db, JString(PageId(pages[i].num)), props);
      && r.Success?
      && PagesOf(st', db) == pages[i := Page(pages[i].num, pages[i].props + props)]
      && (forall other :: other != db ==> PagesOf(st', other) == PagesOf(st, other))
  {
    FindPageUnique(st, db, i);
  }

  /**
   * A create writes only to its database, appends exactly one page holding the given
   * properties, and logs it; on a database that does not take writes nothing changes.
   */
  lemma CreateEffect(st: StoreState, db: Db, props: map<string, Json>)
    ensures var (r, st') := CreateOf(st, db, props);
      r.Success? <==> Writable(st, db)
    ensures var (r, st') := CreateOf(st, db, props);
      r.Success? ==>
        && PagesOf(st', db) == PagesOf(st, db) + [Page(st.nextNum, props)]
        && (forall other :: other != db ==> PagesOf(st', other) == PagesOf(st, other))
        && st'.log == st.log + [Created(db, PageId(st.nextNum))]
        && r.value == JObject(map["id" := JString(PageId(st.nextNum))])
    ensures var (r, st') := CreateOf(st, db, props);
      r.Failure? ==> st' == st
  {
  }

  /**
   * An update changes one page of its database, keeping its number and the properties it
   * does not name, and logs it; on failure nothing changes.
   */
  lemma UpdateEffect(st: StoreState, db: Db, id: Json, props: map<string, Json>)
    ensures var (r, st') := UpdateOf(st, db, id, props);
      r.Success? <==> Writable(st, db) && id.JString? && exists i :: 0 <= i < |PagesOf(st, db)| && PageId(PagesOf(st, db)[i].num) == id.s
    ensures var (r, st') := UpdateOf(st, db, id, props);
      r.Success? ==>
        && |PagesOf(st', db)| == |PagesOf(st, db)|
        && (forall other :: other != db ==> PagesOf(st', other) == PagesOf(st, other))
        && st'.log == st.log + [Updated(db, id.s)] && st'.nextNum == st.nextNum
    ensures var (r, st') := UpdateOf(st, db, id, props);
      r.Failure? ==> st' == st
  {
  }

  /** The search `FindPage` specifies, from the last page backwards. */
  method FindIndex(pages: seq<Page>, id: string) returns (r: Option<nat>)
    ensures r == FindPage(pages, id)
  {
    var i := |pages|;
    assert pages[..i] == pages;
    while i > 0 && PageId(pages[i - 1].num) != id
      invariant 0 <= i <= |pages|
      invariant FindPage(pages, id) == FindPage(pages[..i], id)
    {
      assert pages[..i - 1] == pages[..i][..i - 1];
      i := i - 1;
    }
    if i == 0 {
      return None;
    }
    return Some(i - 1);
  }

  /** The databases, as a class whose fields the calls update in place. */
  class Store {
    var jobs: seq<Page>
    var roles: seq<Page>
    var companies: seq<Page>
    var nextNum: nat
    var log: seq<Write>
    var down: set<Db>
    var rejects: set<Db>

    function State(): StoreState
      reads this
    {
      StoreState(jobs, roles, companies, nextNum, log, down, rejects)
    }

    /** Empty databases; calls to those in `down` raise, and so do writes to those in `rejects`. */
    constructor (down: set<Db>, rejects: set<Db>)
      ensures State() == StoreState([], [], [], 0, [], down, rejects)
      ensures Valid(State())
    {
      jobs, roles, companies := [], [], [];
      nextNum := 0;
      log := [];
      this.down := down;
      this.rejects := rejects;
    }

    /** `notion_query(db, filter)`: scans the pages in order and lists those that match. */
    method Query(db: Db, f: Filter) returns (r: Result<Json, PyError>)
      ensures r == QueryOf(State(), db, f)
    {
      if db in down {
        return Failure(ApiError);
      }
      var pages := PagesOf(State(), db);
      var results: seq<Json> := [];
      var i := 0;
      while i < |pages|
        invariant 0 <= i <= |pages|
        invariant results == MatchingIds(pages[..i], f)
      {
        assert pages[..i + 1][..i] == pages[..i];
        if Matches(pages[i], f) {
          results := results + [JObject(map["id" := JString(PageId(pages[i].num))])];
        }
        i := i + 1;
      }
      assert pages[..i] == pages;
      return Success(JObject(map["results" := JArray(results)]));
    }

    /** `notion.pages.create(parent=db, properties=props)` */
    method Create(db: Db, props: map<string, Json>) returns (r: Result<Json, PyError>)
      modifies this
      ensures (r, State()) == CreateOf(old(State()), db, props)
    {
      if db in down || db in rejects {
        return Failure(ApiError);
      }
      var id := PageId(nextNum);
      var page := Page(nextNum, props);
      match db {
        case Jobs => jobs := jobs + [page];
        case Roles => roles := roles + [page];
        case Companies => companies := companies + [page];
      }
      nextNum := nextNum + 1;
      log := log + [Created(db, id)];
      return Success(JObject(map["id" := JString(id)]));
    }

    /** `notion.pages.update(page_id=id, properties=props)`: finds the page, then merges the properties into it. */
    method Update(db: Db, id: Json, props: map<string, Json>) returns (r: Result<(), PyError>)
      modifies this
      ensures (r, State()) == UpdateOf(old(State()), db, id, props)
    {
      if db in down || db in rejects || !id.JString? {
        return Failure(ApiError);
      }
      var pages := PagesOf(State(), db);
      var found := FindIndex(pages, id.s);
      if found.None? {
        return Failure(ApiError);
      }
      var k := found.value;
      var updated := pages[k := Page(pages[k].num, pages[k].props + props)];
      match db {
        case Jobs => jobs := updated;
        case Roles => roles := updated;
        case Companies => companies := updated;
      }
      log := log + [Updated(db, id.s)];
      return Success(());
    }
  }
}
