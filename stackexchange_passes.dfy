/**
 * The two Stack Exchange passes of the "stackexchange questions" command:
 * fetching new questions since the newest stored one, and re-fetching the
 * questions being tracked. The remote API is a sequence of responses, the
 * k-th request (from 0) receiving pages[k]; a request beyond the sequence fails.
 */
module QuestionPasses {
  import opened Text
  import opened StackExchange
  import opened LocalStore
  import opened Settings

  const FourHours: int := 4 * 60 * 60

  /** How far the stored creation date may lie ahead of now before it is replaced. */
  const ClampSeconds: int := 4 * 60

  /** The last page the search pass fetches: it stops once the page counter passes this. */
  const MaxSearchPage: int := 10

  /**
   * The date new questions are searched from: four hours back when the
   * store holds no question with a non-zero latest QID, otherwise the
   * latest creation date unless it lies more than four minutes in the future.
   */
  function Watermark(latestQid: int, latestCreation: int, now: int): (w: int)
    ensures w == latestCreation || w == now - FourHours
    ensures w <= now + ClampSeconds
    ensures latestQid == 0 ==> w == now - FourHours
    ensures latestQid != 0 && latestCreation - now <= ClampSeconds ==> w == latestCreation
    ensures (latestQid == 0 || latestCreation - now > ClampSeconds) ==> w == now - FourHours
  {
    var creation := if latestQid == 0 then now - FourHours else latestCreation;
    if creation - now > ClampSeconds then now - FourHours else creation
  }

  /**
   * The clamp only guards against dates in the future: an arbitrarily old
   * latest creation date is searched from as it is.
   */
  lemma StaleWatermarkKept(latestQid: int, latestCreation: int, now: int)
    requires latestQid != 0 && latestCreation < now - FourHours
    ensures Watermark(latestQid, latestCreation, now) == latestCreation
    ensures Watermark(latestQid, latestCreation, now) < now - FourHours
  {
  }

  /** The applied set after Set(name, value) for every entry of m (in any order: distinct names commute). */
  function SetEach(applied: map<string, Parameter>, allowed: map<string, Parameter>, m: map<string, string>): (r: map<string, Parameter>)
    ensures forall name :: name in m && name in allowed && m[name] != "" ==>
      name in r && r[name] == Parameter(name, StrVal(m[name]), "")
    ensures forall name :: name in r && !(name in m && name in allowed && m[name] != "") ==>
      name in applied && r[name] == applied[name]
    ensures forall name :: name in applied ==> name in r
  {
    applied + map name | name in m && name in allowed && m[name] != "" :: Parameter(name, StrVal(m[name]), "")
  }

  /** SetEach restricted to the names in done. */
  ghost function SetSome(applied: map<string, Parameter>, allowed: map<string, Parameter>, m: map<string, string>, done: set<string>): map<string, Parameter> {
    applied + map name | name in done && name in m && name in allowed && m[name] != "" :: Parameter(name, StrVal(m[name]), "")
  }

  /** Sets every entry of a configuration map, as the passes' "for param, value := range" loops do. */
  method ApplyConfig(p: Parameters, m: map<string, string>)
    requires p.Valid()
    modifies p
    ensures p.Valid()
    ensures p.allowed == old(p.allowed)
    ensures p.applied == SetEach(old(p.applied), old(p.allowed), m)
  {
    ghost var allowed, applied := p.allowed, p.applied;
    var todo := m.Keys;
    while todo != {}
      invariant todo <= m.Keys
      invariant p.Valid() && p.allowed == allowed
      invariant p.applied == SetSome(applied, allowed, m, m.Keys - todo)
      decreases todo
    {
      var name := AnyName(todo);
      assert m.Keys - (todo - {name}) == (m.Keys - todo) + {name};
      SetEntry(p, m, name, applied, m.Keys - todo);
      todo := todo - {name};
    }
    SetSomeAll(applied, allowed, m, m.Keys - todo);
  }

  /** One iteration of the configuration loop: Set(name, m[name]). */
  method SetEntry(p: Parameters, m: map<string, string>, name: string,
                  ghost applied: map<string, Parameter>, ghost done: set<string>)
    requires p.Valid() && name in m
    requires p.applied == SetSome(applied, p.allowed, m, done)
    modifies p
    ensures p.Valid() && p.allowed == old(p.allowed)
    ensures p.applied == SetSome(applied, p.allowed, m, done + {name})
  {
    SetSomeStep(applied, p.allowed, m, done, name);
    p.Set(name, StrVal(m[name]));
  }

  /** Go's range over a map visits its keys in no fixed order: any remaining key may come next. */
  method AnyName(todo: set<string>) returns (name: string)
    requires todo != {}
    ensures name in todo
  {
    name :| name in todo;
  }

  lemma SetSomeStep(applied: map<string, Parameter>, allowed: map<string, Parameter>, m: map<string, string>,
                    done: set<string>, name: string)
    requires name in m
    ensures name in allowed && m[name] != "" ==>
      SetSome(applied, allowed, m, done + {name}) == SetSome(applied, allowed, m, done)[name := Parameter(name, StrVal(m[name]), "")]
    ensures !(name in allowed && m[name] != "") ==>
      SetSome(applied, allowed, m, done + {name}) == SetSome(applied, allowed, m, done)
  {
  }

  lemma SetSomeAll(applied: map<string, Parameter>, allowed: map<string, Parameter>, m: map<string, string>, done: set<string>)
    requires done == m.Keys
    ensures SetSome(applied, allowed, m, done) == SetEach(applied, allowed, m)
  {
  }

  /** The site parameter as the passes set it first, before the configuration maps. */
  function SiteApplied(allowed: map<string, Parameter>, site: string): map<string, Parameter> {
    if "site" in allowed && site != "" then map["site" := Parameter("site", StrVal(site), "")] else map[]
  }

  /** The parameters the search pass applies: site, then its configuration map, then fromdate. */
  function SearchApplied(cfg: Config, apiKey: string, watermark: int): map<string, Parameter> {
    var allowed := Registry(SearchAdvancedDefaults(apiKey));
    SetEach(SiteApplied(allowed, cfg.site), allowed, cfg.searchAdvanced)
      ["fromdate" := Parameter("fromdate", IntVal(watermark + 1), "")]
  }

  /** The query every request of the search pass carries. */
  function SearchQuery(cfg: Config, apiKey: string, watermark: int): map<string, string> {
    QueryOf(WithDefaults(Registry(SearchAdvancedDefaults(apiKey)), SearchApplied(cfg, apiKey, watermark)))
  }

  /** The last registration of a name is the one that stays. */
  lemma {:induction false} RegistryLast(defs: seq<Parameter>, i: nat)
    requires i < |defs|
    requires forall j :: i < j < |defs| ==> defs[j].name != defs[i].name
    ensures defs[i].name in Registry(defs)
    ensures Registry(defs)[defs[i].name] == defs[i]
  {
    if i < |defs| - 1 {
      RegistryLast(defs[..|defs| - 1], i);
    }
  }

  /** Only registered names are accepted. */
  lemma {:induction false} RegistryOnly(defs: seq<Parameter>, name: string)
    requires forall i :: 0 <= i < |defs| ==> defs[i].name != name
    ensures name !in Registry(defs)
  {
    if defs != [] {
      RegistryOnly(defs[..|defs| - 1], name);
    }
  }

  /** The search endpoint's default site. */
  lemma SearchDefaultSite(apiKey: string)
    ensures var allowed := Registry(SearchAdvancedDefaults(apiKey));
      "site" in allowed && allowed["site"].String() == "stackoverflow"
  {
    RegistryLast(SearchAdvancedDefaults(apiKey), 0);
  }

  /** The search endpoint's paging defaults. */
  lemma SearchDefaultPaging(apiKey: string)
    ensures var allowed := Registry(SearchAdvancedDefaults(apiKey));
      && "pagesize" in allowed && allowed["pagesize"].String() == "100"
      && "page" in allowed && allowed["page"].String() == "1"
  {
    RegistryLast(SearchAdvancedDefaults(apiKey), 20);
    RegistryLast(SearchAdvancedDefaults(apiKey), 21);
  }

  /** The search query always carries fromdate, one past the watermark. */
  lemma SearchQueryFromdate(cfg: Config, apiKey: string, watermark: int)
    ensures var q := SearchQuery(cfg, apiKey, watermark);
      "fromdate" in q && q["fromdate"] == IntToString(watermark + 1)
  {
  }

  /**
   * The paging counter is never sent: page stays at its default "1" unless
   * the configuration sets it, and pagesize at "100".
   */
  lemma SearchQueryPaging(cfg: Config, apiKey: string, watermark: int)
    ensures var q := SearchQuery(cfg, apiKey, watermark);
      && ("page" !in cfg.searchAdvanced || cfg.searchAdvanced["page"] == "" ==> "page" in q && q["page"] == "1")
      && ("pagesize" !in cfg.searchAdvanced || cfg.searchAdvanced["pagesize"] == "" ==> "pagesize" in q && q["pagesize"] == "100")
  {
    SearchDefaultPaging(apiKey);
  }

  /** site comes from the configuration map, else the configured site, else "stackoverflow". */
  lemma SearchQuerySite(cfg: Config, apiKey: string, watermark: int)
    ensures var q := SearchQuery(cfg, apiKey, watermark);
      && "site" in q
      && ("site" in cfg.searchAdvanced && cfg.searchAdvanced["site"] != "" ==> q["site"] == cfg.searchAdvanced["site"])
      && (("site" !in cfg.searchAdvanced || cfg.searchAdvanced["site"] == "") && cfg.site != "" ==> q["site"] == cfg.site)
      && (("site" !in cfg.searchAdvanced || cfg.searchAdvanced["site"] == "") && cfg.site == "" ==> q["site"] == "stackoverflow")
  {
    SearchDefaultSite(apiKey);
  }

  function ResponseAt(pages: seq<Response>, k: nat): Response {
    if k < |pages| then pages[k] else Failed
  }

  /** The has-more flag after request k: taken from a received page, kept from before on a failure. */
  function HasMoreAfter(pages: seq<Response>, k: nat, hasMore: bool): bool {
    match ResponseAt(pages, k)
    case Received(envelope) => envelope.hasMore
    case Failed => hasMore
  }

  /** The questions request k delivered: none when it failed. */
  function ItemsAt(pages: seq<Response>, k: nat): seq<QuestionObj> {
    match ResponseAt(pages, k)
    case Received(envelope) => envelope.items
    case Failed => []
  }

  /** Every question the first n requests delivered, in order. */
  function ReceivedItems(pages: seq<Response>, n: nat): seq<QuestionObj> {
    if n == 0 then [] else ReceivedItems(pages, n - 1) + ItemsAt(pages, n - 1)
  }

  /** Requests the search pass makes from request k on, the flag being hasMore before it. */
  function SearchFetchesFrom(pages: seq<Response>, k: nat, hasMore: bool): (n: nat)
    requires k <= MaxSearchPage
    ensures k < n <= MaxSearchPage + 1
    decreases MaxSearchPage - k
  {
    var more := HasMoreAfter(pages, k, hasMore);
    if k + 1 > MaxSearchPage || !more then k + 1 else SearchFetchesFrom(pages, k + 1, more)
  }

  /** One unfolding of SearchFetchesFrom, as the loop takes it. */
  lemma SearchFetchesStep(pages: seq<Response>, k: nat, hasMore: bool)
    requires k <= MaxSearchPage
    ensures var more := HasMoreAfter(pages, k, hasMore);
      if k + 1 > MaxSearchPage || !more then SearchFetchesFrom(pages, k, hasMore) == k + 1
      else SearchFetchesFrom(pages, k, hasMore) == SearchFetchesFrom(pages, k + 1, more)
  {
  }

  /** The number of requests one search pass makes: between 1 and 11. */
  function SearchFetches(pages: seq<Response>): (n: nat)
    ensures 1 <= n <= MaxSearchPage + 1
  {
    SearchFetchesFrom(pages, 0, false)
  }

  /** When every page received says there is more, the pass stops only at the page ceiling. */
  lemma {:induction false} SearchCeilingReached(pages: seq<Response>, k: nat, hasMore: bool)
    requires k <= MaxSearchPage
    requires forall i :: k <= i < |pages| ==> pages[i].Received? && pages[i].envelope.hasMore
    requires |pages| >= MaxSearchPage + 1
    ensures SearchFetchesFrom(pages, k, hasMore) == MaxSearchPage + 1
    decreases MaxSearchPage - k
  {
    if k + 1 <= MaxSearchPage {
      SearchCeilingReached(pages, k + 1, HasMoreAfter(pages, k, hasMore));
    }
  }

  /** A failed request keeps the pass going when the previous page said there was more. */
  lemma SearchContinuesAfterFailure(pages: seq<Response>, k: nat)
    requires k < MaxSearchPage
    requires ResponseAt(pages, k).Failed?
    ensures SearchFetchesFrom(pages, k, true) == SearchFetchesFrom(pages, k + 1, true)
  {
  }

  /** Requests the update pass makes from request k on, stopping after fuel requests at the latest. */
  function UpdateFetchesFrom(pages: seq<Response>, k: nat, hasMore: bool, fuel: nat): (n: nat)
    requires k < fuel
    ensures k < n <= fuel
    decreases fuel - k
  {
    var more := HasMoreAfter(pages, k, hasMore);
    if more && k + 1 < fuel then UpdateFetchesFrom(pages, k + 1, more, fuel) else k + 1
  }

  /** One unfolding of UpdateFetchesFrom, as the loop takes it. */
  lemma UpdateFetchesStep(pages: seq<Response>, k: nat, hasMore: bool, fuel: nat)
    requires k < fuel
    ensures var more := HasMoreAfter(pages, k, hasMore);
      if more && k + 1 < fuel then UpdateFetchesFrom(pages, k, hasMore, fuel) == UpdateFetchesFrom(pages, k + 1, more, fuel)
      else UpdateFetchesFrom(pages, k, hasMore, fuel) == k + 1
  {
  }

  function UpdateFetches(pages: seq<Response>, fuel: nat): (n: nat)
    requires fuel >= 1
    ensures 1 <= n <= fuel
  {
    UpdateFetchesFrom(pages, 0, false, fuel)
  }

  /**
   * The update pass has no page ceiling: once a page said there is more,
   * every later failure keeps the flag set, so the pass goes on until the
   * fuel runs out.
   */
  lemma {:induction false} UpdateRetriesForever(pages: seq<Response>, k: nat, fuel: nat)
    requires k < fuel
    requires forall i :: k <= i < |pages| ==> pages[i].Received? && pages[i].envelope.hasMore
    ensures UpdateFetchesFrom(pages, k, true, fuel) == fuel
    decreases fuel - k
  {
    if k + 1 < fuel {
      UpdateRetriesForever(pages, k + 1, fuel);
    }
  }

  /** Syncing one question as the command does: its owner first, then the question itself. */
  function SyncItem(store: Store, q: QuestionObj, site: string): Store {
    Store(SyncedQuestions(store.questions, q, site), SyncedUsers(store.users, q.owner), store.links)
  }

  /** Syncing questions one after another. */
  function SyncAll(store: Store, items: seq<QuestionObj>, site: string): Store
    decreases |items|
  {
    if items == [] then store
    else SyncItem(SyncAll(store, items[..|items| - 1], site), items[|items| - 1], site)
  }

  /** Syncing keeps every table keyed and never drops a row. */
  lemma {:induction false} SyncAllGrows(store: Store, items: seq<QuestionObj>, site: string)
    requires Keyed(store.questions)
    ensures Keyed(SyncAll(store, items, site).questions)
    ensures store.questions.Keys <= SyncAll(store, items, site).questions.Keys
    ensures SyncAll(store, items, site).links == store.links
    decreases |items|
  {
    if items != [] {
      SyncAllGrows(store, items[..|items| - 1], site);
    }
  }

  function LastOr(items: seq<QuestionObj>, default: QuestionObj): QuestionObj {
    if items == [] then default else items[|items| - 1]
  }

  /** The store is treated as empty when its latest question has QID 0. */
  ghost predicate Bootstrap(questions: map<int, QuestionRow>)
    requires Keyed(questions)
  {
    LatestIn(questions).qid == 0
  }

  /**
   * The store after a search pass: every received question synced in
   * order; on an empty store only the last question received, once, and
   * only when its QID is positive.
   */
  ghost function NewPass(store: Store, site: string, pages: seq<Response>): Store
    requires Keyed(store.questions)
  {
    var items := ReceivedItems(pages, SearchFetches(pages));
    if !Bootstrap(store.questions) then SyncAll(store, items, site)
    else if LastOr(items, ZeroQuestionObj).qid > 0 then SyncItem(store, LastOr(items, ZeroQuestionObj), site)
    else store
  }

  /** On an empty store at most one question is written, however many pages arrive. */
  lemma BootstrapSyncsAtMostOne(store: Store, site: string, pages: seq<Response>)
    requires Keyed(store.questions)
    requires Bootstrap(store.questions)
    ensures exists q :: NewPass(store, site, pages) == SyncItem(store, q, site) || NewPass(store, site, pages) == store
  {
    var q := LastOr(ReceivedItems(pages, SearchFetches(pages)), ZeroQuestionObj);
    assert NewPass(store, site, pages) == SyncItem(store, q, site) || NewPass(store, site, pages) == store;
  }

  /** so.SyncQuestion: the owner, then the question, for the configured site; storage errors are only logged. */
  method SyncQuestion(db: Database, q: QuestionObj, site: string)
    requires db.Valid()
    modifies db
    ensures db.Valid()
    ensures db.State() == SyncItem(old(db.State()), q, site)
  {
    var userOutcome := db.SyncUser(q.owner, false);
    var questionOutcome := db.SyncQuestion(q, site, false);
  }

  /** Syncing two batches one after the other is syncing their concatenation. */
  lemma {:induction false} SyncAllAppend(store: Store, a: seq<QuestionObj>, b: seq<QuestionObj>, site: string)
    ensures SyncAll(SyncAll(store, a, site), b, site) == SyncAll(store, a + b, site)
    decreases |b|
  {
    if b == [] {
      assert a + b == a;
    } else {
      var front, q := b[..|b| - 1], b[|b| - 1];
      SyncAllAppend(store, a, front, site);
      assert (a + b)[..|a + b| - 1] == a + front && (a + b)[|a + b| - 1] == q;
      calc {
        SyncAll(SyncAll(store, a, site), b, site);
        SyncItem(SyncAll(SyncAll(store, a, site), front, site), q, site);
        SyncItem(SyncAll(store, a + front, site), q, site);
        SyncAll(store, a + b, site);
      }
    }
  }

  /** Syncing what request k delivers after what the earlier ones did is syncing the first k + 1. */
  lemma ReceivedStep(store: Store, pages: seq<Response>, k: nat, site: string)
    ensures SyncAll(SyncAll(store, ReceivedItems(pages, k), site), ItemsAt(pages, k), site) ==
      SyncAll(store, ReceivedItems(pages, k + 1), site)
    ensures ReceivedItems(pages, k + 1) == ReceivedItems(pages, k) + ItemsAt(pages, k)
  {
    SyncAllAppend(store, ReceivedItems(pages, k), ItemsAt(pages, k), site);
  }

  lemma LastOrAppend(a: seq<QuestionObj>, b: seq<QuestionObj>, default: QuestionObj)
    ensures LastOr(b, LastOr(a, default)) == LastOr(a + b, default)
  {
    if b == [] {
      assert a + b == a;
    }
  }

  /**
   * The loop over one page's questions: on an empty store each question
   * only replaces the remembered last one; otherwise each is synced in turn.
   */
  method SyncPage(db: Database, items: seq<QuestionObj>, empty: bool, last0: QuestionObj, site: string)
    returns (last: QuestionObj)
    requires db.Valid()
    modifies db
    ensures db.Valid()
    ensures empty ==> db.State() == old(db.State()) && last == LastOr(items, last0)
    ensures !empty ==> db.State() == SyncAll(old(db.State()), items, site) && last == last0
  {
    last := last0;
    var j := 0;
    while j < |items|
      invariant 0 <= j <= |items|
      invariant db.Valid()
      invariant empty ==> db.State() == old(db.State()) && last == LastOr(items[..j], last0)
      invariant !empty ==> db.State() == SyncAll(old(db.State()), items[..j], site) && last == last0
    {
      if empty {
        last := items[j];
      } else {
        assert items[..j + 1][..j] == items[..j];
        SyncQuestion(db, items[j], site);
      }
      j := j + 1;
    }
    assert items[..|items|] == items;
  }

  /** A fresh advanced search with the pass's site, configuration map and fromdate set. */
  method NewSearch(client: Client, cfg: Config, watermark: int) returns (search: SearchAdvanced)
    ensures fresh(search) && fresh(search.parameters) && fresh(search.paging)
    ensures search.Valid() && search.client == client
    ensures search.parameters.allowed == Registry(SearchAdvancedDefaults(client.apiKey))
    ensures search.parameters.applied == SearchApplied(cfg, client.apiKey, watermark)
    ensures search.paging.page == 0 && !search.paging.hasMore
  {
    search := new SearchAdvanced(client);
    assert SearchAdvancedDefaults(client.apiKey)[0].name == "site";
    assert SearchAdvancedDefaults(client.apiKey)[17].name == "fromdate";
    search.parameters.Set("site", StrVal(cfg.site));
    ApplyConfig(search.parameters, cfg.searchAdvanced);
    search.parameters.Set("fromdate", IntVal(watermark + 1));
  }

  /** The watermark of the stored questions, as getNewQuestions computes it. */
  method ComputeWatermark(db: Database, now: int) returns (empty: bool, watermark: int)
    requires db.Valid()
    ensures empty == Bootstrap(db.questions)
    ensures watermark == Watermark(LatestIn(db.questions).qid, LatestIn(db.questions).creationDate, now)
  {
    var latest, found := db.LatestQuestion();
    empty := latest.qid == 0;
    watermark := latest.creationDate;
    if empty {
      watermark := now - FourHours;
    }
    var diff := watermark - now;
    if diff > ClampSeconds {
      watermark := now - FourHours;
    }
  }

  /** One request of getNewQuestions: issue it and sync (or, on an empty store, remember) what it delivers. */
  method SearchStep(db: Database, search: SearchAdvanced, empty: bool, last0: QuestionObj, pages: seq<Response>, k: nat, site: string)
    returns (url: Url, last: QuestionObj)
    requires db.Valid() && search.Valid()
    modifies db, search, search.parameters, search.paging, search.client
    ensures db.Valid() && search.Valid()
    ensures !empty ==> db.State() == SyncAll(old(db.State()), ItemsAt(pages, k), site) && last == last0
    ensures empty ==> db.State() == old(db.State()) && last == LastOr(ItemsAt(pages, k), last0)
    ensures search.parameters.allowed == old(search.parameters.allowed)
    ensures search.parameters.applied == WithDefaults(old(search.parameters.allowed), old(search.parameters.applied))
    ensures url == Url(search.client.GetEndpoint("search/advanced"), QueryOf(search.parameters.applied))
    ensures search.paging.page == old(search.paging.page)
    ensures search.paging.hasMore == HasMoreAfter(pages, k, old(search.paging.hasMore))
    ensures search.client.apiHost == old(search.client.apiHost) && search.client.apiVersion == old(search.client.apiVersion)
    ensures search.client.apiKey == old(search.client.apiKey)
  {
    var ok;
    ok, url := search.Get(ResponseAt(pages, k));
    last := last0;
    if ok {
      last := SyncPage(db, search.result.value.items, empty, last0, site);
    }
  }

  /** The values getNewQuestions' paging loop keeps fixed. */
  datatype SearchSetup = SearchSetup(
    allowed: map<string, Parameter>, applied: map<string, Parameter>, settled: map<string, Parameter>, store0: Store,
    endpoint: string, host: string, version: string, key: string, url: Url)

  /**
   * What holds in getNewQuestions' paging loop after k requests, go telling
   * whether it goes on: the search keeps its settled parameters and its
   * client, the request count agrees with SearchFetches, and the store (or
   * on an empty store the remembered question) reflects what k requests delivered.
   */
  ghost predicate SearchProgress(db: Database, search: SearchAdvanced, empty: bool, pages: seq<Response>, site: string,
                                 setup: SearchSetup, k: nat, go: bool, last: QuestionObj)
    reads db, search, search.parameters, search.paging, search.client
  {
    && db.Valid() && search.Valid()
    && search.parameters.allowed == setup.allowed
    && search.parameters.applied == (if k == 0 then setup.applied else setup.settled)
    && search.client.GetEndpoint("search/advanced") == setup.endpoint
    && search.client.apiHost == setup.host && search.client.apiVersion == setup.version && search.client.apiKey == setup.key
    && k <= MaxSearchPage + 1
    && (go ==> k <= MaxSearchPage && search.paging.page == (if k == 0 then 0 else k + 1))
    && (go ==> SearchFetches(pages) == SearchFetchesFrom(pages, k, search.paging.hasMore))
    && (!go ==> k == SearchFetches(pages))
    && (!empty ==> db.State() == SyncAll(setup.store0, ReceivedItems(pages, k), site))
    && (empty ==> db.State() == setup.store0 && last == LastOr(ReceivedItems(pages, k), ZeroQuestionObj))
  }

  /**
   * The state of getNewQuestions' paging loop once request k has been made
   * and synced, before the paging decision: the page counter is k + 1 and
   * the count of requests still to come depends only on the answer's has_more.
   */
  ghost predicate SearchFetched(db: Database, search: SearchAdvanced, empty: bool, pages: seq<Response>, site: string,
                                setup: SearchSetup, k: nat, last: QuestionObj)
    reads db, search, search.parameters, search.paging, search.client
  {
    && db.Valid() && search.Valid()
    && search.parameters.allowed == setup.allowed
    && search.parameters.applied == setup.settled
    && search.client.GetEndpoint("search/advanced") == setup.endpoint
    && search.client.apiHost == setup.host && search.client.apiVersion == setup.version && search.client.apiKey == setup.key
    && k <= MaxSearchPage && search.paging.page == k + 1
    && SearchFetches(pages) == (if k + 1 > MaxSearchPage || !search.paging.hasMore then k + 1
                                else SearchFetchesFrom(pages, k + 1, search.paging.hasMore))
    && (!empty ==> db.State() == SyncAll(setup.store0, ReceivedItems(pages, k + 1), site))
    && (empty ==> db.State() == setup.store0 && last == LastOr(ReceivedItems(pages, k + 1), ZeroQuestionObj))
  }

  /**
   * One iteration of getNewQuestions' paging loop after k requests: log the
   * page number (which moves the page counter from 0 to 1), issue request
   * k and sync what it delivers, then stop once the page counter passes 10
   * or the API says there is no more, else advance the page counter.
   */
  method SearchRound(db: Database, search: SearchAdvanced, empty: bool, pages: seq<Response>, site: string,
                     ghost setup: SearchSetup, k: nat, last0: QuestionObj, urls0: seq<Url>)
    returns (urls: seq<Url>, last: QuestionObj, go: bool)
    requires setup.settled == WithDefaults(setup.allowed, setup.applied)
    requires WithDefaults(setup.allowed, setup.settled) == setup.settled
    requires setup.url == Url(setup.endpoint, QueryOf(setup.settled))
    requires SearchProgress(db, search, empty, pages, site, setup, k, true, last0)
    requires |urls0| == k && forall i :: 0 <= i < k ==> urls0[i] == setup.url
    modifies db, search, search.parameters, search.paging, search.client
    ensures SearchProgress(db, search, empty, pages, site, setup, k + 1, go, last)
    ensures |urls| == k + 1 && forall i :: 0 <= i < k + 1 ==> urls[i] == setup.url
  {
    var url;
    url, last := SearchFetch(db, search, empty, pages, site, setup, k, last0);
    urls := urls0 + [url];
    go := SearchAdvance(search.paging, k);
  }

  /** The first half of an iteration of getNewQuestions' loop: log the page number, then issue request k and sync it. */
  method SearchFetch(db: Database, search: SearchAdvanced, empty: bool, pages: seq<Response>, site: string,
                     ghost setup: SearchSetup, k: nat, last0: QuestionObj)
    returns (url: Url, last: QuestionObj)
    requires setup.settled == WithDefaults(setup.allowed, setup.applied)
    requires WithDefaults(setup.allowed, setup.settled) == setup.settled
    requires setup.url == Url(setup.endpoint, QueryOf(setup.settled))
    requires SearchProgress(db, search, empty, pages, site, setup, k, true, last0)
    modifies db, search, search.parameters, search.paging, search.client
    ensures SearchFetched(db, search, empty, pages, site, setup, k, last)
    ensures url == setup.url
  {
    var pageNr := search.paging.GetCurrentPageNr();
    SearchFetchesStep(pages, k, search.paging.hasMore);
    ReceivedStep(setup.store0, pages, k, site);
    LastOrAppend(ReceivedItems(pages, k), ItemsAt(pages, k), ZeroQuestionObj);
    url, last := SearchStep(db, search, empty, last0, pages, k, site);
  }

  /** The end of one iteration of getNewQuestions' loop: stop past page 10 or when there is no more, else turn the page. */
  method SearchAdvance(paging: Paging, ghost k: nat) returns (go: bool)
    requires paging.page == k + 1
    modifies paging
    ensures go == (k + 1 <= MaxSearchPage && paging.hasMore)
    ensures paging.page == (if go then k + 2 else k + 1)
    ensures paging.hasMore == old(paging.hasMore)
  {
    var nr := paging.GetCurrentPageNr();
    if nr > MaxSearchPage {
      go := false;
    } else if paging.HasMore() {
      paging.NextPage();
      go := true;
    } else {
      go := false;
    }
  }

  /**
   * The paging loop of getNewQuestions over a prepared search: at most 11
   * requests, the page counter advanced while the API says there is more.
   * Each request carries the settled parameters; what arrives is synced,
   * or on an empty store only remembered.
   */
  method SearchLoop(db: Database, search: SearchAdvanced, empty: bool, pages: seq<Response>, site: string,
                    ghost settled: map<string, Parameter>)
    returns (fetches: nat, urls: seq<Url>, last: QuestionObj)
    requires db.Valid() && search.Valid()
    requires search.paging.page == 0 && !search.paging.hasMore
    requires settled == WithDefaults(search.parameters.allowed, search.parameters.applied)
    requires WithDefaults(search.parameters.allowed, settled) == settled
    modifies db, search, search.parameters, search.paging, search.client
    ensures db.Valid()
    ensures fetches == SearchFetches(pages)
    ensures !empty ==> db.State() == SyncAll(old(db.State()), ReceivedItems(pages, fetches), site)
    ensures empty ==> db.State() == old(db.State()) && last == LastOr(ReceivedItems(pages, fetches), ZeroQuestionObj)
    ensures |urls| == fetches
    ensures forall i :: 0 <= i < |urls| ==> urls[i] == Url(search.client.GetEndpoint("search/advanced"), QueryOf(settled))
    ensures search.client.apiHost == old(search.client.apiHost) && search.client.apiVersion == old(search.client.apiVersion)
    ensures search.client.apiKey == old(search.client.apiKey)
  {
    ghost var setup := SearchSetup(search.parameters.allowed, search.parameters.applied, settled, db.State(),
      search.client.GetEndpoint("search/advanced"), search.client.apiHost, search.client.apiVersion, search.client.apiKey,
      Url(search.client.GetEndpoint("search/advanced"), QueryOf(settled)));
    assert ReceivedItems(pages, 0) == [];
    fetches, urls, last := SearchRounds(db, search, empty, pages, site, setup);
  }

  /** The loop of getNewQuestions itself, from its first request until the ceiling or the last page. */
  method SearchRounds(db: Database, search: SearchAdvanced, empty: bool, pages: seq<Response>, site: string,
                      ghost setup: SearchSetup)
    returns (fetches: nat, urls: seq<Url>, last: QuestionObj)
    requires setup.settled == WithDefaults(setup.allowed, setup.applied)
    requires WithDefaults(setup.allowed, setup.settled) == setup.settled
    requires setup.url == Url(setup.endpoint, QueryOf(setup.settled))
    requires SearchProgress(db, search, empty, pages, site, setup, 0, true, ZeroQuestionObj)
    modifies db, search, search.parameters, search.paging, search.client
    ensures SearchProgress(db, search, empty, pages, site, setup, fetches, false, last)
    ensures |urls| == fetches && forall i :: 0 <= i < fetches ==> urls[i] == setup.url
  {
    var fetchQuestions := true;
    last := ZeroQuestionObj;
    fetches, urls := 0, [];
    while fetchQuestions
      invariant SearchProgress(db, search, empty, pages, site, setup, fetches, fetchQuestions, last)
      invariant |urls| == fetches && forall i :: 0 <= i < fetches ==> urls[i] == setup.url
      decreases MaxSearchPage + 1 - fetches
    {
      urls, last, fetchQuestions := SearchRound(db, search, empty, pages, site, setup, fetches, last, urls);
      fetches := fetches + 1;
    }
  }

  /**
   * getNewQuestions: searches from one past the watermark, pages through
   * the results (at most 11 requests) and syncs what arrives.
   * Returns the number of requests and the URL of each.
   */
  method GetNewQuestions(db: Database, client: Client, cfg: Config, now: int, pages: seq<Response>)
    returns (fetches: nat, urls: seq<Url>)
    requires db.Valid()
    modifies db, client
    ensures db.Valid()
    ensures fetches == SearchFetches(pages) && fetches <= MaxSearchPage + 1
    ensures db.State() == NewPass(old(db.State()), cfg.site, pages)
    ensures |urls| == fetches
    ensures forall i :: 0 <= i < |urls| ==> urls[i] == Url(client.GetEndpoint("search/advanced"), SearchQuery(cfg, client.apiKey,
      Watermark(LatestIn(old(db.questions)).qid, LatestIn(old(db.questions)).creationDate, now)))
    ensures client.apiHost == old(client.apiHost) && client.apiVersion == old(client.apiVersion) && client.apiKey == old(client.apiKey)
  {
    var empty, watermark := ComputeWatermark(db, now);
    var search := NewSearch(client, cfg, watermark);
    ghost var settled := WithDefaults(search.parameters.allowed, search.parameters.applied);
    WithDefaultsIdempotent(search.parameters.allowed, search.parameters.applied);
    var last;
    fetches, urls, last := SearchLoop(db, search, empty, pages, cfg.site, settled);
    if empty && last.qid > 0 {
      SyncQuestion(db, last, cfg.site);
    }
  }

  /** The parameters the update pass applies: site, then its configuration map. */
  function QuestionsApplied(cfg: Config, apiKey: string): map<string, Parameter> {
    var allowed := Registry(QuestionsDefaults(apiKey));
    SetEach(SiteApplied(allowed, cfg.site), allowed, cfg.questions)
  }

  /** The query every request of the update pass carries. */
  function QuestionsQuery(cfg: Config, apiKey: string): map<string, string> {
    QueryOf(WithDefaults(Registry(QuestionsDefaults(apiKey)), QuestionsApplied(cfg, apiKey)))
  }

  lemma RemoveAbsent(m: map<string, Parameter>, name: string)
    requires name !in m
    ensures m - {name} == m
  {
  }

  /** A fresh questions-by-ids request with the pass's site and configuration map set. */
  method NewQuestionsRequest(client: Client, cfg: Config) returns (update: Questions)
    ensures fresh(update) && fresh(update.parameters) && fresh(update.paging)
    ensures update.Valid() && update.client == client
    ensures update.parameters.allowed == Registry(QuestionsDefaults(client.apiKey))
    ensures update.parameters.applied == QuestionsApplied(cfg, client.apiKey)
    ensures "ids" !in update.parameters.allowed
    ensures update.paging.page == 0 && !update.paging.hasMore
  {
    update := new Questions(client);
    assert QuestionsDefaults(client.apiKey)[0].name == "site";
    update.parameters.Set("site", StrVal(cfg.site));
    ApplyConfig(update.parameters, cfg.questions);
    RegistryOnly(QuestionsDefaults(client.apiKey), "ids");
  }

  /** One request of updateQuestions: issue it and sync every question it delivers. */
  method UpdateStep(db: Database, update: Questions, ids: string, pages: seq<Response>, k: nat, site: string)
    returns (url: Url)
    requires db.Valid() && update.Valid()
    modifies db, update, update.parameters, update.paging, update.client
    ensures db.Valid() && update.Valid()
    ensures db.State() == SyncAll(old(db.State()), ItemsAt(pages, k), site)
    ensures update.parameters.allowed == old(update.parameters.allowed)
    ensures update.parameters.applied == WithDefaults(old(update.parameters.allowed), old(update.parameters.applied)) - {"ids"}
    ensures url == Url(update.client.GetEndpoint("questions/" + Questions.IdsSegment(ids)), QueryOf(update.parameters.applied))
    ensures update.paging.page == old(update.paging.page)
    ensures update.paging.hasMore == HasMoreAfter(pages, k, old(update.paging.hasMore))
    ensures update.client.apiHost == old(update.client.apiHost) && update.client.apiVersion == old(update.client.apiVersion)
    ensures update.client.apiKey == old(update.client.apiKey)
  {
    var ok;
    ok, url := update.Get(ids, ResponseAt(pages, k));
    if ok {
      var unused := SyncPage(db, update.result.value.items, false, ZeroQuestionObj, site);
    }
  }

  /** The values updateQuestions' paging loop keeps fixed. */
  datatype UpdateSetup = UpdateSetup(
    allowed: map<string, Parameter>, settled: map<string, Parameter>, store0: Store,
    endpoint: string, host: string, version: string, key: string, url: Url)

  /**
   * What holds in updateQuestions' paging loop after k requests, go telling
   * whether it goes on: the request keeps its settled parameters and its
   * client, the request count agrees with UpdateFetches, every request went
   * to the same URL, and the store reflects what k requests delivered.
   */
  ghost predicate UpdateProgress(db: Database, update: Questions, ids: string, pages: seq<Response>, fuel: nat, site: string,
                                 setup: UpdateSetup, k: nat, go: bool, urls: seq<Url>)
    reads db, update, update.parameters, update.paging, update.client
  {
    && db.Valid() && update.Valid()
    && update.parameters.allowed == setup.allowed
    && WithDefaults(setup.allowed, update.parameters.applied) - {"ids"} == setup.settled
    && update.client.GetEndpoint("questions/" + Questions.IdsSegment(ids)) == setup.endpoint
    && update.client.apiHost == setup.host && update.client.apiVersion == setup.version && update.client.apiKey == setup.key
    && 1 <= fuel && k <= fuel
    && (go ==> k < fuel && UpdateFetches(pages, fuel) == UpdateFetchesFrom(pages, k, update.paging.hasMore, fuel))
    && (!go ==> k == UpdateFetches(pages, fuel))
    && |urls| == k && (forall i :: 0 <= i < k ==> urls[i] == setup.url)
    && db.State() == SyncAll(setup.store0, ReceivedItems(pages, k), site)
  }

  /**
   * One iteration of updateQuestions' paging loop after k requests: log the
   * page number, issue request k and sync what it delivers, then go on
   * while the API says there is more (and fuel is left).
   */
  method UpdateRound(db: Database, update: Questions, ids: string, pages: seq<Response>, fuel: nat, site: string,
                     ghost setup: UpdateSetup, k: nat, urls0: seq<Url>)
    returns (urls: seq<Url>, go: bool)
    requires WithDefaults(setup.allowed, setup.settled) - {"ids"} == setup.settled
    requires setup.url == Url(setup.endpoint, QueryOf(setup.settled))
    requires UpdateProgress(db, update, ids, pages, fuel, site, setup, k, true, urls0)
    modifies db, update, update.parameters, update.paging, update.client
    ensures UpdateProgress(db, update, ids, pages, fuel, site, setup, k + 1, go, urls)
  {
    var url := UpdateFetch(db, update, ids, pages, fuel, site, setup, k);
    urls := urls0 + [url];
    go := UpdateAdvance(update.paging, k, fuel);
  }

  /** The second half of an iteration of updateQuestions' loop: go on to the next page while there is more (and fuel is left). */
  method UpdateAdvance(paging: Paging, k: nat, fuel: nat) returns (go: bool)
    modifies paging
    ensures go == (paging.hasMore && k + 1 < fuel)
    ensures paging.hasMore == old(paging.hasMore)
    ensures paging.page == (if go then old(paging.page) + 1 else old(paging.page))
  {
    if paging.HasMore() && k + 1 < fuel {
      paging.NextPage();
      go := true;
    } else {
      go := false;
    }
  }

  /** The first half of an iteration of updateQuestions' loop: log the page number, then issue request k and sync it. */
  method UpdateFetch(db: Database, update: Questions, ids: string, pages: seq<Response>, fuel: nat, site: string,
                     ghost setup: UpdateSetup, k: nat)
    returns (url: Url)
    requires WithDefaults(setup.allowed, setup.settled) - {"ids"} == setup.settled
    requires setup.url == Url(setup.endpoint, QueryOf(setup.settled))
    requires db.Valid() && update.Valid() && k < fuel
    requires update.parameters.allowed == setup.allowed
    requires WithDefaults(setup.allowed, update.parameters.applied) - {"ids"} == setup.settled
    requires update.client.GetEndpoint("questions/" + Questions.IdsSegment(ids)) == setup.endpoint
    requires update.client.apiHost == setup.host && update.client.apiVersion == setup.version && update.client.apiKey == setup.key
    requires UpdateFetches(pages, fuel) == UpdateFetchesFrom(pages, k, update.paging.hasMore, fuel)
    requires db.State() == SyncAll(setup.store0, ReceivedItems(pages, k), site)
    modifies db, update, update.parameters, update.paging, update.client
    ensures db.Valid() && update.Valid()
    ensures update.parameters.allowed == setup.allowed
    ensures WithDefaults(setup.allowed, update.parameters.applied) - {"ids"} == setup.settled
    ensures update.client.GetEndpoint("questions/" + Questions.IdsSegment(ids)) == setup.endpoint
    ensures update.client.apiHost == setup.host && update.client.apiVersion == setup.version && update.client.apiKey == setup.key
    ensures url == setup.url
    ensures var more := update.paging.hasMore;
      if more && k + 1 < fuel then UpdateFetches(pages, fuel) == UpdateFetchesFrom(pages, k + 1, more, fuel)
      else UpdateFetches(pages, fuel) == k + 1
    ensures db.State() == SyncAll(setup.store0, ReceivedItems(pages, k + 1), site)
  {
    var pageNr := update.paging.GetCurrentPageNr();
    UpdateFetchesStep(pages, k, update.paging.hasMore, fuel);
    ReceivedStep(setup.store0, pages, k, site);
    url := UpdateStep(db, update, ids, pages, k, site);
  }

  /**
   * The paging loop of updateQuestions over a prepared request: it goes on
   * while the API says there is more, fuel requests at the most. Each
   * request carries the settled parameters; everything received is synced.
   */
  method UpdateLoop(db: Database, update: Questions, ids: string, pages: seq<Response>, fuel: nat, site: string,
                    ghost settled: map<string, Parameter>)
    returns (fetches: nat, urls: seq<Url>)
    requires db.Valid() && update.Valid()
    requires fuel >= 1
    requires !update.paging.hasMore
    requires settled == WithDefaults(update.parameters.allowed, update.parameters.applied) - {"ids"}
    requires WithDefaults(update.parameters.allowed, settled) - {"ids"} == settled
    modifies db, update, update.parameters, update.paging, update.client
    ensures db.Valid()
    ensures fetches == UpdateFetches(pages, fuel)
    ensures db.State() == SyncAll(old(db.State()), ReceivedItems(pages, fetches), site)
    ensures |urls| == fetches
    ensures forall i :: 0 <= i < |urls| ==>
      urls[i] == Url(update.client.GetEndpoint("questions/" + Questions.IdsSegment(ids)), QueryOf(settled))
    ensures update.client.apiHost == old(update.client.apiHost) && update.client.apiVersion == old(update.client.apiVersion)
    ensures update.client.apiKey == old(update.client.apiKey)
  {
    ghost var setup := UpdateSetup(update.parameters.allowed, settled, db.State(),
      update.client.GetEndpoint("questions/" + Questions.IdsSegment(ids)),
      update.client.apiHost, update.client.apiVersion, update.client.apiKey,
      Url(update.client.GetEndpoint("questions/" + Questions.IdsSegment(ids)), QueryOf(settled)));
    assert ReceivedItems(pages, 0) == [];
    fetches, urls := UpdateRounds(db, update, ids, pages, fuel, site, setup);
  }

  /** The loop of updateQuestions itself, from its first request until the API says there is no more. */
  method UpdateRounds(db: Database, update: Questions, ids: string, pages: seq<Response>, fuel: nat, site: string,
                      ghost setup: UpdateSetup)
    returns (fetches: nat, urls: seq<Url>)
    requires WithDefaults(setup.allowed, setup.settled) - {"ids"} == setup.settled
    requires setup.url == Url(setup.endpoint, QueryOf(setup.settled))
    requires UpdateProgress(db, update, ids, pages, fuel, site, setup, 0, true, [])
    modifies db, update, update.parameters, update.paging, update.client
    ensures UpdateProgress(db, update, ids, pages, fuel, site, setup, fetches, false, urls)
  {
    var fetchQuestions := true;
    fetches, urls := 0, [];
    while fetchQuestions
      invariant UpdateProgress(db, update, ids, pages, fuel, site, setup, fetches, fetchQuestions, urls)
      decreases fuel - fetches
    {
      urls, fetchQuestions := UpdateRound(db, update, ids, pages, fuel, site, setup, fetches, urls);
      fetches := fetches + 1;
    }
  }

  /**
   * updateQuestions: asks for the tracked ids page by page while the API
   * says there is more (the source has no other bound; fuel caps the
   * number of requests here) and syncs every question received.
   * Returns the id list, the number of requests and the URL of each.
   */
  method UpdateQuestions(db: Database, client: Client, cfg: Config, pages: seq<Response>, fuel: nat)
    returns (ids: string, fetches: nat, urls: seq<Url>)
    requires db.Valid()
    requires fuel >= 1
    modifies db, client
    ensures db.Valid()
    ensures exists rows :: NewestByCreation(old(db.questions), cfg.questionsToWatch, rows) && ids == Join(IdTexts(rows), ";")
    ensures fetches == UpdateFetches(pages, fuel)
    ensures db.State() == SyncAll(old(db.State()), ReceivedItems(pages, fetches), cfg.site)
    ensures |urls| == fetches
    ensures forall i :: 0 <= i < |urls| ==>
      urls[i] == Url(client.GetEndpoint("questions/" + Questions.IdsSegment(ids)), QuestionsQuery(cfg, client.apiKey))
    ensures client.apiHost == old(client.apiHost) && client.apiVersion == old(client.apiVersion) && client.apiKey == old(client.apiKey)
  {
    var count: int;
    ids, count := db.TrackedIds(cfg.questionsToWatch);
    var update := NewQuestionsRequest(client, cfg);
    ghost var allowed := update.parameters.allowed;
    ghost var applied := update.parameters.applied;
    ghost var settled := WithDefaults(allowed, applied);
    assert "ids" !in applied;
    RemoveAbsent(settled, "ids");
    WithDefaultsIdempotent(allowed, applied);
    fetches, urls := UpdateLoop(db, update, ids, pages, fuel, cfg.site, settled);
  }
}
