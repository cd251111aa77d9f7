/**
 * The Stack Exchange API client: the parameter set an endpoint accepts, the
 * paging cursor, the client's remembered quota, the wire envelope, and the
 * two endpoints the program uses (advanced search and questions by ids).
 * The HTTP transport and JSON decoding are replaced by a Response value the
 * caller supplies; a URL is its path plus its query as a name -> value map.
 */
module StackExchange {
  import opened Text

  /** A dynamically typed value (Go interface{}); the program passes strings and ints. */
  datatype Value = StrVal(s: string) | IntVal(i: int)

  /** fmt's %v of a value; only the empty string renders as "". */
  function ValueString(v: Value): (r: string)
    ensures r == "" <==> v == StrVal("")
    ensures v.StrVal? ==> r == v.s
    ensures v.IntVal? ==> r == IntToString(v.i)
  {
    match v
    case StrVal(s) => s
    case IntVal(i) => IntToString(i)
  }

  datatype Parameter = Parameter(name: string, value: Value, description: string)
  {
    function String(): string {
      ValueString(value)
    }
  }

  /** The entries ApplyDefaults adds: every allowed, unapplied name whose default renders non-empty. */
  function WithDefaults(allowed: map<string, Parameter>, applied: map<string, Parameter>): (r: map<string, Parameter>)
    ensures forall name :: name in applied ==> name in r && r[name] == applied[name]
    ensures forall name :: name in allowed && name !in applied && allowed[name].String() != "" ==>
      name in r && r[name] == Parameter(name, StrVal(allowed[name].String()), "")
    ensures forall name :: name in r ==> name in applied || (name in allowed && allowed[name].String() != "")
  {
    applied + map name | name in allowed && name !in applied && allowed[name].String() != "" ::
      Parameter(name, StrVal(allowed[name].String()), "")
  }

  /** Applying the defaults a second time changes nothing. */
  lemma WithDefaultsIdempotent(allowed: map<string, Parameter>, applied: map<string, Parameter>)
    ensures WithDefaults(allowed, WithDefaults(allowed, applied)) == WithDefaults(allowed, applied)
  {
    var once := WithDefaults(allowed, applied);
    var twice := WithDefaults(allowed, once);
    assert twice.Keys == once.Keys;
    forall name | name in twice ensures twice[name] == once[name] {
    }
  }

  /** The query an endpoint sends: every applied name with the text of its value. */
  function QueryOf(applied: map<string, Parameter>): (q: map<string, string>)
    ensures q.Keys == applied.Keys
    ensures forall name :: name in applied ==> q[name] == applied[name].String()
  {
    map name | name in applied :: applied[name].String()
  }

  /** Parameters: the names an endpoint accepts (with defaults) and the values applied so far. */
  class Parameters {
    var allowed: map<string, Parameter>
    var applied: map<string, Parameter>

    ghost predicate Valid()
      reads this
    {
      && applied.Keys <= allowed.Keys
      && (forall name :: name in allowed ==> allowed[name].name == name)
      && (forall name :: name in applied ==>
            applied[name].name == name && applied[name].description == "" && applied[name].value != StrVal(""))
    }

    constructor ()
      ensures Valid() && allowed == map[] && applied == map[]
    {
      allowed := map[];
      applied := map[];
    }

    /** Registers name with its default, replacing an earlier registration. */
    method Allow(name: string, value: Value, description: string)
      requires Valid()
      modifies this
      ensures Valid()
      ensures allowed == old(allowed)[name := Parameter(name, value, description)]
      ensures applied == old(applied)
    {
      allowed := allowed[name := Parameter(name, value, description)];
    }

    predicate IsSet(name: string)
      reads this
    {
      name in applied
    }

    predicate IsAllowed(name: string)
      reads this
    {
      name in allowed
    }

    /** Overrides name with value, unless name is not allowed or value is the empty string. */
    method Set(name: string, value: Value)
      requires Valid()
      modifies this
      ensures Valid()
      ensures allowed == old(allowed)
      ensures applied == if !old(IsAllowed(name)) || value == StrVal("") then old(applied)
                         else old(applied)[name := Parameter(name, value, "")]
    {
      if !IsAllowed(name) || value == StrVal("") {
        return;
      }
      applied := applied[name := Parameter(name, value, "")];
    }

    /** The text of the applied value; "" exactly when nothing is applied to name. */
    function ValueOf(name: string): (r: string)
      requires Valid()
      reads this
      ensures r != "" <==> IsSet(name)
      ensures IsSet(name) ==> r == applied[name].String()
      ensures !IsAllowed(name) ==> r == ""
    {
      if name in applied then applied[name].String() else ""
    }

    method Delete(name: string)
      requires Valid()
      modifies this
      ensures Valid()
      ensures allowed == old(allowed)
      ensures applied == old(applied) - {name}
    {
      applied := applied - {name};
    }

    /** Sets every allowed name that is not set yet to the text of its default. */
    method ApplyDefaults()
      requires Valid()
      modifies this
      ensures Valid()
      ensures allowed == old(allowed)
      ensures applied == WithDefaults(old(allowed), old(applied))
    {
      var todo := allowed.Keys;
      ghost var done: set<string> := {};
      while todo != {}
        invariant todo + done == old(allowed).Keys && todo !! done
        invariant Valid()
        invariant allowed == old(allowed)
        invariant applied == DefaultsOn(old(allowed), old(applied), done)
        decreases todo
      {
        var name :| name in todo;
        DefaultsOnStep(old(allowed), old(applied), done, name);
        if !IsSet(name) {
          Set(name, StrVal(allowed[name].String()));
        }
        done := done + {name};
        todo := todo - {name};
      }
      DefaultsOnAll(old(allowed), old(applied), done);
    }

    /** Registers every parameter of defs in order, as an endpoint's Init does. */
    method AllowAll(defs: seq<Parameter>)
      requires Valid()
      modifies this
      ensures Valid()
      ensures allowed == old(allowed) + Registry(defs)
      ensures applied == old(applied)
    {
      var i := 0;
      while i < |defs|
        invariant 0 <= i <= |defs|
        invariant Valid()
        invariant allowed == old(allowed) + Registry(defs[..i])
        invariant applied == old(applied)
      {
        RegistryStep(old(allowed), defs, i);
        Allow(defs[i].name, defs[i].value, defs[i].description);
        i := i + 1;
      }
      assert defs[..|defs|] == defs;
    }
  }

  /** Registering one more definition on top of base updates that definition's name. */
  lemma RegistryStep(base: map<string, Parameter>, defs: seq<Parameter>, i: nat)
    requires i < |defs|
    ensures base + Registry(defs[..i + 1])
         == (base + Registry(defs[..i]))[defs[i].name := Parameter(defs[i].name, defs[i].value, defs[i].description)]
  {
    assert defs[..i + 1][..i] == defs[..i];
  }

  /** The allowed map a sequence of registrations builds: a later registration of a name replaces an earlier one. */
  function Registry(defs: seq<Parameter>): (m: map<string, Parameter>)
    ensures forall name :: name in m ==> m[name].name == name
    ensures forall i :: 0 <= i < |defs| ==> defs[i].name in m
  {
    if defs == [] then map[]
    else
      var last := defs[|defs| - 1];
      Registry(defs[..|defs| - 1])[last.name := Parameter(last.name, last.value, last.description)]
  }

  /** WithDefaults restricted to the names in done: the state after ApplyDefaults has visited done. */
  ghost function DefaultsOn(allowed: map<string, Parameter>, applied: map<string, Parameter>, done: set<string>): map<string, Parameter> {
    applied + map name | name in done && name in allowed && name !in applied && allowed[name].String() != "" ::
      Parameter(name, StrVal(allowed[name].String()), "")
  }

  lemma DefaultsOnAll(allowed: map<string, Parameter>, applied: map<string, Parameter>, done: set<string>)
    requires done == allowed.Keys
    ensures DefaultsOn(allowed, applied, done) == WithDefaults(allowed, applied)
  {
  }

  /** One visited name either adds its default or leaves the map as it was. */
  lemma DefaultsOnStep(allowed: map<string, Parameter>, applied: map<string, Parameter>, done: set<string>, name: string)
    requires name in allowed && name !in done
    ensures name in DefaultsOn(allowed, applied, done) <==> name in applied
    ensures name !in applied && allowed[name].String() != "" ==>
      DefaultsOn(allowed, applied, done + {name}) ==
      DefaultsOn(allowed, applied, done)[name := Parameter(name, StrVal(allowed[name].String()), "")]
    ensures name in applied || allowed[name].String() == "" ==>
      DefaultsOn(allowed, applied, done + {name}) == DefaultsOn(allowed, applied, done)
  {
    var before := DefaultsOn(allowed, applied, done);
    var after := DefaultsOn(allowed, applied, done + {name});
    if name !in applied && allowed[name].String() != "" {
      var expected := before[name := Parameter(name, StrVal(allowed[name].String()), "")];
      assert after.Keys == expected.Keys;
      forall k | k in after ensures after[k] == expected[k] {
      }
    } else {
      assert after.Keys == before.Keys;
      forall k | k in after ensures after[k] == before[k] {
      }
    }
  }

  /** Paging cursor: page is the counter the caller advances; currentPage and hasMore come from the last response. */
  class Paging {
    var page: int
    var pageSize: int
    var hasMore: bool
    var currentPage: int

    constructor ()
      ensures page == 0 && pageSize == 0 && !hasMore && currentPage == 0
    {
      page, pageSize, hasMore, currentPage := 0, 0, false, 0;
    }

    method SetPage(p: int)
      modifies this
      ensures page == p
      ensures pageSize == old(pageSize) && hasMore == old(hasMore) && currentPage == old(currentPage)
    {
      page := p;
    }

    /** The page counter, first turning an unset (zero) counter into 1. */
    method GetCurrentPageNr() returns (nr: int)
      modifies this
      ensures page == (if old(page) == 0 then 1 else old(page))
      ensures nr == page
      ensures pageSize == old(pageSize) && hasMore == old(hasMore) && currentPage == old(currentPage)
    {
      if page == 0 {
        page := 1;
      }
      nr := page;
    }

    method SetPageSize(size: int)
      modifies this
      ensures pageSize == size
      ensures page == old(page) && hasMore == old(hasMore) && currentPage == old(currentPage)
    {
      pageSize := size;
    }

    method NextPage()
      modifies this
      ensures page == old(page) + 1
      ensures pageSize == old(pageSize) && hasMore == old(hasMore) && currentPage == old(currentPage)
    {
      page := page + 1;
    }

    /** Steps the counter back, but never from 0 or below. */
    method PreviousPage()
      modifies this
      ensures page == if old(page) > 0 then old(page) - 1 else old(page)
      ensures old(page) >= 0 ==> page >= 0
      ensures pageSize == old(pageSize) && hasMore == old(hasMore) && currentPage == old(currentPage)
    {
      if page > 0 {
        page := page - 1;
      }
    }

    method FirstPage()
      modifies this
      ensures page == 1
      ensures pageSize == old(pageSize) && hasMore == old(hasMore) && currentPage == old(currentPage)
    {
      page := 1;
    }

    predicate HasMore()
      reads this
    {
      hasMore
    }
  }

  /** The client: where the API lives, the key, and the quota the last response reported. */
  class Client {
    var quotaMax: int
    var quotaRemaining: int
    var apiHost: string
    var apiVersion: string
    var apiKey: string

    constructor (host: string, version: string, key: string)
      ensures apiHost == host && apiVersion == version && apiKey == key
      ensures quotaMax == 0 && quotaRemaining == 0
    {
      quotaMax, quotaRemaining := 0, 0;
      apiHost, apiVersion, apiKey := host, version, key;
    }

    function GetQuotaRemaining(): int
      reads this
    {
      quotaRemaining
    }

    function GetQuotaMax(): int
      reads this
    {
      quotaMax
    }

    method SetQuotaRemaining(remaining: int)
      modifies this
      ensures quotaRemaining == remaining
      ensures quotaMax == old(quotaMax) && apiHost == old(apiHost) && apiVersion == old(apiVersion) && apiKey == old(apiKey)
    {
      quotaRemaining := remaining;
    }

    method SetQuotaMax(max: int)
      modifies this
      ensures quotaMax == max
      ensures quotaRemaining == old(quotaRemaining) && apiHost == old(apiHost) && apiVersion == old(apiVersion) && apiKey == old(apiKey)
    {
      quotaMax := max;
    }

    method SetHost(host: string)
      modifies this
      ensures apiHost == host
      ensures quotaMax == old(quotaMax) && quotaRemaining == old(quotaRemaining)
      ensures apiVersion == old(apiVersion) && apiKey == old(apiKey)
    {
      apiHost := host;
    }

    method SetAPIVersion(version: string)
      modifies this
      ensures apiVersion == version
      ensures quotaMax == old(quotaMax) && quotaRemaining == old(quotaRemaining)
      ensures apiHost == old(apiHost) && apiKey == old(apiKey)
    {
      apiVersion := version;
    }

    method SetKey(key: string)
      modifies this
      ensures apiKey == key
      ensures quotaMax == old(quotaMax) && quotaRemaining == old(quotaRemaining)
      ensures apiHost == old(apiHost) && apiVersion == old(apiVersion)
    {
      apiKey := key;
    }

    /** The endpoint URL for path: host, version and path joined by "/". */
    function GetEndpoint(path: string): (url: string)
      reads this
      ensures |url| == |apiHost| + |apiVersion| + |path| + 2
      ensures url[..|apiHost|] == apiHost && url[|url| - |path|..] == path
    {
      apiHost + "/" + apiVersion + "/" + path
    }

    /** The endpoint reads, in order: the host, "/", the API version, "/" and the path. */
    lemma EndpointShape(path: string)
      ensures var url := GetEndpoint(path);
        && url[..|apiHost|] == apiHost && url[|apiHost|] == '/'
        && url[|apiHost| + 1..|apiHost| + 1 + |apiVersion|] == apiVersion
        && url[|apiHost| + 1 + |apiVersion|] == '/'
        && url[|apiHost| + 2 + |apiVersion|..] == path
    {
    }
  }

  datatype BadgeCounts = BadgeCounts(bronze: int, silver: int, gold: int)

  datatype ShallowUserObj = ShallowUserObj(
    uid: int,
    reputation: int,
    profileImage: string,
    displayName: string,
    link: string,
    acceptRate: int,
    badgeCounts: BadgeCounts)

  datatype QuestionObj = QuestionObj(
    qid: int,
    title: string,
    creationDate: int,
    lastActivityDate: int,
    owner: ShallowUserObj,
    isAnswered: bool,
    shareLink: string,
    closedReason: string,
    tags: seq<string>,
    score: int,
    viewCount: int,
    answerCount: int,
    commentCount: int,
    upVoteCount: int,
    downVoteCount: int,
    deleteVoteCount: int,
    favoriteCount: int,
    reOpenVoteCount: int)

  /** Go's zero QuestionObj: every field zero, empty or false. */
  const ZeroQuestionObj := QuestionObj(0, "", 0, 0, ShallowUserObj(0, 0, "", "", "", 0, BadgeCounts(0, 0, 0)),
                                       false, "", "", [], 0, 0, 0, 0, 0, 0, 0, 0, 0)

  /** The response envelope (QuestionsWrapperObj). */
  datatype Envelope = Envelope(
    backoff: int,
    errorId: int,
    errorName: string,
    errorMessage: string,
    hasMore: bool,
    page: int,
    quotaMax: int,
    quotaRemaining: int,
    items: seq<QuestionObj>)

  /** What one HTTP request yields: a transport or decode failure, or a decoded envelope. */
  datatype Response = Failed | Received(envelope: Envelope)

  datatype Url = Url(path: string, query: map<string, string>)

  const QuestionFilter := "!6hYwbNNZ(*eH3a3)XT0aZCOGTo-kwAtAoVF5vC378NPI6Y"

  /** The names advanced search accepts and their defaults, in the order SearchAdvanced.Init registers them. */
  function SearchAdvancedDefaults(apiKey: string): seq<Parameter> {
    [
      Parameter("site", StrVal("stackoverflow"), ""),
      Parameter("q", StrVal(""), ""),
      Parameter("accepted", StrVal(""), ""),
      Parameter("answers", StrVal(""), ""),
      Parameter("body", StrVal(""), ""),
      Parameter("closed", StrVal(""), ""),
      Parameter("migrated", StrVal(""), ""),
      Parameter("notice", StrVal(""), ""),
      Parameter("nottagged", StrVal(""), ""),
      Parameter("tagged", StrVal(""), ""),
      Parameter("title", StrVal(""), ""),
      Parameter("user", StrVal(""), ""),
      Parameter("url", StrVal(""), ""),
      Parameter("views", StrVal(""), ""),
      Parameter("wiki", StrVal(""), ""),
      Parameter("sort", StrVal("creation"), ""),
      Parameter("order", StrVal("asc"), ""),
      Parameter("fromdate", StrVal(""), ""),
      Parameter("todate", StrVal(""), ""),
      Parameter("filter", StrVal(QuestionFilter), ""),
      Parameter("pagesize", IntVal(100), ""),
      Parameter("page", IntVal(1), ""),
      Parameter("key", StrVal(apiKey), "")
    ]
  }

  /** The names questions-by-ids accepts and their defaults, in the order Questions.Init registers them. */
  function QuestionsDefaults(apiKey: string): seq<Parameter> {
    [
      Parameter("site", StrVal("stackoverflow"), ""),
      Parameter("sort", StrVal("activity"), ""),
      Parameter("order", StrVal("asc"), ""),
      Parameter("fromdate", StrVal(""), ""),
      Parameter("todate", StrVal(""), ""),
      Parameter("filter", StrVal(QuestionFilter), ""),
      Parameter("pagesize", IntVal(100), ""),
      Parameter("page", IntVal(1), ""),
      Parameter("min", StrVal(""), ""),
      Parameter("max", StrVal(""), ""),
      Parameter("key", StrVal(apiKey), "")
    ]
  }

  /** The advanced-search endpoint with its own parameter set and paging cursor. */
  class SearchAdvanced {
    const client: Client
    const parameters: Parameters
    const paging: Paging
    var result: Option<Envelope>

    ghost predicate Valid()
      reads this, parameters
    {
      parameters.Valid()
    }

    /** Client.SearchAdvanced followed by Init. */
    constructor (client: Client)
      ensures Valid() && this.client == client && fresh(parameters) && fresh(paging)
      ensures parameters.allowed == Registry(SearchAdvancedDefaults(client.apiKey)) && parameters.applied == map[]
      ensures paging.page == 0 && !paging.hasMore
      ensures result == None
    {
      this.client := client;
      parameters := new Parameters();
      paging := new Paging();
      result := None;
      new;
      parameters.AllowAll(SearchAdvancedDefaults(client.apiKey));
    }

    /** Applies the defaults and renders the request: the search/advanced endpoint with every applied parameter. */
    method GetURL() returns (url: Url)
      requires Valid()
      modifies parameters
      ensures Valid()
      ensures parameters.allowed == old(parameters.allowed)
      ensures parameters.applied == WithDefaults(old(parameters.allowed), old(parameters.applied))
      ensures url == Url(client.GetEndpoint("search/advanced"), QueryOf(parameters.applied))
    {
      var endpoint := client.GetEndpoint("search/advanced");
      parameters.ApplyDefaults();
      url := Url(endpoint, QueryOf(parameters.applied));
    }

    /**
     * Issues the request; response is what the transport returned for it.
     * On success the envelope, the paging state and the client's quota are
     * taken from it; on failure none of them change.
     */
    method Get(response: Response) returns (ok: bool, url: Url)
      requires Valid()
      modifies this, parameters, paging, client
      ensures Valid()
      ensures parameters.allowed == old(parameters.allowed)
      ensures parameters.applied == WithDefaults(old(parameters.allowed), old(parameters.applied))
      ensures url == Url(client.GetEndpoint("search/advanced"), QueryOf(parameters.applied))
      ensures ok == response.Received?
      ensures paging.page == old(paging.page) && paging.pageSize == old(paging.pageSize)
      ensures client.apiHost == old(client.apiHost) && client.apiVersion == old(client.apiVersion)
      ensures client.apiKey == old(client.apiKey)
      ensures !ok ==> result == old(result) && paging.hasMore == old(paging.hasMore)
      ensures !ok ==> paging.currentPage == old(paging.currentPage)
      ensures !ok ==> client.quotaMax == old(client.quotaMax) && client.quotaRemaining == old(client.quotaRemaining)
      ensures ok ==> result == Some(response.envelope)
      ensures ok ==> paging.currentPage == response.envelope.page && paging.hasMore == response.envelope.hasMore
      ensures ok ==> client.quotaMax == response.envelope.quotaMax
      ensures ok ==> client.quotaRemaining == response.envelope.quotaRemaining
    {
      url := GetURL();
      match response
      case Failed =>
        ok := false;
      case Received(envelope) =>
        result := Some(envelope);
        paging.currentPage := envelope.page;
        paging.hasMore := envelope.hasMore;
        client.SetQuotaMax(envelope.quotaMax);
        client.SetQuotaRemaining(envelope.quotaRemaining);
        ok := true;
    }
  }

  /** The questions-by-ids endpoint with its own parameter set and paging cursor. */
  class Questions {
    const client: Client
    const parameters: Parameters
    const paging: Paging
    var result: Option<Envelope>

    ghost predicate Valid()
      reads this, parameters
    {
      parameters.Valid()
    }

    /** Client.Questions followed by Init. */
    constructor (client: Client)
      ensures Valid() && this.client == client && fresh(parameters) && fresh(paging)
      ensures parameters.allowed == Registry(QuestionsDefaults(client.apiKey)) && parameters.applied == map[]
      ensures paging.page == 0 && !paging.hasMore
      ensures result == None
    {
      this.client := client;
      parameters := new Parameters();
      paging := new Paging();
      result := None;
      new;
      parameters.AllowAll(QuestionsDefaults(client.apiKey));
    }

    /** The path segment for ids: the placeholder "100" stands in for an empty id list. */
    static function IdsSegment(ids: string): (segment: string)
      ensures ids == "" ==> segment == "100"
      ensures ids != "" ==> segment == ids
    {
      if |ids| == 0 then "100" else ids
    }

    /**
     * Applies the defaults, substitutes the placeholder id for an empty list,
     * drops an applied "ids" parameter (ids travel in the path) and renders the request.
     */
    method GetURL(ids: string) returns (url: Url)
      requires Valid()
      modifies parameters
      ensures Valid()
      ensures parameters.allowed == old(parameters.allowed)
      ensures parameters.applied == WithDefaults(old(parameters.allowed), old(parameters.applied)) - {"ids"}
      ensures url == Url(client.GetEndpoint("questions/" + IdsSegment(ids)), QueryOf(parameters.applied))
    {
      parameters.ApplyDefaults();
      var segment := ids;
      if |segment| == 0 {
        segment := "100";
      }
      var endpoint := client.GetEndpoint("questions/" + segment);
      parameters.Delete("ids");
      url := Url(endpoint, QueryOf(parameters.applied));
    }

    /** Issues the request for ids; the same success and failure rules as SearchAdvanced.Get. */
    method Get(ids: string, response: Response) returns (ok: bool, url: Url)
      requires Valid()
      modifies this, parameters, paging, client
      ensures Valid()
      ensures parameters.allowed == old(parameters.allowed)
      ensures parameters.applied == WithDefaults(old(parameters.allowed), old(parameters.applied)) - {"ids"}
      ensures url == Url(client.GetEndpoint("questions/" + IdsSegment(ids)), QueryOf(parameters.applied))
      ensures ok == response.Received?
      ensures paging.page == old(paging.page) && paging.pageSize == old(paging.pageSize)
      ensures client.apiHost == old(client.apiHost) && client.apiVersion == old(client.apiVersion)
      ensures client.apiKey == old(client.apiKey)
      ensures !ok ==> result == old(result) && paging.hasMore == old(paging.hasMore)
      ensures !ok ==> paging.currentPage == old(paging.currentPage)
      ensures !ok ==> client.quotaMax == old(client.quotaMax) && client.quotaRemaining == old(client.quotaRemaining)
      ensures ok ==> result == Some(response.envelope)
      ensures ok ==> paging.currentPage == response.envelope.page && paging.hasMore == response.envelope.hasMore
      ensures ok ==> client.quotaMax == response.envelope.quotaMax
      ensures ok ==> client.quotaRemaining == response.envelope.quotaRemaining
    {
      url := GetURL(ids);
      match response
      case Failed =>
        ok := false;
      case Received(envelope) =>
        result := Some(envelope);
        paging.currentPage := envelope.page;
        paging.hasMore := envelope.hasMore;
        client.SetQuotaMax(envelope.quotaMax);
        client.SetQuotaRemaining(envelope.quotaRemaining);
        ok := true;
    }
  }
}
