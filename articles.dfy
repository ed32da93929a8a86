/** The Article record, its JSON form in the cache, _parse_article_xml and PubMedClient.
    The network is not modelled: each call that may reach it takes the reply it would receive as a
    parameter, and a ghost log records every request actually sent. */
module Articles {
  import opened Wrappers
  import opened Json
  import opened Text
  import opened Xml
  import opened Cache
  import opened Extraction

  datatype Article = Article(
    pmcId: string,
    pmid: Option<string>,
    title: string,
    authors: seq<string>,
    journal: string,
    year: string,
    doi: Option<string>,
    abstractText: Option<string>,
    methodsText: Option<string>,
    fullTextUrl: string)

  const BASE_URL := "https://eutils.ncbi.nlm.nih.gov/entrez/eutils"
  const ARTICLE_URL_PREFIX := "https://www.ncbi.nlm.nih.gov/pmc/articles/PMC"
  const DEFAULT_TITLE := "Sin título"
  const DEFAULT_JOURNAL := "Journal desconocido"

  // ---------------------------------------------------------------------------------------
  // _get_text and the metadata of an article

  /** The two XPath shapes _parse_article_xml uses: `.//sel` and `.//outer/inner`. */
  datatype Path = Descendant(sel: Selector) | DescendantChild(outer: string, inner: string)

  function FindPath(n: Node, path: Path): Option<Node> {
    match path
    case Descendant(sel) => Find(n, sel)
    case DescendantChild(outer, inner) => FindNested(n, outer, inner)
  }

  /** _get_text: the text pieces of the element found, concatenated and stripped; else the
      default (which may be None). */
  function GetText(element: Node, path: Path, default: Option<string>): (r: Option<string>)
    ensures FindPath(element, path).None? ==> r == default
    ensures FindPath(element, path).Some? ==> r.Some? && Trimmed(r.value)
  {
    match FindPath(element, path)
    case Some(found) =>
      var joined := Join("", Itertext(found));
      StripIsTrimmed(joined);
      Some(Strip(joined))
    case None => default
  }

  const SURNAME := Descendant(Tag("surname"))
  const GIVEN_NAMES := Descendant(Tag("given-names"))
  const AUTHOR := TagWithAttr("contrib", "contrib-type", "author")

  /** The surname of a contributor, "" when it has none. */
  function Surname(author: Node): string {
    GetText(author, SURNAME, Some("")).GetOr("")
  }

  /** The name one author contributes: "given surname", stripped; nothing without a surname. */
  function AuthorName(author: Node): (r: Option<string>)
    ensures r.Some? <==> Surname(author) != ""
    ensures r.Some? ==> r.value != "" && Trimmed(r.value)
  {
    var surname := Surname(author);
    var given := GetText(author, GIVEN_NAMES, Some("")).GetOr("");
    if surname != "" then
      StripKeepsLastWord(given, surname);
      StripIsTrimmed(given + " " + surname);
      Some(Strip(given + " " + surname))
    else None
  }

  /** Stripping "given surname" keeps the (already stripped) surname as its last part. */
  lemma StripKeepsLastWord(given: string, surname: string)
    requires surname != "" && Trimmed(surname)
    ensures var r := Strip(given + " " + surname);
            |r| >= |surname| && r[|r| - |surname|..] == surname
  {
    var x := given + " " + surname;
    var l := LStrip(x);
    LStripSpec(x);
    assert l[|l| - |surname|..] == surname by {
      assert l == x[|x| - |l|..];
      assert x[|x| - |surname|..] == surname;
    }
    assert l[|l| - 1] == surname[|surname| - 1];
    assert RStrip(l) == l;
  }

  /** The values that are present, in order. */
  function Present(names: seq<Option<string>>): (r: seq<string>)
    ensures |r| <= |names|
  {
    if names == [] then []
    else
      Present(names[..|names| - 1]) + Listed(names[|names| - 1])
  }

  /** A present value as a one-element list; nothing for None. */
  function Listed(o: Option<string>): seq<string> {
    match o
    case Some(v) => [v]
    case None => []
  }

  lemma {:induction false} PresentIff(names: seq<Option<string>>, name: string)
    ensures name in Present(names) <==> Some(name) in names
  {
    if names != [] {
      var init, last := names[..|names| - 1], names[|names| - 1];
      assert names == init + [last];
      PresentIff(init, name);
    }
  }

  /** What each contributor gives, in document order. */
  function NameOptions(contribs: seq<Node>): (r: seq<Option<string>>)
    ensures |r| == |contribs| && forall i :: 0 <= i < |contribs| ==> r[i] == AuthorName(contribs[i])
  {
    seq(|contribs|, i requires 0 <= i < |contribs| => AuthorName(contribs[i]))
  }

  /** The authors of a list of contributors, in document order: the loop of _parse_article_xml. */
  function Authors(contribs: seq<Node>): seq<string> {
    Present(NameOptions(contribs))
  }

  /** Every author name comes from a contributor with a surname, and every such contributor
      gives one. */
  lemma AuthorsIff(contribs: seq<Node>, name: string)
    ensures name in Authors(contribs) <==> exists c :: c in contribs && AuthorName(c) == Some(name)
  {
    var names := NameOptions(contribs);
    PresentIff(names, name);
    if exists c :: c in contribs && AuthorName(c) == Some(name) {
      var c :| c in contribs && AuthorName(c) == Some(name);
      var i :| 0 <= i < |contribs| && contribs[i] == c;
      assert names[i] == Some(name);
    }
    if Some(name) in names {
      var i :| 0 <= i < |names| && names[i] == Some(name);
      assert contribs[i] in contribs;
    }
  }

  /** Every author name is non-empty and has no surrounding whitespace. */
  lemma AuthorsAreNames(contribs: seq<Node>)
    ensures forall name :: name in Authors(contribs) ==> name != "" && Trimmed(name)
  {
    forall name | name in Authors(contribs) ensures name != "" && Trimmed(name) {
      AuthorsIff(contribs, name);
    }
  }

  /** _extract_abstract: the text pieces of the first `abstract` below the root, joined by
      spaces and stripped. */
  function ExtractAbstract(root: Node): (r: Option<string>)
    ensures r.Some? <==> Find(root, Tag("abstract")).Some?
    ensures r.Some? ==> Trimmed(r.value)
  {
    match Find(root, Tag("abstract"))
    case Some(a) =>
      var joined := Join(" ", Itertext(a));
      StripIsTrimmed(joined);
      Some(Strip(joined))
    case None => None
  }

  /** The record _parse_article_xml builds for a parsed efetch document. The year defaults to
      the current year, given as a parameter. */
  function ArticleOf(root: Node, pmcId: string, currentYear: int): Article {
    Article(
      pmcId := pmcId,
      pmid := GetText(root, Descendant(TagWithAttr("article-id", "pub-id-type", "pmid")), None),
      title := GetText(root, Descendant(Tag("article-title")), Some(DEFAULT_TITLE)).GetOr(DEFAULT_TITLE),
      authors := Authors(FindAll(root, AUTHOR)),
      journal := GetText(root, Descendant(Tag("journal-title")), Some(DEFAULT_JOURNAL)).GetOr(DEFAULT_JOURNAL),
      year := GetText(root, DescendantChild("pub-date", "year"), Some(IntToString(currentYear)))
              .GetOr(IntToString(currentYear)),
      doi := GetText(root, Descendant(TagWithAttr("article-id", "pub-id-type", "doi")), None),
      abstractText := ExtractAbstract(root),
      methodsText := MethodsText(root),
      fullTextUrl := ArticleUrl(pmcId))
  }

  /** The PMC page of an article. */
  function ArticleUrl(pmcId: string): string {
    ARTICLE_URL_PREFIX + pmcId + "/"
  }

  /** The page URL names the article: different PMC ids never share a URL. */
  lemma ArticleUrlInjective(id1: string, id2: string)
    requires ArticleUrl(id1) == ArticleUrl(id2)
    ensures id1 == id2
  {
    var u := ArticleUrl(id1);
    var n := |ARTICLE_URL_PREFIX|;
    assert id1 == u[n..|u| - 1];
    assert id2 == ArticleUrl(id2)[n..|u| - 1];
  }

  /** Missing metadata takes the documented defaults; a missing DOI, PMID or abstract is None. */
  lemma ArticleDefaults(root: Node, pmcId: string, currentYear: int)
    ensures var a := ArticleOf(root, pmcId, currentYear);
            && (Find(root, Tag("article-title")).None? ==> a.title == DEFAULT_TITLE)
            && (Find(root, Tag("journal-title")).None? ==> a.journal == DEFAULT_JOURNAL)
            && (FindNested(root, "pub-date", "year").None? ==> a.year == IntToString(currentYear))
            && (Find(root, TagWithAttr("article-id", "pub-id-type", "doi")).None? ==> a.doi == None)
            && (Find(root, TagWithAttr("article-id", "pub-id-type", "pmid")).None? ==> a.pmid == None)
            && (a.abstractText.None? <==> Find(root, Tag("abstract")).None?)
  {
  }

  /** _parse_article_xml, with its loop over the author contributors. */
  method ParseArticleXml(root: Node, pmcId: string, currentYear: int) returns (a: Article)
    ensures a == ArticleOf(root, pmcId, currentYear)
  {
    var title := GetText(root, Descendant(Tag("article-title")), Some(DEFAULT_TITLE)).GetOr(DEFAULT_TITLE);

    var authors := CollectAuthors(FindAll(root, AUTHOR));

    var journal := GetText(root, Descendant(Tag("journal-title")), Some(DEFAULT_JOURNAL)).GetOr(DEFAULT_JOURNAL);
    var year := GetText(root, DescendantChild("pub-date", "year"), Some(IntToString(currentYear)))
                .GetOr(IntToString(currentYear));
    var doi := GetText(root, Descendant(TagWithAttr("article-id", "pub-id-type", "doi")), None);
    var pmid := GetText(root, Descendant(TagWithAttr("article-id", "pub-id-type", "pmid")), None);
    var abstractText := ExtractAbstract(root);
    var methodsText := ExtractMethods(root);
    var fullTextUrl := ARTICLE_URL_PREFIX + pmcId + "/";
    a := Article(pmcId, pmid, title, authors, journal, year, doi, abstractText, methodsText, fullTextUrl);
  }

  /** The loop over the author contributors: each one with a surname adds "given surname". */
  method CollectAuthors(contribs: seq<Node>) returns (authors: seq<string>)
    ensures authors == Authors(contribs)
  {
    authors := [];
    var i := 0;
    while i < |contribs|
      invariant 0 <= i <= |contribs|
      invariant authors == Authors(contribs[..i])
    {
      authors := AddAuthor(authors, contribs[i]);
      AuthorsSnoc(contribs, i);
      i := i + 1;
    }
    assert contribs[..i] == contribs;
  }

  lemma AuthorsSnoc(contribs: seq<Node>, i: nat)
    requires i < |contribs|
    ensures Authors(contribs[..i + 1]) == Authors(contribs[..i]) + Listed(AuthorName(contribs[i]))
  {
    var names := NameOptions(contribs[..i + 1]);
    assert names[..i] == NameOptions(contribs[..i]);
  }

  /** One step of that loop. */
  method AddAuthor(authors: seq<string>, author: Node) returns (r: seq<string>)
    ensures r == authors + Listed(AuthorName(author))
  {
    r := authors;
    var surname := GetText(author, SURNAME, Some("")).GetOr("");
    var givenNames := GetText(author, GIVEN_NAMES, Some("")).GetOr("");
    if surname != "" {
      r := r + [Strip(givenNames + " " + surname)];
    }
  }

  // ---------------------------------------------------------------------------------------
  // The cached form of an article: asdict(article), read back with Article(**cached)

  const ARTICLE_KEYS: set<string> :=
    {"pmc_id", "pmid", "title", "authors", "journal", "year", "doi", "abstract", "methods_text", "full_text_url"}

  /** asdict(article) */
  function EncodeArticle(a: Article): (j: Json)
    ensures j.JObj? && j.fields.Keys == ARTICLE_KEYS
  {
    JObj(map[
      "pmc_id" := JStr(a.pmcId),
      "pmid" := EncodeOptString(a.pmid),
      "title" := JStr(a.title),
      "authors" := EncodeStrings(a.authors),
      "journal" := JStr(a.journal),
      "year" := JStr(a.year),
      "doi" := EncodeOptString(a.doi),
      "abstract" := EncodeOptString(a.abstractText),
      "methods_text" := EncodeOptString(a.methodsText),
      "full_text_url" := JStr(a.fullTextUrl)])
  }

  /** Article(**cached): needs an object with exactly the ten field names (a missing or an extra
      key raises TypeError); None stands for that error. */
  function DecodeArticle(j: Json): (r: Option<Article>)
    ensures r.Some? ==> j.JObj? && j.fields.Keys == ARTICLE_KEYS
  {
    if !j.JObj? || j.fields.Keys != ARTICLE_KEYS then None
    else
      var f := j.fields;
      var pmcId := DecodeString(f["pmc_id"]);
      var pmid := DecodeOptString(f["pmid"]);
      var title := DecodeString(f["title"]);
      var authors := DecodeStrings(f["authors"]);
      var journal := DecodeString(f["journal"]);
      var year := DecodeString(f["year"]);
      var doi := DecodeOptString(f["doi"]);
      var abstractText := DecodeOptString(f["abstract"]);
      var methodsText := DecodeOptString(f["methods_text"]);
      var url := DecodeString(f["full_text_url"]);
      if pmcId.Some? && pmid.Some? && title.Some? && authors.Some? && journal.Some? && year.Some?
         && doi.Some? && abstractText.Some? && methodsText.Some? && url.Some? then
        Some(Article(pmcId.value, pmid.value, title.value, authors.value, journal.value, year.value,
                     doi.value, abstractText.value, methodsText.value, url.value))
      else None
  }

  /** Article(**cached) in fetch_article: the rebuilt article, or the TypeError it raises. */
  function FromCache(key: string, cached: Json): (r: Result<Article, Error>)
    ensures r.Success? <==> DecodeArticle(cached).Some?
    ensures r.Failure? ==> r.error == CorruptCacheEntry(key)
  {
    match DecodeArticle(cached)
    case Some(a) => Success(a)
    case None => Failure(CorruptCacheEntry(key))
  }

  /** An article read back from the cache is the article that was written. */
  lemma ArticleRoundTrip(a: Article)
    ensures DecodeArticle(EncodeArticle(a)) == Some(a)
  {
    var f := EncodeArticle(a).fields;
    StringsRoundTrip(a.authors);
    OptStringRoundTrip(a.pmid);
    OptStringRoundTrip(a.doi);
    OptStringRoundTrip(a.abstractText);
    OptStringRoundTrip(a.methodsText);
    assert f["authors"] == EncodeStrings(a.authors);
  }

  // ---------------------------------------------------------------------------------------
  // PubMedClient

  /** The parameters of a GET to esearch.fcgi. */
  datatype SearchRequest = SearchRequest(url: string, db: string, term: string, retmode: string, retmax: int, sort: string)

  /** The parameters of a GET to efetch.fcgi. */
  datatype FetchRequest = FetchRequest(url: string, db: string, id: string, retmode: string)

  /** The search sent for a query: PMC, open access only, JSON, by relevance. */
  function SearchRequestFor(query: string, maxResults: int): SearchRequest {
    SearchRequest(BASE_URL + "/esearch.fcgi", "pmc", query + " AND open access[filter]", "json", maxResults, "relevance")
  }

  function FetchRequestFor(pmcId: string): FetchRequest {
    FetchRequest(BASE_URL + "/efetch.fcgi", "pmc", pmcId, "xml")
  }

  /** The text digested into the cache key of a search. */
  function SearchKeyText(query: string, maxResults: int): string {
    "search_" + query + "_" + IntToString(maxResults)
  }

  /** The text digested into the cache key of an article. */
  function ArticleKeyText(pmcId: string): string {
    "article_" + pmcId
  }

  /** Python's `key in container` on a decoded JSON value: a key test on a dict, an element
      test on a list, a substring test on a string; None, a bool or a number raise TypeError. */
  function PyContains(container: Json, key: string): (r: Result<bool, Error>)
    ensures r.Failure? <==> container.JNull? || container.JBool? || container.JNum?
    ensures container.JObj? ==> r == Success(key in container.fields)
  {
    match container
    case JObj(fields) => Success(key in fields)
    case JArr(items) => Success(JStr(key) in items)
    case JStr(s) => Success(Contains(s, key))
    case _ => Failure(MalformedResponse)
  }

  /** The esearch test `"esearchresult" in data and "idlist" in data["esearchresult"]`, then
      `data["esearchresult"]["idlist"]`: Some(ids) when both levels are dicts holding the key,
      None when a test is false, and the TypeError (MalformedResponse) that `in` or the string
      subscript raises on a value of another type. */
  function IdList(data: Json): (r: Result<Option<Json>, Error>)
    ensures r.Success? && r.value.Some? <==>
              data.JObj? && "esearchresult" in data.fields
              && data.fields["esearchresult"].JObj? && "idlist" in data.fields["esearchresult"].fields
    ensures r.Success? && r.value.Some? ==> r.value.value == data.fields["esearchresult"].fields["idlist"]
  {
    match PyContains(data, "esearchresult")
    case Failure(e) => Failure(e)
    case Success(false) => Success(None)
    case Success(true) =>
      if !data.JObj? then Failure(MalformedResponse)  // a list or str subscripted with a str
      else
        var result := data.fields["esearchresult"];
        match PyContains(result, "idlist")
        case Failure(e) => Failure(e)
        case Success(false) => Success(None)
        case Success(true) =>
          if result.JObj? then Success(Some(result.fields["idlist"])) else Failure(MalformedResponse)
  }

  /** The outcomes of the esearch test on replies of each shape. A dict without `esearchresult`
      has no id list; a value under it that is a dict, list or string has none unless it holds
      `idlist`; every other case raises. */
  lemma IdListOutcomes(data: Json)
    ensures data.JNull? || data.JBool? || data.JNum? ==> IdList(data) == Failure(MalformedResponse)
    ensures data.JObj? && "esearchresult" !in data.fields ==> IdList(data) == Success(None)
    ensures data.JObj? && "esearchresult" in data.fields ==>
              var result := data.fields["esearchresult"];
              && (result.JNull? || result.JBool? || result.JNum? ==> IdList(data) == Failure(MalformedResponse))
              && (result.JObj? && "idlist" !in result.fields ==> IdList(data) == Success(None))
              && (result.JArr? ==> IdList(data) == if JStr("idlist") in result.items then Failure(MalformedResponse)
                                                   else Success(None))
              && (result.JStr? ==> IdList(data) == if Contains(result.s, "idlist") then Failure(MalformedResponse)
                                                   else Success(None))
    ensures data.JArr? ==> IdList(data) == if JStr("esearchresult") in data.items then Failure(MalformedResponse)
                                           else Success(None)
    ensures data.JStr? ==> IdList(data) == if Contains(data.s, "esearchresult") then Failure(MalformedResponse)
                                           else Success(None)
  {
  }

  /** A character of str(n) is a digit or the minus sign, never an underscore. */
  lemma IntToStringHasNoUnderscore(n: int, k: nat)
    requires k < |IntToString(n)|
    ensures IntToString(n)[k] != '_'
  {
    if n < 0 && k > 0 {
      assert IntToString(n)[k] == NatToString(-n)[k - 1];
    }
  }

  /** Two searches share a cache key text only when they have the same query and size: the
      last underscore separates the query from the number. */
  lemma SearchKeyTextInjective(q1: string, n1: int, q2: string, n2: int)
    requires SearchKeyText(q1, n1) == SearchKeyText(q2, n2)
    ensures q1 == q2 && n1 == n2
  {
    var k := SearchKeyText(q1, n1);
    var s1, s2 := IntToString(n1), IntToString(n2);
    if |s1| < |s2| {
      assert k[|k| - |s1| - 1] == '_';
      assert k[|k| - |s1| - 1] == s2[|s2| - |s1| - 1];
      IntToStringHasNoUnderscore(n2, |s2| - |s1| - 1);
    } else if |s2| < |s1| {
      assert k[|k| - |s2| - 1] == '_';
      assert k[|k| - |s2| - 1] == s1[|s1| - |s2| - 1];
      IntToStringHasNoUnderscore(n1, |s1| - |s2| - 1);
    } else {
      assert s1 == k[|k| - |s1|..] == s2;
      IntToStringInjective(n1, n2);
      assert q1 == k[7..|k| - |s1| - 1] == q2;
    }
  }

  /** The key text of a search never equals the key text of an article. */
  lemma SearchAndArticleKeysDiffer(query: string, maxResults: int, pmcId: string)
    ensures SearchKeyText(query, maxResults) != ArticleKeyText(pmcId)
  {
    assert SearchKeyText(query, maxResults)[0] == 's';
    assert ArticleKeyText(pmcId)[0] == 'a';
  }

  class PubMedClient {
    const cache: CacheManager
    /** Every request sent to esearch.fcgi and efetch.fcgi, oldest first. */
    ghost var searches: seq<SearchRequest>
    ghost var fetches: seq<FetchRequest>

    constructor (cache: CacheManager)
      ensures this.cache == cache && searches == [] && fetches == []
    {
      this.cache := cache;
      searches := [];
      fetches := [];
    }

    /** search_articles: a truthy cached result is returned as is (an empty cached list is not,
        and is searched again); otherwise the search is sent, and an `idlist` in the reply is
        cached and returned. A reply without one gives [] and caches nothing. `reply` is what
        esearch answers (a transport or HTTP error as Failure); `now` is the clock. */
    method SearchArticles(query: string, maxResults: int, now: int, reply: Result<Json, string>)
      returns (r: Result<Json, Error>)
      modifies this, cache
      ensures fetches == old(fetches)
      ensures var key := cache.GetCacheKey(SearchKeyText(query, maxResults));
              var hit := Lookup(old(cache.entries), key, now);
              if hit.Some? && Truthy(hit.value) then
                r == Success(hit.value) && searches == old(searches) && cache.entries == old(cache.entries)
              else
                && searches == old(searches) + [SearchRequestFor(query, maxResults)]
                && match reply
                   case Failure(e) => r == Failure(Transport(e)) && cache.entries == old(cache.entries)
                   case Success(data) =>
                     match IdList(data)
                     case Failure(e) => r == Failure(e) && cache.entries == old(cache.entries)
                     case Success(Some(ids)) => r == Success(ids) && cache.entries == old(cache.entries)[key := Entry(now, ids)]
                     case Success(None) => r == Success(JArr([])) && cache.entries == old(cache.entries)
    {
      var cacheKey := cache.GetCacheKey(SearchKeyText(query, maxResults));
      var cached := cache.Get(cacheKey, now);
      if cached.Some? && Truthy(cached.value) {
        return Success(cached.value);
      }

      var request := SearchRequestFor(query, maxResults);
      searches := searches + [request];
      if reply.Failure? {
        return Failure(Transport(reply.error));
      }
      var data := reply.value;
      var ids := IdList(data);
      if ids.Failure? {
        return Failure(ids.error);
      }
      if ids.value.Some? {
        cache.Set(cacheKey, ids.value.value, now);
        return Success(ids.value.value);
      }
      return Success(JArr([]));
    }

    /** fetch_article: a truthy cached record is rebuilt with Article(**cached); otherwise the
        article is fetched, parsed, cached as asdict(article) and returned. `reply` is the
        parsed efetch document, or the transport, HTTP or XML error. */
    method FetchArticle(pmcId: string, now: int, currentYear: int, reply: Result<Node, string>)
      returns (r: Result<Article, Error>)
      modifies this, cache
      ensures searches == old(searches)
      ensures var key := cache.GetCacheKey(ArticleKeyText(pmcId));
              var hit := Lookup(old(cache.entries), key, now);
              if hit.Some? && Truthy(hit.value) then
                && fetches == old(fetches) && cache.entries == old(cache.entries)
                && r == FromCache(key, hit.value)
              else
                && fetches == old(fetches) + [FetchRequestFor(pmcId)]
                && match reply
                   case Failure(e) => r == Failure(Transport(e)) && cache.entries == old(cache.entries)
                   case Success(root) =>
                     var a := ArticleOf(root, pmcId, currentYear);
                     r == Success(a) && cache.entries == old(cache.entries)[key := Entry(now, EncodeArticle(a))]
    {
      var cacheKey := cache.GetCacheKey(ArticleKeyText(pmcId));
      var cached := cache.Get(cacheKey, now);
      if cached.Some? && Truthy(cached.value) {
        return FromCache(cacheKey, cached.value);
      }

      fetches := fetches + [FetchRequestFor(pmcId)];
      if reply.Failure? {
        return Failure(Transport(reply.error));
      }
      var article := ParseAndStore(reply.value, pmcId, cacheKey, now, currentYear);
      return Success(article);
    }

    /** The end of fetch_article: parse the document and cache asdict(article). */
    method ParseAndStore(root: Node, pmcId: string, cacheKey: string, now: int, currentYear: int)
      returns (article: Article)
      modifies cache
      ensures article == ArticleOf(root, pmcId, currentYear)
      ensures cache.entries == old(cache.entries)[cacheKey := Entry(now, EncodeArticle(article))]
    {
      article := ParseArticleXml(root, pmcId, currentYear);
      cache.Set(cacheKey, EncodeArticle(article), now);
    }
  }

  /** A search that found a non-empty id list is answered from the cache for the next seven
      days: the second call returns the same ids and sends nothing, whatever esearch would say. */
  method RepeatedSearchIsCached(client: PubMedClient, query: string, maxResults: int,
                                t1: int, t2: int, reply1: Result<Json, string>, reply2: Result<Json, string>)
    returns (first: Result<Json, Error>, second: Result<Json, Error>)
    requires Lookup(client.cache.entries, client.cache.GetCacheKey(SearchKeyText(query, maxResults)), t1).None?
    requires 0 <= t2 - t1 < EXPIRY_MICROS
    requires reply1.Success? && IdList(reply1.value).Success? && IdList(reply1.value).value.Some?
    requires Truthy(IdList(reply1.value).value.value)
    modifies client, client.cache
    ensures first == Success(IdList(reply1.value).value.value)
    ensures second == first
    ensures client.searches == old(client.searches) + [SearchRequestFor(query, maxResults)]
  {
    first := client.SearchArticles(query, maxResults, t1, reply1);
    var key := client.cache.GetCacheKey(SearchKeyText(query, maxResults));
    PutThenGet(old(client.cache.entries), key, first.value, t1, t2);
    second := client.SearchArticles(query, maxResults, t2, reply2);
  }

  /** What fetch_article caches for an article is read back, within seven days, as a truthy
      record that Article(**cached) turns into the same article: a second fetch is served from
      the cache without a request. */
  lemma CachedArticleReadsBack(entries: map<string, Entry>, key: string, a: Article, t1: int, t2: int)
    requires 0 <= t2 - t1 < EXPIRY_MICROS
    ensures var hit := Lookup(entries[key := Entry(t1, EncodeArticle(a))], key, t2);
            hit.Some? && Truthy(hit.value) && DecodeArticle(hit.value) == Some(a)
  {
    PutThenGet(entries, key, EncodeArticle(a), t1, t2);
    assert "pmc_id" in EncodeArticle(a).fields;
    ArticleRoundTrip(a);
  }
}
