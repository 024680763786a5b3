/** The blocklist check: a domain is rejected when one of the category lists
    of the Block List Project contains it verbatim. The fetched lists are kept
    in a per-URL cache for the life of the process. */
module Blocklist {
  import opened Common
  import opened Text
  import opened Log

  /** Name under which the test writes its success message. */
  const CheckName: string := "Blocklist"

  datatype Category = Malware | Piracy | Porn

  /** The categories in the declaration order of the source's `lists`. */
  const Categories: seq<Category> := [Malware, Piracy, Porn]

  function Name(c: Category): string {
    match c
    case Malware => "malware"
    case Piracy => "piracy"
    case Porn => "porn"
  }

  /** Where the Block List Project publishes its newline-delimited lists. */
  const ListsBase: string := "https://blocklistproject.github.io/Lists/alt-version/"

  function Url(c: Category): string {
    ListsBase + Name(c) + "-nl.txt"
  }

  /** Every category is consulted, each under its own URL. */
  lemma CategoriesAreDistinct(c: Category, k: Category)
    ensures c in Categories
    ensures c != k ==> Url(c) != Url(k) && Name(c) != Name(k)
  {
  }

  /** Distinct categories have distinct URLs. */
  lemma UrlInjective(c: Category, k: Category)
    ensures Url(c) == Url(k) ==> c == k
  {
    if c != k {
      // The names differ in their second letter, which follows the base.
      var i := |ListsBase| + 1;
      assert Url(c)[i] == Name(c)[1] && Url(k)[i] == Name(k)[1];
    }
  }

  /** A trimmed line that is kept: non-empty and not a `#` comment. */
  predicate IsDomainLine(t: string) {
    t != [] && t[0] != '#'
  }

  /** The set built from the lines by the `forEach` of `fetchAndCacheList`. */
  function CollectDomains(lines: seq<string>): set<string>
    decreases |lines|
  {
    if |lines| == 0 then {}
    else
      var t := Trim(lines[0]);
      (if IsDomainLine(t) then {t} else {}) + CollectDomains(lines[1..])
  }

  /** The collected set holds exactly the kept trimmed lines. */
  lemma {:induction false} CollectDomainsExactly(lines: seq<string>, d: string)
    ensures d in CollectDomains(lines) <==> exists i :: 0 <= i < |lines| && Trim(lines[i]) == d && IsDomainLine(d)
    decreases |lines|
  {
    if |lines| > 0 {
      CollectDomainsExactly(lines[1..], d);
      assert forall i :: 0 <= i < |lines| - 1 ==> lines[1..][i] == lines[i + 1];
    }
  }

  /** Parses the newline-delimited text of a list into its set of domains. */
  function ParseList(text: string): set<string> {
    CollectDomains(Split(text, '\n'))
  }

  /** The lines a list is expected to hold: a domain name without
      surrounding whitespace, line breaks or a leading `#`. */
  predicate IsCleanDomain(d: string) {
    d != [] && d[0] != '#' && '\n' !in d && Unpadded(d)
  }

  /** No element of a parsed set is empty, starts with `#`, has whitespace
      at either end, or spans two lines. */
  lemma ParsedDomainsAreClean(text: string, d: string)
    requires d in ParseList(text)
    ensures IsCleanDomain(d)
  {
    var lines := Split(text, '\n');
    CollectDomainsExactly(lines, d);
    var i :| 0 <= i < |lines| && Trim(lines[i]) == d && IsDomainLine(d);
    var line := lines[i];
    SplitPiecesAreClean(text, '\n');
    TrimKeepsCharacters(line);
  }

  /** A line without a newline parses to its trim, when that is kept. */
  lemma ParseOneLine(line: string)
    requires '\n' !in line
    ensures ParseList(line) == if IsDomainLine(Trim(line)) then {Trim(line)} else {}
  {
    SplitPiece(line, '\n');
    CollectOneLine(line);
  }

  lemma CollectOneLine(line: string)
    ensures CollectDomains([line]) == if IsDomainLine(Trim(line)) then {Trim(line)} else {}
  {
    assert [line][0] == line;
    assert [line][1..] == [];
  }

  /** The parsed set holds exactly the trimmed lines that are non-empty and
      do not start with `#`; duplicate lines collapse. */
  lemma ParseListExactly(text: string, d: string)
    ensures d in ParseList(text) <==>
              exists line :: line in Split(text, '\n') && Trim(line) == d && d != [] && d[0] != '#'
  {
    var lines := Split(text, '\n');
    CollectDomainsExactly(lines, d);
    if d in ParseList(text) {
      var i :| 0 <= i < |lines| && Trim(lines[i]) == d && IsDomainLine(d);
      assert lines[i] in lines;
    }
  }

  lemma {:induction false} CollectDomainsAppend(l1: seq<string>, l2: seq<string>)
    ensures CollectDomains(l1 + l2) == CollectDomains(l1) + CollectDomains(l2)
    decreases |l1|
  {
    if |l1| > 0 {
      assert (l1 + l2)[1..] == l1[1..] + l2;
      CollectDomainsAppend(l1[1..], l2);
    } else {
      assert l1 + l2 == l2;
    }
  }

  /** Parsing two texts joined by a newline unions their sets. */
  lemma ParseListAppend(a: string, b: string)
    ensures ParseList(a + "\n" + b) == ParseList(a) + ParseList(b)
  {
    SplitAround(a, b, '\n');
    CollectDomainsAppend(Split(a, '\n'), Split(b, '\n'));
  }

  /** Listing a text twice adds nothing. */
  lemma ParseListDuplicate(a: string)
    ensures ParseList(a + "\n" + a) == ParseList(a)
  {
    ParseListAppend(a, a);
  }

  /** The cache object: list URL to parsed set. */
  type Cache = map<string, set<string>>

  /** Replies of the list server, by URL. */
  type ListSource = string -> Fetched<string>

  /** The set a request for `url` yields, bypassing the cache. */
  function Download(url: string, source: ListSource): Result<set<string>> {
    match source(url)
    case Got(text) => Ok(ParseList(text))
    case Failed(reason) => Err(reason)
  }

  /** The set category `c` resolves to in a call of the test: the cached
      one if its URL is cached, else a fresh download. */
  function Consulted(c: Category, cache: Cache, source: ListSource): Result<set<string>> {
    if Url(c) in cache then Ok(cache[Url(c)]) else Download(Url(c), source)
  }

  /** The cache agrees with what the server delivers: every cached set is
      the parse of a successful download of its URL. */
  predicate Coherent(cache: Cache, source: ListSource) {
    forall u :: u in cache ==> source(u).Got? && cache[u] == ParseList(source(u).value)
  }

  /** Result of `fetchAndCacheList`: the set (or the rejection), the cache
      afterwards, and the URLs requested from the server. */
  datatype Lookup = Lookup(domains: Result<set<string>>, cache: Cache, fetched: seq<string>)

  /** `fetchAndCacheList(url)`: a cached URL is answered from the cache
      without a request; otherwise the list is requested, parsed and cached.
      A rejected request leaves the cache untouched. */
  function FetchAndCacheList(cache: Cache, url: string, source: ListSource): (r: Lookup)
    ensures url in cache ==> r == Lookup(Ok(cache[url]), cache, [])
    ensures url !in cache ==> r.fetched == [url] && r.domains == Download(url, source)
    ensures r.domains.Ok? ==> url in r.cache && r.cache[url] == r.domains.value
    ensures r.domains.Err? ==> r.cache == cache
  {
    if url in cache then Lookup(Ok(cache[url]), cache, [])
    else
      match Download(url, source)
      case Ok(s) => Lookup(Ok(s), cache[url := s], [url])
      case Err(e) => Lookup(Err(e), cache, [url])
  }

  /** A lookup leaves the entries of every other URL as they were. */
  lemma LookupTouchesOnlyItsUrl(cache: Cache, url: string, source: ListSource, u: string)
    ensures u != url ==> (u in FetchAndCacheList(cache, url, source).cache <==> u in cache)
    ensures u != url && u in cache ==> FetchAndCacheList(cache, url, source).cache[u] == cache[u]
  {
  }

  /** The lookup of a category's URL yields what the category resolves to. */
  lemma LookupConsults(c: Category, cache: Cache, source: ListSource)
    ensures FetchAndCacheList(cache, Url(c), source).domains == Consulted(c, cache, source)
  {
  }

  /** Once a list has been obtained, a later call for the same URL returns
      the same set and makes no request. */
  lemma FetchOnceThenReuse(cache: Cache, url: string, source: ListSource)
    requires FetchAndCacheList(cache, url, source).domains.Ok?
    ensures var first := FetchAndCacheList(cache, url, source);
            var second := FetchAndCacheList(first.cache, url, source);
            second.domains == first.domains && second.fetched == [] && second.cache == first.cache
  {
  }

  /** With a coherent cache, a lookup yields what a download would, and the
      cache stays coherent. */
  lemma LookupIsTransparent(cache: Cache, url: string, source: ListSource)
    requires Coherent(cache, source)
    ensures FetchAndCacheList(cache, url, source).domains == Download(url, source)
    ensures Coherent(FetchAndCacheList(cache, url, source).cache, source)
  {
    var r := FetchAndCacheList(cache, url, source);
    forall u | u in r.cache
      ensures source(u).Got? && r.cache[u] == ParseList(source(u).value)
    {
      LookupTouchesOnlyItsUrl(cache, url, source, u);
    }
  }

  /** The rejection message for a domain found in category `c`. */
  function CategorizedMessage(domain: string, c: Category): string {
    domain + " is categorized as a " + Name(c) + " website."
  }

  /** The reason the promise of one category rejects, if any. */
  function Finding(c: Category, domain: string, listing: Result<set<string>>): Option<string> {
    match listing
    case Err(e) => Some(e)
    case Ok(s) => if domain in s then Some(CategorizedMessage(domain, c)) else None
  }

  /** The first rejection in category order, the cache afterwards, and the
      URLs requested. */
  datatype Scan = Scan(failure: Option<string>, cache: Cache, fetched: seq<string>)

  /** Starts the lookups of `cats`. Every lookup consults the cache as it was
      when the test started: all promises test the cache before any request
      completes. Each successful download then adds its own key; the cache
      returned is the one once every lookup has settled, including lookups
      still running when an earlier rejection has decided the verdict. */
  function ScanLists(cats: seq<Category>, domain: string, cache: Cache, source: ListSource): Scan
    decreases |cats|
  {
    if |cats| == 0 then Scan(None, cache, [])
    else
      var l := FetchAndCacheList(cache, Url(cats[0]), source);
      var rest := ScanLists(cats[1..], domain, cache, source);
      var here := Finding(cats[0], domain, l.domains);
      Scan(if here.Some? then here else rest.failure, rest.cache + l.cache, l.fetched + rest.fetched)
  }

  /** The reason of the first category of `cats`, in declaration order,
      that rejects when judged by what it resolves to; the reference the
      scan is measured against. */
  function FirstFinding(cats: seq<Category>, domain: string, cache: Cache, source: ListSource): Option<string>
    decreases |cats|
  {
    if |cats| == 0 then None
    else
      var here := Finding(cats[0], domain, Consulted(cats[0], cache, source));
      if here.Some? then here else FirstFinding(cats[1..], domain, cache, source)
  }

  /** A scan rejects with the reason of the first rejecting category. */
  lemma {:induction false} ScanRejectsFirst(cats: seq<Category>, domain: string, cache: Cache, source: ListSource)
    ensures ScanLists(cats, domain, cache, source).failure == FirstFinding(cats, domain, cache, source)
    decreases |cats|
  {
    if |cats| > 0 {
      ScanRejectsFirst(cats[1..], domain, cache, source);
      LookupConsults(cats[0], cache, source);
    }
  }

  /** There is no first finding exactly when no category rejects. */
  lemma {:induction false} FirstFindingNone(cats: seq<Category>, domain: string, cache: Cache, source: ListSource)
    ensures FirstFinding(cats, domain, cache, source).None? <==>
              forall c :: c in cats ==> Finding(c, domain, Consulted(c, cache, source)).None?
    decreases |cats|
  {
    if |cats| > 0 {
      FirstFindingNone(cats[1..], domain, cache, source);
      assert forall c :: c in cats <==> c == cats[0] || c in cats[1..];
    }
  }

  /** The first finding is the finding of one of the categories. */
  lemma {:induction false} FirstFindingIsAFinding(cats: seq<Category>, domain: string, cache: Cache, source: ListSource)
    ensures var f := FirstFinding(cats, domain, cache, source);
            f.Some? ==> exists c :: c in cats && Finding(c, domain, Consulted(c, cache, source)) == f
    decreases |cats|
  {
    if |cats| > 0 && Finding(cats[0], domain, Consulted(cats[0], cache, source)).None? {
      FirstFindingIsAFinding(cats[1..], domain, cache, source);
      if FirstFinding(cats, domain, cache, source).Some? {
        var c :| c in cats[1..] && Finding(c, domain, Consulted(c, cache, source)) == FirstFinding(cats, domain, cache, source);
        assert c in cats;
      }
    }
  }

  /** Earlier entries survive a scan unchanged. */
  lemma {:induction false} ScanKeepsEntries(cats: seq<Category>, domain: string, cache: Cache, source: ListSource, u: string)
    requires u in cache
    ensures var m := ScanLists(cats, domain, cache, source).cache;
            u in m && m[u] == cache[u]
    decreases |cats|
  {
    if |cats| > 0 {
      ScanKeepsEntries(cats[1..], domain, cache, source, u);
      LookupTouchesOnlyItsUrl(cache, Url(cats[0]), source, u);
    }
  }

  /** Every entry a scan adds is the list of one of its categories, for a
      category that resolved to a list. */
  lemma {:induction false} ScanAddsOnlyCategories(cats: seq<Category>, domain: string, cache: Cache, source: ListSource, u: string)
    requires u in ScanLists(cats, domain, cache, source).cache && u !in cache
    ensures exists k :: k in cats && Url(k) == u && Consulted(k, cache, source).Ok?
    decreases |cats|
  {
    var rest := ScanLists(cats[1..], domain, cache, source);
    LookupTouchesOnlyItsUrl(cache, Url(cats[0]), source, u);
    LookupConsults(cats[0], cache, source);
    if u in rest.cache {
      ScanAddsOnlyCategories(cats[1..], domain, cache, source, u);
      var k :| k in cats[1..] && Url(k) == u && Consulted(k, cache, source).Ok?;
      assert k in cats;
    } else {
      assert cats[0] in cats;
    }
  }

  /** A category's URL is cached after the scan exactly when the category
      resolved to a list, and then it holds that list. */
  lemma {:induction false} ScanCachesCategory(cats: seq<Category>, domain: string, cache: Cache, source: ListSource, c: Category)
    requires c in cats
    ensures var m := ScanLists(cats, domain, cache, source).cache;
            && (Url(c) in m <==> Consulted(c, cache, source).Ok?)
            && (Url(c) in m ==> Consulted(c, cache, source) == Ok(m[Url(c)]))
    decreases |cats|
  {
    var u := Url(c);
    var rest := ScanLists(cats[1..], domain, cache, source);
    LookupTouchesOnlyItsUrl(cache, Url(cats[0]), source, u);
    LookupConsults(cats[0], cache, source);
    UrlInjective(c, cats[0]);
    if c in cats[1..] {
      ScanCachesCategory(cats[1..], domain, cache, source, c);
    } else if u in rest.cache && u !in cache {
      ScanAddsOnlyCategories(cats[1..], domain, cache, source, u);
      var k :| k in cats[1..] && Url(k) == u && Consulted(k, cache, source).Ok?;
      UrlInjective(k, c);
    }
  }

  /** A scan requests exactly the lists of its categories that were not
      cached. */
  lemma {:induction false} ScanFetchesUrl(cats: seq<Category>, domain: string, cache: Cache, source: ListSource, u: string)
    ensures u in ScanLists(cats, domain, cache, source).fetched <==>
              u !in cache && exists c :: c in cats && Url(c) == u
    decreases |cats|
  {
    if |cats| > 0 {
      ScanFetchesUrl(cats[1..], domain, cache, source, u);
      var rest := ScanLists(cats[1..], domain, cache, source);
      if u !in cache && exists c :: c in cats && Url(c) == u {
        var c :| c in cats && Url(c) == u;
        if c != cats[0] {
          assert c in cats[1..];
        }
      }
      if u in rest.fetched {
        var c :| c in cats[1..] && Url(c) == u;
        assert c in cats;
      }
    }
  }

  /** The verdict of a scan depends only on what each category resolves to. */
  lemma {:induction false} ScanDependsOnlyOnListings(cats: seq<Category>, domain: string,
                                                     c1: Cache, c2: Cache, source: ListSource)
    requires forall c :: Consulted(c, c1, source) == Consulted(c, c2, source)
    ensures ScanLists(cats, domain, c1, source).failure == ScanLists(cats, domain, c2, source).failure
    decreases |cats|
  {
    if |cats| > 0 {
      ScanDependsOnlyOnListings(cats[1..], domain, c1, c2, source);
      LookupConsults(cats[0], c1, source);
      LookupConsults(cats[0], c2, source);
    }
  }

  /** Over all categories: the scan passes exactly when no promise rejects,
      and otherwise rejects with the reason of one of them. */
  lemma ScanVerdict(domain: string, cache: Cache, source: ListSource)
    ensures var f := ScanLists(Categories, domain, cache, source).failure;
            f.None? <==> forall c :: Consulted(c, cache, source).Ok? && domain !in Consulted(c, cache, source).value
    ensures var f := ScanLists(Categories, domain, cache, source).failure;
            f.Some? ==> exists c :: Finding(c, domain, Consulted(c, cache, source)) == f
  {
    var f := ScanLists(Categories, domain, cache, source).failure;
    ScanRejectsFirst(Categories, domain, cache, source);
    FirstFindingNone(Categories, domain, cache, source);
    if f.None? {
      forall c ensures Consulted(c, cache, source).Ok? && domain !in Consulted(c, cache, source).value {
        CategoriesAreDistinct(c, c);
      }
    } else {
      FirstFindingIsAFinding(Categories, domain, cache, source);
    }
  }

  /** Result of one call of the test: verdict, logger, cache and the URLs
      requested from the list server. */
  datatype CheckRun = CheckRun(verdict: Verdict, log: Logger, cache: Cache, fetched: seq<string>)

  function NotFoundMessage(domain: string): string {
    domain + " not found in any list"
  }

  /** The default export of the blocklist test. Every lookup is started;
      `Promise.all` rejects at the first rejection, and the model takes the
      first in category order. The cache is the one once every lookup has
      settled. A pass writes one message to the logger. */
  function Check(domain: string, log: Logger, cache: Cache, source: ListSource): CheckRun {
    var s := ScanLists(Categories, domain, cache, source);
    if s.failure.None? then
      CheckRun(Pass, AddMessage(log, CheckName, NotFoundMessage(domain)), s.cache, s.fetched)
    else
      CheckRun(Fail(s.failure.value), log, s.cache, s.fetched)
  }

  /** The test passes exactly when every list was obtained and none holds
      the domain, and then logs one message; otherwise it rejects with the
      reason of a category's promise and logs nothing. */
  lemma CheckVerdict(domain: string, log: Logger, cache: Cache, source: ListSource)
    ensures var r := Check(domain, log, cache, source);
            r.verdict.Pass? <==>
              forall c :: Consulted(c, cache, source).Ok? && domain !in Consulted(c, cache, source).value
    ensures var r := Check(domain, log, cache, source);
            r.verdict.Fail? ==>
              exists c :: Finding(c, domain, Consulted(c, cache, source)) == Some(r.verdict.message)
    ensures var r := Check(domain, log, cache, source);
            r.verdict.Pass? ==> r.log == AddMessage(log, CheckName, NotFoundMessage(domain))
    ensures var r := Check(domain, log, cache, source);
            r.verdict.Fail? ==> r.log == log
  {
    ScanVerdict(domain, cache, source);
  }

  /** When every list was obtained and one of them holds the domain, the
      check rejects naming a category that holds it. */
  lemma ListedDomainIsRejected(domain: string, log: Logger, cache: Cache, source: ListSource, c: Category)
    requires forall k :: Consulted(k, cache, source).Ok?
    requires domain in Consulted(c, cache, source).value
    ensures var r := Check(domain, log, cache, source);
            exists k :: domain in Consulted(k, cache, source).value && r.verdict == Fail(CategorizedMessage(domain, k))
  {
    CheckVerdict(domain, log, cache, source);
    var r := Check(domain, log, cache, source);
    var k :| Finding(k, domain, Consulted(k, cache, source)) == Some(r.verdict.message);
  }

  /** The cache after the test: earlier entries unchanged, one entry per
      list obtained, nothing else. */
  lemma CheckCache(domain: string, log: Logger, cache: Cache, source: ListSource)
    ensures var r := Check(domain, log, cache, source);
            forall u :: u in cache ==> u in r.cache && r.cache[u] == cache[u]
    ensures var r := Check(domain, log, cache, source);
            forall c :: Url(c) in r.cache <==> Consulted(c, cache, source).Ok?
    ensures var r := Check(domain, log, cache, source);
            forall c :: Url(c) in r.cache ==> Consulted(c, cache, source) == Ok(r.cache[Url(c)])
    ensures var r := Check(domain, log, cache, source);
            forall u :: u in r.cache ==> u in cache || exists c :: Url(c) == u
  {
    var m := Check(domain, log, cache, source).cache;
    forall u | u in cache ensures u in m && m[u] == cache[u] {
      ScanKeepsEntries(Categories, domain, cache, source, u);
    }
    forall c ensures (Url(c) in m <==> Consulted(c, cache, source).Ok?) && (Url(c) in m ==> Consulted(c, cache, source) == Ok(m[Url(c)])) {
      CategoriesAreDistinct(c, c);
      ScanCachesCategory(Categories, domain, cache, source, c);
    }
    forall u | u in m && u !in cache ensures exists c :: Url(c) == u {
      ScanAddsOnlyCategories(Categories, domain, cache, source, u);
    }
  }

  /** The server is asked for exactly the lists not yet cached, so a cached
      list is never fetched twice. */
  lemma CheckFetches(domain: string, log: Logger, cache: Cache, source: ListSource)
    ensures var r := Check(domain, log, cache, source);
            forall u :: u in r.fetched <==> u !in cache && exists c :: Url(c) == u
  {
    var r := Check(domain, log, cache, source);
    forall u ensures u in r.fetched <==> u !in cache && exists c :: Url(c) == u {
      ScanFetchesUrl(Categories, domain, cache, source, u);
      if exists c :: Url(c) == u {
        var c :| Url(c) == u;
        CategoriesAreDistinct(c, c);
      }
    }
  }

  /** With a coherent cache the verdict and the logger are those of a process
      that has cached nothing yet, and the cache stays coherent: caching
      never changes a result. */
  lemma CacheIsTransparent(domain: string, log: Logger, cache: Cache, source: ListSource)
    requires Coherent(cache, source)
    ensures Check(domain, log, cache, source).verdict == Check(domain, log, map[], source).verdict
    ensures Check(domain, log, cache, source).log == Check(domain, log, map[], source).log
    ensures Coherent(Check(domain, log, cache, source).cache, source)
  {
    forall c ensures Consulted(c, cache, source) == Consulted(c, map[], source) {
      CoherentConsultsDownload(c, cache, source);
    }
    ScanDependsOnlyOnListings(Categories, domain, cache, map[], source);
    CheckKeepsCoherence(domain, log, cache, source);
  }

  /** A coherent cache resolves a category as a download would. */
  lemma CoherentConsultsDownload(c: Category, cache: Cache, source: ListSource)
    requires Coherent(cache, source)
    ensures Consulted(c, cache, source) == Consulted(c, map[], source)
  {
  }

  /** Every entry the test adds is the parse of a successful download. */
  lemma CheckKeepsCoherence(domain: string, log: Logger, cache: Cache, source: ListSource)
    requires Coherent(cache, source)
    ensures Coherent(Check(domain, log, cache, source).cache, source)
  {
    var m := Check(domain, log, cache, source).cache;
    forall u | u in m
      ensures source(u).Got? && m[u] == ParseList(source(u).value)
    {
      ScanKeepsCoherentAt(Categories, domain, cache, source, u);
    }
  }

  /** After a scan from a coherent cache, each entry is the parse of a
      successful download of its URL. */
  lemma ScanKeepsCoherentAt(cats: seq<Category>, domain: string, cache: Cache, source: ListSource, u: string)
    requires Coherent(cache, source)
    requires u in ScanLists(cats, domain, cache, source).cache
    ensures source(u).Got?
    ensures ScanLists(cats, domain, cache, source).cache[u] == ParseList(source(u).value)
  {
    if u in cache {
      ScanKeepsEntries(cats, domain, cache, source, u);
    } else {
      ScanAddsOnlyCategories(cats, domain, cache, source, u);
      var c :| c in cats && Url(c) == u && Consulted(c, cache, source).Ok?;
      ScanCachesCategory(cats, domain, cache, source, c);
    }
  }

  /** A comment line contributes nothing. */
  lemma ParseCommentLine(line: string)
    requires '\n' !in line && line != [] && line[0] == '#'
    ensures ParseList(line) == {}
  {
    TrimKeepsFirst(line);
    ParseOneLine(line);
  }

  /** A domain padded with whitespace other than newlines contributes the
      bare domain. */
  lemma ParsePaddedLine(pre: string, d: string, post: string)
    requires AllWhitespace(pre) && AllWhitespace(post)
    requires '\n' !in pre && '\n' !in post
    requires IsCleanDomain(d)
    ensures ParseList(pre + d + post) == {d}
  {
    TrimWhitespaceAround(pre, d, post);
    TrimUnpadded(d);
    assert '\n' !in pre + d + post;
    ParseOneLine(pre + d + post);
  }

  /** A blank line contributes nothing. */
  lemma ParseBlankLine(s: string)
    ensures ParseList("\n" + s) == ParseList(s)
  {
    SplitAround([], s, '\n');
    assert [] + ['\n'] + s == "\n" + s;
    assert Split([], '\n') == [[]];
    CollectDomainsAppend([[]], Split(s, '\n'));
    assert Trim([]) == [];
  }

  /** Membership is exact string equality: for any listed domain, a list
      with a comment, padding with a carriage return, a blank line and a
      duplicate holds that domain alone, and its `www.` subdomain is not
      matched. */
  lemma ExactMembership(comment: string, d: string)
    requires comment != [] && comment[0] == '#' && '\n' !in comment
    requires IsCleanDomain(d)
    ensures ParseList(comment + "\n  " + d + " \r\n\n" + d) == {d}
    ensures "www." + d !in ParseList(comment + "\n  " + d + " \r\n\n" + d)
  {
    var padded := "  " + d + " \r";
    var tail := "\n" + d;
    SampleListShape(comment, d);
    assert ParseList(tail) == {d} by {
      ParseBlankLine(d);
      ParseCleanLine(d);
    }
    assert ParseList(padded + "\n" + tail) == {d} by {
      ParseListAppend(padded, tail);
      ParsePaddedLine("  ", d, " \r");
    }
    assert ParseList(comment + "\n" + (padded + "\n" + tail)) == {d} by {
      ParseListAppend(comment, padded + "\n" + tail);
      ParseCommentLine(comment);
    }
    assert |"www." + d| > |d|;
  }

  lemma SampleListShape(comment: string, d: string)
    ensures comment + "\n  " + d + " \r\n\n" + d == comment + "\n" + (("  " + d + " \r") + "\n" + ("\n" + d))
  {
  }

  /** A domain line without padding contributes itself. */
  lemma ParseCleanLine(d: string)
    requires IsCleanDomain(d)
    ensures ParseList(d) == {d}
  {
    TrimUnpadded(d);
    ParseOneLine(d);
  }
}
