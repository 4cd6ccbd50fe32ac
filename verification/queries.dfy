/** WeatherForecastController (Controllers): the read side. Get chooses between
    the paged query and the paged query by date and decides whether a next-page
    link is offered; FindById guards with `id > FindAll().Count`. */
module ForecastQueries {
  import opened Wrappers
  import opened Forecasts

  const DefaultPageNumber := 1
  const DefaultPageSize := 10

  /** One page of a query with the totals the repository reports. */
  datatype PaginatedResult = PaginatedResult(items: seq<WeatherForecast>, totalCount: int, totalPages: int)

  /** The paginated read repository as seen by the controller: its current
      contents and its queries (a date is a day number). FindById may answer
      null. */
  datatype PaginatedRepository = PaginatedRepository(
    findAll: seq<WeatherForecast>,
    findById: int -> Option<WeatherForecast>,
    findPaginated: (int, int) -> PaginatedResult,
    findPaginatedByDate: (int, int, int) -> PaginatedResult)

  /** The query values of a next-page link: the request a client makes when it
      follows the link. `date` is None when the link carries no date. */
  datatype PageLink = PageLink(date: Option<int>, pageNumber: int, pageSize: int)

  /** The body of Get's Ok answer. */
  datatype PageResponse = PageResponse(
    forecasts: seq<WeatherForecast>,
    pageNumber: int,
    pageSize: int,
    totalItems: int,
    totalPages: int,
    nextPage: Option<PageLink>)

  /** The query Get runs: by date when a date is given, the plain one otherwise. */
  function Query(repository: PaginatedRepository, date: Option<int>, pageNumber: int, pageSize: int): PaginatedResult {
    match date
    case Some(day) => repository.findPaginatedByDate(day, pageNumber, pageSize)
    case None => repository.findPaginated(pageNumber, pageSize)
  }

  /** GET weatherforecast?date&pageNumber&pageSize. The next-page link is built
      from the page number and size alone, so it carries no date. */
  function Get(repository: PaginatedRepository, date: Option<int>,
               pageNumber: int := DefaultPageNumber, pageSize: int := DefaultPageSize): (r: PageResponse)
    ensures date.Some? ==> r.forecasts == repository.findPaginatedByDate(date.value, pageNumber, pageSize).items
    ensures date.None? ==> r.forecasts == repository.findPaginated(pageNumber, pageSize).items
    ensures r.pageNumber == pageNumber && r.pageSize == pageSize
    ensures r.totalItems == Query(repository, date, pageNumber, pageSize).totalCount
    ensures r.totalPages == Query(repository, date, pageNumber, pageSize).totalPages
    ensures r.nextPage.Some? <==> pageNumber < r.totalPages
    ensures r.nextPage.Some? ==> r.nextPage.value == PageLink(None, pageNumber + 1, pageSize)
  {
    var paginatedResult := Query(repository, date, pageNumber, pageSize);
    var nextPage := if pageNumber < paginatedResult.totalPages then Some(PageLink(None, pageNumber + 1, pageSize)) else None;
    PageResponse(paginatedResult.items, pageNumber, pageSize, paginatedResult.totalCount,
                 paginatedResult.totalPages, nextPage)
  }

  /** Without query parameters Get asks for the first page of ten. */
  lemma DefaultsAskForFirstPage(repository: PaginatedRepository, date: Option<int>)
    ensures Get(repository, date).pageNumber == 1 && Get(repository, date).pageSize == 10
    ensures Get(repository, date).forecasts == Query(repository, date, 1, 10).items
  {
  }

  /** Following the next-page link of a date query runs the plain query: the
      page after page `pageNumber` of the forecasts of `day` is page
      `pageNumber + 1` of all forecasts. */
  lemma NextLinkDropsDate(repository: PaginatedRepository, day: int, pageNumber: int, pageSize: int)
    requires pageNumber < Query(repository, Some(day), pageNumber, pageSize).totalPages
    ensures var link := Get(repository, Some(day), pageNumber, pageSize).nextPage.value;
            && link.date.None?
            && Get(repository, link.date, link.pageNumber, link.pageSize).forecasts
               == Query(repository, None, pageNumber + 1, pageSize).items
            && Get(repository, link.date, link.pageNumber, link.pageSize).totalPages
               == Query(repository, None, pageNumber + 1, pageSize).totalPages
  {
  }

  /** A repository in which the forecasts of one day fill 3 pages and all
      forecasts fill 10: from page 1 of that day the link leads to a page that
      reports 10 pages and 100 items, not to page 2 of the day's 5 items. */
  lemma DateDroppedExample()
    ensures var repository := PaginatedRepository([], id => None, (p, n) => PaginatedResult([], 100, 10),
                                                  (d, p, n) => PaginatedResult([], 5, 3));
            var link := Get(repository, Some(0)).nextPage.value;
            && Get(repository, link.date, link.pageNumber, link.pageSize).totalItems == 100
            && Get(repository, Some(0), 2).totalItems == 5
  {
  }

  /** Get with a next-page link that keeps the date: the same page and totals,
      with the date carried into the link. */
  function GetKeepingDate(repository: PaginatedRepository, date: Option<int>, pageNumber: int, pageSize: int): (r: PageResponse)
    ensures r.forecasts == Query(repository, date, pageNumber, pageSize).items
    ensures r.totalPages == Query(repository, date, pageNumber, pageSize).totalPages
    ensures r.nextPage.Some? <==> pageNumber < r.totalPages
    ensures r.nextPage.Some? ==> r.nextPage.value == PageLink(date, pageNumber + 1, pageSize)
    ensures r == Get(repository, date, pageNumber, pageSize).(nextPage := r.nextPage)
    ensures date.None? ==> r == Get(repository, date, pageNumber, pageSize)
  {
    var response := Get(repository, date, pageNumber, pageSize);
    match response.nextPage
    case None => response
    case Some(link) => response.(nextPage := Some(link.(date := date)))
  }

  /** The repository reports the same number of pages for every page number of
      a query. */
  ghost predicate TotalsFixed(repository: PaginatedRepository, date: Option<int>, pageSize: int, totalPages: int) {
    forall p :: Query(repository, date, p, pageSize).totalPages == totalPages
  }

  /** The requests a client makes starting with `link` and following each
      next-page link of GetKeepingDate until there is none. */
  ghost function Walk(repository: PaginatedRepository, link: PageLink, totalPages: int): seq<PageLink>
    requires TotalsFixed(repository, link.date, link.pageSize, totalPages)
    decreases totalPages - link.pageNumber
  {
    var r := GetKeepingDate(repository, link.date, link.pageNumber, link.pageSize);
    if r.nextPage.None? then [link]
    else [link] + Walk(repository, r.nextPage.value, totalPages)
  }

  /** Following the links from a page requests every later page of the same
      query once, in order, and stops at the last one; from page 1 that is
      pages 1 to TotalPages. */
  lemma {:induction false} WalkVisitsEachPage(repository: PaginatedRepository, link: PageLink, totalPages: int)
    requires TotalsFixed(repository, link.date, link.pageSize, totalPages)
    ensures var pages := Walk(repository, link, totalPages);
            && |pages| == (if link.pageNumber < totalPages then totalPages - link.pageNumber + 1 else 1)
            && forall i :: 0 <= i < |pages| ==> pages[i] == link.(pageNumber := link.pageNumber + i)
    decreases totalPages - link.pageNumber
  {
    assert Query(repository, link.date, link.pageNumber, link.pageSize).totalPages == totalPages;
    if link.pageNumber < totalPages {
      WalkVisitsEachPage(repository, link.(pageNumber := link.pageNumber + 1), totalPages);
    }
  }

  /** FindById's answer: NotFound, or Ok with what the repository returned. */
  datatype FindResult = NotFound | Ok(forecast: Option<WeatherForecast>)

  /** GET weatherforecast/{id}: NotFound exactly when `id > FindAll().Count`;
      otherwise the repository's FindById is asked. */
  function FindById(repository: PaginatedRepository, id: int): (r: FindResult)
    ensures r.NotFound? <==> id > |repository.findAll|
    ensures r.Ok? ==> r.forecast == repository.findById(id)
  {
    if id > |repository.findAll| then FindResult.NotFound else FindResult.Ok(repository.findById(id))
  }
}
