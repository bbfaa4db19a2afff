/**
 * `coletar_processos_com_paginacao` (listar_processos_sei.py:797-843): the
 * records of the initial control page, then those of each further page of
 * "Recebidos" and of "Gerados", accumulated without duplicates. The portal
 * is a function from the posted form data to the next page, or `None` for a
 * transport failure.
 */
module Collect {
  import opened Wrappers
  import opened Records
  import opened FormCodec
  import opened Aggregation
  import opened Extraction
  import opened Pagination
  import opened Errors

  /** The de-duplicated records of one control page. */
  function PageRecordsOf(page: Page): seq<Processo> {
    PageProcesses(TableRows(page.recebidos), TableRows(page.gerados))
  }

  /** The lists one after the other. */
  function Concat<T>(xs: seq<seq<T>>): seq<T>
    decreases |xs|
  {
    if xs == [] then [] else Concat(xs[..|xs| - 1]) + xs[|xs| - 1]
  }

  lemma ConcatSnoc<T>(xs: seq<seq<T>>, x: seq<T>)
    ensures Concat(xs + [x]) == Concat(xs) + x
  {
    assert (xs + [x])[..|xs|] == xs;
  }

  lemma {:induction false} ConcatAppend<T>(a: seq<seq<T>>, b: seq<seq<T>>)
    ensures Concat(a + b) == Concat(a) + Concat(b)
    decreases |b|
  {
    if b == [] {
      assert a + b == a;
    } else {
      var b' := b[..|b| - 1];
      ConcatAppend(a, b');
      assert (a + b)[..|a + b| - 1] == a + b';
    }
  }

  /** The de-duplicated records of each page visited. */
  function Batches(visited: seq<Page>): (r: seq<seq<Processo>>)
    ensures |r| == |visited|
    ensures forall i :: 0 <= i < |visited| ==> r[i] == PageRecordsOf(visited[i])
  {
    seq(|visited|, i requires 0 <= i < |visited| => PageRecordsOf(visited[i]))
  }

  /** The records of the pages visited, page after page. */
  function AllRecords(visited: seq<Page>): seq<Processo> {
    Concat(Batches(visited))
  }

  lemma AllRecordsSnoc(visited: seq<Page>, p: Page)
    ensures AllRecords(visited + [p]) == AllRecords(visited) + PageRecordsOf(p)
  {
    assert Batches(visited + [p]) == Batches(visited) + [PageRecordsOf(p)];
    ConcatSnoc(Batches(visited), PageRecordsOf(p));
  }

  lemma BatchesConcat(a: seq<Page>, b: seq<Page>)
    ensures Batches(a + b) == Batches(a) + Batches(b)
  {
    var l, r := Batches(a + b), Batches(a) + Batches(b);
    forall i | 0 <= i < |l|
      ensures l[i] == r[i]
    {
      if i < |a| {
        assert (a + b)[i] == a[i];
      } else {
        assert (a + b)[i] == b[i - |a|];
      }
    }
  }

  lemma AllRecordsConcat(a: seq<Page>, b: seq<Page>)
    ensures AllRecords(a + b) == AllRecords(a) + AllRecords(b)
  {
    BatchesConcat(a, b);
    ConcatAppend(Batches(a), Batches(b));
  }

  /** The failure a pagination request reports: `SEIProcessoError`. */
  function PaginationFailure(e: PaginationError): Outcome {
    match e
    case ControlFormNotFound => Raised(ProcessoError(Errors.ControlFormNotFound))
    case PaginationUnavailable(_) => Raised(ProcessoError(Errors.PaginationUnavailable))
  }

  /** The page whose form the `i`-th request of a walk from `start` uses. */
  function FormPage(start: Page, visited: seq<Page>, i: nat): Page
    requires i <= |visited|
  {
    if i == 0 then start else visited[i - 1]
  }

  /** The pagination request of a group, as a function of the page's form and the page wanted. */
  function Requester(grupo: Category): (Option<Form>, int) -> Result<FormData, PaginationError> {
    (form: Option<Form>, destino: int) => PaginationData(form, grupo, destino)
  }

  /**
   * `requests`, `posted` and `visited` record a walk from `start`: the
   * `i`-th request posts what `request` builds from the form of the page
   * before it (the start page for the first) for page `requests[i]`, and the
   * portal answers it with `visited[i]`.
   */
  ghost predicate Walked(start: Page, request: (Option<Form>, int) -> Result<FormData, PaginationError>, server: FormData -> Option<Page>,
                         requests: seq<int>, posted: seq<FormData>, visited: seq<Page>)
    decreases |requests|
  {
    |posted| == |requests| && |visited| == |requests| &&
    (requests != [] ==>
      var n := |requests| - 1;
      Walked(start, request, server, requests[..n], posted[..n], visited[..n]) &&
      request(FormPage(start, visited, n).form, requests[n]) == Ok(posted[n]) &&
      server(posted[n]) == Some(visited[n]))
  }

  /** One more request extends the walk. */
  lemma WalkedSnoc(start: Page, request: (Option<Form>, int) -> Result<FormData, PaginationError>, server: FormData -> Option<Page>,
                   requests: seq<int>, posted: seq<FormData>, visited: seq<Page>, p: int, data: FormData, next: Page)
    requires Walked(start, request, server, requests, posted, visited)
    requires request(FormPage(start, visited, |visited|).form, p) == Ok(data) && server(data) == Some(next)
    ensures Walked(start, request, server, requests + [p], posted + [data], visited + [next])
  {
    var n := |requests|;
    assert (requests + [p])[..n] == requests && (posted + [data])[..n] == posted && (visited + [next])[..n] == visited;
    assert FormPage(start, visited + [next], n) == FormPage(start, visited, n);
  }

  /** A step recorded in a prefix of a walk is recorded in the whole walk. */
  lemma WalkedPrefixPoint(start: Page, request: (Option<Form>, int) -> Result<FormData, PaginationError>, server: FormData -> Option<Page>,
                          requests: seq<int>, posted: seq<FormData>, visited: seq<Page>, n: nat, i: nat)
    requires |posted| == |requests| && |visited| == |requests| && i < n <= |requests|
    requires request(FormPage(start, visited[..n], i).form, requests[..n][i]) == Ok(posted[..n][i])
    requires server(posted[..n][i]) == Some(visited[..n][i])
    ensures request(FormPage(start, visited, i).form, requests[i]) == Ok(posted[i]) && server(posted[i]) == Some(visited[i])
  {
    assert FormPage(start, visited, i) == FormPage(start, visited[..n], i);
  }

  /** Read pointwise: each request was built from the form of the page before it, and the portal answered it with the page visited. */
  lemma {:induction false} WalkedPointwise(start: Page, request: (Option<Form>, int) -> Result<FormData, PaginationError>, server: FormData -> Option<Page>,
                                           requests: seq<int>, posted: seq<FormData>, visited: seq<Page>)
    requires Walked(start, request, server, requests, posted, visited)
    ensures forall i :: 0 <= i < |posted| ==>
      request(FormPage(start, visited, i).form, requests[i]) == Ok(posted[i]) && server(posted[i]) == Some(visited[i])
    decreases |requests|
  {
    if requests != [] {
      var n := |requests| - 1;
      var requests', posted', visited' := requests[..n], posted[..n], visited[..n];
      assert Walked(start, request, server, requests', posted', visited');
      WalkedPointwise(start, request, server, requests', posted', visited');
      forall i | 0 <= i < |posted|
        ensures request(FormPage(start, visited, i).form, requests[i]) == Ok(posted[i]) && server(posted[i]) == Some(visited[i])
      {
        if i < n {
          WalkedPrefixPoint(start, request, server, requests, posted, visited, n, i);
        }
      }
    }
  }

  /** Appending the next number keeps a run of consecutive page numbers consecutive. */
  lemma ConsecutiveSnoc(pages: seq<int>, first: int, next: int)
    requires forall i :: 0 <= i < |pages| ==> pages[i] == first + i
    requires next == first + |pages|
    ensures forall i :: 0 <= i < |pages + [next]| ==> (pages + [next])[i] == first + i
  {
  }

  /**
   * One request of a page loop (`submeter_paginacao` followed by
   * `extrair_processos`): the data posted, the page received and its
   * de-duplicated records. `request` builds the form data from the current
   * page's form and the page wanted.
   */
  method VisitPage(html: Page, request: (Option<Form>, int) -> Result<FormData, PaginationError>, pagina: int, server: FormData -> Option<Page>)
    returns (r: Result<(FormData, Page, seq<Processo>), Outcome>)
    ensures r.Ok? ==> request(html.form, pagina) == Ok(r.value.0) && server(r.value.0) == Some(r.value.1)
    ensures r.Ok? ==> r.value.2 == PageRecordsOf(r.value.1)
    ensures r.Err? ==> (r.error.Unexpected? <==> request(html.form, pagina).Ok?)
    ensures r.Err? ==> r.error.Unexpected? || r.error.Raised?
  {
    var data := request(html.form, pagina);
    if data.Err? {
      return Err(PaginationFailure(data.error));
    }
    var resposta := server(data.value);
    if resposta.None? {
      return Err(Unexpected);
    }
    var proxima := resposta.value;
    var novos := ExtrairProcessos(TableRows(proxima.recebidos), TableRows(proxima.gerados));
    return Ok((data.value, proxima, novos));
  }

  /**
   * One of the two page loops: pages `pagina_atual + 1 .. total_paginas - 1`
   * of `grupo`, each requested with the form of the page before it.
   * A page that cannot be requested raises `SEIProcessoError`; a transport
   * failure escapes as an unexpected exception.
   */
  method WalkGroup(start: Page, request: (Option<Form>, int) -> Result<FormData, PaginationError>, info: PaginationInfo,
                   server: FormData -> Option<Page>, processos0: seq<Processo>)
    returns (r: Result<seq<Processo>, Outcome>, requests: seq<int>, posted: seq<FormData>, ghost visited: seq<Page>)
    ensures requests <= PagePlan(info)
    ensures r.Ok? ==> requests == PagePlan(info)
    ensures r.Ok? ==> r.value == AddAll(processos0, AllRecords(visited))
    ensures r.Err? ==> r.error.Unexpected? || r.error.Raised?
    ensures Walked(start, request, server, requests, posted, visited)
  {
    var processos := processos0;
    requests, posted, visited := [], [], [];
    if info.totalPaginas <= 1 {
      assert PagePlan(info) == [];
      return Ok(processos), requests, posted, visited;
    }
    var html := start;
    var pagina := info.paginaAtual + 1;
    while pagina < info.totalPaginas
      invariant info.paginaAtual + 1 <= pagina
      invariant pagina > info.paginaAtual + 1 ==> pagina <= info.totalPaginas
      invariant |requests| == pagina - info.paginaAtual - 1
      invariant forall i :: 0 <= i < |requests| ==> requests[i] == info.paginaAtual + 1 + i
      invariant processos == AddAll(processos0, AllRecords(visited))
      invariant Walked(start, request, server, requests, posted, visited)
      invariant html == FormPage(start, visited, |visited|)
    {
      PlanPrefix(info, requests);
      var passo := VisitPage(html, request, pagina, server);
      if passo.Err? {
        return Err(passo.error), requests, posted, visited;
      }
      var (data, proxima, novos) := passo.value;
      AddAllBatches(processos0, AllRecords(visited), novos);
      AllRecordsSnoc(visited, proxima);
      WalkedSnoc(start, request, server, requests, posted, visited, pagina, data, proxima);
      ConsecutiveSnoc(requests, info.paginaAtual + 1, pagina);
      processos := Adicionar(processos, novos);
      requests, posted, visited := requests + [pagina], posted + [data], visited + [proxima];
      html := proxima;
      pagina := pagina + 1;
    }
    PlanPrefix(info, requests);
    return Ok(processos), requests, posted, visited;
  }

  /** Accumulating the initial records, then one batch, then another, is accumulating them all at once. */
  lemma AccumulateTwice(iniciais: seq<Processo>, a: seq<Processo>, b: seq<Processo>, afterA: seq<Processo>, afterB: seq<Processo>)
    requires afterA == AddAll(AddAll([], iniciais), a)
    requires afterB == AddAll(afterA, b)
    ensures afterB == AddAll([], iniciais + (a + b))
  {
    AddAllBatches([], iniciais, a);
    AddAllBatches([], iniciais + a, b);
    assert iniciais + a + b == iniciais + (a + b);
  }

  /**
   * The whole collection. The pages of "Recebidos" are requested first, then
   * those of "Gerados", each group's plan read from the initial page and
   * each walk starting from the initial page's form. On success every
   * planned page was visited, and the result is the first-seen
   * de-duplication of the initial page's records followed by the records of
   * every page visited.
   */
  method Coletar(initial: Page, server: FormData -> Option<Page>)
    returns (r: Result<seq<Processo>, Outcome>, requestsR: seq<int>, postedR: seq<FormData>, requestsG: seq<int>, postedG: seq<FormData>,
             ghost visitedR: seq<Page>, ghost visitedG: seq<Page>)
    ensures requestsR <= PagePlan(InfoSpec(initial.recebidos)) && requestsG <= PagePlan(InfoSpec(initial.gerados))
    ensures requestsG != [] ==> requestsR == PagePlan(InfoSpec(initial.recebidos))
    ensures r.Ok? ==> requestsR == PagePlan(InfoSpec(initial.recebidos)) && requestsG == PagePlan(InfoSpec(initial.gerados))
    ensures Walked(initial, Requester(Recebidos), server, requestsR, postedR, visitedR)
    ensures Walked(initial, Requester(Gerados), server, requestsG, postedG, visitedG)
    ensures r.Ok? ==> r.value == AddAll([], PageRecordsOf(initial) + AllRecords(visitedR + visitedG))
    ensures r.Err? ==> r.error.Unexpected? || r.error.Raised?
  {
    var infoR := ObterPaginacaoInfo(initial.recebidos);
    var infoG := ObterPaginacaoInfo(initial.gerados);
    var iniciais := ExtrairProcessos(TableRows(initial.recebidos), TableRows(initial.gerados));
    var processos := Adicionar([], iniciais);
    var rR;
    rR, requestsR, postedR, visitedR := WalkGroup(initial, Requester(Recebidos), infoR, server, processos);
    requestsG, postedG, visitedG := [], [], [];
    if rR.Err? {
      return Err(rR.error), requestsR, postedR, requestsG, postedG, visitedR, visitedG;
    }
    var rG;
    rG, requestsG, postedG, visitedG := WalkGroup(initial, Requester(Gerados), infoG, server, rR.value);
    if rG.Err? {
      return Err(rG.error), requestsR, postedR, requestsG, postedG, visitedR, visitedG;
    }
    AccumulateTwice(iniciais, AllRecords(visitedR), AllRecords(visitedG), rR.value, rG.value);
    AllRecordsConcat(visitedR, visitedG);
    r := Ok(rG.value);
  }

  /**
   * What the collection returns has distinct, non-empty keys, and begins
   * with the records of the initial page.
   */
  lemma CollectedShape(initial: Page, later: seq<Processo>)
    ensures UniqueKeys(AddAll([], PageRecordsOf(initial) + later), ByKey)
    ensures forall q :: q in AddAll([], PageRecordsOf(initial) + later) ==> Key(q) != ""
    ensures AddAll([], PageRecordsOf(initial)) <= AddAll([], PageRecordsOf(initial) + later)
  {
    var init := PageRecordsOf(initial);
    AddAllUnique([], init + later);
    AddAllBatches([], init, later);
    assert AddAll([], init + later) == [] + AddAll([], init + later);
  }
}
