/**
 * Pagination of the two process tables: reading the caption and hidden
 * fields of a group (listar_processos_sei.py:661-737), the form posted to
 * move a group to another page (740-784), and the pages visited (821-835).
 */
module Pagination {
  import opened Wrappers
  import opened Text
  import opened Records
  import opened FormCodec

  // ---------------------------------------------------------------------------
  // Splitting the comma-separated hidden item list

  /** Python's `s.split(sep)` for a one-character separator. */
  function SplitOn(s: string, sep: char): (parts: seq<string>)
    ensures |parts| >= 1
    ensures forall i :: 0 <= i < |parts| ==> sep !in parts[i]
    decreases |s|
  {
    if s == [] then [""]
    else
      var rest := SplitOn(s[1..], sep);
      if s[0] == sep then [""] + rest
      else [[s[0]] + rest[0]] + rest[1..]
  }

  /** Joining the pieces back with the separator gives the original string. */
  lemma {:induction false} SplitJoin(s: string, sep: char)
    ensures Join(SplitOn(s, sep), [sep]) == s
    decreases |s|
  {
    if s != [] {
      var rest := SplitOn(s[1..], sep);
      SplitJoin(s[1..], sep);
      var parts := SplitOn(s, sep);
      if s[0] == sep {
        assert parts[1..] == rest;
      } else {
        if |rest| == 1 {
          assert parts == [[s[0]] + rest[0]];
        } else {
          assert parts[1..] == rest[1..];
          assert Join(rest, [sep]) == rest[0] + [sep] + Join(rest[1..], [sep]);
        }
      }
    }
  }

  function NonEmptyCount(parts: seq<string>): (n: nat)
    ensures n <= |parts|
    decreases |parts|
  {
    if parts == [] then 0
    else (if parts[0] != "" then 1 else 0) + NonEmptyCount(parts[1..])
  }

  /** `len([item for item in s.split(",") if item])`. */
  function CountItems(s: string): nat {
    NonEmptyCount(SplitOn(s, ','))
  }

  /** A list with no empty item has as many items as separators plus one. */
  lemma {:induction false} CountItemsNoEmpty(parts: seq<string>)
    requires forall i :: 0 <= i < |parts| ==> parts[i] != ""
    ensures NonEmptyCount(parts) == |parts|
    decreases |parts|
  {
    if parts != [] {
      CountItemsNoEmpty(parts[1..]);
    }
  }

  // ---------------------------------------------------------------------------
  // What a page shows for one group

  /**
   * The table caption, as the two searches `(\d+)\s+registros` and
   * `-\s*(\d+)\s*a\s*(\d+)` read it.
   */
  datatype Caption = Caption(registros: Option<nat>, intervalo: Option<(nat, nat)>)

  datatype TableView = TableView(caption: Option<Caption>, rows: seq<RowView>)

  /**
   * One group ("Recebidos" or "Gerados") of the control page: its table,
   * when present, and the `value` of its hidden fields ("" when the field or
   * the attribute is absent).
   */
  datatype GroupView = GroupView(table: Option<TableView>, hdnNroItens: string, hdnItens: string, hdnPaginaAtual: string)

  /** A control page: the `frmProcedimentoControlar` form when present, and its two groups. */
  datatype Page = Page(form: Option<Form>, recebidos: GroupView, gerados: GroupView)

  function Group(page: Page, grupo: Category): GroupView {
    match grupo
    case Recebidos => page.recebidos
    case Gerados => page.gerados
  }

  /** The rows `extrair_processos` walks for a group; `None` when the table is absent. */
  function TableRows(g: GroupView): Option<seq<RowView>> {
    match g.table
    case None => None
    case Some(t) => Some(t.rows)
  }

  datatype PaginationInfo = PaginationInfo(totalRegistros: int, paginaAtual: int, totalPaginas: int, itensPorPagina: int)

  /**
   * `_parse_caption_info`: the record total, and the page size as the width
   * of the "a to b" range, falling back to the total when that width is 0.
   */
  function ParseCaptionInfo(c: Caption): (r: (nat, nat))
    ensures r.0 == c.registros.GetOr(0)
    ensures c.intervalo.Some? && c.intervalo.value.0 <= c.intervalo.value.1 ==>
      r.1 == c.intervalo.value.1 - c.intervalo.value.0 + 1
    ensures r.1 == 0 <==> r.0 == 0 && (c.intervalo.None? || c.intervalo.value.1 < c.intervalo.value.0)
    ensures c.intervalo.None? || c.intervalo.value.1 < c.intervalo.value.0 ==> r.1 == r.0
  {
    var total := c.registros.GetOr(0);
    var size := match c.intervalo
      case None => 0
      case Some(range) => if range.1 - range.0 + 1 > 0 then range.1 - range.0 + 1 else 0;
    if size == 0 && total != 0 then (total, total) else (total, size)
  }

  function CaptionTotals(g: GroupView): (nat, nat) {
    match g.table
    case None => (0, 0)
    case Some(t) =>
      match t.caption
      case None => (0, 0)
      case Some(c) => ParseCaptionInfo(c)
  }

  function RowCount(g: GroupView): nat {
    match g.table
    case None => 0
    case Some(t) => |t.rows|
  }

  /** The record total: the caption's, else the row count, else the number of hidden items. */
  function TotalSpec(g: GroupView): nat {
    var t := CaptionTotals(g).0;
    if t > 0 then t
    else if RowCount(g) > 0 then RowCount(g)
    else if g.hdnItens != "" then CountItems(g.hdnItens)
    else 0
  }

  /**
   * The page size: the caption's, else the row count, else a positive
   * `hdnNroItens`, else the total (at least 1).
   */
  function SizeSpec(g: GroupView): int {
    var s := CaptionTotals(g).1;
    var fallback := if TotalSpec(g) > 0 then TotalSpec(g) else 1;
    if s > 0 then s
    else if RowCount(g) > 0 then RowCount(g)
    else match ParseInt(g.hdnNroItens)
      case Some(n) => if n > 0 then n else fallback
      case None => fallback
  }

  /** The current page: `hdnPaginaAtual` when it parses, else 0. */
  function PageSpec(g: GroupView): int {
    ParseInt(g.hdnPaginaAtual).GetOr(0)
  }

  /** `math.ceil(t / s)` for a non-negative `t` and a positive `s`. */
  function CeilDiv(t: nat, s: int): nat
    requires s >= 1
  {
    (t + s - 1) / s
  }

  /** `CeilDiv(t, s)` is the least number of pages of `s` items that hold `t` items. */
  lemma CeilDivLeast(t: nat, s: int)
    requires s >= 1
    ensures CeilDiv(t, s) * s >= t
    ensures CeilDiv(t, s) > 0 ==> (CeilDiv(t, s) - 1) * s < t
  {
    var q := (t + s - 1) / s;
    var r := (t + s - 1) % s;
    assert t + s - 1 == q * s + r && 0 <= r < s;
    assert (q - 1) * s == q * s - s;
  }

  function InfoSpec(g: GroupView): PaginationInfo {
    var total := TotalSpec(g);
    var size := SizeSpec(g);
    var pages := if CeilDiv(total, size) > 1 then CeilDiv(total, size) else 1;
    PaginationInfo(total, PageSpec(g), pages, size)
  }

  /**
   * The group's numbers: a non-negative total, a positive page size, and a
   * page count that is the least `p >= 1` whose `p` pages hold the total.
   */
  lemma InfoShape(g: GroupView)
    ensures var info := InfoSpec(g);
      info.totalRegistros >= 0 && info.itensPorPagina >= 1 && info.totalPaginas >= 1 &&
      info.totalPaginas * info.itensPorPagina >= info.totalRegistros &&
      (info.totalPaginas == 1 || (info.totalPaginas - 1) * info.itensPorPagina < info.totalRegistros)
  {
    CeilDivLeast(TotalSpec(g), SizeSpec(g));
    var info := InfoSpec(g);
    if CeilDiv(TotalSpec(g), SizeSpec(g)) <= 1 {
      assert info.totalPaginas == 1;
      assert info.itensPorPagina * 1 >= info.totalRegistros;
    }
  }

  /** A caption "1 a 10" over "15 registros" gives pages of 10 and two pages. */
  lemma CaptionRangeExample(rows: seq<RowView>, g: GroupView)
    requires g.table == Some(TableView(Some(Caption(Some(15), Some((1, 10)))), rows))
    ensures InfoSpec(g).itensPorPagina == 10 && InfoSpec(g).totalPaginas == 2
  {
    assert CeilDiv(15, 10) == 2;
  }

  /**
   * A caption with a record total but no range takes the total as the page
   * size, so the group is read as a single page whatever the number of rows.
   */
  lemma CaptionWithoutRangeOnePage(g: GroupView, n: nat)
    requires n > 0 && g.table.Some? && g.table.value.caption == Some(Caption(Some(n), None))
    ensures InfoSpec(g).itensPorPagina == n && InfoSpec(g).totalPaginas == 1
  {
    assert CaptionTotals(g) == (n, n);
    assert TotalSpec(g) == n && SizeSpec(g) == n;
    assert CeilDiv(n, n) == 1 by { assert n + n - 1 == 1 * n + (n - 1); }
  }

  /** `obter_paginacao_info` for one group, following the source's order of fallbacks. */
  method ObterPaginacaoInfo(g: GroupView) returns (info: PaginationInfo)
    ensures info == InfoSpec(g)
  {
    var totalRegistros: int := 0;
    var itensPorPagina: int := 0;
    if g.table.Some? {
      var tabela := g.table.value;
      if tabela.caption.Some? {
        var c := ParseCaptionInfo(tabela.caption.value);
        totalRegistros, itensPorPagina := c.0, c.1;
      }
      var linhas := |tabela.rows|;
      if itensPorPagina <= 0 && linhas > 0 {
        itensPorPagina := linhas;
      }
      if totalRegistros <= 0 && linhas > 0 {
        totalRegistros := linhas;
      }
    }
    if g.hdnNroItens != "" {
      var nroItens := ParseInt(g.hdnNroItens);
      if nroItens.Some? && itensPorPagina <= 0 {
        itensPorPagina := nroItens.value;
      }
    }
    if totalRegistros <= 0 && g.hdnItens != "" {
      totalRegistros := CountItems(g.hdnItens);
    }
    assert totalRegistros == TotalSpec(g);
    var paginaAtual := 0;
    if g.hdnPaginaAtual != "" {
      var p := ParseInt(g.hdnPaginaAtual);
      paginaAtual := if p.Some? then p.value else 0;
    }
    if itensPorPagina <= 0 {
      var base := if totalRegistros != 0 then totalRegistros else 1;
      itensPorPagina := if base > 1 then base else 1;
    }
    assert itensPorPagina == SizeSpec(g);
    var totalPaginas := CeilDiv(totalRegistros, itensPorPagina);
    if totalPaginas < 1 {
      totalPaginas := 1;
    }
    info := PaginationInfo(totalRegistros, paginaAtual, totalPaginas, itensPorPagina);
  }

  // ---------------------------------------------------------------------------
  // Moving a group to another page

  function PagerTop(grupo: Category): string { "sel" + CategoryName(grupo) + "PaginacaoSuperior" }
  function PagerBottom(grupo: Category): string { "sel" + CategoryName(grupo) + "PaginacaoInferior" }
  function PageField(grupo: Category): string { "hdn" + CategoryName(grupo) + "PaginaAtual" }

  datatype PaginationError = ControlFormNotFound | PaginationUnavailable(grupo: Category)

  /**
   * Lines 758-772 on the serialised form `data`: whichever of the group's two
   * page selectors and its hidden page field are present are set to
   * `str(destino)`; a form without the hidden page field is an error.
   */
  function OverridePager(data: FormData, grupo: Category, destino: int): (r: Result<FormData, PaginationError>)
    ensures r.Err? <==> PageField(grupo) !in data
    ensures r.Err? ==> r.error == PaginationUnavailable(grupo)
    ensures r.Ok? ==> r.value.Keys == data.Keys
    ensures r.Ok? ==> forall k :: k in r.value ==>
      r.value[k] == if k in {PagerTop(grupo), PagerBottom(grupo), PageField(grupo)} then DecimalString(destino) else data[k]
  {
    var alvo := DecimalString(destino);
    var top, bottom, hidden := PagerTop(grupo), PagerBottom(grupo), PageField(grupo);
    var d1 := if top in data then data[top := alvo] else data;
    var d2 := if bottom in d1 then d1[bottom := alvo] else d1;
    if hidden in d2 then Ok(d2[hidden := alvo]) else Err(PaginationUnavailable(grupo))
  }

  /**
   * The form data `submeter_paginacao` posts: the serialised control form
   * with whichever of the group's two page selectors and its hidden page
   * field are present set to `str(destino)`. A page without the form, or
   * whose form lacks the hidden page field, is an error and nothing is
   * posted.
   */
  function PaginationData(form: Option<Form>, grupo: Category, destino: int): (r: Result<FormData, PaginationError>)
    ensures form.None? ==> r == Err(ControlFormNotFound)
    ensures form.Some? ==> (r.Err? <==> PageField(grupo) !in FormSpec(form.value))
    ensures form.Some? && r.Err? ==> r.error == PaginationUnavailable(grupo)
    ensures r.Ok? ==> r.value.Keys == FormSpec(form.value).Keys
    ensures r.Ok? ==> forall k :: k in r.value ==>
      r.value[k] == if k in {PagerTop(grupo), PagerBottom(grupo), PageField(grupo)} then DecimalString(destino) else FormSpec(form.value)[k]
  {
    match form
    case None => Err(ControlFormNotFound)
    case Some(f) => OverridePager(FormSpec(f), grupo, destino)
  }

  /**
   * The page number posted is the one the next page reports: when the
   * server echoes the posted hidden field, `obter_paginacao_info` reads
   * back `destino`.
   */
  lemma PostedPageReadsBack(form: Option<Form>, grupo: Category, destino: int, g: GroupView)
    requires PaginationData(form, grupo, destino).Ok?
    requires g.hdnPaginaAtual == PaginationData(form, grupo, destino).value[PageField(grupo)]
    ensures InfoSpec(g).paginaAtual == destino
  {
    DecimalRoundTrip(destino);
  }

  /** The pages visited after the initial one: `range(pagina_atual + 1, total_paginas)`, only when there is more than one page. */
  function PagePlan(info: PaginationInfo): (plan: seq<int>)
    ensures info.totalPaginas <= 1 ==> plan == []
    ensures forall i :: 0 <= i < |plan| ==> info.paginaAtual < plan[i] < info.totalPaginas
    ensures forall i :: 0 <= i < |plan| ==> plan[i] == info.paginaAtual + 1 + i
    ensures info.totalPaginas > 1 && info.paginaAtual + 1 < info.totalPaginas ==> |plan| == info.totalPaginas - info.paginaAtual - 1
  {
    if info.totalPaginas > 1 && info.paginaAtual + 1 < info.totalPaginas then
      seq(info.totalPaginas - info.paginaAtual - 1, i => info.paginaAtual + 1 + i)
    else []
  }

  /** Consecutive pages from `pagina_atual + 1` are a prefix of the plan, and the whole plan once they reach the last page. */
  lemma PlanPrefix(info: PaginationInfo, requests: seq<int>)
    requires info.totalPaginas > 1
    requires requests == [] || info.paginaAtual + 1 + |requests| <= info.totalPaginas
    requires forall i :: 0 <= i < |requests| ==> requests[i] == info.paginaAtual + 1 + i
    ensures requests <= PagePlan(info)
    ensures info.paginaAtual + 1 + |requests| >= info.totalPaginas ==> requests == PagePlan(info)
  {
    var plan := PagePlan(info);
    if requests != [] {
      assert requests == plan[..|requests|];
    }
  }
}
