/**
 * The `Processo` record, its identity, how one table row becomes a record
 * (listar_processos_sei.py:478-497, 143-147, 548-630) and the spreadsheet row
 * written for it (866-900). What BeautifulSoup, `re` and `urllib.parse` would
 * compute from the row's markup is given in a `RowView`.
 */
module Records {
  import opened Wrappers
  import opened Text
  import Canon

  datatype Category = Recebidos | Gerados

  function CategoryName(c: Category): string {
    match c
    case Recebidos => "Recebidos"
    case Gerados => "Gerados"
  }

  datatype Processo = Processo(
    numeroProcesso: string,
    idProcedimento: string,
    url: string,
    visualizado: bool,
    categoria: Category,
    titulo: Option<string>,
    tipoEspecificidade: Option<string>,
    responsavelNome: Option<string>,
    responsavelCpf: Option<string>,
    marcadores: seq<string>,
    temDocumentosNovos: bool,
    temAnotacoes: bool,
    hash: string)

  /** Identity used by `_adicionar_processos`: `id_procedimento or numero_processo`. */
  function Key(p: Processo): string {
    if p.idProcedimento != "" then p.idProcedimento else p.numeroProcesso
  }

  function StartsWith(s: string, prefix: string): bool {
    |prefix| <= |s| && s[..|prefix|] == prefix
  }

  /**
   * `absolute_to_sei`: an href starting with "http" is kept as it is;
   * otherwise the result of `urljoin` against the portal base is used, given
   * here as `joined`.
   */
  function AbsoluteToSei(href: string, joined: string): (url: string)
    ensures StartsWith(href, "http") ==> url == href
    ensures !StartsWith(href, "http") ==> url == joined
  {
    if StartsWith(href, "http") then href else joined
  }

  /**
   * `parse_tooltip`: `onmouseover` is the attribute text ("" when absent) and
   * `groups` the two captures of the tooltip pattern when it matched. An
   * empty capture gives `None`; any other is stripped.
   */
  function ParseTooltip(onmouseover: string, groups: Option<(string, string)>): (r: (Option<string>, Option<string>))
    ensures r.0.Some? <==> onmouseover != "" && groups.Some? && groups.value.0 != ""
    ensures r.1.Some? <==> onmouseover != "" && groups.Some? && groups.value.1 != ""
    ensures r.0.Some? ==> r.0.value == Strip(groups.value.0)
    ensures r.1.Some? ==> r.1.value == Strip(groups.value.1)
  {
    if onmouseover == "" then (None, None)
    else match groups
      case None => (None, None)
      case Some(g) =>
        (if g.0 != "" then Some(Strip(g.0)) else None, if g.1 != "" then Some(Strip(g.1)) else None)
  }

  /** `str.replace(pattern, "")`: removes the occurrences found scanning left to right. */
  function RemoveAll(s: string, pattern: string): string
    requires pattern != []
    decreases |s|
  {
    if |s| < |pattern| then s
    else if s[..|pattern|] == pattern then RemoveAll(s[|pattern|..], pattern)
    else [s[0]] + RemoveAll(s[1..], pattern)
  }

  lemma {:induction false} RemoveAllAbsent(s: string, pattern: string)
    requires pattern != [] && !Contains(s, pattern)
    ensures RemoveAll(s, pattern) == s
    decreases |s|
  {
    if |s| >= |pattern| {
      assert s[..|pattern|] != pattern by { assert !OccursAt(s, pattern, 0); }
      RemoveAllAbsent(s[1..], pattern);
    }
  }

  const AssignedPrefix: string := "Atribu\U{ED}do para "

  /** The responsible person's name: a "title" of the form prefix + name yields the name. */
  lemma ResponsibleName(name: string)
    requires !Contains(name, AssignedPrefix)
    ensures RemoveAll(AssignedPrefix + name, AssignedPrefix) == name
  {
    var s := AssignedPrefix + name;
    assert s[..|AssignedPrefix|] == AssignedPrefix;
    assert s[|AssignedPrefix|..] == name;
    RemoveAllAbsent(name, AssignedPrefix);
  }

  /** What the row's process link (`a[href*="acao=procedimento_trabalhar"]`) yields. */
  datatype LinkView = LinkView(
    textMatch: Option<string>,       // RE_PROCESSO on the link text
    titleMatch: Option<string>,      // ... on its "title"
    hrefMatch: Option<string>,       // ... on its "href"
    href: string,                    // "" when absent
    joinedUrl: string,               // urljoin of the href against the portal base
    classes: seq<string>,
    idParam: string,                 // "id_procedimento" query parameter of the URL, or ""
    hashParam: string,               // "infra_hash" query parameter of the URL, or ""
    onmouseover: string,             // "" when absent
    tooltip: Option<(string, string)>)

  /** The responsible-person link: its "title" ("" when absent) and its stripped text. */
  datatype ResponsibleView = ResponsibleView(title: string, text: string)

  /**
   * One `<tr>` of a results table. `markerCaptures` holds, for each marker
   * icon whose enclosing link carries a tooltip, the tooltip's first capture.
   */
  datatype RowView = RowView(
    link: Option<LinkView>,
    responsible: Option<ResponsibleView>,
    markerCaptures: seq<string>,
    hasNewDocumentsIcon: bool,
    hasAnnotationIcon: bool)

  /** `RE_PROCESSO.search(txt) or ... (title) or ... (href)`: the first of the three searches that matched. */
  function FirstMatch(l: LinkView): Option<string> {
    if l.textMatch.Some? then l.textMatch
    else if l.titleMatch.Some? then l.titleMatch
    else l.hrefMatch
  }

  function MarkerLabels(captures: seq<string>): (labels: seq<string>)
    ensures |labels| == |captures|
    ensures forall i :: 0 <= i < |captures| ==> labels[i] == Strip(captures[i])
  {
    seq(|captures|, i requires 0 <= i < |captures| => Strip(captures[i]))
  }

  /**
   * `extrair_processo_da_linha`: `None` for a row without a process link,
   * without a process number in any of the three places searched, or whose
   * link has no href; otherwise the record, with a canonical number and the
   * category of the table the row came from.
   */
  function ExtractRow(row: RowView, categoria: Category): (r: Option<Processo>)
    ensures r.Some? <==> row.link.Some? && FirstMatch(row.link.value).Some? && row.link.value.href != ""
    ensures r.Some? ==> r.value.categoria == categoria
    ensures r.Some? ==> r.value.numeroProcesso == Canon.Canonize(FirstMatch(row.link.value).value)
    ensures r.Some? ==> Canon.Canonical(r.value.numeroProcesso)
    ensures r.Some? ==> r.value.idProcedimento == row.link.value.idParam && r.value.hash == row.link.value.hashParam
    ensures r.Some? && StartsWith(row.link.value.href, "http") ==> r.value.url == row.link.value.href
    ensures r.Some? && !StartsWith(row.link.value.href, "http") ==> r.value.url == row.link.value.joinedUrl
    ensures r.Some? ==> (r.value.visualizado <==> "processoVisualizado" in row.link.value.classes)
    ensures r.Some? ==> (r.value.titulo, r.value.tipoEspecificidade) == ParseTooltip(row.link.value.onmouseover, row.link.value.tooltip)
    ensures r.Some? && row.responsible.Some? && row.responsible.value.title != "" ==>
      r.value.responsavelNome == Some(RemoveAll(row.responsible.value.title, AssignedPrefix))
    ensures r.Some? && (row.responsible.None? || row.responsible.value.title == "") ==> r.value.responsavelNome.None?
    ensures r.Some? ==> r.value.responsavelCpf == if row.responsible.Some? then Some(row.responsible.value.text) else None
    ensures r.Some? ==> |r.value.marcadores| == |row.markerCaptures|
    ensures r.Some? ==> forall i :: 0 <= i < |row.markerCaptures| ==> r.value.marcadores[i] == Strip(row.markerCaptures[i])
    ensures r.Some? ==> r.value.temDocumentosNovos == row.hasNewDocumentsIcon && r.value.temAnotacoes == row.hasAnnotationIcon
  {
    match row.link
    case None => None
    case Some(l) =>
      match FirstMatch(l)
      case None => None
      case Some(m) =>
        if l.href == "" then None
        else
          Canon.CanonizeShape(m);
          var tooltip := ParseTooltip(l.onmouseover, l.tooltip);
          var nome := match row.responsible
            case None => None
            case Some(resp) => if resp.title != "" then Some(RemoveAll(resp.title, AssignedPrefix)) else None;
          var cpf := match row.responsible
            case None => None
            case Some(resp) => Some(resp.text);
          Some(Processo(
            numeroProcesso := Canon.Canonize(m),
            idProcedimento := l.idParam,
            url := AbsoluteToSei(l.href, l.joinedUrl),
            visualizado := "processoVisualizado" in l.classes,
            categoria := categoria,
            titulo := tooltip.0,
            tipoEspecificidade := tooltip.1,
            responsavelNome := nome,
            responsavelCpf := cpf,
            marcadores := MarkerLabels(row.markerCaptures),
            temDocumentosNovos := row.hasNewDocumentsIcon,
            temAnotacoes := row.hasAnnotationIcon,
            hash := l.hashParam))
  }

  // ---------------------------------------------------------------------------
  // Spreadsheet row

  const Header: seq<string> := [
    "numero_processo", "categoria", "visualizado", "titulo", "tipo_especificidade",
    "responsavel_nome", "responsavel_cpf", "marcadores", "tem_documentos_novos",
    "tem_anotacoes", "id_procedimento", "hash", "url"]

  function YesNo(b: bool): string {
    if b then "Sim" else "N\U{E3}o"
  }

  /** `sep.join(items)`. */
  function Join(items: seq<string>, sep: string): string
    decreases |items|
  {
    if items == [] then ""
    else if |items| == 1 then items[0]
    else items[0] + sep + Join(items[1..], sep)
  }

  /** Total length of a list of strings. */
  function TotalLength(items: seq<string>): nat
    decreases |items|
  {
    if items == [] then 0 else |items[0]| + TotalLength(items[1..])
  }

  /** Joining adds exactly one separator between consecutive items and nothing else. */
  lemma {:induction false} JoinLength(items: seq<string>, sep: string)
    requires items != []
    ensures |Join(items, sep)| == TotalLength(items) + (|items| - 1) * |sep|
    decreases |items|
  {
    if |items| > 1 {
      JoinLength(items[1..], sep);
    }
  }

  function OrEmpty(o: Option<string>): string {
    o.GetOr("")
  }

  /** The row `exportar_processos_para_excel` appends for one record, one cell per header column. */
  function ExportRow(p: Processo): (row: seq<string>)
    ensures |row| == |Header|
    ensures row[0] == p.numeroProcesso && row[10] == p.idProcedimento && row[11] == p.hash && row[12] == p.url
    ensures row[1] == CategoryName(p.categoria)
    ensures row[2] == (if p.visualizado then "Sim" else "N\U{E3}o")
    ensures row[3..7] == [OrEmpty(p.titulo), OrEmpty(p.tipoEspecificidade), OrEmpty(p.responsavelNome), OrEmpty(p.responsavelCpf)]
    ensures row[7] == Join(p.marcadores, "; ")
    ensures row[8] == (if p.temDocumentosNovos then "Sim" else "N\U{E3}o")
    ensures row[9] == (if p.temAnotacoes then "Sim" else "N\U{E3}o")
  {
    [ p.numeroProcesso,
      CategoryName(p.categoria),
      YesNo(p.visualizado),
      OrEmpty(p.titulo),
      OrEmpty(p.tipoEspecificidade),
      OrEmpty(p.responsavelNome),
      OrEmpty(p.responsavelCpf),
      Join(p.marcadores, "; "),
      YesNo(p.temDocumentosNovos),
      YesNo(p.temAnotacoes),
      p.idProcedimento,
      p.hash,
      p.url ]
  }

  datatype ExportError = NothingToExport

  /** The rows of the workbook: the header, then one row per record; an empty list is refused. */
  function ExportRows(procs: seq<Processo>): (r: Result<seq<seq<string>>, ExportError>)
    ensures r.Err? <==> procs == []
    ensures r.Ok? ==> |r.value| == |procs| + 1 && r.value[0] == Header
    ensures r.Ok? ==> forall i :: 0 <= i < |procs| ==> r.value[i + 1] == ExportRow(procs[i])
  {
    if procs == [] then Err(NothingToExport)
    else Ok([Header] + seq(|procs|, i requires 0 <= i < |procs| => ExportRow(procs[i])))
  }
}
