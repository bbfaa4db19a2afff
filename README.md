# SEI process lister — a verified model of its deterministic core

`listar_processos_sei.py` logs in to SEI (Sistema Eletrônico de Informações),
switches to the configured unit when the current one differs, reads the
"Controle de Processos" page, walks the pagination of its two tables
(*Recebidos* and *Gerados*) and exports one spreadsheet row per process. This
project models, in Dafny, the parts of that program that decide what happens:

- `text.dfy` (`Text`): the Python string operations the program relies on
  (`str.strip`, `upper`/`lower`, `in`, `re.sub(r"\s+", " ", …)`, `int()` and
  `str()` on integers), with their properties.
- `canon.dfy` (`Canon`): `canonizar_processo`, the canonical form of a process
  number. It proves that the result is canonical, that the function is
  idempotent, that its fixed points are exactly the canonical strings, and
  that no visible character is lost.
- `form_codec.dfy` (`FormCodec`): serialising an HTML form into the request
  dictionary, covering inputs, selects, textareas, unchecked radio groups and
  the order in which they overwrite each other.
- `config.dfy` (`Config`): `_str_to_bool`, `load_settings`, `unidade_alvo` and
  the credential check of `executar_listagem`.
- `errors.dfy` (`Errors`): the exception families and the exit codes of
  `main`.
- `auth.dfy` (`Auth`): the login form, the classification of the login
  answer, and the test for a successful unit switch.
- `units.dfy` (`Units`): `selecionar_unidade_sei`, which finds the radio row
  of the target unit after normalising spaces and case, and the line-933 test
  for whether a switch is needed.
- `records.dfy` (`Records`): the `Processo` record, `absolute_to_sei`,
  `parse_tooltip`, `extrair_processo_da_linha` over a view of one table row,
  and the spreadsheet rows of `exportar_processos_para_excel`.
- `aggregation.dfy` (`Aggregation`): de-duplication by key, which covers both
  `extrair_processos` (by `id_procedimento`) and `_adicionar_processos` (by
  `id_procedimento`, falling back to the process number).
- `extraction.dfy` (`Extraction`): `extrair_processos` over the two tables of
  one page.
- `pagination.dfy` (`Pagination`): `_parse_caption_info`,
  `obter_paginacao_info` (with its fallbacks) and the request data built by
  `submeter_paginacao`.
- `collect.dfy` (`Collect`): `coletar_processos_com_paginacao`, the walk over
  the later pages of each group with the accumulated result.

The HTML documents are given to the model as views: the values the program
reads from them with BeautifulSoup and its regular expressions, such as a
row's link, the link's `href`, the first process-number match, the caption's
numbers and the hidden fields. Network calls are function parameters from the
posted data to the answer, or `None` when the request fails. Imperative code
(the serialisation loops, the row search, the extraction loop, the pagination
walk) is written as methods with loops. Each method is proved equal to a
specification function, and the properties are proved about that function.

Where the program's documentation and its code differ, the model follows the
code:

- `canonizar_processo` removes whitespace after a `.` (not before it) and on
  both sides of `/` and of the ASCII hyphen `-`, and nothing else inside the
  number. An en dash keeps its spaces (`Canon.EnDashSpacesKept`).
- Unit names are compared after collapsing runs of spaces. Spaces around a
  slash are not removed, so `"seplag / automatizamg"` does not select a row
  reading `"SEPLAG/AUTOMATIZAMG"` (`Units.SlashSpacingMatters`).
- Form serialisation fills inputs, then selects, then textareas into one
  dictionary. A select or textarea therefore overwrites an input of the same
  name.
- Missing credentials are detected by `executar_listagem` (lines 919-922) as a
  configuration error, before `login_sei` could raise its own login error.
  Both exit with code 10.
- `obter_paginacao_info` counts the rendered rows before it falls back to the
  hidden `hdnRecebidosNroItens` or `hdnGeradosNroItens` field of the group.
- A caption that gives a total but no range makes the page size equal to that
  total, so there is a single page.
- A network failure while paginating is not wrapped in an SEI error, so
  `main` reports it with exit code 99.

## Model

| member | source | states |
|---|---|---|
| Text.Strip | listar_processos_sei.py:525 | the result is the input with its leading and trailing whitespace (Python's `isspace` set) cut off, and it has no outer whitespace |
| Text.StripIdempotent | listar_processos_sei.py:525 | stripping twice is the same as stripping once |
| Text.StripNoOuterSpace | listar_processos_sei.py:525 | a string without outer whitespace is left unchanged by strip |
| Text.Contains | listar_processos_sei.py:302-308 | `sub in s` holds exactly when `sub` occurs at some index of `s` |
| Text.Upper | listar_processos_sei.py:418 | upper-casing keeps the length and upper-cases each character in place |
| Text.Lower | listar_processos_sei.py:86 | lower-casing keeps the length and lower-cases each character in place |
| Text.UpperStrip | listar_processos_sei.py:418 | upper-casing commutes with strip |
| Text.CollapseSpacesShape | listar_processos_sei.py:418 | after `re.sub(r"\s+", " ", …)` no two spaces are adjacent, every whitespace character is a plain space, the string is no longer, and whether it starts with whitespace is unchanged |
| Text.CollapseSpacesVisible | listar_processos_sei.py:418 | collapsing keeps every non-whitespace character, in order |
| Text.CollapseSpacesFixed | listar_processos_sei.py:418 | a string whose whitespace is already single plain spaces is unchanged |
| Text.DecimalRoundTrip | listar_processos_sei.py:759 | `int(str(n)) == n` for every integer, negative ones included |
| Canon.ReplaceNbsp | listar_processos_sei.py:521 | every no-break space becomes a space and every other character is kept |
| Canon.ReplaceNbspShape | listar_processos_sei.py:521 | the result has no no-break space, and a string without one is unchanged |
| Canon.SquashAfterDotClears | listar_processos_sei.py:522 | after the `\.\s+` rewrite no dot is followed by whitespace |
| Canon.SquashAfterDotVisible | listar_processos_sei.py:522 | the `\.\s+` rewrite removes only whitespace |
| Canon.SquashAfterDotFixes | listar_processos_sei.py:522 | the `\.\s+` rewrite leaves a string with no whitespace after a dot unchanged |
| Canon.SquashAroundClears | listar_processos_sei.py:523-524 | after the `\s*x\s*` rewrite, `x` has no whitespace on either side |
| Canon.SquashAroundVisible | listar_processos_sei.py:523-524 | the `\s*x\s*` rewrite removes only whitespace |
| Canon.SquashAroundKeepsAfter | listar_processos_sei.py:523-524 | the `/` and `-` rewrites do not put whitespace back after a dot |
| Canon.SquashAroundKeepsBefore | listar_processos_sei.py:523-524 | the `-` rewrite does not put whitespace back before a `/` |
| Canon.SquashAroundFixes | listar_processos_sei.py:523-524 | the `\s*x\s*` rewrite leaves a string already tight around `x` unchanged |
| Canon.StripVisible | listar_processos_sei.py:525 | the final strip removes only whitespace |
| Canon.StripKeeps | listar_processos_sei.py:525 | stripping keeps the "no whitespace next to `.`, `/`, `-`" properties |
| Canon.CanonizeShape | listar_processos_sei.py:519-525 | the canonical number has no no-break space, no whitespace after `.`, none around `/` or `-`, no outer whitespace, and the same non-whitespace characters in the same order as the input |
| Canon.CanonizeFixesCanonical | listar_processos_sei.py:519-525 | a string already in canonical form is returned unchanged |
| Canon.CanonizeIdempotent | listar_processos_sei.py:519-525 | canonising twice equals canonising once |
| Canon.CanonizeFixedPoints | listar_processos_sei.py:519-525 | `canonizar_processo(s) == s` exactly when `s` is in canonical form |
| Canon.NonSpaceCountsKept | listar_processos_sei.py:519-525 | every non-whitespace character occurs as often in the result as in the input |
| Canon.EnDashSpacesKept | listar_processos_sei.py:524 | spaces around an en dash are kept, because only the ASCII hyphen is rewritten |
| FormCodec.FirstSelected | listar_processos_sei.py:220-222 | it returns the first selected option, and `None` only when no option is selected |
| FormCodec.SelectValue | listar_processos_sei.py:220-224 | a select sends its first selected option, or otherwise its first option, or `""` when it has none |
| FormCodec.Entry | listar_processos_sei.py:197-238 | an element contributes only under a non-empty name and only in its own loop; an input contributes its value unless it is an unchecked radio or checkbox, a select its selected value, a textarea its stripped text |
| FormCodec.InputValuePosted | listar_processos_sei.py:197-206 | an input that is the last contributor of its name, with no select or textarea of that name, has its value posted |
| FormCodec.SerializedAbsent | listar_processos_sei.py:192-238 | a name that no contributing element carries is absent from the data |
| FormCodec.SerializedLastWins | listar_processos_sei.py:192-238 | when several elements share a name, the last one's value is sent |
| FormCodec.SerializeInputs | listar_processos_sei.py:192-208 | the input loop fills the dictionary exactly as the in-order specification does |
| FormCodec.SerializeSelects | listar_processos_sei.py:211-225 | the select loop fills the dictionary exactly as the in-order specification does |
| FormCodec.SerializeTextareas | listar_processos_sei.py:228-238 | the textarea loop fills the dictionary exactly as the in-order specification does |
| FormCodec.FirstRadio | listar_processos_sei.py:241-258 | it finds the first radio of a group, and `None` only when the group has no radio |
| FormCodec.FirstRadioIffGroup | listar_processos_sei.py:246-252 | a named group has a first radio exactly when it is one of the collected radio groups |
| FormCodec.GroupRadios | listar_processos_sei.py:243-252 | the groups are exactly the non-empty radio names, and each group starts with its first radio's value |
| FormCodec.FilledRadiosKeeps | listar_processos_sei.py:255-257 | filling adds exactly the radio groups, keeps every value already present, and gives each new group its first radio's value |
| FormCodec.FillUncheckedRadios | listar_processos_sei.py:241-258 | the method's result equals the fill specification |
| FormCodec.SerializeForm | listar_processos_sei.py:261-267 | the whole serialisation equals inputs, overwritten by selects, overwritten by textareas, then filled with unchecked radio groups |
| FormCodec.NamelessIgnored | listar_processos_sei.py:261-267 | the empty name is never sent |
| FormCodec.TextareaWins | listar_processos_sei.py:233-237 | the last textarea of a name decides its stripped value |
| FormCodec.SelectBeatsInput | listar_processos_sei.py:216-224 | without a textarea of that name, the last select decides a name's value, even over an input |
| FormCodec.RadioIsCheckable | listar_processos_sei.py:201-204 | every radio is a checkable input, so the input loop skips it when unchecked |
| FormCodec.UncheckedRadioGroup | listar_processos_sei.py:255-257 | a radio group with nothing checked sends its first radio's value |
| FormCodec.CheckedRadioGroup | listar_processos_sei.py:201-206 | a radio group with exactly one checked radio sends that radio's value |
| Config.StrToBool | listar_processos_sei.py:82-93 | the result is `True` exactly for the truthy words and `False` exactly for the falsy words, after strip and lower-case, and `None` for an absent value |
| Config.TruthyFalsyDisjoint | listar_processos_sei.py:87-88 | no word is both truthy and falsy |
| Config.StrToBoolIgnoresSpace | listar_processos_sei.py:86 | surrounding whitespace does not change the answer |
| Config.StrToBoolPlainWord | listar_processos_sei.py:86-93 | a plain lower-case word is answered by looking it up in the two word lists |
| Config.FlagOn | listar_processos_sei.py:82-93 | a flag is on exactly when its value parses as true |
| Config.LoadSettings | listar_processos_sei.py:119-130 | a blank organ gives the organ error, otherwise a blank unit gives the unit error, otherwise the settings hold both values stripped and non-empty |
| Config.UnidadeAlvoStripped | listar_processos_sei.py:113-116 | the target unit is the configured unit, stripped |
| Config.Credentials | listar_processos_sei.py:919-922 | a missing or empty user or password is a configuration error, otherwise the pair is returned |
| Errors.ExitCode | listar_processos_sei.py:976-990 | exit code 0 means success, 10 an SEI error, 130 an interrupt and 99 any other failure, each in both directions |
| Auth.LoginForm | listar_processos_sei.py:287-293 | the login post carries exactly the five fields, with the user, the password and the organ |
| Auth.ClassifyLogin | listar_processos_sei.py:302-309 | a page containing "Sair" or "Controle de Processos" is success; otherwise "usuário ou senha" or "inval" in the lower-cased text means invalid credentials, then "bloqueado" or "bloqueio" means a blocked account, and anything else is unconfirmed, each case an iff |
| Auth.Login | listar_processos_sei.py:270-314 | empty credentials fail exactly when the user or password is empty; otherwise, once the login page loads, the result is a network error when the login post fails and the classification of the answer when it arrives |
| Auth.AnyCaseInvalid | listar_processos_sei.py:304-306 | "INVALID" in any letter case is recognised as invalid credentials |
| Auth.AccentedInvalidUnrecognised | listar_processos_sei.py:302-309 | the accented "INVÁLIDA" does not contain "inval" once lower-cased, so such an answer is reported as unconfirmed, not as invalid credentials |
| Auth.SwitchSucceeded | listar_processos_sei.py:463-467 | the switch succeeded exactly when the answer mentions "Controle de Processos" or "procedimento_controlar" |
| Units.NormalizeIgnoresCase | listar_processos_sei.py:418 | normalising a unit name ignores letter case |
| Units.NormalizeSingleSpaced | listar_processos_sei.py:418 | a name that is already trimmed and single-spaced normalises to its upper-case form |
| Units.SlashSpacingMatters | listar_processos_sei.py:418-429 | `"seplag / automatizamg"` and `"SEPLAG/AUTOMATIZAMG"` normalise differently and are reported as different units |
| Units.ChosenRow | listar_processos_sei.py:420-438 | the chosen row is the first selectable one (two or more cells, same normalised name, a radio with a value), and there is none only when no row is selectable |
| Units.FindUnitRow | listar_processos_sei.py:416-438 | the row loop returns exactly the chosen row |
| Units.SwitchData | listar_processos_sei.py:445-447 | the switch post is the serialised form plus `selInfraUnidades` and `chkInfraItem`, both set to the row's radio value |
| Units.PostSwitch | listar_processos_sei.py:457-472 | the outcome carries the answer and succeeds exactly when the answer passes the switch test; a failed request is the unit-selection network error |
| Units.SelectUnitSpec | listar_processos_sei.py:388-472 | with a table, a chosen row and a form the outcome is the switch post of that row's radio value; success needs all three and an answer passing the switch test, and an answer means `selInfraUnidades` and `chkInfraItem` were posted with the chosen radio's value; a missing table, row or form gives `(False, None)` |
| Units.SelecionarUnidade | listar_processos_sei.py:388-472 | the method's outcome equals the selection specification |
| Units.UnitDiffers | listar_processos_sei.py:933 | when no switch is attempted, the target and the current unit have the same normalised name |
| Records.AbsoluteToSei | listar_processos_sei.py:143-147 | a link starting with `http` is kept; any other is joined to the SEI base |
| Records.ParseTooltip | listar_processos_sei.py:548-557 | title and type are present exactly when the tooltip and the group are non-empty, and are then the stripped groups |
| Records.ResponsibleName | listar_processos_sei.py:595 | removing "Atribuído para " from the title gives back the name |
| Records.MarkerLabels | listar_processos_sei.py:598-608 | one label per captured marker, each stripped |
| Records.ExtractRow | listar_processos_sei.py:560-630 | a row gives a process exactly when it has a link with a number match and an `href`; the record has the row's category, the canonical number of the match, the link's id and hash, the `href` kept when absolute and joined to the base otherwise, "visualizado" exactly when the link has the `processoVisualizado` class, title and type from the tooltip, the responsible's name from its title without "Atribuído para " and its login from its text (both absent without the link), one stripped label per marker, and the two icon flags |
| Records.ExportRow | listar_processos_sei.py:883-900 | a spreadsheet row has the 13 header columns: the number, the category name, "Sim" or "Não" for each yes/no flag, title, type, responsible name and login (empty when absent), the markers joined by "; ", then id, hash and URL |
| Records.JoinLength | listar_processos_sei.py:893 | the joined markers' length is the sum of the parts plus one separator between each two |
| Records.ExportRows | listar_processos_sei.py:846-900 | exporting fails exactly when there are no processes; otherwise the header comes first and row `i + 1` is process `i` |
| Aggregation.KeepSound | listar_processos_sei.py:787-794 | every kept process comes from the input, has a non-empty key not seen before, and the kept keys are unique |
| Aggregation.KeepFirstSeen | listar_processos_sei.py:787-794 | every process whose key is non-empty, unseen and not taken by an earlier process of the batch is kept |
| Aggregation.KeepConcat | listar_processos_sei.py:787-794 | de-duplicating two batches in a row equals de-duplicating their concatenation |
| Aggregation.AddAllUnique | listar_processos_sei.py:787-794 | appending keeps keys unique, and every added process comes from the new batch with a non-empty key |
| Aggregation.AddAllBatches | listar_processos_sei.py:787-794 | adding two batches one after the other equals adding their concatenation |
| Aggregation.KeepSubsequence | listar_processos_sei.py:787-794 | the kept processes are the input's processes at strictly increasing positions, so input order is kept |
| Aggregation.KeptAreAdmitted | listar_processos_sei.py:787-794 | every kept position holds a process with a non-empty key, not seen before and not taken earlier in the batch |
| Aggregation.AdmittedAreKept | listar_processos_sei.py:787-794 | every such position is kept |
| Aggregation.AddAllInOrder | listar_processos_sei.py:787-794 | appending keeps the old list as a prefix and adds, in their input order, exactly the new processes whose key is non-empty, not already present and not taken earlier in the batch |
| Aggregation.AddAllKeepsFirst | listar_processos_sei.py:787-794 | a process whose key is already present never replaces the one already there |
| Aggregation.Adicionar | listar_processos_sei.py:787-794 | the loop appends exactly the de-duplicated new processes, keeps the existing list as a prefix, and keeps keys unique |
| Extraction.Extracted | listar_processos_sei.py:640-654 | every process extracted from a table has that table's category |
| Extraction.ExtractedInRowOrder | listar_processos_sei.py:640-654 | the processes of two consecutive runs of rows are those of the first run followed by those of the second |
| Extraction.ExtractedOneRow | listar_processos_sei.py:640-654 | one row yields its extracted process, or nothing when extraction gives `None` |
| Extraction.PageProcessesInOrder | listar_processos_sei.py:633-658 | a page's processes are the *Recebidos* then *Gerados* extractions at strictly increasing positions, exactly those whose id is non-empty and first in the page |
| Extraction.PageProcessesShape | listar_processos_sei.py:633-658 | a page's processes have unique non-empty ids, all *Recebidos* come before any *Gerados*, and every first occurrence of an id is kept |
| Extraction.ExtrairProcessos | listar_processos_sei.py:633-658 | the two row loops produce exactly the specified page processes |
| Pagination.SplitOn | listar_processos_sei.py:715 | splitting gives at least one part, and no part contains the separator |
| Pagination.SplitJoin | listar_processos_sei.py:715 | joining the parts with the separator gives back the string |
| Pagination.CountItemsNoEmpty | listar_processos_sei.py:715 | when no part is empty, every part is counted |
| Pagination.ParseCaptionInfo | listar_processos_sei.py:661-679 | the total is the caption's registers (0 if absent), the page size is the range's length when the range is ordered and the total when the range is absent or reversed, and the size is 0 exactly when neither gives a number |
| Pagination.CeilDivLeast | listar_processos_sei.py:729 | the page count is the least count whose pages hold all registers |
| Pagination.InfoShape | listar_processos_sei.py:682-737 | the page size and page count are at least 1, the pages hold every register, and no page beyond the first is empty |
| Pagination.CaptionRangeExample | listar_processos_sei.py:661-679 | a caption of 15 registers showing 1 to 10 gives 10 per page and 2 pages |
| Pagination.CaptionWithoutRangeOnePage | listar_processos_sei.py:674-679 | a caption with a total but no range gives a single page |
| Pagination.ObterPaginacaoInfo | listar_processos_sei.py:682-737 | the step-by-step fallbacks compute exactly the specified pagination info |
| Pagination.OverridePager | listar_processos_sei.py:758-772 | without the page field the request fails with the group's error; otherwise the same keys are sent, the two pagers and the page field get the target page as text, and nothing else changes |
| Pagination.PaginationData | listar_processos_sei.py:740-772 | a missing form fails; otherwise the request is the serialised form with the page override, as stated for the override |
| Pagination.PostedPageReadsBack | listar_processos_sei.py:717-724 | a page whose hidden page field echoes the posted value reads back as the requested page |
| Pagination.PagePlan | listar_processos_sei.py:821-835 | the pages requested after the first are exactly current+1 to the last page, in order, and none when there is only one page |
| Pagination.PlanPrefix | listar_processos_sei.py:821-835 | the requests made so far are a prefix of the plan, and all of it once the last page is reached |
| Collect.AllRecordsConcat | listar_processos_sei.py:797-843 | the records of consecutive page runs concatenate |
| Collect.WalkedPointwise | listar_processos_sei.py:821-835 | each visited page is the server's answer to the request built from the previous page's form |
| Collect.VisitPage | listar_processos_sei.py:740-784 | a visited page is the answer to the built request and yields its records; a request that cannot be built is an SEI error, and a failed post is an unexpected failure |
| Collect.WalkGroup | listar_processos_sei.py:821-835 | the requests follow the page plan, all of it on success, and the result adds every visited page's records |
| Collect.AccumulateTwice | listar_processos_sei.py:810-835 | accumulating the first page, then the Recebidos pages, then the Gerados pages equals one de-duplication of all of them |
| Collect.Coletar | listar_processos_sei.py:797-843 | Gerados pages are requested only after every Recebidos page; on success both plans are complete and the result is the de-duplicated records of the first page and all visited pages |
| Collect.CollectedShape | listar_processos_sei.py:797-843 | the collected processes have unique non-empty keys and start with the first page's processes |

## Left out

- Network, sessions and retries (`create_session`, `requests`, timeouts, encodings): each request is a function parameter returning the answer, or `None` when the request fails.
- HTML parsing and the regular-expression engine: rows, links, captions, hidden fields and forms are given as views holding what BeautifulSoup and the regular expressions would extract.
- `urljoin` and `parse_qs`: the joined URL and the `id_procedimento`/`infra_hash` query parameters are given with the link.
- Unicode case mapping beyond Latin-1, and `int()` of digits outside ASCII or with underscores: only ASCII digits and ASCII and Latin-1 letters are mapped.
- Text.Upper: `ß` (U+00DF) is left unchanged, while Python's `upper()` turns it into "SS" and so lengthens the string; the "keeps the length" property holds only for this one-to-one mapping.
- Collect.Coletar: the server is a pure function from the posted data to the answer, so the real session's state (cookies, state kept by the server between pages) is not modelled.
- `math.ceil` of a float division is modelled as integer ceiling division, which agrees for the non-negative totals involved.
- Files and output: writing the Excel workbook, `save_html`, logging, `argparse`, reading environment variables, closing the session.
- `obter_unidade_atual`, `descobrir_url_controle`, `abrir_controle` and `carregar_pagina_selecao_unidades`: their results (current unit, control form, unit table) are inputs.
- The form's `action` URL and the request headers are not modelled.
- The `Processo` fields that the program never fills (`documentos`, `eh_sigiloso`, `assinantes`, `metadados`) are not part of the record.
- Aggregation.Adicionar: the in-place append to the caller's list is modelled as a method returning the new list.
- Pagination.ObterPaginacaoInfo: pagination info is computed per group view rather than by searching the whole document for each group's controls.
- Units.SelectUnitSpec: the caption-based fallback for finding the unit table is folded into the optional table input.
- The generic `except Exception` paths (a row that fails to parse gives `None`, a failing unit selection gives `(False, None)`, and a failing extraction raises `SEIProcessoError`) are not modelled, because the modelled operations cannot fail in those ways.
- `executar_listagem` is modelled only through its pieces (`Config.Credentials`, `Auth.Login`, `Units.UnitDiffers`, `Units.SelecionarUnidade`, `Collect.Coletar`, `Records.ExportRows`); the sequencing between them is not a single member.
- KeyboardInterrupt handling is present only as the `Interrupted` outcome of `Errors.ExitCode`.
- Units.UnitDiffers: only states that "no switch" implies equal normalised names, because the line-933 comparison does not collapse inner spaces and so is stricter than the row comparison.
