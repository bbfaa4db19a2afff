/**
 * Choosing the unit to work in (listar_processos_sei.py:388-475) and
 * deciding whether a switch is needed (933).
 */
module Units {
  import opened Wrappers
  import opened Text
  import opened FormCodec
  import opened Errors
  import Auth

  /** `re.sub(r"\s+", " ", s.strip().upper()).strip()`. */
  function NormalizeUnit(s: string): string {
    Strip(CollapseSpaces(Upper(Strip(s))))
  }

  lemma UpperCharIdempotent(c: char)
    ensures UpperChar(UpperChar(c)) == UpperChar(c)
  {
  }

  lemma UpperIdempotent(s: string)
    ensures Upper(Upper(s)) == Upper(s)
  {
    forall i | 0 <= i < |s| ensures Upper(Upper(s))[i] == Upper(s)[i] {
      UpperCharIdempotent(s[i]);
    }
  }

  /** Matching ignores case: an upper-cased spelling normalises to the same name. */
  lemma NormalizeIgnoresCase(s: string)
    ensures NormalizeUnit(Upper(s)) == NormalizeUnit(s)
  {
    UpperStrip(s);
    UpperIdempotent(Strip(s));
  }

  /**
   * A name without outer whitespace whose only whitespace is single plain
   * spaces normalises to its upper-case form: spaces inside it, for instance
   * around a "/", are kept.
   */
  lemma NormalizeSingleSpaced(s: string)
    requires NoOuterSpace(s) && NoDoubleSpace(s) && OnlyPlainSpaces(s)
    ensures NormalizeUnit(s) == Upper(s)
  {
    StripNoOuterSpace(s);
    var u := Upper(s);
    assert NoDoubleSpace(u);
    assert OnlyPlainSpaces(u) by {
      forall i | 0 <= i < |u| && IsSpace(u[i]) ensures u[i] == ' ' {
        assert s[i] == ' ';
      }
    }
    CollapseSpacesFixed(u);
    assert NoOuterSpace(u);
    StripNoOuterSpace(u);
  }

  /** A name without any whitespace normalises to its upper-case form. */
  lemma NormalizeSpaceless(s: string)
    requires forall i :: 0 <= i < |s| ==> !IsSpace(s[i])
    ensures NormalizeUnit(s) == Upper(s)
  {
    NormalizeSingleSpaced(s);
  }

  lemma SpacedTargetShape(target: string)
    requires target == "seplag / automatizamg"
    ensures NoOuterSpace(target) && NoDoubleSpace(target) && OnlyPlainSpaces(target)
  {
    assert forall i :: 0 <= i < |target| && i != 6 && i != 8 ==> !IsSpace(target[i]);
    assert target[6] == ' ' && target[8] == ' ';
  }

  lemma UnspacedCellShape(cell: string)
    requires cell == "SEPLAG/AUTOMATIZAMG"
    ensures forall i :: 0 <= i < |cell| ==> !IsSpace(cell[i])
  {
    assert forall i :: 0 <= i < |cell| ==> cell[i] == '/' || 'A' <= cell[i] <= 'Z';
  }

  /** "seplag / automatizamg" does not select a row reading "SEPLAG/AUTOMATIZAMG". */
  lemma SlashSpacingMatters(target: string, cell: string)
    requires target == "seplag / automatizamg" && cell == "SEPLAG/AUTOMATIZAMG"
    ensures NormalizeUnit(target) != NormalizeUnit(cell)
    ensures UnitDiffers(target, Some(cell))
  {
    SpacedTargetShape(target);
    UnspacedCellShape(cell);
    NormalizeSingleSpaced(target);
    NormalizeSpaceless(cell);
    assert |Upper(target)| != |Upper(cell)|;
    StripNoOuterSpace(target);
    StripNoOuterSpace(cell);
  }

  /** One row of the unit table: whether it holds a `th`, the text of its cells, and its `chkInfraItem` radio's value. */
  datatype UnitRow = UnitRow(hasHeaderCell: bool, cells: seq<string>, radio: Option<string>)

  predicate RowMatches(row: UnitRow, target: string) {
    !row.hasHeaderCell && |row.cells| >= 2 && NormalizeUnit(row.cells[1]) == NormalizeUnit(target)
  }

  /** A matching row that can be chosen: its radio exists and has a non-empty value. */
  predicate Selectable(row: UnitRow, target: string) {
    RowMatches(row, target) && row.radio.Some? && row.radio.value != ""
  }

  /** The least index whose element satisfies `ok`. */
  function FirstWhere<T>(s: seq<T>, ok: T -> bool): (r: Option<nat>)
    ensures r.Some? ==> r.value < |s| && ok(s[r.value])
    ensures r.Some? ==> forall j :: 0 <= j < r.value ==> !ok(s[j])
    ensures r.None? ==> forall j :: 0 <= j < |s| ==> !ok(s[j])
    decreases |s|
  {
    if s == [] then None
    else if ok(s[0]) then Some(0)
    else match FirstWhere(s[1..], ok)
      case None => None
      case Some(j) => Some(j + 1)
  }

  /** An element satisfying `ok` and preceded by none that does is the one found. */
  lemma {:induction false} FirstWhereIs<T>(s: seq<T>, ok: T -> bool, k: nat)
    requires k < |s| && ok(s[k])
    requires forall j :: 0 <= j < k ==> !ok(s[j])
    ensures FirstWhere(s, ok) == Some(k)
    decreases k
  {
    if k > 0 {
      assert s[1..][k - 1] == s[k];
      FirstWhereIs(s[1..], ok, k - 1);
    }
  }

  /** The first selectable row. */
  function ChosenRow(rows: seq<UnitRow>, target: string): (r: Option<nat>)
    ensures r.Some? ==> r.value < |rows| && Selectable(rows[r.value], target)
    ensures r.Some? ==> forall j :: 0 <= j < r.value ==> !Selectable(rows[j], target)
    ensures r.None? ==> forall j :: 0 <= j < |rows| ==> !Selectable(rows[j], target)
  {
    FirstWhere(rows, row => Selectable(row, target))
  }

  /** A selectable row preceded by none is the chosen one. */
  lemma ChosenRowFirst(rows: seq<UnitRow>, target: string, k: nat)
    requires k < |rows| && Selectable(rows[k], target)
    requires forall j :: 0 <= j < k ==> !Selectable(rows[j], target)
    ensures ChosenRow(rows, target) == Some(k)
  {
    FirstWhereIs(rows, row => Selectable(row, target), k);
  }

  /** The serialised form with both `selInfraUnidades` and `chkInfraItem` set to the unit's value. */
  function SwitchData(form: Form, value: string): (data: FormData)
    ensures data.Keys == FormSpec(form).Keys + {"selInfraUnidades", "chkInfraItem"}
    ensures data["selInfraUnidades"] == value && data["chkInfraItem"] == value
    ensures forall k :: k in FormSpec(form) && k != "selInfraUnidades" && k != "chkInfraItem" ==> data[k] == FormSpec(form)[k]
  {
    FormSpec(form)["selInfraUnidades" := value]["chkInfraItem" := value]
  }

  /** `(sucesso, html_resultado)`. */
  datatype SwitchOutcome = SwitchOutcome(success: bool, html: Option<string>)

  /** Posting the switch form for the chosen unit's value and reading the answer. */
  function PostSwitch(form: Form, value: string, server: FormData -> Option<string>): (r: Result<SwitchOutcome, SeiError>)
    ensures r.Ok? ==> r.value.html == server(SwitchData(form, value)) && r.value.html.Some?
    ensures r.Ok? ==> (r.value.success <==> Auth.SwitchSucceeded(r.value.html.value))
    ensures r.Err? <==> server(SwitchData(form, value)).None?
    ensures r.Err? ==> r.error == ProcessoError(UnitSelectionNetworkError)
  {
    match server(SwitchData(form, value))
    case None => Err(ProcessoError(UnitSelectionNetworkError))
    case Some(text) => Ok(SwitchOutcome(Auth.SwitchSucceeded(text), Some(text)))
  }

  /**
   * `selecionar_unidade_sei`: no table, no selectable row, or no form gives
   * `(False, None)`; otherwise the form is posted for the first selectable
   * row, and the answer decides success. A transport failure is an error.
   */
  function SelectUnitSpec(table: Option<seq<UnitRow>>, target: string, form: Option<Form>, server: FormData -> Option<string>): (r: Result<SwitchOutcome, SeiError>)
    ensures r.Ok? && r.value.success ==>
      table.Some? && ChosenRow(table.value, target).Some? && form.Some? &&
      r.value.html.Some? && Auth.SwitchSucceeded(r.value.html.value)
    ensures r.Err? ==> r.error == ProcessoError(UnitSelectionNetworkError)
    ensures table.None? || ChosenRow(table.value, target).None? || form.None? ==> r == Ok(SwitchOutcome(false, None))
    ensures table.Some? && ChosenRow(table.value, target).Some? && form.Some? ==>
      r == PostSwitch(form.value, table.value[ChosenRow(table.value, target).value].radio.value, server)
    ensures r.Ok? && r.value.html.Some? ==>
      table.Some? && ChosenRow(table.value, target).Some? && form.Some? &&
      var d := SwitchData(form.value, table.value[ChosenRow(table.value, target).value].radio.value);
      d["selInfraUnidades"] == d["chkInfraItem"] == table.value[ChosenRow(table.value, target).value].radio.value &&
      r.value.html == server(d)
  {
    if table.None? then Ok(SwitchOutcome(false, None))
    else match ChosenRow(table.value, target)
      case None => Ok(SwitchOutcome(false, None))
      case Some(i) =>
        if form.None? then Ok(SwitchOutcome(false, None))
        else PostSwitch(form.value, table.value[i].radio.value, server)
  }

  /** The row loop of `selecionar_unidade_sei`: the first row that is not skipped. */
  method FindUnitRow(linhas: seq<UnitRow>, target: string) returns (found: Option<nat>)
    ensures found == ChosenRow(linhas, target)
  {
    var alvo := NormalizeUnit(target);
    var i := 0;
    while i < |linhas|
      invariant 0 <= i <= |linhas|
      invariant forall j :: 0 <= j < i ==> !Selectable(linhas[j], target)
    {
      var linha := linhas[i];
      var skip := linha.hasHeaderCell || |linha.cells| < 2;
      if !skip {
        skip := NormalizeUnit(linha.cells[1]) != alvo;
      }
      if !skip {
        skip := linha.radio.None? || linha.radio.value == "";
      }
      if skip {
        SkippedRow(linhas, target, i);
        i := i + 1;
        continue;
      }
      ChosenRowFirst(linhas, target, i);
      return Some(i);
    }
    return None;
  }

  lemma SkippedRow(rows: seq<UnitRow>, target: string, i: nat)
    requires i < |rows| && !Selectable(rows[i], target)
    requires forall j :: 0 <= j < i ==> !Selectable(rows[j], target)
    ensures forall j :: 0 <= j < i + 1 ==> !Selectable(rows[j], target)
  {
  }

  /** `selecionar_unidade_sei`: find the row, then post the form for it. */
  method SelecionarUnidade(table: Option<seq<UnitRow>>, target: string, form: Option<Form>, server: FormData -> Option<string>)
    returns (r: Result<SwitchOutcome, SeiError>)
    ensures r == SelectUnitSpec(table, target, form, server)
  {
    if table.None? {
      return Ok(SwitchOutcome(false, None));
    }
    var found := FindUnitRow(table.value, target);
    if found.None? || form.None? {
      return Ok(SwitchOutcome(false, None));
    }
    r := PostSwitch(form.value, table.value[found.value].radio.value, server);
  }

  /** Line 933: a switch is attempted when the target and the current unit differ after `strip().upper()`. */
  function UnitDiffers(target: string, current: Option<string>): (differs: bool)
    ensures !differs ==> NormalizeUnit(target) == NormalizeUnit(current.GetOr(""))
  {
    Upper(Strip(target)) != Upper(Strip(current.GetOr("")))
  }
}
