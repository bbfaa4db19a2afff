/**
 * The form codec (listar_processos_sei.py:192-267): turns the controls of an
 * HTML form into the name -> value map that is posted back. A form is given
 * as its controls in document order; what BeautifulSoup would read from each
 * tag is already in the element record.
 */
module FormCodec {
  import opened Wrappers
  import opened Text

  /** An `<option>`: its `value` attribute ("" when absent) and whether it carries `selected`. */
  datatype SelectOption = SelectOption(value: string, selected: bool)

  /**
   * One control of a form. `name`, `kind` (the raw `type` attribute) and
   * `value` are "" when the attribute is absent; `checked` is the presence
   * of the `checked` attribute.
   */
  datatype Element =
    | Input(name: string, kind: string, value: string, checked: bool)
    | Select(name: string, options: seq<SelectOption>)
    | TextArea(name: string, text: string)

  type Form = seq<Element>
  type FormData = map<string, string>

  /** The three serialisation passes, in the order their maps are merged. */
  datatype Pass = Inputs | Selects | Textareas

  /** A radio button or a checkbox, by its lower-cased `type` (as `serializar_inputs` tests it). */
  predicate IsCheckable(e: Element) {
    e.Input? && (Lower(e.kind) == "radio" || Lower(e.kind) == "checkbox")
  }

  /** A radio button as `find_all("input", {"type": "radio"})` finds it: the attribute is exactly "radio". */
  predicate IsRadio(e: Element) {
    e.Input? && e.kind == "radio"
  }

  /** Index of the first option carrying `selected`, if any. */
  function FirstSelected(opts: seq<SelectOption>): (r: Option<nat>)
    ensures r.Some? ==> r.value < |opts| && opts[r.value].selected
    ensures r.Some? ==> forall i :: 0 <= i < r.value ==> !opts[i].selected
    ensures r.None? ==> forall i :: 0 <= i < |opts| ==> !opts[i].selected
    decreases |opts|
  {
    if opts == [] then None
    else if opts[0].selected then Some(0)
    else match FirstSelected(opts[1..])
      case None => None
      case Some(i) => Some(i + 1)
  }

  /**
   * The value `serializar_selects` posts for a select: the first selected
   * option's, else the first option's, else "".
   */
  function SelectValue(opts: seq<SelectOption>): (v: string)
    ensures (exists i :: 0 <= i < |opts| && opts[i].selected) ==>
      exists i :: 0 <= i < |opts| && opts[i].selected && v == opts[i].value &&
        forall j :: 0 <= j < i ==> !opts[j].selected
    ensures (forall i :: 0 <= i < |opts| ==> !opts[i].selected) ==>
      v == if opts == [] then "" else opts[0].value
  {
    match FirstSelected(opts)
    case Some(i) => opts[i].value
    case None => if opts == [] then "" else opts[0].value
  }

  /** The entry one control contributes in one pass; nameless controls contribute nothing. */
  function Entry(e: Element, pass: Pass): (r: Option<(string, string)>)
    ensures r.Some? ==> r.value.0 == e.name != ""
    ensures IsCheckable(e) && !e.checked ==> r.None?
    ensures e.name != "" && pass == Inputs && e.Input? && (!IsCheckable(e) || e.checked) ==> r == Some((e.name, e.value))
    ensures e.name != "" && pass == Selects && e.Select? ==> r == Some((e.name, SelectValue(e.options)))
    ensures e.name != "" && pass == Textareas && e.TextArea? ==> r == Some((e.name, Strip(e.text)))
    ensures r.Some? ==> match pass
      case Inputs => e.Input?
      case Selects => e.Select?
      case Textareas => e.TextArea?
  {
    if e.name == "" then None
    else match pass
      case Inputs =>
        if e.Input? && (!IsCheckable(e) || e.checked) then Some((e.name, e.value)) else None
      case Selects =>
        if e.Select? then Some((e.name, SelectValue(e.options))) else None
      case Textareas =>
        if e.TextArea? then Some((e.name, Strip(e.text))) else None
  }

  /** Control `j` contributes an entry for `k` in `pass`. */
  ghost predicate Names(form: Form, pass: Pass, j: int, k: string) {
    0 <= j < |form| && Entry(form[j], pass).Some? && Entry(form[j], pass).value.0 == k
  }

  /** The map one pass builds: a dict filled in document order, so a later entry replaces an earlier one. */
  function Serialized(form: Form, pass: Pass): FormData
    decreases |form|
  {
    if form == [] then map[]
    else
      var m := Serialized(form[..|form| - 1], pass);
      match Entry(form[|form| - 1], pass)
      case None => m
      case Some(kv) => m[kv.0 := kv.1]
  }

  /** A name no control contributes is absent from the pass's map. */
  lemma {:induction false} SerializedAbsent(form: Form, pass: Pass, k: string)
    requires forall j :: 0 <= j < |form| ==> !Names(form, pass, j, k)
    ensures k !in Serialized(form, pass)
    decreases |form|
  {
    if form != [] {
      var f := form[..|form| - 1];
      assert forall j :: 0 <= j < |f| ==> Names(form, pass, j, k) == Names(f, pass, j, k);
      SerializedAbsent(f, pass, k);
      assert !Names(form, pass, |form| - 1, k);
    }
  }

  /** The last control contributing `k` decides the value posted for `k`. */
  lemma {:induction false} SerializedLastWins(form: Form, pass: Pass, k: string, j: int)
    requires Names(form, pass, j, k)
    requires forall j' :: j < j' < |form| ==> !Names(form, pass, j', k)
    ensures k in Serialized(form, pass)
    ensures Serialized(form, pass)[k] == Entry(form[j], pass).value.1
    decreases |form|
  {
    var f := form[..|form| - 1];
    if j < |form| - 1 {
      assert forall j' :: 0 <= j' < |f| ==> Names(form, pass, j', k) == Names(f, pass, j', k);
      SerializedLastWins(f, pass, k, j);
      assert !Names(form, pass, |form| - 1, k);
    }
  }

  /** `serializar_inputs`: checked radios and checkboxes and every other named input. */
  method SerializeInputs(form: Form) returns (data: FormData)
    ensures data == Serialized(form, Inputs)
  {
    data := map[];
    var i := 0;
    while i < |form|
      invariant 0 <= i <= |form|
      invariant data == Serialized(form[..i], Inputs)
    {
      assert form[..i + 1][..i] == form[..i];
      var e := form[i];
      if e.Input? && e.name != "" {
        var kind := Lower(e.kind);
        if kind == "radio" || kind == "checkbox" {
          if e.checked {
            data := data[e.name := e.value];
          }
        } else {
          data := data[e.name := e.value];
        }
      }
      i := i + 1;
    }
    assert form[..|form|] == form;
  }

  /** `serializar_selects`: every named select, with the value `SelectValue` picks. */
  method SerializeSelects(form: Form) returns (data: FormData)
    ensures data == Serialized(form, Selects)
  {
    data := map[];
    var i := 0;
    while i < |form|
      invariant 0 <= i <= |form|
      invariant data == Serialized(form[..i], Selects)
    {
      assert form[..i + 1][..i] == form[..i];
      var e := form[i];
      if e.Select? && e.name != "" {
        var v := "";
        var first := FirstSelected(e.options);
        if first.Some? {
          v := e.options[first.value].value;
        } else if |e.options| > 0 {
          v := e.options[0].value;
        }
        data := data[e.name := v];
      }
      i := i + 1;
    }
    assert form[..|form|] == form;
  }

  /** `serializar_textareas`: every named textarea, with its text stripped. */
  method SerializeTextareas(form: Form) returns (data: FormData)
    ensures data == Serialized(form, Textareas)
  {
    data := map[];
    var i := 0;
    while i < |form|
      invariant 0 <= i <= |form|
      invariant data == Serialized(form[..i], Textareas)
    {
      assert form[..i + 1][..i] == form[..i];
      var e := form[i];
      if e.TextArea? && e.name != "" {
        data := data[e.name := Strip(e.text)];
      }
      i := i + 1;
    }
    assert form[..|form|] == form;
  }

  /** Control `j` is a radio button named `k`. */
  ghost predicate RadioNamed(form: Form, j: int, k: string) {
    0 <= j < |form| && IsRadio(form[j]) && form[j].name == k
  }

  /** The names of the form's radio groups. */
  function RadioNames(form: Form): set<string> {
    set j | 0 <= j < |form| && IsRadio(form[j]) && form[j].name != "" :: form[j].name
  }

  /** Index of the first radio button named `k`. */
  function FirstRadio(form: Form, k: string): (r: Option<nat>)
    ensures r.Some? ==> RadioNamed(form, r.value, k)
    ensures r.Some? ==> forall j :: 0 <= j < r.value ==> !RadioNamed(form, j, k)
    ensures r.None? ==> forall j :: 0 <= j < |form| ==> !RadioNamed(form, j, k)
    decreases |form|
  {
    if form == [] then None
    else
      var f := form[..|form| - 1];
      var r := FirstRadio(f, k);
      assert forall j :: 0 <= j < |f| ==> RadioNamed(form, j, k) == RadioNamed(f, j, k);
      if r.Some? then r
      else if IsRadio(form[|form| - 1]) && form[|form| - 1].name == k then Some(|form| - 1)
      else None
  }

  /** The value of the first radio button named `k` ("" if there is none). */
  function FirstRadioValue(form: Form, k: string): string {
    match FirstRadio(form, k)
    case Some(j) => form[j].value
    case None => ""
  }

  /** `processar_radios_nao_marcados` as a value: every radio group still missing from `data` gets its first button's value. */
  function FilledRadios(form: Form, data: FormData): FormData {
    data + map k | k in RadioNames(form) && k !in data :: FirstRadioValue(form, k)
  }

  lemma FirstRadioSnoc(f: Form, e: Element, k: string)
    ensures FirstRadio(f + [e], k) ==
      if FirstRadio(f, k).Some? then FirstRadio(f, k)
      else if IsRadio(e) && e.name == k then Some(|f|)
      else None
  {
    assert (f + [e])[..|f|] == f;
  }

  lemma RadioNamesSnoc(f: Form, e: Element)
    ensures RadioNames(f + [e]) == RadioNames(f) + (if IsRadio(e) && e.name != "" then {e.name} else {})
  {
    var g := f + [e];
    assert forall j :: 0 <= j < |f| ==> g[j] == f[j];
    if IsRadio(e) && e.name != "" {
      assert g[|f|] == e;
    }
  }

  /** A non-empty name has a first radio button exactly when it names a radio group. */
  lemma FirstRadioIffGroup(f: Form, k: string)
    requires k != ""
    ensures FirstRadio(f, k).Some? <==> k in RadioNames(f)
  {
    if k in RadioNames(f) {
      var j :| 0 <= j < |f| && IsRadio(f[j]) && f[j].name != "" && f[j].name == k;
      assert RadioNamed(f, j, k);
    }
  }

  /** The first loop of `processar_radios_nao_marcados`: `radios_by_name`, keeping each button's value. */
  method GroupRadios(form: Form) returns (groups: map<string, seq<string>>)
    ensures groups.Keys == RadioNames(form)
    ensures forall k :: k in groups ==> |groups[k]| > 0 && groups[k][0] == FirstRadioValue(form, k)
  {
    groups := map[];
    var i := 0;
    while i < |form|
      invariant 0 <= i <= |form|
      invariant groups.Keys == RadioNames(form[..i])
      invariant forall k :: k in groups ==> |groups[k]| > 0 && groups[k][0] == FirstRadioValue(form[..i], k)
    {
      var e := form[i];
      var f := form[..i];
      assert form[..i + 1] == f + [e];
      RadioNamesSnoc(f, e);
      forall k | k in groups
        ensures FirstRadioValue(f + [e], k) == FirstRadioValue(f, k)
      {
        FirstRadioIffGroup(f, k);
        FirstRadioSnoc(f, e, k);
      }
      if IsRadio(e) && e.name != "" {
        if e.name !in groups {
          FirstRadioIffGroup(f, e.name);
          FirstRadioSnoc(f, e, e.name);
        }
        var members := if e.name in groups then groups[e.name] else [];
        groups := groups[e.name := members + [e.value]];
      }
      i := i + 1;
    }
    assert form[..|form|] == form;
  }

  /**
   * The radio pass only adds: every entry already present keeps its value,
   * and the names added are radio group names, each with the value of the
   * group's first button.
   */
  lemma FilledRadiosKeeps(form: Form, data: FormData)
    ensures FilledRadios(form, data).Keys == data.Keys + RadioNames(form)
    ensures forall k :: k in data ==> FilledRadios(form, data)[k] == data[k]
    ensures forall k :: k in FilledRadios(form, data) && k !in data ==> FilledRadios(form, data)[k] == FirstRadioValue(form, k)
  {
  }

  lemma FilledRadiosExt(form: Form, data: FormData, groups: map<string, seq<string>>, out: FormData)
    requires groups.Keys == RadioNames(form)
    requires forall k :: k in groups ==> |groups[k]| > 0 && groups[k][0] == FirstRadioValue(form, k)
    requires out.Keys == data.Keys + groups.Keys
    requires forall k :: k in data ==> out[k] == data[k]
    requires forall k :: k in out && k !in data ==> out[k] == groups[k][0]
    ensures out == FilledRadios(form, data)
  {
    var spec := FilledRadios(form, data);
    FilledRadiosKeeps(form, data);
    assert out.Keys == spec.Keys;
    assert forall k :: k in out ==> out[k] == spec[k];
  }

  /**
   * `processar_radios_nao_marcados`: each radio group that has no entry yet
   * gets the value of its first button.
   */
  method FillUncheckedRadios(form: Form, data: FormData) returns (out: FormData)
    ensures out == FilledRadios(form, data)
  {
    var groups := GroupRadios(form);
    out := data;
    var pending := groups.Keys;
    while pending != {}
      invariant pending <= groups.Keys
      invariant out.Keys == data.Keys + (groups.Keys - pending)
      invariant forall k :: k in data ==> out[k] == data[k]
      invariant forall k :: k in out && k !in data ==> out[k] == groups[k][0]
      decreases pending
    {
      var name :| name in pending;
      var radios := groups[name];
      if name !in out && |radios| > 0 {
        out := out[name := radios[0]];
      }
      pending := pending - {name};
    }
    FilledRadiosExt(form, data, groups, out);
  }

  /** `serializar_formulario` as a value: inputs, then selects, then textareas (each `update` overwrites), then the radio pass. */
  function FormSpec(form: Form): FormData {
    FilledRadios(form, Serialized(form, Inputs) + Serialized(form, Selects) + Serialized(form, Textareas))
  }

  /** `serializar_formulario`. */
  method SerializeForm(form: Form) returns (data: FormData)
    ensures data == FormSpec(form)
  {
    data := map[];
    var inputs := SerializeInputs(form);
    data := data + inputs;
    var selects := SerializeSelects(form);
    data := data + selects;
    var areas := SerializeTextareas(form);
    data := data + areas;
    assert data == Serialized(form, Inputs) + Serialized(form, Selects) + Serialized(form, Textareas);
    data := FillUncheckedRadios(form, data);
  }

  // ---------------------------------------------------------------------------
  // What the posted map holds

  /** Nameless controls never produce an entry. */
  lemma NamelessIgnored(form: Form)
    ensures "" !in FormSpec(form)
  {
    SerializedAbsent(form, Inputs, "");
    SerializedAbsent(form, Selects, "");
    SerializedAbsent(form, Textareas, "");
    FilledRadiosKeeps(form, Serialized(form, Inputs) + Serialized(form, Selects) + Serialized(form, Textareas));
  }

  /** A textarea overwrites any input or select of the same name: the last one named `k` gives the value. */
  lemma TextareaWins(form: Form, k: string, j: int)
    requires Names(form, Textareas, j, k)
    requires forall j' :: j < j' < |form| ==> !Names(form, Textareas, j', k)
    ensures k in FormSpec(form) && FormSpec(form)[k] == Strip(form[j].text)
  {
    SerializedLastWins(form, Textareas, k, j);
    var m := Serialized(form, Inputs) + Serialized(form, Selects) + Serialized(form, Textareas);
    FilledRadiosKeeps(form, m);
  }

  /** With no textarea of that name, a select overwrites a same-named input. */
  lemma SelectBeatsInput(form: Form, k: string, j: int)
    requires Names(form, Selects, j, k)
    requires forall j' :: j < j' < |form| ==> !Names(form, Selects, j', k)
    requires forall j' :: 0 <= j' < |form| ==> !Names(form, Textareas, j', k)
    ensures k in FormSpec(form) && FormSpec(form)[k] == SelectValue(form[j].options)
  {
    SerializedLastWins(form, Selects, k, j);
    SerializedAbsent(form, Textareas, k);
    var m := Serialized(form, Inputs) + Serialized(form, Selects) + Serialized(form, Textareas);
    FilledRadiosKeeps(form, m);
  }

  /**
   * A named input that is not an unchecked radio or checkbox posts its
   * `value` when it is the last such input of that name and no select or
   * textarea shares the name; hidden fields are posted this way.
   */
  lemma InputValuePosted(form: Form, k: string, j: int)
    requires 0 <= j < |form| && form[j].Input? && form[j].name == k && k != ""
    requires !IsCheckable(form[j]) || form[j].checked
    requires forall j' :: j < j' < |form| ==> !Names(form, Inputs, j', k)
    requires forall j' :: 0 <= j' < |form| ==> !Names(form, Selects, j', k) && !Names(form, Textareas, j', k)
    ensures k in FormSpec(form) && FormSpec(form)[k] == form[j].value
  {
    assert Names(form, Inputs, j, k);
    SerializedLastWins(form, Inputs, k, j);
    SerializedAbsent(form, Selects, k);
    SerializedAbsent(form, Textareas, k);
    var m := Serialized(form, Inputs) + Serialized(form, Selects) + Serialized(form, Textareas);
    FilledRadiosKeeps(form, m);
  }

  /** The controls named `k` are all radio buttons. */
  ghost predicate OnlyRadiosNamed(form: Form, k: string) {
    forall j :: 0 <= j < |form| && form[j].name == k ==> IsRadio(form[j])
  }

  lemma RadioIsCheckable(e: Element)
    requires IsRadio(e)
    ensures IsCheckable(e)
  {
    assert Lower("radio") == "radio";
  }

  /** A radio group with no checked button is posted with the value of its first button. */
  lemma UncheckedRadioGroup(form: Form, k: string, first: int)
    requires k != "" && OnlyRadiosNamed(form, k)
    requires forall j :: 0 <= j < |form| && form[j].name == k ==> !form[j].checked
    requires RadioNamed(form, first, k)
    ensures k in FormSpec(form) && FormSpec(form)[k] == FirstRadioValue(form, k)
  {
    forall j | 0 <= j < |form| && form[j].name == k
      ensures !Names(form, Inputs, j, k)
    {
      RadioIsCheckable(form[j]);
    }
    SerializedAbsent(form, Inputs, k);
    SerializedAbsent(form, Selects, k);
    SerializedAbsent(form, Textareas, k);
    assert k in RadioNames(form);
    var m := Serialized(form, Inputs) + Serialized(form, Selects) + Serialized(form, Textareas);
    FilledRadiosKeeps(form, m);
  }

  /** A radio group with one checked button is posted with that button's value; the radio pass does not touch it. */
  lemma CheckedRadioGroup(form: Form, k: string, j: int)
    requires OnlyRadiosNamed(form, k)
    requires RadioNamed(form, j, k) && form[j].checked && k != ""
    requires forall i :: 0 <= i < |form| && i != j && form[i].name == k ==> !form[i].checked
    ensures k in FormSpec(form) && FormSpec(form)[k] == form[j].value
  {
    forall i | 0 <= i < |form| && form[i].name == k
      ensures IsCheckable(form[i])
    {
      RadioIsCheckable(form[i]);
    }
    SerializedLastWins(form, Inputs, k, j);
    SerializedAbsent(form, Selects, k);
    SerializedAbsent(form, Textareas, k);
    var m := Serialized(form, Inputs) + Serialized(form, Selects) + Serialized(form, Textareas);
    FilledRadiosKeeps(form, m);
  }
}
