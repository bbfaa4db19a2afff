/**
 * Settings read from the environment: `_str_to_bool`
 * (listar_processos_sei.py:82-93), the required values of `load_settings`
 * (119-130) and the credential check of `executar_listagem` (919-922).
 * The environment is given as optional strings.
 */
module Config {
  import opened Wrappers
  import opened Text
  import opened Errors

  const Truthy: set<string> := {"1", "true", "t", "yes", "y", "sim"}
  const Falsy: set<string> := {"0", "false", "f", "no", "n", "nao", "n\U{E3}o"}

  /** `_str_to_bool`: stripped and lower-cased, a known word gives its truth value; anything else is undetermined. */
  function StrToBool(value: Option<string>): (r: Option<bool>)
    ensures value.None? ==> r.None?
    ensures r == Some(true) <==> value.Some? && Lower(Strip(value.value)) in Truthy
    ensures r == Some(false) <==> value.Some? && Lower(Strip(value.value)) in Falsy
  {
    match value
    case None => None
    case Some(v) =>
      var norm := Lower(Strip(v));
      if norm in Truthy then Some(true)
      else if norm in Falsy then Some(false)
      else None
  }

  /** No word is both truthy and falsy, so the order of the two tests does not matter. */
  lemma TruthyFalsyDisjoint()
    ensures Truthy * Falsy == {}
  {
    assert forall w :: w in Falsy ==> w !in Truthy by {
      assert "n\U{E3}o" != "no";
    }
  }

  /** Surrounding whitespace does not change the reading. */
  lemma StrToBoolIgnoresSpace(v: string)
    ensures StrToBool(Some(Strip(v))) == StrToBool(Some(v))
  {
    StripIdempotent(v);
  }

  /** A lower-case word without whitespace reads as itself. */
  lemma StrToBoolPlainWord(w: string)
    requires w != [] && forall i :: 0 <= i < |w| ==> 'a' <= w[i] <= 'z' || '0' <= w[i] <= '9' || w[i] == '\U{E3}'
    ensures StrToBool(Some(w)) == if w in Truthy then Some(true) else if w in Falsy then Some(false) else None
  {
    assert NoOuterSpace(w);
    StripNoOuterSpace(w);
    assert Lower(w) == w;
  }

  /** A debug flag is on only when its variable reads as true; an absent or unknown value leaves it off. */
  function FlagOn(value: Option<string>): (on: bool)
    ensures on ==> value.Some?
    ensures on <==> StrToBool(value) == Some(true)
  {
    StrToBool(value) == Some(true)
  }

  /** The settings `load_settings` builds (paths and URLs are not modelled). */
  datatype Settings = Settings(orgaoValue: string, unidadeValue: string)

  function Blank(v: Option<string>): bool {
    v.None? || Strip(v.value) == ""
  }

  /**
   * `load_settings`: `SEI_ORGAO` and then `SEI_UNIDADE` must be present and
   * not blank; the values kept are stripped.
   */
  function LoadSettings(orgao: Option<string>, unidade: Option<string>): (r: Result<Settings, SeiError>)
    ensures r == Err(ConfigError(MissingOrgao)) <==> Blank(orgao)
    ensures r == Err(ConfigError(MissingUnidade)) <==> !Blank(orgao) && Blank(unidade)
    ensures r.Ok? <==> !Blank(orgao) && !Blank(unidade)
    ensures r.Ok? ==> r.value.orgaoValue == Strip(orgao.value) && r.value.unidadeValue == Strip(unidade.value)
    ensures r.Ok? ==> r.value.orgaoValue != "" && r.value.unidadeValue != ""
  {
    if Blank(orgao) then Err(ConfigError(MissingOrgao))
    else if Blank(unidade) then Err(ConfigError(MissingUnidade))
    else Ok(Settings(Strip(orgao.value), Strip(unidade.value)))
  }

  /** `Settings.unidade_alvo`: the unit name, stripped once more. */
  function UnidadeAlvo(s: Settings): string {
    Strip(s.unidadeValue)
  }

  /** The target unit of loaded settings is exactly the stripped `SEI_UNIDADE`. */
  lemma UnidadeAlvoStripped(orgao: Option<string>, unidade: Option<string>)
    requires LoadSettings(orgao, unidade).Ok?
    ensures UnidadeAlvo(LoadSettings(orgao, unidade).value) == Strip(unidade.value)
  {
    StripIdempotent(unidade.value);
  }

  /** `executar_listagem` refuses to start without both `SEI_USER` and `SEI_PASS`. */
  function Credentials(user: Option<string>, pwd: Option<string>): (r: Result<(string, string), SeiError>)
    ensures r.Err? <==> user.None? || user.value == "" || pwd.None? || pwd.value == ""
    ensures r.Err? ==> r.error == ConfigError(MissingCredentials)
    ensures r.Ok? ==> r.value == (user.value, pwd.value)
  {
    if user.None? || user.value == "" || pwd.None? || pwd.value == "" then Err(ConfigError(MissingCredentials))
    else Ok((user.value, pwd.value))
  }
}
