/**
 * Classification of the login response (listar_processos_sei.py:270-314)
 * and of the unit-switch response (463).
 */
module Auth {
  import opened Wrappers
  import opened Text
  import opened FormCodec
  import opened Errors

  /** The form `login_sei` posts. */
  function LoginForm(user: string, pwd: string, orgao: string): (data: FormData)
    ensures data.Keys == {"txtUsuario", "pwdSenha", "selOrgao", "hdnAcao", "Acessar"}
    ensures data["txtUsuario"] == user && data["pwdSenha"] == pwd && data["selOrgao"] == orgao
  {
    map["txtUsuario" := user, "pwdSenha" := pwd, "selOrgao" := orgao, "hdnAcao" := "2", "Acessar" := "Acessar"]
  }

  /** The markers of an authenticated page, matched with their case. */
  predicate LoggedIn(text: string) {
    Contains(text, "Sair") || Contains(text, "Controle de Processos")
  }

  predicate SaysInvalid(text: string) {
    Contains(Lower(text), "usu\U{E1}rio ou senha") || Contains(Lower(text), "inval")
  }

  predicate SaysBlocked(text: string) {
    Contains(Lower(text), "bloqueado") || Contains(Lower(text), "bloqueio")
  }

  /**
   * The verdict on the page answering the login POST: authenticated when it
   * shows a logged-in marker; otherwise invalid credentials, then a blocked
   * account, then unconfirmed, looking at the lower-cased text.
   */
  function ClassifyLogin(text: string): (r: Result<string, LoginFailure>)
    ensures r.Ok? <==> LoggedIn(text)
    ensures r.Ok? ==> r.value == text
    ensures r == Err(InvalidCredentials) <==> !LoggedIn(text) && SaysInvalid(text)
    ensures r == Err(AccountBlocked) <==> !LoggedIn(text) && !SaysInvalid(text) && SaysBlocked(text)
    ensures r == Err(NotConfirmed) <==> !LoggedIn(text) && !SaysInvalid(text) && !SaysBlocked(text)
  {
    if LoggedIn(text) then Ok(text)
    else if SaysInvalid(text) then Err(InvalidCredentials)
    else if SaysBlocked(text) then Err(AccountBlocked)
    else Err(NotConfirmed)
  }

  /**
   * `login_sei`: `loginPage` is the answer to the GET of the login page and
   * `server` answers the POST of the login form; `None` stands for a
   * transport failure. Empty credentials fail before any request.
   */
  function Login(user: string, pwd: string, orgao: string, loginPage: Option<string>, server: FormData -> Option<string>): (r: Result<string, LoginFailure>)
    ensures r == Err(EmptyCredentials) <==> user == "" || pwd == ""
    ensures r.Ok? ==> LoggedIn(r.value) && server(LoginForm(user, pwd, orgao)) == Some(r.value)
    ensures user != "" && pwd != "" && loginPage.None? ==> r == Err(LoginNetworkError)
    ensures r == Err(InvalidCredentials) ==>
      server(LoginForm(user, pwd, orgao)).Some? && SaysInvalid(server(LoginForm(user, pwd, orgao)).value)
    ensures user != "" && pwd != "" && loginPage.Some? ==>
      r == match server(LoginForm(user, pwd, orgao))
        case None => Err(LoginNetworkError)
        case Some(t) => ClassifyLogin(t)
  {
    if user == "" || pwd == "" then Err(EmptyCredentials)
    else if loginPage.None? then Err(LoginNetworkError)
    else match server(LoginForm(user, pwd, orgao))
      case None => Err(LoginNetworkError)
      case Some(text) => ClassifyLogin(text)
  }

  /** A substring stays a substring after lower-casing both. */
  lemma LowerContains(s: string, w: string)
    requires Contains(s, w)
    ensures Contains(Lower(s), Lower(w))
  {
    var i :| OccursAt(s, w, i);
    assert Lower(s)[i..i + |w|] == Lower(w);
    assert OccursAt(Lower(s), Lower(w), i);
  }

  /** An error page that spells "inval" in any case (such as "INVALID") is read as invalid credentials. */
  lemma AnyCaseInvalid(text: string, w: string)
    requires Contains(text, w) && Lower(w) == "inval"
    requires !LoggedIn(text)
    ensures ClassifyLogin(text) == Err(InvalidCredentials)
  {
    LowerContains(text, w);
  }

  lemma LowerAccented()
    ensures Lower("INV\U{C1}LIDA") == "inv\U{E1}lida"
  {
    var l := Lower("INV\U{C1}LIDA");
    forall i | 0 <= i < 8 ensures l[i] == "inv\U{E1}lida"[i] {
      assert l[i] == LowerChar("INV\U{C1}LIDA"[i]);
    }
  }

  lemma AccentedWords()
    ensures !Contains("inv\U{E1}lida", "inval")
    ensures !Contains("inv\U{E1}lida", "bloqueio")
    ensures !Contains("INV\U{C1}LIDA", "Sair")
  {
    var l := "inv\U{E1}lida";
    forall i | 0 <= i <= |l| - 5 ensures !OccursAt(l, "inval", i) {
      if i == 0 {
        MismatchAt(l, "inval", i, 3);
      } else {
        MismatchAt(l, "inval", i, 0);
      }
    }
    var u := "INV\U{C1}LIDA";
    forall i | 0 <= i <= |u| - 4 ensures !OccursAt(u, "Sair", i) {
      MismatchAt(u, "Sair", i, 0);
    }
  }

  /**
   * The accented spelling is not recognised: "INVÁLIDA" lower-cases to
   * "inválida", which does not contain "inval", so a page saying only that
   * is classified as an unconfirmed login.
   */
  lemma AccentedInvalidUnrecognised()
    ensures !SaysInvalid("INV\U{C1}LIDA")
    ensures ClassifyLogin("INV\U{C1}LIDA") == Err(NotConfirmed)
  {
    LowerAccented();
    AccentedWords();
  }

  /** Whether the answer to the unit-switch POST shows the control page. */
  function SwitchSucceeded(text: string): (ok: bool)
    ensures ok <==> exists i :: OccursAt(text, "Controle de Processos", i) || OccursAt(text, "procedimento_controlar", i)
  {
    Contains(text, "Controle de Processos") || Contains(text, "procedimento_controlar")
  }
}
