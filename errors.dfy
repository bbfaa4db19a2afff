/**
 * The failures the script distinguishes and the exit status `main` maps
 * them to (listar_processos_sei.py:66-79, 976-990).
 */
module Errors {
  import opened Wrappers

  /** Why `login_sei` gives up. */
  datatype LoginFailure = EmptyCredentials | LoginNetworkError | InvalidCredentials | AccountBlocked | NotConfirmed

  /** Why a step of the processing fails with `SEIProcessoError`. */
  datatype ProcessoFailure =
    | ControlPageUnreachable
    | UnitSelectionNetworkError
    | ControlFormNotFound
    | PaginationUnavailable
    | NothingToExport

  /** Why settings are refused with `SEIConfigError`. */
  datatype ConfigFailure = MissingOrgao | MissingUnidade | MissingCredentials

  /** The three subclasses of `SEIError`. */
  datatype SeiError =
    | ConfigError(config: ConfigFailure)
    | LoginError(login: LoginFailure)
    | ProcessoError(processo: ProcessoFailure)

  /** How a run ends: normally, with an `SEIError`, interrupted, or with any other exception. */
  datatype Outcome = Finished | Raised(error: SeiError) | Interrupted | Unexpected

  /** `main`'s exit status. */
  function ExitCode(o: Outcome): (code: int)
    ensures code == 0 <==> o.Finished?
    ensures code == 10 <==> o.Raised?
    ensures code == 130 <==> o.Interrupted?
    ensures code == 99 <==> o.Unexpected?
  {
    match o
    case Finished => 0
    case Raised(_) => 10
    case Interrupted => 130
    case Unexpected => 99
  }

  /** The outcome of a run that stops with `r`'s error, if any. */
  function OutcomeOf<T>(r: Result<T, SeiError>): Outcome {
    match r
    case Ok(_) => Finished
    case Err(e) => Raised(e)
  }
}
