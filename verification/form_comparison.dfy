/**
 * The two screens check the username differently: login only asks for a
 * non-empty value (`isEmpty`), registration rejects blank ones (`isBlank`).
 */
module FormComparison {
  import opened Wrappers
  import opened KotlinText
  import LoginScreen
  import RegisterScreen

  /** Any blank username that registration rejects but login accepts. */
  lemma BlankUsernameAcceptedOnlyByLogin(u: string, s: RegisterScreen.RegisterState, isEmail: string -> bool)
    requires u != "" && forall i :: 0 <= i < |u| ==> IsWhitespace(u[i])
    requires s.nombreUsuario == u
    ensures LoginScreen.UsuarioError(u) == None
    ensures RegisterScreen.Key(RegisterScreen.NombreUsuario) in RegisterScreen.Validate(s, isEmail)
    ensures !RegisterScreen.Submit(s, [], isEmail).navigated
  {
  }

  /** The two-space username is the concrete case. */
  lemma TwoSpacesUsername(s: RegisterScreen.RegisterState, isEmail: string -> bool)
    requires s.nombreUsuario == "  "
    ensures LoginScreen.UsuarioError("  ") == None
    ensures !RegisterScreen.ValidarFormulario(s, isEmail).1
  {
    BlankUsernameAcceptedOnlyByLogin("  ", s, isEmail);
  }

  /** Conversely, every username registration accepts also passes the login check. */
  lemma RegisterUsernameImpliesLoginUsername(u: string)
    requires !IsBlank(u)
    ensures LoginScreen.UsuarioError(u) == None
  {
  }
}
