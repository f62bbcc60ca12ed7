/**
 * The login screen's state, its real-time field validation (the two
 * `LaunchedEffect` blocks, run synchronously here), the derived
 * `esFormularioValido` flag and the submit handler `manejarInicioSesion`.
 */
module LoginScreen {
  import opened Wrappers
  import opened KotlinText
  import opened Routes
  import opened Navigation

  const UsuarioObligatorio: string := "El nombre de usuario es obligatorio."
  const ContrasenaObligatoria: string := "La contraseña es obligatoria."
  const ContrasenaCorta: string := "La contraseña debe tener al menos 6 caracteres."
  const CredencialesInvalidas: string := "Credenciales inválidas."

  const LongitudMinima: nat := 6

  /** The one credential pair the screen accepts. */
  const UsuarioDemo: string := "test"
  const ContrasenaDemo: string := "password123"

  /** The screen's remembered state (the unused "remember password" box left out). */
  datatype LoginState = LoginState(
    nombreUsuario: string,
    contrasena: string,
    usuarioError: Option<string>,
    contrasenaError: Option<string>,
    mensajeError: Option<string>,
    estaEnviando: bool)

  /** The state as declared, before any effect has run. */
  const Initial: LoginState := LoginState("", "", None, None, None, false)

  // ---------------------------------------------------------------------
  // Field rules
  // ---------------------------------------------------------------------

  /** The error the username effect stores for `u`. */
  function UsuarioError(u: string): (r: Option<string>)
    ensures r == Some(UsuarioObligatorio) <==> u == ""
    ensures r == None <==> u != ""
  {
    if IsEmpty(u) then Some(UsuarioObligatorio) else None
  }

  /** The error the password effect stores for `p`: three exclusive cases. */
  function ContrasenaError(p: string): (r: Option<string>)
    ensures r == Some(ContrasenaObligatoria) <==> p == ""
    ensures r == Some(ContrasenaCorta) <==> p != "" && Length(p) < LongitudMinima
    ensures r == None <==> Length(p) >= LongitudMinima
  {
    if IsEmpty(p) then Some(ContrasenaObligatoria)
    else if Length(p) < LongitudMinima then Some(ContrasenaCorta)
    else None
  }

  /** `esFormularioValido`: submittable exactly when neither field rule fires. */
  function EsFormularioValido(u: string, p: string): (b: bool)
    ensures b <==> u != "" && Length(p) >= LongitudMinima
    ensures b <==> UsuarioError(u) == None && ContrasenaError(p) == None
  {
    !IsEmpty(u) && Length(p) >= LongitudMinima
  }

  /** The credential check: only the accepted pair passes, and it always meets the form rules. */
  function CredencialesCoinciden(u: string, p: string): (r: bool)
    ensures r <==> u == UsuarioDemo && p == ContrasenaDemo
    ensures r ==> EsFormularioValido(u, p)
  {
    assert AllBmp(ContrasenaDemo);
    u == UsuarioDemo && p == ContrasenaDemo
  }

  // ---------------------------------------------------------------------
  // Screen invariant and effects
  // ---------------------------------------------------------------------

  /** Both error fields agree with their rules and no submission is in flight. */
  predicate Consistent(s: LoginState) {
    && s.usuarioError == UsuarioError(s.nombreUsuario)
    && s.contrasenaError == ContrasenaError(s.contrasena)
    && !s.estaEnviando
  }

  /** Both effects running, as on first composition. */
  function RunEffects(s: LoginState): (r: LoginState)
    ensures r.nombreUsuario == s.nombreUsuario && r.contrasena == s.contrasena
    ensures r.mensajeError == s.mensajeError && r.estaEnviando == s.estaEnviando
    ensures !s.estaEnviando ==> Consistent(r)
  {
    s.(usuarioError := UsuarioError(s.nombreUsuario),
       contrasenaError := ContrasenaError(s.contrasena))
  }

  /** The first frame already shows both "required" messages. */
  lemma FirstCompositionShowsRequired()
    ensures Consistent(RunEffects(Initial))
    ensures RunEffects(Initial).usuarioError == Some(UsuarioObligatorio)
    ensures RunEffects(Initial).contrasenaError == Some(ContrasenaObligatoria)
  {
  }

  /**
   * Typing into the username field. The keyed effect restarts only when the
   * value actually changes.
   */
  function EditUsuario(s: LoginState, v: string): (r: LoginState)
    ensures r.nombreUsuario == v
    ensures v == s.nombreUsuario ==> r == s
    ensures r.(nombreUsuario := s.nombreUsuario, usuarioError := s.usuarioError) == s
    ensures v != s.nombreUsuario ==> (r.usuarioError == None <==> v != "")
    ensures Consistent(s) ==> Consistent(r)
  {
    if v == s.nombreUsuario then s
    else s.(nombreUsuario := v, usuarioError := UsuarioError(v))
  }

  /** Typing into the password field, with its keyed effect. */
  function EditContrasena(s: LoginState, v: string): (r: LoginState)
    ensures r.contrasena == v
    ensures v == s.contrasena ==> r == s
    ensures r.(contrasena := s.contrasena, contrasenaError := s.contrasenaError) == s
    ensures v != s.contrasena ==> (r.contrasenaError == None <==> Length(v) >= LongitudMinima)
    ensures Consistent(s) ==> Consistent(r)
  {
    if v == s.contrasena then s
    else s.(contrasena := v, contrasenaError := ContrasenaError(v))
  }

  // ---------------------------------------------------------------------
  // Submit
  // ---------------------------------------------------------------------

  datatype LoginStep = LoginStep(state: LoginState, backStack: BackStack, navigated: bool)

  /** Go home, dropping the topmost "login" entry and everything above it. */
  function NavigateHome(stack: BackStack): BackStack {
    Navigate(stack, Route(Home), Some(Route(Login)))
  }

  /** `manejarInicioSesion`. */
  function Submit(s: LoginState, stack: BackStack): (r: LoginStep)
    ensures r.state.nombreUsuario == s.nombreUsuario && r.state.contrasena == s.contrasena
    // navigation happens exactly for a valid form holding the accepted pair
    ensures r.navigated <==>
              EsFormularioValido(s.nombreUsuario, s.contrasena) && CredencialesCoinciden(s.nombreUsuario, s.contrasena)
    ensures !r.navigated ==> r.backStack == stack
    ensures r.navigated ==> |r.backStack| >= 1 && r.backStack[|r.backStack| - 1] == Route(Home)
    ensures r.navigated ==> r.backStack[..|r.backStack| - 1] == PopUpToInclusive(stack, Route(Login))
    // a valid form: the credential check decides the message, field errors stay
    ensures EsFormularioValido(s.nombreUsuario, s.contrasena) ==>
              && !r.state.estaEnviando
              && (r.state.mensajeError == None <==> CredencialesCoinciden(s.nombreUsuario, s.contrasena))
              && (r.state.mensajeError != None ==> r.state.mensajeError == Some(CredencialesInvalidas))
              && r.state.usuarioError == s.usuarioError
              && r.state.contrasenaError == s.contrasenaError
    // an invalid form: only empty fields get their "required" message back
    ensures !EsFormularioValido(s.nombreUsuario, s.contrasena) ==>
              && r.state.mensajeError == s.mensajeError
              && r.state.estaEnviando == s.estaEnviando
              && (s.nombreUsuario == "" ==> r.state.usuarioError == Some(UsuarioObligatorio))
              && (s.nombreUsuario != "" ==> r.state.usuarioError == s.usuarioError)
              && (s.contrasena == "" ==> r.state.contrasenaError == Some(ContrasenaObligatoria))
              && (s.contrasena != "" ==> r.state.contrasenaError == s.contrasenaError)
  {
    if EsFormularioValido(s.nombreUsuario, s.contrasena) then
      var sending := s.(estaEnviando := true, mensajeError := None);
      var step :=
        if CredencialesCoinciden(s.nombreUsuario, s.contrasena) then
          LoginStep(sending, NavigateHome(stack), true)
        else
          LoginStep(sending.(mensajeError := Some(CredencialesInvalidas)), stack, false);
      step.(state := step.state.(estaEnviando := false))
    else
      var s1 := if IsEmpty(s.nombreUsuario) then s.(usuarioError := Some(UsuarioObligatorio)) else s;
      var s2 := if IsEmpty(s.contrasena) then s1.(contrasenaError := Some(ContrasenaObligatoria)) else s1;
      LoginStep(s2, stack, false)
  }

  /** In a consistent state, pressing submit on an invalid form changes nothing at all. */
  lemma InvalidSubmitIsNoOp(s: LoginState, stack: BackStack)
    requires Consistent(s)
    requires !EsFormularioValido(s.nombreUsuario, s.contrasena)
    ensures Submit(s, stack) == LoginStep(s, stack, false)
  {
  }

  /** A successful login leaves "home" on top of what lay below the topmost "login". */
  lemma SuccessfulLoginBackStack(s: LoginState, stack: BackStack)
    requires Submit(s, stack).navigated
    requires Route(Login) in stack
    ensures var b := Submit(s, stack).backStack;
      && b[|b| - 1] == Route(Home)
      && |b| <= |stack|
      && b[..|b| - 1] == stack[..|b| - 1]
      && stack[|b| - 1] == Route(Login)
      && Route(Login) !in stack[|b|..]
  {
  }

  /** The "Registrarse" link: a plain push of the registration route. */
  function OpenRegister(stack: BackStack): (r: BackStack)
    ensures |r| == |stack| + 1 && r[..|stack|] == stack
    ensures r[|r| - 1] == Route(Register)
  {
    Navigate(stack, Route(Register), None)
  }

  // ---------------------------------------------------------------------
  // Sessions: any sequence of user events
  // ---------------------------------------------------------------------

  datatype LoginEvent = TypeUsuario(v: string) | TypeContrasena(v: string) | PressSubmit

  function Step(s: LoginState, stack: BackStack, e: LoginEvent): (r: LoginStep)
    ensures !r.navigated ==> r.backStack == stack
  {
    match e
    case TypeUsuario(v) => LoginStep(EditUsuario(s, v), stack, false)
    case TypeContrasena(v) => LoginStep(EditContrasena(s, v), stack, false)
    case PressSubmit => Submit(s, stack)
  }

  /** Feeds the events in order; a successful login leaves the screen. */
  function Run(s: LoginState, stack: BackStack, events: seq<LoginEvent>): LoginStep
    decreases |events|
  {
    if |events| == 0 then LoginStep(s, stack, false)
    else
      var r := Step(s, stack, events[0]);
      if r.navigated then r else Run(r.state, r.backStack, events[1..])
  }

  /** Every reachable state keeps its errors in step with its values and is not sending. */
  lemma {:induction false} RunKeepsConsistent(s: LoginState, stack: BackStack, events: seq<LoginEvent>)
    requires Consistent(s)
    ensures Consistent(Run(s, stack, events).state)
    decreases |events|
  {
    if |events| > 0 {
      var r := Step(s, stack, events[0]);
      assert Consistent(r.state);
      if !r.navigated {
        RunKeepsConsistent(r.state, r.backStack, events[1..]);
      }
    }
  }

  /** Empty username, three-letter password: both messages shown, no navigation. */
  lemma ScenarioEmptyUserShortPassword(stack: BackStack)
    ensures var r := Run(RunEffects(Initial), stack, [TypeContrasena("abc"), PressSubmit]);
      && !r.navigated && r.backStack == stack
      && r.state.usuarioError == Some(UsuarioObligatorio)
      && r.state.contrasenaError == Some(ContrasenaCorta)
  {
    assert Length("abc") == 3;
  }

  /** The accepted pair navigates home and removes the login entry. */
  lemma ScenarioAcceptedCredentials()
    ensures var r := Run(RunEffects(Initial), [Route(Login)],
                         [TypeUsuario(UsuarioDemo), TypeContrasena(ContrasenaDemo), PressSubmit]);
      && r.navigated && r.backStack == [Route(Home)] && r.state.mensajeError == None
  {
    var events := [TypeUsuario(UsuarioDemo), TypeContrasena(ContrasenaDemo), PressSubmit];
    var s0 := RunEffects(Initial);
    var s1 := EditUsuario(s0, UsuarioDemo);
    var s2 := EditContrasena(s1, ContrasenaDemo);
    assert events[1..][1..] == [PressSubmit];
    assert Run(s0, [Route(Login)], events) == Run(s2, [Route(Login)], [PressSubmit]);
    assert CredencialesCoinciden(UsuarioDemo, ContrasenaDemo);
    assert PopUpToInclusive([Route(Login)], Route(Login)) == [];
  }

  /** A valid but wrong password shows the generic message and stays. */
  lemma ScenarioWrongPassword()
    ensures var r := Run(RunEffects(Initial), [Route(Login)],
                         [TypeUsuario(UsuarioDemo), TypeContrasena("wrongpass"), PressSubmit]);
      && !r.navigated && r.backStack == [Route(Login)]
      && r.state.mensajeError == Some(CredencialesInvalidas)
  {
    var events := [TypeUsuario(UsuarioDemo), TypeContrasena("wrongpass"), PressSubmit];
    var s0 := RunEffects(Initial);
    var s1 := EditUsuario(s0, UsuarioDemo);
    var s2 := EditContrasena(s1, "wrongpass");
    assert events[1..][1..] == [PressSubmit];
    assert Run(s0, [Route(Login)], events) == Run(s2, [Route(Login)], [PressSubmit]);
    assert Length("wrongpass") == 9;
  }

  /**
   * `length` counts UTF-16 units: three emoji make a password long enough,
   * though it is only three characters.
   */
  lemma SupplementaryCharactersCountTwice()
    ensures var p := ['\U{1F642}', '\U{1F642}', '\U{1F642}'];
      |p| == 3 && ContrasenaError(p) == None
  {
    var e := '\U{1F642}';
    LengthOfChar(e);
    LengthAppend([e], [e]);
    LengthAppend([e, e], [e]);
    assert [e] + [e] + [e] == [e, e, e];
  }
}
