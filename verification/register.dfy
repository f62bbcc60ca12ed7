/**
 * The registration screen: `validarFormulario`, which rebuilds the error
 * map from the four field values, the edit handlers that clear one field's
 * entry, and the submit handler `manejarRegistro`.
 *
 * The email rule (`Patterns.EMAIL_ADDRESS`) is a platform regular expression
 * whose definition is not part of this model; it is passed in as `isEmail`.
 */
module RegisterScreen {
  import opened Wrappers
  import opened KotlinText
  import opened Routes
  import opened Navigation

  datatype Field = NombreUsuario | Correo | Contrasena | ConfirmarContrasena

  /** The key each field's message is stored under in `errores`. */
  function Key(f: Field): string {
    match f
    case NombreUsuario => "nombreUsuario"
    case Correo => "correo"
    case Contrasena => "contrasena"
    case ConfirmarContrasena => "confirmarContrasena"
  }

  const FieldKeys: set<string> := {"nombreUsuario", "correo", "contrasena", "confirmarContrasena"}

  lemma KeyInjective(f: Field, g: Field)
    ensures Key(f) == Key(g) <==> f == g
    ensures Key(f) in FieldKeys
  {
  }

  const UsuarioObligatorio: string := "El nombre de usuario es obligatorio"
  const CorreoInvalido: string := "El correo no es válido"
  const ContrasenaCorta: string := "La contraseña debe tener al menos 6 caracteres"
  const NoCoinciden: string := "Las contraseñas no coinciden"

  const LongitudMinima: nat := 6

  /** The message each rule stores under its field's key. */
  function Message(f: Field): string {
    match f
    case NombreUsuario => UsuarioObligatorio
    case Correo => CorreoInvalido
    case Contrasena => ContrasenaCorta
    case ConfirmarContrasena => NoCoinciden
  }

  datatype RegisterState = RegisterState(
    nombreUsuario: string,
    correo: string,
    contrasena: string,
    confirmarContrasena: string,
    errores: map<string, string>,
    estaEnviando: bool)

  const Initial: RegisterState := RegisterState("", "", "", "", map[], false)

  function Value(s: RegisterState, f: Field): string {
    match f
    case NombreUsuario => s.nombreUsuario
    case Correo => s.correo
    case Contrasena => s.contrasena
    case ConfirmarContrasena => s.confirmarContrasena
  }

  // ---------------------------------------------------------------------
  // validarFormulario
  // ---------------------------------------------------------------------

  /** The error map the four rules produce; every rule is evaluated. */
  function Validate(s: RegisterState, isEmail: string -> bool): (m: map<string, string>)
    ensures m.Keys <= FieldKeys
    ensures Key(NombreUsuario) in m <==> IsBlank(s.nombreUsuario)
    ensures Key(Correo) in m <==> !isEmail(s.correo)
    ensures Key(Contrasena) in m <==> Length(s.contrasena) < LongitudMinima
    ensures Key(ConfirmarContrasena) in m <==> s.contrasena != s.confirmarContrasena
    ensures Key(NombreUsuario) in m ==> m[Key(NombreUsuario)] == UsuarioObligatorio
    ensures Key(Correo) in m ==> m[Key(Correo)] == CorreoInvalido
    ensures Key(Contrasena) in m ==> m[Key(Contrasena)] == ContrasenaCorta
    ensures Key(ConfirmarContrasena) in m ==> m[Key(ConfirmarContrasena)] == NoCoinciden
  {
    var m0: map<string, string> := map[];
    var m1 := if IsBlank(s.nombreUsuario) then m0[Key(NombreUsuario) := UsuarioObligatorio] else m0;
    var m2 := if !isEmail(s.correo) then m1[Key(Correo) := CorreoInvalido] else m1;
    var m3 := if Length(s.contrasena) < LongitudMinima then m2[Key(Contrasena) := ContrasenaCorta] else m2;
    if s.contrasena != s.confirmarContrasena then m3[Key(ConfirmarContrasena) := NoCoinciden] else m3
  }

  /** The form is acceptable when no rule is violated. */
  predicate Valid(s: RegisterState, isEmail: string -> bool) {
    && !IsBlank(s.nombreUsuario)
    && isEmail(s.correo)
    && Length(s.contrasena) >= LongitudMinima
    && s.contrasena == s.confirmarContrasena
  }

  /** `validarFormulario()`: stores the fresh map and reports whether it is empty. */
  function ValidarFormulario(s: RegisterState, isEmail: string -> bool): (r: (RegisterState, bool))
    ensures r.0.errores == Validate(s, isEmail)
    ensures r.1 <==> r.0.errores == map[]
    ensures r.1 <==> Valid(s, isEmail)
    ensures r.0.(errores := s.errores) == s
  {
    var nuevos := Validate(s, isEmail);
    assert Valid(s, isEmail) ==> nuevos.Keys == {};
    (s.(errores := nuevos), |nuevos| == 0)
  }

  /** Validation reads only the four values: the previous map plays no part. */
  lemma ValidationIgnoresPreviousErrors(s: RegisterState, e: map<string, string>, isEmail: string -> bool)
    ensures ValidarFormulario(s.(errores := e), isEmail) == ValidarFormulario(s, isEmail)
  {
  }

  /** Running validation again on unchanged values yields the same state. */
  lemma ValidationIdempotent(s: RegisterState, isEmail: string -> bool)
    ensures var once := ValidarFormulario(s, isEmail);
      ValidarFormulario(once.0, isEmail) == once
  {
    ValidationIgnoresPreviousErrors(s, Validate(s, isEmail), isEmail);
  }

  /** The key set is exactly the set of violated rules. */
  lemma KeysAreViolatedRules(s: RegisterState, isEmail: string -> bool, f: Field)
    ensures Key(f) in Validate(s, isEmail) <==>
      match f
      case NombreUsuario => IsBlank(s.nombreUsuario)
      case Correo => !isEmail(s.correo)
      case Contrasena => Length(s.contrasena) < LongitudMinima
      case ConfirmarContrasena => s.contrasena != s.confirmarContrasena
  {
  }

  /** An email the pattern rejects, with every other field fine, gives exactly one entry. */
  lemma ScenarioOnlyEmailInvalid(s: RegisterState, isEmail: string -> bool)
    requires s.correo == "not-an-email" && !isEmail(s.correo)
    requires !IsBlank(s.nombreUsuario)
    requires Length(s.contrasena) >= LongitudMinima && s.contrasena == s.confirmarContrasena
    ensures Validate(s, isEmail) == map[Key(Correo) := CorreoInvalido]
    ensures !ValidarFormulario(s, isEmail).1
  {
  }

  // ---------------------------------------------------------------------
  // Edits
  // ---------------------------------------------------------------------

  /** An `onValueChange` handler: store the value, drop that field's entry. */
  function Edit(s: RegisterState, f: Field, v: string): (r: RegisterState)
    ensures Value(r, f) == v
    ensures forall g :: g != f ==> Value(r, g) == Value(s, g)
    ensures r.estaEnviando == s.estaEnviando
    ensures Key(f) !in r.errores
    ensures forall k :: k != Key(f) ==> (k in r.errores <==> k in s.errores)
    ensures forall k :: k in r.errores ==> r.errores[k] == s.errores[k]
  {
    var errores := s.errores - {Key(f)};
    match f
    case NombreUsuario => s.(nombreUsuario := v, errores := errores)
    case Correo => s.(correo := v, errores := errores)
    case Contrasena => s.(contrasena := v, errores := errores)
    case ConfirmarContrasena => s.(confirmarContrasena := v, errores := errores)
  }

  /** Editing the password neither adds nor removes the confirmation entry. */
  lemma EditPasswordKeepsConfirmationEntry(s: RegisterState, v: string)
    ensures Key(ConfirmarContrasena) in Edit(s, Contrasena, v).errores
            <==> Key(ConfirmarContrasena) in s.errores
  {
  }

  /**
   * The clearing is optimistic: after any passing check, changing the password
   * to anything other than the confirmation leaves an empty map although the
   * confirmation rule is now violated.
   */
  lemma StalePasswordMismatch(s: RegisterState, v: string, isEmail: string -> bool)
    requires Valid(s, isEmail) && v != s.confirmarContrasena
    ensures var r := Edit(ValidarFormulario(s, isEmail).0, Contrasena, v);
      && r.errores == map[]
      && Key(ConfirmarContrasena) in Validate(r, isEmail)
  {
  }

  /**
   * A concrete instance: "secreto" confirmed, then changed to "secreto2".
   */
  lemma StaleMismatchAfterPasswordEdit(isEmail: string -> bool)
    requires isEmail("a@b.cl")
    ensures var s := RegisterState("ana", "a@b.cl", "secreto", "secreto", map[], false);
      var r := Edit(ValidarFormulario(s, isEmail).0, Contrasena, "secreto2");
      && r.errores == map[]
      && Key(ConfirmarContrasena) in Validate(r, isEmail)
  {
    var s := RegisterState("ana", "a@b.cl", "secreto", "secreto", map[], false);
    assert !IsWhitespace('a') && "ana"[0] == 'a';
    assert AllBmp("secreto");
    assert Valid(s, isEmail);
  }

  // ---------------------------------------------------------------------
  // Submit
  // ---------------------------------------------------------------------

  datatype RegisterStep = RegisterStep(state: RegisterState, backStack: BackStack, navigated: bool)

  /** `manejarRegistro`. */
  function Submit(s: RegisterState, stack: BackStack, isEmail: string -> bool): (r: RegisterStep)
    ensures r.navigated <==> Valid(s, isEmail)
    ensures r.navigated <==> r.state.errores == map[]
    ensures r.state.errores == Validate(s, isEmail)
    ensures forall f :: Value(r.state, f) == Value(s, f)
    ensures r.navigated ==> !r.state.estaEnviando
    ensures !s.estaEnviando ==> !r.state.estaEnviando
    ensures !r.navigated ==> r.state.estaEnviando == s.estaEnviando && r.backStack == stack
    ensures r.navigated ==> |r.backStack| >= 1 && r.backStack[|r.backStack| - 1] == Route(Home)
    ensures r.navigated ==> r.backStack[..|r.backStack| - 1] == PopUpToInclusive(stack, Route(Login))
  {
    var (validated, ok) := ValidarFormulario(s, isEmail);
    if ok then
      var sending := validated.(estaEnviando := true);
      var home := Navigate(stack, Route(Home), Some(Route(Login)));
      RegisterStep(sending.(estaEnviando := false), home, true)
    else
      RegisterStep(validated, stack, false)
  }

  /** The "already have an account" link: a plain push of the login route. */
  function OpenLogin(stack: BackStack): (r: BackStack)
    ensures |r| == |stack| + 1 && r[..|stack|] == stack
    ensures r[|r| - 1] == Route(Login)
  {
    Navigate(stack, Route(Login), None)
  }

  /**
   * Whatever the shown map says, submit re-checks every rule: a stale empty
   * map never lets an invalid form through.
   */
  lemma SubmitIgnoresShownErrors(s: RegisterState, e: map<string, string>, stack: BackStack, isEmail: string -> bool)
    ensures Submit(s.(errores := e), stack, isEmail) == Submit(s, stack, isEmail)
  {
    ValidationIgnoresPreviousErrors(s, e, isEmail);
  }

  // ---------------------------------------------------------------------
  // Sessions: any sequence of user events
  // ---------------------------------------------------------------------

  /**
   * What every reachable state satisfies: no submission is in flight, and the
   * shown map holds only field keys, each with its own rule's message.
   */
  predicate WellFormed(s: RegisterState) {
    && !s.estaEnviando
    && s.errores.Keys <= FieldKeys
    && forall f :: Key(f) in s.errores ==> s.errores[Key(f)] == Message(f)
  }

  datatype RegisterEvent = TypeInto(field: Field, v: string) | PressSubmit

  function Step(s: RegisterState, stack: BackStack, e: RegisterEvent, isEmail: string -> bool): (r: RegisterStep)
    ensures !r.navigated ==> r.backStack == stack
  {
    match e
    case TypeInto(f, v) => RegisterStep(Edit(s, f, v), stack, false)
    case PressSubmit => Submit(s, stack, isEmail)
  }

  /** Feeds the events in order; a successful registration leaves the screen. */
  function Run(s: RegisterState, stack: BackStack, events: seq<RegisterEvent>, isEmail: string -> bool): RegisterStep
    decreases |events|
  {
    if |events| == 0 then RegisterStep(s, stack, false)
    else
      var r := Step(s, stack, events[0], isEmail);
      if r.navigated then r else Run(r.state, r.backStack, events[1..], isEmail)
  }

  /** The stored map of a fresh validation carries each rule's own message. */
  lemma ValidateWellFormed(s: RegisterState, isEmail: string -> bool, f: Field)
    requires Key(f) in Validate(s, isEmail)
    ensures Validate(s, isEmail)[Key(f)] == Message(f)
  {
  }

  lemma StepKeepsWellFormed(s: RegisterState, stack: BackStack, e: RegisterEvent, isEmail: string -> bool)
    requires WellFormed(s)
    ensures WellFormed(Step(s, stack, e, isEmail).state)
  {
    var r := Step(s, stack, e, isEmail).state;
    if e.PressSubmit? {
      forall f | Key(f) in r.errores
        ensures r.errores[Key(f)] == Message(f)
      {
        ValidateWellFormed(s, isEmail, f);
      }
    }
  }

  /** From the first frame on, every state is well formed, so `estaEnviando` is always false. */
  lemma {:induction false} RunKeepsWellFormed(
    s: RegisterState, stack: BackStack, events: seq<RegisterEvent>, isEmail: string -> bool)
    requires WellFormed(s)
    ensures WellFormed(Run(s, stack, events, isEmail).state)
    ensures !Run(s, stack, events, isEmail).state.estaEnviando
    decreases |events|
  {
    if |events| > 0 {
      var r := Step(s, stack, events[0], isEmail);
      StepKeepsWellFormed(s, stack, events[0], isEmail);
      if !r.navigated {
        RunKeepsWellFormed(r.state, r.backStack, events[1..], isEmail);
      }
    }
  }

  lemma InitialWellFormed()
    ensures WellFormed(Initial)
  {
  }

  /** Registering from login -> register leaves just "home" behind. */
  lemma ScenarioRegisterFromLogin(s: RegisterState, isEmail: string -> bool)
    requires Valid(s, isEmail)
    ensures Submit(s, [Route(Login), Route(Register)], isEmail).backStack == [Route(Home)]
  {
    assert PopUpToInclusive([Route(Login), Route(Register)], Route(Login)) == [];
  }
}
