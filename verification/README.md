# ReusaYa form validation and navigation, modelled in Dafny

ReusaYa is an Android app for second-hand goods, written with Jetpack Compose. It has three screens. Its only logic is the client-side form validation on the login and registration screens, the submit handlers around that validation, and the route strings used for navigation. This project models that logic as pure functions over strings and immutable screen-state records:

- `KotlinText` (`kotlin_text.dfy`) holds the Kotlin string primitives the screens use. `String.length` counts UTF-16 code units, so a character outside the Basic Multilingual Plane counts twice. It also has `isEmpty`, `isBlank` (with the JVM's `Char.isWhitespace` set written out), the decimal rendering of an `Int` in a string template, and its inverse parser.
- `Routes` (`routes.dfy`) holds the `AppScreen` route literals, `ProductDetail.createRoute`, and a parser that inverts it.
- `Navigation` (`navigation.dfy`) models the back stack as a sequence of route strings. `navigate(dest) { popUpTo(route) { inclusive = true } }` drops the topmost `route` entry and everything above it, then pushes `dest`.
- `Catalog` (`catalog.dfy`) holds the `Product` record with its default description, and the five sample products.
- `LoginScreen` (`login.dfy`) holds the per-field error rules, the `esFormularioValido` flag, the edit handlers and the submit step `manejarInicioSesion`. The two keyed `LaunchedEffect` blocks become a synchronous recomputation of a field's error when its value changes. `Run` feeds any sequence of user events through the screen.
- `RegisterScreen` (`register.dfy`) holds `validarFormulario`, which builds the field → message map from four rules that are all evaluated. It also holds the four edit handlers, each of which clears only its own entry, and the submit step `manejarRegistro`. `Patterns.EMAIL_ADDRESS` is a platform regular expression that the source does not define, so it is passed in as a parameter `isEmail: string -> bool`.
- `FormComparison` (`form_comparison.dfy`) contrasts the two username rules: registration uses `isBlank`, login uses `isEmpty`.

The screens import `com.example.reusaya.data.Screen`, but `Models.kt` declares the sealed class `AppScreen`; its comment says the class was renamed from `Screen`. The model takes `Screen.X.route` to be the `AppScreen` literals.

Every state in the model is immutable, and each handler returns a new state. Navigation returns the new back stack together with a `navigated` flag.

## Model

| member | source | states |
|---|---|---|
| KotlinText.Length | app/src/main/java/com/example/reusaya/screens/LoginScreen.kt:51 | `length` is the number of characters plus the number of characters outside the Basic Multilingual Plane, so it lies between the character count and twice that, and equals the character count exactly when all characters are in the Basic Multilingual Plane |
| KotlinText.LengthOfChar | app/src/main/java/com/example/reusaya/screens/LoginScreen.kt:51 | a single character has length 1, or 2 when it lies outside the Basic Multilingual Plane |
| KotlinText.LengthAppend | app/src/main/java/com/example/reusaya/screens/LoginScreen.kt:51 | the length of a concatenation is the sum of the lengths |
| KotlinText.IsEmpty | app/src/main/java/com/example/reusaya/screens/LoginScreen.kt:41 | `isEmpty()` holds exactly for the empty string |
| KotlinText.IsBlank | app/src/main/java/com/example/reusaya/screens/RegisterScreen.kt:43 | `isBlank()` holds exactly when every character is whitespace, so the empty string is blank |
| KotlinText.NatToDecimal | app/src/main/java/com/example/reusaya/data/Models.kt:13 | a decimal numeral is a non-empty digit string, and the only one starting with "0" is "0" itself |
| KotlinText.DecimalRoundTrip | app/src/main/java/com/example/reusaya/data/Models.kt:13 | reading back the decimal numeral of n gives n |
| KotlinText.IntToString | app/src/main/java/com/example/reusaya/data/Models.kt:13 | `"$n"` starts with a minus sign exactly for negative n, followed by digits with no leading zero; the only rendering that starts with "0" is "0" itself |
| KotlinText.IntToStringRoundTrip | app/src/main/java/com/example/reusaya/data/Models.kt:13 | parsing the rendering of any Int gives back that Int |
| KotlinText.IntToStringInjective | app/src/main/java/com/example/reusaya/data/Models.kt:13 | two Ints render the same exactly when they are equal |
| Routes.ScreenOf | app/src/main/java/com/example/reusaya/data/Models.kt:7-12 | looking up a route string finds only a destination registered under that exact string |
| Routes.Route | app/src/main/java/com/example/reusaya/data/Models.kt:7-12 | Login, Register, Home and ProductDetail are registered under exactly "login", "register", "home" and "product_detail/{productId}", and each of these strings belongs to that destination only |
| Routes.ScreenOfRoute | app/src/main/java/com/example/reusaya/data/Models.kt:8-12 | each destination is found again from its own route string |
| Routes.RoutesDistinct | app/src/main/java/com/example/reusaya/data/Models.kt:8-12 | "login", "register", "home" and "product_detail/{productId}" are pairwise distinct |
| Routes.CreateRoute | app/src/main/java/com/example/reusaya/data/Models.kt:13 | a product route is "product_detail/" followed by the canonical decimal rendering of the id |
| Routes.CreateRouteRoundTrip | app/src/main/java/com/example/reusaya/data/Models.kt:11-13 | stripping the prefix from `createRoute(n)` and parsing the decimal gives back n |
| Routes.CreateRouteInjective | app/src/main/java/com/example/reusaya/data/Models.kt:13 | different product ids give different routes |
| Routes.CreateRouteIsNoRegisteredRoute | app/src/main/java/com/example/reusaya/data/Models.kt:8-13 | `createRoute(n)` never equals the template or "login", "register" or "home" |
| Navigation.LastIndexOf | app/src/main/java/com/example/reusaya/screens/LoginScreen.kt:69 | the topmost index holding the route, with no equal entry above it; absent exactly when the route is not on the stack |
| Navigation.PopUpToInclusive | app/src/main/java/com/example/reusaya/screens/LoginScreen.kt:69 | an inclusive pop leaves a prefix of the stack that ends just below the topmost matching entry, and leaves the stack unchanged when the route is absent |
| Navigation.Navigate | app/src/main/java/com/example/reusaya/screens/LoginScreen.kt:68-70 | the destination ends up on top; below it is the popped stack, or the whole stack when there is no `popUpTo` or its route is not on the stack |
| Catalog.NewProduct | app/src/main/java/com/example/reusaya/data/Models.kt:20-27 | a product built without a description carries the fixed default text |
| Catalog.SampleProducts | app/src/main/java/com/example/reusaya/data/Models.kt:30-36 | five products, with ids 1..5 in order, positive stock and the default description |
| Catalog.SampleIdsDistinct | app/src/main/java/com/example/reusaya/data/Models.kt:30-36 | the sample ids are pairwise distinct |
| LoginScreen.UsuarioError | app/src/main/java/com/example/reusaya/screens/LoginScreen.kt:40-46 | the "obligatorio" message exactly for an empty username, and null otherwise |
| LoginScreen.ContrasenaError | app/src/main/java/com/example/reusaya/screens/LoginScreen.kt:48-56 | three exclusive cases: empty gives "obligatoria", length 1–5 gives "al menos 6", length ≥ 6 gives null |
| LoginScreen.EsFormularioValido | app/src/main/java/com/example/reusaya/screens/LoginScreen.kt:58 | holds exactly for a non-empty username and a password of length ≥ 6, that is, exactly when both field rules give null |
| LoginScreen.CredencialesCoinciden | app/src/main/java/com/example/reusaya/screens/LoginScreen.kt:67 | only "test"/"password123" passes the credential check, and that pair always meets the form rules |
| LoginScreen.RunEffects | app/src/main/java/com/example/reusaya/screens/LoginScreen.kt:40-56 | the effects change only the two field errors; from a state that is not sending they leave errors that match the values |
| LoginScreen.FirstCompositionShowsRequired | app/src/main/java/com/example/reusaya/screens/LoginScreen.kt:29-56 | on the first frame both "required" messages are set |
| LoginScreen.EditUsuario | app/src/main/java/com/example/reusaya/screens/LoginScreen.kt:125 | typing stores the value and touches nothing else but the username error; a changed value gets null exactly when it is non-empty; consistency is preserved |
| LoginScreen.EditContrasena | app/src/main/java/com/example/reusaya/screens/LoginScreen.kt:136 | typing stores the value and touches nothing else but the password error; a changed value gets null exactly when its length is ≥ 6; consistency is preserved |
| LoginScreen.Submit | app/src/main/java/com/example/reusaya/screens/LoginScreen.kt:61-80 | navigates exactly for a valid form with "test"/"password123", putting "home" above what lay below the topmost "login"; a valid submit clears `estaEnviando` and has a null `mensajeError` exactly when the credentials matched; an invalid submit never navigates, keeps `mensajeError` and `estaEnviando`, and sets only the errors of empty fields |
| LoginScreen.InvalidSubmitIsNoOp | app/src/main/java/com/example/reusaya/screens/LoginScreen.kt:75-79 | once the effects have run, an invalid submit changes nothing |
| LoginScreen.SuccessfulLoginBackStack | app/src/main/java/com/example/reusaya/screens/LoginScreen.kt:68-70 | after a successful login "home" is on top, and nothing from the topmost "login" upward remains |
| LoginScreen.OpenRegister | app/src/main/java/com/example/reusaya/screens/LoginScreen.kt:185 | the register link pushes "register" onto the unchanged stack |
| LoginScreen.Step | app/src/main/java/com/example/reusaya/screens/LoginScreen.kt:61-80 | an event that does not navigate leaves the back stack alone |
| LoginScreen.RunKeepsConsistent | app/src/main/java/com/example/reusaya/screens/LoginScreen.kt:34-80 | over any sequence of events, the field errors stay equal to their rules and `estaEnviando` stays false |
| LoginScreen.ScenarioEmptyUserShortPassword | app/src/main/java/com/example/reusaya/screens/LoginScreen.kt:40-80 | username "" and password "abc" show both field errors and do not navigate |
| LoginScreen.ScenarioAcceptedCredentials | app/src/main/java/com/example/reusaya/screens/LoginScreen.kt:67-70 | "test"/"password123" from the stack ["login"] leaves ["home"] |
| LoginScreen.ScenarioWrongPassword | app/src/main/java/com/example/reusaya/screens/LoginScreen.kt:71-73 | "test"/"wrongpass" shows "Credenciales inválidas." and stays on the login screen |
| LoginScreen.SupplementaryCharactersCountTwice | app/src/main/java/com/example/reusaya/screens/LoginScreen.kt:51 | a password of three emoji is only three characters but has length 6, so it passes |
| RegisterScreen.KeyInjective | app/src/main/java/com/example/reusaya/screens/RegisterScreen.kt:43-46 | the four map keys are distinct and are all field names |
| RegisterScreen.Validate | app/src/main/java/com/example/reusaya/screens/RegisterScreen.kt:41-46 | each key is present exactly when its rule is violated (blank username, rejected email, length < 6, mismatch), with its message; the keys are always a subset of the four field names |
| RegisterScreen.ValidarFormulario | app/src/main/java/com/example/reusaya/screens/RegisterScreen.kt:41-49 | stores the fresh map and changes nothing else; returns true exactly when the stored map is empty, that is, exactly when all four rules pass |
| RegisterScreen.ValidationIgnoresPreviousErrors | app/src/main/java/com/example/reusaya/screens/RegisterScreen.kt:41-47 | the outcome does not depend on the previous `errores` |
| RegisterScreen.ValidationIdempotent | app/src/main/java/com/example/reusaya/screens/RegisterScreen.kt:41-47 | validating again on unchanged values yields the same state and verdict |
| RegisterScreen.KeysAreViolatedRules | app/src/main/java/com/example/reusaya/screens/RegisterScreen.kt:42-46 | for every field, its key is present exactly when that field's rule is violated |
| RegisterScreen.ScenarioOnlyEmailInvalid | app/src/main/java/com/example/reusaya/screens/RegisterScreen.kt:44 | with only the email rejected, the map is exactly {"correo" ↦ "El correo no es válido"} and the form is blocked |
| RegisterScreen.Edit | app/src/main/java/com/example/reusaya/screens/RegisterScreen.kt:95-127 | editing a field replaces only that value and removes only that key; every other value, key and message is unchanged |
| RegisterScreen.EditPasswordKeepsConfirmationEntry | app/src/main/java/com/example/reusaya/screens/RegisterScreen.kt:116 | editing the password never adds or removes "confirmarContrasena" |
| RegisterScreen.StalePasswordMismatch | app/src/main/java/com/example/reusaya/screens/RegisterScreen.kt:116 | after any passing check, changing the password to anything other than the confirmation leaves an empty map although the confirmation rule is now violated |
| RegisterScreen.StaleMismatchAfterPasswordEdit | app/src/main/java/com/example/reusaya/screens/RegisterScreen.kt:116 | example: with "secreto" confirmed and the password changed to "secreto2", the map is empty while validation would report the mismatch |
| RegisterScreen.Submit | app/src/main/java/com/example/reusaya/screens/RegisterScreen.kt:52-61 | navigates exactly when validation passes, that is, exactly when the stored map is empty; values are kept; after navigating `estaEnviando` is false, and a blocked submit keeps its previous value (so false stays false); "home" goes on top of what lay below the topmost "login" |
| RegisterScreen.OpenLogin | app/src/main/java/com/example/reusaya/screens/RegisterScreen.kt:159 | the login link pushes "login" onto the unchanged stack |
| RegisterScreen.SubmitIgnoresShownErrors | app/src/main/java/com/example/reusaya/screens/RegisterScreen.kt:52-53 | submit re-checks every rule, so a stale map never lets an invalid form through |
| RegisterScreen.Step | app/src/main/java/com/example/reusaya/screens/RegisterScreen.kt:52-61 | an event that does not navigate leaves the back stack alone |
| RegisterScreen.StepKeepsWellFormed | app/src/main/java/com/example/reusaya/screens/RegisterScreen.kt:95-127 | an edit or a submit keeps `estaEnviando` false and keeps the shown map to field keys, each holding its own rule's message |
| RegisterScreen.RunKeepsWellFormed | app/src/main/java/com/example/reusaya/screens/RegisterScreen.kt:37-61 | over any sequence of edits and submits from a well-formed state (the initial one included), `estaEnviando` stays false and the map stays well formed |
| RegisterScreen.InitialWellFormed | app/src/main/java/com/example/reusaya/screens/RegisterScreen.kt:30-38 | the screen starts well formed: empty fields, an empty map, not sending |
| RegisterScreen.ScenarioRegisterFromLogin | app/src/main/java/com/example/reusaya/screens/RegisterScreen.kt:56-58 | registering from the stack ["login", "register"] leaves ["home"] |
| FormComparison.BlankUsernameAcceptedOnlyByLogin | app/src/main/java/com/example/reusaya/screens/RegisterScreen.kt:43 | a non-empty all-whitespace username passes the login username rule but fails registration |
| FormComparison.TwoSpacesUsername | app/src/main/java/com/example/reusaya/screens/RegisterScreen.kt:43 | the username "  " is accepted by login and rejected by registration |
| FormComparison.RegisterUsernameImpliesLoginUsername | app/src/main/java/com/example/reusaya/screens/LoginScreen.kt:40-46 | every username that registration accepts also passes the login rule |

## Left out

- All Compose rendering and layout (`Scaffold`, `Column`, cards, the product grid, `UiComponents.kt`). These are presentational and hold no logic.
- `LaunchedEffect` scheduling and recomposition timing. The effects are modelled as synchronous recomputation, and a keyed effect runs again only when its key value changes.
- `rememberSaveable` restoration across configuration changes. This is framework persistence.
- The `recordarContrasena` checkbox. It is stored but never read.
- The definition of `Patterns.EMAIL_ADDRESS`, a platform regular expression that is not part of this model. It is the parameter `isEmail`.
- NavController internals beyond the back-stack effect of `navigate` with an inclusive `popUpTo`. The register screen's back arrow (`popBackStack`) and the "forgotten password" button, which does nothing, are not modelled.
- Image loading and the `precio` strings. Prices are displayed and never parsed.
- Routes.ParseProductRoute: the navigation host reads the `{productId}` argument, and that code is not part of this model. This function is a reference decimal parser over ASCII digits: an optional sign, then digits whose value fits in an Int. It serves only as the inverse that shows `createRoute` can be undone. Kotlin's own parsers also accept non-ASCII decimal digits.
- KotlinText.IsBlank: whitespace is the JVM set (`Character.isWhitespace` or `Character.isSpaceChar`), written out from the Java documentation, because the Kotlin standard library is not part of this model. U+180E (Mongolian vowel separator), which older Unicode versions counted as a space, is treated as not whitespace, following current Unicode.
- Unpaired UTF-16 surrogates: a Dafny `char` is a Unicode scalar value, so a Kotlin `String` holding a lone surrogate cannot be represented. `length` (one unit) and `isBlank` (not whitespace) would treat one like any other character of the Basic Multilingual Plane, so no rule here behaves differently.
