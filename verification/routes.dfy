/**
 * The navigation destinations of the app (the sealed class `AppScreen`).
 * The screens refer to them as `Screen.X.route`; this model takes those to
 * be the same literals.
 */
module Routes {
  import opened Wrappers
  import opened KotlinText

  datatype AppScreen = Login | Register | Home | ProductDetail

  const ProductDetailPrefix: string := "product_detail/"

  /** The route string each destination is registered under. */
  function Route(screen: AppScreen): (r: string)
    ensures r == "login" <==> screen == Login
    ensures r == "register" <==> screen == Register
    ensures r == "home" <==> screen == Home
    ensures r == "product_detail/{productId}" <==> screen == ProductDetail
  {
    match screen
    case Login => "login"
    case Register => "register"
    case Home => "home"
    case ProductDetail => ProductDetailPrefix + "{productId}"
  }

  /** The destination registered under `route`, if any: the inverse of Route. */
  function ScreenOf(route: string): (r: Option<AppScreen>)
    ensures r.Some? ==> Route(r.value) == route
  {
    if route == "login" then Some(Login)
    else if route == "register" then Some(Register)
    else if route == "home" then Some(Home)
    else if route == ProductDetailPrefix + "{productId}" then Some(ProductDetail)
    else None
  }

  lemma ScreenOfRoute(screen: AppScreen)
    ensures ScreenOf(Route(screen)) == Some(screen)
  {
  }

  /** The four route strings are pairwise distinct. */
  lemma RoutesDistinct(a: AppScreen, b: AppScreen)
    ensures Route(a) == Route(b) <==> a == b
  {
    ScreenOfRoute(a);
    ScreenOfRoute(b);
  }

  /** `ProductDetail.createRoute(productId)`: the prefix, then the id in decimal. */
  function CreateRoute(productId: int32): (r: string)
    ensures |r| > |ProductDetailPrefix|
    ensures r[..|ProductDetailPrefix|] == ProductDetailPrefix
    ensures r[|ProductDetailPrefix|] == '-' || IsDigit(r[|ProductDetailPrefix|])
    ensures r[|ProductDetailPrefix|..] == IntToString(productId)
  {
    ProductDetailPrefix + IntToString(productId)
  }

  /** Strips the route prefix and reads the product id back. */
  function ParseProductRoute(route: string): (r: Option<int32>)
    ensures r.Some? ==> |route| > |ProductDetailPrefix|
  {
    if |route| >= |ProductDetailPrefix| && route[..|ProductDetailPrefix|] == ProductDetailPrefix
    then ParseInt(route[|ProductDetailPrefix|..])
    else None
  }

  lemma CreateRouteRoundTrip(productId: int32)
    ensures ParseProductRoute(CreateRoute(productId)) == Some(productId)
  {
    var r := CreateRoute(productId);
    assert r[|ProductDetailPrefix|..] == IntToString(productId);
    IntToStringRoundTrip(productId);
  }

  lemma CreateRouteInjective(a: int32, b: int32)
    ensures CreateRoute(a) == CreateRoute(b) <==> a == b
  {
    if CreateRoute(a) == CreateRoute(b) {
      CreateRouteRoundTrip(a);
      CreateRouteRoundTrip(b);
    }
  }

  /** A concrete product route is never one of the registered route strings. */
  lemma CreateRouteIsNoRegisteredRoute(productId: int32, screen: AppScreen)
    ensures CreateRoute(productId) != Route(screen)
  {
    var r := CreateRoute(productId);
    if screen == ProductDetail {
      assert Route(screen)[|ProductDetailPrefix|] == '{';
    } else {
      assert |Route(screen)| <= 8 < |r|;
    }
  }
}
