/**
 * The abstract effect of `NavController.navigate` on the back stack: an
 * optional inclusive `popUpTo`, then a push of the destination.
 */
module Navigation {
  import opened Wrappers

  /** Route strings, bottom of the stack first. */
  type BackStack = seq<string>

  /** The index of the topmost entry equal to `route`. */
  function LastIndexOf(stack: BackStack, route: string): (r: Option<nat>)
    ensures r.None? <==> route !in stack
    ensures r.Some? ==> r.value < |stack| && stack[r.value] == route
    ensures r.Some? ==> route !in stack[r.value + 1..]
  {
    if |stack| == 0 then None
    else if stack[|stack| - 1] == route then Some(|stack| - 1)
    else
      var below := LastIndexOf(stack[..|stack| - 1], route);
      assert stack == stack[..|stack| - 1] + [stack[|stack| - 1]];
      if below.Some? then
        assert stack[below.value + 1..] == stack[..|stack| - 1][below.value + 1..] + [stack[|stack| - 1]];
        below
      else below
  }

  /**
   * `popUpTo(route) { inclusive = true }`: removes the topmost entry equal to
   * `route` and everything above it. A route that is not on the stack pops
   * nothing.
   */
  function PopUpToInclusive(stack: BackStack, route: string): (r: BackStack)
    ensures r <= stack
    ensures route !in stack ==> r == stack
    ensures route in stack ==> |r| < |stack| && stack[|r|] == route && route !in stack[|r| + 1..]
  {
    match LastIndexOf(stack, route)
    case None => stack
    case Some(i) => stack[..i]
  }

  /** `navigate(dest) { popUpTo(p) { inclusive = true } }`, or a plain push. */
  function Navigate(stack: BackStack, dest: string, popUpTo: Option<string>): (r: BackStack)
    ensures |r| >= 1 && r[|r| - 1] == dest
    ensures r[..|r| - 1] <= stack
    ensures popUpTo.None? || popUpTo.value !in stack ==> r[..|r| - 1] == stack
    ensures popUpTo.Some? && popUpTo.value in stack ==>
              |r| <= |stack| && stack[|r| - 1] == popUpTo.value && popUpTo.value !in stack[|r|..]
  {
    var base := if popUpTo.Some? then PopUpToInclusive(stack, popUpTo.value) else stack;
    assert (base + [dest])[..|base|] == base;
    base + [dest]
  }
}
