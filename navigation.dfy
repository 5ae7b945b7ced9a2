/**
 The router that the screens drive. Only `replace` is used; the model keeps
 the targets of all `replace` calls, in call order, so that "navigates to X"
 and "does not navigate" can be stated.
 */
module Navigation {

  /** The route of one chat screen. */
  function ChatRoute(id: string): string
  {
    "/chat/" + id
  }

  /** Different chats have different routes. */
  lemma ChatRouteInjective(a: string, b: string)
    requires ChatRoute(a) == ChatRoute(b)
    ensures a == b
  {
    assert a == ChatRoute(a)[6..];
    assert b == ChatRoute(b)[6..];
  }

  class Router {
    var history: seq<string>

    constructor ()
      ensures history == []
    {
      history := [];
    }

    method Replace(href: string)
      modifies this
      ensures history == old(history) + [href]
    {
      history := history + [href];
    }
  }
}
