/** What the web controllers hand to their views: the attributes of Spring MVC's `Model`,
    the view name, and the failures they catch from code outside the model. */
module Mvc {
  import opened Wrappers
  import opened Jvm

  /** `VectorStoreDebugController.DocumentResult`: one search hit as the debug page shows it. */
  datatype DocumentResult = DocumentResult(content: string, metadata: map<string, string>, score: string)

  /** A value put into the `Model` with `addAttribute`. `Count` holds a Kotlin `Int`: a
      parameter typed `Int32`, or the size of a list, which never exceeds `Int.MAX_VALUE`. */
  datatype Attr =
    | Str(text: string)
    | Flag(flag: bool)
    | Count(count: int)
    | Number(number: Double)
    | Results(results: seq<DocumentResult>)
    | Strings(strings: seq<string>)

  /** The `Model` after a handler: each name bound to the last value added under it. */
  type Attrs = map<string, Attr>

  /** An exception thrown by code the model treats as an oracle, with its message, which
      may be `null`. */
  datatype Failure = Failure(message: Option<string>)

  /** `"${e.message}"`: string interpolation renders a `null` message as `"null"`. */
  function MessageText(f: Failure): (s: string)
    ensures f.message.Some? ==> s == f.message.value
    ensures f.message.None? ==> s == "null"
  {
    f.message.GetOr("null")
  }
}
