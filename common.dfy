/** Values shared by the middleware and the controllers. */
module Common {

  datatype Option<T> = None | Some(value: T)

  /** A MongoDB document identifier, kept opaque. */
  type UserId = string

  /** An error reply `res.status(status).json({ msg })`. */
  datatype Reply = Reply(status: int, msg: string)

  /**
   * The index of the first element of `s` that `matches` accepts, as a
   * document store's `findOne`/`findById` returns the first stored match.
   */
  function FirstMatch<T>(s: seq<T>, matches: T -> bool): (r: Option<nat>)
    ensures r.Some? ==> r.value < |s| && matches(s[r.value])
    ensures r.Some? ==> forall j :: 0 <= j < r.value ==> !matches(s[j])
    ensures r.None? ==> forall j :: 0 <= j < |s| ==> !matches(s[j])
    decreases |s|
  {
    if s == [] then None
    else if matches(s[0]) then Some(0)
    else match FirstMatch(s[1..], matches)
      case None => None
      case Some(k) => Some(k + 1)
  }
}
