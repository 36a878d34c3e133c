/** The map component's one piece of state, `golfCourses`, and the fetch
    handler that is the only code writing to it. */
module GolfMap {
  import opened Wrappers
  import opened Courses

  /** The list held after one exchange: the new records when the whole `try`
      block succeeds, the list held before otherwise (the error is only
      logged). */
  function NextCourses(current: seq<Course>, response: Response): (next: seq<Course>)
    ensures Fetch(response).Failure? ==> next == current
    ensures Fetch(response).Success? ==> ConvertsAll(response.elements.value, next)
  {
    match Fetch(response)
    case Success(courses) => courses
    case Failure(_) => current
  }

  /** The component's state cell. */
  class MapState {
    var golfCourses: seq<Course>

    /** `useState<any[]>([])`: the map starts with no courses. */
    constructor ()
      ensures golfCourses == []
    {
      golfCourses := [];
    }

    /** `fetchGolfCourses` once the response has arrived: `setGolfCourses` is
        called with the mapped list only when every step succeeded; any throw
        lands in the `catch`, which leaves the state alone. */
    method FetchGolfCourses(response: Response)
      modifies this
      ensures golfCourses == NextCourses(old(golfCourses), response)
      ensures Fetch(response).Failure? ==> golfCourses == old(golfCourses)
      ensures Fetch(response).Success? ==> ConvertsAll(response.elements.value, golfCourses)
    {
      var result := Fetch(response);
      match result
      case Success(courses) =>
        golfCourses := courses;
      case Failure(_) =>
    }
  }

  // ---------------------------------------------------------------------------
  // Lemmas

  /** A successful exchange replaces the list in full: what was held before
      has no influence on what is held after. */
  lemma SuccessReplacesWholesale(before1: seq<Course>, before2: seq<Course>, response: Response)
    requires Fetch(response).Success?
    ensures NextCourses(before1, response) == NextCourses(before2, response)
    ensures |NextCourses(before1, response)| == |response.elements.value|
  {
  }

  /** Only the last successful exchange matters: a later success hides every
      earlier outcome, and a later failure keeps what an earlier one left. */
  lemma LastSuccessWins(current: seq<Course>, first: Response, second: Response)
    ensures Fetch(second).Success? ==>
      NextCourses(NextCourses(current, first), second) == NextCourses(current, second)
    ensures Fetch(second).Failure? ==>
      NextCourses(NextCourses(current, first), second) == NextCourses(current, first)
  {
  }
}
