/** The states of a progress record's task and the completion predicate
    consumers use to stop polling. */
module ProgressStates {
  import opened Wrappers

  /** The closed set of task states; the source stores each as a string. */
  datatype ProgressState = Queued | Active | Success | Error {

    /** The string a progress record carries for this state. */
    function Name(): string {
      match this
      case Queued => "queued"
      case Active => "active"
      case Success => "success"
      case Error => "error"
    }
  }

  /** Reads a stored state string back into the enum; `None` for any string
      that is not one of the four state names. */
  function ParseState(s: string): (r: Option<ProgressState>)
    ensures r.Some? ==> r.value.Name() == s
    ensures forall st: ProgressState :: st.Name() == s ==> r == Some(st)
  {
    if s == "queued" then Some(Queued)
    else if s == "active" then Some(Active)
    else if s == "success" then Some(Success)
    else if s == "error" then Some(Error)
    else None
  }

  /** The classmethod `isComplete`, which compares a raw state string:
      a task is complete exactly when it ended in success or in error. */
  function IsComplete(state: string): (b: bool)
    ensures b ==> ParseState(state).Some?
    ensures b <==> ParseState(state) == Some(Success) || ParseState(state) == Some(Error)
  {
    state == Success.Name() || state == Error.Name()
  }

  /** On the enum, completeness singles out the two terminal states. */
  lemma IsCompleteOnStates(st: ProgressState)
    ensures IsComplete(st.Name()) <==> st == Success || st == Error
    ensures !IsComplete(Queued.Name()) && !IsComplete(Active.Name())
  {
  }

  /** A named corollary of `ParseState`'s contract: the state names are
      distinct, so a stored state reads back as itself and as nothing else. */
  lemma ParseStateRoundTrip(st: ProgressState, s: string)
    ensures ParseState(st.Name()) == Some(st)
    ensures ParseState(s) == Some(st) <==> s == st.Name()
  {
  }
}
