/**
  The two health-toggle endpoints. Each flips one process-wide availability
  flag to its opposite and answers with the new value and a description of it.
 */
module StateRestController {

  datatype LivenessState = CORRECT | BROKEN
  datatype ReadinessState = ACCEPTING_TRAFFIC | REFUSING_TRAFFIC

  /** A value of the response map. */
  datatype Value = Liveness(liveness: LivenessState) | Readiness(readiness: ReadinessState) | Text(text: string)

  const Functioning := "System is functioning"
  const NotFunctioning := "Application is not functioning"

  function ToggledLiveness(current: LivenessState): (updated: LivenessState)
    ensures updated != current
  {
    if current == CORRECT then BROKEN else CORRECT
  }

  function ToggledReadiness(current: ReadinessState): (updated: ReadinessState)
    ensures updated != current
  {
    if current == ACCEPTING_TRAFFIC then REFUSING_TRAFFIC else ACCEPTING_TRAFFIC
  }

  function LivenessDescription(state: LivenessState): (d: string)
    ensures d == Functioning || d == NotFunctioning
    ensures d == Functioning <==> state == CORRECT
  {
    if state == CORRECT then Functioning else NotFunctioning
  }

  function ReadinessDescription(state: ReadinessState): (d: string)
    ensures d == Functioning || d == NotFunctioning
    ensures d == Functioning <==> state == ACCEPTING_TRAFFIC
  {
    if state == ACCEPTING_TRAFFIC then Functioning else NotFunctioning
  }

  /** Toggling twice gives back the original state. */
  lemma ToggleTwiceRestores(l: LivenessState, r: ReadinessState)
    ensures ToggledLiveness(ToggledLiveness(l)) == l
    ensures ToggledReadiness(ToggledReadiness(r)) == r
  {
  }

  /**
    The application's availability, as the controller reads and updates it
    (the two flags; the events that carry an update are not modelled).
   */
  class Availability {
    var liveness: LivenessState
    var readiness: ReadinessState

    constructor (liveness: LivenessState, readiness: ReadinessState)
      ensures this.liveness == liveness && this.readiness == readiness
    {
      this.liveness := liveness;
      this.readiness := readiness;
    }

    /** `POST /api/state/liveness`. */
    method LivenessStateToggle() returns (response: seq<(string, Value)>)
      modifies this`liveness
      ensures liveness == ToggledLiveness(old(liveness))
      ensures readiness == old(readiness)
      ensures response == [("liveness", Liveness(liveness)), ("state", Text(LivenessDescription(liveness)))]
    {
      var current := liveness;
      var updated := if current == CORRECT then BROKEN else CORRECT;
      var state := if updated == CORRECT then Functioning else NotFunctioning;
      liveness := updated;
      response := [];
      response := response + [("liveness", Liveness(updated))];
      response := response + [("state", Text(state))];
    }

    /** `POST /api/state/readiness`. */
    method ReadinessStateToggle() returns (response: seq<(string, Value)>)
      modifies this`readiness
      ensures readiness == ToggledReadiness(old(readiness))
      ensures liveness == old(liveness)
      ensures response == [("readiness", Readiness(readiness)), ("state", Text(ReadinessDescription(readiness)))]
    {
      var current := readiness;
      var updated := if current == ACCEPTING_TRAFFIC then REFUSING_TRAFFIC else ACCEPTING_TRAFFIC;
      var state := if updated == ACCEPTING_TRAFFIC then Functioning else NotFunctioning;
      readiness := updated;
      response := [];
      response := response + [("readiness", Readiness(updated))];
      response := response + [("state", Text(state))];
    }
  }

  /** Two liveness calls in a row restore the flag; the second one reports the original value. */
  method LivenessTwice(a: Availability) returns (first: seq<(string, Value)>, second: seq<(string, Value)>)
    modifies a
    ensures a.liveness == old(a.liveness) && a.readiness == old(a.readiness)
    ensures |first| == 2 && |second| == 2
    ensures first[0].1 == Liveness(ToggledLiveness(old(a.liveness)))
    ensures second[0].1 == Liveness(old(a.liveness))
  {
    first := a.LivenessStateToggle();
    second := a.LivenessStateToggle();
  }
}
