/** The verdicts a vote, an observation or a stored record may carry. */
module Verdicts {
  const NAMES: seq<string> := ["SUPPORTED", "UNSUPPORTED", "MISLEADING", "INDETERMINATE"]

  type OtherText = text: string | text !in NAMES

  /** The four protocol verdicts; any other string a caller may pass is Unrecognised. */
  datatype Verdict = Supported | Unsupported | Misleading | Indeterminate | Unrecognised(text: OtherText)

  const CANDIDATES: seq<Verdict> := [Supported, Unsupported, Misleading, Indeterminate]

  /** The position of a verdict on the support axis. A string outside the table reads as 0. */
  function SupportScore(v: Verdict): (score: real)
    ensures 0.0 <= score <= 1.0
  {
    match v
    case Supported => 1.0
    case Unsupported => 0.0
    case Misleading => 0.5
    case Indeterminate => 0.5
    case Unrecognised(_) => 0.0
  }
}
