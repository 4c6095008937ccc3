/** The records exchanged by the SSAM scoring library. Display-only fields are omitted; a domain
    score carries the variance whose square root the library stores as sigma. */
module SsamTypes {

  datatype Option<+T> = None | Some(value: T)

  datatype DomainScore = DomainScore(domain: string, score: real, variance: real, confidence: real)

  datatype EdgeFactorResult = EdgeFactorResult(
    id: string, name: string, factor: real, active: bool, triggerConfidence: real)

  datatype CheckInput = CheckInput(
    checkId: string, domain: string, passed: bool, delta: real, confidence: real)

  datatype WeightConfig = WeightConfig(domain: string, weight: real)

  datatype EdgeFactorConfig = EdgeFactorConfig(
    id: string, name: string, factor: real, triggerCheck: string,
    cascadeTo: string, cascadeValue: real, cascadeOnly: bool)

  datatype RiskContext = RiskContext(intrinsic: real, exposure: real, threat: real)

  /** The two process-wide injection points; `None` is the built-in default behaviour. */
  datatype Hooks = Hooks(
    domainAdjust: Option<(seq<DomainScore>, seq<EdgeFactorResult>) -> seq<DomainScore>>,
    strategy: Option<seq<EdgeFactorResult> -> real>)

  function Abs(x: real): real {
    if x < 0.0 then -x else x
  }

  function Max(x: real, y: real): real {
    if x > y then x else y
  }

  function Min(x: real, y: real): real {
    if x < y then x else y
  }
}
