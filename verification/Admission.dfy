/** Evidence admission policy v0.1: the deterministic boundary in front of the kernel. */
module Admission {

  const POLICY_VERSION := "0.1"
  const PPM := 1_000_000
  const MIN_SOURCE_RELIABILITY := 600_000
  const MIN_REVIEW_CONFIDENCE := 600_000
  const STRONG_CONFIDENCE := 900_000
  const STRONG_RELIABILITY := 800_000
  const CORROBORATED_CONFIDENCE := 700_000
  const CORROBORATED_RELIABILITY := 700_000
  const MIN_CORROBORATORS := 2

  /** The program asserts this range before it looks at a confidence or a reliability. */
  type Ppm = n: nat | n <= 1_000_000

  datatype EvidenceKind = BeyondScope | DestructiveAction | Unsupported
  {
    predicate IsSupported() {
      BeyondScope? || DestructiveAction?
    }

    function Name(): string {
      match this
      case BeyondScope => "BeyondScope"
      case DestructiveAction => "DestructiveAction"
      case Unsupported => "Unsupported"
    }
  }

  datatype AdmissionClass = Strong | Corroborated

  datatype RejectReason = UnsupportedKind | Expired | SourceBelowTrustFloor | InsufficientSupport

  datatype AdmissionDecision = Reject(reason: RejectReason) | Hold | Accept(class_: AdmissionClass)
  {
    function Render(): string {
      match this
      case Reject(UnsupportedKind) => "Reject(UnsupportedKind)"
      case Reject(Expired) => "Reject(Expired)"
      case Reject(SourceBelowTrustFloor) => "Reject(SourceBelowTrustFloor)"
      case Reject(InsufficientSupport) => "Reject(InsufficientSupport)"
      case Hold => "Hold(NeedsCorroborationOrReview)"
      case Accept(Strong) => "Accept(Strong)"
      case Accept(Corroborated) => "Accept(Corroborated)"
    }
  }

  /** Metadata bound by the trusted runtime, never by the judge. */
  datatype AdmissionContext = AdmissionContext(reliability: Ppm, corroborators: nat, now: nat, expires: nat)

  /** The checked constructor: the program panics outside this precondition. */
  function NewContext(reliability: nat, corroborators: nat, now: nat, expires: nat): AdmissionContext
    requires reliability <= PPM && now <= expires
  {
    AdmissionContext(reliability, corroborators, now, expires)
  }

  function Demo(now: nat): AdmissionContext {
    NewContext(850_000, 0, now, now + 10)
  }

  /** The order of the branches is normative. */
  function Admit(kind: EvidenceKind, confidence: Ppm, context: AdmissionContext): AdmissionDecision {
    if !kind.IsSupported() then
      Reject(UnsupportedKind)
    else if context.now > context.expires then
      Reject(Expired)
    else if context.reliability < MIN_SOURCE_RELIABILITY then
      Reject(SourceBelowTrustFloor)
    else if confidence >= STRONG_CONFIDENCE && context.reliability >= STRONG_RELIABILITY then
      Accept(Strong)
    else if && confidence >= CORROBORATED_CONFIDENCE
            && context.reliability >= CORROBORATED_RELIABILITY
            && context.corroborators >= MIN_CORROBORATORS then
      Accept(Corroborated)
    else if confidence >= MIN_REVIEW_CONFIDENCE then
      Hold
    else
      Reject(InsufficientSupport)
  }

  // ----- the policy as a table of thresholds, in no order -----

  predicate IsStrong(confidence: Ppm, context: AdmissionContext) {
    confidence >= 900_000 && context.reliability >= 800_000
  }

  predicate IsCorroborated(confidence: Ppm, context: AdmissionContext) {
    confidence >= 700_000 && context.reliability >= 700_000 && context.corroborators >= 2
  }

  /** What may change relations: current evidence that is strong or corroborated. */
  predicate Admissible(confidence: Ppm, context: AdmissionContext) {
    context.now <= context.expires && (IsStrong(confidence, context) || IsCorroborated(confidence, context))
  }

  /** What is kept for review: current evidence of a trusted source that is likely, but not admissible. */
  predicate Reviewable(confidence: Ppm, context: AdmissionContext) {
    && context.now <= context.expires
    && confidence >= 600_000 && context.reliability >= 600_000
    && !Admissible(confidence, context)
  }

  /**
   The ordered branches decide by the table, whatever the context: each answer
   exactly where the table puts it.
   */
  lemma PolicyIsExact(kind: EvidenceKind, confidence: Ppm, context: AdmissionContext)
    ensures var d := Admit(kind, confidence, context); var current := context.now <= context.expires;
      && (d == Reject(UnsupportedKind) <==> kind.Unsupported?)
      && (d == Reject(Expired) <==> !kind.Unsupported? && !current)
      && (d == Reject(SourceBelowTrustFloor) <==> !kind.Unsupported? && current && context.reliability < 600_000)
      && (d == Reject(InsufficientSupport) <==>
            !kind.Unsupported? && current && context.reliability >= 600_000 && confidence < 600_000)
      && (d == Accept(Strong) <==> !kind.Unsupported? && current && IsStrong(confidence, context))
      && (d == Accept(Corroborated) <==>
            !kind.Unsupported? && current && IsCorroborated(confidence, context) && !IsStrong(confidence, context))
      && (d.Accept? <==> !kind.Unsupported? && Admissible(confidence, context))
      && (d.Hold? <==> !kind.Unsupported? && Reviewable(confidence, context))
  {
  }
}
