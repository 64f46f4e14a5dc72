/** The biometric verification rule: the similarity of two embeddings, each factor's verdict
    and confidence, and their combination into an overall verdict and a risk level.

    Embedding components are exact reals and the square root is a parameter; the result of the
    division follows the number semantics of the source (a zero denominator gives an infinity
    or, over a zero numerator, not-a-number). */
module Biometrics {
  import opened Wrappers

  /** A number as the source's arithmetic produces it. */
  datatype Num = Finite(value: real) | PosInf | NegInf | NaN

  /** `a / b`. */
  function Divide(a: real, b: real): (q: Num)
    ensures b != 0.0 ==> q == Finite(a / b)
    ensures q.NaN? <==> a == 0.0 && b == 0.0
  {
    if b != 0.0 then Finite(a / b)
    else if a == 0.0 then NaN
    else if a > 0.0 then PosInf
    else NegInf
  }

  /** `Math.max(0, Math.min(1, x))`: not-a-number passes through both. */
  function ClampUnit(x: Num): (c: Num)
    ensures c.NaN? <==> x.NaN?
    ensures !c.NaN? ==> c.Finite? && 0.0 <= c.value <= 1.0
    ensures x.Finite? && 0.0 <= x.value <= 1.0 ==> c == x
  {
    match x
    case NaN => NaN
    case PosInf => Finite(1.0)
    case NegInf => Finite(0.0)
    case Finite(v) => Finite(if v > 1.0 then 1.0 else if v < 0.0 then 0.0 else v)
  }

  /** The dot product of two vectors of one length. */
  function Dot(a: seq<real>, b: seq<real>): real
    requires |a| == |b|
  {
    if a == [] then 0.0 else Dot(a[..|a| - 1], b[..|b| - 1]) + a[|a| - 1] * b[|b| - 1]
  }

  /** The cosine of two vectors from their dot product and squared norms. */
  function Cosine(dotProduct: real, norm1: real, norm2: real, sqrt: real -> real): Num {
    Divide(dotProduct, sqrt(norm1) * sqrt(norm2))
  }

  /** The similarity as the source computes it: 0 when either vector is missing or their
      lengths differ, otherwise the clamped cosine. */
  function SimilarityAsWritten(e1: Option<seq<real>>, e2: Option<seq<real>>, sqrt: real -> real): Num {
    if e1.None? || e2.None? || |e1.value| != |e2.value| then Finite(0.0)
    else
      var a, b := e1.value, e2.value;
      ClampUnit(Cosine(Dot(a, b), Dot(a, a), Dot(b, b), sqrt))
  }

  /** The three running sums of the similarity loop. */
  method Accumulate(a: seq<real>, b: seq<real>) returns (dotProduct: real, norm1: real, norm2: real)
    requires |a| == |b|
    ensures dotProduct == Dot(a, b) && norm1 == Dot(a, a) && norm2 == Dot(b, b)
  {
    dotProduct, norm1, norm2 := 0.0, 0.0, 0.0;
    var i := 0;
    while i < |a|
      invariant 0 <= i <= |a|
      invariant dotProduct == Dot(a[..i], b[..i])
      invariant norm1 == Dot(a[..i], a[..i]) && norm2 == Dot(b[..i], b[..i])
    {
      assert a[..i + 1][..i] == a[..i] && b[..i + 1][..i] == b[..i];
      dotProduct := dotProduct + a[i] * b[i];
      norm1 := norm1 + a[i] * a[i];
      norm2 := norm2 + b[i] * b[i];
      i := i + 1;
    }
    assert a[..i] == a && b[..i] == b;
  }

  /** The similarity of two embeddings, computed by the loop. */
  method CalculateSimilarity(e1: Option<seq<real>>, e2: Option<seq<real>>, sqrt: real -> real)
    returns (similarity: Num)
    ensures similarity == SimilarityAsWritten(e1, e2, sqrt)
    ensures e1.None? || e2.None? ==> similarity == Finite(0.0)
    ensures similarity.NaN? || (similarity.Finite? && 0.0 <= similarity.value <= 1.0)
  {
    if e1.None? || e2.None? || |e1.value| != |e2.value| {
      return Finite(0.0);
    }
    var dotProduct, norm1, norm2 := Accumulate(e1.value, e2.value);
    similarity := ClampUnit(Cosine(dotProduct, norm1, norm2, sqrt));
  }

  /** Two empty embeddings have zero norms, so the cosine is 0/0 and the clamp lets the
      not-a-number through. */
  lemma EmptyEmbeddingsGiveNaN(sqrt: real -> real)
    requires sqrt(0.0) == 0.0
    ensures SimilarityAsWritten(Some([]), Some([]), sqrt) == NaN
  {
  }

  /** The similarity the clamp evidently intends: a number between 0 and 1, with an undefined
      cosine read as 0. */
  function Similarity(e1: Option<seq<real>>, e2: Option<seq<real>>, sqrt: real -> real): (s: real)
    ensures 0.0 <= s <= 1.0
    ensures SimilarityAsWritten(e1, e2, sqrt).Finite? ==> s == SimilarityAsWritten(e1, e2, sqrt).value
    ensures e1.None? || e2.None? || |e1.value| != |e2.value| ==> s == 0.0
  {
    var w := SimilarityAsWritten(e1, e2, sqrt);
    if w.Finite? then w.value else 0.0
  }

  /** `Math.round`: to the nearest integer, halves upward. */
  function Round(x: real): (n: int)
    ensures n as real - 0.5 <= x < n as real + 0.5
  {
    (x + 0.5).Floor
  }

  lemma RoundBounds(x: real, lo: int, hi: int)
    requires lo as real <= x <= hi as real
    ensures lo <= Round(x) <= hi
  {
  }

  /** One factor's result: verified when the similarity exceeds the factor's threshold, with
      the similarity as a rounded percentage. */
  datatype FactorCheck = FactorCheck(verified: bool, confidence: int)

  /** The result of a factor that was not submitted or has nothing stored to compare with. */
  const NotChecked := FactorCheck(false, 0)

  const FaceThreshold := 0.8
  const FingerprintThreshold := 0.85

  function CheckFactor(similarity: real, threshold: real): (f: FactorCheck)
    requires 0.0 <= similarity <= 1.0
    ensures f.verified <==> similarity > threshold
    ensures 0 <= f.confidence <= 100
    ensures f.confidence == Round(similarity * 100.0)
    ensures f.confidence as real - 0.5 <= similarity * 100.0 < f.confidence as real + 0.5
  {
    RoundBounds(similarity * 100.0, 0, 100);
    FactorCheck(similarity > threshold, Round(similarity * 100.0))
  }

  /** A verified factor's confidence is at least its threshold's percentage. */
  lemma VerifiedConfidence(similarity: real, threshold: real, percent: int)
    requires 0.0 <= similarity <= 1.0 && threshold * 100.0 == percent as real
    requires CheckFactor(similarity, threshold).verified
    ensures CheckFactor(similarity, threshold).confidence >= percent
  {
  }

  datatype RiskLevel = Low | Medium | High

  /** The risk level of an overall score: low above 85, medium above 70, high otherwise. */
  function RiskOf(score: real): (r: RiskLevel)
    ensures r == Low <==> score > 85.0
    ensures r == High <==> score <= 70.0
  {
    if score > 85.0 then Low else if score > 70.0 then Medium else High
  }

  function Safety(r: RiskLevel): nat {
    match r
    case High => 0
    case Medium => 1
    case Low => 2
  }

  /** A higher score never gives a riskier level. */
  lemma RiskMonotone(a: real, b: real)
    requires a <= b
    ensures Safety(RiskOf(a)) <= Safety(RiskOf(b))
  {
  }

  datatype Overall = Overall(verified: bool, confidence: int, riskLevel: RiskLevel)

  /** The points a factor contributes: its confidence when verified, else nothing. */
  function Points(f: FactorCheck): int {
    if f.verified then f.confidence else 0
  }

  /** The overall verdict: the mean of the two factors' points, verified above 75. */
  function Combine(face: FactorCheck, fingerprint: FactorCheck): (o: Overall)
    ensures o.verified <==> (Points(face) + Points(fingerprint)) as real / 2.0 > 75.0
    ensures o.riskLevel == RiskOf((Points(face) + Points(fingerprint)) as real / 2.0)
    ensures o.confidence == Round((Points(face) + Points(fingerprint)) as real / 2.0)
    ensures var m := (Points(face) + Points(fingerprint)) as real / 2.0;
            o.confidence as real - 0.5 <= m < o.confidence as real + 0.5
  {
    var overallScore := (Points(face) + Points(fingerprint)) as real / 2.0;
    Overall(overallScore > 75.0, Round(overallScore), RiskOf(overallScore))
  }

  /** An unverified factor adds nothing, whatever its confidence. */
  lemma UnverifiedAddsNothing(face: FactorCheck, fingerprint: FactorCheck, c: int)
    requires !face.verified
    ensures Combine(face, fingerprint) == Combine(FactorCheck(false, c), fingerprint)
  {
  }

  /** One factor alone cannot verify: the other's points are at most 100, so the mean is at
      most 50. */
  lemma OneFactorNeverVerifies(face: FactorCheck, fingerprint: FactorCheck)
    requires face.confidence <= 100 && fingerprint.confidence <= 100
    requires !face.verified || !fingerprint.verified
    ensures !Combine(face, fingerprint).verified
  {
  }

  /** What the two factor checks see: the submitted and the stored embedding of each, when
      there are both. A face is checked only when an image and an embedding are submitted and an
      embedding is stored; a fingerprint when fingerprint data is submitted and a template is
      stored, the submitted template possibly missing. */
  datatype Submission = Submission(
    faceImage: bool, faceEmbedding: Option<seq<real>>, storedFace: Option<seq<real>>,
    fingerprintData: Option<Option<seq<real>>>, storedFingerprint: Option<seq<real>>)

  datatype BiometricResults = BiometricResults(face: FactorCheck, fingerprint: FactorCheck, overall: Overall)

  function FaceCheck(s: Submission, sqrt: real -> real): (f: FactorCheck)
    ensures !(s.faceImage && s.faceEmbedding.Some? && s.storedFace.Some?) ==> f == NotChecked
    ensures s.faceImage && s.faceEmbedding.Some? && s.storedFace.Some? ==>
              f == CheckFactor(Similarity(s.faceEmbedding, s.storedFace, sqrt), FaceThreshold)
    ensures f.verified <==> s.faceImage && s.faceEmbedding.Some? && s.storedFace.Some? &&
                            Similarity(s.faceEmbedding, s.storedFace, sqrt) > FaceThreshold
    ensures 0 <= f.confidence <= 100
  {
    if s.faceImage && s.faceEmbedding.Some? && s.storedFace.Some? then
      CheckFactor(Similarity(s.faceEmbedding, s.storedFace, sqrt), FaceThreshold)
    else NotChecked
  }

  function FingerprintCheck(s: Submission, sqrt: real -> real): (f: FactorCheck)
    ensures !(s.fingerprintData.Some? && s.storedFingerprint.Some?) ==> f == NotChecked
    ensures s.fingerprintData.Some? && s.storedFingerprint.Some? ==>
              f == CheckFactor(Similarity(s.fingerprintData.value, s.storedFingerprint, sqrt), FingerprintThreshold)
    ensures f.verified <==> s.fingerprintData.Some? && s.storedFingerprint.Some? &&
                            Similarity(s.fingerprintData.value, s.storedFingerprint, sqrt) > FingerprintThreshold
    ensures 0 <= f.confidence <= 100
  {
    if s.fingerprintData.Some? && s.storedFingerprint.Some? then
      CheckFactor(Similarity(s.fingerprintData.value, s.storedFingerprint, sqrt), FingerprintThreshold)
    else NotChecked
  }

  function VerifyBiometrics(s: Submission, sqrt: real -> real): (r: BiometricResults)
    ensures r.face == FaceCheck(s, sqrt) && r.fingerprint == FingerprintCheck(s, sqrt)
    ensures r.overall == Combine(r.face, r.fingerprint)
  {
    var face := FaceCheck(s, sqrt);
    var fingerprint := FingerprintCheck(s, sqrt);
    BiometricResults(face, fingerprint, Combine(face, fingerprint))
  }

  /** The overall verdict passes exactly when both factors are verified: a verified face gives
      at least 80 points and a verified fingerprint at least 85, so together their mean exceeds
      75, while one alone never does. */
  lemma VerifiedIffBoth(s: Submission, sqrt: real -> real)
    ensures var r := VerifyBiometrics(s, sqrt);
            r.overall.verified <==> r.face.verified && r.fingerprint.verified
  {
    var r := VerifyBiometrics(s, sqrt);
    if r.face.verified && r.fingerprint.verified {
      VerifiedConfidence(Similarity(s.faceEmbedding, s.storedFace, sqrt), FaceThreshold, 80);
      VerifiedConfidence(Similarity(s.fingerprintData.value, s.storedFingerprint, sqrt), FingerprintThreshold, 85);
    } else {
      OneFactorNeverVerifies(r.face, r.fingerprint);
    }
  }
}
