/** Bluetooth beacon proximity: which beacons each classroom expects, and whether a scan of
    nearby beacons places the device in the classroom. */
module Beacon {
  import opened Wrappers

  /** A detected beacon; any of its properties may be absent. */
  datatype DetectedBeacon = DetectedBeacon(uuid: Option<string>, id: Option<string>,
                                           rssi: Option<int>, name: Option<string>)

  datatype BeaconFailure =
    | NoConfiguration
    | NotDetected(expected: seq<string>, detected: seq<Option<string>>)
    | SignalTooWeak(rssi: int, required: int)

  datatype BeaconResult =
    | Verified(matchedBeacon: Option<string>, rssi: int, estimatedDistance: real, name: Option<string>)
    | Rejected(failure: BeaconFailure)

  /** The weakest accepted signal, in dBm. */
  const RequiredRSSI := -70

  /** The calibrated signal strength at one metre used for distance estimates. */
  const TxPower := -59

  /** A beacon's identity: its uuid when non-empty, else its id. */
  function Identity(b: DetectedBeacon): (r: Option<string>)
    ensures b.uuid.Some? && b.uuid.value != "" ==> r == b.uuid
    ensures !(b.uuid.Some? && b.uuid.value != "") ==> r == b.id
  {
    if b.uuid.Some? && b.uuid.value != "" then b.uuid else b.id
  }

  /** The signal strength used; an absent (or zero) reading counts as 0 dBm. */
  function Strength(b: DetectedBeacon): int {
    b.rssi.GetOr(0)
  }

  predicate Expected(expected: seq<string>, b: DetectedBeacon) {
    Identity(b).Some? && Identity(b).value in expected
  }

  /** The position of the first detected beacon the classroom expects (`find`). */
  function FirstExpected(detected: seq<DetectedBeacon>, expected: seq<string>): (r: Option<nat>)
    ensures r.Some? ==> r.value < |detected| && Expected(expected, detected[r.value]) &&
                        forall i :: 0 <= i < r.value ==> !Expected(expected, detected[i])
    ensures r.None? <==> forall i :: 0 <= i < |detected| ==> !Expected(expected, detected[i])
  {
    if detected == [] then None
    else if Expected(expected, detected[0]) then Some(0)
    else
      var rest := FirstExpected(detected[1..], expected);
      if rest.None? then None else Some(rest.value + 1)
  }

  function Identities(detected: seq<DetectedBeacon>): (ids: seq<Option<string>>)
    ensures |ids| == |detected| && forall i :: 0 <= i < |detected| ==> ids[i] == Identity(detected[i])
  {
    if detected == [] then [] else [Identity(detected[0])] + Identities(detected[1..])
  }

  function Pow(x: real, n: nat): real {
    if n == 0 then 1.0 else x * Pow(x, n - 1)
  }

  lemma {:induction false} PowBounds(x: real, n: nat)
    requires 0.0 <= x <= 1.0
    ensures 0.0 <= Pow(x, n) <= 1.0
  {
    if n > 0 {
      PowBounds(x, n - 1);
      MulBounded(x, Pow(x, n - 1));
    }
  }

  lemma MulBounded(x: real, y: real)
    requires 0.0 <= x <= 1.0 && 0.0 <= y <= 1.0
    ensures 0.0 <= x * y <= y
  {
  }

  lemma {:induction false} PowMonotone(x: real, y: real, n: nat)
    requires 0.0 <= x <= y <= 1.0
    ensures Pow(x, n) <= Pow(y, n)
  {
    if n > 0 {
      PowMonotone(x, y, n - 1);
      PowBounds(x, n - 1);
      PowBounds(y, n - 1);
      assert x * Pow(x, n - 1) <= y * Pow(x, n - 1);
      assert y * Pow(x, n - 1) <= y * Pow(y, n - 1);
    }
  }

  /** Rounding to two decimals (`Math.round(d * 100) / 100`). */
  function Round2(d: real): (r: real)
    ensures d - 0.005 < r <= d + 0.005
  {
    ((d * 100.0 + 0.5).Floor as real) / 100.0
  }

  /** Distance in metres estimated from a signal strength by the log-distance model: the
      reference power ratio to the tenth power close in, and a fitted curve (`farCurve` being
      `ratio ^ 7.7095`) further out; a zero reading gives -1. */
  function EstimateDistance(rssi: int, farCurve: real -> real): (r: real)
    ensures rssi == 0 ==> r == -1.0
    ensures TxPower < rssi < 0 ==> 0.0 <= r <= 1.0
    ensures rssi <= TxPower ==> r == Round2(0.89976 * farCurve(rssi as real / TxPower as real) + 0.111)
  {
    if rssi == 0 then -1.0
    else
      var ratio := rssi as real / TxPower as real;
      if ratio < 1.0 then
        if 0.0 <= ratio then PowBounds(ratio, 10); Pow(ratio, 10) else Pow(ratio, 10)
      else Round2(0.89976 * farCurve(ratio) + 0.111)
  }

  /** Within a metre of the beacon, a stronger signal never gives a larger estimate. */
  lemma EstimateMonotoneNear(weaker: int, stronger: int, farCurve: real -> real)
    requires TxPower < weaker <= stronger < 0
    ensures EstimateDistance(stronger, farCurve) <= EstimateDistance(weaker, farCurve)
  {
    var a, b := stronger as real / TxPower as real, weaker as real / TxPower as real;
    assert 0.0 <= a <= b <= 1.0;
    PowMonotone(a, b, 10);
  }

  class BeaconService {
    /** Classroom id to the identities of the beacons installed there. */
    var beaconMapping: map<string, seq<string>>

    /** `configured` is the deployment's mapping; absent or unparsable gives an empty mapping. */
    constructor (configured: Option<map<string, seq<string>>>)
      ensures beaconMapping == configured.GetOr(map[])
    {
      beaconMapping := configured.GetOr(map[]);
    }

    /** Whether the scan shows one of the classroom's beacons with an acceptable signal. The
        beacon considered is the first detected one the classroom expects. */
    function VerifyBeacon(detected: seq<DetectedBeacon>, classroom: string, farCurve: real -> real)
      : (r: BeaconResult)
      reads this
      ensures classroom !in beaconMapping ==> r == Rejected(NoConfiguration)
      ensures classroom in beaconMapping ==>
        match FirstExpected(detected, beaconMapping[classroom])
        case None => r == Rejected(NotDetected(beaconMapping[classroom], Identities(detected)))
        case Some(i) =>
          if Strength(detected[i]) < RequiredRSSI then r == Rejected(SignalTooWeak(Strength(detected[i]), RequiredRSSI))
          else r == Verified(Identity(detected[i]), Strength(detected[i]),
                             EstimateDistance(Strength(detected[i]), farCurve), detected[i].name)
      ensures r.Verified? ==> classroom in beaconMapping && r.rssi >= RequiredRSSI &&
                              exists b :: b in detected && Expected(beaconMapping[classroom], b) &&
                                          r.matchedBeacon == Identity(b)
    {
      if classroom !in beaconMapping then Rejected(NoConfiguration)
      else
        var expected := beaconMapping[classroom];
        var found := FirstExpected(detected, expected);
        if found.None? then Rejected(NotDetected(expected, Identities(detected)))
        else
          var b := detected[found.value];
          var rssi := Strength(b);
          if rssi < RequiredRSSI then Rejected(SignalTooWeak(rssi, RequiredRSSI))
          else Verified(Identity(b), rssi, EstimateDistance(rssi, farCurve), b.name)
    }

    /** Installs (or replaces) a classroom's beacon list. */
    method AddClassroomBeacons(classroom: string, beacons: seq<string>) returns (success: bool)
      modifies this
      ensures success
      ensures beaconMapping == old(beaconMapping)[classroom := beacons]
    {
      beaconMapping := beaconMapping[classroom := beacons];
      success := true;
    }

    /** Removes a classroom's beacon list; that classroom then has no configuration. */
    method RemoveClassroomBeacons(classroom: string) returns (success: bool)
      modifies this
      ensures success
      ensures beaconMapping == old(beaconMapping) - {classroom}
      ensures forall d, c :: VerifyBeacon(d, classroom, c) == Rejected(NoConfiguration)
    {
      beaconMapping := beaconMapping - {classroom};
      success := true;
    }
  }

  /** A detected expected beacon that reports no signal strength is accepted (its strength
      reads as 0 dBm) and its distance is reported as -1. */
  lemma MissingStrengthAccepted(s: BeaconService, b: DetectedBeacon, classroom: string, farCurve: real -> real)
    requires classroom in s.beaconMapping && Expected(s.beaconMapping[classroom], b) && b.rssi.None?
    ensures s.VerifyBeacon([b], classroom, farCurve) == Verified(Identity(b), 0, -1.0, b.name)
  {
  }

  /** An empty scan is never verified. */
  lemma EmptyScanRejected(s: BeaconService, classroom: string, farCurve: real -> real)
    ensures s.VerifyBeacon([], classroom, farCurve).Rejected?
  {
  }
}
