/** Wi-Fi proximity: which access points each classroom expects, and whether a scan of
    visible access points places the device in the classroom. */
module WiFi {
  import opened Wrappers

  /** A visible access point, with both the lower- and upper-case spellings of its properties
      that scanners report; any property may be absent. */
  datatype AccessPoint = AccessPoint(bssid: Option<string>, BSSID: Option<string>,
                                     level: Option<int>, signalStrength: Option<int>,
                                     ssid: Option<string>, SSID: Option<string>)

  datatype WiFiFailure =
    | NoConfiguration
    | NotDetected(expected: seq<string>, detected: seq<Option<string>>)
    | SignalTooWeak(signalStrength: int, required: int)

  datatype WiFiResult =
    | Verified(matchedAP: Option<string>, signalStrength: int, ssid: Option<string>)
    | Rejected(failure: WiFiFailure)

  /** The weakest accepted signal, in dBm. */
  const RequiredSignalStrength := -65

  /** The first of two optional strings that is present and non-empty (`a || b`). */
  function FirstNonEmpty(a: Option<string>, b: Option<string>): (r: Option<string>)
    ensures a.Some? && a.value != "" ==> r == a
    ensures !(a.Some? && a.value != "") ==> r == b
  {
    if a.Some? && a.value != "" then a else b
  }

  function Bssid(ap: AccessPoint): Option<string> {
    FirstNonEmpty(ap.bssid, ap.BSSID)
  }

  /** The reading used: `level` when non-zero, else `signalStrength`, else 0 dBm. */
  function Strength(ap: AccessPoint): (s: int)
    ensures ap.level.Some? && ap.level.value != 0 ==> s == ap.level.value
    ensures !(ap.level.Some? && ap.level.value != 0) && ap.signalStrength.Some? ==> s == ap.signalStrength.value
    ensures ap.level.GetOr(0) == 0 && ap.signalStrength.None? ==> s == 0
  {
    if ap.level.Some? && ap.level.value != 0 then ap.level.value
    else ap.signalStrength.GetOr(0)
  }

  predicate Expected(expected: seq<string>, ap: AccessPoint) {
    Bssid(ap).Some? && Bssid(ap).value in expected
  }

  /** The position of the first visible access point the classroom expects (`find`). */
  function FirstExpected(detected: seq<AccessPoint>, expected: seq<string>): (r: Option<nat>)
    ensures r.Some? ==> r.value < |detected| && Expected(expected, detected[r.value]) &&
                        forall i :: 0 <= i < r.value ==> !Expected(expected, detected[i])
    ensures r.None? <==> forall i :: 0 <= i < |detected| ==> !Expected(expected, detected[i])
  {
    if detected == [] then None
    else if Expected(expected, detected[0]) then Some(0)
    else
      var rest := FirstExpected(detected[1..], expected);
      if rest.None? then None else Some(rest.value + 1)
  }

  function Bssids(detected: seq<AccessPoint>): (ids: seq<Option<string>>)
    ensures |ids| == |detected| && forall i :: 0 <= i < |detected| ==> ids[i] == Bssid(detected[i])
  {
    if detected == [] then [] else [Bssid(detected[0])] + Bssids(detected[1..])
  }

  class WiFiVerificationService {
    /** Classroom id to the BSSIDs of the access points installed there. */
    var wifiMapping: map<string, seq<string>>

    /** `configured` is the deployment's mapping; absent or unparsable gives an empty mapping. */
    constructor (configured: Option<map<string, seq<string>>>)
      ensures wifiMapping == configured.GetOr(map[])
    {
      wifiMapping := configured.GetOr(map[]);
    }

    /** Whether the scan shows one of the classroom's access points with an acceptable signal.
        The access point considered is the first visible one the classroom expects. */
    function VerifyWiFi(detected: seq<AccessPoint>, classroom: string): (r: WiFiResult)
      reads this
      ensures classroom !in wifiMapping ==> r == Rejected(NoConfiguration)
      ensures classroom in wifiMapping ==>
        match FirstExpected(detected, wifiMapping[classroom])
        case None => r == Rejected(NotDetected(wifiMapping[classroom], Bssids(detected)))
        case Some(i) =>
          if Strength(detected[i]) < RequiredSignalStrength
          then r == Rejected(SignalTooWeak(Strength(detected[i]), RequiredSignalStrength))
          else r == Verified(Bssid(detected[i]), Strength(detected[i]),
                             FirstNonEmpty(detected[i].ssid, detected[i].SSID))
      ensures r.Verified? ==> classroom in wifiMapping && r.signalStrength >= RequiredSignalStrength &&
                              exists ap :: ap in detected && Expected(wifiMapping[classroom], ap) &&
                                           r.matchedAP == Bssid(ap)
    {
      if classroom !in wifiMapping then Rejected(NoConfiguration)
      else
        var expected := wifiMapping[classroom];
        var found := FirstExpected(detected, expected);
        if found.None? then Rejected(NotDetected(expected, Bssids(detected)))
        else
          var ap := detected[found.value];
          var signal := Strength(ap);
          if signal < RequiredSignalStrength then Rejected(SignalTooWeak(signal, RequiredSignalStrength))
          else Verified(Bssid(ap), signal, FirstNonEmpty(ap.ssid, ap.SSID))
    }

    /** Installs (or replaces) a classroom's access-point list. */
    method AddClassroomWiFi(classroom: string, accessPoints: seq<string>) returns (success: bool)
      modifies this
      ensures success
      ensures wifiMapping == old(wifiMapping)[classroom := accessPoints]
    {
      wifiMapping := wifiMapping[classroom := accessPoints];
      success := true;
    }

    /** Removes a classroom's access-point list; that classroom then has no configuration. */
    method RemoveClassroomWiFi(classroom: string) returns (success: bool)
      modifies this
      ensures success
      ensures wifiMapping == old(wifiMapping) - {classroom}
      ensures forall d :: VerifyWiFi(d, classroom) == Rejected(NoConfiguration)
    {
      wifiMapping := wifiMapping - {classroom};
      success := true;
    }
  }

  /** Only the first expected access point is judged: a strong later one does not rescue a
      weak first match. */
  lemma FirstMatchDecides(s: WiFiVerificationService, weak: AccessPoint, strong: AccessPoint, classroom: string)
    requires classroom in s.wifiMapping
    requires Expected(s.wifiMapping[classroom], weak) && Expected(s.wifiMapping[classroom], strong)
    requires Strength(weak) < RequiredSignalStrength <= Strength(strong)
    ensures s.VerifyWiFi([weak, strong], classroom).Rejected?
  {
  }
}
