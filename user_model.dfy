/** A user account's device-fingerprint history (the five most recent distinct devices) and
    its serialised form. */
module UserModel {

  /** The most recent devices a user is remembered on. */
  const MaxDevices := 5

  predicate NoDuplicates(s: seq<string>) {
    forall i, j :: 0 <= i < j < |s| ==> s[i] != s[j]
  }

  /** The fingerprint list after a sign-in from `fingerprint`: unchanged for a known device,
      otherwise the device is appended and, beyond five, the oldest entry dropped. */
  function WithFingerprint(fingerprints: seq<string>, fingerprint: string): seq<string> {
    if fingerprint in fingerprints then fingerprints
    else
      var grown := fingerprints + [fingerprint];
      if |grown| > MaxDevices then grown[1..] else grown
  }

  lemma KnownFingerprintUnchanged(fingerprints: seq<string>, fingerprint: string)
    requires fingerprint in fingerprints
    ensures WithFingerprint(fingerprints, fingerprint) == fingerprints
  {
  }

  /** A new device becomes the last entry, after the earlier ones (less the oldest on overflow). */
  lemma NewFingerprintAppended(fingerprints: seq<string>, fingerprint: string)
    requires fingerprint !in fingerprints
    ensures var r := WithFingerprint(fingerprints, fingerprint);
            |r| > 0 && r[|r| - 1] == fingerprint &&
            r[..|r| - 1] == if |fingerprints| + 1 > MaxDevices then fingerprints[1..] else fingerprints
  {
  }

  /** The list never grows past five once it is within five. */
  lemma FingerprintsBounded(fingerprints: seq<string>, fingerprint: string)
    requires |fingerprints| <= MaxDevices
    ensures |WithFingerprint(fingerprints, fingerprint)| <= MaxDevices
  {
  }

  /** A duplicate-free list stays duplicate-free. */
  lemma FingerprintsStayDistinct(fingerprints: seq<string>, fingerprint: string)
    requires NoDuplicates(fingerprints)
    ensures NoDuplicates(WithFingerprint(fingerprints, fingerprint))
  {
    if fingerprint !in fingerprints {
      var grown := fingerprints + [fingerprint];
      assert NoDuplicates(grown) by {
        forall i, j | 0 <= i < j < |grown| ensures grown[i] != grown[j] {
          if j == |fingerprints| {
            assert grown[i] == fingerprints[i];
          }
        }
      }
    }
  }

  /** The serialised form of a user's attributes: everything but the password. */
  function ToJson(attributes: map<string, string>): (r: map<string, string>)
    ensures "password" !in r
    ensures forall k :: k in attributes && k != "password" ==> k in r && r[k] == attributes[k]
    ensures r.Keys <= attributes.Keys
  {
    attributes - {"password"}
  }

  class User {
    const id: string
    var attributes: map<string, string>
    var deviceFingerprints: seq<string>

    ghost predicate Valid()
      reads this
    {
      |deviceFingerprints| <= MaxDevices && NoDuplicates(deviceFingerprints)
    }

    constructor (id: string, attributes: map<string, string>)
      ensures this.id == id && this.attributes == attributes && deviceFingerprints == []
      ensures Valid()
    {
      this.id := id;
      this.attributes := attributes;
      deviceFingerprints := [];
    }

    /** Records a sign-in from `fingerprint`. */
    method AddDeviceFingerprint(fingerprint: string)
      requires Valid()
      modifies this`deviceFingerprints
      ensures deviceFingerprints == WithFingerprint(old(deviceFingerprints), fingerprint)
      ensures Valid()
    {
      if fingerprint !in deviceFingerprints {
        var fingerprints := deviceFingerprints + [fingerprint];
        if |fingerprints| > MaxDevices {
          fingerprints := fingerprints[1..];
        }
        FingerprintsStayDistinct(deviceFingerprints, fingerprint);
        deviceFingerprints := fingerprints;
      }
    }
  }
}
