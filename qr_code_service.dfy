/** The QR token service: issuing a token record into the cache, deciding a scanned payload,
    invalidating a token, recording and reporting who redeemed it.

    Random token bytes, the clock and the QR image are outside the model: the token and `now`
    are parameters, and image rendering is not modelled. */
module QRCode {
  import opened Wrappers
  import opened Cache
  import opened Geofencing

  datatype Redemption = Redemption(studentId: string, timestamp: int)

  /** What is cached under "qr:" + token (and what the QR image encodes, less `usedBy`). */
  datatype TokenRecord = TokenRecord(
    sessionId: string,
    token: string,
    classroom: string,
    timestamp: int,
    validUntil: int,
    usedBy: seq<Redemption>)

  /** A scanned payload: unparsable text, a payload that parses to nothing (null), or an object
      whose fields may each be absent. */
  datatype Scan =
    | Unreadable
    | NullPayload
    | Payload(token: Option<string>, sessionId: Option<string>, classroom: Option<string>,
              validUntil: Option<int>)

  datatype QRFailure =
    | InvalidFormat
    | MissingData
    | NotStored
    | Expired
    | SessionMismatch
    | LocationFailed(locationError: LocationFailure)
    | Thrown

  datatype QRVerdict =
    | Accepted(sessionId: string, classroom: Option<string>, token: string)
    | Refused(reason: QRFailure)

  datatype Generation = Generation(token: string, validUntil: int, expiresIn: int)

  datatype Usage = Usage(count: nat, users: seq<Redemption>)

  /** A missing or empty string field is falsy. */
  function FieldText(field: Option<string>): string {
    field.GetOr("")
  }

  /** The room key a payload names; an absent classroom is looked up under the key "undefined". */
  function RoomKey(classroom: Option<string>): string {
    classroom.GetOr("undefined")
  }

  /** The payload is readable, names a token and a session, and its token is live in the store. */
  predicate Stored(scan: Scan, faulty: bool, entries: map<string, Entry<TokenRecord>>, now: int) {
    && scan.Payload? && FieldText(scan.token) != "" && FieldText(scan.sessionId) != ""
    && !faulty && Lookup(entries, QRKey(FieldText(scan.token)), now).Some?
  }

  /** The payload's own expiry, when it has one, has not passed. */
  predicate Current(scan: Scan, now: int)
    requires scan.Payload?
  {
    scan.validUntil.None? || now <= scan.validUntil.value
  }

  /** The stored record is of the session the payload names. */
  predicate SameSession(scan: Scan, entries: map<string, Entry<TokenRecord>>, now: int)
    requires scan.Payload? && Lookup(entries, QRKey(FieldText(scan.token)), now).Some?
  {
    Lookup(entries, QRKey(FieldText(scan.token)), now).value.sessionId == FieldText(scan.sessionId)
  }

  /** The decision for `scan` against the store at `now`, checked in the order: unreadable,
      missing token or session id, token not in the store, payload's own expiry passed, session
      mismatch, and (only when a location is given) the payload classroom's geofence. */
  function Verdict(scan: Scan, faulty: bool, entries: map<string, Entry<TokenRecord>>, now: int,
                   location: Option<Location>, rooms: map<string, Room>,
                   distance: (Point, Point) -> nat): (v: QRVerdict)
    ensures scan.Unreadable? ==> v == Refused(InvalidFormat)
    ensures scan.NullPayload? ==> v == Refused(Thrown)
    ensures scan.Payload? && (FieldText(scan.token) == "" || FieldText(scan.sessionId) == "") ==>
              v == Refused(MissingData)
    ensures v.Accepted? ==>
      && scan.Payload? && v.token == FieldText(scan.token) != "" && v.sessionId == FieldText(scan.sessionId) != ""
      && v.classroom == scan.classroom
      && !faulty
      && QRKey(v.token) in entries && now < entries[QRKey(v.token)].deadline
      && entries[QRKey(v.token)].value.sessionId == v.sessionId
      && (scan.validUntil.None? || now <= scan.validUntil.value)
      && (location.Some? ==> VerifyLocation(rooms, distance, location.value, RoomKey(scan.classroom)).Valid())
    ensures scan.Payload? && FieldText(scan.token) != "" && FieldText(scan.sessionId) != "" &&
            (faulty || Lookup(entries, QRKey(FieldText(scan.token)), now).None?) ==>
              v == Refused(NotStored)
    ensures Stored(scan, faulty, entries, now) && !Current(scan, now) ==> v == Refused(Expired)
    ensures Stored(scan, faulty, entries, now) && Current(scan, now) &&
            !SameSession(scan, entries, now) ==>
              v == Refused(SessionMismatch)
    ensures Stored(scan, faulty, entries, now) && Current(scan, now) && SameSession(scan, entries, now) &&
            location.Some? && !VerifyLocation(rooms, distance, location.value, RoomKey(scan.classroom)).Valid() ==>
              v == Refused(LocationFailed(VerifyLocation(rooms, distance, location.value, RoomKey(scan.classroom)).failure))
    ensures v.Accepted? <==>
      && Stored(scan, faulty, entries, now) && Current(scan, now) && SameSession(scan, entries, now)
      && (location.Some? ==> VerifyLocation(rooms, distance, location.value, RoomKey(scan.classroom)).Valid())
    ensures v.Accepted? ==> v == Accepted(FieldText(scan.sessionId), scan.classroom, FieldText(scan.token))
  {
    match scan
    case Unreadable => Refused(InvalidFormat)
    case NullPayload => Refused(Thrown)
    case Payload(token, sessionId, classroom, validUntil) =>
      var t, s := FieldText(token), FieldText(sessionId);
      if t == "" || s == "" then Refused(MissingData)
      else
        var stored := if faulty then None else Lookup(entries, QRKey(t), now);
        if stored.None? then Refused(NotStored)
        else if validUntil.Some? && now > validUntil.value then Refused(Expired)
        else if stored.value.sessionId != s then Refused(SessionMismatch)
        else if location.Some? &&
                !VerifyLocation(rooms, distance, location.value, RoomKey(classroom)).Valid() then
          Refused(LocationFailed(VerifyLocation(rooms, distance, location.value, RoomKey(classroom)).failure))
        else Accepted(s, classroom, t)
  }

  /** The record a token issued at `now` is cached with. */
  function Issued(sessionId: string, classroom: string, token: string, validity: int, now: int): (r: TokenRecord)
    ensures r.validUntil - r.timestamp == validity * 1000 && r.timestamp == now
    ensures r.usedBy == [] && r.token == token && r.sessionId == sessionId && r.classroom == classroom
  {
    TokenRecord(sessionId, token, classroom, now, now + validity * 1000, [])
  }

  /** The payload encoded in the QR image of an issued record. */
  function PayloadOf(r: TokenRecord): (s: Scan)
    ensures s.Payload? && FieldText(s.token) == r.token && FieldText(s.sessionId) == r.sessionId
    ensures s.validUntil == Some(r.validUntil)
  {
    Payload(Some(r.token), Some(r.sessionId), Some(r.classroom), Some(r.validUntil))
  }

  /** The remaining lifetime, in whole seconds and at least one, a redeemed token is re-cached for. */
  function RemainingSeconds(validUntil: int, now: int): (ttl: int)
    ensures ttl >= 1
    ensures validUntil - now >= 1000 ==> validUntil - 1000 < now + ttl * 1000 <= validUntil
    ensures validUntil - now < 1000 ==> ttl == 1
  {
    Max(1, (validUntil - now) / 1000)
  }

  /** The store after redeeming `token` for `studentId` at `now`, when the token is live. */
  function Redeemed(entries: map<string, Entry<TokenRecord>>, token: string, studentId: string, now: int)
    : (m: map<string, Entry<TokenRecord>>)
    requires Lookup(entries, QRKey(token), now).Some?
    ensures QRKey(token) in m && m.Keys == entries.Keys
    ensures forall k :: k in entries && k != QRKey(token) ==> m[k] == entries[k]
    ensures m[QRKey(token)].value.usedBy ==
              entries[QRKey(token)].value.usedBy + [Redemption(studentId, now)]
    ensures m[QRKey(token)].value.sessionId == entries[QRKey(token)].value.sessionId
    ensures m[QRKey(token)].value.validUntil == entries[QRKey(token)].value.validUntil
  {
    var r := entries[QRKey(token)].value;
    var r' := r.(usedBy := r.usedBy + [Redemption(studentId, now)]);
    Put(entries, QRKey(token), r', RemainingSeconds(r.validUntil, now), now)
  }

  /** Who redeemed a token, as read at `now`; nothing for a token that is not live. */
  function UsageOf(faulty: bool, entries: map<string, Entry<TokenRecord>>, token: string, now: int): (u: Usage)
    ensures u.count == |u.users|
    ensures faulty || Lookup(entries, QRKey(token), now).None? ==> u == Usage(0, [])
  {
    var stored := if faulty then None else Lookup(entries, QRKey(token), now);
    if stored.None? then Usage(0, []) else Usage(|stored.value.usedBy|, stored.value.usedBy)
  }

  /** A freshly issued token, scanned from its own image within its validity and with no
      location, is accepted for its session. */
  lemma IssuedTokenAccepted(entries: map<string, Entry<TokenRecord>>, sessionId: string, classroom: string,
                            token: string, validity: int, issuedAt: int, now: int,
                            rooms: map<string, Room>, distance: (Point, Point) -> nat)
    requires token != "" && sessionId != ""
    requires issuedAt <= now < issuedAt + validity * 1000
    ensures var rec := Issued(sessionId, classroom, token, validity, issuedAt);
            Verdict(PayloadOf(rec), false, Put(entries, QRKey(token), rec, validity, issuedAt), now,
                    None, rooms, distance)
              == Accepted(sessionId, Some(classroom), token)
  {
    var rec := Issued(sessionId, classroom, token, validity, issuedAt);
    LookupAfterPut(entries, QRKey(token), rec, validity, issuedAt, QRKey(token), now);
  }

  /** Once an issued token's validity has passed, its own payload is refused: the cache entry
      is gone by then, so the refusal is "not stored" rather than "expired". */
  lemma IssuedTokenRefusedAfterValidity(entries: map<string, Entry<TokenRecord>>, sessionId: string,
                                        classroom: string, token: string, validity: int, issuedAt: int,
                                        now: int, location: Option<Location>, rooms: map<string, Room>,
                                        distance: (Point, Point) -> nat)
    requires token != "" && sessionId != ""
    requires now >= issuedAt + validity * 1000
    ensures var rec := Issued(sessionId, classroom, token, validity, issuedAt);
            Verdict(PayloadOf(rec), false, Put(entries, QRKey(token), rec, validity, issuedAt), now,
                    location, rooms, distance)
              == Refused(NotStored)
  {
    var rec := Issued(sessionId, classroom, token, validity, issuedAt);
    LookupAfterPut(entries, QRKey(token), rec, validity, issuedAt, QRKey(token), now);
  }

  /** An invalidated token is refused whatever the payload says. */
  lemma InvalidatedTokenRefused(entries: map<string, Entry<TokenRecord>>, token: string, scan: Scan, now: int,
                                location: Option<Location>, rooms: map<string, Room>,
                                distance: (Point, Point) -> nat)
    requires scan.Payload? && FieldText(scan.token) == token != "" && FieldText(scan.sessionId) != ""
    ensures Verdict(scan, false, entries - {QRKey(token)}, now, location, rooms, distance) == Refused(NotStored)
  {
    LookupAfterRemove(entries, QRKey(token), QRKey(token), now);
  }

  /** A token issued for one session never admits a payload naming another. */
  lemma OtherSessionRefused(entries: map<string, Entry<TokenRecord>>, scan: Scan, now: int,
                            location: Option<Location>, rooms: map<string, Room>,
                            distance: (Point, Point) -> nat)
    requires scan.Payload? && FieldText(scan.token) != ""
    requires QRKey(FieldText(scan.token)) in entries
    requires entries[QRKey(FieldText(scan.token))].value.sessionId != FieldText(scan.sessionId)
    ensures !Verdict(scan, false, entries, now, location, rooms, distance).Accepted?
  {
  }

  /** Redeeming a live token adds exactly that redemption to its usage, read at the same instant. */
  lemma RedeemedUsageGrows(entries: map<string, Entry<TokenRecord>>, token: string, studentId: string, now: int)
    requires Lookup(entries, QRKey(token), now).Some?
    ensures UsageOf(false, Redeemed(entries, token, studentId, now), token, now).users ==
              UsageOf(false, entries, token, now).users + [Redemption(studentId, now)]
    ensures UsageOf(false, Redeemed(entries, token, studentId, now), token, now).count ==
              UsageOf(false, entries, token, now).count + 1
  {
    var r := entries[QRKey(token)].value;
    var ttl := RemainingSeconds(r.validUntil, now);
    assert now < now + ttl * 1000;
  }

  /** Redemption never revives a token for another session nor changes its session. */
  lemma RedeemedKeepsVerdictSession(entries: map<string, Entry<TokenRecord>>, token: string, studentId: string,
                                    now: int, scan: Scan, location: Option<Location>,
                                    rooms: map<string, Room>, distance: (Point, Point) -> nat)
    requires Lookup(entries, QRKey(token), now).Some?
    requires scan.Payload? && FieldText(scan.token) == token
    requires entries[QRKey(token)].value.sessionId != FieldText(scan.sessionId)
    ensures !Verdict(scan, false, Redeemed(entries, token, studentId, now), now, location, rooms, distance).Accepted?
  {
  }

  class QRCodeService {
    /** Token validity in seconds: the configured value, or 300 when unset or zero. */
    const validity: int
    const cache: MemoryCache<TokenRecord>

    constructor (configuredValidity: Option<int>, cache: MemoryCache<TokenRecord>)
      ensures validity == if configuredValidity.Some? && configuredValidity.value != 0
                          then configuredValidity.value else 300
      ensures this.cache == cache
    {
      validity := if configuredValidity.Some? && configuredValidity.value != 0
                  then configuredValidity.value else 300;
      this.cache := cache;
    }

    /** Issues `token` for a session and caches its record for the validity period. A store
        error is not reported: the token is still handed out. */
    method GenerateQRCode(sessionId: string, classroom: string, token: string, now: int)
      returns (g: Generation)
      modifies cache`entries
      ensures g == Generation(token, now + validity * 1000, validity)
      ensures cache.entries == if cache.faulty then old(cache.entries)
              else Put(old(cache.entries), QRKey(token), Issued(sessionId, classroom, token, validity, now), validity, now)
    {
      var record := Issued(sessionId, classroom, token, validity, now);
      var _ := cache.StoreQRCode(token, record, validity, now);
      g := Generation(token, record.validUntil, validity);
    }

    /** Decides a scan; a payload whose own expiry has passed also deletes its token. */
    method VerifyQRCode(scan: Scan, location: Option<Location>, geo: GeofencingService, now: int)
      returns (v: QRVerdict)
      modifies cache`entries
      ensures v == Verdict(scan, cache.faulty, old(cache.entries), now, location, geo.classrooms, geo.distance)
      ensures cache.entries ==
                if v == Refused(Expired) && !cache.faulty then old(cache.entries) - {QRKey(scan.token.value)}
                else old(cache.entries)
    {
      match scan
      case Unreadable => v := Refused(InvalidFormat);
      case NullPayload => v := Refused(Thrown);
      case Payload(token, sessionId, classroom, validUntil) =>
        var t, s := FieldText(token), FieldText(sessionId);
        if t == "" || s == "" {
          return Refused(MissingData);
        }
        var stored := cache.GetQRCode(t, now);
        if stored.None? {
          return Refused(NotStored);
        }
        if validUntil.Some? && now > validUntil.value {
          var _ := cache.DeleteQRCode(t);
          return Refused(Expired);
        }
        if stored.value.sessionId != s {
          return Refused(SessionMismatch);
        }
        if location.Some? {
          var check := VerifyLocation(geo.classrooms, geo.distance, location.value, RoomKey(classroom));
          if !check.Valid() {
            return Refused(LocationFailed(check.failure));
          }
        }
        v := Accepted(s, classroom, t);
    }

    /** Deletes a token; success is reported even when the store fails. */
    method InvalidateQRCode(token: string) returns (success: bool)
      modifies cache`entries
      ensures success
      ensures cache.entries == if cache.faulty then old(cache.entries) else old(cache.entries) - {QRKey(token)}
    {
      var _ := cache.DeleteQRCode(token);
      success := true;
    }

    /** Appends a redemption to a live token and re-caches it for its remaining lifetime. */
    method MarkQRAsUsed(token: string, studentId: string, now: int) returns (success: bool)
      modifies cache`entries
      ensures success <==> !cache.faulty && Lookup(old(cache.entries), QRKey(token), now).Some?
      ensures cache.entries == if success then Redeemed(old(cache.entries), token, studentId, now)
                               else old(cache.entries)
    {
      var stored := cache.GetQRCode(token, now);
      if stored.None? {
        return false;
      }
      var r := stored.value;
      var r' := r.(usedBy := r.usedBy + [Redemption(studentId, now)]);
      var _ := cache.StoreQRCode(token, r', RemainingSeconds(r.validUntil, now), now);
      success := true;
    }

    /** The redemptions recorded for a token. */
    method CheckQRUsage(token: string, now: int) returns (u: Usage)
      ensures u == UsageOf(cache.faulty, cache.entries, token, now)
    {
      var stored := cache.GetQRCode(token, now);
      if stored.None? {
        return Usage(0, []);
      }
      u := Usage(|stored.value.usedBy|, stored.value.usedBy);
    }

    /** Issues a token and reports when its scheduled invalidation fires (`rotationInterval`
        ms later, 300000 by default). */
    method GenerateRotatingQR(sessionId: string, classroom: string, token: string, rotationInterval: int := 300000,
                              now: int) returns (g: Generation, invalidateAt: int)
      modifies cache`entries
      ensures g == Generation(token, now + validity * 1000, validity)
      ensures invalidateAt == now + rotationInterval
      ensures cache.entries == if cache.faulty then old(cache.entries)
              else Put(old(cache.entries), QRKey(token), Issued(sessionId, classroom, token, validity, now), validity, now)
    {
      g := GenerateQRCode(sessionId, classroom, token, now);
      invalidateAt := now + rotationInterval;
    }
  }
}
