/** Push registration (`app/pushRegistration.ts`): the device id that is
    stable across launches, and the flow that asks for permission, fetches the
    Expo token and registers the pair with the backend. Storage is a map; the
    SHA-1 digest, the native ids and the Expo SDK answers are parameters. */
module DeviceId {
  import opened Wrappers
  import opened Text
  import opened Sequences

  /** `Platform.OS`. */
  datatype Os = Android | Ios | OtherOs(name: string)

  /** The platform's name as `Platform.OS` spells it. */
  function OsName(os: Os): string
  {
    match os
    case Android => "android"
    case Ios => "ios"
    case OtherOs(n) => n
  }

  /** What the handset reports: whether it is a physical device, its native
      ids (`None` for a missing value or, for the IDFV, a call that threw),
      and the six hardware and build fields in order (`modelId`, `modelName`,
      `osName`, `osVersion`, `osBuildId`, `deviceName`). */
  datatype Handset = Handset(os: Os, isDevice: bool, androidId: Option<string>, idfv: Option<string>,
                             hardware: seq<Option<string>>)

  /** The storage key of the derived id. */
  const StoredIdKey := "uniqueDeviceId"

  /** A truthy optional string. */
  predicate Given(v: Option<string>)
  {
    v.Some? && v.value != ""
  }

  /** The native id the platform offers, if any: the Android id on Android,
      the IDFV on iOS. */
  function NativeId(h: Handset): (r: Option<string>)
    ensures r.Some? ==> r.value != ""
    ensures r.Some? <==> (h.os == Android && Given(h.androidId)) || (h.os == Ios && Given(h.idfv))
  {
    if h.os == Android && Given(h.androidId) then h.androidId
    else if h.os == Ios && Given(h.idfv) then h.idfv
    else None
  }

  /** The hardware fields that are present, in order. */
  function PresentFields(fields: seq<Option<string>>): (r: seq<string>)
    ensures forall i :: 0 <= i < |r| ==> r[i] != "" && Some(r[i]) in fields
    ensures forall i :: 0 <= i < |fields| && Given(fields[i]) ==> fields[i].value in r
    ensures |r| <= |fields|
    ensures |r| == |Filter(fields, Given)| && forall k :: 0 <= k < |r| ==> Some(r[k]) == Filter(fields, Given)[k]
  {
    if |fields| == 0 then []
    else
      var rest := PresentFields(fields[1..]);
      assert forall i :: 1 <= i < |fields| ==> fields[i] == fields[1..][i - 1];
      if Given(fields[0]) then [fields[0].value] + rest else rest
  }

  /** The `k`-th present field is the `k`-th truthy one of the handset, so the
      order of the fields, which decides the digest, is kept, and a field
      given twice is listed twice. */
  lemma PresentFieldsInOrder(fields: seq<Option<string>>)
    ensures var ps := Positions(fields, Given, 0);
      && |PresentFields(fields)| == |ps|
      && forall k :: 0 <= k < |ps| ==> Some(PresentFields(fields)[k]) == fields[ps[k]]
  {
    FilterAtPositions(fields, Given, 0);
    assert fields[0..] == fields;
  }

  /** `[…].filter(Boolean).join('|') || `${Platform.OS}-unknown``. */
  function RawId(h: Handset): (raw: string)
    ensures raw != ""
    ensures PresentFields(h.hardware) == [] ==> raw == OsName(h.os) + "-unknown"
    ensures PresentFields(h.hardware) != [] && (forall i :: 0 <= i < |h.hardware| && h.hardware[i].Some? ==> '|' !in h.hardware[i].value) ==>
      Split(raw, '|') == PresentFields(h.hardware)
  {
    var fields := PresentFields(h.hardware);
    if fields == [] then OsName(h.os) + "-unknown"
    else
      assert (forall i :: 0 <= i < |h.hardware| && h.hardware[i].Some? ==> '|' !in h.hardware[i].value) ==>
        Split(Join(fields, "|"), '|') == fields by {
        if forall i :: 0 <= i < |h.hardware| && h.hardware[i].Some? ==> '|' !in h.hardware[i].value {
          forall i | 0 <= i < |fields|
            ensures '|' !in fields[i]
          {
            var j :| 0 <= j < |h.hardware| && h.hardware[j] == Some(fields[i]);
          }
          JoinSplit(fields, '|');
        }
      }
      JoinNonEmpty(fields, "|");
      Join(fields, "|")
  }

  /** Joining non-empty pieces gives a non-empty string. */
  lemma JoinNonEmpty(parts: seq<string>, sep: string)
    requires |parts| >= 1 && parts[0] != ""
    ensures Join(parts, sep) != ""
  {
    if |parts| > 1 {
      assert |Join(parts, sep)| >= |parts[0]|;
    }
  }

  /** `` `${Platform.OS}-${hash.slice(0, 20)}` `` for the digest of the raw id. */
  function FallbackId(h: Handset, sha1: string -> string): (id: string)
    ensures OsName(h.os) + "-" <= id
    ensures |id| <= |OsName(h.os)| + 21
    ensures |sha1(RawId(h))| >= 20 ==> id == OsName(h.os) + "-" + sha1(RawId(h))[..20]
  {
    var hash := sha1(RawId(h));
    OsName(h.os) + "-" + (if |hash| >= 20 then hash[..20] else hash)
  }

  /** `getStableDeviceId()`: the native id when there is one; otherwise the
      stored id when it is non-empty; otherwise the derived id, which is
      stored before it is returned. Returns the id and the storage after. */
  function StableDeviceId(h: Handset, store: map<string, string>, sha1: string -> string): (r: (string, map<string, string>))
    ensures r.0 != ""
    ensures NativeId(h).Some? ==> r == (NativeId(h).value, store)
    ensures NativeId(h).None? && StoredIdKey in store && store[StoredIdKey] != "" ==> r == (store[StoredIdKey], store)
    ensures NativeId(h).None? && !(StoredIdKey in store && store[StoredIdKey] != "") ==>
      r.0 == FallbackId(h, sha1) && r.1 == store[StoredIdKey := r.0]
  {
    match NativeId(h)
    case Some(id) => (id, store)
    case None =>
      if StoredIdKey in store && store[StoredIdKey] != "" then (store[StoredIdKey], store)
      else
        var id := FallbackId(h, sha1);
        (id, store[StoredIdKey := id])
  }

  /** The id is stable: asking again with the storage left by the first call
      gives the same id and writes nothing, whatever the digest does. */
  lemma IdIsStable(h: Handset, store: map<string, string>, sha1: string -> string, sha1Later: string -> string)
    ensures var (id, after) := StableDeviceId(h, store, sha1);
      StableDeviceId(h, after, sha1Later) == (id, after)
  {
  }

  /** The id is derived only once: the storage changes only when it held no
      id and the platform offers none, and then only at the id's key. */
  lemma StoreChangesOnce(h: Handset, store: map<string, string>, sha1: string -> string, k: string)
    requires k != StoredIdKey
    ensures var after := StableDeviceId(h, store, sha1).1;
      (k in after <==> k in store) && (k in store ==> after[k] == store[k])
  {
  }

  /* ----------------------------- registration ----------------------------- */

  /** `{ device_id_str, expo_token }`. */
  datatype Payload = Payload(deviceIdStr: string, expoToken: string)

  /** What the registration does, in order. */
  datatype Effect =
    | RequestPermission
    | DenialAlert
    | CreateChannel
    | FetchToken
    | PostRegister(payload: Payload)

  /** The answers of the SDK: the permission status before and after asking,
      and the token (or the error it threw). */
  datatype Answers = Answers(status: string, requested: string, token: Result<string, string>)

  /** The outcome: effects in order, the token kept by the hook, and the
      storage after. */
  datatype Registration = Registration(effects: seq<Effect>, token: Option<string>, store: map<string, string>)

  /** The permission status that lets the token be fetched. */
  const Granted := "granted"

  /** The status once permission has been asked for if it was not granted. */
  function FinalStatus(a: Answers): string
  {
    if a.status != Granted then a.requested else a.status
  }

  /** The effect of `useRegisterForPushNotificationsAsync`. */
  function Register(h: Handset, a: Answers, store: map<string, string>, sha1: string -> string): (r: Registration)
    ensures !h.isDevice ==> r == Registration([], None, store)
    ensures h.isDevice ==> (RequestPermission in r.effects <==> a.status != Granted)
    ensures FinalStatus(a) != Granted || a.token.Err? ==>
      (r.token.None? && r.store == store && forall e :: e in r.effects ==> !e.PostRegister?)
    ensures h.isDevice && FinalStatus(a) != Granted ==> FetchToken !in r.effects && DenialAlert in r.effects
    ensures h.isDevice && FinalStatus(a) == Granted && a.token.Ok? ==>
      var stable := StableDeviceId(h, store, sha1);
      && r.token == Some(a.token.value) && r.store == stable.1
      && |r.effects| >= 2 && r.effects[|r.effects| - 1] == PostRegister(Payload(stable.0, a.token.value))
    ensures (CreateChannel in r.effects) ==> h.os == Android
  {
    if !h.isDevice then Registration([], None, store)
    else
      var ask := if a.status != Granted then [RequestPermission] else [];
      if FinalStatus(a) != Granted then Registration(ask + [DenialAlert], None, store)
      else
        var granted := AfterGrant(h, a, store, sha1);
        Registration(ask + granted.effects, granted.token, granted.store)
  }

  /** What follows once permission is granted: the Android channel, the token
      fetch, and, when the token came, the registration post. */
  function AfterGrant(h: Handset, a: Answers, store: map<string, string>, sha1: string -> string): (r: Registration)
    ensures RequestPermission !in r.effects && DenialAlert !in r.effects && FetchToken in r.effects
    ensures a.token.Err? ==> r.token.None? && r.store == store && forall e :: e in r.effects ==> !e.PostRegister?
    ensures a.token.Ok? ==>
      var stable := StableDeviceId(h, store, sha1);
      && r.token == Some(a.token.value) && r.store == stable.1
      && |r.effects| >= 2 && r.effects[|r.effects| - 1] == PostRegister(Payload(stable.0, a.token.value))
    ensures (CreateChannel in r.effects) ==> h.os == Android
  {
    var channel := if h.os == Android then [CreateChannel] else [];
    match a.token
    case Err(_) => Registration(channel + [FetchToken], None, store)
    case Ok(t) =>
      var stable := StableDeviceId(h, store, sha1);
      Registration(channel + [FetchToken, PostRegister(Payload(stable.0, t))], Some(t), stable.1)
  }

  /** Registering twice on the same handset posts the same device id. */
  lemma RegisterTwiceSameId(h: Handset, a: Answers, store: map<string, string>, sha1: string -> string,
                            sha1Later: string -> string)
    requires h.isDevice && FinalStatus(a) == Granted && a.token.Ok?
    ensures var first := Register(h, a, store, sha1);
      var second := Register(h, a, first.store, sha1Later);
      first.effects[|first.effects| - 1] == second.effects[|second.effects| - 1] && second.store == first.store
  {
    IdIsStable(h, store, sha1, sha1Later);
  }
}
