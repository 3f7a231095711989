/**
 * Broker configurations and per-user broker credentials over an abstract
 * table: configurations are a sequence in table order, credentials a map
 * from primary key to record. Encryption is the parameter `encrypt`, the
 * clock the parameter `now`.
 */
module CrudBrokers {
  import opened Wrappers
  import opened ApiModels

  // ---------------------------------------------------------------------
  // Broker configurations

  datatype Config = Config(id: int, brokerName: string, displayName: string, brokerType: string, isActive: bool)

  /** A Python string argument is truthy when given and non-empty. */
  predicate Truthy(s: Option<string>) {
    s.Some? && s.value != ""
  }

  /** Whether a configuration passes the listing filters. */
  predicate Listed(c: Config, brokerType: Option<string>, activeOnly: bool) {
    (Truthy(brokerType) ==> c.brokerType == brokerType.value) && (activeOnly ==> c.isActive)
  }

  /**
   * `get_broker_configs`: filter by type when one is given and non-empty,
   * and to active configurations only when `is_active` is truthy; table
   * order is kept.
   */
  function ListConfigs(configs: seq<Config>, brokerType: Option<string>, activeOnly: bool): (r: seq<Config>)
    ensures |r| <= |configs|
    ensures forall c :: c in r <==> c in configs && Listed(c, brokerType, activeOnly)
  {
    if |configs| == 0 then []
    else
      (if Listed(configs[0], brokerType, activeOnly) then [configs[0]] else [])
        + ListConfigs(configs[1..], brokerType, activeOnly)
  }

  /** Listing a concatenated table lists each part and keeps the parts in table order. */
  lemma {:induction false} ListConfigsAppend(a: seq<Config>, b: seq<Config>, brokerType: Option<string>, activeOnly: bool)
    ensures ListConfigs(a + b, brokerType, activeOnly)
            == ListConfigs(a, brokerType, activeOnly) + ListConfigs(b, brokerType, activeOnly)
    decreases |a|
  {
    if |a| == 0 {
      assert a + b == b;
    } else {
      assert (a + b)[0] == a[0];
      assert (a + b)[1..] == a[1..] + b;
      ListConfigsAppend(a[1..], b, brokerType, activeOnly);
    }
  }

  /** A one-row table lists its row exactly when the row passes the filters. */
  lemma ListConfigsSingle(c: Config, brokerType: Option<string>, activeOnly: bool)
    ensures ListConfigs([c], brokerType, activeOnly) == if Listed(c, brokerType, activeOnly) then [c] else []
  {
    assert [c][1..] == [];
  }

  /** With no type and `is_active` false or absent, every configuration is listed. */
  lemma {:induction false} ListConfigsUnfiltered(configs: seq<Config>, brokerType: Option<string>)
    requires !Truthy(brokerType)
    ensures ListConfigs(configs, brokerType, false) == configs
  {
    if |configs| > 0 {
      ListConfigsUnfiltered(configs[1..], brokerType);
      assert configs == [configs[0]] + configs[1..];
    }
  }

  /** Listing twice with the same filters lists the same configurations. */
  lemma {:induction false} ListConfigsIdempotent(configs: seq<Config>, brokerType: Option<string>, activeOnly: bool)
    ensures ListConfigs(ListConfigs(configs, brokerType, activeOnly), brokerType, activeOnly)
            == ListConfigs(configs, brokerType, activeOnly)
  {
    if |configs| > 0 {
      var rest := ListConfigs(configs[1..], brokerType, activeOnly);
      ListConfigsIdempotent(configs[1..], brokerType, activeOnly);
      if Listed(configs[0], brokerType, activeOnly) {
        var l := [configs[0]] + rest;
        assert l[0] == configs[0] && l[1..] == rest;
      } else {
        assert ListConfigs(configs, brokerType, activeOnly) == rest;
      }
    }
  }

  /** A configuration lookup key. */
  datatype Key = ById(id: int) | ByName(name: string)

  predicate Matches(c: Config, k: Key) {
    match k
    case ById(id) => c.id == id
    case ByName(name) => c.brokerName == name
  }

  /** `.first()`: the earliest configuration in table order that matches. */
  function First(configs: seq<Config>, k: Key): (r: Option<Config>)
    ensures r.None? <==> forall i :: 0 <= i < |configs| ==> !Matches(configs[i], k)
    ensures r.Some? ==> exists i :: (0 <= i < |configs| && configs[i] == r.value && Matches(r.value, k)
                                     && forall j :: 0 <= j < i ==> !Matches(configs[j], k))
  {
    if |configs| == 0 then None
    else if Matches(configs[0], k) then Some(configs[0])
    else
      var rest := First(configs[1..], k);
      assert forall i :: 1 <= i < |configs| ==> configs[i] == configs[1..][i - 1];
      if rest.Some? then
        ghost var i :| 0 <= i < |configs[1..]| && configs[1..][i] == rest.value && Matches(rest.value, k)
          && forall j :: 0 <= j < i ==> !Matches(configs[1..][j], k);
        assert configs[i + 1] == rest.value;
        assert forall j :: 0 <= j < i + 1 ==> !Matches(configs[j], k) by {
          forall j | 0 <= j < i + 1 ensures !Matches(configs[j], k) {
            if j > 0 { assert configs[j] == configs[1..][j - 1]; }
          }
        }
        rest
      else rest
  }

  /**
   * `get_broker_config`: by id when the id is given and non-zero, else by
   * name when the name is given and non-empty, else nothing.
   */
  function GetConfig(configs: seq<Config>, brokerId: Option<int>, brokerName: Option<string>): (r: Option<Config>)
    ensures r.Some? ==> r.value in configs
    ensures brokerId.Some? && brokerId.value != 0 ==>
              (r.Some? <==> exists i :: 0 <= i < |configs| && configs[i].id == brokerId.value)
              && (r.Some? ==> r.value.id == brokerId.value)
    ensures (brokerId.None? || brokerId.value == 0) && Truthy(brokerName) ==>
              (r.Some? <==> exists i :: 0 <= i < |configs| && configs[i].brokerName == brokerName.value)
              && (r.Some? ==> r.value.brokerName == brokerName.value)
    ensures (brokerId.None? || brokerId.value == 0) && !Truthy(brokerName) ==> r.None?
  {
    if brokerId.Some? && brokerId.value != 0 then First(configs, ById(brokerId.value))
    else if Truthy(brokerName) then First(configs, ByName(brokerName.value))
    else None
  }

  // ---------------------------------------------------------------------
  // Broker credentials

  /** A stored credential; the three secrets are held encrypted. */
  datatype Credential = Credential(
    userId: int,
    brokerConfigId: int,
    apiKey: Option<string>,
    apiSecret: Option<string>,
    apiPassphrase: Option<string>,
    isTestnet: Option<bool>,
    isActive: Option<bool>,
    validationStatus: string,
    lastValidatedAt: Option<int>,
    lastValidationError: Option<string>,
    updatedAt: Option<int>)

  type Credentials = map<int, Credential>

  datatype CrudError = ConfigNotFound(brokerConfigId: int)

  /** A secret as it is stored: encrypted when given and non-empty, else nothing. */
  function Seal(secret: Option<string>, encrypt: string -> string): (r: Option<string>)
    ensures r.Some? <==> Truthy(secret)
    ensures r.Some? ==> r.value == encrypt(secret.value)
  {
    if Truthy(secret) then Some(encrypt(secret.value)) else None
  }

  /** `get_broker_credential`: the record only when both its id and its owner match. */
  function GetCredential(creds: Credentials, id: int, userId: int): (r: Option<Credential>)
    ensures r.Some? <==> id in creds && creds[id].userId == userId
    ensures r.Some? ==> r.value == creds[id]
  {
    if id in creds && creds[id].userId == userId then Some(creds[id]) else None
  }

  /**
   * `create_broker_credential`: the configuration must exist (an id of 0
   * never finds one); the record starts pending with each secret stored
   * only when non-empty. `newId` is the key the database assigns.
   */
  function CreateCredential(configs: seq<Config>, creds: Credentials, req: CredentialCreate, userId: int,
                            newId: int, encrypt: string -> string): (r: Result<(Credentials, Credential), CrudError>)
    requires newId !in creds
    ensures r.Failure? <==> req.brokerConfigId == 0 || forall i :: 0 <= i < |configs| ==> configs[i].id != req.brokerConfigId
    ensures r.Failure? ==> r.error == ConfigNotFound(req.brokerConfigId)
    ensures r.Success? ==> var (store, cred) := r.value;
      && store == creds[newId := cred]
      && cred.userId == userId && cred.brokerConfigId == req.brokerConfigId
      && cred.validationStatus == StatusName(Pending)
      && cred.apiKey == Seal(Some(req.apiKey), encrypt)
      && cred.apiSecret == Seal(req.apiSecret, encrypt)
      && cred.apiPassphrase == Seal(req.apiPassphrase, encrypt)
      && cred.isTestnet == Some(req.isTestnet) && cred.isActive == Some(req.isActive)
  {
    if GetConfig(configs, Some(req.brokerConfigId), None).None? then Failure(ConfigNotFound(req.brokerConfigId))
    else
      var cred := Credential(
        userId, req.brokerConfigId,
        Seal(Some(req.apiKey), encrypt), Seal(req.apiSecret, encrypt), Seal(req.apiPassphrase, encrypt),
        Some(req.isTestnet), Some(req.isActive), StatusName(Pending), None, None, None);
      Success((creds[newId := cred], cred))
  }

  /** A new credential is visible to its owner, to nobody else, and leaves every other key alone. */
  lemma CreateThenGet(configs: seq<Config>, creds: Credentials, req: CredentialCreate, userId: int, other: int,
                      newId: int, encrypt: string -> string, id: int)
    requires newId !in creds
    requires CreateCredential(configs, creds, req, userId, newId, encrypt).Success?
    ensures var (store, cred) := CreateCredential(configs, creds, req, userId, newId, encrypt).value;
      && GetCredential(store, newId, userId) == Some(cred)
      && (other != userId ==> GetCredential(store, newId, other).None?)
      && (id != newId ==> GetCredential(store, id, other) == GetCredential(creds, id, other))
  {
  }

  /** A secret in an update replaces the stored one only when it is non-empty. */
  function Reseal(update: Field<Option<string>>, current: Option<string>, encrypt: string -> string): (r: Option<string>)
    ensures update.SetTo? && Truthy(update.value) ==> r == Some(encrypt(update.value.value))
    ensures !(update.SetTo? && Truthy(update.value)) ==> r == current
  {
    if update.SetTo? && Truthy(update.value) then Some(encrypt(update.value.value)) else current
  }

  /**
   * `update_broker_credential`: nothing for an absent or foreign record;
   * otherwise the non-empty secrets are re-encrypted, the given flags are
   * written (a given `null` included), naming any secret at all resets
   * the status to pending, and the update time is set.
   */
  function UpdateCredential(creds: Credentials, id: int, u: CredentialUpdate, userId: int, now: int,
                            encrypt: string -> string): (r: Option<(Credentials, Credential)>)
    ensures r.None? <==> GetCredential(creds, id, userId).None?
    ensures r.Some? ==> var (store, cred) := r.value; var prev := creds[id];
      && store == creds[id := cred]
      && cred.userId == prev.userId && cred.brokerConfigId == prev.brokerConfigId
      && cred.apiKey == Reseal(u.apiKey, prev.apiKey, encrypt)
      && cred.apiSecret == Reseal(u.apiSecret, prev.apiSecret, encrypt)
      && cred.apiPassphrase == Reseal(u.apiPassphrase, prev.apiPassphrase, encrypt)
      && cred.isTestnet == OrDefault(u.isTestnet, prev.isTestnet)
      && cred.isActive == OrDefault(u.isActive, prev.isActive)
      && cred.validationStatus == (if TouchesSecrets(u) then StatusName(Pending) else prev.validationStatus)
      && cred.lastValidatedAt == prev.lastValidatedAt && cred.lastValidationError == prev.lastValidationError
      && cred.updatedAt == Some(now)
  {
    match GetCredential(creds, id, userId)
    case None => None
    case Some(prev) =>
      var cred := prev.(
        apiKey := Reseal(u.apiKey, prev.apiKey, encrypt),
        apiSecret := Reseal(u.apiSecret, prev.apiSecret, encrypt),
        apiPassphrase := Reseal(u.apiPassphrase, prev.apiPassphrase, encrypt),
        isTestnet := OrDefault(u.isTestnet, prev.isTestnet),
        isActive := OrDefault(u.isActive, prev.isActive),
        validationStatus := if TouchesSecrets(u) then StatusName(Pending) else prev.validationStatus,
        updatedAt := Some(now));
      Some((creds[id := cred], cred))
  }

  /**
   * Clearing a secret is not possible through an update: an empty or
   * `null` secret keeps the stored one, yet still marks the record pending.
   */
  lemma EmptySecretKeepsKey(creds: Credentials, id: int, userId: int, now: int, encrypt: string -> string,
                            blank: Option<string>)
    requires GetCredential(creds, id, userId).Some?
    requires !Truthy(blank)
    ensures var u := CredentialUpdate(SetTo(blank), Unset, Unset, Unset, Unset);
      var cred := UpdateCredential(creds, id, u, userId, now, encrypt).value.1;
      cred.apiKey == creds[id].apiKey && cred.validationStatus == "pending"
  {
  }

  /** An update that names no secret keeps the secrets and the status, and the owner reads back the new record. */
  lemma UpdateWithoutSecrets(creds: Credentials, id: int, u: CredentialUpdate, userId: int, now: int,
                             encrypt: string -> string)
    requires GetCredential(creds, id, userId).Some?
    requires !TouchesSecrets(u)
    ensures var (store, cred) := UpdateCredential(creds, id, u, userId, now, encrypt).value;
      && cred.apiKey == creds[id].apiKey && cred.apiSecret == creds[id].apiSecret
      && cred.apiPassphrase == creds[id].apiPassphrase
      && cred.validationStatus == creds[id].validationStatus
      && GetCredential(store, id, userId) == Some(cred)
  {
  }

  /** `delete_broker_credential`: refuse an absent or foreign record; otherwise remove it. */
  function DeleteCredential(creds: Credentials, id: int, userId: int): (r: (Credentials, bool))
    ensures r.1 <==> GetCredential(creds, id, userId).Some?
    ensures !r.1 ==> r.0 == creds
    ensures r.1 ==> r.0.Keys == creds.Keys - {id}
    ensures forall k :: k in r.0 ==> k in creds && r.0[k] == creds[k]
  {
    if GetCredential(creds, id, userId).None? then (creds, false)
    else (map k | k in creds && k != id :: creds[k], true)
  }

  /** After a successful delete nobody reads the record back; a refused one changes nothing. */
  lemma DeleteThenGet(creds: Credentials, id: int, userId: int, anyone: int)
    ensures var (store, deleted) := DeleteCredential(creds, id, userId);
      && (deleted ==> GetCredential(store, id, anyone).None?)
      && (!deleted ==> GetCredential(store, id, anyone) == GetCredential(creds, id, anyone))
  {
  }

  datatype StatusUpdate = StatusUpdate(store: Credentials, credential: Credential, error: Option<string>)

  /**
   * `update_validation_status`: by id alone, with no owner check; sets the
   * status and the validation time, and the row's `onupdate` stamps
   * `updated_at` on the same commit. The error is attached to the returned
   * object under `validation_error`, a name the table does not map (its
   * column is `last_validation_error`), so the stored error is unchanged.
   */
  function UpdateValidationStatus(creds: Credentials, id: int, status: string, error: Option<string>,
                                  now: int): (r: Option<StatusUpdate>)
    ensures r.None? <==> id !in creds
    ensures r.Some? ==> var u := r.value;
      && u.store == creds[id := u.credential]
      && u.credential == creds[id].(validationStatus := status, lastValidatedAt := Some(now), updatedAt := Some(now))
      && u.error == error
  {
    if id !in creds then None
    else
      var cred := creds[id].(validationStatus := status, lastValidatedAt := Some(now), updatedAt := Some(now));
      Some(StatusUpdate(creds[id := cred], cred, error))
  }

  /** The status update reaches a record whoever owns it, and the owner reads the new status. */
  lemma StatusUpdateIgnoresOwner(creds: Credentials, id: int, status: string, error: Option<string>, now: int)
    requires id in creds
    ensures var u := UpdateValidationStatus(creds, id, status, error, now).value;
      GetCredential(u.store, id, creds[id].userId).value.validationStatus == status
  {
  }
}
