/**
 * The request and credential schemas of the HTTP API: the backtest request
 * with its `strategy_type` alias, field bounds and defaults; the credential
 * create and update schemas; and the credential validation states.
 */
module ApiModels {
  import opened Wrappers
  import opened Params

  /**
   * A field of an incoming JSON object: absent, or given with a value. An
   * explicitly given `null` is `SetTo(None)` for an optional field, which
   * is not the same as leaving the field out.
   */
  datatype Field<T> = Unset | SetTo(value: T)

  function OrDefault<T>(f: Field<T>, default: T): (r: T)
    ensures f.Unset? ==> r == default
    ensures f.SetTo? ==> r == f.value
  {
    if f.SetTo? then f.value else default
  }

  // ---------------------------------------------------------------------
  // ValidationStatus

  datatype ValidationStatus = Pending | Valid | Invalid | Error

  function StatusName(s: ValidationStatus): string {
    match s
    case Pending => "pending"
    case Valid => "valid"
    case Invalid => "invalid"
    case Error => "error"
  }

  /** `ValidationStatus(value)`: the member with that value, if any. */
  function ParseStatus(name: string): (r: Option<ValidationStatus>)
    ensures r.Some? ==> StatusName(r.value) == name
  {
    if name == "pending" then Some(Pending)
    else if name == "valid" then Some(Valid)
    else if name == "invalid" then Some(Invalid)
    else if name == "error" then Some(Error)
    else None
  }

  /** Every status reads back from its value, and only the four values parse. */
  lemma StatusRoundTrip(s: ValidationStatus, name: string)
    ensures ParseStatus(StatusName(s)) == Some(s)
    ensures ParseStatus(name).Some? <==> name in {"pending", "valid", "invalid", "error"}
  {
  }

  /** The four values are pairwise different. */
  lemma StatusNamesDistinct(s: ValidationStatus, t: ValidationStatus)
    ensures StatusName(s) == StatusName(t) <==> s == t
  {
    StatusRoundTrip(s, StatusName(s));
    StatusRoundTrip(t, StatusName(t));
  }

  // ---------------------------------------------------------------------
  // BacktestRequest

  /** The fields of a backtest request body as given by the client. */
  datatype RequestBody = RequestBody(
    strategyId: Field<string>,
    strategyType: Field<Option<string>>,
    symbol: Field<string>,
    days: Field<int>,
    initialCapital: Field<real>,
    commission: Field<real>,
    params: Field<Option<ParamMap>>,
    useRealData: Field<bool>)

  datatype BacktestRequest = BacktestRequest(
    strategyId: string,
    strategyType: Option<string>,
    symbol: string,
    days: int,
    initialCapital: real,
    commission: real,
    params: Option<ParamMap>,
    useRealData: bool)

  /** The validation errors of a request, in field order. */
  datatype RequestError = MissingStrategyId | DaysOutOfRange | CapitalNotPositive | CommissionOutOfRange

  const DefaultSymbol := "BTC/USDT"
  const DefaultDays := 365
  const DefaultCapital: real := 10000.0
  const DefaultCommission: real := 0.001

  /**
   * The strategy id after the alias rule: a given `strategy_id` wins; when
   * it is absent, a given `strategy_type` (even `null`) takes its place.
   */
  function ResolveStrategyId(body: RequestBody): (r: Option<string>)
    ensures body.strategyId.SetTo? ==> r == Some(body.strategyId.value)
    ensures body.strategyId.Unset? && body.strategyType.SetTo? ==> r == body.strategyType.value
    ensures body.strategyId.Unset? && body.strategyType.Unset? ==> r.None?
  {
    match body.strategyId
    case SetTo(id) => Some(id)
    case Unset => OrDefault(body.strategyType, None)
  }

  predicate DaysInRange(days: int) { 1 <= days <= 3650 }
  predicate CommissionInRange(c: real) { 0.0 <= c <= 0.1 }

  /** The request after defaults, before any bound is checked. */
  function Filled(body: RequestBody, id: string): BacktestRequest {
    BacktestRequest(
      id,
      OrDefault(body.strategyType, None),
      OrDefault(body.symbol, DefaultSymbol),
      OrDefault(body.days, DefaultDays),
      OrDefault(body.initialCapital, DefaultCapital),
      OrDefault(body.commission, DefaultCommission),
      OrDefault(body.params, None),
      OrDefault(body.useRealData, true))
  }

  /**
   * `BacktestRequest(**data)`: resolve the alias, fill in the defaults and
   * check every bound; a refused body lists each violated field.
   */
  function ParseRequest(body: RequestBody): (r: Result<BacktestRequest, seq<RequestError>>)
    ensures r.Success? ==> && DaysInRange(r.value.days)
                           && r.value.initialCapital > 0.0
                           && CommissionInRange(r.value.commission)
                           && Some(r.value.strategyId) == ResolveStrategyId(body)
    ensures r.Success? ==> && r.value.symbol == OrDefault(body.symbol, DefaultSymbol)
                           && r.value.days == OrDefault(body.days, DefaultDays)
                           && r.value.initialCapital == OrDefault(body.initialCapital, DefaultCapital)
                           && r.value.commission == OrDefault(body.commission, DefaultCommission)
                           && r.value.params == OrDefault(body.params, None)
                           && r.value.strategyType == OrDefault(body.strategyType, None)
                           && r.value.useRealData == OrDefault(body.useRealData, true)
    ensures r.Failure? ==> |r.error| > 0
    ensures r.Failure? ==> (MissingStrategyId in r.error <==> ResolveStrategyId(body).None?)
    ensures r.Failure? ==> (DaysOutOfRange in r.error <==> !DaysInRange(OrDefault(body.days, DefaultDays)))
    ensures r.Failure? ==> (CapitalNotPositive in r.error <==> OrDefault(body.initialCapital, DefaultCapital) <= 0.0)
    ensures r.Failure? ==> (CommissionOutOfRange in r.error <==> !CommissionInRange(OrDefault(body.commission, DefaultCommission)))
  {
    var id := ResolveStrategyId(body);
    var days := OrDefault(body.days, DefaultDays);
    var capital := OrDefault(body.initialCapital, DefaultCapital);
    var commission := OrDefault(body.commission, DefaultCommission);
    var errors :=
      (if id.None? then [MissingStrategyId] else [])
      + (if !DaysInRange(days) then [DaysOutOfRange] else [])
      + (if capital <= 0.0 then [CapitalNotPositive] else [])
      + (if !CommissionInRange(commission) then [CommissionOutOfRange] else []);
    if errors == [] then Success(Filled(body, id.value)) else Failure(errors)
  }

  /** A body that names only a strategy id is accepted with every default. */
  lemma OnlyIdTakesDefaults(id: string)
    ensures var r := ParseRequest(RequestBody(SetTo(id), Unset, Unset, Unset, Unset, Unset, Unset, Unset));
      r == Success(BacktestRequest(id, None, "BTC/USDT", 365, 10000.0, 0.001, None, true))
  {
  }

  /**
   * The alias is used only when the id is absent: with both given the id
   * wins, and with only the alias the alias becomes the id.
   */
  lemma AliasOnlyWhenAbsent(body: RequestBody)
    requires ParseRequest(body).Success?
    ensures body.strategyId.SetTo? ==> ParseRequest(body).value.strategyId == body.strategyId.value
    ensures body.strategyId.Unset? ==> body.strategyType.SetTo? && Some(ParseRequest(body).value.strategyId) == body.strategyType.value
  {
  }

  /** A body is accepted exactly when it resolves an id and every bound holds. */
  lemma AcceptedIff(body: RequestBody)
    ensures ParseRequest(body).Success? <==>
      && ResolveStrategyId(body).Some?
      && DaysInRange(OrDefault(body.days, DefaultDays))
      && OrDefault(body.initialCapital, DefaultCapital) > 0.0
      && CommissionInRange(OrDefault(body.commission, DefaultCommission))
  {
  }

  // ---------------------------------------------------------------------
  // Broker credential schemas

  datatype CredentialCreate = CredentialCreate(
    brokerConfigId: int,
    apiKey: string,
    apiSecret: Option<string>,
    apiPassphrase: Option<string>,
    isTestnet: bool,
    isActive: bool)

  /** `BrokerCredentialCreate(**data)`: the optional fields take their defaults. */
  function NewCredentialCreate(brokerConfigId: int, apiKey: string, apiSecret: Field<Option<string>>,
                               apiPassphrase: Field<Option<string>>, isTestnet: Field<bool>,
                               isActive: Field<bool>): (r: CredentialCreate)
    ensures r.brokerConfigId == brokerConfigId && r.apiKey == apiKey
    ensures apiSecret.Unset? ==> r.apiSecret.None?
    ensures apiPassphrase.Unset? ==> r.apiPassphrase.None?
    ensures isTestnet.Unset? ==> !r.isTestnet
    ensures isActive.Unset? ==> r.isActive
    ensures apiSecret.SetTo? ==> r.apiSecret == apiSecret.value
    ensures apiPassphrase.SetTo? ==> r.apiPassphrase == apiPassphrase.value
    ensures isTestnet.SetTo? ==> r.isTestnet == isTestnet.value
    ensures isActive.SetTo? ==> r.isActive == isActive.value
  {
    CredentialCreate(brokerConfigId, apiKey, OrDefault(apiSecret, None), OrDefault(apiPassphrase, None),
                     OrDefault(isTestnet, false), OrDefault(isActive, true))
  }

  /**
   * A schema object sent back with every field given parses to itself, and
   * one sent with only the required fields equals one sent with the
   * defaults written out.
   */
  lemma CredentialCreateRoundTrip(c: CredentialCreate)
    ensures NewCredentialCreate(c.brokerConfigId, c.apiKey, SetTo(c.apiSecret), SetTo(c.apiPassphrase),
                                SetTo(c.isTestnet), SetTo(c.isActive)) == c
    ensures NewCredentialCreate(c.brokerConfigId, c.apiKey, Unset, Unset, Unset, Unset)
         == NewCredentialCreate(c.brokerConfigId, c.apiKey, SetTo(None), SetTo(None), SetTo(false), SetTo(true))
  {
  }

  /**
   * `BrokerCredentialUpdate`: every field optional; `dict(exclude_unset=True)`
   * keeps exactly the fields the client gave, so each is a `Field`.
   */
  datatype CredentialUpdate = CredentialUpdate(
    apiKey: Field<Option<string>>,
    apiSecret: Field<Option<string>>,
    apiPassphrase: Field<Option<string>>,
    isTestnet: Field<Option<bool>>,
    isActive: Field<Option<bool>>)

  /** Whether the update names any of the three secrets, whatever their values. */
  predicate TouchesSecrets(u: CredentialUpdate) {
    u.apiKey.SetTo? || u.apiSecret.SetTo? || u.apiPassphrase.SetTo?
  }
}
