/**
 * Checking broker credentials against the broker itself. Each outside call
 * (a ccxt exchange, the Yahoo Finance ticker, the Alpha Vantage HTTP API)
 * is a parameter that stands for what the call came back with; the model
 * is how each answer is classified and which check a broker is sent to.
 */
module BrokerValidator {
  import opened Wrappers
  import opened ApiModels

  /** `BrokerValidationResult` without its free-form details. */
  datatype Verdict = Verdict(success: bool, status: ValidationStatus, message: string)

  /**
   * How the balance request to a ccxt exchange ended, named by the first
   * `except` clause that catches it.
   */
  datatype ExchangeOutcome =
    | Balance
    | AuthenticationFailed(reason: string)
    | PermissionDenied(reason: string)
    | NetworkFailed(reason: string)
    | OtherFailure(reason: string)

  /** The `info` dictionary of the test ticker (its keys), or the exception raised on the way. */
  datatype TickerOutcome = Info(keys: set<string>) | TickerRaised(reason: string)

  /** The decoded JSON of the Alpha Vantage reply (its keys), or the exception raised on the way. */
  datatype ReplyOutcome = Reply(keys: set<string>) | ReplyRaised(reason: string)

  /**
   * `validate_ccxt_broker`: an exchange ccxt does not know is an error;
   * otherwise the balance request decides.
   */
  function ValidateExchange(brokerName: string, known: bool, outcome: ExchangeOutcome): (r: Verdict)
    ensures r.success <==> known && outcome.Balance?
    ensures r.success ==> r.status == Valid
    ensures !known ==> r == Verdict(false, Error, "Broker '" + brokerName + "' not supported by CCXT")
    ensures known && (outcome.AuthenticationFailed? || outcome.PermissionDenied?) ==> r.status == Invalid
    ensures known && (outcome.NetworkFailed? || outcome.OtherFailure?) ==> r.status == Error
  {
    if !known then Verdict(false, Error, "Broker '" + brokerName + "' not supported by CCXT")
    else match outcome
      case Balance => Verdict(true, Valid, "Successfully connected to " + brokerName)
      case AuthenticationFailed(_) => Verdict(false, Invalid, "Authentication failed. Check your API key and secret.")
      case PermissionDenied(_) => Verdict(false, Invalid, "Permission denied. Enable 'Read' permission for your API key.")
      case NetworkFailed(_) => Verdict(false, Error, "Network error. Please try again later.")
      case OtherFailure(e) => Verdict(false, Error, "Validation failed: " + e)
  }

  /** `validate_yahoo_finance`: valid exactly when the ticker info is non-empty and has a symbol. */
  function ValidateYahoo(outcome: TickerOutcome): (r: Verdict)
    ensures r.success <==> outcome.Info? && "symbol" in outcome.keys
    ensures r.status == Valid <==> r.success
    ensures !r.success ==> r.status == Error
  {
    match outcome
    case Info(keys) =>
      if keys != {} && "symbol" in keys then Verdict(true, Valid, "Yahoo Finance is accessible")
      else Verdict(false, Error, "Yahoo Finance returned empty response")
    case TickerRaised(e) => Verdict(false, Error, "Yahoo Finance validation failed: " + e)
  }

  /**
   * `validate_alpha_vantage`: an error message means a bad key; a rate-limit
   * note or a metadata block means a good one; anything else is an error.
   * The keys are tried in that order.
   */
  function ValidateAlphaVantage(outcome: ReplyOutcome): (r: Verdict)
    ensures r.success <==> r.status == Valid
    ensures outcome.Reply? && "Error Message" in outcome.keys ==> r == Verdict(false, Invalid, "Invalid API key")
    ensures outcome.Reply? && "Error Message" !in outcome.keys && "Note" in outcome.keys ==>
              r == Verdict(true, Valid, "API key valid but rate limit reached")
    ensures outcome.Reply? && "Error Message" !in outcome.keys && "Note" !in outcome.keys ==>
              (r.success <==> "Meta Data" in outcome.keys)
    ensures r.status == Invalid <==> outcome.Reply? && "Error Message" in outcome.keys
    ensures outcome.ReplyRaised? ==> r.status == Error
  {
    match outcome
    case ReplyRaised(e) => Verdict(false, Error, "Validation failed: " + e)
    case Reply(keys) =>
      if "Error Message" in keys then Verdict(false, Invalid, "Invalid API key")
      else if "Note" in keys then Verdict(true, Valid, "API key valid but rate limit reached")
      else if "Meta Data" in keys then Verdict(true, Valid, "Alpha Vantage API key validated successfully")
      else Verdict(false, Error, "Unexpected response from Alpha Vantage")
  }

  /** What the outside world answers to each check. */
  datatype World = World(
    knownExchange: string -> bool,
    exchange: ExchangeOutcome,
    ticker: TickerOutcome,
    reply: ReplyOutcome)

  /** Which check `validate_credentials` sends a broker to, or the answer it gives itself. */
  datatype Route =
    | ToYahoo
    | ToAlphaVantage(key: string)
    | ToExchange(key: string, secret: string)
    | Refuse(verdict: Verdict)

  /** A Python string argument is truthy when given and non-empty. */
  predicate Given(s: Option<string>) {
    s.Some? && s.value != ""
  }

  /**
   * The dispatch order: Yahoo Finance and Alpha Vantage by name, whatever
   * their type; then crypto, which needs both key and secret; then the
   * Argentine brokers, not implemented; any other type is unknown.
   */
  function RouteOf(brokerName: string, brokerType: string, apiKey: Option<string>, apiSecret: Option<string>): (r: Route)
    ensures brokerName == "yahoo_finance" <==> r.ToYahoo?
    ensures r.ToAlphaVantage? <==> brokerName == "alpha_vantage" && Given(apiKey)
    ensures r.ToExchange? <==> brokerName !in {"yahoo_finance", "alpha_vantage"} && brokerType == "crypto"
                               && Given(apiKey) && Given(apiSecret)
    ensures r.Refuse? ==> !r.verdict.success
    ensures brokerName == "alpha_vantage" && !Given(apiKey) ==> r == Refuse(Verdict(false, Invalid, "API key is required"))
    ensures brokerName !in {"yahoo_finance", "alpha_vantage"} && brokerType == "crypto" && !(Given(apiKey) && Given(apiSecret)) ==>
              r == Refuse(Verdict(false, Invalid, "API key and secret are required"))
    ensures brokerName !in {"yahoo_finance", "alpha_vantage"} && brokerType == "argentina" ==>
              r == Refuse(Verdict(false, Error, "Validation not implemented for " + brokerName))
    ensures brokerName !in {"yahoo_finance", "alpha_vantage"} && brokerType !in {"crypto", "argentina"} ==>
              r == Refuse(Verdict(false, Error, "Unknown broker type: " + brokerType))
  {
    if brokerName == "yahoo_finance" then ToYahoo
    else if brokerName == "alpha_vantage" then
      if !Given(apiKey) then Refuse(Verdict(false, Invalid, "API key is required"))
      else ToAlphaVantage(apiKey.value)
    else if brokerType == "crypto" then
      if !Given(apiKey) || !Given(apiSecret) then Refuse(Verdict(false, Invalid, "API key and secret are required"))
      else ToExchange(apiKey.value, apiSecret.value)
    else if brokerType == "argentina" then Refuse(Verdict(false, Error, "Validation not implemented for " + brokerName))
    else Refuse(Verdict(false, Error, "Unknown broker type: " + brokerType))
  }

  /** `validate_credentials`: follow the route; the passphrase and the testnet flag only reach the exchange call. */
  function ValidateCredentials(brokerName: string, brokerType: string, apiKey: Option<string>,
                               apiSecret: Option<string>, world: World): (r: Verdict)
    ensures r.status != Pending
    ensures r.success ==>
      || (brokerName == "yahoo_finance" && world.ticker.Info? && "symbol" in world.ticker.keys)
      || (brokerName == "alpha_vantage" && Given(apiKey) && world.reply.Reply?)
      || (brokerName !in {"yahoo_finance", "alpha_vantage"} && brokerType == "crypto" && Given(apiKey) && Given(apiSecret)
          && world.knownExchange(brokerName) && world.exchange.Balance?)
    ensures brokerName == "yahoo_finance" ==> r == ValidateYahoo(world.ticker)
    ensures brokerName == "alpha_vantage" && !Given(apiKey) ==> r == Verdict(false, Invalid, "API key is required")
    ensures brokerName == "alpha_vantage" && Given(apiKey) ==> r == ValidateAlphaVantage(world.reply)
    ensures brokerName !in {"yahoo_finance", "alpha_vantage"} && brokerType == "crypto" ==>
              if Given(apiKey) && Given(apiSecret)
              then r == ValidateExchange(brokerName, world.knownExchange(brokerName), world.exchange)
              else r == Verdict(false, Invalid, "API key and secret are required")
    ensures brokerName !in {"yahoo_finance", "alpha_vantage"} && brokerType == "argentina" ==>
              r == Verdict(false, Error, "Validation not implemented for " + brokerName)
    ensures brokerName !in {"yahoo_finance", "alpha_vantage"} && brokerType !in {"crypto", "argentina"} ==>
              r == Verdict(false, Error, "Unknown broker type: " + brokerType)
  {
    match RouteOf(brokerName, brokerType, apiKey, apiSecret)
    case ToYahoo => ValidateYahoo(world.ticker)
    case ToAlphaVantage(_) => ValidateAlphaVantage(world.reply)
    case ToExchange(_, _) => ValidateExchange(brokerName, world.knownExchange(brokerName), world.exchange)
    case Refuse(v) => v
  }

  /**
   * The success flag and the status never disagree: a verdict is a success
   * exactly when its status is `valid`, so the stored status alone tells
   * whether the last check passed.
   */
  lemma SuccessIffValid(brokerName: string, brokerType: string, apiKey: Option<string>,
                        apiSecret: Option<string>, world: World)
    ensures var r := ValidateCredentials(brokerName, brokerType, apiKey, apiSecret, world);
      r.success <==> r.status == Valid
  {
    var known := world.knownExchange(brokerName);
    var v := ValidateExchange(brokerName, known, world.exchange);
    assert v.success <==> v.status == Valid;
  }

  /** The name `yahoo_finance` goes to the Yahoo check whatever type and keys come with it. */
  lemma YahooByName(brokerType: string, apiKey: Option<string>, apiSecret: Option<string>, world: World)
    ensures ValidateCredentials("yahoo_finance", brokerType, apiKey, apiSecret, world) == ValidateYahoo(world.ticker)
  {
  }

  /** A crypto broker missing its key or secret is refused before any exchange is contacted. */
  lemma CryptoNeedsBothKeys(brokerName: string, apiKey: Option<string>, apiSecret: Option<string>, w1: World, w2: World)
    requires brokerName !in {"yahoo_finance", "alpha_vantage"}
    requires !Given(apiKey) || !Given(apiSecret)
    ensures ValidateCredentials(brokerName, "crypto", apiKey, apiSecret, w1)
            == ValidateCredentials(brokerName, "crypto", apiKey, apiSecret, w2)
            == Verdict(false, Invalid, "API key and secret are required")
  {
  }
}
