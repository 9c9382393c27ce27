/**
 * The password gate of the chat application (`auth` in src/app.py): a login is
 * admitted exactly when both the username and the password equal the configured
 * ones, and the admitted user is identified by that username.
 */
module Auth {
  import opened Wrappers

  /** The two configured credentials the gate compares against. */
  datatype Credentials = Credentials(appUsername: string, appPassword: string)

  /** An authenticated user of the chat application. */
  datatype User = User(identifier: string)

  /** The credential check: a user on an exact match of both fields, `None` otherwise. */
  function Authenticate(config: Credentials, username: string, password: string): (user: Option<User>)
    ensures user.Some? <==> username == config.appUsername && password == config.appPassword
    ensures user.Some? ==> user.value.identifier == username
  {
    if username == config.appUsername && password == config.appPassword then
      Some(User(identifier := username))
    else
      None
  }

  /** Only one identity can ever be admitted under a configuration: the configured username. */
  lemma SingleOperator(config: Credentials, u1: string, p1: string, u2: string, p2: string)
    requires Authenticate(config, u1, p1).Some? && Authenticate(config, u2, p2).Some?
    ensures u1 == u2 && p1 == p2
    ensures Authenticate(config, u1, p1) == Authenticate(config, u2, p2) == Some(User(config.appUsername))
  {
  }

  // ---------------------------------------------------------------------------
  // The gate as written against the settings class of src/config.py.

  /** The settings object as declared: four fields; undeclared keys are dropped (`extra="ignore"`). */
  datatype AppConfig = AppConfig(
    openaiApiKey: string,
    llamaCloudApiKey: string,
    qdrantUrl: string,
    qdrantCollectionName: string)

  /** The exception an attribute read on an undeclared field raises. */
  datatype AttributeError = AttributeError(name: string)

  /**
   * Attribute read `config.<name>` for a field name: among field names, only the four
   * declared ones resolve; any other raises.
   */
  function GetAttr(config: AppConfig, name: string): (r: Result<string, AttributeError>)
    ensures r.Failure? <==>
      name !in {"openai_api_key", "llama_cloud_api_key", "qdrant_url", "qdrant_collection_name"}
    ensures r.Failure? ==> r.error == AttributeError(name)
  {
    if name == "openai_api_key" then Success(config.openaiApiKey)
    else if name == "llama_cloud_api_key" then Success(config.llamaCloudApiKey)
    else if name == "qdrant_url" then Success(config.qdrantUrl)
    else if name == "qdrant_collection_name" then Success(config.qdrantCollectionName)
    else Failure(AttributeError(name))
  }

  /** `auth` exactly as written: it reads `config.app_username`, then `config.app_password`. */
  function AuthAsWritten(config: AppConfig, username: string, password: string): (r: Result<Option<User>, AttributeError>)
    ensures GetAttr(config, "app_username").Failure? ==> r == Failure(GetAttr(config, "app_username").error)
    ensures GetAttr(config, "app_username").Success? && username != GetAttr(config, "app_username").value
      ==> r == Success(None)
    ensures r.Success? && r.value.Some? ==>
      GetAttr(config, "app_username") == Success(username) && GetAttr(config, "app_password") == Success(password)
      && r.value.value.identifier == username
  {
    match GetAttr(config, "app_username")
    case Failure(e) => Failure(e)
    case Success(expectedUser) =>
      if username != expectedUser then Success(None)
      else match GetAttr(config, "app_password")
        case Failure(e) => Failure(e)
        case Success(expectedPassword) =>
          if password == expectedPassword then Success(Some(User(username))) else Success(None)
  }

  /** As written, every login attempt raises, whatever the settings and the credentials. */
  lemma AuthAsWrittenAlwaysRaises(config: AppConfig, username: string, password: string)
    ensures AuthAsWritten(config, username, password) == Failure(AttributeError("app_username"))
  {
    assert GetAttr(config, "app_username").Failure?;
  }

  /** The corrected gate admits the configured operator, which the gate as written never does. */
  lemma CorrectedGateAdmitsOperator(config: AppConfig, operator: Credentials)
    ensures Authenticate(operator, operator.appUsername, operator.appPassword) == Some(User(operator.appUsername))
    ensures AuthAsWritten(config, operator.appUsername, operator.appPassword).Failure?
  {
    AuthAsWrittenAlwaysRaises(config, operator.appUsername, operator.appPassword);
  }
}
