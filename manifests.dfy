/**
 * The rules inside the manifest-creation wizard of src/manifests.rs: the name
 * parser, the summary formatter for the OpenAPI schema, the rule that an empty
 * PostgreSQL schema answer means "no schema", the vault flag, and how the
 * configuration and credentials records are built from the operator's answers.
 * Every answer is an input; the prompt widgets and the HTTP calls are left out.
 */
module Manifests {
  import opened Common
  import NameRules
  import Utf8
  import Base64

  const ManifestApi := "/api/v1/manifests"

  // ---------------------------------------------------------------------------
  // Records
  // ---------------------------------------------------------------------------

  datatype RootType = Postgresql | Mysql | Openapi

  datatype PostgresqlConfig = PostgresqlConfig(
    typeField: string,
    hostname: string,
    database: string,
    port: Option<u16>,
    ssl: Option<bool>,
    schema: Option<string>,
    vaultDatabase: Option<string>,
    vaultRole: Option<string>)

  datatype MysqlConfig = MysqlConfig(
    typeField: string,
    hostname: string,
    database: string,
    port: Option<u16>,
    ssl: Option<bool>,
    vaultDatabase: Option<string>,
    vaultRole: Option<string>)

  datatype OpenapiConfig = OpenapiConfig(url: string, httpSchema: string, authType: string, schema: string)

  datatype Configuration =
    | PostgresqlConf(postgresql: PostgresqlConfig)
    | MysqlConf(mysql: MysqlConfig)
    | OpenapiConf(openapi: OpenapiConfig)

  /** The fields of `PostgresqlCredentials`, which `MysqlCredentials` repeats exactly. */
  datatype DbCredentials = DbCredentials(
    username: Option<string>,
    password: Option<string>,
    vaultDatabase: Option<string>,
    vaultRole: Option<string>)

  datatype OpenapiCredentials = OpenapiCredentials(typeField: Option<string>, token: Option<string>)

  datatype Credentials =
    | PostgresqlCreds(postgresql: DbCredentials)
    | MysqlCreds(mysql: DbCredentials)
    | OpenapiCreds(openapi: OpenapiCredentials)

  datatype NewManifest = NewManifest(
    name: string,
    rootType: RootType,
    configuration: Option<Configuration>,
    credentials: Option<Credentials>)

  // ---------------------------------------------------------------------------
  // Root type
  // ---------------------------------------------------------------------------

  /** The labels of the root-type menu, in menu order. */
  const RootTypeLabels: seq<string> := ["PostgreSQL", "MySQL", "OpenAPI"]

  /** The menu label of a root type. */
  function RootTypeLabel(t: RootType): string {
    match t
    case Postgresql => "PostgreSQL"
    case Mysql => "MySQL"
    case Openapi => "OpenAPI"
  }

  /** `prompt_for_root_type`: the root type a menu choice stands for (any other choice panics). */
  function ParseRootType(choice: string): (t: RootType)
    requires choice in RootTypeLabels
    ensures RootTypeLabel(t) == choice
  {
    if choice == "PostgreSQL" then Postgresql
    else if choice == "MySQL" then Mysql
    else Openapi
  }

  /** Every root type has a menu choice, and choosing it gives that root type back. */
  lemma RootTypeMenuRoundTrip(t: RootType)
    ensures RootTypeLabel(t) in RootTypeLabels
    ensures ParseRootType(RootTypeLabel(t)) == t
  {
  }

  // ---------------------------------------------------------------------------
  // Database configurations
  // ---------------------------------------------------------------------------

  /**
   * The PostgreSQL schema answer: a failed prompt or an empty answer means no
   * schema, anything else is kept as typed.
   */
  function SchemaFromAnswer(answer: Option<string>): (r: Option<string>)
    ensures r.Some? <==> answer.Some? && answer.value != ""
    ensures r.Some? ==> r == answer
  {
    match answer
    case Some(schema) => if schema == "" then None else Some(schema)
    case None => None
  }

  /**
   * `prompt_for_postgresql_config`: the record starts with no vault fields and
   * gets both of them only when the operator says Vault is in use.
   */
  method PromptForPostgresqlConfig(
    hostname: string, database: string, port: u16, ssl: bool, schemaAnswer: Option<string>,
    usingVault: bool, vaultDatabase: string, vaultRole: string)
    returns (config: PostgresqlConfig)
    ensures config.typeField == "postgresql"
    ensures config.hostname == hostname && config.database == database
    ensures config.port == Some(port) && config.ssl == Some(ssl)
    ensures config.schema == SchemaFromAnswer(schemaAnswer)
    ensures config.vaultDatabase == (if usingVault then Some(vaultDatabase) else None)
    ensures config.vaultRole == (if usingVault then Some(vaultRole) else None)
    ensures IsVault(Some(PostgresqlConf(config))) == usingVault
  {
    var schema := SchemaFromAnswer(schemaAnswer);
    config := PostgresqlConfig("postgresql", hostname, database, Some(port), Some(ssl), schema, None, None);
    if usingVault {
      config := config.(vaultDatabase := Some(vaultDatabase));
      config := config.(vaultRole := Some(vaultRole));
    }
  }

  /** `prompt_for_mysql_config`: as for PostgreSQL, without a schema. */
  method PromptForMysqlConfig(
    hostname: string, database: string, port: u16, ssl: bool,
    usingVault: bool, vaultDatabase: string, vaultRole: string)
    returns (config: MysqlConfig)
    ensures config.typeField == "mysql"
    ensures config.hostname == hostname && config.database == database
    ensures config.port == Some(port) && config.ssl == Some(ssl)
    ensures config.vaultDatabase == (if usingVault then Some(vaultDatabase) else None)
    ensures config.vaultRole == (if usingVault then Some(vaultRole) else None)
    ensures IsVault(Some(MysqlConf(config))) == usingVault
  {
    config := MysqlConfig("mysql", hostname, database, Some(port), Some(ssl), None, None);
    if usingVault {
      config := config.(vaultDatabase := Some(vaultDatabase));
      config := config.(vaultRole := Some(vaultRole));
    }
  }

  // ---------------------------------------------------------------------------
  // OpenAPI configuration
  // ---------------------------------------------------------------------------

  /** The longest schema the prompt echoes in full. */
  const SummaryWidth := 20
  /** How much of a longer schema the echo keeps before the ellipsis. */
  const SummaryKept := 17

  /**
   * The formatter of the schema editor: how the submitted schema is echoed once
   * the editor closes. Up to 20 characters it is shown as is; a longer one is cut
   * to its first 17 characters followed by "...".
   */
  function FormatSchema(submission: string): (r: string)
    ensures |r| <= SummaryWidth
    ensures |r| == if |submission| <= SummaryWidth then |submission| else SummaryWidth
    ensures r == submission <==> |submission| <= SummaryWidth
    ensures |submission| > SummaryWidth ==> r[..SummaryKept] == submission[..SummaryKept] && r[SummaryKept..] == "..."
  {
    if |submission| <= SummaryWidth then submission
    else submission[..SummaryKept] + "..."
  }

  /** Formatting an echo a second time changes nothing. */
  lemma FormatSchemaIdempotent(submission: string)
    ensures FormatSchema(FormatSchema(submission)) == FormatSchema(submission)
  {
  }

  /** The formatted echo always starts with the submission's first characters. */
  lemma FormatSchemaKeepsPrefix(submission: string)
    ensures var n := if |submission| <= SummaryWidth then |submission| else SummaryKept;
      FormatSchema(submission)[..n] == submission[..n]
  {
  }

  /** One pass through the OpenAPI questions. */
  datatype OpenapiAnswers = OpenapiAnswers(url: string, httpSchema: string, authType: string, schema: string)

  /** The configuration one pass of answers gives. */
  function OpenapiConfigOf(a: OpenapiAnswers): OpenapiConfig {
    OpenapiConfig(a.url, a.httpSchema, a.authType, a.schema)
  }

  /**
   * `prompt_for_openapi_config`: an empty schema restarts the whole questionnaire,
   * so `attempts` are the passes the operator went through; `None` when every
   * pass given ended with an empty schema.
   */
  function PromptForOpenapiConfig(attempts: seq<OpenapiAnswers>): (r: Option<OpenapiConfig>)
    ensures r.Some? ==> r.value.schema != ""
    ensures r.None? <==> forall i :: 0 <= i < |attempts| ==> attempts[i].schema == ""
    decreases |attempts|
  {
    if attempts == [] then None
    else if attempts[0].schema == "" then PromptForOpenapiConfig(attempts[1..])
    else Some(OpenapiConfigOf(attempts[0]))
  }

  /** The configuration comes from the first pass whose schema is not empty. */
  lemma {:induction false} OpenapiConfigFromFirstNonEmptySchema(attempts: seq<OpenapiAnswers>, i: nat)
    requires i < |attempts| && attempts[i].schema != ""
    requires forall j :: 0 <= j < i ==> attempts[j].schema == ""
    ensures PromptForOpenapiConfig(attempts) == Some(OpenapiConfigOf(attempts[i]))
    decreases i
  {
    if i > 0 {
      OpenapiConfigFromFirstNonEmptySchema(attempts[1..], i - 1);
    }
  }

  // ---------------------------------------------------------------------------
  // The vault flag
  // ---------------------------------------------------------------------------

  /** Whether the credentials prompt asks for Vault fields: the configuration names a Vault database. */
  function IsVault(configuration: Option<Configuration>): (b: bool)
    ensures b ==> configuration.Some? && !configuration.value.OpenapiConf?
  {
    match configuration
    case Some(PostgresqlConf(config)) => config.vaultDatabase.Some?
    case Some(MysqlConf(config)) => config.vaultDatabase.Some?
    case Some(OpenapiConf(_)) => false
    case None => false
  }

  /**
   * The vault flag is set exactly for a PostgreSQL or MySQL configuration that
   * names a Vault database; an OpenAPI configuration or none never sets it.
   */
  lemma IsVaultCases(configuration: Option<Configuration>)
    ensures IsVault(configuration) <==>
      || (configuration.Some? && configuration.value.PostgresqlConf? && configuration.value.postgresql.vaultDatabase.Some?)
      || (configuration.Some? && configuration.value.MysqlConf? && configuration.value.mysql.vaultDatabase.Some?)
    ensures configuration.None? || configuration.value.OpenapiConf? ==> !IsVault(configuration)
  {
  }

  // ---------------------------------------------------------------------------
  // Credentials
  // ---------------------------------------------------------------------------

  /** What the credentials prompts for PostgreSQL or MySQL may ask. */
  datatype DbCredentialAnswers = DbCredentialAnswers(
    vaultDatabase: string, vaultRole: string, username: string, password: string)

  /**
   * `prompt_for_postgresql_credentials` and `prompt_for_mysql_credentials`: with
   * Vault the record holds the Vault database and role and no username or
   * password; without Vault it is the other way round.
   */
  function PromptForDbCredentials(isVault: bool, a: DbCredentialAnswers): (c: DbCredentials)
    ensures c.vaultDatabase.Some? == isVault && c.vaultRole.Some? == isVault
    ensures c.username.Some? == !isVault && c.password.Some? == !isVault
    ensures isVault ==> c.vaultDatabase == Some(a.vaultDatabase) && c.vaultRole == Some(a.vaultRole)
    ensures !isVault ==> c.username == Some(a.username) && c.password == Some(a.password)
  {
    if isVault then DbCredentials(None, None, Some(a.vaultDatabase), Some(a.vaultRole))
    else DbCredentials(Some(a.username), Some(a.password), None, None)
  }

  /** The choices the OpenAPI credentials code handles; any other one panics. */
  const AuthTypes: set<string> := {"basic", "bearer", "none", ""}

  /** What the OpenAPI credentials prompts may ask. */
  datatype OpenapiCredentialAnswers = OpenapiCredentialAnswers(
    authType: string, username: string, password: string, token: string)

  /** The user-pass string of HTTP Basic authentication (section 2 of RFC 7617). */
  function UserPass(username: string, password: string): string {
    username + ":" + password
  }

  /** What `basic` stores: the base64 encoding of the UTF-8 bytes of "username:password". */
  function BasicToken(username: string, password: string): (token: string)
    ensures |token| > 0 && |token| % 4 == 0
  {
    Base64.Encode(Utf8.Encode(UserPass(username, password)))
  }

  /**
   * `prompt_for_openapi_credentials`: `basic` stores the encoded user-pass,
   * `bearer` the token as typed, and `none` or an empty choice nothing.
   */
  function PromptForOpenapiCredentials(a: OpenapiCredentialAnswers): (c: OpenapiCredentials)
    requires a.authType in AuthTypes
    ensures a.authType == "basic" ==> c == OpenapiCredentials(Some("basic"), Some(BasicToken(a.username, a.password)))
    ensures a.authType == "bearer" ==> c == OpenapiCredentials(Some("bearer"), Some(a.token))
    ensures a.authType in {"none", ""} <==> c == OpenapiCredentials(None, None)
  {
    if a.authType == "basic" then OpenapiCredentials(Some("basic"), Some(BasicToken(a.username, a.password)))
    else if a.authType == "bearer" then OpenapiCredentials(Some("bearer"), Some(a.token))
    else OpenapiCredentials(None, None)
  }

  /** The byte of ':' in UTF-8. */
  const Colon: byte := 0x3A

  /**
   * The stored basic token decodes to the UTF-8 bytes of the username, a colon
   * and the password; when the username holds no ':' (as section 2 of RFC 7617
   * requires), that colon is the first one, so the server can split the two apart.
   */
  lemma BasicTokenDecodes(username: string, password: string)
    ensures Base64.Decode(BasicToken(username, password)) == Some(Utf8.Encode(username) + [Colon] + Utf8.Encode(password))
    ensures (forall i :: 0 <= i < |username| ==> username[i] != ':') ==>
      forall j :: 0 <= j < |Utf8.Encode(username)| ==> Utf8.Encode(username)[j] != Colon
  {
    var bytes := Utf8.Encode(UserPass(username, password));
    Base64.DecodeEncode(bytes);
    Utf8.EncodeConcat(username + ":", password);
    Utf8.EncodeConcat(username, ":");
    assert Utf8.Encode(":") == [Colon] by {
      assert ":"[1..] == "";
    }
    if forall i :: 0 <= i < |username| ==> username[i] != ':' {
      Utf8.AsciiByteOnlyFromItself(username, ':');
    }
  }

  // ---------------------------------------------------------------------------
  // The whole wizard
  // ---------------------------------------------------------------------------

  /** What the PostgreSQL or MySQL configuration prompts may ask (MySQL skips the schema). */
  datatype DbConfigAnswers = DbConfigAnswers(
    hostname: string, database: string, port: u16, ssl: bool, schema: Option<string>,
    usingVault: bool, vaultDatabase: string, vaultRole: string)

  /** The PostgreSQL configuration the answers give. */
  function PostgresqlConfigOf(db: DbConfigAnswers): PostgresqlConfig {
    PostgresqlConfig("postgresql", db.hostname, db.database, Some(db.port), Some(db.ssl), SchemaFromAnswer(db.schema),
                     if db.usingVault then Some(db.vaultDatabase) else None,
                     if db.usingVault then Some(db.vaultRole) else None)
  }

  /** The MySQL configuration the answers give. */
  function MysqlConfigOf(db: DbConfigAnswers): MysqlConfig {
    MysqlConfig("mysql", db.hostname, db.database, Some(db.port), Some(db.ssl),
                if db.usingVault then Some(db.vaultDatabase) else None,
                if db.usingVault then Some(db.vaultRole) else None)
  }

  /** Every answer the wizard may ask for, in the order it asks. */
  datatype ManifestAnswers = ManifestAnswers(
    names: seq<string>,
    rootType: string,
    db: DbConfigAnswers,
    openapi: seq<OpenapiAnswers>,
    dbCredentials: DbCredentialAnswers,
    openapiCredentials: OpenapiCredentialAnswers)

  /** The configuration variant belongs to the root type. */
  predicate ConfigurationMatches(t: RootType, c: Configuration) {
    match t
    case Postgresql => c.PostgresqlConf?
    case Mysql => c.MysqlConf?
    case Openapi => c.OpenapiConf?
  }

  /** The credentials variant belongs to the root type. */
  predicate CredentialsMatch(t: RootType, c: Credentials) {
    match t
    case Postgresql => c.PostgresqlCreds?
    case Mysql => c.MysqlCreds?
    case Openapi => c.OpenapiCreds?
  }

  /** The database credentials of a PostgreSQL or MySQL manifest. */
  function DbCredentialsOf(c: Credentials): DbCredentials
    requires !c.OpenapiCreds?
  {
    if c.PostgresqlCreds? then c.postgresql else c.mysql
  }

  /**
   * `prompt_user_for_manifest`: the name (the first answer the parser accepts),
   * the root type, the configuration for that root type, the vault flag derived
   * from the configuration, and the credentials for root type and flag. `None` when
   * the answers run out before a name is accepted or an OpenAPI schema is given.
   */
  method PromptUserForManifest(answers: ManifestAnswers) returns (r: Option<NewManifest>)
    requires answers.rootType in RootTypeLabels
    requires answers.openapiCredentials.authType in AuthTypes
    ensures r.Some? <==>
      && NameRules.AcceptedName(answers.names).Some?
      && (ParseRootType(answers.rootType) == Openapi ==> exists i :: 0 <= i < |answers.openapi| && answers.openapi[i].schema != "")
    ensures r.Some? ==> var m := r.value;
      && NameRules.ParseName(m.name) == Some(m.name)
      && m.name == NameRules.AcceptedName(answers.names).value
      && m.rootType == ParseRootType(answers.rootType)
      && m.configuration.Some? && ConfigurationMatches(m.rootType, m.configuration.value)
      && m.credentials.Some? && CredentialsMatch(m.rootType, m.credentials.value)
    ensures r.Some? && r.value.rootType == Postgresql ==>
      r.value.configuration.value.postgresql == PostgresqlConfigOf(answers.db)
    ensures r.Some? && r.value.rootType == Mysql ==>
      r.value.configuration.value.mysql == MysqlConfigOf(answers.db)
    ensures r.Some? && r.value.rootType != Openapi ==> var m := r.value;
      && IsVault(m.configuration) == answers.db.usingVault
      && DbCredentialsOf(m.credentials.value) == PromptForDbCredentials(answers.db.usingVault, answers.dbCredentials)
    ensures r.Some? && r.value.rootType == Openapi ==> var m := r.value;
      && Some(m.configuration.value.openapi) == PromptForOpenapiConfig(answers.openapi)
      && m.configuration.value.openapi.schema != ""
      && m.credentials.value.openapi == PromptForOpenapiCredentials(answers.openapiCredentials)
  {
    var name := NameRules.AcceptedName(answers.names);
    if name.None? {
      return None;
    }
    var rootType := ParseRootType(answers.rootType);
    var db := answers.db;
    var configuration: Option<Configuration>;
    match rootType {
      case Postgresql =>
        var config := PromptForPostgresqlConfig(db.hostname, db.database, db.port, db.ssl, db.schema,
                                                db.usingVault, db.vaultDatabase, db.vaultRole);
        configuration := Some(PostgresqlConf(config));
      case Mysql =>
        var config := PromptForMysqlConfig(db.hostname, db.database, db.port, db.ssl,
                                           db.usingVault, db.vaultDatabase, db.vaultRole);
        configuration := Some(MysqlConf(config));
      case Openapi =>
        var config := PromptForOpenapiConfig(answers.openapi);
        if config.None? {
          return None;
        }
        configuration := Some(OpenapiConf(config.value));
    }
    var isVault := IsVault(configuration);
    var credentials: Option<Credentials>;
    match rootType {
      case Postgresql =>
        credentials := Some(PostgresqlCreds(PromptForDbCredentials(isVault, answers.dbCredentials)));
      case Mysql =>
        credentials := Some(MysqlCreds(PromptForDbCredentials(isVault, answers.dbCredentials)));
      case Openapi =>
        credentials := Some(OpenapiCreds(PromptForOpenapiCredentials(answers.openapiCredentials)));
    }
    r := Some(NewManifest(name.value, rootType, configuration, credentials));
  }

  /**
   * In a finished PostgreSQL or MySQL manifest the credentials follow the
   * configuration: the Vault fields of the credentials are set exactly when the
   * configuration names a Vault database, and the username and password exactly when it does not.
   */
  lemma CredentialsFollowConfiguration(isVault: bool, a: DbCredentialAnswers)
    ensures var c := PromptForDbCredentials(isVault, a);
      (c.vaultDatabase.Some? && c.vaultRole.Some?) != (c.username.Some? && c.password.Some?)
  {
  }
}
