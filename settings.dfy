/** The typed settings the service derives from its string configuration. */
module Settings {
  import opened Wrappers
  import opened JsText

  /** The flat configuration object of the later JavaScript service: every entry is a string. */
  datatype FlatConfig = FlatConfig(
    servicePort: string, serviceApi: string,
    dbHost: string, dbPort: string, dbUser: string, dbPass: string, dbSsl: string, dbName: string,
    awsS3BucketName: string, awsS3PresignedUrlExpiry: string)

  /** `ssl: false` or `ssl: { rejectUnauthorized: false }`. */
  datatype Ssl = SslOff | SslWithoutVerification

  /** The pg connection settings; a port of `None` is `NaN`. */
  datatype DbConfig = DbConfig(host: string, port: Option<int>, user: string, password: string, ssl: Ssl, database: string)

  /** utils/db.js `getDbConfig`. */
  function GetDbConfig(cfg: FlatConfig): (r: DbConfig)
    ensures r.ssl == SslWithoutVerification <==> cfg.dbSsl == "true"
    ensures r.host == cfg.dbHost && r.user == cfg.dbUser && r.password == cfg.dbPass && r.database == cfg.dbName
  {
    DbConfig(cfg.dbHost, ParseInt(cfg.dbPort), cfg.dbUser, cfg.dbPass,
             if cfg.dbSsl == "true" then SslWithoutVerification else SslOff, cfg.dbName)
  }

  /** A port written as a plain decimal number is read as that number. */
  lemma DbPortParsed(cfg: FlatConfig, port: nat)
    requires cfg.dbPort == Decimal(port)
    ensures GetDbConfig(cfg).port == Some(port)
  {
    ParseDecimal(port);
  }

  datatype ServiceConfig = ServiceConfig(port: Option<int>, apiVersion: string)

  /** service.js reads the nested `cfg.service.port` and `cfg.service.api`. */
  datatype ServiceSection = ServiceSection(port: string, api: string)

  /** service.js `getServiceConfig`. */
  function GetServiceConfig(section: ServiceSection): (r: ServiceConfig)
    ensures r.apiVersion == section.api
  {
    ServiceConfig(ParseInt(section.port), section.api)
  }

  /** serveice.js (both copies) `getServiceConfig`, over the flat keys. */
  function GetFlatServiceConfig(cfg: FlatConfig): (r: ServiceConfig)
    ensures r.apiVersion == cfg.serviceApi
  {
    ServiceConfig(ParseInt(cfg.servicePort), cfg.serviceApi)
  }

  lemma ServicePortParsed(section: ServiceSection, cfg: FlatConfig, port: nat)
    requires section.port == Decimal(port) && cfg.servicePort == Decimal(port)
    ensures GetServiceConfig(section).port == Some(port)
    ensures GetFlatServiceConfig(cfg).port == Some(port)
  {
    ParseDecimal(port);
  }

  /** The S3 settings the early draft's client keeps: the bucket, and the presign expiry
      parsed from its string. */
  datatype S3Settings = S3Settings(bucketName: string, presignedUrlExpiry: Option<int>)

  function GetS3Settings(cfg: FlatConfig): (r: S3Settings)
    ensures r.bucketName == cfg.awsS3BucketName
  {
    S3Settings(cfg.awsS3BucketName, ParseInt(cfg.awsS3PresignedUrlExpiry))
  }

  lemma PresignExpiryParsed(cfg: FlatConfig, seconds: nat)
    requires cfg.awsS3PresignedUrlExpiry == Decimal(seconds)
    ensures GetS3Settings(cfg).presignedUrlExpiry == Some(seconds)
  {
    ParseDecimal(seconds);
  }
}
