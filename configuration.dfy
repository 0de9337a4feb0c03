/** The Go package `internal/config`: the decoded configuration, the
    defaults filled in after decoding, and validation. */
module Configuration {
  import opened Wrappers

  /** `config.Tele`: the logging settings. */
  datatype Tele = Tele(logLevel: string, logFile: string)

  /** `config.Slack`: a default webhook and named routes. */
  datatype SlackSettings = SlackSettings(defaultWebhook: string, routes: map<string, string>)

  /** `config.Global`, the settings shared across agents. */
  datatype Global = Global(slack: SlackSettings)

  /** `&Global{}`: every field at its zero value. */
  const EmptyGlobal := Global(SlackSettings("", map[]))

  const DefaultLogLevel := "INFO"

  /** `config.Config`; the `*Global` pointer is `None` when nil. */
  class Config {
    var slackWebhook: string
    var autoUpdate: seq<string>
    var telemetry: Tele
    var global: Option<Global>

    constructor (slackWebhook: string, autoUpdate: seq<string>, telemetry: Tele, global: Option<Global>)
      ensures this.slackWebhook == slackWebhook && this.autoUpdate == autoUpdate
      ensures this.telemetry == telemetry && this.global == global
    {
      this.slackWebhook := slackWebhook;
      this.autoUpdate := autoUpdate;
      this.telemetry := telemetry;
      this.global := global;
    }

    /** What `setDefaults` establishes: a log level and a `Global`. */
    predicate HasDefaults()
      reads this
    {
      telemetry.logLevel != "" && global.Some?
    }

    /** `Config.setDefaults`: an empty log level becomes "INFO" and a nil
        `Global` becomes an empty one; nothing else changes, and a
        configuration that already has both is left as it is, so applying
        it twice is applying it once. */
    method SetDefaults()
      modifies this
      ensures slackWebhook == old(slackWebhook) && autoUpdate == old(autoUpdate)
      ensures telemetry.logFile == old(telemetry.logFile)
      ensures telemetry.logLevel ==
        if old(telemetry.logLevel) == "" then DefaultLogLevel else old(telemetry.logLevel)
      ensures global == if old(global).None? then Some(EmptyGlobal) else old(global)
      ensures HasDefaults()
      ensures old(HasDefaults()) ==> unchanged(this)
    {
      if telemetry.logLevel == "" {
        telemetry := telemetry.(logLevel := DefaultLogLevel);
      }
      if global.None? {
        global := Some(EmptyGlobal);
      }
    }

    /** `Config.validate`: accepts every configuration, an empty webhook
        included. */
    function Validate(): (err: Option<string>)
      reads this
      ensures err == None
    {
      None
    }
  }

  /** The steps of `config.Load` after decoding: defaults, then validation,
      which never fails, so the decoded configuration is returned with its
      defaults in place: the webhook and the allow list as decoded, a
      decoded `Global` kept and a nil one made empty, and the log level
      defaulted. */
  method FinishLoad(c: Config) returns (r: Result<Config, string>)
    modifies c
    ensures r == Ok(c) && c.HasDefaults()
    ensures c.slackWebhook == old(c.slackWebhook) && c.autoUpdate == old(c.autoUpdate)
    ensures c.global == if old(c.global).None? then Some(EmptyGlobal) else old(c.global)
    ensures c.telemetry.logFile == old(c.telemetry.logFile)
    ensures c.telemetry.logLevel ==
      if old(c.telemetry.logLevel) == "" then DefaultLogLevel else old(c.telemetry.logLevel)
  {
    c.SetDefaults();
    var err := c.Validate();
    if err.Some? {
      // validate never reports an error
      assert false;
    }
    return Ok(c);
  }
}
