/** The Go package `internal/notify`: which webhook a Slack notifier posts
    to, and how the outcome of a post is classified. The HTTP round trip is
    the `post` oracle: it either fails in transport or yields a status. */
module Notify {
  import opened Wrappers
  import opened Configuration

  /** An entry of `SlackMessage.Blocks`, kept as opaque JSON. */
  datatype Block = Block(json: string)

  /** `notify.SlackMessage`. */
  datatype SlackMessage = SlackMessage(text: string, blocks: seq<Block>)

  /** A POST of a JSON-encoded message to a webhook URL. */
  datatype Request = Request(url: string, body: SlackMessage)

  datatype HttpResult = TransportError(reason: string) | Response(status: int)

  /** The errors `Send` returns: the transport's own, or
      "slack webhook status %d". */
  datatype SendError = Transport(reason: string) | BadStatus(status: int)

  /** What sending did: printed "[dry-run] " and the text to standard
      output, or posted a request. */
  datatype Delivery = DryRun(line: string) | Posted(request: Request)

  /** `notify.SimpleText`: a message with the text and no blocks. */
  function SimpleText(text: string): (m: SlackMessage)
    ensures m.text == text && m.blocks == []
  {
    SlackMessage(text, [])
  }

  /** The outcome of a post: success exactly on a 2xx status. */
  function Classify(h: HttpResult): (err: Option<SendError>)
    ensures err == None <==> h.Response? && 200 <= h.status < 300
    ensures h.TransportError? ==> err == Some(Transport(h.reason))
    ensures h.Response? && err.Some? ==> err == Some(BadStatus(h.status))
  {
    match h
    case TransportError(reason) => Some(Transport(reason))
    case Response(status) => if status < 200 || status >= 300 then Some(BadStatus(status)) else None
  }

  /** `notify.Slack`; its HTTP client and timeout are not modelled. */
  datatype Slack = Slack(webhook: string) {

    /** `Slack.Send`: without a webhook the message is printed and nil is
        returned without any request; otherwise it is posted to the webhook
        and the result is classified. */
    method Send(msg: SlackMessage, post: Request -> HttpResult)
      returns (err: Option<SendError>, delivery: Delivery)
      ensures webhook == "" ==> err == None && delivery == DryRun("[dry-run] " + msg.text)
      ensures webhook != "" ==>
        delivery == Posted(Request(webhook, msg)) && err == Classify(post(Request(webhook, msg)))
    {
      if webhook == "" {
        return None, DryRun("[dry-run] " + msg.text);
      }
      var req := Request(webhook, msg);
      var resp := post(req);
      if resp.TransportError? {
        return Some(Transport(resp.reason)), Posted(req);
      }
      if resp.status < 200 || resp.status >= 300 {
        return Some(BadStatus(resp.status)), Posted(req);
      }
      return None, Posted(req);
    }

    /** `Slack.SendTo`: an empty override falls back to `Send`; any other
        override is posted to and classified the same way. */
    method SendTo(override: string, msg: SlackMessage, post: Request -> HttpResult)
      returns (err: Option<SendError>, delivery: Delivery)
      ensures var target := if override == "" then webhook else override;
        (target == "" ==> err == None && delivery == DryRun("[dry-run] " + msg.text)) &&
        (target != "" ==>
          delivery == Posted(Request(target, msg)) && err == Classify(post(Request(target, msg))))
    {
      if override == "" {
        err, delivery := Send(msg, post);
        return;
      }
      var req := Request(override, msg);
      var resp := post(req);
      if resp.TransportError? {
        return Some(Transport(resp.reason)), Posted(req);
      }
      if resp.status < 200 || resp.status >= 300 {
        return Some(BadStatus(resp.status)), Posted(req);
      }
      return None, Posted(req);
    }
  }

  /** `notify.NewSlack`: the configuration's own webhook when it is set;
      otherwise the global default webhook when there is a `Global` and its
      default is set; otherwise none, which makes every `Send` a dry run. */
  function NewSlack(cfg: Config): (s: Slack)
    reads cfg
    ensures cfg.slackWebhook != "" ==> s.webhook == cfg.slackWebhook
    ensures cfg.slackWebhook == "" && cfg.global.Some? ==> s.webhook == cfg.global.value.slack.defaultWebhook
    ensures s.webhook == "" <==>
      cfg.slackWebhook == "" && (cfg.global.None? || cfg.global.value.slack.defaultWebhook == "")
  {
    var wh := cfg.slackWebhook;
    if wh == "" && cfg.global.Some? && cfg.global.value.slack.defaultWebhook != "" then
      Slack(cfg.global.value.slack.defaultWebhook)
    else Slack(wh)
  }
}
