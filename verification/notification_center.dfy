/** The notification panel (ci-cd-dashboard/src/NotificationCenter.js):
    the send guard, the state around one send, and the button's
    `disabled` predicate. */
module NotificationCenter {
  import opened Common
  import opened Text
  import opened Client
  import Server

  datatype NoticeKind = SuccessNotice | ErrorNotice

  /** The banner below the button: `{type, message}`. */
  datatype Notice = Notice(kind: NoticeKind, text: string)

  datatype CenterState = CenterState(message: string, loading: bool, result: Option<Notice>)

  const Initial := CenterState("", false, None)
  const SentText := "Notification sent successfully!"
  const SendFailed := "Failed to send notification"

  /** The send button's `disabled` attribute: set while a send is in
      flight or when the message is nothing but whitespace. */
  function SendDisabled(s: CenterState): (disabled: bool)
    ensures disabled <==> s.loading || AllWhitespace(s.message)
  {
    BlankIffAllWhitespace(s.message);
    s.loading || Blank(s.message)
  }

  /** One call of `sendSlackNotification`: the message posted to the
      gateway if any, the state while the post is in flight and the state
      afterwards. */
  datatype SendTrace = SendTrace(posted: Option<string>, inFlight: CenterState, finished: CenterState)

  /** `sendSlackNotification`: a blank message makes it return before doing
      anything; otherwise it posts the message as typed, shows the outcome,
      clears the text only on success and always ends not loading. */
  function SendSlackNotification(s: CenterState, reply: Result<Server.NotifyAck, ClientFailure>): (t: SendTrace)
    ensures Blank(s.message) ==> t == SendTrace(None, s, s)
    ensures !Blank(s.message) ==>
      && t.posted == Some(s.message)
      && t.inFlight == s.(loading := true)
      && !t.finished.loading
    ensures !Blank(s.message) && reply.Success? ==>
      t.finished == CenterState("", false, Some(Notice(SuccessNotice, SentText)))
    ensures !Blank(s.message) && reply.Failure? ==>
      t.finished == CenterState(s.message, false, Some(Notice(ErrorNotice, ErrorText(reply.error, SendFailed))))
  {
    if Blank(s.message) then SendTrace(None, s, s)
    else
      var sending := s.(loading := true);
      match reply
      case Success(_) =>
        SendTrace(Some(s.message), sending, sending.(result := Some(Notice(SuccessNotice, SentText)), message := "", loading := false))
      case Failure(f) =>
        SendTrace(Some(s.message), sending, sending.(result := Some(Notice(ErrorNotice, ErrorText(f, SendFailed))), loading := false))
  }

  /** After a successful send the input is empty, so the button is disabled
      and sending again does nothing; after a failed one the text is kept
      and the button is enabled for a retry. */
  lemma SendOutcomeGuardsNextSend(s: CenterState, reply: Result<Server.NotifyAck, ClientFailure>,
                                  next: Result<Server.NotifyAck, ClientFailure>)
    requires !Blank(s.message)
    ensures var u := SendSlackNotification(s, reply).finished;
      && (reply.Success? ==> SendDisabled(u) && SendSlackNotification(u, next).posted.None?)
      && (reply.Failure? ==> !SendDisabled(u) && SendSlackNotification(u, next).posted.Some?)
  {
  }

  /** The button is disabled on mount and enabled once text is typed. */
  lemma ButtonFollowsMessage()
    ensures SendDisabled(Initial)
    ensures !SendDisabled(Initial.(message := "Test message"))
  {
    var m := "Test message";
    assert !IsWhitespace(m[0]) && !IsWhitespace(m[|m| - 1]);
    TrimOfTrimmed(m);
  }

  /** A message sent from the panel is never blank, so when a webhook is
      configured the gateway posts exactly that text and never its default;
      whatever error the gateway answers is what the panel shows. */
  lemma PanelMessageReachesWebhook(s: CenterState, config: Server.Config,
                                   webhookReply: Result<(), Server.UpstreamFailure>)
    requires !Blank(s.message) && Truthy(config.slackWebhookUrl)
    ensures var x := Server.NotifySlack(config, Some(s.message), webhookReply);
      && x.call == Some(Server.PostWebhook(config.slackWebhookUrl.value, s.message))
      && (x.response.Failure? ==>
            SendSlackNotification(s, Received(x.response)).finished.result
              == Some(Notice(ErrorNotice, x.response.error.error)))
  {
    BlankIffAllWhitespace(s.message);
  }
}
