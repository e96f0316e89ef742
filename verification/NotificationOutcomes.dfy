/** What taking an event and attempting a delivery leave behind, stated on the tables themselves. */
module NotificationOutcomes {
  import opened Tables
  import opened Contracts
  import opened Notifications

  predicate HasText(text: Option<string>) {
    text.Some? && text.value != ""
  }

  function Waiting(event: Id, channel: Channel, to: Option<string>): seq<Notification> {
    if HasText(to) then [Notification(event, channel, to.value, Pending, 0, None)] else []
  }

  /** Where an event's message goes: to the addresses it carries, or, if it carries none, to those the
      resolver knows. */
  function SentTo(e: Incoming): (Option<string>, Option<string>) {
    if HasText(e.email) || HasText(e.whatsapp) then (e.email, e.whatsapp)
    else if e.resolved.Some? then (e.resolved.value.email, e.resolved.value.phone)
    else (None, None)
  }

  /** A new event leaves one waiting notification for each address, the e-mail first, or one refusal: an
      event without a template, without an address, or whose template does not render. */
  lemma AcceptOutcome(s: Service, e: Incoming)
    ensures var s' := Accept(s, e);
            var (email, phone) := SentTo(e);
            if e.event in s.processed then s' == s
            else
              && s'.processed == s.processed + {e.event} && s'.attempts == s.attempts
              && if e.supported && (HasText(email) || HasText(phone)) && e.renderable then
                   && s'.deadLetters == s.deadLetters
                   && s'.notifications ==
                      s.notifications + Waiting(e.event, Email, email) + Waiting(e.event, WhatsApp, phone)
                 else
                   && s'.notifications == s.notifications
                   && s'.deadLetters == s.deadLetters +
                      [DeadLetter(e.event, None,
                                  if !e.supported then UnsupportedEvent
                                  else if !HasText(email) && !HasText(phone) then RecipientMissing
                                  else ContextInvalid)]
  {
    var (email, phone) := SentTo(e);
    RecipientsAre(e);
    assert Records(e.event, Recipients(e)) == Waiting(e.event, Email, email) + Waiting(e.event, WhatsApp, phone);
  }

  lemma RecipientsAre(e: Incoming)
    ensures var (email, phone) := SentTo(e);
            Recipients(e) == (if HasText(email) then [(Email, email.value)] else [])
                             + (if HasText(phone) then [(WhatsApp, phone.value)] else [])
  {
  }

  /** An attempt is made iff the notification is neither sent nor given up and its time has come. */
  predicate MayAttempt(s: Service, id: Id, now: Instant) {
    && id < |s.notifications| && (s.notifications[id].status.Pending? || s.notifications[id].status.RetryScheduled?)
    && (s.notifications[id].nextAttemptAt.Some? ==> s.notifications[id].nextAttemptAt.value <= now)
  }

  /** An accepted message is sent; the last refused one is given up with a record of it; any other waits for
      the base delay, doubled with every attempt before it, up to the cap. */
  lemma DeliverOutcome(s: Service, settings: Settings, id: Id, reply: Reply)
    ensures var s' := Deliver(s, settings, id, reply);
            if !MayAttempt(s, id, reply.at) then s' == s
            else
              var was := s.notifications[id];
              var n := was.attemptCount + 1;
              var wait := if settings.base * Pow2(n - 1) <= settings.cap then settings.base * Pow2(n - 1)
                          else settings.cap;
              && s'.processed == s.processed
              && s'.attempts == s.attempts + [(id, Attempt(n, reply.at, reply.accepted))]
              && s'.notifications == s.notifications[id :=
                   if reply.accepted then was.(attemptCount := n, status := Sent, nextAttemptAt := None)
                   else if n >= settings.maxAttempts then
                     was.(attemptCount := n, status := DeadLettered, nextAttemptAt := None)
                   else
                     was.(attemptCount := n, status := RetryScheduled,
                          nextAttemptAt := Some(reply.at + 1_000_000 * wait))]
              && s'.deadLetters ==
                 s.deadLetters + (if !reply.accepted && n >= settings.maxAttempts
                                  then [DeadLetter(was.event, Some(id), AttemptsExhausted)] else [])
  {
    assert s.deadLetters + [] == s.deadLetters;
  }
}
