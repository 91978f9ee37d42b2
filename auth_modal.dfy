/**
 * The sign-in form: it sends a one-time magic link to an e-mail address and
 * throttles resending with a 60-second countdown.
 */
module AuthModal {
  import opened Wrappers

  datatype SendState = Idle | Sending | Sent | Error

  /** Seconds before "Resend" is enabled after a successful send. */
  const COOLDOWN := 60

  /** One tick of the countdown: down by one, never below 0. */
  function Tick(c: int): (r: int)
    ensures r >= 0
    ensures c > 0 ==> r == c - 1
  {
    if c > 0 then c - 1 else 0
  }

  /** The countdown after `k` ticks. */
  function Countdown(c: int, k: nat): int
    decreases k
  {
    if k == 0 then c else Tick(Countdown(c, k - 1))
  }

  /** After `k` ticks a countdown from `c` shows `c - k`, or 0 once that runs out. */
  lemma {:induction false} CountdownSaturates(c: int, k: nat)
    requires c >= 0
    ensures Countdown(c, k) == if c - k > 0 then c - k else 0
    decreases k
  {
    if k > 0 { CountdownSaturates(c, k - 1); }
  }

  /** A full cooldown has run out after 60 ticks and not before. */
  lemma CooldownLasts60Ticks(k: nat)
    ensures Countdown(COOLDOWN, k) == 0 <==> k >= 60
  {
    CountdownSaturates(COOLDOWN, k);
  }

  class EmailForm {
    var email: string
    var state: SendState
    var err: Option<string>
    var cooldown: int

    /** An error message is held exactly in the error state; the countdown stays within 0..60. */
    ghost predicate Valid()
      reads this
    {
      0 <= cooldown <= COOLDOWN && (err.Some? <==> state == Error)
    }

    constructor ()
      ensures Valid()
      ensures email == "" && state == Idle && err == None && cooldown == 0
    {
      email := "";
      state := Idle;
      err := None;
      cooldown := 0;
    }

    method SetEmail(value: string)
      requires Valid()
      modifies this
      ensures Valid()
      ensures email == value && state == old(state) && err == old(err) && cooldown == old(cooldown)
    {
      email := value;
    }

    /**
     * The first half of `sendLink`, up to the request: nothing happens for an
     * empty address; otherwise the error is cleared and the state is "sending".
     */
    method SendLink() returns (started: bool)
      requires Valid()
      modifies this
      ensures Valid()
      ensures started <==> old(email) != ""
      ensures !started ==> state == old(state) && err == old(err)
      ensures started ==> state == Sending && err == None
      ensures email == old(email) && cooldown == old(cooldown)
    {
      if email == "" {
        return false;
      }
      err := None;
      state := Sending;
      return true;
    }

    /**
     * The second half of `sendLink`, when the request answers: an error is
     * recorded with state "error" and the countdown left alone; success gives
     * state "sent" and a fresh 60-second countdown.
     */
    method SendLinkAnswered(error: Option<string>)
      requires Valid() && state == Sending
      modifies this
      ensures Valid()
      ensures error.Some? ==> state == Error && err == error && cooldown == old(cooldown)
      ensures error.None? ==> state == Sent && err == None && cooldown == COOLDOWN
      ensures email == old(email)
    {
      if error.Some? {
        err := error;
        state := Error;
        return;
      }
      state := Sent;
      cooldown := COOLDOWN;
    }

    /**
     * The form's submit handler: ignored while sending or with an empty
     * address, which is exactly when "Send link" is disabled.
     */
    method Submit() returns (started: bool)
      requires Valid()
      modifies this
      ensures Valid()
      ensures started <==> old(state) != Sending && old(email) != ""
      ensures started <==> !old(SendDisabled())
      ensures !started ==> state == old(state) && err == old(err)
      ensures started ==> state == Sending && err == None
      ensures email == old(email) && cooldown == old(cooldown)
    {
      if state == Sending || email == "" {
        return false;
      }
      started := SendLink();
    }

    /**
     * The submit handler with the resend throttle applied as well: in state
     * "sent" a submission waits for the countdown like "Resend" does, so it
     * starts a send exactly when the button on show is enabled.
     */
    method SubmitThrottled() returns (started: bool)
      requires Valid()
      modifies this
      ensures Valid()
      ensures started <==> old(state) != Sending && old(email) != "" && !(old(state) == Sent && old(cooldown) > 0)
      ensures started <==> !old(SendDisabled()) && (old(ShowsSendButton()) || !old(ResendDisabled()))
      ensures started && old(state) == Sent ==> old(cooldown) == 0
      ensures !started ==> state == old(state) && err == old(err)
      ensures started ==> state == Sending && err == None
      ensures email == old(email) && cooldown == old(cooldown)
    {
      if state == Sending || email == "" || (state == Sent && cooldown > 0) {
        return false;
      }
      started := SendLink();
    }

    /**
     * The "Resend" button's handler: a no-op while the countdown runs, that
     * is while the button is disabled.
     */
    method Resend() returns (started: bool)
      requires Valid()
      modifies this
      ensures Valid()
      ensures started <==> old(cooldown) == 0 && old(email) != ""
      ensures started <==> !old(ResendDisabled()) && old(email) != ""
      ensures !started ==> state == old(state) && err == old(err)
      ensures started ==> state == Sending && err == None
      ensures email == old(email) && cooldown == old(cooldown)
    {
      if cooldown > 0 {
        return false;
      }
      started := SendLink();
    }

    /** One second of the countdown. */
    method TickOnce()
      requires Valid()
      modifies this
      ensures Valid()
      ensures cooldown == Tick(old(cooldown)) && cooldown <= old(cooldown)
      ensures email == old(email) && state == old(state) && err == old(err)
    {
      cooldown := Tick(cooldown);
    }

    /** "Send link" is shown in every state but "sent", where "Resend" replaces it. */
    predicate ShowsSendButton()
      reads this
    {
      state != Sent
    }

    predicate SendDisabled()
      reads this
    {
      state == Sending || email == ""
    }

    predicate ResendDisabled()
      reads this
    {
      cooldown > 0
    }
  }

  /**
   * As written, a submission right after a successful send starts another
   * send although the resend countdown is at 60.
   */
  method SubmitIgnoresCooldownWitness() returns (cooldownAtSubmit: int, started: bool)
    ensures cooldownAtSubmit == COOLDOWN && started
  {
    var form := new EmailForm();
    form.SetEmail("fan@example.com");
    var first := form.Submit();
    form.SendLinkAnswered(None);
    cooldownAtSubmit := form.cooldown;
    started := form.Submit();
  }

  /** With the throttled submit the same submission is refused. */
  method SubmitThrottledWitness() returns (cooldownAtSubmit: int, started: bool)
    ensures cooldownAtSubmit == COOLDOWN && !started
  {
    var form := new EmailForm();
    form.SetEmail("fan@example.com");
    var first := form.SubmitThrottled();
    form.SendLinkAnswered(None);
    cooldownAtSubmit := form.cooldown;
    started := form.SubmitThrottled();
  }
}
