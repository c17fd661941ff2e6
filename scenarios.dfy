/**
 * The identity flow driven end to end through the two controllers: a lookup miss, a
 * successful send on each path, the countdown running out, a resend, and the two outcomes
 * of submitting a well-formed code. Typed inputs are parameters constrained by what the
 * sanitisers keep of them.
 */
module Scenarios {
  import opened Wrappers
  import opened Text
  import opened Validation
  import opened CodeScreen
  import opened Form

  /** Sending from the ID path with the unlinked ID sets the "no phone" alert and nothing else. */
  method SendUnlinkedId(form: VerificationForm) returns (toast: Option<Toast>)
    requires form.Valid() && !form.showCodeVerification
    requires form.verificationMethod == ById && form.idNumber == UnlinkedId
    modifies form`retrievedPhone, form`error, form`showCodeVerification, form`screen
    ensures form.Valid()
    ensures toast == None && form.error == Some(NoPhoneForId)
    ensures !form.showCodeVerification && form.screen == null
    ensures form.retrievedPhone == old(form.retrievedPhone)
  {
    UnlinkedIdFacts(form.idNumber);
    toast := form.HandleSendCode();
  }

  /** Typing the unlinked ID and sending keeps the form up with the "no phone" alert. */
  method UnlinkedIdStaysOnForm(raw: string) returns (form: VerificationForm, toast: Option<Toast>)
    requires IdDigits(raw) == UnlinkedId
    ensures fresh(form) && form.Valid()
    ensures toast == None && form.error == Some(NoPhoneForId)
    ensures !form.showCodeVerification && form.screen == null && form.retrievedPhone == []
  {
    form := new VerificationForm();
    form.SelectMethod(ById);
    form.HandleIdChange(raw);
    toast := SendUnlinkedId(form);
  }

  /**
   * Typing any other complete ID and sending mounts the code screen for the mock number,
   * masked as "098 *** 432", with the full two minutes on the clock.
   */
  method LinkedIdSendsCode(raw: string) returns (form: VerificationForm, toast: Option<Toast>)
    requires |IdDigits(raw)| == IdLength && IdDigits(raw) != UnlinkedId
    ensures fresh(form) && form.Valid()
    ensures form.idNumber == IdDigits(raw)
    ensures form.retrievedPhone == MockPhone && form.showCodeVerification
    ensures toast == Some(CodeSent("098 *** 432"))
    ensures form.screen != null && form.screen.phoneNumber == "098 *** 432"
    ensures form.screen.Clock() == Start && form.screen.code == []
  {
    form := new VerificationForm();
    form.SelectMethod(ById);
    form.HandleIdChange(raw);
    toast := form.HandleSendCode();
    MockPhoneFacts(form.retrievedPhone);
  }

  /**
   * On the phone path, a field holding nine digits is sent as shown, and the code screen
   * receives the masked form of what the field shows.
   */
  method PhoneSendsCode(raw: string) returns (form: VerificationForm, toast: Option<Toast>)
    requires |PhoneDigits(raw)| == PhoneLength
    ensures fresh(form) && form.Valid()
    ensures form.retrievedPhone == PhoneField(raw) && form.showCodeVerification
    ensures toast == Some(CodeSent(MaskPhone(PhoneField(raw))))
    ensures form.screen != null && form.screen.phoneNumber == MaskPhone(PhoneField(raw))
    ensures form.screen.IsInitial()
  {
    form := new VerificationForm();
    form.SelectMethod(ByPhone);
    form.HandlePhoneChange(raw);
    toast := form.HandleSendCode();
  }

  /**
   * On a freshly mounted screen, 120 firings of the interval bring the clock to 0 with resend
   * still locked; the next run of the effect offers resend, and the label would read "0:00".
   * Resending then restarts the full countdown. `expired` is the clock just before the resend.
   */
  method CountdownRunsOut(cv: CodeVerification) returns (expired: Countdown)
    requires cv.Valid() && cv.IsInitial()
    modifies cv`timeRemaining, cv`canResend, cv`error
    ensures expired == Countdown(0, true) && FormatTime(expired.timeRemaining) == "0:00"
    ensures cv.Valid() && cv.Clock() == Start && cv.error == None
  {
    for i := 0 to Duration
      invariant cv.Valid() && cv.Clock() == Ticks(Start, i)
    {
      cv.Tick();
    }
    ExpiryAfterDuration(Duration);
    assert !cv.ResendEnabled();
    cv.Tick();
    assert cv.Clock() == Countdown(0, true) && FormatTime(cv.timeRemaining) == "0:00";
    assert cv.ResendEnabled();
    expired := cv.Clock();
    cv.HandleResend();
  }

  /**
   * Submitting the accepted code completes; submitting another six-digit code is refused
   * with the mismatch error and the screen stays as it was otherwise.
   */
  method SubmitCodes(cv: CodeVerification, good: string, bad: string) returns (first: bool, second: bool)
    requires cv.Valid()
    requires good == AcceptedCode && |bad| == CodeLength && AllDigits(bad) && bad != AcceptedCode
    modifies cv`code, cv`error
    ensures cv.Valid() && first && !second
    ensures cv.code == bad && cv.error == Some(WrongCode)
  {
    KeepDigitsOfDigits(good);
    cv.HandleCodeChange(good);
    first := cv.HandleVerify();
    KeepDigitsOfDigits(bad);
    cv.HandleCodeChange(bad);
    second := cv.HandleVerify();
  }

  /** Going back from the code screen shows the form again and keeps the number it was sent to. */
  method BackKeepsRetrievedPhone(raw: string) returns (form: VerificationForm)
    requires |IdDigits(raw)| == IdLength && IdDigits(raw) != UnlinkedId
    ensures fresh(form) && form.Valid()
    ensures !form.showCodeVerification && form.screen == null
    ensures form.retrievedPhone == MockPhone && form.idNumber == IdDigits(raw)
  {
    var toast;
    form, toast := LinkedIdSendsCode(raw);
    form.Back();
  }
}
