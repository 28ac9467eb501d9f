/** src/app/auth/forgot-password/page.tsx: the four-step password-reset page. The component's state
    (the step, the loading flag, the resend countdown and the form) is the fields of an object, and each
    handler is a method. The simulated server delays complete at once, and an alert is returned as a
    message. */
module ForgotPassword {
  import opened Common

  /** The steps of the page. */
  datatype Step = EmailStep | OtpStep | ResetStep | SuccessStep

  /** The form fields of the page. */
  datatype ResetForm = ResetForm(email: string, otp: string, newPassword: string, confirmPassword: string)

  const EmptyForm := ResetForm("", "", "", "")

  /** The seconds before a code may be sent again. */
  const ResendSeconds := 60

  /** The length of a one-time code. */
  const OtpLength := 6

  /** The shortest new password accepted. */
  const MinPasswordLength := 8

  const InvalidOtpAlert := "Invalid OTP. Please try again."
  const MismatchAlert := "Passwords do not match!"
  const TooShortAlert := "Password must be at least 8 characters long!"

  /** What handleResetPassword objects to, checked in order: the passwords differ, then the new one is
      too short. None when it proceeds. */
  function ResetObjection(form: ResetForm): (alert: Option<string>)
    ensures alert.None? <==> form.newPassword == form.confirmPassword && |form.newPassword| >= MinPasswordLength
    ensures form.newPassword != form.confirmPassword ==> alert == Some(MismatchAlert)
    ensures form.newPassword == form.confirmPassword && |form.newPassword| < MinPasswordLength ==>
      alert == Some(TooShortAlert)
  {
    if form.newPassword != form.confirmPassword then Some(MismatchAlert)
    else if |form.newPassword| < MinPasswordLength then Some(TooShortAlert)
    else None
  }

  /** The disabled test of the reset button. */
  predicate ResetButtonDisabled(form: ResetForm, isLoading: bool) {
    isLoading || form.newPassword != form.confirmPassword || |form.newPassword| < MinPasswordLength
  }

  /** The disabled test of the verify button. */
  predicate VerifyButtonDisabled(form: ResetForm, isLoading: bool) {
    isLoading || |form.otp| != OtpLength
  }

  /** The buttons are disabled exactly when their handlers would refuse: an enabled button always
      leads on. */
  lemma ButtonsMatchHandlers(form: ResetForm)
    ensures !ResetButtonDisabled(form, false) <==> ResetObjection(form).None?
    ensures !VerifyButtonDisabled(form, false) <==> |form.otp| == OtpLength
  {
  }

  /** The step the Back button leads to; None on the steps where the button is not shown. */
  function BackStep(step: Step): (prev: Option<Step>)
    ensures prev.Some? <==> step == OtpStep || step == ResetStep
    ensures step == OtpStep ==> prev == Some(EmailStep)
    ensures step == ResetStep ==> prev == Some(OtpStep)
  {
    match step
    case OtpStep => Some(EmailStep)
    case ResetStep => Some(OtpStep)
    case _ => None
  }

  /** One second of the resend countdown: down by one while positive, then it stays put. */
  function TickTimer(timer: int): (next: int)
    ensures timer > 0 ==> next == timer - 1
    ensures timer <= 0 ==> next == timer
    ensures timer >= 0 ==> next >= 0
  {
    if timer > 0 then timer - 1 else timer
  }

  /** The countdown after `seconds` ticks. */
  function TimerAfter(timer: int, seconds: nat): int
    decreases seconds
  {
    if seconds == 0 then timer else TimerAfter(TickTimer(timer), seconds - 1)
  }

  /** The countdown from a non-negative value runs down one a second and stops at zero: after k
      seconds it shows max(timer - k, 0). */
  lemma {:induction false} TimerRunsDown(timer: nat, seconds: nat)
    ensures TimerAfter(timer, seconds) == if seconds <= timer then timer - seconds else 0
    decreases seconds
  {
    if seconds > 0 {
      TimerRunsDown(TickTimer(timer), seconds - 1);
    }
  }

  /** The state of ForgotPasswordPage. */
  class ForgotPasswordPage {
    var step: Step
    var isLoading: bool
    var timer: int
    var form: ResetForm

    /** The countdown never leaves [0, 60]. */
    predicate Valid()
      reads this
    {
      0 <= timer <= ResendSeconds
    }

    constructor ()
      ensures step == EmailStep && !isLoading && timer == 0 && form == EmptyForm
      ensures Valid()
    {
      step := EmailStep;
      isLoading := false;
      timer := 0;
      form := EmptyForm;
    }

    /** handleInputChange: the named field takes the value; any other name leaves the form alone. */
    method HandleInputChange(field: string, value: string)
      modifies this`form
      ensures field == "email" ==> form == old(form).(email := value)
      ensures field == "otp" ==> form == old(form).(otp := value)
      ensures field == "newPassword" ==> form == old(form).(newPassword := value)
      ensures field == "confirmPassword" ==> form == old(form).(confirmPassword := value)
      ensures field !in {"email", "otp", "newPassword", "confirmPassword"} ==> form == old(form)
    {
      if field == "email" { form := form.(email := value); }
      else if field == "otp" { form := form.(otp := value); }
      else if field == "newPassword" { form := form.(newPassword := value); }
      else if field == "confirmPassword" { form := form.(confirmPassword := value); }
    }

    /** handleSendOTP: the code is sent, the page moves to the code step and the countdown starts at
        60. */
    method HandleSendOtp()
      modifies this`step, this`isLoading, this`timer
      ensures step == OtpStep && timer == ResendSeconds && !isLoading
      ensures Valid()
    {
      isLoading := true;   // the simulated request completes at once
      isLoading := false;
      step := OtpStep;
      timer := ResendSeconds;
    }

    /** handleVerifyOTP: a code of six characters leads to the reset step; any other code raises the
        invalid-code alert and the step stays. */
    method HandleVerifyOtp() returns (alert: Option<string>)
      modifies this`step, this`isLoading
      ensures |form.otp| == OtpLength ==> step == ResetStep && alert.None?
      ensures |form.otp| != OtpLength ==> step == old(step) && alert == Some(InvalidOtpAlert)
      ensures !isLoading
    {
      isLoading := true;   // the simulated request completes at once
      isLoading := false;
      if |form.otp| == OtpLength {
        step := ResetStep;
        alert := None;
      } else {
        alert := Some(InvalidOtpAlert);
      }
    }

    /** handleResetPassword: an objection is raised as an alert and nothing else happens; otherwise
        the page moves to the success step. */
    method HandleResetPassword() returns (alert: Option<string>)
      modifies this`step, this`isLoading
      ensures alert == ResetObjection(form)
      ensures alert.Some? ==> step == old(step) && isLoading == old(isLoading)
      ensures alert.None? ==> step == SuccessStep && !isLoading
    {
      alert := ResetObjection(form);
      if alert.Some? {
        return;
      }
      isLoading := true;   // the simulated request completes at once
      isLoading := false;
      step := SuccessStep;
    }

    /** handleResendOTP: the countdown starts again at 60; the step is unchanged. */
    method HandleResendOtp()
      modifies this`isLoading, this`timer
      ensures timer == ResendSeconds && !isLoading
      ensures Valid()
    {
      isLoading := true;   // the simulated request completes at once
      isLoading := false;
      timer := ResendSeconds;
    }

    /** The Back button: from the code step to the email step, from the reset step to the code step;
        the button is not shown elsewhere and then nothing changes. */
    method GoBack()
      modifies this`step
      ensures BackStep(old(step)).Some? ==> step == BackStep(old(step)).value
      ensures BackStep(old(step)).None? ==> step == old(step)
    {
      if step == OtpStep { step := EmailStep; }
      else if step == ResetStep { step := OtpStep; }
    }

    /** One second of the countdown interval. */
    method Tick()
      modifies this`timer
      requires Valid()
      ensures timer == TickTimer(old(timer))
      ensures Valid()
    {
      if timer > 0 {
        timer := timer - 1;
      }
    }
  }

  /** The whole flow for a learner who types a six-character code and a matching new password of at
      least eight characters: email, code, reset, success, with no alert on the way. */
  method ResetWalkthrough(page: ForgotPasswordPage, otp: string, password: string)
    returns (verifyAlert: Option<string>, resetAlert: Option<string>)
    modifies page
    requires |otp| == OtpLength && |password| >= MinPasswordLength
    ensures verifyAlert.None? && resetAlert.None?
    ensures page.step == SuccessStep && page.Valid()
    ensures page.form.otp == otp && page.form.newPassword == password
  {
    page.HandleSendOtp();
    page.HandleInputChange("otp", otp);
    verifyAlert := page.HandleVerifyOtp();
    page.HandleInputChange("newPassword", password);
    page.HandleInputChange("confirmPassword", password);
    resetAlert := page.HandleResetPassword();
  }
}
