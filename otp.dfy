/**
 * The one-time-code entry form of src/components/auth/otp-form.tsx: six
 * single-character slots, a resend countdown and a loading flag that lets
 * one submission through. The countdown interval is an event and input
 * focus a return value here.
 */
module Otp {
  import opened Wrappers

  const OtpLength: nat := 6
  const CountdownStart: nat := 59

  /** `!isNaN(Number(s))`, narrowed to strings of ASCII digits (the empty string included). */
  predicate IsNumeric(s: string) {
    forall i :: 0 <= i < |s| ==> '0' <= s[i] <= '9'
  }

  /** `s.slice(-1)`: the last character, or the empty string. */
  function LastChar(s: string): (r: string)
    ensures |r| <= 1
    ensures s == [] ==> r == []
    ensures s != [] ==> r == [s[|s| - 1]]
  {
    if s == [] then [] else s[|s| - 1..]
  }

  /** `slots.join("")`. */
  function Join(slots: seq<string>): string {
    if slots == [] then "" else slots[0] + Join(slots[1..])
  }

  predicate SingleChars(slots: seq<string>) {
    forall i :: 0 <= i < |slots| ==> |slots[i]| <= 1
  }

  /** With single-character slots the joined code is as long as the slots are many iff none is empty. */
  lemma {:induction false} JoinFullIffAllFilled(slots: seq<string>)
    requires SingleChars(slots)
    ensures |Join(slots)| <= |slots|
    ensures |Join(slots)| == |slots| <==> forall i :: 0 <= i < |slots| ==> slots[i] != ""
  {
    if slots != [] {
      JoinFullIffAllFilled(slots[1..]);
      assert forall i :: 1 <= i < |slots| ==> slots[i] == slots[1..][i - 1];
    }
  }

  /** The auto-submit effect fires, and the submit button is enabled, exactly in this state. */
  function ReadyToSubmit(otp: seq<string>, isLoading: bool): (b: bool)
    requires |otp| == OtpLength && SingleChars(otp)
    ensures b <==> !isLoading && forall i :: 0 <= i < |otp| ==> otp[i] != ""
  {
    JoinFullIffAllFilled(otp);
    |Join(otp)| == OtpLength && !isLoading
  }

  class OtpForm {
    var otp: seq<string>
    var countdown: int
    var isLoading: bool
    /** How many times the simulated verification (and login) was started. */
    var submissions: nat

    /** The slot shape, and at most one submission, started only once loading has begun. */
    predicate Valid()
      reads this
    {
      && |otp| == OtpLength && SingleChars(otp) && countdown >= 0
      && submissions <= (if isLoading then 1 else 0)
    }

    constructor ()
      ensures Valid()
      ensures otp == seq(OtpLength, _ => "") && countdown == CountdownStart
      ensures !isLoading && submissions == 0
    {
      otp := seq(OtpLength, _ => "");
      countdown := CountdownStart;
      isLoading := false;
      submissions := 0;
    }

    /**
     * `handleChange` of slot `index` to `value`; returns the slot that
     * receives focus next, if any.
     */
    method HandleChange(value: string, index: nat) returns (focus: Option<nat>)
      requires Valid() && index < OtpLength
      modifies this
      ensures Valid()
      ensures !IsNumeric(value) ==> otp == old(otp)
      ensures IsNumeric(value) ==> otp == old(otp)[index := LastChar(value)]
      ensures focus.Some? <==> IsNumeric(value) && value != "" && index < OtpLength - 1
      ensures focus.Some? ==> focus.value == index + 1
      ensures countdown == old(countdown) && isLoading == old(isLoading) && submissions == old(submissions)
    {
      focus := None;
      if !IsNumeric(value) {
        return;
      }
      var newOtp := otp;
      newOtp := newOtp[index := LastChar(value)];
      otp := newOtp;
      if value != "" && index < OtpLength - 1 {
        focus := Some(index + 1);
      }
    }

    /** One second of the countdown interval. */
    method Tick()
      requires Valid()
      modifies this
      ensures Valid()
      ensures countdown == if old(countdown) > 0 then old(countdown) - 1 else 0
      ensures otp == old(otp) && isLoading == old(isLoading) && submissions == old(submissions)
    {
      countdown := if countdown > 0 then countdown - 1 else 0;
    }

    /** The resend button, shown when the countdown has run out and enabled while not loading. */
    method Resend()
      requires Valid() && countdown == 0 && !isLoading
      modifies this
      ensures Valid()
      ensures countdown == CountdownStart
      ensures otp == old(otp) && isLoading == old(isLoading) && submissions == old(submissions)
    {
      countdown := CountdownStart;
    }

    /** `performSubmitLogic`: starts one verification unless one is under way. */
    method PerformSubmit() returns (started: bool)
      requires Valid()
      modifies this
      ensures Valid()
      ensures started <==> !old(isLoading)
      ensures isLoading
      ensures submissions == old(submissions) + (if started then 1 else 0)
      ensures otp == old(otp) && countdown == old(countdown)
    {
      if isLoading {
        return false;
      }
      isLoading := true;
      submissions := submissions + 1;
      started := true;
    }

    /** The auto-submit effect that runs after every change of the code or the flag. */
    method AutoSubmit() returns (started: bool)
      requires Valid()
      modifies this
      ensures Valid()
      ensures started <==> ReadyToSubmit(old(otp), old(isLoading))
      ensures started ==> forall i :: 0 <= i < |otp| ==> otp[i] != ""
      ensures isLoading == (old(isLoading) || started)
      ensures submissions == old(submissions) + (if started then 1 else 0)
      ensures otp == old(otp) && countdown == old(countdown)
    {
      started := false;
      if |Join(otp)| == OtpLength && !isLoading {
        started := PerformSubmit();
      }
    }
  }
}
