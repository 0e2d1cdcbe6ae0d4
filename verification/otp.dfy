/**
 * The one-time-password helpers: phone and code format checks, code generation (with the random
 * draw passed in), and the verification stub.
 */
module Otp {
  import opened Text
  import opened Decimal
  import opened Accounts

  /** `rest` is 7 to 9 ASCII digits. */
  predicate SubscriberDigits(rest: string) {
    7 <= |rest| <= 9 && AllDigits(rest)
  }

  /** `validatePhoneNumber`: the pattern `^(09|\+?959)\d{7,9}$`. */
  predicate ValidatePhoneNumber(phone: string) {
    || (StartsWith(phone, "09") && SubscriberDigits(phone[2..]))
    || (StartsWith(phone, "959") && SubscriberDigits(phone[3..]))
    || (StartsWith(phone, "+959") && SubscriberDigits(phone[4..]))
  }

  /** Every phone the account table accepts passes the OTP phone check. */
  lemma StoredPhoneValidates(phone: string)
    requires StoredPhone(phone)
    ensures ValidatePhoneNumber(phone)
  {
    if StartsWith(phone, "+") {
      var rest := phone[1..];
      assert phone[..4] == "+" + rest[..3];
      assert phone[4..] == rest[3..];
    }
  }

  /** A local "09" number passes the OTP check but is not a phone the account table stores. */
  lemma LocalFormIsNotStored()
    ensures ValidatePhoneNumber("091234567")
    ensures !StoredPhone("091234567")
  {
    assert "091234567"[..2] == "09";
    assert "091234567"[0] == '0';
  }

  /** `validateOTPFormat`: exactly six ASCII digits. */
  predicate ValidateOTPFormat(otp: string) {
    DigitsOfLength(otp, 6)
  }

  /**
   * `generateOTP`: `draw` stands for `floor(random * 900000)`, so the code is the decimal form of
   * `100000 + draw`. The phone number is not used.
   */
  function GenerateOTP(phone: string, draw: nat): (otp: string)
    requires draw < 900000
    ensures ValidateOTPFormat(otp)
    ensures otp[0] != '0'
    ensures DecimalValue(otp) == 100000 + draw
  {
    SixDigitPowers();
    DecimalLength(100000 + draw, 6);
    DecimalRoundTrip(100000 + draw);
    NatToDecimal(100000 + draw)
  }

  /** Every six-digit code without a leading zero is produced by exactly one draw. */
  lemma GenerateOTPCovers(phone: string, otp: string)
    requires ValidateOTPFormat(otp) && otp[0] != '0'
    ensures 100000 <= DecimalValue(otp) < 1000000
    ensures GenerateOTP(phone, DecimalValue(otp) - 100000) == otp
  {
    SixDigitPowers();
    DecimalBounds(otp);
    var n := DecimalValue(otp);
    DecimalLength(n, 6);
    DecimalRoundTrip(n);
    DecimalInjective(otp, NatToDecimal(n));
  }

  /** `verifyOTP` is a stub: it accepts every phone and every code. */
  function VerifyOTP(phone: string, otp: string): (ok: bool)
    ensures ok
  {
    true
  }
}
