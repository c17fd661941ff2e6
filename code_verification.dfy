/**
 * The code-confirmation screen: a 120-second countdown that gates the "resend" button, the
 * 6-digit code field, the mock check of the code, and the "M:SS" rendering of the time left.
 */
module CodeScreen {
  import opened Wrappers
  import opened Text
  import opened Validation

  /** Seconds the user waits before a new code may be requested. */
  const Duration: int := 120

  /** The only code the mock check accepts. */
  const AcceptedCode: string := "123456"

  /** Digits the code field keeps. */
  const CodeLength: nat := 6

  /** The two pieces of screen state the countdown effect reads and writes. */
  datatype Countdown = Countdown(timeRemaining: int, canResend: bool)

  /** The countdown when the screen is mounted, and again after a resend. */
  const Start: Countdown := Countdown(Duration, false)

  /** The time left is within the duration, and resend is offered only once it has run out. */
  predicate Inv(c: Countdown) {
    0 <= c.timeRemaining <= Duration && (c.canResend ==> c.timeRemaining == 0)
  }

  /**
   * One step of the countdown effect. While it is armed (time left and resend not yet
   * offered) the one-second interval fires and takes one second off; when the time left is 0
   * the effect offers resend instead; in any other state nothing happens.
   */
  function Step(c: Countdown): (d: Countdown)
    ensures Inv(c) ==> Inv(d)
    ensures d.timeRemaining <= c.timeRemaining
    ensures d.timeRemaining == c.timeRemaining - 1 <==> c.timeRemaining > 0 && !c.canResend
    ensures d.canResend <==> c.canResend || c.timeRemaining == 0
  {
    if c.timeRemaining > 0 && !c.canResend then Countdown(c.timeRemaining - 1, c.canResend)
    else if c.timeRemaining == 0 then Countdown(c.timeRemaining, true)
    else c
  }

  /** `n` consecutive steps. */
  function Ticks(c: Countdown, n: nat): Countdown {
    if n == 0 then c else Step(Ticks(c, n - 1))
  }

  lemma {:induction false} TicksPreserveInv(c: Countdown, n: nat)
    requires Inv(c)
    ensures Inv(Ticks(c, n))
  {
    if n > 0 {
      TicksPreserveInv(c, n - 1);
    }
  }

  /** While armed, each step takes exactly one second off. */
  lemma {:induction false} CountDownFrom(t: int, n: nat)
    requires n <= t
    ensures Ticks(Countdown(t, false), n) == Countdown(t - n, false)
  {
    if n > 0 {
      CountDownFrom(t, n - 1);
    }
  }

  /** Once resend is offered, further steps change nothing until a resend resets the clock. */
  lemma {:induction false} ExpiredIsStable(n: nat)
    ensures Ticks(Countdown(0, true), n) == Countdown(0, true)
  {
    if n > 0 {
      ExpiredIsStable(n - 1);
    }
  }

  /** During the first 120 steps resend stays locked and the clock shows the seconds left. */
  lemma ResendLockedUntilExpiry(n: nat)
    requires n <= Duration
    ensures Ticks(Start, n) == Countdown(Duration - n, false)
  {
    CountDownFrom(Duration, n);
  }

  /** 120 steps run the clock down to 0; one more step offers resend, shown as "0:00". */
  lemma ExpiryAfterDuration(n: nat)
    requires n == Duration
    ensures Ticks(Start, n) == Countdown(0, false)
    ensures Ticks(Start, n + 1) == Countdown(0, true)
    ensures FormatTime(Ticks(Start, n + 1).timeRemaining) == "0:00"
  {
    CountDownFrom(Duration, n);
    assert Ticks(Start, n + 1) == Step(Ticks(Start, n));
    FormatTimeExamples();
  }

  /**
   * JavaScript's `%` on numbers: the remainder takes the sign of the dividend, so for a
   * negative dividend it is Dafny's (never negative) remainder shifted down by the divisor,
   * unless that remainder is 0.
   */
  function JsRem(a: int, b: int): (r: int)
    requires b > 0
    ensures a >= 0 ==> 0 <= r < b && r == a % b
    ensures a < 0 ==> -b < r <= 0 && r == (if a % b == 0 then 0 else a % b - b)
  {
    if a >= 0 then a % b
    else
      NegativeRemainder(a, b);
      -((-a) % b)
  }

  /** Dafny's remainder of a negative dividend, in terms of the remainder of its magnitude. */
  lemma NegativeRemainder(a: int, b: int)
    requires a < 0 && b > 0
    ensures -((-a) % b) == (if a % b == 0 then 0 else a % b - b)
  {
    var q, m := (-a) / b, (-a) % b;
    assert -a == q * b + m;
    if m == 0 {
      assert a == (-q) * b;
      ModOfMultiple(-q, b);
    } else {
      assert a == (-q - 1) * b + (b - m);
      ModUnique(a, b, -q - 1, b - m);
    }
  }

  lemma ModOfMultiple(k: int, b: int)
    requires b > 0
    ensures (k * b) % b == 0
  {
    ModUnique(k * b, b, k, 0);
  }

  /** Euclidean division is unique: a remainder in `[0, b)` is the remainder. */
  lemma ModUnique(a: int, b: int, q: int, r: int)
    requires b > 0 && 0 <= r < b && a == q * b + r
    ensures a % b == r
  {
    var q', r' := a / b, a % b;
    assert a == q' * b + r';
    if q > q' {
      MulDistance(q, q', b);
    } else if q < q' {
      MulDistance(q', q, b);
    }
  }

  /** Multiples of `b` that differ are at least `b` apart. */
  lemma MulDistance(x: int, y: int, b: int)
    requires x > y && b > 0
    ensures x * b - y * b >= b
  {
    var k := x - y;
    assert x * b - y * b == k * b;
    MulAtLeast(k, b);
  }

  lemma {:induction false} MulAtLeast(k: int, b: int)
    requires k >= 1 && b > 0
    ensures k * b >= b
  {
    if k > 1 {
      MulAtLeast(k - 1, b);
      assert k * b == (k - 1) * b + b;
    }
  }

  /**
   * `${secs < 10 ? '0' : ''}${secs}`: the seconds, with a leading zero below ten. For fewer
   * than 60 seconds this is two digits that read back as the seconds.
   */
  function PadSeconds(secs: int): (f: string)
    ensures 0 <= secs < 60 ==> |f| == 2 && AllDigits(f) && ParseNat(f) == secs
  {
    if 0 <= secs < 60 then
      PaddedDigits(secs);
      (if secs < 10 then "0" else "") + IntToString(secs)
    else (if secs < 10 then "0" else "") + IntToString(secs)
  }

  lemma PaddedDigits(n: nat)
    requires n < 60
    ensures var f := (if n < 10 then "0" else "") + NatToString(n);
            |f| == 2 && AllDigits(f) && ParseNat(f) == n
  {
    ParseNatToString(n);
    if n < 10 {
      ParseNatLeadingZero(NatToString(n));
    } else {
      assert NatToString(n) == NatToString(n / 10) + [DigitChar(n % 10)];
    }
  }

  /**
   * `formatTime`: whole minutes, a colon, and the remaining seconds padded to two digits.
   * `Math.floor(seconds / 60)` is Dafny's `/` here, as both round down for a positive
   * divisor; the remainder follows JavaScript's sign rule. For a non-negative time the
   * text is at least one digit, a colon and two digits, which read as the whole minutes
   * and the seconds left over.
   */
  function FormatTime(seconds: int): (t: string)
    ensures seconds >= 0 ==>
      |t| >= 4 && t[|t| - 3] == ':' && AllDigits(t[..|t| - 3]) && AllDigits(t[|t| - 2..]) &&
      ParseNat(t[..|t| - 3]) == seconds / 60 && ParseNat(t[|t| - 2..]) == seconds % 60
  {
    var m, sec := IntToString(seconds / 60), PadSeconds(JsRem(seconds, 60));
    var t := m + ":" + sec;
    if seconds >= 0 then
      assert t[..|t| - 3] == m && t[|t| - 2..] == sec;
      t
    else t
  }

  /** Reads "M:SS" back: digits, a colon, and two digits that denote fewer than 60 seconds. */
  function ParseTime(t: string): Option<int> {
    var parts := Split(t, ':');
    if |parts| == 2 && |parts[0]| >= 1 && AllDigits(parts[0]) && |parts[1]| == 2 &&
       AllDigits(parts[1]) && ParseNat(parts[1]) < 60
    then Some(ParseNat(parts[0]) * 60 + ParseNat(parts[1]))
    else None
  }

  /** For a non-negative time the minutes are written without leading zeros. */
  lemma FormatTimeMinutes(s: int)
    requires s >= 0
    ensures var t := FormatTime(s);
            |t| >= 4 && t[..|t| - 3] == NatToString(s / 60)
  {
    var m, sec := IntToString(s / 60), PadSeconds(JsRem(s, 60));
    assert FormatTime(s) == m + ":" + sec;
  }

  /** `ParseTime` reads digits, a colon and two digits below 60 as minutes and seconds. */
  lemma ParseTimeOf(m: string, sec: string)
    requires |m| >= 1 && AllDigits(m) && |sec| == 2 && AllDigits(sec) && ParseNat(sec) < 60
    ensures ParseTime(m + [':'] + sec) == Some(ParseNat(m) * 60 + ParseNat(sec))
  {
    var parts := [m, sec];
    assert parts[1..] == [sec];
    assert Join(parts, ':') == m + [':'] + sec;
    NoNonDigit(m, ':');
    NoNonDigit(sec, ':');
    assert forall i :: 0 <= i < |parts| ==> ':' !in parts[i];
    SplitJoin(parts, ':');
    assert Split(m + [':'] + sec, ':') == parts;
  }

  /** For a non-negative time, reading the text back with `ParseTime` gives the time again. */
  lemma FormatTimeRoundTrip(s: int)
    requires s >= 0
    ensures ParseTime(FormatTime(s)) == Some(s)
  {
    var t := FormatTime(s);
    var m, sec := t[..|t| - 3], t[|t| - 2..];
    assert t == m + [':'] + sec;
    ParseTimeOf(m, sec);
  }

  /** Example renderings: the full two minutes, one minute five, and zero. */
  lemma FormatTimeExamples()
    ensures FormatTime(120) == "2:00"
    ensures FormatTime(65) == "1:05"
    ensures FormatTime(0) == "0:00"
  {
    assert JsRem(120, 60) == 0 && JsRem(65, 60) == 5 && JsRem(0, 60) == 0;
    assert IntToString(2) == "2" && IntToString(1) == "1" && IntToString(0) == "0";
    assert IntToString(5) == "5";
    assert PadSeconds(0) == "00" && PadSeconds(5) == "05";
  }

  /** The code field's sanitiser: the digits typed, cut to the first six. */
  function CodeDigits(raw: string): (code: string)
    ensures code <= KeepDigits(raw)
    ensures |code| == if |KeepDigits(raw)| <= CodeLength then |KeepDigits(raw)| else CodeLength
    ensures AllDigits(code)
    ensures ValidateCode(code) <==> |code| == CodeLength
  {
    var d := KeepDigits(raw);
    var code := Take(d, CodeLength);
    assert code == d[..|code|];
    code
  }

  /** Why the code typed was refused. */
  datatype CodeError = MalformedCode | WrongCode

  /** The mounted code-confirmation screen. */
  class CodeVerification {
    /** The masked number the code was sent to, as passed in by the form. */
    const phoneNumber: string
    var code: string
    var timeRemaining: int
    var canResend: bool
    var error: Option<CodeError>

    function Clock(): Countdown
      reads this
    {
      Countdown(timeRemaining, canResend)
    }

    ghost predicate Valid()
      reads this
    {
      Inv(Clock()) && |code| <= CodeLength && AllDigits(code)
    }

    predicate IsInitial()
      reads this
    {
      code == [] && Clock() == Start && error == None
    }

    /** Mounting the screen: an empty code, the full countdown, resend locked, no error. */
    constructor (phone: string)
      ensures Valid() && IsInitial() && phoneNumber == phone
    {
      phoneNumber := phone;
      code := [];
      timeRemaining := Duration;
      canResend := false;
      error := None;
    }

    /** One firing of the countdown effect. */
    method Tick()
      requires Valid()
      modifies this`timeRemaining, this`canResend
      ensures Valid()
      ensures Clock() == Step(old(Clock()))
    {
      if timeRemaining > 0 && !canResend {
        timeRemaining := timeRemaining - 1;
      } else if timeRemaining == 0 {
        canResend := true;
      }
    }

    /** The code field's `onChange`: clears the error and stores the sanitised digits. */
    method HandleCodeChange(raw: string)
      requires Valid()
      modifies this`code, this`error
      ensures Valid()
      ensures code == CodeDigits(raw) && error == None
    {
      error := None;
      code := CodeDigits(raw);
    }

    /** The verify button is enabled exactly when the stored code passes the code check. */
    function VerifyEnabled(): (enabled: bool)
      reads this
      requires Valid()
      ensures enabled <==> ValidateCode(code)
    {
      |code| == CodeLength
    }

    /**
     * `handleVerify`: a malformed code is refused with the format error; a well-formed code
     * clears the error and completes when it is the accepted one, and is refused with the
     * mismatch error otherwise. `completed` stands for the success notification together
     * with the call of the completion callback. The countdown is not touched.
     */
    method HandleVerify() returns (completed: bool)
      requires Valid()
      modifies this`error
      ensures Valid()
      ensures !ValidateCode(code) ==> !completed && error == Some(MalformedCode)
      ensures ValidateCode(code) && code == AcceptedCode ==> completed && error == None
      ensures ValidateCode(code) && code != AcceptedCode ==> !completed && error == Some(WrongCode)
    {
      if !ValidateCode(code) {
        error := Some(MalformedCode);
        return false;
      }
      error := None;
      if code == AcceptedCode {
        completed := true;
      } else {
        error := Some(WrongCode);
        completed := false;
      }
    }

    /** The resend button (`disabled={!canResend}`) is enabled only once the clock is at 0. */
    function ResendEnabled(): (enabled: bool)
      reads this
      requires Valid()
      ensures enabled ==> Clock() == Countdown(0, true)
      ensures timeRemaining > 0 ==> !enabled
    {
      canResend
    }

    /**
     * `handleResend`, reachable only through the resend button, which is disabled until
     * resend is offered: the countdown restarts and the error is cleared; the code is kept.
     */
    method HandleResend()
      requires Valid() && ResendEnabled()
      modifies this`timeRemaining, this`canResend, this`error
      ensures Valid()
      ensures Clock() == Start && error == None
    {
      timeRemaining := Duration;
      canResend := false;
      error := None;
    }
  }
}
