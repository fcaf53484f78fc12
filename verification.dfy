/**
 * One-time verification codes: issuing a four-digit code that lives five
 * minutes, and checking a submitted code against the profile.
 */
module Verification {
  import opened Results
  import opened ProfileModel

  /** Number of digits in a code. */
  const CodeLength := 4

  /** How long a code stays valid: five minutes, in microseconds. */
  const CodeLifetime := 5 * 60 * 1_000_000

  /** Values the random digit generator can return, one per digit. */
  predicate IsDigitDraws(draws: seq<int>) {
    forall i :: 0 <= i < |draws| ==> 0 <= draws[i] <= 9
  }

  predicate ValidDraws(draws: seq<int>) {
    |draws| == CodeLength && IsDigitDraws(draws)
  }

  predicate IsDigit(c: char) {
    '0' <= c <= '9'
  }

  /** A string of exactly four decimal digits. */
  predicate IsCode(code: string) {
    |code| == CodeLength && forall i :: 0 <= i < |code| ==> IsDigit(code[i])
  }

  function DigitChar(d: int): (c: char)
    requires 0 <= d <= 9
    ensures IsDigit(c)
  {
    ('0' as int + d) as char
  }

  /** The decimal rendering of the draws, joined left to right. */
  function CodeOf(draws: seq<int>): (code: string)
    requires IsDigitDraws(draws)
    ensures |code| == |draws|
    ensures forall i :: 0 <= i < |draws| ==> code[i] == DigitChar(draws[i])
  {
    if draws == [] then ""
    else CodeOf(draws[..|draws| - 1]) + [DigitChar(draws[|draws| - 1])]
  }

  /** The values of the digits of a code. */
  function DigitsOf(code: string): (ds: seq<int>)
    ensures |ds| == |code|
    ensures forall i :: 0 <= i < |code| ==> ds[i] == code[i] as int - '0' as int
  {
    if code == "" then []
    else DigitsOf(code[..|code| - 1]) + [code[|code| - 1] as int - '0' as int]
  }

  /** Reading the digits back gives the draws. */
  lemma DigitsOfCodeOf(draws: seq<int>)
    requires IsDigitDraws(draws)
    ensures DigitsOf(CodeOf(draws)) == draws
  {
    var read := DigitsOf(CodeOf(draws));
    forall i | 0 <= i < |draws| ensures read[i] == draws[i] {
      DigitOfDigitChar(draws[i]);
    }
  }

  /** The rendering of a digit reads back as that digit. */
  lemma DigitOfDigitChar(d: int)
    requires 0 <= d <= 9
    ensures DigitChar(d) as int - '0' as int == d
  {
  }

  /** A digit character is the rendering of its own value. */
  lemma DigitCharOfDigit(c: char)
    requires IsDigit(c)
    ensures 0 <= c as int - '0' as int <= 9
    ensures DigitChar(c as int - '0' as int) == c
  {
  }

  /** Every string of decimal digits is what some draws produce. */
  lemma CodeOfDigitsOf(code: string)
    requires forall i :: 0 <= i < |code| ==> IsDigit(code[i])
    ensures IsDigitDraws(DigitsOf(code))
    ensures CodeOf(DigitsOf(code)) == code
  {
    var ds := DigitsOf(code);
    forall i | 0 <= i < |code| ensures 0 <= ds[i] <= 9 {
      DigitCharOfDigit(code[i]);
    }
    var rendered := CodeOf(ds);
    forall i | 0 <= i < |code| ensures rendered[i] == code[i] {
      DigitCharOfDigit(code[i]);
    }
  }

  /** The generator `''.join(str(randint(0, 9)) for _ in range(4))`, fed with its draws. */
  method GenerateCode(draws: seq<int>) returns (code: string)
    requires ValidDraws(draws)
    ensures code == CodeOf(draws)
    ensures IsCode(code) && |code| <= MaxCodeLength
  {
    code := "";
    for i := 0 to CodeLength
      invariant code == CodeOf(draws[..i])
    {
      assert draws[..i + 1][..i] == draws[..i];
      code := code + [DigitChar(draws[i])];
    }
    assert draws[..CodeLength] == draws;
  }

  /** The profile holds an issued code that fits its column, and its expiry. */
  ghost predicate IsIssued(s: ProfileState) {
    IsCode(s.code) && FitsSchema(s) && s.expiresAt.Some?
  }

  /** A profile after a code is issued at `now`. */
  function Issue(s: ProfileState, code: string, now: int): ProfileState {
    s.(code := code, expiresAt := Some(now + CodeLifetime))
  }

  /**
   * The check of a submitted code at `now`: it must equal the stored code and
   * the expiry must be strictly later than `now`. A null expiry cannot be
   * compared and fails whatever the code.
   */
  function Submit(s: ProfileState, submitted: string, now: int): (r: Result<ProfileState>)
    ensures r.Ok? <==> s.code == submitted && s.expiresAt.Some? && now < s.expiresAt.value
    ensures r.Ok? ==> r.value == s.(verified := true)
    ensures r.Err? ==> r.error == if s.expiresAt.None? then TypeError else InvalidCode
  {
    match s.expiresAt
    case None => Err(TypeError)
    case Some(expiresAt) =>
      if s.code == submitted && expiresAt > now then Ok(s.(verified := true)) else Err(InvalidCode)
  }

  /** A freshly issued code is accepted until, and not at, five minutes later. */
  lemma CodeLivesFiveMinutes(s: ProfileState, code: string, issuedAt: int, now: int)
    ensures Submit(Issue(s, code, issuedAt), code, now).Ok? <==> now < issuedAt + CodeLifetime
  {
  }

  /** Issuing a new code makes a different earlier code fail, expired or not. */
  lemma ReissueInvalidatesOldCode(s: ProfileState, first: string, second: string, t1: int, t2: int, now: int)
    requires first != second
    ensures Submit(Issue(Issue(s, first, t1), second, t2), first, now) == Err(InvalidCode)
  {
  }

  /** Submitting the same valid code again succeeds again and changes nothing more. */
  lemma ResubmitSucceeds(s: ProfileState, code: string, now: int)
    requires Submit(s, code, now).Ok?
    ensures Submit(Submit(s, code, now).value, code, now) == Submit(s, code, now)
  {
  }

  /** What can happen to one profile: a code is issued, or a code is submitted. */
  datatype Event = Issued(code: string, at: int) | Submitted(code: string, at: int)

  /** A profile after one event; a rejected code leaves it as it was. */
  function Step(s: ProfileState, e: Event): ProfileState {
    match e
    case Issued(code, at) => Issue(s, code, at)
    case Submitted(code, at) =>
      match Submit(s, code, at)
      case Ok(s') => s'
      case Err(_) => s
  }

  function Run(s: ProfileState, events: seq<Event>): ProfileState
    decreases |events|
  {
    if events == [] then s else Run(Step(s, events[0]), events[1..])
  }

  /** Some submitted code is accepted along the events. */
  ghost predicate SomeCodeAccepted(s: ProfileState, events: seq<Event>)
    decreases |events|
  {
    events != [] &&
    ((events[0].Submitted? && Submit(s, events[0].code, events[0].at).Ok?)
     || SomeCodeAccepted(Step(s, events[0]), events[1..]))
  }

  /**
   * The verified flag only goes from false to true, and it does so exactly
   * when some submitted code is accepted.
   */
  lemma {:induction false} VerifiedExactlyWhenAccepted(s: ProfileState, events: seq<Event>)
    ensures s.verified ==> Run(s, events).verified
    ensures Run(s, events).verified <==> s.verified || SomeCodeAccepted(s, events)
    decreases |events|
  {
    if events != [] {
      VerifiedExactlyWhenAccepted(Step(s, events[0]), events[1..]);
    }
  }
}
