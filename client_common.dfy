/** What the browser screens share: the session object they hold, the requests
    they send, and the `hh:mm:ss` countdown formatting, with JavaScript's
    integer semantics (`Math.floor` of a quotient and a `%` that keeps the sign
    of the dividend). */
module ClientCommon {
  import opened Common

  /** The session object the screens receive from POST or PUT
      /api/onboarding-session. */
  datatype ClientSession = ClientSession(
    teamCode: string,
    questionType: Option<int>,
    startTime: Option<int>,
    isCompleted: bool,
    remainingTimeMs: int)

  /** The requests a screen sends, with the body fields that matter. */
  datatype Request =
    | ValidateCode(teamCode: string)
    | CheckSubmission(teamCode: string)
    | StartSession(teamCode: string, questionType: Option<int>, forceRestart: bool)
    | UpdateSession(teamCode: string, setQuestionType: Field<int>, isCompleted: bool)
    | RegisterTeamWithCode
    | UploadSolution(teamCode: string, explanation: string, questionTypeText: string, files: seq<BrowserFile>)

  /** A browser `File` the user picked or dropped; its content is opaque. */
  datatype BrowserFile = BrowserFile(name: string, mimeType: string, size: nat, lastModified: int, content: string)

  /** `e || fallback` on an optional message. */
  function OrDefault(e: Option<string>, fallback: string): (r: string)
    ensures r == fallback || (e.Some? && r == e.value)
    ensures r != "" <==> (e.Some? && e.value != "") || fallback != ""
  {
    if e.Some? && e.value != "" then e.value else fallback
  }

  /** JavaScript `a % b` for a positive divisor. */
  function JsRem(a: int, b: int): (r: int)
    requires b > 0
    ensures a >= 0 ==> r == a % b
    ensures a < 0 ==> -b < r <= 0
  {
    if a >= 0 then a % b else -((-a) % b)
  }

  /** `s.padStart(2, '0')` */
  function PadStart2(s: string): string
  {
    if |s| >= 2 then s else seq(2 - |s|, _ => '0') + s
  }

  /** Padding keeps the string as a suffix and puts only zeros before it. */
  lemma PadStart2Facts(s: string)
    ensures var r := PadStart2(s);
      && |r| == (if |s| >= 2 then |s| else 2)
      && r[|r| - |s|..] == s
      && forall i :: 0 <= i < |r| - |s| ==> r[i] == '0'
  {
  }

  /** `formatTime`: `Math.floor` is Dafny's `/` for a positive divisor, and
      JavaScript's `%` is `JsRem`. */
  function FormatTime(ms: int): string
  {
    var totalSeconds := ms / 1000;
    var hours := totalSeconds / 3600;
    var minutes := JsRem(totalSeconds, 3600) / 60;
    var seconds := JsRem(totalSeconds, 60);
    PadStart2(IntToString(hours)) + ":" + PadStart2(IntToString(minutes)) + ":" + PadStart2(IntToString(seconds))
  }

  /** A number as the display shows it: decimal digits, at least two. */
  function TwoDigits(n: nat): string
  {
    PadStart2(NatToString(n))
  }

  function DigitValue(c: char): nat
  {
    if '0' <= c <= '9' then c as int - '0' as int else 0
  }

  /** The number a string of decimal digits denotes. */
  function DecimalValue(s: string): nat
  {
    if s == [] then 0 else DecimalValue(s[..|s| - 1]) * 10 + DigitValue(s[|s| - 1])
  }

  lemma {:induction false} NatToStringValue(n: nat)
    ensures DecimalValue(NatToString(n)) == n
  {
    if n >= 10 {
      var s := NatToString(n);
      assert s[..|s| - 1] == NatToString(n / 10);
      NatToStringValue(n / 10);
    }
  }

  lemma {:induction false} LeadingZerosValue(z: nat, s: string)
    ensures DecimalValue(seq(z, _ => '0') + s) == DecimalValue(s)
    decreases |s|, z
  {
    var t := seq(z, _ => '0') + s;
    if s == [] {
      if z > 0 {
        assert t[..|t| - 1] == seq(z - 1, _ => '0') + [];
        LeadingZerosValue(z - 1, []);
      }
    } else {
      assert t[..|t| - 1] == seq(z, _ => '0') + s[..|s| - 1];
      LeadingZerosValue(z, s[..|s| - 1]);
    }
  }

  /** Every displayed field is at least two decimal digits and reads back as
      the number it shows. */
  lemma TwoDigitsFacts(n: nat)
    ensures |TwoDigits(n)| >= 2
    ensures n < 100 ==> |TwoDigits(n)| == 2
    ensures forall i :: 0 <= i < |TwoDigits(n)| ==> '0' <= TwoDigits(n)[i] <= '9'
    ensures DecimalValue(TwoDigits(n)) == n
  {
    var s := NatToString(n);
    NatToStringDigits(n);
    NatToStringValue(n);
    PadStart2Facts(s);
    if |s| < 2 {
      assert TwoDigits(n) == seq(2 - |s|, _ => '0') + s;
      LeadingZerosValue(2 - |s|, s);
    }
    if n >= 10 && n < 100 {
      assert NatToString(n / 10) == [('0' as int + n / 10) as char];
    }
  }

  /** Division by a constant, from a quotient and remainder in range. */
  lemma By60(a: int, q: int, r: int)
    requires 0 <= r < 60 && a == 60 * q + r
    ensures a / 60 == q && a % 60 == r
  {
  }

  lemma By60000(a: int, q: int, r: int)
    requires 0 <= r < 60000 && a == 60000 * q + r
    ensures a / 60000 == q
  {
  }

  lemma By3600000(a: int, q: int, r: int)
    requires 0 <= r < 3600000 && a == 3600000 * q + r
    ensures a / 3600000 == q
  {
  }

  /** The nested quotients of the display and the direct ones agree. */
  lemma ClockArithmetic(ms: nat)
    ensures ms / 1000 / 3600 == ms / 3600000
    ensures (ms / 1000 % 3600) / 60 == ms / 60000 % 60
    ensures ms / 1000 % 60 == (ms / 1000 % 3600) % 60
    ensures (ms / 3600000) * 3600 + (ms / 60000 % 60) * 60 + ms / 1000 % 60 == ms / 1000
  {
    var q := ms / 1000;
    var h := q / 3600;
    var rem := q % 3600;
    var m := rem / 60;
    var s := rem % 60;
    assert q == 3600 * h + rem;
    assert rem == 60 * m + s;
    By3600000(ms, h, 1000 * rem + ms % 1000);
    By60000(ms, 60 * h + m, 1000 * s + ms % 1000);
    By60(60 * h + m, h, m);
    By60(q, 60 * h + m, s);
  }

  /** For a non-negative count the display shows whole hours, the minute within
      the hour and the second within the minute, which add back up to the
      whole seconds left. */
  lemma FormatTimeFields(ms: int)
    requires ms >= 0
    ensures var h, m, s := ms / 3600000, ms / 60000 % 60, ms / 1000 % 60;
      && FormatTime(ms) == TwoDigits(h) + ":" + TwoDigits(m) + ":" + TwoDigits(s)
      && h * 3600 + m * 60 + s == ms / 1000
      && 0 <= m < 60 && 0 <= s < 60
  {
    ClockArithmetic(ms);
  }

  /** The three fields of twelve hours, as displayed. */
  lemma TwelveHoursText()
    ensures TwoDigits(12) + ":" + TwoDigits(0) + ":" + TwoDigits(0) == "12:00:00"
  {
    assert NatToString(12) == "12" by {
      assert NatToString(1) == "1";
    }
    assert TwoDigits(0) == "00" by {
      assert NatToString(0) == "0";
    }
    var hours := TwoDigits(12) + ":";
    assert hours == "12:";
    var minutes := hours + TwoDigits(0);
    assert minutes == "12:00";
    var colon := minutes + ":";
    assert colon == "12:00:";
  }

  /** A full session shows as twelve hours. */
  lemma FullSessionDisplay()
    ensures FormatTime(SessionLengthMs) == "12:00:00"
  {
    assert SessionLengthMs == 43200000;
    FormatTimeFields(43200000);
    assert 43200000 / 3600000 == 12 && 43200000 / 60000 % 60 == 0 && 43200000 / 1000 % 60 == 0;
    TwelveHoursText();
  }
}
