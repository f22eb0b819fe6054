/**
 * HTTP errors of the API client (package `types`): the `ErrHTTP` record, its
 * constructors, and its rendering as text. `http.StatusText` and the
 * formatting of caller-supplied arguments by `fmt.Sprintf` are supplied as
 * opaque functions; the rendering of the code with `%d` is written out.
 */
module HttpErrors {
  import opened Wrappers

  datatype ErrHTTP = ErrHTTP(code: int, message: string)

  /** `http.StatusNotFound`. */
  const StatusNotFound := 404

  /** The message of a NotFound error created with no message of its own. */
  const DefaultNotFoundMessage := "not found"

  /** The error keeps its code and its message as given. */
  function NewErrHttp(code: int, message: string): (e: ErrHTTP)
    ensures e.code == code && e.message == message
  {
    ErrHTTP(code, message)
  }

  /**
   * A 404 error. An empty message becomes "not found" first, and only then,
   * when there are arguments, is the message used as the format for them.
   */
  function NewErrNotFound<A>(sprintf: (string, seq<A>) -> string, message: string, args: seq<A>): (e: ErrHTTP)
    ensures e.code == StatusNotFound
    ensures |args| == 0 && message == "" ==> e.message == DefaultNotFoundMessage
    ensures |args| == 0 && message != "" ==> e.message == message
    ensures |args| > 0 ==> e.message == sprintf(if message == "" then DefaultNotFoundMessage else message, args)
  {
    var format := if message == "" then DefaultNotFoundMessage else message;
    var formatted := if |args| > 0 then sprintf(format, args) else format;
    NewErrHttp(StatusNotFound, formatted)
  }

  // ---------------------------------------------------------------------------
  // Rendering
  // ---------------------------------------------------------------------------

  predicate IsDigit(c: char) {
    '0' <= c <= '9'
  }

  function DigitChar(d: nat): (c: char)
    requires d < 10
    ensures IsDigit(c) && c as int - '0' as int == d
  {
    ('0' as int + d) as char
  }

  /** The decimal digits of `n`, most significant first. */
  function Digits(n: nat): (s: string)
    ensures |s| >= 1
    ensures forall i :: 0 <= i < |s| ==> IsDigit(s[i])
  {
    if n < 10 then [DigitChar(n)] else Digits(n / 10) + [DigitChar(n % 10)]
  }

  /** `%d`: a minus sign for a negative number, then its digits. */
  function FormatInt(n: int): (s: string)
    ensures |s| >= 1
    ensures n >= 0 ==> IsDigit(s[0])
    ensures n < 0 ==> s[0] == '-'
  {
    if n < 0 then "-" + Digits(-n) else Digits(n)
  }

  const ErrorPrefix := "error code "

  /** "error code <code> (<status text>): <message>". */
  function Error(e: ErrHTTP, statusText: int -> string): (text: string)
    ensures |text| >= |ErrorPrefix| && text[..|ErrorPrefix|] == ErrorPrefix
    ensures |text| >= |e.message| && text[|text| - |e.message|..] == e.message
    ensures |text| == |ErrorPrefix| + |FormatInt(e.code)| + |" ("| + |statusText(e.code)| + |"): "| + |e.message|
    ensures text[|ErrorPrefix|..|ErrorPrefix| + |FormatInt(e.code)|] == FormatInt(e.code)
    ensures text[|ErrorPrefix| + |FormatInt(e.code)|..|text| - |e.message|] == " (" + statusText(e.code) + "): "
  {
    var mid := " (" + statusText(e.code) + "): ";
    PartsOfConcat(ErrorPrefix, FormatInt(e.code), mid, e.message);
    ErrorPrefix + FormatInt(e.code) + mid + e.message
  }

  /** Each of four concatenated strings sits at its own offset in the whole. */
  lemma PartsOfConcat(a: string, b: string, c: string, d: string)
    ensures |a + b + c + d| == |a| + |b| + |c| + |d|
    ensures (a + b + c + d)[..|a|] == a
    ensures (a + b + c + d)[|a|..|a| + |b|] == b
    ensures (a + b + c + d)[|a| + |b|..|a| + |b| + |c|] == c
    ensures (a + b + c + d)[|a| + |b| + |c|..] == d
  {
  }

  // ---------------------------------------------------------------------------
  // Reading a rendered error back
  // ---------------------------------------------------------------------------

  /** The value of a string of decimal digits. */
  function DigitsValue(s: string): nat
    requires forall i :: 0 <= i < |s| ==> IsDigit(s[i])
  {
    if s == [] then 0
    else
      assert IsDigit(s[|s| - 1]);
      DigitsValue(s[..|s| - 1]) * 10 + (s[|s| - 1] as int - '0' as int)
  }

  /** The longest run of digits at the start of `s`. */
  function LeadingDigits(s: string): (d: string)
    ensures |d| <= |s| && d == s[..|d|]
    ensures forall i :: 0 <= i < |d| ==> IsDigit(d[i])
  {
    if s == [] || !IsDigit(s[0]) then [] else [s[0]] + LeadingDigits(s[1..])
  }

  /** The code a rendered error names, read from after "error code ". */
  function ParseCode(text: string): Option<int> {
    if |text| < |ErrorPrefix| || text[..|ErrorPrefix|] != ErrorPrefix then None
    else ParseSigned(text[|ErrorPrefix|..])
  }

  /** An optional minus sign and the digits after it, up to the first non-digit. */
  function ParseSigned(rest: string): Option<int> {
    if |rest| > 0 && rest[0] == '-' then
      var d := LeadingDigits(rest[1..]);
      if d == [] then None else Some(0 - DigitsValue(d) as int)
    else
      var d := LeadingDigits(rest);
      if d == [] then None else Some(DigitsValue(d))
  }

  lemma {:induction false} DigitsRoundTrip(n: nat)
    ensures DigitsValue(Digits(n)) == n
  {
    if n >= 10 {
      DigitsRoundTrip(n / 10);
      var s := Digits(n);
      assert s[..|s| - 1] == Digits(n / 10);
    }
  }

  lemma {:induction false} LeadingDigitsOfDigits(d: string, t: string)
    requires forall i :: 0 <= i < |d| ==> IsDigit(d[i])
    requires t == [] || !IsDigit(t[0])
    ensures LeadingDigits(d + t) == d
  {
    if d != [] {
      assert (d + t)[1..] == d[1..] + t;
      LeadingDigitsOfDigits(d[1..], t);
    } else {
      assert d + t == t;
    }
  }

  /** The digits of a number followed by a non-digit read back as that number. */
  lemma ParseUnsigned(m: nat, tail: string)
    requires tail == [] || !IsDigit(tail[0])
    ensures ParseSigned(Digits(m) + tail) == Some(m)
  {
    DigitsRoundTrip(m);
    LeadingDigitsOfDigits(Digits(m), tail);
    assert (Digits(m) + tail)[0] == Digits(m)[0];
  }

  /** A minus sign, then the digits of a number, then a non-digit read back as minus that number. */
  lemma ParseNegative(m: nat, tail: string)
    requires tail == [] || !IsDigit(tail[0])
    ensures ParseSigned("-" + Digits(m) + tail) == Some(0 - m)
  {
    DigitsRoundTrip(m);
    LeadingDigitsOfDigits(Digits(m), tail);
    assert ("-" + Digits(m) + tail)[1..] == Digits(m) + tail;
  }

  /** A rendered code followed by a non-digit reads back as that code. */
  lemma ParseRenderedCode(code: int, tail: string)
    requires tail == [] || !IsDigit(tail[0])
    ensures ParseSigned(FormatInt(code) + tail) == Some(code)
  {
    if code < 0 {
      ParseNegative(-code, tail);
    } else {
      ParseUnsigned(code, tail);
    }
  }

  /** The rendered text names the error's code: reading it back gives the code. */
  lemma ErrorCodeRoundTrip(e: ErrHTTP, statusText: int -> string)
    ensures ParseCode(Error(e, statusText)) == Some(e.code)
  {
    var tail := " (" + statusText(e.code) + "): " + e.message;
    var text := Error(e, statusText);
    assert text == ErrorPrefix + (FormatInt(e.code) + tail);
    assert text[..|ErrorPrefix|] == ErrorPrefix;
    assert text[|ErrorPrefix|..] == FormatInt(e.code) + tail;
    ParseRenderedCode(e.code, tail);
  }
}
