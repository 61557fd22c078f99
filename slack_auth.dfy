/**
 * The request guards of slack/auth.go: the decision chain of the Slack
 * signature check and the middleware. HMAC-SHA256 (RFC 2104) followed by hex
 * encoding is the parameter `mac`, applied to the signing secret and the
 * base string; the clock and the request body are parameters too.
 */
module SlackAuth {
  import opened Wrappers
  import opened GoStrings
  import opened Middleware

  // -----------------------------------------------------------------------
  // 64-bit integers

  const MinInt64: int := -0x8000_0000_0000_0000
  const MaxInt64: int := 0x7FFF_FFFF_FFFF_FFFF
  const TwoTo64: int := 0x1_0000_0000_0000_0000

  type Int64 = x: int | MinInt64 <= x <= MaxInt64

  /** Two's complement wrap-around of Go's int64 arithmetic. */
  function Wrap64(x: int): (r: Int64)
    ensures (r - x) % TwoTo64 == 0
    ensures MinInt64 <= x <= MaxInt64 ==> r == x
  {
    var m := (x - MinInt64) % TwoTo64;
    m + MinInt64
  }

  // -----------------------------------------------------------------------
  // strconv.ParseInt(s, 10, 64) and strconv.FormatInt(n, 10)

  predicate IsDigit(c: char) {
    '0' <= c <= '9'
  }

  predicate AllDigits(s: string) {
    forall i :: 0 <= i < |s| ==> IsDigit(s[i])
  }

  /** The value of a string of decimal digits, most significant first. */
  function DecimalValue(s: string): (n: nat)
    requires AllDigits(s)
  {
    if s == [] then 0
    else DecimalValue(s[..|s| - 1]) * 10 + (s[|s| - 1] as int - '0' as int)
  }

  /** The digits of a decimal integer literal: the string without its sign, if it has one. */
  function Unsigned(s: string): (d: string)
    ensures |d| <= |s|
    ensures s != [] && (s[0] == '+' || s[0] == '-') ==> s == [s[0]] + d
  {
    if s != [] && (s[0] == '+' || s[0] == '-') then s[1..] else s
  }

  /** An optional sign followed by at least one decimal digit and nothing else. */
  predicate WellShaped(s: string) {
    Unsigned(s) != [] && AllDigits(Unsigned(s))
  }

  /** The value a well-shaped literal denotes, before any range check. */
  function SignedValue(s: string): int
    requires WellShaped(s)
  {
    var magnitude: int := DecimalValue(Unsigned(s));
    if s[0] == '-' then -magnitude else magnitude
  }

  /** ParseInt in base 10 with bit size 64: an optional sign, at least one digit, nothing else, and the value in range. */
  function ParseInt64(s: string): (r: Option<Int64>)
    ensures r.Some? ==> s != [] && (if s[0] == '+' || s[0] == '-' then |s| >= 2 && AllDigits(s[1..]) else AllDigits(s))
    // exactly the well-shaped literals in range parse, to the value they denote
    ensures r.Some? <==> WellShaped(s) && MinInt64 <= SignedValue(s) <= MaxInt64
    ensures r.Some? ==> r.value == SignedValue(s)
  {
    if s == [] then None
    else
      var negative := s[0] == '-';
      var digits := if s[0] == '+' || s[0] == '-' then s[1..] else s;
      if digits == [] || !AllDigits(digits) then None
      else
        var magnitude: int := DecimalValue(digits);
        var value := if negative then -magnitude else magnitude;
        if MinInt64 <= value <= MaxInt64 then Some(value) else None
  }

  /** A leading plus sign and leading zeros are accepted; a bare sign or a stray letter is not. */
  lemma ParseInt64Examples()
    ensures ParseInt64("+0300") == Some(300)
    ensures ParseInt64("-42") == Some(-42)
    ensures ParseInt64("-") == None && ParseInt64("") == None && ParseInt64("12a") == None
  {
    assert Unsigned("+0300") == "0300";
    assert "0300"[..3] == "030" && "030"[..2] == "03" && "03"[..1] == "0" && "0"[..0] == "";
    assert Unsigned("-42") == "42";
    assert "42"[..1] == "4" && "4"[..0] == "";
    assert !IsDigit("12a"[2]);
  }

  /** The decimal digits of n, without leading zeros. */
  function Digits(n: nat): (s: string)
    ensures s != [] && AllDigits(s)
    ensures DecimalValue(s) == n
  {
    var last := ['0' + ((n % 10) as char)];
    if n < 10 then last
    else
      var s := Digits(n / 10) + last;
      assert s[..|s| - 1] == Digits(n / 10);
      s
  }

  /** FormatInt(n, 10) */
  function FormatInt(n: Int64): string {
    var v: int := n;
    if v < 0 then "-" + Digits(-v) else Digits(v)
  }

  /** Round trip: every int64 is read back from its decimal form. */
  lemma ParseFormatInt(n: Int64)
    ensures ParseInt64(FormatInt(n)) == Some(n)
  {
    var s := FormatInt(n);
    var v: int := n;
    if v < 0 {
      assert s[1..] == Digits(-v);
    } else {
      assert Digits(n)[0] != '-' && Digits(n)[0] != '+' by {
        assert IsDigit(Digits(n)[0]);
      }
    }
  }

  // -----------------------------------------------------------------------
  // verifySlackRequest (slack/auth.go:162-197)

  /** How old a request may be, in seconds, before it is taken for a replay. */
  const MaxAge: int := 300

  /** The signed text: version, timestamp and body joined by colons (slack/auth.go:189). */
  function BaseString(timestamp: string, body: string): string {
    "v0:" + timestamp + ":" + body
  }

  function ExpectedSignature(secret: string, timestamp: string, body: string, mac: (string, string) -> string): string {
    "v0=" + mac(secret, BaseString(timestamp, body))
  }

  /**
   * The check as written: the age is `now - ts` in int64 arithmetic, so it
   * wraps for timestamps far in the past. `now` is time.Now().Unix() and
   * `body` the result of GetRawData, None when it fails.
   */
  function VerifySlackRequest(signature: string, timestamp: string, now: Int64, body: Option<string>, secret: string,
                              mac: (string, string) -> string): (ok: bool)
    ensures ok <==>
      && signature != "" && timestamp != ""
      && ParseInt64(timestamp).Some? && Wrap64(now - ParseInt64(timestamp).value) <= MaxAge
      && body.Some? && signature == ExpectedSignature(secret, timestamp, body.value, mac)
  {
    if signature == "" || timestamp == "" then false
    else match ParseInt64(timestamp)
      case None => false
      case Some(ts) =>
        if Wrap64(now - ts) > MaxAge then false
        else match body
          case None => false
          case Some(b) => signature == ExpectedSignature(secret, timestamp, b, mac)
  }

  /**
   * A timestamp at the bottom of the int64 range passes the age check as
   * written although it is older than any request: now - ts wraps round to a
   * negative number.
   */
  lemma StaleTimestampAccepted(now: Int64, body: string, secret: string, mac: (string, string) -> string)
    requires now >= 0
    ensures var ts := FormatInt(MinInt64);
      && now - MinInt64 > MaxAge
      && VerifySlackRequest(ExpectedSignature(secret, ts, body, mac), ts, now, Some(body), secret, mac)
      && !VerifySlackRequestChecked(ExpectedSignature(secret, ts, body, mac), ts, now, Some(body), secret, mac)
  {
    ParseFormatInt(MinInt64);
    WrappedAgeAccepted(FormatInt(MinInt64), MinInt64, now, body, secret, mac);
  }

  /** The age check on a parsed timestamp whose difference to the clock wraps to a non-positive value. */
  lemma WrappedAgeAccepted(ts: string, value: Int64, now: Int64, body: string, secret: string, mac: (string, string) -> string)
    requires ParseInt64(ts) == Some(value) && now - value > MaxInt64 && now - value - TwoTo64 <= MaxAge
    ensures VerifySlackRequest(ExpectedSignature(secret, ts, body, mac), ts, now, Some(body), secret, mac)
    ensures !VerifySlackRequestChecked(ExpectedSignature(secret, ts, body, mac), ts, now, Some(body), secret, mac)
  {
    assert Wrap64(now - value) == now - value - TwoTo64;
  }

  /** The check with the age computed without overflow, as the replay guard intends. */
  function VerifySlackRequestChecked(signature: string, timestamp: string, now: Int64, body: Option<string>, secret: string,
                                     mac: (string, string) -> string): (ok: bool)
    ensures ok ==> ParseInt64(timestamp).Some? && ParseInt64(timestamp).value >= now - MaxAge
    ensures ok <==>
      && signature != "" && timestamp != ""
      && ParseInt64(timestamp).Some? && now - ParseInt64(timestamp).value <= MaxAge
      && body.Some? && signature == ExpectedSignature(secret, timestamp, body.value, mac)
  {
    if signature == "" || timestamp == "" then false
    else match ParseInt64(timestamp)
      case None => false
      case Some(ts) =>
        if now - ts > MaxAge then false
        else match body
          case None => false
          case Some(b) => signature == ExpectedSignature(secret, timestamp, b, mac)
  }

  /** The two checks agree whenever the subtraction does not overflow, which covers every realistic clock and timestamp. */
  lemma ChecksAgreeWithoutOverflow(signature: string, timestamp: string, now: Int64, body: Option<string>, secret: string,
                                   mac: (string, string) -> string)
    requires ParseInt64(timestamp).Some? ==> MinInt64 <= now - ParseInt64(timestamp).value <= MaxInt64
    ensures VerifySlackRequest(signature, timestamp, now, body, secret, mac) == VerifySlackRequestChecked(signature, timestamp, now, body, secret, mac)
  {
  }

  /** Timestamps in the future are not rejected by the age check, for any clock past the Unix epoch. */
  lemma FutureTimestampAccepted(now: Int64, ts: Int64, body: string, secret: string, mac: (string, string) -> string)
    requires 0 <= now <= ts
    ensures VerifySlackRequestChecked(ExpectedSignature(secret, FormatInt(ts), body, mac), FormatInt(ts), now, Some(body), secret, mac)
    ensures VerifySlackRequest(ExpectedSignature(secret, FormatInt(ts), body, mac), FormatInt(ts), now, Some(body), secret, mac)
  {
    ParseFormatInt(ts);
    assert FormatInt(ts) != [] && ExpectedSignature(secret, FormatInt(ts), body, mac) != [];
  }

  // -----------------------------------------------------------------------
  // authMiddleware (slack/auth.go:199-219)

  /** Every request proceeds: the OAuth and health paths, other methods, and POST requests alike. */
  function AuthMiddleware(httpMethod: string, path: string): (v: Verdict)
    ensures v == Next
  {
    if HasPrefix(path, "/auth/") || path == "/health" then Next
    else if httpMethod != "POST" then Next
    else Next
  }
}
