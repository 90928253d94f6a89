/**
 * POST /api/email/capture (src/app/api/email/capture/route.ts): a fixed-window
 * rate limiter keyed by client IP (at most 5 requests per 60-second window),
 * then the email field: required, and shaped like local@domain.tld.  The
 * limiter's clock is a parameter `now`, in milliseconds.
 */
module EmailCapture {
  import opened JsNumber
  import opened JsText

  const RateLimitWindow: int := 60 * 1000
  const RateLimitMax: int := 5

  const TooManyRequests: string := "Too many requests. Please try again later."
  const EmailRequired: string := "Email is required"
  const EmailInvalid: string := "Please enter a valid email address"
  const ServerError: string := "An error occurred. Please try again."
  const Captured: string := "Email captured successfully"

  /** One IP's record: requests counted in the window, and when the window ends. */
  datatype Window = Window(count: int, resetTime: int)

  // ---------------------------------------------------------------------------
  // The rate limiter

  /** One call of isRateLimited: whether the request is refused, and the records after it. */
  function Limit(records: map<string, Window>, ip: string, now: int): (bool, map<string, Window>)
  {
    if ip !in records || now > records[ip].resetTime then
      (false, records[ip := Window(1, now + RateLimitWindow)])
    else if records[ip].count >= RateLimitMax then
      (true, records)
    else
      (false, records[ip := records[ip].(count := records[ip].count + 1)])
  }

  /** Every record counts between 1 and 5 requests. */
  predicate Bounded(records: map<string, Window>)
  {
    forall ip :: ip in records ==> 1 <= records[ip].count <= RateLimitMax
  }

  /** The module-level map of records, with isRateLimited updating it. */
  class RateLimiter {
    var records: map<string, Window>

    constructor()
      ensures records == map[]
    {
      records := map[];
    }

    method IsRateLimited(ip: string, now: int) returns (limited: bool)
      modifies this
      ensures (limited, records) == Limit(old(records), ip, now)
    {
      if ip !in records || now > records[ip].resetTime {
        records := records[ip := Window(1, now + RateLimitWindow)];
        return false;
      }
      var record := records[ip];
      if record.count >= RateLimitMax {
        return true;
      }
      records := records[ip := record.(count := record.count + 1)];
      return false;
    }

    /** The handler: the rate limit first, then the body. Every request counts, whatever its body. */
    method Post(ip: string, now: int, body: Option<Field>) returns (r: Response<string>)
      modifies this
      ensures records == Limit(old(records), ip, now).1
      ensures r == Outcome(Limit(old(records), ip, now).0, body)
    {
      var limited := IsRateLimited(ip, now);
      if limited {
        return Err(429, TooManyRequests);
      }
      if body.None? {
        return Err(500, ServerError);
      }
      var email := body.value;
      if !Truthy(email) {
        return Err(400, EmailRequired);
      }
      if !ValidateEmail(AsText(email)) {
        return Err(400, EmailInvalid);
      }
      return Ok(Captured);
    }
  }

  /**
   * A new IP, or one whose window has passed, starts a window of 60 seconds
   * from now with one request, and is let through.
   */
  lemma LimitStartsWindow(records: map<string, Window>, ip: string, now: int)
    requires ip !in records || now > records[ip].resetTime
    ensures !Limit(records, ip, now).0
    ensures Limit(records, ip, now).1[ip] == Window(1, now + 60000)
  {
  }

  /**
   * Inside the window (now up to and including resetTime) a request is refused
   * exactly when 5 have been counted; a refusal changes nothing, and an
   * allowed request counts one more in the same window.
   */
  lemma LimitInsideWindow(records: map<string, Window>, ip: string, now: int)
    requires ip in records && now <= records[ip].resetTime
    ensures Limit(records, ip, now).0 <==> records[ip].count >= 5
    ensures Limit(records, ip, now).0 ==> Limit(records, ip, now).1 == records
    ensures !Limit(records, ip, now).0 ==>
              Limit(records, ip, now).1[ip] == Window(records[ip].count + 1, records[ip].resetTime)
  {
  }

  /** At resetTime itself the window is still open: the strict comparison keeps the old window. */
  lemma LimitWindowEndInclusive(records: map<string, Window>, ip: string)
    requires ip in records
    ensures Limit(records, ip, records[ip].resetTime).1[ip].resetTime == records[ip].resetTime
    ensures Limit(records, ip, records[ip].resetTime + 1).1[ip] == Window(1, records[ip].resetTime + 1 + 60000)
  {
  }

  /** A call touches only the caller's record, and always leaves one for it. */
  lemma LimitTouchesOnlyCaller(records: map<string, Window>, ip: string, now: int)
    ensures Limit(records, ip, now).1.Keys == records.Keys + {ip}
    ensures forall other :: other in records && other != ip ==> Limit(records, ip, now).1[other] == records[other]
  {
  }

  /** Counts stay between 1 and 5. */
  lemma LimitKeepsBounded(records: map<string, Window>, ip: string, now: int)
    requires Bounded(records)
    ensures Bounded(Limit(records, ip, now).1)
  {
  }

  /** The requests let through when one IP calls at the given times, in turn. */
  function Allowed(records: map<string, Window>, ip: string, nows: seq<int>): nat
    decreases |nows|
  {
    if nows == [] then 0
    else
      var (limited, next) := Limit(records, ip, nows[0]);
      (if limited then 0 else 1) + Allowed(next, ip, nows[1..])
  }

  /** Within one window, no more requests pass than the count leaves room for. */
  lemma {:induction false} AllowedWithinWindow(records: map<string, Window>, ip: string, nows: seq<int>)
    requires ip in records && records[ip].count >= 1
    requires forall k :: 0 <= k < |nows| ==> nows[k] <= records[ip].resetTime
    ensures Allowed(records, ip, nows) <= if records[ip].count >= 5 then 0 else 5 - records[ip].count
    decreases |nows|
  {
    if nows != [] {
      var next := Limit(records, ip, nows[0]).1;
      assert next[ip].resetTime == records[ip].resetTime;
      AllowedWithinWindow(next, ip, nows[1..]);
    }
  }

  /**
   * A window opened at time t lets at most 5 requests through up to its end,
   * t + 60000 inclusive.
   */
  lemma AtMostFivePerWindow(records: map<string, Window>, ip: string, t: int, nows: seq<int>)
    requires ip !in records || t > records[ip].resetTime
    requires forall k :: 0 <= k < |nows| ==> nows[k] <= t + 60000
    ensures Allowed(records, ip, [t] + nows) <= 5
  {
    var next := Limit(records, ip, t).1;
    assert ([t] + nows)[1..] == nows;
    AllowedWithinWindow(next, ip, nows);
  }

  // ---------------------------------------------------------------------------
  // The client address

  /** The text before the first comma (split(",")[0]). */
  function FirstSegment(s: string): (r: string)
    ensures |r| <= |s| && r == s[..|r|]
    ensures forall k :: 0 <= k < |r| ==> r[k] != ','
    ensures |r| < |s| ==> s[|r|] == ','
  {
    if s == [] || s[0] == ',' then [] else [s[0]] + FirstSegment(s[1..])
  }

  /**
   * The first address of x-forwarded-for, else x-real-ip, else "unknown";
   * an empty header counts as absent.
   */
  function ClientIp(forwardedFor: Option<string>, realIp: Option<string>): (ip: string)
    ensures ip != ""
    ensures forwardedFor.Some? && FirstSegment(forwardedFor.value) != "" ==> ip == FirstSegment(forwardedFor.value)
    ensures (forwardedFor.None? || FirstSegment(forwardedFor.value) == "") && realIp.Some? && realIp.value != "" ==>
              ip == realIp.value
    ensures (forwardedFor.None? || FirstSegment(forwardedFor.value) == "") && (realIp.None? || realIp.value == "") ==>
              ip == "unknown"
  {
    if forwardedFor.Some? && FirstSegment(forwardedFor.value) != "" then FirstSegment(forwardedFor.value)
    else if realIp.Some? && realIp.value != "" then realIp.value
    else "unknown"
  }

  // ---------------------------------------------------------------------------
  // The email field

  /**
   * The `email` field of the body: absent, a string, or some other JSON value
   * with its truthiness and the text String() gives it.
   */
  datatype Field = Absent | Str(s: string) | NonString(truthy: bool, text: string)

  /** `!email` fails: anything but absent, "", or a falsy non-string. */
  predicate Truthy(f: Field)
  {
    match f
    case Absent => false
    case Str(s) => s != ""
    case NonString(truthy, _) => truthy
  }

  /** What RegExp.test sees: the value converted to a string. */
  function AsText(f: Field): string
  {
    match f
    case Absent => "undefined"
    case Str(s) => s
    case NonString(_, text) => text
  }

  /** A character of the class [^\s@]. */
  predicate Plain(c: char)
  {
    c != '@' && !IsJsSpace(c)
  }

  predicate AllPlain(s: string)
  {
    forall k :: 0 <= k < |s| ==> Plain(s[k])
  }

  /** A '.' that is neither the first nor the last character. */
  predicate HasInnerDot(d: string)
  {
    exists j :: 0 < j < |d| - 1 && d[j] == '.'
  }

  /** The first position of c in s. */
  function IndexOf(s: string, c: char): (r: Option<nat>)
    ensures r.Some? ==> r.value < |s| && s[r.value] == c && forall k :: 0 <= k < r.value ==> s[k] != c
    ensures r.None? ==> forall k :: 0 <= k < |s| ==> s[k] != c
  {
    if s == [] then None
    else if s[0] == c then Some(0)
    else
      var rest := IndexOf(s[1..], c);
      if rest.None? then None else Some(rest.value + 1)
  }

  /** validateEmail: /^[^\s@]+@[^\s@]+\.[^\s@]+$/.test(email), decided by finding the '@'. */
  function ValidateEmail(email: string): bool
  {
    match IndexOf(email, '@')
    case None => false
    case Some(at) => at > 0 && AllPlain(email[..at]) && AllPlain(email[at + 1..]) && HasInnerDot(email[at + 1..])
  }

  /** What the regular expression matches: three non-empty [^\s@] runs around an '@' and a '.'. */
  ghost predicate MatchesPattern(e: string)
  {
    exists i, j :: 0 < i && i + 1 < j < |e| - 1 && e[i] == '@' && e[j] == '.' &&
                   AllPlain(e[..i]) && AllPlain(e[i + 1..j]) && AllPlain(e[j + 1..])
  }

  lemma AcceptedMatchesPattern(e: string)
    requires ValidateEmail(e)
    ensures MatchesPattern(e)
  {
    var i := IndexOf(e, '@').value;
    var d := e[i + 1..];
    var j' :| 0 < j' < |d| - 1 && d[j'] == '.';
    var j := i + 1 + j';
    assert e[i + 1..j] == d[..j'];
    assert e[j + 1..] == d[j' + 1..];
    assert AllPlain(e[i + 1..j]) && AllPlain(e[j + 1..]);
  }

  lemma MatchedIsAccepted(e: string, i: int, j: int)
    requires 0 < i && i + 1 < j < |e| - 1 && e[i] == '@' && e[j] == '.'
    requires AllPlain(e[..i]) && AllPlain(e[i + 1..j]) && AllPlain(e[j + 1..])
    ensures ValidateEmail(e)
  {
    var at := IndexOf(e, '@');
    assert at.Some?;
    assert forall k :: 0 <= k < i ==> e[k] == e[..i][k];
    assert at.value == i;
    var d := e[i + 1..];
    forall k | 0 <= k < |d|
      ensures Plain(d[k])
    {
      if i + 1 + k < j {
        assert d[k] == e[i + 1..j][k];
      } else if i + 1 + k > j {
        assert d[k] == e[j + 1..][k - (j - i)];
      }
    }
    assert d[j - i - 1] == '.';
  }

  /** The decision procedure accepts exactly the strings the regular expression matches. */
  lemma ValidateEmailIsPattern(e: string)
    ensures ValidateEmail(e) <==> MatchesPattern(e)
  {
    if ValidateEmail(e) {
      AcceptedMatchesPattern(e);
    }
    if MatchesPattern(e) {
      var i, j :| 0 < i && i + 1 < j < |e| - 1 && e[i] == '@' && e[j] == '.' &&
                  AllPlain(e[..i]) && AllPlain(e[i + 1..j]) && AllPlain(e[j + 1..]);
      MatchedIsAccepted(e, i, j);
    }
  }

  /** No white space anywhere. */
  predicate NoSpace(e: string)
  {
    forall k :: 0 <= k < |e| ==> !IsJsSpace(e[k])
  }

  /** The only '@' is at position i. */
  predicate OnlyAt(e: string, i: int)
  {
    0 <= i < |e| && e[i] == '@' && forall k :: 0 <= k < |e| && k != i ==> e[k] != '@'
  }

  /**
   * An address is accepted exactly when it has one '@', no white space, a
   * non-empty part before the '@', and a '.' after it that is neither the
   * first nor the last character of the domain.
   */
  lemma ValidateEmailShape(e: string)
    ensures ValidateEmail(e) <==> NoSpace(e) && exists i :: 0 < i && OnlyAt(e, i) && HasInnerDot(e[i + 1..])
  {
    if ValidateEmail(e) {
      var i := IndexOf(e, '@').value;
      forall k | 0 <= k < |e|
        ensures Plain(e[k]) || k == i
      {
        if k < i {
          assert e[k] == e[..i][k];
        } else if k > i {
          assert e[k] == e[i + 1..][k - i - 1];
        }
      }
      assert OnlyAt(e, i);
    }
    if NoSpace(e) && exists i :: 0 < i && OnlyAt(e, i) && HasInnerDot(e[i + 1..]) {
      var i :| 0 < i && OnlyAt(e, i) && HasInnerDot(e[i + 1..]);
      var at := IndexOf(e, '@');
      assert at == Some(i);
      assert AllPlain(e[..i]);
      assert AllPlain(e[i + 1..]);
    }
  }

  // ---------------------------------------------------------------------------
  // The handler's answer

  /**
   * What POST answers once the limiter has ruled: 429 when refused, 500 for a
   * body that cannot be parsed or destructured (not JSON, or null), 400 for a
   * missing or malformed email (a primitive body has no email), else success.
   */
  function Outcome(limited: bool, body: Option<Field>): Response<string>
  {
    if limited then Err(429, TooManyRequests)
    else if body.None? then Err(500, ServerError)
    else if !Truthy(body.value) then Err(400, EmailRequired)
    else if !ValidateEmail(AsText(body.value)) then Err(400, EmailInvalid)
    else Ok(Captured)
  }

  /**
   * The checks come in order: a refused request gets 429 whatever its body,
   * and a capture succeeds exactly when the request is let through with a
   * well-shaped email.
   */
  lemma OutcomeOrder(limited: bool, body: Option<Field>)
    ensures limited ==> Outcome(limited, body) == Err(429, TooManyRequests)
    ensures Outcome(limited, body).Ok? <==>
              !limited && body.Some? && Truthy(body.value) && MatchesPattern(AsText(body.value))
    ensures Outcome(limited, body) == Err(400, EmailRequired) <==> !limited && body.Some? && !Truthy(body.value)
    ensures Outcome(limited, body) == Err(400, EmailInvalid) <==>
              !limited && body.Some? && Truthy(body.value) && !MatchesPattern(AsText(body.value))
  {
    if body.Some? {
      ValidateEmailIsPattern(AsText(body.value));
    }
  }

  /** A string email with no '@' is refused. */
  lemma OutcomeWithoutAt()
    ensures Outcome(false, Some(Str("a.b"))) == Err(400, EmailInvalid)
  {
    assert IndexOf("a.b", '@').None?;
  }

  /** An array holding one address is converted to that address, and captured. */
  lemma OutcomeOfArray()
    ensures Outcome(false, Some(NonString(true, "a@b.c"))) == Ok(Captured)
  {
    var e := "a@b.c";
    assert IndexOf(e, '@') == Some(1);
    assert e[2..] == "b.c";
    assert "b.c"[1] == '.';
  }
}
