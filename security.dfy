/** Webhook authentication, per-sender sliding-window rate limiting and
    input sanitisation, and the manager that applies them to a request in
    order: signature first, then sanitisation, then the rate limit. */
module Security {
  import opened Errors
  import opened Text
  import opened Configuration

  // ---------------------------------------------------------------------
  // Ordering of form keys

  /** Python's `<` on strings: lexicographic on code points. */
  predicate StrLess(a: string, b: string)
    decreases |a|
  {
    if a == [] then b != []
    else if b == [] then false
    else if a[0] != b[0] then a[0] < b[0]
    else StrLess(a[1..], b[1..])
  }

  lemma {:induction false} StrLessTotal(a: string, b: string)
    ensures a == b || StrLess(a, b) || StrLess(b, a)
    decreases |a|
  {
    if a != [] && b != [] && a[0] == b[0] {
      StrLessTotal(a[1..], b[1..]);
      if a[1..] == b[1..] {
        assert a == [a[0]] + a[1..] && b == [b[0]] + b[1..];
      }
    }
  }

  lemma {:induction false} StrLessAsymmetric(a: string, b: string)
    ensures !(StrLess(a, b) && StrLess(b, a))
    decreases |a|
  {
    if a != [] && b != [] && a[0] == b[0] {
      StrLessAsymmetric(a[1..], b[1..]);
    }
  }

  lemma {:induction false} StrLessTransitive(a: string, b: string, c: string)
    requires StrLess(a, b) && StrLess(b, c)
    ensures StrLess(a, c)
    decreases |a|
  {
    if a != [] && a[0] == b[0] && b[0] == c[0] {
      StrLessTransitive(a[1..], b[1..], c[1..]);
    }
  }

  /** `m` is the least element of `keys`. */
  predicate IsLeast(m: string, keys: set<string>) {
    m in keys && forall k :: k in keys && k != m ==> StrLess(m, k)
  }

  lemma {:induction false} LeastExists(keys: set<string>)
    requires keys != {}
    ensures exists m :: IsLeast(m, keys)
    decreases |keys|
  {
    var x :| x in keys;
    var rest := keys - {x};
    if rest == {} {
      assert keys == {x};
      assert IsLeast(x, keys);
    } else {
      LeastExists(rest);
      var m :| IsLeast(m, rest);
      StrLessTotal(x, m);
      if StrLess(x, m) {
        forall k | k in keys && k != x ensures StrLess(x, k) {
          if k != m { StrLessTransitive(x, m, k); }
        }
        assert IsLeast(x, keys);
      } else {
        assert IsLeast(m, keys);
      }
    }
  }

  lemma LeastUnique(keys: set<string>)
    ensures forall a, b :: IsLeast(a, keys) && IsLeast(b, keys) ==> a == b
  {
    forall a, b | IsLeast(a, keys) && IsLeast(b, keys) ensures a == b {
      if a != b { StrLessAsymmetric(a, b); }
    }
  }

  /** The keys of a form in ascending order, as `sorted(params.items())`
      visits them (the keys of a dictionary are distinct). */
  function SortedKeys(keys: set<string>): (r: seq<string>)
    ensures |r| == |keys|
    ensures forall k :: k in keys <==> k in r
    ensures forall i, j :: 0 <= i < j < |r| ==> StrLess(r[i], r[j])
    decreases |keys|
  {
    if keys == {} then []
    else
      LeastExists(keys);
      LeastUnique(keys);
      var m :| IsLeast(m, keys);
      var rest := SortedKeys(keys - {m});
      assert forall j :: 0 <= j < |rest| ==> StrLess(m, rest[j]) by {
        forall j | 0 <= j < |rest| ensures StrLess(m, rest[j]) {
          assert rest[j] in keys - {m};
        }
      }
      [m] + rest
  }

  // ---------------------------------------------------------------------
  // Twilio signature validation

  /** The parts of an inbound HTTP request the validator reads. The
      request's header lookup ignores case, so `headers` is keyed by the
      lower-cased header name: every spelling of a name reaches one entry. */
  datatype Request = Request(
    url: string,
    httpMethod: string,
    headers: map<string, string>,
    form: map<string, string>)

  /** `X-Twilio-Signature`, under its lower-cased key. */
  const SignatureHeader := "x-twilio-signature"

  /** The header key is the source's header name, lower-cased. */
  lemma SignatureHeaderKey()
    ensures Lower("X-Twilio-Signature") == SignatureHeader
  {
  }

  /** `urlencode` of the given keys' items, each written `quote(k)=quote(v)`
      and joined by `&`; `quote` stands for the percent-encoding. */
  function EncodeItems(keys: seq<string>, form: map<string, string>, quote: string -> string): (r: string)
    requires forall i :: 0 <= i < |keys| ==> keys[i] in form
    decreases |keys|
  {
    if keys == [] then ""
    else if |keys| == 1 then quote(keys[0]) + "=" + quote(form[keys[0]])
    else quote(keys[0]) + "=" + quote(form[keys[0]]) + "&" + EncodeItems(keys[1..], form, quote)
  }

  /** The data the signature covers: the URL alone unless the request is a
      POST with a non-empty form, then the URL followed by the form encoded
      in ascending key order. */
  function StringToSign(request: Request, quote: string -> string): (r: string)
    ensures request.httpMethod != "POST" || request.form == map[] ==> r == request.url
    ensures request.httpMethod == "POST" && request.form != map[] ==>
              var keys := SortedKeys(request.form.Keys);
              r == request.url + EncodeItems(keys, request.form, quote)
  {
    if request.httpMethod == "POST" && request.form != map[] then
      var keys := SortedKeys(request.form.Keys);
      request.url + EncodeItems(keys, request.form, quote)
    else request.url
  }

  /** The signature header, or `""` when it is absent. */
  function ProvidedSignature(request: Request): string {
    if SignatureHeader in request.headers then request.headers[SignatureHeader] else ""
  }

  /** `hmac.compare_digest` on two strings: raises `TypeError` unless both are ASCII. */
  function CompareDigest(a: string, b: string): (r: Result<bool>)
    ensures r.Ok? <==> IsAscii(a) && IsAscii(b)
    ensures r.Ok? ==> (r.value <==> a == b)
  {
    if !IsAscii(a) || !IsAscii(b) then Err(Error(OtherException, "comparing strings with non-ASCII characters is not supported"))
    else Ok(a == b)
  }

  /** The request is authentic when its signature header is present and
      equals `sign(authToken, data)` for the data to sign; `sign` stands for
      base64 of HMAC-SHA1. Any failure along the way reads as `false`. */
  function ValidateRequest(request: Request, authToken: string,
                           sign: (string, string) -> string, quote: string -> string): (valid: bool)
    ensures valid <==> var s := ProvidedSignature(request);
                       var expected := sign(authToken, StringToSign(request, quote));
                       s != "" && IsAscii(expected) && s == expected
  {
    var signature := ProvidedSignature(request);
    if signature == "" then false
    else
      var expected := sign(authToken, StringToSign(request, quote));
      match CompareDigest(signature, expected)
      case Ok(equal) => equal
      case Err(_) => false
  }

  /** A request without the signature header is never authentic. */
  lemma MissingSignatureRejected(request: Request, authToken: string,
                                 sign: (string, string) -> string, quote: string -> string)
    requires SignatureHeader !in request.headers || request.headers[SignatureHeader] == ""
    ensures !ValidateRequest(request, authToken, sign, quote)
  {
  }

  /** At most one signature value is accepted for a given request: changing
      the header of an authentic request makes it fail. */
  lemma SignatureIsUnique(request: Request, other: string, authToken: string,
                          sign: (string, string) -> string, quote: string -> string)
    requires ValidateRequest(request, authToken, sign, quote)
    requires other != ProvidedSignature(request)
    ensures !ValidateRequest(request.(headers := request.headers[SignatureHeader := other]), authToken, sign, quote)
  {
    var changed := request.(headers := request.headers[SignatureHeader := other]);
    assert ProvidedSignature(changed) == other;
    assert StringToSign(changed, quote) == StringToSign(request, quote);
  }

  // ---------------------------------------------------------------------
  // Sliding-window rate limiting

  /** Number of leading timestamps older than `cutoff`: the ones a purge pops. */
  function StaleCount(q: seq<int>, cutoff: int): (k: nat)
    ensures k <= |q|
    ensures forall i :: 0 <= i < k ==> q[i] < cutoff
    ensures k < |q| ==> q[k] >= cutoff
  {
    if q != [] && q[0] < cutoff then 1 + StaleCount(q[1..], cutoff) else 0
  }

  /** `_clean_old_requests`: pops timestamps older than `now - window` off
      the front of the queue; whatever remains keeps its order. */
  method CleanOldRequests(queue: seq<int>, now: int, window: int) returns (r: seq<int>)
    ensures r == queue[StaleCount(queue, now - window)..]
    ensures r == [] || r[0] >= now - window
  {
    var cutoff := now - window;
    r := queue;
    while r != [] && r[0] < cutoff
      invariant |r| <= |queue| && r == queue[|queue| - |r|..]
      invariant StaleCount(queue, cutoff) == |queue| - |r| + StaleCount(r, cutoff)
    {
      r := r[1..];
    }
  }

  /** The queue of `user` in a per-user map, empty when the user has none. */
  function Queue(requests: map<string, seq<int>>, user: string): seq<int> {
    if user in requests then requests[user] else []
  }

  function Purged(q: seq<int>, now: int, window: int): seq<int> {
    q[StaleCount(q, now - window)..]
  }

  function Cap(limit: int): nat {
    if limit < 0 then 0 else limit
  }

  /** Every queue of the map holds at most `Cap(limit)` timestamps. */
  ghost predicate Bounded(requests: map<string, seq<int>>, limit: int) {
    forall u :: u in requests ==> |requests[u]| <= Cap(limit)
  }

  /** A user's queue is no longer than the bound every queue of the map keeps. */
  lemma QueueBound(requests: map<string, seq<int>>, user: string, limit: int)
    requires Bounded(requests, limit)
    ensures |Queue(requests, user)| <= Cap(limit)
  {
  }

  /** Replacing one queue by one within the bound keeps the map bounded. */
  lemma UpdateBounded(requests: map<string, seq<int>>, user: string, q: seq<int>, limit: int)
    requires Bounded(requests, limit) && |q| <= Cap(limit)
    ensures Bounded(requests[user := q], limit)
  {
  }

  function MinuteLimitMessage(limit: int): string {
    "Rate limit exceeded: " + IntString(limit) + " messages per minute"
  }

  function HourLimitMessage(limit: int): string {
    "Rate limit exceeded: " + IntString(limit) + " messages per hour"
  }

  /** Per-user request timestamps in a 60-second and a 3600-second window. */
  class RateLimiter {
    const perMinuteLimit: int
    const perHourLimit: int
    var minuteRequests: map<string, seq<int>>
    var hourRequests: map<string, seq<int>>

    /** No user's queue ever holds more timestamps than its window admits. */
    ghost predicate Valid()
      reads this
    {
      Bounded(minuteRequests, perMinuteLimit) && Bounded(hourRequests, perHourLimit)
    }

    constructor (perMinuteLimit: int, perHourLimit: int)
      ensures Valid()
      ensures this.perMinuteLimit == perMinuteLimit && this.perHourLimit == perHourLimit
      ensures minuteRequests == map[] && hourRequests == map[]
    {
      this.perMinuteLimit := perMinuteLimit;
      this.perHourLimit := perHourLimit;
      minuteRequests := map[];
      hourRequests := map[];
    }

    /** Whether a check for `user` at time `now` admits the request. */
    predicate Admits(user: string, now: int)
      reads this
    {
      && |Purged(Queue(minuteRequests, user), now, 60)| < perMinuteLimit
      && |Purged(Queue(hourRequests, user), now, 3600)| < perHourLimit
    }

    /** The minute queues after a check for `user` at `now`: the user's
        queue purged, plus `now` when the request is admitted. */
    function MinuteAfter(user: string, now: int): map<string, seq<int>>
      reads this
    {
      var pm := Purged(Queue(minuteRequests, user), now, 60);
      minuteRequests[user := if Admits(user, now) then pm + [now] else pm]
    }

    /** The hour queues after a check for `user` at `now`: untouched on a
        minute denial, otherwise the user's queue purged, plus `now` when
        the request is admitted. */
    function HourAfter(user: string, now: int): map<string, seq<int>>
      reads this
    {
      var pm := Purged(Queue(minuteRequests, user), now, 60);
      var ph := Purged(Queue(hourRequests, user), now, 3600);
      if |pm| >= perMinuteLimit then hourRequests
      else hourRequests[user := if Admits(user, now) then ph + [now] else ph]
    }

    /** A check for one user leaves every other user's queues as they were. */
    lemma OtherUsersUntouched(user: string, now: int, other: string)
      requires other != user
      ensures Queue(MinuteAfter(user, now), other) == Queue(minuteRequests, other)
      ensures Queue(HourAfter(user, now), other) == Queue(hourRequests, other)
    {
    }

    /** `check_rate_limit`. The minute window is purged and checked first; a
        denial there leaves the hour window untouched. The hour window is
        then purged and checked. Only an admitted request appends `now`, to
        both of the user's queues. Purges are kept even on denial. */
    method CheckRateLimit(user: string, now: int) returns (r: Outcome)
      requires Valid()
      modifies this
      ensures Valid()
      ensures r.Pass? <==> old(Admits(user, now))
      ensures r.Fail? ==> r.error.kind == RateLimitError
      ensures var pm := Purged(Queue(old(minuteRequests), user), now, 60);
              |pm| >= perMinuteLimit ==>
                && r == Fail(Error(RateLimitError, MinuteLimitMessage(perMinuteLimit)))
                && minuteRequests == old(minuteRequests)[user := pm]
                && hourRequests == old(hourRequests)
      ensures var pm := Purged(Queue(old(minuteRequests), user), now, 60);
              var ph := Purged(Queue(old(hourRequests), user), now, 3600);
              |pm| < perMinuteLimit && |ph| >= perHourLimit ==>
                && r == Fail(Error(RateLimitError, HourLimitMessage(perHourLimit)))
                && minuteRequests == old(minuteRequests)[user := pm]
                && hourRequests == old(hourRequests)[user := ph]
      ensures var pm := Purged(Queue(old(minuteRequests), user), now, 60);
              var ph := Purged(Queue(old(hourRequests), user), now, 3600);
              |pm| < perMinuteLimit && |ph| < perHourLimit ==>
                && r == Pass
                && minuteRequests == old(minuteRequests)[user := pm + [now]]
                && hourRequests == old(hourRequests)[user := ph + [now]]
    ensures minuteRequests == old(MinuteAfter(user, now)) && hourRequests == old(HourAfter(user, now))
    {
      ghost var minute0, hour0 := minuteRequests, hourRequests;
      QueueBound(minute0, user, perMinuteLimit);
      QueueBound(hour0, user, perHourLimit);
      var minuteQueue := CleanOldRequests(Queue(minuteRequests, user), now, 60);
      if |minuteQueue| >= perMinuteLimit {
        UpdateBounded(minute0, user, minuteQueue, perMinuteLimit);
        minuteRequests := minuteRequests[user := minuteQueue];
        return Fail(Error(RateLimitError, MinuteLimitMessage(perMinuteLimit)));
      }
      var hourQueue := CleanOldRequests(Queue(hourRequests, user), now, 3600);
      if |hourQueue| >= perHourLimit {
        UpdateBounded(minute0, user, minuteQueue, perMinuteLimit);
        UpdateBounded(hour0, user, hourQueue, perHourLimit);
        minuteRequests := minuteRequests[user := minuteQueue];
        hourRequests := hourRequests[user := hourQueue];
        return Fail(Error(RateLimitError, HourLimitMessage(perHourLimit)));
      }
      UpdateBounded(minute0, user, minuteQueue + [now], perMinuteLimit);
      UpdateBounded(hour0, user, hourQueue + [now], perHourLimit);
      minuteRequests := minuteRequests[user := minuteQueue + [now]];
      hourRequests := hourRequests[user := hourQueue + [now]];
      r := Pass;
    }
  }

  /** One request of `user` at `now` against queues `q` that are all inside
      both windows: admitted exactly when `q` is below the minute limit. */
  method CheckWithin(limiter: RateLimiter, user: string, now: int, ghost q: seq<int>) returns (admitted: bool)
    requires limiter.Valid() && limiter.perMinuteLimit == 5 && limiter.perHourLimit == 50
    requires Queue(limiter.minuteRequests, user) == q && Queue(limiter.hourRequests, user) == q
    requires |q| <= 5 && (q == [] || q[0] >= now - 60)
    modifies limiter
    ensures limiter.Valid() && limiter.perMinuteLimit == 5 && limiter.perHourLimit == 50
    ensures admitted <==> |q| < 5
    ensures admitted ==> Queue(limiter.minuteRequests, user) == q + [now] && Queue(limiter.hourRequests, user) == q + [now]
    ensures !admitted ==> Queue(limiter.minuteRequests, user) == q && Queue(limiter.hourRequests, user) == q
  {
    assert StaleCount(q, now - 60) == 0 && StaleCount(q, now - 3600) == 0;
    var r := limiter.CheckRateLimit(user, now);
    admitted := r.Pass?;
  }

  /** With the default limits, five requests inside ten seconds pass, a sixth
      in the same minute is refused, and a request more than a minute after
      the first passes again. */
  method DefaultLimitsScenario(user: string) returns (admitted: seq<bool>)
    ensures admitted == [true, true, true, true, true, false, true]
  {
    var limiter := new RateLimiter(5, 50);
    var a0 := CheckWithin(limiter, user, 0, []);
    var a1 := CheckWithin(limiter, user, 2, [0]);
    var a2 := CheckWithin(limiter, user, 4, [0, 2]);
    var a3 := CheckWithin(limiter, user, 6, [0, 2, 4]);
    var a4 := CheckWithin(limiter, user, 8, [0, 2, 4, 6]);
    var a5 := CheckWithin(limiter, user, 30, [0, 2, 4, 6, 8]);
    assert StaleCount([0, 2, 4, 6, 8], 1) == 1;
    assert StaleCount([0, 2, 4, 6, 8], 61 - 3600) == 0;
    var r6 := limiter.CheckRateLimit(user, 61);
    admitted := [a0, a1, a2, a3, a4, a5, r6.Pass?];
  }

  // ---------------------------------------------------------------------
  // Input sanitisation

  /** Characters kept in a message body: nothing below 0x20 except tab,
      newline and carriage return. */
  predicate MessageChar(c: char) {
    c as int >= 32 || c == '\n' || c == '\r' || c == '\t'
  }

  function KeepMessageChars(s: string): (r: string)
    ensures |r| <= |s|
    ensures forall i :: 0 <= i < |r| ==> MessageChar(r[i])
  {
    if s == [] then []
    else if MessageChar(s[0]) then [s[0]] + KeepMessageChars(s[1..])
    else KeepMessageChars(s[1..])
  }

  lemma {:induction false} KeepMessageCharsUnchanged(s: string)
    requires forall i :: 0 <= i < |s| ==> MessageChar(s[i])
    ensures KeepMessageChars(s) == s
  {
    if s != [] {
      KeepMessageCharsUnchanged(s[1..]);
    }
  }

  lemma KeepMessageCharsSkip(c: char, s: string)
    requires !MessageChar(c)
    ensures KeepMessageChars([c] + s) == KeepMessageChars(s)
  {
    assert ([c] + s)[1..] == s;
  }

  const MaxMessageLength := 2000

  /** `sanitize_message`: stripped, control characters removed, then cut to
      2000 characters. */
  function SanitizeMessage(message: string): (r: string)
    ensures |r| <= MaxMessageLength
    ensures forall i :: 0 <= i < |r| ==> MessageChar(r[i])
    ensures var kept := KeepMessageChars(Strip(message));
            |r| == Min(|kept|, MaxMessageLength) && r == kept[..|r|]
  {
    var sanitized := KeepMessageChars(Strip(message));
    sanitized[..Min(|sanitized|, MaxMessageLength)]
  }

  /** A message that is already clean passes through untouched. */
  lemma CleanMessageUnchanged(message: string)
    requires |message| <= MaxMessageLength
    requires forall i :: 0 <= i < |message| ==> MessageChar(message[i])
    requires message == [] || (!IsSpace(message[0]) && !IsSpace(message[|message| - 1]))
    ensures SanitizeMessage(message) == message
  {
    StripUnchanged(message);
    KeepMessageCharsUnchanged(message);
  }

  /** Stripping happens before control characters are removed, so a control
      character can shield whitespace from the strip: the result may start
      with a space, and sanitising again changes it (`"\U{1} a"` gives
      `" a"`, which gives `"a"`). */
  lemma SanitizeMessageNotIdempotent(k: char, a: string)
    requires !MessageChar(k) && !IsSpace(k)
    requires 0 < |a| < MaxMessageLength && forall i :: 0 <= i < |a| ==> MessageChar(a[i])
    requires !IsSpace(a[0]) && !IsSpace(a[|a| - 1])
    ensures SanitizeMessage([k, ' '] + a) == [' '] + a
    ensures SanitizeMessage(SanitizeMessage([k, ' '] + a)) == a != [' '] + a
  {
    ShieldedSpaceKept(k, a);
    LeadingSpaceStripped(a);
  }

  /** A message whose filtered, stripped text is short is that text. */
  lemma SanitizeMessageOf(message: string, kept: string)
    requires KeepMessageChars(Strip(message)) == kept && |kept| <= MaxMessageLength
    ensures SanitizeMessage(message) == kept
  {
    assert kept[..|kept|] == kept;
  }

  /** A control character that is not whitespace in front of a space keeps
      that space from being stripped, and is then removed itself. */
  lemma ShieldedSpaceKept(k: char, a: string)
    requires !MessageChar(k) && !IsSpace(k)
    requires |a| < MaxMessageLength && forall i :: 0 <= i < |a| ==> MessageChar(a[i])
    requires a != [] && !IsSpace(a[|a| - 1])
    ensures SanitizeMessage([k, ' '] + a) == [' '] + a
  {
    var m, t := [k, ' '] + a, [' '] + a;
    assert m == [k] + t;
    assert Strip(m) == m by {
      assert !IsSpace(m[0]) && !IsSpace(m[|m| - 1]);
      StripUnchanged(m);
    }
    assert KeepMessageChars(m) == t by {
      KeepMessageCharsSkip(k, t);
      KeepMessageCharsUnchanged(t);
    }
    SanitizeMessageOf(m, t);
  }

  /** A leading space in front of clean text is stripped. */
  lemma LeadingSpaceStripped(a: string)
    requires |a| <= MaxMessageLength && forall i :: 0 <= i < |a| ==> MessageChar(a[i])
    requires a == [] || (!IsSpace(a[0]) && !IsSpace(a[|a| - 1]))
    ensures SanitizeMessage([' '] + a) == a
  {
    StripLeadingSpace(' ', a);
    KeepMessageCharsUnchanged(a);
    SanitizeMessageOf([' '] + a, a);
  }

  /** Characters kept in a phone number. */
  predicate PhoneChar(c: char) {
    IsDigit(c) || c == '+' || c == '-' || c == '(' || c == ')' || c == ' '
  }

  function KeepPhoneChars(s: string): (r: string)
    ensures |r| <= |s|
    ensures forall i :: 0 <= i < |r| ==> PhoneChar(r[i])
  {
    if s == [] then []
    else if PhoneChar(s[0]) then [s[0]] + KeepPhoneChars(s[1..])
    else KeepPhoneChars(s[1..])
  }

  lemma {:induction false} KeepPhoneCharsUnchanged(s: string)
    requires forall i :: 0 <= i < |s| ==> PhoneChar(s[i])
    ensures KeepPhoneChars(s) == s
  {
    if s != [] {
      KeepPhoneCharsUnchanged(s[1..]);
    }
  }

  /** `sanitize_phone_number`: only digits and `+-() ` survive, and there is
      no space at either end. */
  function SanitizePhoneNumber(phone: string): (r: string)
    ensures forall i :: 0 <= i < |r| ==> PhoneChar(r[i])
    ensures r == [] || (r[0] != ' ' && r[|r| - 1] != ' ')
    ensures phone == "" ==> r == ""
    ensures phone != "" ==> r == Strip(KeepPhoneChars(phone))
  {
    if phone == "" then ""
    else
      var kept := KeepPhoneChars(phone);
      var r := Strip(kept);
      assert forall i :: 0 <= i < |r| ==> PhoneChar(r[i]) by {
        var l := StripLeft(kept);
        forall i | 0 <= i < |r| ensures PhoneChar(r[i]) {
          assert r[i] == l[i] == kept[|kept| - |l| + i];
        }
      }
      r
  }

  /** A number made only of phone characters, with no whitespace at either
      end, passes through untouched. */
  lemma CleanPhoneUnchanged(phone: string)
    requires forall i :: 0 <= i < |phone| ==> PhoneChar(phone[i])
    requires phone == [] || (!IsSpace(phone[0]) && !IsSpace(phone[|phone| - 1]))
    ensures SanitizePhoneNumber(phone) == phone
  {
    KeepPhoneCharsUnchanged(phone);
    StripUnchanged(phone);
  }

  /** Sanitising a sanitised phone number changes nothing. */
  lemma SanitizePhoneIdempotent(phone: string)
    ensures SanitizePhoneNumber(SanitizePhoneNumber(phone)) == SanitizePhoneNumber(phone)
  {
    var r := SanitizePhoneNumber(phone);
    if r != "" {
      KeepPhoneCharsUnchanged(r);
      StripUnchanged(r);
    }
  }

  // ---------------------------------------------------------------------
  // The security manager

  /** The sanitised fields of an inbound message. */
  datatype SanitizedRequest = SanitizedRequest(
    messageSid: string,
    accountSid: string,
    fromNumber: string,
    toNumber: string,
    body: string,
    numMedia: int,
    fromCity: string,
    fromState: string,
    fromCountry: string,
    timestamp: string)

  function FormGet(form: map<string, string>, key: string): string {
    if key in form then form[key] else ""
  }

  /** The sanitised fields of a form; `NumMedia` must parse as an integer
      when present, as `int()` raises otherwise. */
  function Sanitize(form: map<string, string>): Result<SanitizedRequest> {
    var numMedia := if "NumMedia" in form then ParseInt(form["NumMedia"]) else Some(0);
    if numMedia.None? then
      Err(Error(ValueError, "invalid literal for int() with base 10"))
    else
      Ok(SanitizedRequest(
        FormGet(form, "MessageSid"),
        FormGet(form, "AccountSid"),
        SanitizePhoneNumber(FormGet(form, "From")),
        SanitizePhoneNumber(FormGet(form, "To")),
        SanitizeMessage(FormGet(form, "Body")),
        numMedia.value,
        FormGet(form, "FromCity"),
        FormGet(form, "FromState"),
        FormGet(form, "FromCountry"),
        FormGet(form, "DateSent")))
  }

  /** Sanitisation fails only on a `NumMedia` that is not an integer; the
      sender and recipient are sanitised as phone numbers, the body as a
      message, and a missing `NumMedia` counts as zero. */
  lemma SanitizeFields(form: map<string, string>)
    ensures Sanitize(form).Ok? <==> "NumMedia" !in form || ParseInt(form["NumMedia"]).Some?
    ensures Sanitize(form).Err? ==> Sanitize(form).error.kind == ValueError
    ensures Sanitize(form).Ok? ==>
              var s := Sanitize(form).value;
              && s.fromNumber == SanitizePhoneNumber(FormGet(form, "From"))
              && s.toNumber == SanitizePhoneNumber(FormGet(form, "To"))
              && s.body == SanitizeMessage(FormGet(form, "Body"))
              && |s.body| <= MaxMessageLength
              && s.numMedia == (if "NumMedia" in form then ParseInt(form["NumMedia"]).value else 0)
              && s.messageSid == FormGet(form, "MessageSid")
  {
  }

  class SecurityManager {
    const config: Config
    const rateLimiter: RateLimiter

    constructor (config: Config)
      ensures this.config == config && fresh(rateLimiter) && rateLimiter.Valid()
      ensures rateLimiter.perMinuteLimit == config.rateLimitPerUserPerMinute
      ensures rateLimiter.perHourLimit == config.rateLimitPerUserPerHour
      ensures rateLimiter.minuteRequests == map[] && rateLimiter.hourRequests == map[]
    {
      this.config := config;
      rateLimiter := new RateLimiter(config.rateLimitPerUserPerMinute, config.rateLimitPerUserPerHour);
    }

    /** The webhook check as the manager applies it: skipped when validation is disabled. */
    predicate Authentic(request: Request, sign: (string, string) -> string, quote: string -> string) {
      !config.webhookValidationEnabled || ValidateRequest(request, config.twilioAuthToken, sign, quote)
    }

    /** `validate_and_sanitize_request`: a bad signature (when validation is
        enabled) is refused before anything else happens; then the form is
        sanitised; then a non-empty sender is rate-limited. */
    method ValidateAndSanitizeRequest(request: Request, sign: (string, string) -> string,
                                      quote: string -> string, now: int)
      returns (r: Result<SanitizedRequest>)
      requires rateLimiter.Valid()
      modifies rateLimiter
      ensures rateLimiter.Valid()
      ensures !Authentic(request, sign, quote) ==>
                r == Err(Error(TwilioValidationError, "Invalid Twilio webhook signature")) && unchanged(rateLimiter)
      ensures Authentic(request, sign, quote) && (Sanitize(request.form).Err? || Sanitize(request.form).value.fromNumber == "") ==>
                r == Sanitize(request.form) && unchanged(rateLimiter)
      ensures Authentic(request, sign, quote) && Sanitize(request.form).Ok? && Sanitize(request.form).value.fromNumber != "" ==>
                var user := Sanitize(request.form).value.fromNumber;
                && (r.Ok? <==> old(rateLimiter.Admits(user, now)))
                && (r.Ok? ==> r == Sanitize(request.form))
                && (r.Err? ==> r.error.kind == RateLimitError)
                && rateLimiter.minuteRequests == old(rateLimiter.MinuteAfter(user, now))
                && rateLimiter.hourRequests == old(rateLimiter.HourAfter(user, now))
    {
      if !Authentic(request, sign, quote) {
        return Err(Error(TwilioValidationError, "Invalid Twilio webhook signature"));
      }
      r := Sanitize(request.form);
      if r.Ok? {
        r := RateLimitSender(r.value, now);
      }
    }

    /** The rate-limit step: a request with an empty sender is not counted. */
    method RateLimitSender(request: SanitizedRequest, now: int) returns (r: Result<SanitizedRequest>)
      requires rateLimiter.Valid()
      modifies rateLimiter
      ensures rateLimiter.Valid()
      ensures request.fromNumber == "" ==> r == Ok(request) && unchanged(rateLimiter)
      ensures request.fromNumber != "" ==>
                && (r.Ok? <==> old(rateLimiter.Admits(request.fromNumber, now)))
                && (r.Ok? ==> r == Ok(request))
                && (r.Err? ==> r.error.kind == RateLimitError)
                && rateLimiter.minuteRequests == old(rateLimiter.MinuteAfter(request.fromNumber, now))
                && rateLimiter.hourRequests == old(rateLimiter.HourAfter(request.fromNumber, now))
    {
      r := Ok(request);
      if request.fromNumber != "" {
        var checked := rateLimiter.CheckRateLimit(request.fromNumber, now);
        if checked.Fail? {
          r := Err(checked.error);
        }
      }
    }
  }
}
