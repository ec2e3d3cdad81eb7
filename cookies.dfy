/** The `cookie` command's decision logic: which browser cookies belong to
    the platform, when a login counts as complete, the polling loop that
    waits for it, and the rendering of what was captured. The browser, the
    clock and the close-signal race are outside the model; the cookie jar and
    the clock are given as the sequences of values they return. */
module CookieCapture {
  import opened Wrappers
  import opened Text
  import opened Seqs
  import opened Platforms

  /** A browser cookie as the automation library reports it. */
  datatype Cookie = Cookie(name: Option<string>, value: string, domain: Option<string>)

  datatype CaptureError = LoginTimeout | NoCookiesCaptured

  /** `String(c.domain || "")`: a missing domain reads as the empty string. */
  function DomainText(c: Cookie): string
  {
    c.domain.GetOr("")
  }

  /** The test inside `filter`: the cookie's lower-cased domain ends with the
      suffix, which the caller has already lower-cased. */
  predicate MatchesSuffix(c: Cookie, lowerSuffix: string)
  {
    EndsWith(Lower(DomainText(c)), lowerSuffix)
  }

  /** The cookies of one jar snapshot that belong to the platform. */
  function FilterByDomain(cookies: seq<Cookie>, lowerSuffix: string): seq<Cookie>
  {
    Filter(cookies, c => MatchesSuffix(c, lowerSuffix))
  }

  /** A kept cookie is one whose domain ends with the platform suffix with
      case ignored on both sides; a cookie without a domain is never kept for
      a non-empty suffix; the kept cookies keep their jar order. */
  lemma FilterByDomainSpec(a: seq<Cookie>, b: seq<Cookie>, domain: string)
    ensures forall c :: c in FilterByDomain(a, Lower(domain)) <==>
              c in a && EndsWith(Lower(DomainText(c)), Lower(domain))
    ensures forall c :: c in a && c.domain.None? && domain != "" ==> c !in FilterByDomain(a, Lower(domain))
    ensures FilterByDomain(a + b, Lower(domain)) == FilterByDomain(a, Lower(domain)) + FilterByDomain(b, Lower(domain))
  {
    FilterConcat(a, b, c => MatchesSuffix(c, Lower(domain)));
  }

  /** A cookie has a usable name: `cookie.name?.toLowerCase()` is truthy. */
  predicate HasName(c: Cookie)
  {
    Truthy(c.name)
  }

  /** The set of lower-cased, non-empty cookie names. */
  function CookieNames(cookies: seq<Cookie>): set<string>
  {
    set c | c in cookies && HasName(c) :: Lower(c.name.value)
  }

  /** `hasRequired`: `required.every(name => names.has(name.toLowerCase()))`,
      evaluated left to right. */
  predicate HasRequired(cookies: seq<Cookie>, required: seq<string>)
    decreases |required|
  {
    |required| == 0 || (Lower(required[0]) in CookieNames(cookies) && HasRequired(cookies, required[1..]))
  }

  /** `hasRequired` holds exactly when every required name, lower-cased, is
      the lower-cased name of some named cookie; in particular it always holds
      for an empty required list. */
  lemma {:induction false} HasRequiredIff(cookies: seq<Cookie>, required: seq<string>)
    ensures HasRequired(cookies, required) <==>
              forall i :: 0 <= i < |required| ==> Lower(required[i]) in CookieNames(cookies)
    decreases |required|
  {
    if |required| > 0 {
      HasRequiredIff(cookies, required[1..]);
      assert forall i :: 1 <= i < |required| ==> required[i] == required[1..][i - 1];
    }
  }

  /** The check ignores case: lower-casing the required names does not change
      its answer. */
  lemma {:induction false} HasRequiredIgnoresCase(cookies: seq<Cookie>, required: seq<string>)
    ensures HasRequired(cookies, seq(|required|, i requires 0 <= i < |required| => Lower(required[i])))
            == HasRequired(cookies, required)
  {
    var lowered := seq(|required|, i requires 0 <= i < |required| => Lower(required[i]));
    HasRequiredIff(cookies, required);
    HasRequiredIff(cookies, lowered);
    forall i | 0 <= i < |required| ensures Lower(lowered[i]) == Lower(required[i]) {
      LowerIdempotent(required[i]);
    }
  }

  /** A poll succeeds on a filtered list that is non-empty and holds every
      required name. */
  predicate Accepts(filtered: seq<Cookie>, required: seq<string>)
  {
    |filtered| > 0 && HasRequired(filtered, required)
  }

  /** `Date.now() + timeout * 1000`. */
  function Deadline(start: int, timeout: int): int
  {
    start + timeout * 1000
  }

  /** The clock readings end at or past the deadline: time does pass. */
  predicate ClockReaches(ticks: seq<int>, deadline: int)
  {
    |ticks| > 0 && ticks[|ticks| - 1] >= deadline
  }

  /** What one iteration makes of the jar it reads: the cookies on the
      platform's domain, when they are accepted. */
  function Capture(config: CookiePlatform, jar: seq<Cookie>): (r: Option<seq<Cookie>>)
    ensures r.Some? ==> Accepts(r.value, config.required)
    ensures r.Some? ==> forall c :: c in r.value ==> c in jar && EndsWith(Lower(DomainText(c)), Lower(config.domain))
    ensures r.Some? <==> Accepts(FilterByDomain(jar, Lower(config.domain)), config.required)
  {
    var filtered := FilterByDomain(jar, Lower(config.domain));
    if Accepts(filtered, config.required) then Some(filtered) else None
  }

  /** What each jar snapshot would give, in call order. */
  function Captures(config: CookiePlatform, jars: seq<seq<Cookie>>): (r: seq<Option<seq<Cookie>>>)
    ensures |r| == |jars| && forall j :: 0 <= j < |jars| ==> r[j] == Capture(config, jars[j])
  {
    seq(|jars|, j requires 0 <= j < |jars| => Capture(config, jars[j]))
  }

  /** The polling loop from its `i`-th guard evaluation on, over what each
      iteration would capture: the first capture before the deadline, or
      the timeout. */
  function FirstCapture<T>(deadline: int, ticks: seq<int>, caps: seq<Option<T>>, i: nat)
    : (r: Result<T, CaptureError>)
    requires ClockReaches(ticks, deadline) && |ticks| <= |caps| + 1 && i < |ticks|
    ensures r.Ok? ==> exists j :: i <= j < |caps| && caps[j] == Some(r.value)
    ensures r.Err? ==> r.error == LoginTimeout
    decreases |ticks| - i
  {
    if ticks[i] >= deadline then Err(LoginTimeout)
    else if caps[i].Some? then Ok(caps[i].value)
    else FirstCapture(deadline, ticks, caps, i + 1)
  }

  /** The outcome of the polling loop from its `i`-th guard evaluation on:
      `ticks[i]` is the clock reading of that evaluation and `jars[i]` the jar
      snapshot read in the iteration it lets through. */
  function Poll(config: CookiePlatform, deadline: int, ticks: seq<int>, jars: seq<seq<Cookie>>, i: nat)
    : (r: Result<seq<Cookie>, CaptureError>)
    requires ClockReaches(ticks, deadline) && |ticks| <= |jars| + 1 && i < |ticks|
    ensures r.Ok? ==> Accepts(r.value, config.required)
    ensures r.Ok? ==> forall c :: c in r.value ==> EndsWith(Lower(DomainText(c)), Lower(config.domain))
    ensures r.Err? ==> r.error == LoginTimeout
  {
    FirstCapture(deadline, ticks, Captures(config, jars), i)
  }

  /** One guard evaluation before the deadline: a capture ends the loop,
      otherwise the next guard evaluation decides. */
  lemma FirstCaptureStep<T>(deadline: int, ticks: seq<int>, caps: seq<Option<T>>, i: nat)
    requires ClockReaches(ticks, deadline) && |ticks| <= |caps| + 1 && i < |ticks| && ticks[i] < deadline
    ensures i < |caps| && i + 1 < |ticks|
    ensures caps[i].Some? ==> FirstCapture(deadline, ticks, caps, i) == Ok(caps[i].value)
    ensures caps[i].None? ==> FirstCapture(deadline, ticks, caps, i) == FirstCapture(deadline, ticks, caps, i + 1)
  {
  }

  /** Once the `k`-th iteration is the first to capture before the deadline,
      the loop returns that capture. */
  lemma {:induction false} FirstCaptureAt<T>(deadline: int, ticks: seq<int>, caps: seq<Option<T>>, i: nat, k: nat)
    requires ClockReaches(ticks, deadline) && |ticks| <= |caps| + 1 && i <= k < |ticks|
    requires forall j :: i <= j < k ==> ticks[j] < deadline && j < |caps| && caps[j].None?
    requires ticks[k] < deadline && k < |caps| && caps[k].Some?
    ensures FirstCapture(deadline, ticks, caps, i) == Ok(caps[k].value)
    decreases k - i
  {
    if i < k {
      FirstCaptureAt(deadline, ticks, caps, i + 1, k);
    }
  }

  /** Once the clock passes the deadline at the `k`-th guard evaluation with
      nothing captured before, the loop times out. */
  lemma {:induction false} FirstCaptureExpires<T>(deadline: int, ticks: seq<int>, caps: seq<Option<T>>, i: nat, k: nat)
    requires ClockReaches(ticks, deadline) && |ticks| <= |caps| + 1 && i <= k < |ticks|
    requires forall j :: i <= j < k ==> ticks[j] < deadline && j < |caps| && caps[j].None?
    requires ticks[k] >= deadline
    ensures FirstCapture(deadline, ticks, caps, i) == Err(LoginTimeout)
    decreases k - i
  {
    if i < k {
      FirstCaptureExpires(deadline, ticks, caps, i + 1, k);
    }
  }

  /** The `j`-th guard evaluation comes before the deadline and the jar read
      in that iteration is not accepted. */
  predicate Rejects(config: CookiePlatform, deadline: int, ticks: seq<int>, jars: seq<seq<Cookie>>, j: int)
  {
    0 <= j < |ticks| && j < |jars| && ticks[j] < deadline &&
    !Accepts(FilterByDomain(jars[j], Lower(config.domain)), config.required)
  }

  /** If the `k`-th poll is the first one whose filtered jar is accepted, and
      it happens before the deadline, the loop returns exactly that filtered
      jar. */
  lemma PollCapturesFirstAccepted(
    config: CookiePlatform, deadline: int, ticks: seq<int>, jars: seq<seq<Cookie>>, i: nat, k: nat)
    requires ClockReaches(ticks, deadline) && |ticks| <= |jars| + 1 && i <= k < |ticks|
    requires forall j :: i <= j < k ==> Rejects(config, deadline, ticks, jars, j)
    requires ticks[k] < deadline && k < |jars|
    requires Accepts(FilterByDomain(jars[k], Lower(config.domain)), config.required)
    ensures Poll(config, deadline, ticks, jars, i) == Ok(FilterByDomain(jars[k], Lower(config.domain)))
  {
    var caps := Captures(config, jars);
    forall j | i <= j < k
      ensures ticks[j] < deadline && j < |caps| && caps[j].None?
    {
      assert Rejects(config, deadline, ticks, jars, j);
    }
    FirstCaptureAt(deadline, ticks, caps, i, k);
  }

  /** If the clock passes the deadline at the `k`-th guard evaluation and no
      earlier poll was accepted, the loop fails with the timeout error. */
  lemma PollTimesOut(
    config: CookiePlatform, deadline: int, ticks: seq<int>, jars: seq<seq<Cookie>>, i: nat, k: nat)
    requires ClockReaches(ticks, deadline) && |ticks| <= |jars| + 1 && i <= k < |ticks|
    requires forall j :: i <= j < k ==> Rejects(config, deadline, ticks, jars, j)
    requires ticks[k] >= deadline
    ensures Poll(config, deadline, ticks, jars, i) == Err(LoginTimeout)
  {
    var caps := Captures(config, jars);
    forall j | i <= j < k
      ensures ticks[j] < deadline && j < |caps| && caps[j].None?
    {
      assert Rejects(config, deadline, ticks, jars, j);
    }
    FirstCaptureExpires(deadline, ticks, caps, i, k);
  }

  /** `waitForCookie`: poll the jar until the platform's cookies are complete
      or the deadline passes. `start` is the clock reading that fixes the
      deadline; `ticks` are the readings of the loop guard, `jars` the jar
      snapshots, in call order. */
  method WaitForCookie(config: CookiePlatform, timeout: int, start: int, ticks: seq<int>, jars: seq<seq<Cookie>>)
    returns (r: Result<seq<Cookie>, CaptureError>)
    requires ClockReaches(ticks, Deadline(start, timeout)) && |ticks| <= |jars| + 1
    ensures r == Poll(config, Deadline(start, timeout), ticks, jars, 0)
    ensures r.Ok? ==> Accepts(r.value, config.required)
    ensures r.Ok? ==> forall c :: c in r.value ==> EndsWith(Lower(DomainText(c)), Lower(config.domain))
  {
    var deadline := Deadline(start, timeout);
    var suffix := Lower(config.domain);
    ghost var caps := Captures(config, jars);
    assert Poll(config, deadline, ticks, jars, 0) == FirstCapture(deadline, ticks, caps, 0);
    var i := 0;
    while ticks[i] < deadline
      invariant 0 <= i < |ticks|
      invariant FirstCapture(deadline, ticks, caps, i) == FirstCapture(deadline, ticks, caps, 0)
      decreases |ticks| - i
    {
      var cookies := jars[i];
      var filtered := FilterByDomain(cookies, suffix);
      assert caps[i] == Capture(config, cookies);
      FirstCaptureStep(deadline, ticks, caps, i);
      if |filtered| > 0 && HasRequired(filtered, config.required) {
        assert caps[i] == Some(filtered);
        return Ok(filtered);
      }
      assert caps[i] == None;
      i := i + 1;
    }
    return Err(LoginTimeout);
  }

  /** What `formatCookies` produces: the header string, or, for `json`, the
      records handed to the JSON serialiser. */
  datatype Rendered = Header(text: string) | Json(records: seq<Cookie>)

  /** `${cookie.name}` in a template literal: a missing name prints as
      `undefined`. */
  function NameText(c: Cookie): string
  {
    c.name.GetOr("undefined")
  }

  /** `${cookie.name}=${cookie.value}`. */
  function Pair(c: Cookie): string
  {
    NameText(c) + "=" + c.value
  }

  function Pairs(cookies: seq<Cookie>): seq<string>
  {
    seq(|cookies|, i requires 0 <= i < |cookies| => Pair(cookies[i]))
  }

  /** `formatCookies`. */
  function FormatCookies(cookies: seq<Cookie>, format: string): (r: Result<Rendered, CaptureError>)
    ensures r.Err? <==> |cookies| == 0
    ensures r.Err? ==> r.error == NoCookiesCaptured
    ensures r.Ok? && format == "json" ==> r.value == Json(cookies)
    ensures r.Ok? && format != "json" ==> r.value.Header?
  {
    if |cookies| == 0 then Err(NoCookiesCaptured)
    else if format == "json" then Ok(Json(cookies))
    else Ok(Header(JoinWith(Pairs(cookies), "; ")))
  }

  /** Index of the first `"; "` separator in `s`, or `|s|` when there is none. */
  function SeparatorAt(s: string): (k: nat)
    ensures k <= |s|
    ensures k < |s| ==> k + 1 < |s| && s[k] == ';' && s[k + 1] == ' '
    ensures forall j :: 0 <= j < k && j + 1 < |s| ==> !(s[j] == ';' && s[j + 1] == ' ')
    decreases |s|
  {
    if |s| < 2 then |s|
    else if s[0] == ';' && s[1] == ' ' then 0
    else 1 + SeparatorAt(s[1..])
  }

  /** Splits a cookie header at every `"; "`, the reading a client of the
      header applies to it. */
  function SplitHeader(s: string): (parts: seq<string>)
    ensures |parts| > 0
    decreases |s|
  {
    var k := SeparatorAt(s);
    if k == |s| then [s] else [s[..k]] + SplitHeader(s[k + 2..])
  }

  lemma SeparatorAbsent(p: string)
    requires ';' !in p
    ensures SeparatorAt(p) == |p|
  {
  }

  lemma {:induction false} SeparatorAfter(p: string, rest: string)
    requires ';' !in p
    ensures SeparatorAt(p + "; " + rest) == |p|
    decreases |p|
  {
    var s := p + "; " + rest;
    if |p| > 0 {
      assert s[0] == p[0];
      assert s[1..] == p[1..] + "; " + rest;
      SeparatorAfter(p[1..], rest);
    }
  }

  /** Splitting `p; rest` with no `;` in `p` gives `p` and then the pieces of
      `rest`. */
  lemma SplitAfterFirst(p: string, rest: string)
    requires ';' !in p
    ensures SplitHeader(p + "; " + rest) == [p] + SplitHeader(rest)
  {
    var s := p + "; " + rest;
    SeparatorAfter(p, rest);
    assert s[..|p|] == p;
    assert s[|p| + 2..] == rest;
  }

  lemma {:induction false} SplitJoin(parts: seq<string>)
    requires |parts| > 0
    requires forall i :: 0 <= i < |parts| ==> ';' !in parts[i]
    ensures SplitHeader(JoinWith(parts, "; ")) == parts
    decreases |parts|
  {
    if |parts| == 1 {
      SeparatorAbsent(parts[0]);
    } else {
      assert JoinWith(parts, "; ") == parts[0] + "; " + JoinWith(parts[1..], "; ");
      SplitAfterFirst(parts[0], JoinWith(parts[1..], "; "));
      SplitJoin(parts[1..]);
      assert [parts[0]] + parts[1..] == parts;
    }
  }

  /** The header form lists one `name=value` piece per captured cookie, in
      capture order, joined by `"; "`: as long as no name or value holds a
      `;` (which cookie syntax forbids), splitting the header at its
      separators gives back exactly those pieces, so it has `n - 1`
      separators for `n` cookies. */
  lemma HeaderRoundTrip(cookies: seq<Cookie>)
    requires |cookies| > 0
    requires forall i :: 0 <= i < |cookies| ==> ';' !in NameText(cookies[i]) && ';' !in cookies[i].value
    ensures FormatCookies(cookies, "header").Ok?
    ensures SplitHeader(FormatCookies(cookies, "header").value.text) == Pairs(cookies)
    ensures |SplitHeader(FormatCookies(cookies, "header").value.text)| == |cookies|
  {
    var ps := Pairs(cookies);
    forall i | 0 <= i < |ps| ensures ';' !in ps[i] {
      assert ps[i] == NameText(cookies[i]) + "=" + cookies[i].value;
    }
    SplitJoin(ps);
  }
}
