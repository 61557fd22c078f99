/**
 * The helpers of googlechat/main.go: recognising a `/kudos` message, checking
 * the required configuration, and the per-client sliding-window rate limiter.
 * Time is an integer count of nanoseconds.
 */
module GoogleChatMain {
  import opened Wrappers
  import opened GoStrings
  import opened Middleware
  import opened GoTime

  // -----------------------------------------------------------------------
  // isKudosCommand (googlechat/main.go:200-207)

  const KudosCommand: string := "/kudos"

  /** isKudosCommand: too short a text is never a command, and a command starts with "/kudos". */
  function IsKudosCommand(text: string): (b: bool)
    ensures |text| < 6 ==> !b
    ensures b ==> HasPrefix(text, KudosCommand)
  {
    if |text| < 6 then false
    else text == KudosCommand || (text[..6] == KudosCommand && (|text| == 6 || text[6] == ' '))
  }

  /** A message is a command exactly when it is "/kudos" alone or "/kudos" followed by a space. */
  lemma IsKudosCommandIff(text: string)
    ensures IsKudosCommand(text) <==> text == KudosCommand || HasPrefix(text, KudosCommand + " ")
  {
    if HasPrefix(text, KudosCommand + " ") {
      assert text[..6] == (KudosCommand + " ")[..6] == KudosCommand;
      assert text[6] == text[..7][6];
    }
    if IsKudosCommand(text) && text != KudosCommand {
      assert text[..7] == text[..6] + [text[6]];
    }
  }

  /** A message the predicate accepts splits into "/kudos" followed by the arguments. */
  lemma KudosCommandFirstField(text: string)
    requires IsKudosCommand(text)
    ensures Fields(text) == [KudosCommand] + Fields(text[6..])
  {
    assert text[..6] == KudosCommand;
    assert text == KudosCommand + text[6..];
    assert IsWord(KudosCommand);
    FieldsOfWordThen(KudosCommand, text[6..]);
  }

  // -----------------------------------------------------------------------
  // validateConfiguration (googlechat/main.go:16-31)

  const ClientIdName: string := "GOOGLE_CLIENT_ID"
  const ClientSecretName: string := "GOOGLE_CLIENT_SECRET"
  const ProjectIdName: string := "GOOGLE_PROJECT_ID"

  /** The map of required settings, by environment variable name. */
  function Required(clientId: string, clientSecret: string, projectId: string): (m: map<string, string>)
    ensures m.Keys == {ClientIdName, ClientSecretName, ProjectIdName}
  {
    map[ClientIdName := clientId, ClientSecretName := clientSecret, ProjectIdName := projectId]
  }

  function MissingMessage(name: string): string {
    "required environment variable " + name + " is not set"
  }

  /**
   * The loop over the map. Go visits a map in an unspecified order, so the
   * order of the names is a parameter: any ordering of the keys.
   */
  method ValidateConfiguration(clientId: string, clientSecret: string, projectId: string, order: seq<string>) returns (err: Option<string>)
    requires multiset(order) == multiset{ClientIdName, ClientSecretName, ProjectIdName}
    ensures var m := Required(clientId, clientSecret, projectId);
      && (err.None? <==> clientId != "" && clientSecret != "" && projectId != "")
      && (err.Some? ==> exists k :: 0 <= k < |order| && m[order[k]] == "" && err.value == MissingMessage(order[k])
                                     && forall j :: 0 <= j < k ==> m[order[j]] != "")
  {
    var required := Required(clientId, clientSecret, projectId);
    assert forall j :: 0 <= j < |order| ==> order[j] in multiset(order);
    var i := 0;
    while i < |order|
      invariant 0 <= i <= |order|
      invariant forall j :: 0 <= j < i ==> required[order[j]] != ""
    {
      if required[order[i]] == "" {
        return Some(MissingMessage(order[i]));
      }
      i := i + 1;
    }
    assert ClientIdName in multiset(order) && ClientSecretName in multiset(order) && ProjectIdName in multiset(order);
    return None;
  }

  // -----------------------------------------------------------------------
  // rateLimitMiddleware (googlechat/main.go:33-65)

  /** At most this many requests per client within a minute (googlechat/main.go:54). */
  const MaxRequests: nat := 30

  /** The timestamps that are less than a minute old, in their order. */
  function Recent(times: seq<int>, now: int): (r: seq<int>)
    ensures |r| <= |times|
    ensures forall i :: 0 <= i < |r| ==> now - r[i] < Minute && r[i] in times
    ensures forall i :: 0 <= i < |times| && now - times[i] < Minute ==> times[i] in r
  {
    if times == [] then []
    else
      var init := times[..|times| - 1];
      var last := times[|times| - 1];
      var kept := Recent(init, now);
      assert forall i :: 0 <= i < |times| - 1 ==> init[i] == times[i];
      if now - last < Minute then kept + [last] else kept
  }

  /** Each recent timestamp is kept as often as it is stored, and no other is kept. */
  lemma {:induction false} RecentCounts(times: seq<int>, now: int)
    ensures forall x :: multiset(Recent(times, now))[x] == if now - x < Minute then multiset(times)[x] else 0
  {
    if times != [] {
      var init := times[..|times| - 1];
      var last := times[|times| - 1];
      RecentCounts(init, now);
      assert times == init + [last];
      assert multiset(times) == multiset(init) + multiset{last};
    }
  }

  /** The list stored for a client; Go reads a missing key as an empty slice. */
  function Window(requests: map<string, seq<int>>, ip: string): seq<int> {
    if ip in requests then requests[ip] else []
  }

  /** The map after the clean-up step: only an existing entry for the client is filtered. */
  function Pruned(requests: map<string, seq<int>>, ip: string, now: int): map<string, seq<int>> {
    if ip in requests then requests[ip := Recent(requests[ip], now)] else requests
  }

  /** No client has more than the limit stored. */
  predicate Bounded(requests: map<string, seq<int>>) {
    forall ip :: ip in requests ==> |requests[ip]| <= MaxRequests
  }

  /** The decision and the new map for one request. */
  datatype Step = Step(verdict: Verdict, requests: map<string, seq<int>>)

  function Throttle(requests: map<string, seq<int>>, ip: string, now: int): (r: Step)
    ensures Bounded(requests) ==> Bounded(r.requests)
    ensures r.verdict == Next || r.verdict == Abort(StatusTooManyRequests)
    ensures r.verdict.Abort? <==> |Recent(Window(requests, ip), now)| >= MaxRequests
    ensures r.verdict == Next ==> Window(r.requests, ip) == Recent(Window(requests, ip), now) + [now]
    ensures r.verdict.Abort? ==> Window(r.requests, ip) == Recent(Window(requests, ip), now)
    ensures forall other :: other != ip ==> (other in r.requests <==> other in requests)
    ensures forall other :: other != ip && other in requests ==> r.requests[other] == requests[other]
  {
    var pruned := Pruned(requests, ip, now);
    if |Window(pruned, ip)| >= MaxRequests then Step(Abort(StatusTooManyRequests), pruned)
    else Step(Next, pruned[ip := Window(pruned, ip) + [now]])
  }

  /** After an accepted request the client's stored list holds at most the limit, all from the last minute. */
  lemma AcceptedWithinLimit(requests: map<string, seq<int>>, ip: string, now: int)
    ensures var s := Throttle(requests, ip, now);
      var w := Window(s.requests, ip);
      s.verdict == Next ==>
        |w| <= MaxRequests && (forall i :: 0 <= i < |w| ==> now - w[i] < Minute) && w[|w| - 1] == now
  {
    var s := Throttle(requests, ip, now);
    if s.verdict == Next {
      var w := Window(s.requests, ip);
      var r := Recent(Window(requests, ip), now);
      assert w == r + [now];
      forall i | 0 <= i < |w| ensures now - w[i] < Minute {
        if i < |r| { assert w[i] == r[i]; }
      }
    }
  }

  /** A rejected request does not count: repeating it at the same instant is rejected again and changes nothing further. */
  lemma RejectionIsStable(requests: map<string, seq<int>>, ip: string, now: int)
    ensures var s := Throttle(requests, ip, now);
      s.verdict.Abort? ==> Throttle(s.requests, ip, now) == s
  {
    PrunedIsIdempotent(requests, ip, now);
  }

  /** The clean-up step changes nothing the second time. */
  lemma PrunedIsIdempotent(requests: map<string, seq<int>>, ip: string, now: int)
    ensures Pruned(Pruned(requests, ip, now), ip, now) == Pruned(requests, ip, now)
  {
    if ip in requests {
      RecentIsIdempotent(requests[ip], now);
      var p := Pruned(requests, ip, now);
      assert p[ip := Recent(p[ip], now)] == p;
    }
  }

  lemma {:induction false} RecentIsIdempotent(times: seq<int>, now: int)
    ensures Recent(Recent(times, now), now) == Recent(times, now)
  {
    if times != [] {
      var init := times[..|times| - 1];
      var last := times[|times| - 1];
      RecentIsIdempotent(init, now);
      var kept := Recent(init, now);
      if now - last < Minute {
        var r := kept + [last];
        assert r[..|r| - 1] == kept;
      }
    }
  }

  class RateLimiter {
    /** The requests map captured by the middleware closure. */
    var requests: map<string, seq<int>>

    predicate Valid()
      reads this
    {
      Bounded(requests)
    }

    constructor ()
      ensures Valid() && requests == map[]
    {
      requests := map[];
    }

    /** One request from `ip` at time `now` (googlechat/main.go:38-64). */
    method Handle(ip: string, now: int) returns (verdict: Verdict)
      requires Valid()
      modifies this
      ensures Valid()
      ensures Step(verdict, requests) == Throttle(old(requests), ip, now)
    {
      if ip in requests {
        var times := requests[ip];
        var recent: seq<int> := [];
        var i := 0;
        while i < |times|
          invariant 0 <= i <= |times|
          invariant recent == Recent(times[..i], now)
        {
          assert times[..i + 1][..i] == times[..i];
          if now - times[i] < Minute {
            recent := recent + [times[i]];
          }
          i := i + 1;
        }
        assert times[..i] == times;
        requests := requests[ip := recent];
      }
      if |Window(requests, ip)| >= MaxRequests {
        return Abort(StatusTooManyRequests);
      }
      requests := requests[ip := Window(requests, ip) + [now]];
      verdict := Next;
    }
  }
}
