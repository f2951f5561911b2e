/**
 The daemon client's retry loop against a daemon that may lose responses: two independent retry budgets,
 one idempotency key, and the daemon's durable ledger that makes a repeated mutation harmless.
 */
module DaemonClient {
  import opened Basics

  const TTL := 30 * 60

  datatype Method = Get | Head | Post | Put | Patch | Delete

  datatype Request = Request(verb: Method, uri: string, body: Option<string>, replayable: bool, key: string, digest: string)

  datatype Policy = Policy(connectionBackoffs: seq<nat>, serverBackoffs: seq<nat>, retryMutations: bool)

  /** What one attempt looks like to the client. */
  datatype Outcome = Refused(connection: bool) | CutOff(connection: bool) | Replied(status: nat)

  datatype Reply = Response(status: nat) | Failure

  predicate Mutating(r: Request) {
    r.verb.Post? || r.verb.Put? || r.verb.Patch? || r.verb.Delete?
  }

  // ----- the daemon's ledger -----

  /** Until when a key's claim lasts; what was answered is not needed here. */
  type Ledger = map<string, int>

  /** `ClaimAgentdRequest`: expired claims are dropped, then the key is claimed if it is free. */
  function Claim(l: Ledger, key: string, now: int): (Ledger, bool) {
    var live := map k | k in l && now < l[k] :: l[k];
    if key in live then (live, false) else (live[key := now + TTL], true)
  }

  /** The ledger after arrivals of one key at these times. */
  function After(l: Ledger, key: string, times: seq<int>): Ledger
    decreases |times|
  {
    if times == [] then l else After(Claim(l, key, times[0]).0, key, times[1..])
  }

  /** How often those arrivals win the claim, and so may run the operation. */
  function Runs(l: Ledger, key: string, times: seq<int>): nat
    decreases |times|
  {
    if times == [] then 0
    else (if Claim(l, key, times[0]).1 then 1 else 0) + Runs(Claim(l, key, times[0]).0, key, times[1..])
  }

  lemma {:induction false} OneMore(l: Ledger, key: string, times: seq<int>, t: int)
    ensures After(l, key, times + [t]) == Claim(After(l, key, times), key, t).0
    ensures Runs(l, key, times + [t]) == Runs(l, key, times) + if Claim(After(l, key, times), key, t).1 then 1 else 0
    decreases |times|
  {
    assert (times + [t])[1..] == if times == [] then [] else times[1..] + [t];
    if times != [] { OneMore(Claim(l, key, times[0]).0, key, times[1..], t); }
  }

  predicate Ascending(times: seq<int>) {
    forall i, j :: 0 <= i < j < |times| ==> times[i] <= times[j]
  }

  lemma RestAscending(times: seq<int>)
    requires times != [] && Ascending(times)
    ensures Ascending(times[1..])
  {
  }

  lemma {:induction false} RunsWhileClaimed(l: Ledger, key: string, times: seq<int>)
    requires Ascending(times) && key in l
    ensures times != [] && times[|times| - 1] >= l[key] ==> Runs(l, key, times) >= 1
    ensures times == [] || times[|times| - 1] < l[key] ==> Runs(l, key, times) == 0
    decreases |times|
  {
    if times != [] && times[0] < l[key] {
      RestAscending(times);
      RunsWhileClaimed(Claim(l, key, times[0]).0, key, times[1..]);
    }
  }

  /** Arrivals within one claim's lifetime run the operation at most once, whatever the ledger held before. */
  lemma {:induction false} AtMostOnceWithin(l: Ledger, key: string, times: seq<int>)
    requires Ascending(times) && (times == [] || times[|times| - 1] < times[0] + 1800)
    ensures Runs(l, key, times) <= 1
    decreases |times|
  {
    if times != [] {
      RestAscending(times);
      var (l', won) := Claim(l, key, times[0]);
      if won { RunsWhileClaimed(l', key, times[1..]); } else { AtMostOnceWithin(l', key, times[1..]); }
    }
  }

  /**
   The ledger's guarantee, exactly: a fresh key's operation runs at most once if and only if its last
   arrival is within the claim's lifetime of the first.
   */
  lemma AtMostOnceExactly(l: Ledger, key: string, times: seq<int>)
    requires Ascending(times) && key !in l
    ensures Runs(l, key, times) <= 1 <==> times == [] || times[|times| - 1] < times[0] + 1800
  {
    if times != [] {
      RestAscending(times);
      RunsWhileClaimed(Claim(l, key, times[0]).0, key, times[1..]);
    }
  }

  /** How many arrivals are let through to the operation. */
  function Granted(covered: bool, l: Ledger, key: string, times: seq<int>): nat {
    if covered then Runs(l, key, times) else |times|
  }

  lemma OneMoreGranted(covered: bool, l: Ledger, key: string, times: seq<int>, t: int)
    ensures After(l, key, times + [t]) == Claim(After(l, key, times), key, t).0
    ensures Granted(covered, l, key, times + [t])
      == Granted(covered, l, key, times) + if !covered || Claim(After(l, key, times), key, t).1 then 1 else 0
    ensures Ascending(times) && (forall i :: 0 <= i < |times| ==> times[i] <= t) ==> Ascending(times + [t])
  {
    OneMore(l, key, times, t);
  }

  /**
   At most once, exactly: with a fresh key at most one arrival is let through if and only if at most one arrives, or the
   route is covered and the last arrival is within the claim's lifetime of the first.
   */
  lemma GrantedExactly(covered: bool, l: Ledger, key: string, times: seq<int>)
    requires Ascending(times) && key !in l
    ensures Granted(covered, l, key, times) <= 1 <==> |times| <= 1 || (covered && times[|times| - 1] < times[0] + 1800)
  {
    AtMostOnceExactly(l, key, times);
  }

  // ----- which routes are covered -----

  function PathOf(uri: string): string {
    if uri == [] || uri[0] == '?' then [] else [uri[0]] + PathOf(uri[1..])
  }

  /** `bulkReadRoutes`. */
  const BULK := {"/v1/github/pr/comments", "/v1/github/run/log-failed", "/v1/dashboard/capture", "/v1/gitlab/mr/comments", "/v1/gitlab/job/log-failed"}

  /** `isEnrollmentCredentialRoute`. */
  const ENROLLMENT := {"/v1/federation/enroll-tokens", "/v1/federation/enroll/preview", "/v1/federation/enroll", "/v1/federation/become-node"}

  predicate EndsWith(s: string, end: string) {
    |end| <= |s| && s[|s| - |end|..] == end
  }

  /** `isExternalStewardCredentialRoute`. */
  predicate StewardRoute(path: string) {
    exists root :: root in {"/v1/external-stewards", "/api/external-stewards"} &&
      (path == root || (root + "/" <= path && EndsWith(path[|root| + 1..], "/renew")))
  }

  /** Whether the idempotency middleware looks at a request for this path at all. */
  predicate CoveredRoute(path: string) {
    path !in BULK && path !in ENROLLMENT && !StewardRoute(path) && !("/v1/http/proxy/" <= path) && !("/v1/models/" <= path)
  }

  /** The middleware leaves bulk reads and enrolment alone. */
  lemma RoutesLeftAlone()
    ensures !CoveredRoute("/v1/github/pr/comments") && !CoveredRoute("/v1/github/run/log-failed") && !CoveredRoute("/v1/dashboard/capture")
    ensures !CoveredRoute("/v1/gitlab/mr/comments") && !CoveredRoute("/v1/gitlab/job/log-failed")
    ensures !CoveredRoute("/v1/federation/enroll-tokens") && !CoveredRoute("/v1/federation/enroll/preview")
    ensures !CoveredRoute("/v1/federation/enroll") && !CoveredRoute("/v1/federation/become-node")
  {
    hide StewardRoute;
  }

  /** It leaves the credentials of stewards alone. */
  lemma StewardsLeftAlone(root: string, name: string)
    requires root == "/v1/external-stewards" || root == "/api/external-stewards"
    ensures !CoveredRoute(root) && !CoveredRoute(root + "/" + name + "/renew")
  {
    StewardRoutes(root, name);
    hide StewardRoute;
  }

  lemma StewardRoutes(root: string, name: string)
    requires root == "/v1/external-stewards" || root == "/api/external-stewards"
    ensures StewardRoute(root) && StewardRoute(root + "/" + name + "/renew")
  {
    hide EndsWith;
    var path := root + "/" + name + "/renew";
    assert root in {"/v1/external-stewards", "/api/external-stewards"};
    assert path[|root| + 1..] == name + "/renew" && root + "/" <= path;
    EndsIn(name, "/renew");
  }

  lemma EndsIn(s: string, end: string)
    ensures EndsWith(s + end, end)
  {
  }

  /** It leaves proxied traffic alone. */
  lemma ProxiesLeftAlone(rest: string)
    ensures !CoveredRoute("/v1/http/proxy/" + rest) && !CoveredRoute("/v1/models/" + rest)
  {
    hide StewardRoute;
    assert ("/v1/http/proxy/" + rest)[..|"/v1/http/proxy/"|] == "/v1/http/proxy/";
    assert ("/v1/models/" + rest)[..|"/v1/models/"|] == "/v1/models/";
  }

  /** The daemon behind the socket, as one logical request sees it. */
  class Daemon {
    /** Whether the daemon has the idempotency middleware, which it announces as "v1". */
    const deduplicates: bool
    var now: int
    var ledger: Ledger
    /** The attempts made that have not arrived yet; some of them never will. */
    var underway: nat

    ghost const start: Ledger
    /** The attempts made, when they arrived, how many were let through, and how often the operation was run. */
    ghost var sent: seq<Request>
    /** What each of them looked like to the client. */
    ghost var outcomes: seq<Outcome>
    ghost var arrivals: seq<int>
    ghost var granted: nat
    ghost var runs: nat

    predicate Covers(r: Request) {
      deduplicates && Mutating(r) && r.key != "" && CoveredRoute(PathOf(r.uri))
    }

    /** The ledger has seen exactly these arrivals of a covered request; any other is let through each time. */
    ghost predicate Accounts(r: Request)
      reads this
    {
      && Ascending(arrivals) && (forall i :: 0 <= i < |arrivals| ==> arrivals[i] <= now)
      && underway + |arrivals| <= |sent|
      && (Covers(r) ==> ledger == After(start, r.key, arrivals))
      && granted == Granted(Covers(r), start, r.key, arrivals) && runs <= granted <= |arrivals|
    }

    constructor (deduplicates: bool, now: int, ledger: Ledger)
      ensures this.deduplicates == deduplicates && this.now == now && this.ledger == ledger == start
      ensures Idle()
    {
      this.deduplicates, this.now, this.ledger, start := deduplicates, now, ledger, ledger;
      sent, outcomes, arrivals, granted, runs, underway := [], [], [], 0, 0, 0;
    }

    /** Nothing has been sent yet. */
    ghost predicate Idle()
      reads this
    {
      sent == [] && outcomes == [] && arrivals == [] && granted == 0 && runs == 0 && ledger == start && underway == 0
    }

    /** One attempt: it may arrive at once, later or never, the operation may run, and the answer may be lost. */
    method Deliver(r: Request) returns (o: Outcome)
      modifies this
      ensures sent == old(sent) + [r] && outcomes == old(outcomes) + [o]
      ensures Later(old(now), old(arrivals))
      ensures old(Accounts(r)) ==> Accounts(r)
    {
      sent, underway := sent + [r], underway + 1;
      Pass(r);
      o := *;
      outcomes := outcomes + [o];
    }

    /** There were these arrivals at this time. */
    ghost predicate Later(was: int, before: seq<int>)
      reads this`now, this`arrivals
    {
      now >= was && before <= arrivals && forall i :: |before| <= i < |arrivals| ==> arrivals[i] >= was
    }

    /** Time passes, and attempts that are still under way arrive, the last one or any before it. */
    method Pass(r: Request)
      modifies this`now, this`ledger, this`arrivals, this`granted, this`runs, this`underway
      ensures Later(old(now), old(arrivals))
      ensures old(Accounts(r)) ==> Accounts(r)
    {
      hide Accounts;
      var steps :| steps >= 0;
      for k := 0 to steps
        invariant Later(old(now), old(arrivals))
        invariant old(Accounts(r)) ==> Accounts(r)
      {
        var wait :| wait >= 0;
        Wait(r, wait);
        var arrives: bool := *;
        if arrives && underway > 0 { Arrive(r); }
      }
      var rest :| rest >= 0;
      Wait(r, rest);
    }

    method Wait(r: Request, time: int)
      requires time >= 0
      modifies this`now
      ensures now == old(now) + time
      ensures old(Accounts(r)) ==> Accounts(r)
    {
      now := now + time;
    }

    /** The middleware: a covered request is let through when it wins the claim, any other always. */
    method Arrive(r: Request)
      requires underway > 0
      modifies this`ledger, this`arrivals, this`granted, this`runs, this`underway
      ensures arrivals == old(arrivals) + [now]
      ensures old(Accounts(r)) ==> Accounts(r)
    {
      hide After, Runs, Claim, Covers, Granted, Ascending;
      OneMoreGranted(Covers(r), start, r.key, arrivals, now);
      var (claimed, through) := if Covers(r) then Claim(ledger, r.key, now) else (ledger, true);
      var ran: bool := *;
      ledger, underway, arrivals := claimed, underway - 1, arrivals + [now];
      if through { granted, runs := granted + 1, runs + if ran then 1 else 0; }
    }
  }

  // ----- the client -----

  function Fingerprint(h: string -> string, r: Request): string {
    h(Fingerprinted(r))
  }

  /** What the digest is taken of. */
  function Fingerprinted(r: Request): string {
    VerbName(r.verb) + ['\0'] + r.uri + ['\0'] + BodyOf(r)
  }

  function BodyOf(r: Request): string {
    if r.body.Some? then r.body.value else ""
  }

  function VerbName(v: Method): string {
    match v case Get => "GET" case Head => "HEAD" case Post => "POST" case Put => "PUT" case Patch => "PATCH" case Delete => "DELETE"
  }

  lemma VerbNamed(v: Method, w: Method)
    ensures '\0' !in VerbName(v) && (VerbName(v) == VerbName(w) ==> v == w)
  {
    assert VerbName(v) == VerbName(w) ==> VerbName(v)[0] == VerbName(w)[0] && VerbName(v)[1] == VerbName(w)[1] && |VerbName(v)| == |VerbName(w)|;
  }

  /** The first separator ends the first part. */
  lemma {:induction false} FirstPart(a: string, b: string, x: string, y: string)
    requires '\0' !in a && '\0' !in b && a + ['\0'] + x == b + ['\0'] + y
    ensures a == b && x == y
  {
    assert (a + ['\0'] + x)[0] == (b + ['\0'] + y)[0];
    if a != [] && b != [] {
      assert (a + ['\0'] + x)[1..] == a[1..] + ['\0'] + x && (b + ['\0'] + y)[1..] == b[1..] + ['\0'] + y;
      FirstPart(a[1..], b[1..], x, y);
      assert a == [a[0]] + a[1..] && b == [b[0]] + b[1..];
    } else if a == [] && b == [] {
      assert (a + ['\0'] + x)[1..] == x && (b + ['\0'] + y)[1..] == y;
    }
  }

  /** The digest binds a key to one method, address and body. */
  lemma FingerprintBinds(h: string -> string, r: Request, q: Request)
    requires '\0' !in r.uri && '\0' !in q.uri
    requires h(Fingerprinted(r)) == h(Fingerprinted(q)) ==> Fingerprinted(r) == Fingerprinted(q)
    ensures Fingerprint(h, r) == Fingerprint(h, q) <==> r.verb == q.verb && r.uri == q.uri && BodyOf(r) == BodyOf(q)
  {
    hide VerbName, BodyOf;
    VerbNamed(r.verb, q.verb);
    VerbNamed(q.verb, r.verb);
    if Fingerprint(h, r) == Fingerprint(h, q) {
      InParts(r);
      InParts(q);
      FirstPart(VerbName(r.verb), VerbName(q.verb), r.uri + ['\0'] + BodyOf(r), q.uri + ['\0'] + BodyOf(q));
      FirstPart(r.uri, q.uri, BodyOf(r), BodyOf(q));
    }
  }

  lemma InParts(r: Request)
    ensures Fingerprinted(r) == VerbName(r.verb) + ['\0'] + (r.uri + ['\0'] + BodyOf(r))
  {
    hide VerbName, BodyOf;
  }

  /** `attachIdempotencyKey`. */
  method AttachKey(h: string -> string, r0: Request, fresh_: string) returns (r: Result<Request>)
    requires fresh_ != ""
    ensures r.Ok? ==> r.value == r0.(key := r.value.key, digest := r.value.digest)
    ensures r.Ok? && (r0.verb.Post? || r0.verb.Put? || r0.verb.Patch? || r0.verb.Delete?) ==> r.value.key != "" && r.value.key == (if r0.key == "" then fresh_ else r0.key)
    ensures r.Ok? && (r0.verb.Post? || r0.verb.Put? || r0.verb.Patch? || r0.verb.Delete?) && r0.digest == "" ==> r.value.digest == Fingerprint(h, r0)
    ensures r0.verb.Get? || r0.verb.Head? ==> r == Ok(r0)
    ensures r.Err? ==> r0.body.Some? && !r0.replayable
  {
    if !Mutating(r0) { return Ok(r0); }
    var q := r0;
    if q.key == "" { q := q.(key := fresh_); }
    if q.digest != "" { return Ok(q); }
    if q.body.Some? && !q.replayable { return Err; }
    r := Ok(q.(digest := Fingerprint(h, r0)));
  }

  /** A pause before a retry, in seconds, and whether it was slept to its end. */
  datatype Pause = Pause(delay: nat, slept: bool)

  method Sleep(delay: nat) returns (p: Pause)
    ensures p.delay == delay
  {
    var slept: bool := *;
    p := Pause(delay, slept);
  }

  /** How many of these outcomes were replies, or how many were not. */
  function Tally(os: seq<Outcome>, replies: bool): nat {
    if os == [] then 0 else Tally(os[..|os| - 1], replies) + if os[|os| - 1].Replied? == replies then 1 else 0
  }

  /** Attempt `i` is to be made again: a server error of a read within its budget, or a connection failure within the other one. */
  predicate Retryable(policy: Policy, mutation: bool, os: seq<Outcome>, i: nat)
    requires i < |os|
  {
    if os[i].Replied? then os[i].status >= 500 && !mutation && Tally(os[..i], true) < |policy.serverBackoffs|
    else os[i].connection && (!mutation || policy.retryMutations) && Tally(os[..i], false) < |policy.connectionBackoffs|
  }

  function DelayAfter(policy: Policy, mutation: bool, os: seq<Outcome>, i: nat): nat
    requires i < |os| && Retryable(policy, mutation, os, i)
  {
    if os[i].Replied? then policy.serverBackoffs[Tally(os[..i], true)] else policy.connectionBackoffs[Tally(os[..i], false)]
  }

  /** So far, every attempt was to be made again, behind its own pause. */
  predicate GoesOn(policy: Policy, mutation: bool, os: seq<Outcome>, ps: seq<Pause>) {
    |ps| == |os| && forall i :: 0 <= i < |os| ==> Retryable(policy, mutation, os, i) && ps[i] == Pause(DelayAfter(policy, mutation, os, i), true)
  }

  /** The attempts went on while they were to be made again and the pauses lasted; the caller is given the last reply. */
  predicate Conversation(policy: Policy, mutation: bool, os: seq<Outcome>, ps: seq<Pause>, reply: Reply)
    requires os != []
  {
    var last := |os| - 1;
    && last <= |ps| && GoesOn(policy, mutation, os[..last], ps[..last])
    && if Retryable(policy, mutation, os, last)
       then ps[last..] == [Pause(DelayAfter(policy, mutation, os, last), false)] && reply == Failure
       else |ps| == last && reply == if os[last].Replied? then Response(os[last].status) else Failure
  }

  /** What the loop decides after an outcome, with so many retries of either kind behind it. */
  predicate Again(policy: Policy, mutation: bool, o: Outcome, connections: nat, servers: nat) {
    if o.Replied? then o.status >= 500 && !mutation && servers < |policy.serverBackoffs|
    else o.connection && (!mutation || policy.retryMutations) && connections < |policy.connectionBackoffs|
  }

  function Backoff(policy: Policy, o: Outcome, connections: nat, servers: nat): nat
    requires if o.Replied? then servers < |policy.serverBackoffs| else connections < |policy.connectionBackoffs|
  {
    if o.Replied? then policy.serverBackoffs[servers] else policy.connectionBackoffs[connections]
  }

  /** One more attempt: it ends the conversation, or goes on behind its pause. */
  lemma OnceMore(policy: Policy, mutation: bool, os: seq<Outcome>, ps: seq<Pause>, o: Outcome)
    requires GoesOn(policy, mutation, os, ps)
    ensures Tally(os + [o], true) == Tally(os, true) + if o.Replied? then 1 else 0
    ensures Tally(os + [o], false) == Tally(os, false) + if o.Replied? then 0 else 1
    ensures var again := Again(policy, mutation, o, Tally(os, false), Tally(os, true));
      && (!again ==> Conversation(policy, mutation, os + [o], ps, if o.Replied? then Response(o.status) else Failure))
      && (again ==>
            var delay := Backoff(policy, o, Tally(os, false), Tally(os, true));
            && Conversation(policy, mutation, os + [o], ps + [Pause(delay, false)], Failure)
            && GoesOn(policy, mutation, os + [o], ps + [Pause(delay, true)]))
  {
    hide Tally;
    var more, n := os + [o], |os|;
    assert more[..n] == os && more[n] == o && ps[..n] == ps;
    assert Tally(more, true) == Tally(os, true) + (if o.Replied? then 1 else 0) && Tally(more, false) == Tally(os, false) + (if o.Replied? then 0 else 1) by {
      CountsOn(os, o);
    }
    forall i | 0 <= i < n ensures Retryable(policy, mutation, more, i) && DelayAfter(policy, mutation, more, i) == DelayAfter(policy, mutation, os, i) {
      assert more[..i] == os[..i] && more[i] == os[i];
      assert Retryable(policy, mutation, os, i);
    }
    if Again(policy, mutation, o, Tally(os, false), Tally(os, true)) {
      var delay := Backoff(policy, o, Tally(os, false), Tally(os, true));
      assert Retryable(policy, mutation, more, n) && DelayAfter(policy, mutation, more, n) == delay;
      assert (ps + [Pause(delay, false)])[..n] == ps && (ps + [Pause(delay, false)])[n..] == [Pause(delay, false)];
    }
  }

  lemma CountsOn(os: seq<Outcome>, o: Outcome)
    ensures Tally(os + [o], true) == Tally(os, true) + if o.Replied? then 1 else 0
    ensures Tally(os + [o], false) == Tally(os, false) + if o.Replied? then 0 else 1
  {
    assert (os + [o])[..|os|] == os;
  }

  /** How many arrivals of one request were let through, and when that is at most one. */
  ghost predicate Accounted(daemon: Daemon, q: Request)
    reads daemon
  {
    && daemon.runs <= daemon.granted == Granted(daemon.Covers(q), daemon.start, q.key, daemon.arrivals)
    && (q.key !in daemon.start ==>
          (daemon.granted <= 1 <==>
             |daemon.arrivals| <= 1
             || (daemon.Covers(q) && daemon.arrivals[|daemon.arrivals| - 1] < daemon.arrivals[0] + 1800)))
  }

  /**
   `doDaemonRequest`. Every attempt carries the same request; the two budgets bound the attempts; and an operation is let
   through at most once exactly when it arrives at most once, or is covered and arrives within the claim's lifetime. This is
   said of the time when nothing arrives any more: attempts the client has given up on may do so after it has returned.
   */
  method DoRequest(h: string -> string, daemon: Daemon, r0: Request, policy: Policy, fresh_: string) returns (reply: Reply, pauses: seq<Pause>)
    requires fresh_ != "" && daemon.Idle()
    modifies daemon
    ensures |daemon.sent| <= 1 + |policy.connectionBackoffs| + |policy.serverBackoffs|
    ensures Mutating(r0) ==> |daemon.sent| <= 1 + (if policy.retryMutations then |policy.connectionBackoffs| else 0)
    ensures forall i :: 0 <= i < |daemon.sent| ==>
      && daemon.sent[i].key == daemon.sent[0].key && daemon.sent[i].digest == daemon.sent[0].digest
      && daemon.sent[i] == r0.(key := daemon.sent[i].key, digest := daemon.sent[i].digest)
    ensures Mutating(r0) && |daemon.sent| > 0 ==> daemon.sent[0].key != ""
    ensures |daemon.arrivals| <= |daemon.sent| && (|daemon.sent| == 0 ==> daemon.runs == 0)
    ensures |daemon.sent| > 0 ==> Accounted(daemon, daemon.sent[0])
    // whatever the ledger held before
    ensures |daemon.sent| > 0 && daemon.Covers(daemon.sent[0]) && daemon.now < old(daemon.now) + 1800 ==> daemon.runs <= 1
    ensures Mutating(r0) && (!policy.retryMutations || |policy.connectionBackoffs| == 0) ==> daemon.runs <= 1
    // what the caller is given: nothing is sent exactly if the body cannot be sent again
    ensures |daemon.outcomes| == |daemon.sent| && (daemon.sent == [] <==> r0.body.Some? && !r0.replayable)
    ensures if daemon.outcomes == [] then reply == Failure else Conversation(policy, Mutating(r0), daemon.outcomes, pauses, reply)
  {
    hide Accounted, Fingerprint, Daemon.Accounts, Daemon.Covers, Conversation;
    var attached := AttachKey(h, r0, fresh_);
    if attached.Err? { return Failure, []; }
    var req := attached.value;
    NoneGranted(daemon, req);
    reply, pauses := Attempts(daemon, req, policy);
    daemon.Pass(req);
    FewRuns(daemon, req, old(daemon.now));
  }

  /** The loop of attempts. */
  method Attempts(daemon: Daemon, req: Request, policy: Policy) returns (reply: Reply, pauses: seq<Pause>)
    requires daemon.Idle() && daemon.Accounts(req)
    modifies daemon
    ensures |daemon.sent| <= 1 + |policy.connectionBackoffs| + |policy.serverBackoffs|
    ensures Mutating(req) ==> |daemon.sent| <= 1 + (if policy.retryMutations then |policy.connectionBackoffs| else 0)
    ensures forall i :: 0 <= i < |daemon.sent| ==> daemon.sent[i] == req
    ensures daemon.Accounts(req) && daemon.Later(old(daemon.now), [])
    ensures |daemon.outcomes| == |daemon.sent| && (daemon.sent == [] <==> req.body.Some? && !req.replayable)
    ensures if daemon.outcomes == [] then reply == Failure else Conversation(policy, Mutating(req), daemon.outcomes, pauses, reply)
  {
    hide Daemon.Accounts, GoesOn, Tally, Conversation;
    pauses := [];
    if req.body.Some? && !req.replayable { return Failure, pauses; }
    var mutation := Mutating(req);
    var canRetryConnection := !mutation || policy.retryMutations;
    var connectionRetries, serverRetries := 0, 0;
    NothingYet(policy, mutation);
    while true
      invariant connectionRetries <= |policy.connectionBackoffs| && serverRetries <= |policy.serverBackoffs|
      invariant |daemon.sent| == |daemon.outcomes| == |pauses| == connectionRetries + serverRetries
      invariant mutation ==> serverRetries == 0
      invariant !canRetryConnection ==> connectionRetries == 0
      invariant forall i :: 0 <= i < |daemon.sent| ==> daemon.sent[i] == req
      invariant daemon.Accounts(req) && daemon.Later(old(daemon.now), [])
      invariant GoesOn(policy, mutation, daemon.outcomes, pauses)
      invariant connectionRetries == Tally(daemon.outcomes, false) && serverRetries == Tally(daemon.outcomes, true)
      decreases |policy.connectionBackoffs| + |policy.serverBackoffs| - connectionRetries - serverRetries
    {
      ghost var before := daemon.outcomes;
      var outcome := daemon.Deliver(req);
      OnceMore(policy, mutation, before, pauses, outcome);
      var delay;
      match outcome {
      case Replied(status) =>
        if status < 500 || mutation || serverRetries >= |policy.serverBackoffs| { return Response(status), pauses; }
        delay, serverRetries := policy.serverBackoffs[serverRetries], serverRetries + 1;
      case _ =>
        if !canRetryConnection || !outcome.connection || connectionRetries >= |policy.connectionBackoffs| { return Failure, pauses; }
        delay, connectionRetries := policy.connectionBackoffs[connectionRetries], connectionRetries + 1;
      }
      var pause := Sleep(delay);
      if !pause.slept { return Failure, pauses + [pause]; }
      pauses := pauses + [pause];
    }
  }

  lemma NothingYet(policy: Policy, mutation: bool)
    ensures GoesOn(policy, mutation, [], []) && Tally([], true) == Tally([], false) == 0
  {
  }

  lemma NoneGranted(daemon: Daemon, r: Request)
    requires daemon.Idle()
    ensures daemon.Accounts(r)
  {
    hide CoveredRoute, PathOf;
  }

  lemma FewRuns(daemon: Daemon, r: Request, started: int)
    requires daemon.Accounts(r) && forall i :: 0 <= i < |daemon.arrivals| ==> daemon.arrivals[i] >= started
    ensures daemon.Covers(r) && daemon.now < started + 1800 ==> daemon.runs <= 1
    ensures |daemon.sent| <= 1 ==> daemon.runs <= 1
    ensures Accounted(daemon, r) && |daemon.arrivals| <= |daemon.sent| && (|daemon.sent| == 0 ==> daemon.runs == 0)
  {
    hide CoveredRoute, PathOf;
    if daemon.Covers(r) && daemon.now < started + TTL { AtMostOnceWithin(daemon.start, r.key, daemon.arrivals); }
    if r.key !in daemon.start { GrantedExactly(daemon.Covers(r), daemon.start, r.key, daemon.arrivals); }
  }

  /** `retryPolicyForRequest`: a mutation is only retried against a daemon that announced idempotency "v1". */
  function PolicyFor(r: Request, supported: bool): Policy {
    Policy([1, 2, 4, 8, 16], [1, 2], !Mutating(r) || supported)
  }

  /** A request under the default policy: at most eight attempts, and only one for a mutation nobody deduplicates. */
  method Send(h: string -> string, daemon: Daemon, r: Request, supported: bool, fresh_: string) returns (reply: Reply, pauses: seq<Pause>)
    requires fresh_ != "" && daemon.Idle()
    modifies daemon
    ensures |daemon.sent| <= 8
    ensures Mutating(r) ==> |daemon.sent| <= if supported then 6 else 1
    ensures |daemon.sent| > 0 ==> Accounted(daemon, daemon.sent[0])
    ensures Mutating(r) && !supported ==> daemon.runs <= 1
    ensures |daemon.outcomes| == |daemon.sent| && if daemon.outcomes == [] then reply == Failure
      else Conversation(Policy([1, 2, 4, 8, 16], [1, 2], !Mutating(r) || supported), Mutating(r), daemon.outcomes, pauses, reply)
    ensures |daemon.sent| > 0 && daemon.Covers(daemon.sent[0]) && daemon.now < old(daemon.now) + 1800 ==> daemon.runs <= 1
  {
    hide Conversation;
    reply, pauses := DoRequest(h, daemon, r, PolicyFor(r, supported), fresh_);
  }

  /**
   Support is announced for the daemon, coverage is decided for the route: a dashboard capture is retried like any
   mutation, no claim is made for it, and two arrivals are both let through.
   */
  lemma CaptureRepeats(l: Ledger, key: string, first: int, second: int)
    ensures !CoveredRoute(PathOf("/v1/dashboard/capture"))
    ensures forall r: Request :: Mutating(r) ==> PolicyFor(r, true).retryMutations && |PolicyFor(r, true).connectionBackoffs| == 5
    ensures Granted(CoveredRoute(PathOf("/v1/dashboard/capture")), l, key, [first, second]) == 2
  {
    NoQuery("/v1/dashboard/capture");
  }

  lemma {:induction false} NoQuery(uri: string)
    requires '?' !in uri
    ensures PathOf(uri) == uri
  {
    if uri != [] { NoQuery(uri[1..]); }
  }
}
