/** The sidecar's CIBA poll-mode client (OpenID CIBA Core 1.0, sections 7.3 and 11). Two callers
    share it, the startup wait and the token endpoint; the lock is held for one section at a time,
    so their sections interleave freely. Times are nanoseconds; server replies are arbitrary. */
module Ciba {

  const SECOND := 1_000_000_000

  datatype Client = Client(
    token: string, expiry: int, authReqId: string, reqExpiry: int, interval: int, nextPoll: int, denied: bool)

  const NEW_CLIENT := Client("", 0, "", 0, 0, 0, false)

  datatype InitReply = InitFailed | InitOk(id: string, expiresIn: int, interval: int)

  /** PollFailed is any transport or unrecognized error. */
  datatype PollReply = PollFailed | Granted(token: string, expiresIn: int) | StillPending | SlowDown | AccessDenied | ExpiredToken

  /** Protocol events, with what the client then believes about the request. */
  datatype Event =
    | Initiated(at: int, id: string, expires: int, interval: int, nextPoll: int)
    | Polled(start: int, at: int, byGet: bool, reply: PollReply, id: string, expires: int, interval: int, nextPoll: int)

  /** A token handed out, when, and with how much time left. */
  datatype Serve = Serve(token: string, now: int, left: int, cached: bool)

  /** A client with everything it has done so far. */
  datatype Run = Run(c: Client, proto: seq<Event>, served: seq<Serve>)

  const NEW_RUN := Run(NEW_CLIENT, [], [])

  // The two backchannel calls.

  function AfterInitiate(c: Client, id: string, expiresIn: int, interval: int, t1: int, t2: int): Client {
    c.(authReqId := id, reqExpiry := t1 + expiresIn * SECOND,
       interval := (if interval <= 0 then 5 else interval) * SECOND, nextPoll := t2, denied := false)
  }

  function AfterPoll(c: Client, reply: PollReply, at: int): Client {
    match reply
    case PollFailed => c
    case Granted(token, expiresIn) =>
      c.(token := token, expiry := at + (if expiresIn == 0 then 3600 else expiresIn) * SECOND, authReqId := "")
    case StillPending => c.(nextPoll := at + c.interval)
    case SlowDown => c.(interval := c.interval + 5 * SECOND, nextPoll := at + (c.interval + 5 * SECOND))
    case AccessDenied => c.(authReqId := "", denied := true)
    case ExpiredToken => c.(authReqId := "")
  }

  function Initiate(r: Run, reply: InitReply, t1: int, t2: int): Run {
    match reply
    case InitFailed => r
    case InitOk(id, expiresIn, interval) =>
      var c := AfterInitiate(r.c, id, expiresIn, interval, t1, t2);
      r.(c := c, proto := r.proto + [Initiated(t1, id, c.reqExpiry, c.interval, c.nextPoll)])
  }

  function Poll(r: Run, reply: PollReply, byGet: bool, start: int, at: int): Run {
    var c := AfterPoll(r.c, reply, at);
    r.(c := c, proto := r.proto + [Polled(start, at, byGet, reply, r.c.authReqId, r.c.reqExpiry, c.interval, c.nextPoll)])
  }

  // The sections run under the lock.

  /** Server replies and clock readings met by one section, in the order they are used. */
  datatype Section =
    | WaitStart(init: InitReply, t1: int, t2: int)
    | WaitPoll(poll: PollReply, start: int, at: int)
    | Get(t0: int, t1: int, init: InitReply, t2: int, t3: int, start: int, poll: PollReply, at: int, t4: int)

  function Renew(r: Run, s: Section): Run
    requires s.Get?
  {
    if r.c.authReqId == "" || s.t1 > r.c.reqExpiry then Initiate(r, s.init, s.t2, s.t3) else r
  }

  /** Poll for the request in hand unless it is too early. */
  function Redeem(r: Run, s: Section): Run
    requires s.Get?
  {
    if s.start < r.c.nextPoll then r
    else
      var w := Poll(r, s.poll, true, s.start, s.at);
      if s.poll.Granted? then w.(served := w.served + [Serve(w.c.token, s.t4, w.c.expiry - s.t4, false)]) else w
  }

  function Apply(r: Run, s: Section): Run {
    var c := r.c;
    match s
    case WaitStart(init, t1, t2) =>
      if c.authReqId == "" && c.token == "" && !c.denied then Initiate(r, init, t1, t2) else r
    case WaitPoll(poll, start, at) =>
      if c.denied || c.token != "" || c.authReqId == "" then r else Poll(r, poll, false, start, at)
    case Get(t0, t1, init, t2, t3, start, poll, at, t4) =>
      if c.denied then r
      else if c.token != "" && c.expiry - t0 > 30 * SECOND
      then r.(served := r.served + [Serve(c.token, t0, c.expiry - t0, true)])
      else if (c.authReqId == "" || t1 > c.reqExpiry) && init.InitFailed? then r
      else Redeem(Renew(r, s), s)
  }

  function Exec(r: Run, sections: seq<Section>): Run
    decreases |sections|
  {
    if sections == [] then r else Exec(Apply(r, sections[0]), sections[1..])
  }

  predicate Fresh(c: Client, now: int) {
    c.token != "" && c.expiry - now > 30_000_000_000
  }

  predicate NeedsRequest(c: Client, now: int) {
    c.authReqId == "" || now > c.reqExpiry
  }

  /** Which calls a section makes. The opening of the wait asks for consent iff there is neither a
      request, nor a token, nor a denial; each round of it polls iff there is a request and neither of
      the others. The token endpoint makes no call after a denial or while its token has more than
      thirty seconds left; otherwise it first asks iff no live request is in hand, and then polls once,
      unless asking failed or it is too early. */
  lemma SectionCallsWhenDue(r: Run, s: Section)
    ensures var v := Apply(r, s);
            r.proto <= v.proto && var calls := v.proto[|r.proto|..];
            match s
            case WaitStart(init, _, _) =>
              v.served == r.served && if r.c.authReqId == "" && r.c.token == "" && !r.c.denied && init.InitOk?
                                      then |calls| == 1 && calls[0].Initiated? else v == r
            case WaitPoll(_, _, _) =>
              v.served == r.served && if r.c.authReqId != "" && r.c.token == "" && !r.c.denied
                                      then |calls| == 1 && calls[0].Polled? else v == r
            case Get(t0, t1, init, _, t3, start, poll, _, _) =>
              if r.c.denied then v == r
              else if Fresh(r.c, t0) then v == r.(served := r.served + [Serve(r.c.token, t0, r.c.expiry - t0, true)])
              else if NeedsRequest(r.c, t1) then
                if init.InitFailed? then v == r
                else calls != [] && calls[0].Initiated? && if start < t3 then |calls| == 1 else |calls| == 2 && calls[1].Polled?
              else if start < r.c.nextPoll then v == r
              else |calls| == 1 && calls[0].Polled? && (v.served == r.served <==> !poll.Granted?)
  {
  }

  /** What a call leaves in the client, in seconds: an accepted request expires when the server said and
      is polled every so many seconds as it said, five when it named none, the first time at once. */
  lemma InitiateMeans(c: Client, id: string, expiresIn: int, interval: int, t1: int, t2: int)
    ensures var d := AfterInitiate(c, id, expiresIn, interval, t1, t2);
            && d.authReqId == id && d.reqExpiry - t1 == 1_000_000_000 * expiresIn && d.nextPoll == t2 && !d.denied
            && d.interval == 1_000_000_000 * (if interval <= 0 then 5 else interval)
            && d.token == c.token && d.expiry == c.expiry
  {
  }

  /** And a poll: a failed one leaves nothing, a grant its token and the end of the request, a denial or
      an expiry the end of the request alone, and pending or slow_down the time of the next poll. */
  lemma PollMeans(c: Client, reply: PollReply, at: int)
    ensures var d := AfterPoll(c, reply, at);
            && (d.authReqId == if reply.Granted? || reply.AccessDenied? || reply.ExpiredToken? then "" else c.authReqId)
            && (d.denied == (c.denied || reply.AccessDenied?)) && d.reqExpiry == c.reqExpiry
            && (d.interval - c.interval == if reply.SlowDown? then 5_000_000_000 else 0)
            && (d.nextPoll == if reply.StillPending? || reply.SlowDown? then at + d.interval else c.nextPoll)
            && (d.token == if reply.Granted? then reply.token else c.token)
            && (reply.Granted? ==> d.expiry - at == 1_000_000_000 * (if reply.expiresIn == 0 then 3600 else reply.expiresIn))
            && (!reply.Granted? ==> d.expiry == c.expiry)
  {
  }

  // What every run satisfies.

  /** The event ends its request: the user's verdict is in, or the server let it lapse. */
  predicate Resolves(e: Event) {
    e.Polled? && (e.reply.Granted? || e.reply.AccessDenied? || e.reply.ExpiredToken?)
  }

  /** What may follow what. A denial is final. A new request replaces an unresolved one only after
      that one's expiry. A poll concerns the request in hand; the interval never falls and grows by
      five seconds per slow_down; the token endpoint polls no earlier than the last announced time. */
  ghost predicate Follows(x: Event, y: Event) {
    && !(x.Polled? && x.reply.AccessDenied?)
    && (y.Initiated? && !Resolves(x) && x.id != "" ==> y.at > x.expires)
    && (y.Polled? ==>
          && y.id == x.id && y.expires == x.expires && !Resolves(x)
          && y.interval == x.interval + (if y.reply.SlowDown? then 5 * SECOND else 0)
          && (y.reply.StillPending? || y.reply.SlowDown? ==> y.nextPoll == y.at + y.interval)
          && (y.byGet ==> y.start >= x.nextPoll))
  }

  /** The client's fields are what the last event says. */
  ghost predicate Reflects(c: Client, e: Event) {
    && c.authReqId == (if Resolves(e) then "" else e.id)
    && c.reqExpiry == e.expires && c.interval == e.interval && c.nextPoll == e.nextPoll
    && c.denied == (e.Polled? && e.reply.AccessDenied?)
  }

  ghost predicate Safe(r: Run) {
    && (forall i :: 0 < i < |r.proto| ==> Follows(r.proto[i - 1], r.proto[i]))
    && (r.proto != [] ==> r.proto[0].Initiated? && Reflects(r.c, r.proto[|r.proto| - 1]))
    && (r.proto == [] ==> r.c.authReqId == "" && !r.c.denied)
    && (forall i :: 0 <= i < |r.served| && r.served[i].cached ==> r.served[i].left > 30 * SECOND)
  }

  lemma InitiateIsSafe(r: Run, reply: InitReply, t1: int, t2: int)
    requires Safe(r) && !r.c.denied && (r.c.authReqId == "" || t1 > r.c.reqExpiry)
    ensures Safe(Initiate(r, reply, t1, t2)) && !Initiate(r, reply, t1, t2).c.denied
  {
  }

  lemma PollIsSafe(r: Run, reply: PollReply, byGet: bool, start: int, at: int)
    requires Safe(r) && r.proto != [] && !Resolves(r.proto[|r.proto| - 1]) && (byGet ==> start >= r.c.nextPoll)
    ensures Safe(Poll(r, reply, byGet, start, at))
  {
  }

  lemma RedeemIsSafe(r: Run, s: Section)
    requires s.Get? && Safe(r) && r.proto != [] && !Resolves(r.proto[|r.proto| - 1])
    ensures Safe(Redeem(r, s))
  {
    if s.start >= r.c.nextPoll { PollIsSafe(r, s.poll, true, s.start, s.at); }
  }

  /** The clock does not run backwards between deciding to renew and renewing. */
  predicate Plausible(s: Section) {
    s.Get? ==> s.t1 <= s.t2
  }

  lemma SectionIsSafe(r: Run, s: Section)
    requires Safe(r) && Plausible(s)
    ensures Safe(Apply(r, s))
  {
    match s
    case WaitStart(init, t1, t2) =>
      if r.c.authReqId == "" && !r.c.denied { InitiateIsSafe(r, init, t1, t2); }
    case WaitPoll(poll, start, at) =>
      if r.c.authReqId != "" { PollIsSafe(r, poll, false, start, at); }
    case Get(t0, t1, init, t2, t3, start, poll, at, t4) =>
      if !r.c.denied && !(r.c.token != "" && r.c.expiry - t0 > 30 * SECOND) {
        var renews := r.c.authReqId == "" || t1 > r.c.reqExpiry;
        if renews { InitiateIsSafe(r, init, t2, t3); }
        if !(renews && init.InitFailed?) { RedeemIsSafe(Renew(r, s), s); }
      }
  }

  /** The client theorem: every interleaving of the two callers, with arbitrary server replies and
      clock readings, obeys the protocol. */
  lemma {:induction false} EveryRunIsSafe(r: Run, sections: seq<Section>)
    requires Safe(r) && forall i :: 0 <= i < |sections| ==> Plausible(sections[i])
    ensures Safe(Exec(r, sections))
    decreases |sections|
  {
    if sections != [] {
      assert Plausible(sections[0]);
      SectionIsSafe(r, sections[0]);
      assert forall i :: 0 <= i < |sections[1..]| ==> sections[1..][i] == sections[i + 1];
      EveryRunIsSafe(Apply(r, sections[0]), sections[1..]);
    }
  }

  /** The server granted this token in some answered poll, to expire at that time; a grant that
      names no lifetime lasts an hour. */
  ghost predicate GrantedUntil(proto: seq<Event>, token: string, expiry: int) {
    exists e :: && e in proto && e.Polled? && e.reply.Granted? && e.reply.token == token
                && expiry - e.at == (if e.reply.expiresIn == 0 then 3600 else e.reply.expiresIn) * SECOND
  }

  /** Nothing is cached or served that the server did not grant, nor past the granted time, and
      the client never waits less than a second between polls. */
  ghost predicate Honest(r: Run) {
    && (r.c.token != "" ==> GrantedUntil(r.proto, r.c.token, r.c.expiry))
    && (forall i :: 0 <= i < |r.served| ==> GrantedUntil(r.proto, r.served[i].token, r.served[i].now + r.served[i].left))
    && (forall i :: 0 <= i < |r.proto| ==> r.proto[i].interval >= SECOND)
    && (r.c.authReqId != "" ==> r.c.interval >= SECOND)
  }

  lemma GrantsRemain(proto: seq<Event>, e: Event)
    ensures forall token, expiry :: GrantedUntil(proto, token, expiry) ==> GrantedUntil(proto + [e], token, expiry)
  {
    assert forall x :: x in proto ==> x in proto + [e];
  }

  lemma InitiateIsHonest(r: Run, reply: InitReply, t1: int, t2: int)
    requires Honest(r)
    ensures Honest(Initiate(r, reply, t1, t2)) && (reply.InitOk? ==> Initiate(r, reply, t1, t2).c.interval >= SECOND)
  {
    var v := Initiate(r, reply, t1, t2);
    if v != r { GrantsRemain(r.proto, v.proto[|r.proto|]); }
  }

  lemma PollIsHonest(r: Run, reply: PollReply, byGet: bool, start: int, at: int)
    requires Honest(r) && r.c.interval >= SECOND
    ensures Honest(Poll(r, reply, byGet, start, at))
    ensures reply.Granted? ==> GrantedUntil(Poll(r, reply, byGet, start, at).proto, reply.token, AfterPoll(r.c, reply, at).expiry)
  {
    var v := Poll(r, reply, byGet, start, at);
    GrantsRemain(r.proto, v.proto[|r.proto|]);
    assert v.proto[|r.proto|] in v.proto;
  }

  lemma RedeemIsHonest(r: Run, s: Section)
    requires s.Get? && Honest(r) && r.c.interval >= SECOND
    ensures Honest(Redeem(r, s))
  {
    PollIsHonest(r, s.poll, true, s.start, s.at);
  }

  lemma SectionIsHonest(r: Run, s: Section)
    requires Honest(r)
    ensures Honest(Apply(r, s))
  {
    match s
    case WaitStart(init, t1, t2) => InitiateIsHonest(r, init, t1, t2);
    case WaitPoll(poll, start, at) =>
      if r.c.authReqId != "" { PollIsHonest(r, poll, false, start, at); }
    case Get(t0, t1, init, t2, t3, start, poll, at, t4) =>
      if !r.c.denied && !(r.c.token != "" && r.c.expiry - t0 > 30 * SECOND) {
        var renews := r.c.authReqId == "" || t1 > r.c.reqExpiry;
        if renews { InitiateIsHonest(r, init, t2, t3); }
        if !(renews && init.InitFailed?) { RedeemIsHonest(Renew(r, s), s); }
      }
  }

  /** Every token ever served was granted by the server and is reported with exactly the time its
      grant leaves. */
  lemma {:induction false} ServedTokensWereGranted(r: Run, sections: seq<Section>)
    requires Honest(r)
    ensures Honest(Exec(r, sections))
    decreases |sections|
  {
    if sections != [] {
      SectionIsHonest(r, sections[0]);
      ServedTokensWereGranted(Apply(r, sections[0]), sections[1..]);
    }
  }

  /** Once denied, always denied: no further call is made and no further token is served. */
  lemma {:induction false} DenialIsAbsorbing(r: Run, sections: seq<Section>)
    requires r.c.denied
    ensures Exec(r, sections) == r
    decreases |sections|
  {
    if sections != [] { DenialIsAbsorbing(Apply(r, sections[0]), sections[1..]); }
  }

  /** Two polls of the same request with only polls between: the interval has grown by five seconds
      for each slow_down answered in between and by nothing else. */
  lemma {:induction false} IntervalGrowsWithSlowDowns(r: Run, i: nat, j: nat)
    requires Safe(r) && i <= j < |r.proto| && forall k :: i < k <= j ==> r.proto[k].Polled?
    ensures r.proto[j].interval == r.proto[i].interval + 5 * SECOND * SlowDowns(r.proto, i, j)
    ensures r.proto[j].id == r.proto[i].id
    decreases j
  {
    if i < j {
      IntervalGrowsWithSlowDowns(r, i, j - 1);
      assert Follows(r.proto[j - 1], r.proto[j]);
    }
  }

  function SlowDowns(proto: seq<Event>, i: nat, j: nat): nat
    requires i <= j < |proto|
    decreases j
  {
    if i == j then 0
    else SlowDowns(proto, i, j - 1) + if proto[j].Polled? && proto[j].reply.SlowDown? then 1 else 0
  }

  // The token source object.

  datatype Outcome = Ok(token: string, left: int) | ConsentPending | ConsentDenied | Failed

  class CibaTokenSource {
    var token: string
    var expiry: int
    var authReqId: string
    var reqExpiry: int
    var interval: int
    var nextPoll: int
    var denied: bool
    ghost var proto: seq<Event>
    ghost var served: seq<Serve>

    ghost function View(): Run
      reads this
    {
      Run(Client(token, expiry, authReqId, reqExpiry, interval, nextPoll, denied), proto, served)
    }

    constructor ()
      ensures View() == NEW_RUN
    {
      token, expiry, authReqId, reqExpiry, interval, nextPoll, denied := "", 0, "", 0, 0, 0, false;
      proto, served := [], [];
    }

    method InitiateOnce(reply: InitReply, t1: int, t2: int) returns (ok: bool)
      modifies this
      ensures View() == Initiate(old(View()), reply, t1, t2) && ok == reply.InitOk?
    {
      if reply.InitFailed? { return false; }
      authReqId := reply.id;
      reqExpiry := t1 + reply.expiresIn * SECOND;
      interval := (if reply.interval <= 0 then 5 else reply.interval) * SECOND;
      nextPoll := t2;
      denied := false;
      proto := proto + [Initiated(t1, authReqId, reqExpiry, interval, nextPoll)];
      return true;
    }

    method PollOnce(reply: PollReply, byGet: bool, start: int, at: int)
      modifies this
      ensures View() == Poll(old(View()), reply, byGet, start, at)
    {
      ghost var id := authReqId;
      match reply {
        case PollFailed =>
        case Granted(t, expiresIn) =>
          token := t;
          expiry := at + (if expiresIn == 0 then 3600 else expiresIn) * SECOND;
          authReqId := "";
        case StillPending => nextPoll := at + interval;
        case SlowDown =>
          interval := interval + 5 * SECOND;
          nextPoll := at + interval;
        case AccessDenied =>
          authReqId := "";
          denied := true;
        case ExpiredToken => authReqId := "";
      }
      proto := proto + [Polled(start, at, byGet, reply, id, reqExpiry, interval, nextPoll)];
    }

    /** The opening section of the startup wait. */
    method BeginWait(s: Section)
      requires s.WaitStart?
      modifies this
      ensures View() == Apply(old(View()), s)
    {
      if authReqId == "" && token == "" && !denied { var ok := InitiateOnce(s.init, s.t1, s.t2); }
    }

    /** One iteration of the startup wait. */
    method ContinueWait(s: Section)
      requires s.WaitPoll?
      modifies this
      ensures View() == Apply(old(View()), s)
    {
      if denied || token != "" || authReqId == "" { return; }
      PollOnce(s.poll, false, s.start, s.at);
    }

    /** The token endpoint. */
    method GetToken(s: Section) returns (out: Outcome)
      requires s.Get?
      modifies this
      ensures View() == Apply(old(View()), s)
      ensures out == ConsentDenied <==> denied
      ensures out == Failed <==>
                && !old(denied) && !Fresh(old(View()).c, s.t0)
                && if NeedsRequest(old(View()).c, s.t1) && s.init.InitFailed? then true
                   else proto != old(proto) && proto[|proto| - 1].Polled? && s.poll == PollFailed
      ensures out.Ok? <==> served != old(served)
      ensures out.Ok? ==>
                && out.token == token && served[|served| - 1].token == token
                && out.left == expiry - (if served[|served| - 1].cached then s.t0 else s.t4)
    {
      if denied { return ConsentDenied; }
      if token != "" && expiry - s.t0 > 30 * SECOND {
        served := served + [Serve(token, s.t0, expiry - s.t0, true)];
        return Ok(token, expiry - s.t0);
      }
      if authReqId == "" || s.t1 > reqExpiry {
        var ok := InitiateOnce(s.init, s.t2, s.t3);
        if !ok { return Failed; }
      }
      if s.start < nextPoll { return ConsentPending; }
      PollOnce(s.poll, true, s.start, s.at);
      match s.poll {
        case Granted(_, _) =>
          served := served + [Serve(token, s.t4, expiry - s.t4, false)];
          return Ok(token, expiry - s.t4);
        case StillPending => return ConsentPending;
        case SlowDown => return ConsentPending;
        case ExpiredToken => return ConsentPending;
        case AccessDenied => return ConsentDenied;
        case PollFailed => return Failed;
      }
    }
  }
}
