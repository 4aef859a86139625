/** The dispatch hub: one live connection per org, newest wins. A push reads the org's slot
    under the lock and sends after releasing it, so other requests run in between. */
module Hub {

  const QUEUE_LIMIT := 256

  /** A frame is identified by the push that carries it. */
  datatype Conn = Conn(org: string, queue: seq<nat>, cancelled: bool)

  datatype Send = Send(push: nat, org: string, conn: nat)

  /** `slots` is the hub's table. `newest` and `sent` are history: the last connection ever
      registered per org, and every enqueue so far. `pushes` are the sends still to come, and
      `begun` all pushes ever started; `written` is what each connection has written out, in order. */
  datatype State = State(
    slots: map<string, nat>, conns: map<nat, Conn>, newest: map<string, nat>,
    pushes: map<nat, Send>, begun: set<nat>, sent: seq<Send>, written: map<nat, seq<nat>>)

  datatype Step =
    | Register(conn: nat, org: string)
    | Unregister(conn: nat)
    | PushRead(push: nat, org: string)
    | PushSend(push: nat)
    | Drain(conn: nat)

  function Cancel(conns: map<nat, Conn>, c: nat): map<nat, Conn> {
    if c in conns then conns[c := conns[c].(cancelled := true)] else conns
  }

  function Written(s: State, c: nat): seq<nat> {
    if c in s.written then s.written[c] else []
  }

  function Apply(s: State, e: Step): State {
    match e
    case Register(c, org) =>
      var conns := if org in s.slots then Cancel(s.conns, s.slots[org]) else s.conns;
      s.(slots := s.slots[org := c], conns := conns[c := Conn(org, [], false)], newest := s.newest[org := c])
    case Unregister(c) =>
      if c in s.conns && s.conns[c].org in s.slots && s.slots[s.conns[c].org] == c
      then s.(slots := s.slots - {s.conns[c].org}) else s
    case PushRead(p, org) =>
      if org in s.slots
      then s.(begun := s.begun + {p}, pushes := s.pushes[p := Send(p, org, s.slots[org])])
      else s.(begun := s.begun + {p})
    case PushSend(p) =>
      if p !in s.pushes || s.pushes[p].conn !in s.conns then s
      else
        var c := s.pushes[p].conn;
        var t := s.(pushes := s.pushes - {p});
        if |s.conns[c].queue| < QUEUE_LIMIT
        then t.(conns := s.conns[c := s.conns[c].(queue := s.conns[c].queue + [p])], sent := s.sent + [s.pushes[p]])
        else t.(conns := Cancel(s.conns, c))
    case Drain(c) =>
      if c in s.conns && s.conns[c].queue != []
      then s.(conns := s.conns[c := s.conns[c].(queue := s.conns[c].queue[1..])],
              written := s.written[c := Written(s, c) + [s.conns[c].queue[0]]]) else s
  }

  /** Connections and pushes are new objects each time. */
  predicate Legal(s: State, e: Step) {
    match e
    case Register(c, _) => c !in s.conns
    case PushRead(p, _) => p !in s.begun
    case _ => true
  }

  function Exec(s: State, steps: seq<Step>): State
    decreases |steps|
  {
    if steps == [] then s else Exec(Apply(s, steps[0]), steps[1..])
  }

  predicate LegalRun(s: State, steps: seq<Step>)
    decreases |steps|
  {
    steps != [] ==> Legal(s, steps[0]) && LegalRun(Apply(s, steps[0]), steps[1..])
  }

  const START := State(map[], map[], map[], map[], {}, [], map[])

  ghost predicate OrgsKept(s: State, t: State) {
    forall c :: c in s.conns ==> c in t.conns && t.conns[c].org == s.conns[c].org
  }

  /** Slots hold their org's newest connection, which is bound to it. */
  ghost predicate SlotsNewest(s: State) {
    && (forall o :: o in s.slots ==> o in s.newest && s.slots[o] == s.newest[o])
    && (forall o :: o in s.newest ==> s.newest[o] in s.conns && s.conns[s.newest[o]].org == o)
    && (forall c :: c in s.conns ==> |s.conns[c].queue| <= QUEUE_LIMIT)
  }

  /** A push, pending or sent, is known, and its connection is bound to the org it is for. */
  ghost predicate Bound(s: State, x: Send) {
    x.push in s.begun && x.conn in s.conns && s.conns[x.conn].org == x.org
  }

  ghost predicate PushesBound(s: State) {
    && (forall p :: p in s.pushes ==> s.pushes[p].push == p && Bound(s, s.pushes[p]))
    && (forall i :: 0 <= i < |s.sent| ==> s.sent[i].push !in s.pushes && Bound(s, s.sent[i]))
    && (forall i, j :: 0 <= i < j < |s.sent| ==> s.sent[i].push != s.sent[j].push)
  }

  ghost predicate Inv(s: State) {
    SlotsNewest(s) && PushesBound(s)
  }

  lemma RegisterKeepsSlots(s: State, c: nat, org: string)
    requires SlotsNewest(s) && c !in s.conns
    ensures var t := Apply(s, Register(c, org)); SlotsNewest(t) && OrgsKept(s, t)
  {
    var t := Apply(s, Register(c, org));
    assert forall d :: d in s.conns ==> d != c && d in t.conns && t.conns[d].org == s.conns[d].org && t.conns[d].queue == s.conns[d].queue;
  }

  lemma SendKeepsSlots(s: State, p: nat)
    requires SlotsNewest(s)
    ensures var t := Apply(s, PushSend(p)); SlotsNewest(t) && OrgsKept(s, t)
  {
    var t := Apply(s, PushSend(p));
    assert t.slots == s.slots && t.newest == s.newest && t.conns.Keys == s.conns.Keys;
    assert forall d :: d in s.conns ==> t.conns[d].org == s.conns[d].org;
  }

  lemma StepKeepsSlots(s: State, e: Step)
    requires SlotsNewest(s) && Legal(s, e)
    ensures SlotsNewest(Apply(s, e)) && OrgsKept(s, Apply(s, e))
  {
    if e.Register? { RegisterKeepsSlots(s, e.conn, e.org); } else if e.PushSend? { SendKeepsSlots(s, e.push); }
  }

  lemma SendKeepsPushes(s: State, e: Step)
    requires Inv(s) && e.PushSend? && OrgsKept(s, Apply(s, e))
    ensures PushesBound(Apply(s, e))
  {
    var t := Apply(s, e);
    assert t.sent == s.sent || t.sent == s.sent + [s.pushes[e.push]];
    forall i | 0 <= i < |s.sent| ensures s.sent[i].push !in t.pushes && Bound(t, s.sent[i]) {
    }
  }

  lemma ReadKeepsPushes(s: State, e: Step)
    requires Inv(s) && Legal(s, e) && e.PushRead?
    ensures PushesBound(Apply(s, e))
  {
    var t := Apply(s, e);
    assert t.sent == s.sent && t.conns == s.conns && s.begun <= t.begun;
    forall i | 0 <= i < |s.sent| ensures s.sent[i].push !in t.pushes && Bound(t, s.sent[i]) {
    }
  }

  lemma StepKeepsPushes(s: State, e: Step)
    requires Inv(s) && Legal(s, e) && OrgsKept(s, Apply(s, e))
    ensures PushesBound(Apply(s, e))
  {
    var t := Apply(s, e);
    if e.PushSend? {
      SendKeepsPushes(s, e);
    } else if e.PushRead? {
      ReadKeepsPushes(s, e);
    } else {
      assert t.sent == s.sent && t.begun == s.begun && t.pushes == s.pushes;
      assert forall x: Send :: Bound(s, x) ==> Bound(t, x);
    }
  }

  lemma StepKeeps(s: State, e: Step)
    requires Inv(s) && Legal(s, e)
    ensures Inv(Apply(s, e)) && OrgsKept(s, Apply(s, e))
  {
    StepKeepsSlots(s, e);
    StepKeepsPushes(s, e);
  }

  /** Newest wins, in every interleaving: a slot is empty or holds its org's last registered
      connection; a connection keeps its org for life; and each push has been enqueued at most
      once, on a connection bound to the org it was meant for. */
  lemma {:induction false} NewestWins(s: State, steps: seq<Step>)
    requires Inv(s) && LegalRun(s, steps)
    ensures Inv(Exec(s, steps)) && OrgsKept(s, Exec(s, steps))
    decreases |steps|
  {
    if steps != [] {
      StepKeeps(s, steps[0]);
      NewestWins(Apply(s, steps[0]), steps[1..]);
    }
  }

  /** Registering takes the org's slot for a connection with an empty queue, and cancels the one that
      held it and no other. */
  lemma RegisterIsExact(s: State, c: nat, org: string, d: nat)
    requires c !in s.conns
    ensures var t := Apply(s, Register(c, org));
            && t.slots == s.slots[org := c] && t.conns.Keys == s.conns.Keys + {c} && t.conns[c] == Conn(org, [], false)
            && (d in s.conns ==>
                  t.conns[d] == if org in s.slots && s.slots[org] == d then s.conns[d].(cancelled := true) else s.conns[d])
  {
  }

  // Frames leave a connection in the order they were enqueued.

  function SentOn(sent: seq<Send>, c: nat): seq<nat> {
    if sent == [] then []
    else
      var n := |sent| - 1;
      if sent[n].conn == c then SentOn(sent[..n], c) + [sent[n].push] else SentOn(sent[..n], c)
  }

  /** What a connection has written and still holds is exactly what was enqueued on it, in order. */
  ghost predicate InOrder(s: State, c: nat) {
    Written(s, c) + Held(s, c) == SentOn(s.sent, c)
  }

  function Held(s: State, c: nat): seq<nat> {
    if c in s.conns then s.conns[c].queue else []
  }

  lemma SentOnAppend(sent: seq<Send>, x: Send, c: nat)
    ensures SentOn(sent + [x], c) == SentOn(sent, c) + if x.conn == c then [x.push] else []
  {
    assert (sent + [x])[..|sent|] == sent;
  }

  lemma SendEnqueues(s: State, p: nat, c: nat)
    requires p in s.pushes && s.pushes[p].conn in s.conns
    ensures var t, x := Apply(s, PushSend(p)), s.pushes[p];
            && t.written == s.written
            && if |s.conns[x.conn].queue| < QUEUE_LIMIT
               then t.sent == s.sent + [x] && Held(t, c) == Held(s, c) + if c == x.conn then [p] else []
               else t.sent == s.sent && Held(t, c) == Held(s, c)
  {
  }

  lemma SendKeepsOrder(s: State, p: nat, c: nat)
    requires InOrder(s, c) && p in s.pushes && s.pushes[p].push == p && s.pushes[p].conn in s.conns
    ensures InOrder(Apply(s, PushSend(p)), c)
  {
    SendEnqueues(s, p, c);
    SentOnAppend(s.sent, s.pushes[p], c);
  }

  lemma DrainKeepsOrder(s: State, d: nat, c: nat)
    requires InOrder(s, c)
    ensures InOrder(Apply(s, Drain(d)), c)
  {
    if d == c && c in s.conns && s.conns[c].queue != [] {
      assert s.conns[c].queue == [s.conns[c].queue[0]] + s.conns[c].queue[1..];
    }
  }

  lemma StepKeepsOrder(s: State, e: Step, c: nat)
    requires PushesBound(s) && Legal(s, e) && InOrder(s, c)
    ensures InOrder(Apply(s, e), c)
  {
    if e.Drain? {
      DrainKeepsOrder(s, e.conn, c);
    } else if e.PushSend? {
      if e.push in s.pushes && s.pushes[e.push].conn in s.conns { SendKeepsOrder(s, e.push, c); }
    }
  }

  /** First in, first out, on every connection and in every interleaving. */
  lemma {:induction false} FramesKeepOrder(s: State, steps: seq<Step>, c: nat)
    requires Inv(s) && LegalRun(s, steps) && InOrder(s, c)
    ensures InOrder(Exec(s, steps), c)
    decreases |steps|
  {
    if steps != [] {
      StepKeeps(s, steps[0]);
      StepKeepsOrder(s, steps[0], c);
      FramesKeepOrder(Apply(s, steps[0]), steps[1..], c);
    }
  }

  ghost predicate Mentions(e: Step, org: string, c: nat) {
    (e.Register? && e.org == org) || (e.Unregister? && e.conn == c)
  }

  /** A connected org stays connected through the same connection until that connection itself
      is torn down or the org registers anew: no teardown of a replaced connection evicts it. */
  lemma {:induction false} SuccessorIsNotEvicted(s: State, steps: seq<Step>, org: string)
    requires Inv(s) && LegalRun(s, steps) && org in s.slots
    requires forall i :: 0 <= i < |steps| ==> !Mentions(steps[i], org, s.slots[org])
    ensures org in Exec(s, steps).slots && Exec(s, steps).slots[org] == s.slots[org]
    decreases |steps|
  {
    if steps != [] {
      StepKeeps(s, steps[0]);
      assert !Mentions(steps[0], org, s.slots[org]);
      var t := Apply(s, steps[0]);
      assert org in t.slots && t.slots[org] == s.slots[org];
      assert forall i :: 0 <= i < |steps[1..]| ==> steps[1..][i] == steps[i + 1];
      SuccessorIsNotEvicted(t, steps[1..], org);
    }
  }

  /** A successful send is not a delivery: it may land on a connection already replaced. */
  lemma SendMayLandOnReplacedConnection()
    ensures exists steps: seq<Step> ::
      && LegalRun(START, steps)
      && var s := Exec(START, steps);
         |s.sent| == 1 && "o" in s.slots && s.slots["o"] != s.sent[0].conn
         && s.sent[0].conn in s.conns && s.conns[s.sent[0].conn].cancelled
  {
    var e := [Register(0, "o"), PushRead(7, "o"), Register(1, "o"), PushSend(7)];
    var s1 := Apply(START, e[0]);
    var s2 := Apply(s1, e[1]);
    var s3 := Apply(s2, e[2]);
    var s4 := Apply(s3, e[3]);
    assert s3.conns[0] == Conn("o", [], true) && s3.pushes[7] == Send(7, "o", 0);
    assert Exec(s4, e[1..][1..][1..][1..]) == s4;
    assert Exec(s3, e[1..][1..][1..]) == s4;
    assert Exec(s2, e[1..][1..]) == s4;
    assert Exec(s1, e[1..]) == s4;
    assert LegalRun(s3, e[1..][1..][1..]);
    assert LegalRun(s2, e[1..][1..]);
    assert LegalRun(s1, e[1..]);
    assert LegalRun(START, e) && Exec(START, e) == s4;
  }

  /** The hub object. Each method is one section under its mutex, except SendTo, which runs
      after the lock is released. */
  class SubstrateHub {
    var slots: map<string, nat>
    var conns: map<nat, Conn>
    ghost var newest: map<string, nat>
    ghost var pushes: map<nat, Send>
    ghost var begun: set<nat>
    ghost var sent: seq<Send>
    ghost var written: map<nat, seq<nat>>

    ghost function View(): State
      reads this
    {
      State(slots, conns, newest, pushes, begun, sent, written)
    }

    constructor ()
      ensures View() == START
    {
      slots, conns, newest, pushes, begun, sent, written := map[], map[], map[], map[], {}, [], map[];
    }

    method RegisterConn(c: nat, org: string)
      requires Inv(View()) && c !in conns
      modifies this
      ensures View() == Apply(old(View()), Register(c, org)) && Inv(View())
    {
      ghost var s := View();
      StepKeeps(s, Register(c, org));
      if org in slots {
        var prev := slots[org];
        conns := conns[prev := conns[prev].(cancelled := true)];
      }
      conns := conns[c := Conn(org, [], false)];
      slots := slots[org := c];
      newest := newest[org := c];
    }

    method UnregisterConn(c: nat)
      requires Inv(View()) && c in conns
      modifies this`slots
      ensures View() == Apply(old(View()), Unregister(c)) && Inv(View())
      ensures conns[c].org in old(slots) && old(slots)[conns[c].org] == c ==> slots == old(slots) - {conns[c].org}
      ensures !(conns[c].org in old(slots) && old(slots)[conns[c].org] == c) ==> slots == old(slots)
    {
      StepKeeps(View(), Unregister(c));
      var org := conns[c].org;
      if org in slots && slots[org] == c { slots := slots - {org}; }
    }

    /** The locked half of push. */
    method SlotOf(p: nat, org: string) returns (found: bool, c: nat)
      requires Inv(View()) && p !in begun
      modifies this`pushes, this`begun
      ensures View() == Apply(old(View()), PushRead(p, org)) && Inv(View())
      ensures found == (org in slots) && (found ==> c == slots[org] && pushes[p] == Send(p, org, c))
    {
      StepKeeps(View(), PushRead(p, org));
      begun := begun + {p};
      found, c := org in slots, 0;
      if found {
        c := slots[org];
        pushes := pushes[p := Send(p, org, c)];
      }
    }

    /** The unlocked half: enqueue without blocking, or drop the connection when it is full. */
    method SendTo(p: nat, c: nat) returns (ok: bool)
      requires Inv(View()) && p in pushes && pushes[p].conn == c
      modifies this`conns, this`pushes, this`sent
      ensures View() == Apply(old(View()), PushSend(p)) && Inv(View())
      ensures ok <==> |old(conns)[c].queue| < 256
      ensures ok ==> conns[c].queue == old(conns)[c].queue + [p]
      ensures !ok ==> conns[c].cancelled
    {
      StepKeeps(View(), PushSend(p));
      ok := |conns[c].queue| < QUEUE_LIMIT;
      if ok {
        conns := conns[c := conns[c].(queue := conns[c].queue + [p])];
        sent := sent + [pushes[p]];
      } else {
        conns := conns[c := conns[c].(cancelled := true)];
      }
      pushes := pushes - {p};
    }

    /** The connection's writer takes the oldest frame. */
    method NextFrame(c: nat) returns (p: nat)
      requires Inv(View()) && c in conns && conns[c].queue != []
      modifies this`conns, this`written
      ensures View() == Apply(old(View()), Drain(c)) && Inv(View())
      ensures [p] + conns[c].queue == old(conns)[c].queue
    {
      StepKeeps(View(), Drain(c));
      p := conns[c].queue[0];
      written := written[c := (if c in written then written[c] else []) + [p]];
      conns := conns[c := conns[c].(queue := conns[c].queue[1..])];
    }
  }
}
