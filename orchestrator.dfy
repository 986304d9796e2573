/**
 * `query_server`: opens a query, then runs the requested facets in the fixed
 * order info, players, rules, extra info, ping. Each facet sends its request
 * and records what `recv` made of the answer: the decoded payload, or the
 * error text. The extra-info facet first asks the cooldown gate; the ping
 * facet records the round-trip time in milliseconds (as u32) or 9999. A
 * decoder that runs out of bytes panics, which ends the whole call.
 *
 * `Serve` states the whole run as a value; the method `QueryServer` runs it
 * step by step over a `Query` and the process-wide `CooldownTable`. The
 * facts about a run are proved for any reply function and then read back
 * for the one `recv` computes.
 */
module Orchestrator {
  import opened Wrappers
  import opened Bytes
  import opened Address
  import opened QueryClient
  import opened Cooldown
  import Packets

  /** Which facets the caller asked for. */
  datatype Flags = Flags(info: bool, extraInfo: bool, players: bool, rules: bool, ping: bool)

  /** A requested facet's entry: the payload, or `{info: <error text>, error: true}`. */
  datatype FacetResult = Data(payload: Payload) | ErrorDetails(info: string)

  /** `ServerQueryResponse`, with the facets as values rather than JSON text. */
  datatype Response = Response(
    info: Option<FacetResult>, extraInfo: Option<FacetResult>,
    players: Option<FacetResult>, rules: Option<FacetResult>, ping: Option<nat>)

  const NOTHING_YET := Response(None, None, None, None, None)
  const PING_FAILED: nat := 9999

  /** What the caller gets: the response, the error of `Query::new`, or nothing because of a panic. */
  datatype Outcome = Answered(response: Response) | Rejected(message: string) | Aborted

  datatype Facet = InfoFacet | PlayersFacet | RulesFacet | ExtraInfoFacet | PingFacet

  function Opcode(f: Facet): char {
    match f
    case InfoFacet => 'i'
    case PlayersFacet => 'c'
    case RulesFacet => 'r'
    case ExtraInfoFacet => 'o'
    case PingFacet => 'p'
  }

  /** A facet's place in the order `query_server` runs them. */
  function Rank(f: Facet): nat {
    match f
    case InfoFacet => 0
    case PlayersFacet => 1
    case RulesFacet => 2
    case ExtraInfoFacet => 3
    case PingFacet => 4
  }

  predicate Wanted(flags: Flags, f: Facet) {
    match f
    case InfoFacet => flags.info
    case PlayersFacet => flags.players
    case RulesFacet => flags.rules
    case ExtraInfoFacet => flags.extraInfo
    case PingFacet => flags.ping
  }

  /** One facet's slot of a response: empty, a facet result, or the ping time. */
  datatype Entry = Unset | Result(result: FacetResult) | Millis(ms: nat)

  function EntryOf(r: Response, f: Facet): Entry {
    match f
    case InfoFacet => if r.info.Some? then Result(r.info.value) else Unset
    case PlayersFacet => if r.players.Some? then Result(r.players.value) else Unset
    case RulesFacet => if r.rules.Some? then Result(r.rules.value) else Unset
    case ExtraInfoFacet => if r.extraInfo.Some? then Result(r.extraInfo.value) else Unset
    case PingFacet => if r.ping.Some? then Millis(r.ping.value) else Unset
  }

  /** What a reply that is not a panic leaves in a facet's entry. */
  function ResultOf(reply: Reply): (fr: FacetResult)
    requires !reply.Panic?
    ensures fr.Data? <==> reply.Answer?
    ensures fr.Data? ==> fr.payload == reply.payload
    ensures fr.ErrorDetails? ==> fr.info == reply.message
  {
    if reply.Answer? then Data(reply.payload) else ErrorDetails(reply.message)
  }

  /**
   * The entry a facet ends with: the ping time modulo 2^32 when the ping was
   * answered and 9999 when it failed; for the other facets, the payload or
   * the error text.
   */
  function Settled(f: Facet, reply: Reply, elapsedMs: nat): (e: Entry)
    requires !reply.Panic?
    ensures f == PingFacet ==> e.Millis? && e.ms < U32_LIMIT
    ensures f == PingFacet && reply.Answer? && elapsedMs < U32_LIMIT ==> e.ms == elapsedMs
    ensures f == PingFacet && !reply.Answer? ==> e.ms == PING_FAILED
    ensures f != PingFacet ==> e.Result? && (e.result.Data? <==> reply.Answer?)
  {
    if f == PingFacet then Millis(if reply.Answer? then elapsedMs % U32_LIMIT else PING_FAILED)
    else Result(ResultOf(reply))
  }

  /** The response with one facet's entry filled in from its reply. */
  function Record(r: Response, f: Facet, reply: Reply, elapsedMs: nat): (r': Response)
    requires !reply.Panic?
    ensures EntryOf(r', f) == Settled(f, reply, elapsedMs)
    ensures forall g :: g != f ==> EntryOf(r', g) == EntryOf(r, g)
  {
    match f
    case InfoFacet => r.(info := Some(ResultOf(reply)))
    case PlayersFacet => r.(players := Some(ResultOf(reply)))
    case RulesFacet => r.(rules := Some(ResultOf(reply)))
    case ExtraInfoFacet => r.(extraInfo := Some(ResultOf(reply)))
    case PingFacet => r.(ping := Some(if reply.Answer? then elapsedMs % U32_LIMIT else PING_FAILED))
  }

  /**
   * The state the facets pass along: the datagrams sent, those still to
   * arrive, the cooldown table, the response so far, and whether a decoder
   * has panicked.
   */
  datatype Session = Session(
    sent: seq<Bytes>, inbox: seq<Incoming>, table: map<string, u64>,
    response: Response, panicked: bool)

  /** The open query's fixed parameters, and what `recv` makes of each arrival. */
  datatype Target = Target(address: Octets, port: int, elapsedMs: nat, reply: Incoming -> Reply)

  /** `recv` with the given string decoder, as a function of what arrives. */
  function ReplyTo(dec: Packets.Transcoder): (reply: Incoming -> Reply)
    ensures forall m :: reply(m) == Classify(m, dec)
  {
    m => Classify(m, dec)
  }

  /** One facet: send its request, receive, record the reply or panic. */
  function Ask(s: Session, f: Facet, t: Target): (r: Session)
    ensures r.sent == s.sent + [RequestPacket(t.address, t.port, Opcode(f))]
    ensures r.inbox == Later(s.inbox) && r.table == s.table
    ensures r.panicked <==> s.panicked || t.reply(Next(s.inbox)).Panic?
  {
    var reply := t.reply(Next(s.inbox));
    var s1 := s.(sent := s.sent + [RequestPacket(t.address, t.port, Opcode(f))], inbox := Later(s.inbox));
    if reply.Panic? then s1.(panicked := true)
    else s1.(response := Record(s.response, f, reply, t.elapsedMs))
  }

  /** A facet runs when it was asked for and nothing has panicked yet. */
  function Step(s: Session, wanted: bool, f: Facet, t: Target): (r: Session)
    ensures s.sent <= r.sent && |r.sent| <= |s.sent| + 1
    ensures |r.sent| == |s.sent| + 1 <==> wanted && !s.panicked
    ensures r.table == s.table
  {
    if wanted && !s.panicked then Ask(s, f, t) else s
  }

  /** The extra-info facet runs only when, besides, the cooldown gate lets it through. */
  function ExtraStep(s: Session, wanted: bool, key: string, now: u64, t: Target): (r: Session)
    ensures s.sent <= r.sent && |r.sent| <= |s.sent| + 1
    ensures |r.sent| == |s.sent| + 1 <==> wanted && !s.panicked && Admits(s.table, key, now)
    ensures r.table == s.table || r.table == Gate(s.table, key, now).1
  {
    if wanted && !s.panicked then
      var gate := Gate(s.table, key, now);
      var s1 := s.(table := gate.1);
      if gate.0 then Ask(s1, ExtraInfoFacet, t) else s1
    else s
  }

  /** The session after the five facets, starting from nothing sent. */
  function Facets(t: Target, key: string, flags: Flags, inbox: seq<Incoming>,
                  table: map<string, u64>, now: u64): (r: Session)
    ensures |r.sent| <= 5
    ensures r.table == table || r.table == Gate(table, key, now).1
    ensures !flags.extraInfo ==> r.table == table
  {
    var s0 := Session([], inbox, table, NOTHING_YET, false);
    var s1 := Step(s0, flags.info, InfoFacet, t);
    var s2 := Step(s1, flags.players, PlayersFacet, t);
    var s3 := Step(s2, flags.rules, RulesFacet, t);
    var s4 := ExtraStep(s3, flags.extraInfo, key, now, t);
    Step(s4, flags.ping, PingFacet, t)
  }

  /** All that a call of `query_server` does, as a value. */
  datatype Served = Served(outcome: Outcome, sent: seq<Bytes>, table: map<string, u64>)

  /**
   * `query_server(ip, port, ...)`, given what resolving the address answers,
   * what the server will send back, the cooldown table, the clock and the
   * measured ping time.
   */
  function Serve(ip: string, port: int, flags: Flags, lookup: Lookup, inbox: seq<Incoming>,
                 table: map<string, u64>, now: u64, elapsedMs: nat, reply: Incoming -> Reply): (r: Served)
    ensures |r.sent| <= 5
    ensures r.table == table || r.table == Gate(table, Key(ip, port), now).1
    ensures r.outcome.Rejected? ==> r.outcome.message == INVALID_ADDRESS && r.sent == [] && r.table == table
  {
    match ResolveAddress(ip, lookup)
    case Failure(e) => Served(Rejected(e), [], table)
    case Success(address) =>
      var t := Target(address, port, elapsedMs, reply);
      var s := Facets(t, Key(ip, port), flags, inbox, table, now);
      Served(if s.panicked then Aborted else Answered(s.response), s.sent, s.table)
  }

  // ------------------------------------------------------------ the method

  /** The command itself, over a freshly opened `Query` and the shared cooldown table. */
  method QueryServer(ip: string, port: int, flags: Flags, lookup: Lookup, inbox: seq<Incoming>,
                     cooldown: CooldownTable, now: u64, elapsedMs: nat, dec: Packets.Transcoder)
    returns (outcome: Outcome, sent: seq<Bytes>)
    modifies cooldown
    ensures Served(outcome, sent, cooldown.last)
            == Serve(ip, port, flags, lookup, inbox, old(cooldown.last), now, elapsedMs, ReplyTo(dec))
  {
    var created := Open(ip, port, lookup, inbox);
    if created.Failure? {
      return Rejected(created.error), [];
    }
    var q := created.value;
    var t := Target(q.address, q.port, elapsedMs, ReplyTo(dec));
    var key := Key(ip, port);
    ghost var s0 := Session([], inbox, cooldown.last, NOTHING_YET, false);
    var result := NOTHING_YET;
    var panicked := false;
    ghost var s1, s2, s3, s4, s5;
    result, panicked, s1 := RunStep(q, cooldown, flags.info, InfoFacet, t, dec, result, panicked, s0);
    result, panicked, s2 := RunStep(q, cooldown, flags.players, PlayersFacet, t, dec, result, panicked, s1);
    result, panicked, s3 := RunStep(q, cooldown, flags.rules, RulesFacet, t, dec, result, panicked, s2);
    result, panicked, s4 := RunExtraStep(q, cooldown, flags.extraInfo, key, now, t, dec, result, panicked, s3);
    result, panicked, s5 := RunStep(q, cooldown, flags.ping, PingFacet, t, dec, result, panicked, s4);
    FacetsChain(t, key, flags, inbox, old(cooldown.last), now, s0, s1, s2, s3, s4, s5);
    outcome := if panicked then Aborted else Answered(result);
    sent := q.socket.sent;
  }

  /** The five steps taken one after another make up `Facets`. */
  lemma FacetsChain(t: Target, key: string, flags: Flags, inbox: seq<Incoming>,
                    table: map<string, u64>, now: u64,
                    s0: Session, s1: Session, s2: Session, s3: Session, s4: Session, s5: Session)
    requires s0 == Session([], inbox, table, NOTHING_YET, false)
    requires s1 == Step(s0, flags.info, InfoFacet, t) && s2 == Step(s1, flags.players, PlayersFacet, t)
             && s3 == Step(s2, flags.rules, RulesFacet, t)
             && s4 == ExtraStep(s3, flags.extraInfo, key, now, t)
             && s5 == Step(s4, flags.ping, PingFacet, t)
    ensures Facets(t, key, flags, inbox, table, now) == s5
  {
  }

  /** The state of the command mirrors the session: the socket, the table, the response. */
  ghost predicate Tracks(q: Query, cooldown: CooldownTable, s: Session, result: Response, panicked: bool)
    reads q.socket, cooldown
  {
    q.socket.sent == s.sent && q.socket.inbox == s.inbox && cooldown.last == s.table
    && s.panicked == panicked && (!panicked ==> s.response == result)
  }

  /** One facet, run when asked for and while nothing has panicked. */
  method RunStep(q: Query, cooldown: CooldownTable, wanted: bool, f: Facet, t: Target, dec: Packets.Transcoder,
                 result: Response, panicked: bool, ghost s: Session)
    returns (result': Response, panicked': bool, ghost s': Session)
    requires t.address == q.address && t.port == q.port && t.reply == ReplyTo(dec)
    requires Tracks(q, cooldown, s, result, panicked)
    modifies q.socket
    ensures s' == Step(s, wanted, f, t) && Tracks(q, cooldown, s', result', panicked')
  {
    s' := Step(s, wanted, f, t);
    if wanted && !panicked {
      result', panicked' := RunFacet(q, f, t, dec, result, s);
    } else {
      result', panicked' := result, panicked;
    }
  }

  /** The extra-info facet: ask the cooldown gate, then run the facet if let through. */
  method RunExtraStep(q: Query, cooldown: CooldownTable, wanted: bool, key: string, now: u64, t: Target,
                      dec: Packets.Transcoder, result: Response, panicked: bool, ghost s: Session)
    returns (result': Response, panicked': bool, ghost s': Session)
    requires t.address == q.address && t.port == q.port && t.reply == ReplyTo(dec)
    requires Tracks(q, cooldown, s, result, panicked)
    modifies q.socket, cooldown
    ensures s' == ExtraStep(s, wanted, key, now, t) && Tracks(q, cooldown, s', result', panicked')
  {
    s' := ExtraStep(s, wanted, key, now, t);
    result', panicked' := result, panicked;
    if wanted && !panicked {
      var shouldRequest := cooldown.Admit(key, now);
      ghost var gated := s.(table := cooldown.last);
      if shouldRequest {
        result', panicked' := RunFacet(q, ExtraInfoFacet, t, dec, result, gated);
      }
    }
  }

  /** One facet of the command: send, receive, and fill in the facet's entry. */
  method RunFacet(q: Query, f: Facet, t: Target, dec: Packets.Transcoder, result: Response, ghost s: Session)
    returns (result': Response, panicked: bool)
    requires t.address == q.address && t.port == q.port && t.reply == ReplyTo(dec)
    requires s.sent == q.socket.sent && s.inbox == q.socket.inbox && s.response == result && !s.panicked
    modifies q.socket
    ensures var s' := Ask(s, f, t);
            q.socket.sent == s'.sent && q.socket.inbox == s'.inbox
            && panicked == s'.panicked && (!panicked ==> result' == s'.response)
  {
    var amt := q.Send(Opcode(f));
    var reply := q.Recv(dec);
    if reply.Panic? {
      return result, true;
    }
    result' := Record(result, f, reply, t.elapsedMs);
    panicked := false;
  }

  // ------------------------------------------------- the run as a plan

  /** Facets in increasing order of `Rank`, hence each at most once. */
  ghost predicate Ordered(plan: seq<Facet>) {
    forall i, j :: 0 <= i < j < |plan| ==> Rank(plan[i]) < Rank(plan[j])
  }

  /**
   * The facets a call runs, in order, when nothing panics: the requested
   * ones, extra info only when the cooldown gate admits it.
   */
  function Plan(flags: Flags, admitted: bool): seq<Facet> {
    Early(flags) + Late(flags, admitted)
  }

  /** The facets before extra info. */
  function Early(flags: Flags): seq<Facet> {
    Opt(flags.info, InfoFacet) + Opt(flags.players, PlayersFacet) + Opt(flags.rules, RulesFacet)
  }

  /** Extra info, if asked for and admitted, then ping. */
  function Late(flags: Flags, admitted: bool): seq<Facet> {
    Opt(flags.extraInfo && admitted, ExtraInfoFacet) + Opt(flags.ping, PingFacet)
  }

  /** `f` alone when `cond` holds, nothing otherwise. */
  function Opt(cond: bool, f: Facet): (plan: seq<Facet>)
    ensures |plan| <= 1 && forall g :: g in plan <==> cond && g == f
  {
    if cond then [f] else []
  }

  /**
   * The plan runs the requested facets, extra info only when admitted, each
   * once and in the fixed order info, players, rules, extra info, ping.
   */
  lemma PlanFacts(flags: Flags, admitted: bool)
    ensures Ordered(Plan(flags, admitted))
    ensures forall f :: f in Plan(flags, admitted) <==> Wanted(flags, f) && (f == ExtraInfoFacet ==> admitted)
    ensures forall f :: f in Early(flags) ==> Rank(f) < Rank(ExtraInfoFacet)
  {
    PlanOrdered(flags, admitted);
    PlanMembers(flags, admitted);
  }

  lemma PlanOrdered(flags: Flags, admitted: bool)
    ensures Ordered(Plan(flags, admitted))
  {
    var p1 := Opt(flags.info, InfoFacet);
    var p2 := Opt(flags.players, PlayersFacet);
    var p3 := Opt(flags.rules, RulesFacet);
    var p4 := Opt(flags.extraInfo && admitted, ExtraInfoFacet);
    var p5 := Opt(flags.ping, PingFacet);
    OrderedJoin(p1, p2, 1);
    OrderedJoin(p1 + p2, p3, 2);
    OrderedJoin(p4, p5, 4);
    OrderedJoin(p1 + p2 + p3, p4 + p5, 3);
  }

  lemma PlanMembers(flags: Flags, admitted: bool)
    ensures forall f :: f in Plan(flags, admitted) <==> Wanted(flags, f) && (f == ExtraInfoFacet ==> admitted)
    ensures forall f :: f in Early(flags) ==> Rank(f) < Rank(ExtraInfoFacet)
  {
    var p1 := Opt(flags.info, InfoFacet);
    var p2 := Opt(flags.players, PlayersFacet);
    var p3 := Opt(flags.rules, RulesFacet);
    var p4 := Opt(flags.extraInfo && admitted, ExtraInfoFacet);
    var p5 := Opt(flags.ping, PingFacet);
    forall f
      ensures f in Plan(flags, admitted) <==> f in p1 || f in p2 || f in p3 || f in p4 || f in p5
      ensures f in Early(flags) <==> f in p1 || f in p2 || f in p3
    {
      assert Plan(flags, admitted) == p1 + p2 + p3 + (p4 + p5);
    }
  }

  /** Two runs in rank order, all of the first ranked below `r` and all of the second not, join in rank order. */
  lemma OrderedJoin(a: seq<Facet>, b: seq<Facet>, r: nat)
    requires Ordered(a) && Ordered(b)
    requires (forall g :: g in a ==> Rank(g) < r) && (forall g :: g in b ==> r <= Rank(g))
    ensures Ordered(a + b)
  {
    forall i, j | 0 <= i < j < |a + b|
      ensures Rank((a + b)[i]) < Rank((a + b)[j])
    {
      if j < |a| {
      } else if i < |a| {
        assert (a + b)[i] in a && (a + b)[j] in b;
      } else {
        assert (a + b)[i] == b[i - |a|] && (a + b)[j] == b[j - |a|];
      }
    }
  }

  /** Facets run one after another, stopping at the first panic. */
  function RunPlan(s: Session, plan: seq<Facet>, t: Target): Session
    decreases |plan|
  {
    if plan == [] || s.panicked then s else RunPlan(Ask(s, plan[0], t), plan[1..], t)
  }

  /** The requests of a run of facets. */
  function Requests(address: Octets, port: int, plan: seq<Facet>): (r: seq<Bytes>)
    ensures |r| == |plan|
  {
    seq(|plan|, k requires 0 <= k < |plan| => RequestPacket(address, port, Opcode(plan[k])))
  }

  /** The `k`-th thing to arrive, counting from zero; silence once the server has said all. */
  function Arrival(inbox: seq<Incoming>, k: nat): Incoming {
    if k < |inbox| then inbox[k] else Silence
  }

  function Drop(inbox: seq<Incoming>, k: nat): seq<Incoming> {
    if k < |inbox| then inbox[k..] else []
  }

  /** No arrival from the `lo`-th up to before the `hi`-th makes a panic. */
  ghost predicate Calm(t: Target, inbox: seq<Incoming>, lo: nat, hi: nat) {
    forall k :: lo <= k < hi ==> !t.reply(Arrival(inbox, k)).Panic?
  }

  lemma DropNext(inbox: seq<Incoming>, k: nat)
    ensures Next(Drop(inbox, k)) == Arrival(inbox, k) && Later(Drop(inbox, k)) == Drop(inbox, k + 1)
  {
    if k + 1 < |inbox| {
      assert inbox[k..][1..] == inbox[k + 1..];
    }
  }

  lemma RequestsCons(sent: seq<Bytes>, address: Octets, port: int, plan: seq<Facet>, n: nat)
    requires 1 <= n <= |plan|
    ensures sent + [RequestPacket(address, port, Opcode(plan[0]))] + Requests(address, port, plan[1..][..n - 1])
            == sent + Requests(address, port, plan[..n])
  {
    var head := RequestPacket(address, port, Opcode(plan[0]));
    assert plan[1..][..n - 1] == plan[..n][1..];
    assert Requests(address, port, plan[..n]) == [head] + Requests(address, port, plan[1..][..n - 1]);
  }

  /** What one facet does to a session whose inbox is what is left after its requests so far. */
  lemma AskFacts(s: Session, f: Facet, t: Target, inbox: seq<Incoming>)
    requires !s.panicked && s.inbox == Drop(inbox, |s.sent|)
    ensures Ask(s, f, t).sent == s.sent + [RequestPacket(t.address, t.port, Opcode(f))]
    ensures Ask(s, f, t).inbox == Drop(inbox, |s.sent| + 1)
    ensures Ask(s, f, t).table == s.table
    ensures Ask(s, f, t).panicked == t.reply(Arrival(inbox, |s.sent|)).Panic?
    ensures !t.reply(Arrival(inbox, |s.sent|)).Panic?
            ==> Ask(s, f, t).response == Record(s.response, f, t.reply(Arrival(inbox, |s.sent|)), t.elapsedMs)
  {
    DropNext(inbox, |s.sent|);
  }

  /**
   * A run of facets sends their requests in plan order, one arrival taken
   * per request; without a panic it runs the whole plan.
   */
  lemma {:induction false} RunPlanSent(s: Session, plan: seq<Facet>, t: Target, inbox: seq<Incoming>)
    requires !s.panicked && s.inbox == Drop(inbox, |s.sent|)
    ensures var r := RunPlan(s, plan, t);
            |s.sent| <= |r.sent| <= |s.sent| + |plan|
            && r.sent == s.sent + Requests(t.address, t.port, plan[..|r.sent| - |s.sent|])
            && r.inbox == Drop(inbox, |r.sent|)
            && (!r.panicked ==> |r.sent| == |s.sent| + |plan|)
    decreases |plan|
  {
    var r := RunPlan(s, plan, t);
    if plan == [] {
      assert plan[..0] == [];
      assert s.sent + [] == s.sent;
    } else {
      var s1 := Ask(s, plan[0], t);
      AskFacts(s, plan[0], t, inbox);
      var head := RequestPacket(t.address, t.port, Opcode(plan[0]));
      assert r == RunPlan(s1, plan[1..], t);
      if s1.panicked {
        assert r == s1 && |r.sent| - |s.sent| == 1;
        assert Requests(t.address, t.port, plan[..1]) == [head];
      } else {
        RunPlanSent(s1, plan[1..], t, inbox);
        RequestsCons(s.sent, t.address, t.port, plan, |r.sent| - |s.sent|);
      }
    }
  }

  /**
   * A run stops right after the first arrival whose reply is a panic: the
   * last arrival taken panicked and none before it did.
   */
  lemma {:induction false} RunPlanPanics(s: Session, plan: seq<Facet>, t: Target, inbox: seq<Incoming>)
    requires !s.panicked && s.inbox == Drop(inbox, |s.sent|)
    ensures var r := RunPlan(s, plan, t);
            (r.panicked ==> |s.sent| < |r.sent| && t.reply(Arrival(inbox, |r.sent| - 1)).Panic?
                            && Calm(t, inbox, |s.sent|, |r.sent| - 1))
            && (!r.panicked ==> Calm(t, inbox, |s.sent|, |r.sent|))
    decreases |plan|
  {
    var r := RunPlan(s, plan, t);
    if plan != [] {
      var s1 := Ask(s, plan[0], t);
      AskFacts(s, plan[0], t, inbox);
      assert r == RunPlan(s1, plan[1..], t);
      if s1.panicked {
        assert r == s1 && |r.sent| - 1 == |s.sent|;
      } else {
        RunPlanPanics(s1, plan[1..], t, inbox);
        RunPlanSent(s1, plan[1..], t, inbox);
        CalmCons(t, inbox, |s.sent|, if r.panicked then |r.sent| - 1 else |r.sent|);
      }
    }
  }

  lemma CalmCons(t: Target, inbox: seq<Incoming>, lo: nat, hi: nat)
    requires lo < hi && !t.reply(Arrival(inbox, lo)).Panic? && Calm(t, inbox, lo + 1, hi)
    ensures Calm(t, inbox, lo, hi)
  {
  }

  /**
   * A run of facets in rank order without a panic fills in the entry of
   * each from the arrival its request was answered by, and leaves the
   * entries of facets outside the plan alone.
   */
  lemma {:induction false} RunPlanEntries(s: Session, plan: seq<Facet>, t: Target, inbox: seq<Incoming>)
    requires !s.panicked && s.inbox == Drop(inbox, |s.sent|) && Ordered(plan)
    requires !RunPlan(s, plan, t).panicked
    ensures var r := RunPlan(s, plan, t);
            forall f :: f !in plan ==> EntryOf(r.response, f) == EntryOf(s.response, f)
    ensures var r := RunPlan(s, plan, t);
            forall k :: 0 <= k < |plan| ==> Filled(r.response, plan[k], t, inbox, |s.sent| + k)
    decreases |plan|
  {
    var r := RunPlan(s, plan, t);
    if plan != [] {
      var s1 := Ask(s, plan[0], t);
      AskFacts(s, plan[0], t, inbox);
      assert !s1.panicked;
      assert r == RunPlan(s1, plan[1..], t);
      RunPlanEntries(s1, plan[1..], t, inbox);
      OrderedTail(plan);
      forall f | f !in plan
        ensures EntryOf(r.response, f) == EntryOf(s.response, f)
      {
        assert f !in plan[1..] && f != plan[0];
      }
      forall k | 0 <= k < |plan|
        ensures Filled(r.response, plan[k], t, inbox, |s.sent| + k)
      {
        if k > 0 {
          assert plan[k] == plan[1..][k - 1];
          assert |s1.sent| + (k - 1) == |s.sent| + k;
        }
      }
    }
  }

  /** The entry of `f` holds what the `k`-th arrival settles it to, and that arrival did not panic. */
  ghost predicate Filled(r: Response, f: Facet, t: Target, inbox: seq<Incoming>, k: nat) {
    var reply := t.reply(Arrival(inbox, k));
    !reply.Panic? && EntryOf(r, f) == Settled(f, reply, t.elapsedMs)
  }

  lemma OrderedTail(plan: seq<Facet>)
    requires Ordered(plan) && plan != []
    ensures Ordered(plan[1..]) && plan[0] !in plan[1..]
  {
    forall j | 0 <= j < |plan| - 1
      ensures plan[1..][j] != plan[0]
    {
      assert Rank(plan[0]) < Rank(plan[j + 1]);
    }
  }

  lemma {:induction false} RunPlanAppend(s: Session, a: seq<Facet>, b: seq<Facet>, t: Target)
    ensures RunPlan(s, a + b, t) == RunPlan(RunPlan(s, a, t), b, t)
    decreases |a|
  {
    if a == [] {
      assert a + b == b;
    } else if !s.panicked {
      assert (a + b)[0] == a[0] && (a + b)[1..] == a[1..] + b;
      RunPlanAppend(Ask(s, a[0], t), a[1..], b, t);
    }
  }

  /** The cooldown table plays no part in running facets. */
  lemma {:induction false} RunPlanTable(s: Session, x: map<string, u64>, plan: seq<Facet>, t: Target)
    ensures RunPlan(s.(table := x), plan, t) == RunPlan(s, plan, t).(table := x)
    decreases |plan|
  {
    if plan != [] && !s.panicked {
      assert Ask(s.(table := x), plan[0], t) == Ask(s, plan[0], t).(table := x);
      RunPlanTable(Ask(s, plan[0], t), x, plan[1..], t);
    }
  }

  lemma StepIsPlan(s: Session, wanted: bool, f: Facet, t: Target)
    ensures Step(s, wanted, f, t) == RunPlan(s, if wanted then [f] else [], t)
  {
    if wanted && !s.panicked {
      assert RunPlan(s, [f], t) == RunPlan(Ask(s, f, t), [], t);
    }
  }

  lemma ExtraStepIsPlan(s: Session, wanted: bool, key: string, now: u64, t: Target)
    ensures ExtraStep(s, wanted, key, now, t)
            == RunPlan(s.(table := if wanted && !s.panicked then Gate(s.table, key, now).1 else s.table),
                       if wanted && Admits(s.table, key, now) then [ExtraInfoFacet] else [], t)
  {
    if wanted && !s.panicked && Admits(s.table, key, now) {
      var s1 := s.(table := Gate(s.table, key, now).1);
      assert RunPlan(s1, [ExtraInfoFacet], t) == RunPlan(Ask(s1, ExtraInfoFacet, t), [], t);
    }
  }

  /** Running facets leaves the cooldown table alone. */
  lemma {:induction false} RunPlanKeepsTable(s: Session, plan: seq<Facet>, t: Target)
    ensures RunPlan(s, plan, t).table == s.table
    decreases |plan|
  {
    if plan != [] && !s.panicked {
      RunPlanKeepsTable(Ask(s, plan[0], t), plan[1..], t);
    }
  }

  /**
   * The five facets of `query_server` are the plan for the requested facets
   * (extra info only when the gate admits it), run until the first panic;
   * the table is the gate's when the extra-info facet was reached.
   */
  lemma FacetsIsPlan(t: Target, key: string, flags: Flags, inbox: seq<Incoming>,
                     table: map<string, u64>, now: u64)
    ensures var s0 := Session([], inbox, table, NOTHING_YET, false);
            var reached := flags.extraInfo && !RunPlan(s0, Early(flags), t).panicked;
            var table' := if reached then Gate(table, key, now).1 else table;
            Facets(t, key, flags, inbox, table, now)
            == RunPlan(s0, Plan(flags, Admits(table, key, now)), t).(table := table')
  {
    var s0 := Session([], inbox, table, NOTHING_YET, false);
    var early := Early(flags);
    var late := Late(flags, Admits(table, key, now));
    var s1 := Step(s0, flags.info, InfoFacet, t);
    var s2 := Step(s1, flags.players, PlayersFacet, t);
    var s3 := Step(s2, flags.rules, RulesFacet, t);
    var s4 := ExtraStep(s3, flags.extraInfo, key, now, t);
    var s5 := Step(s4, flags.ping, PingFacet, t);
    EarlyIsPlan(s0, flags, t);
    RunPlanKeepsTable(s0, early, t);
    LateIsPlan(s3, flags, key, now, t);
    RunPlanAppend(s0, early, late, t);
    FacetsChain(t, key, flags, inbox, table, now, s0, s1, s2, s3, s4, s5);
  }

  lemma EarlyIsPlan(s0: Session, flags: Flags, t: Target)
    ensures Step(Step(Step(s0, flags.info, InfoFacet, t), flags.players, PlayersFacet, t), flags.rules, RulesFacet, t)
            == RunPlan(s0, Early(flags), t)
  {
    var p1 := if flags.info then [InfoFacet] else [];
    var p2 := if flags.players then [PlayersFacet] else [];
    var p3 := if flags.rules then [RulesFacet] else [];
    var s1 := Step(s0, flags.info, InfoFacet, t);
    var s2 := Step(s1, flags.players, PlayersFacet, t);
    StepIsPlan(s0, flags.info, InfoFacet, t);
    StepIsPlan(s1, flags.players, PlayersFacet, t);
    StepIsPlan(s2, flags.rules, RulesFacet, t);
    RunPlanAppend(s0, p1, p2, t);
    RunPlanAppend(s0, p1 + p2, p3, t);
  }

  lemma LateIsPlan(s3: Session, flags: Flags, key: string, now: u64, t: Target)
    ensures var reached := flags.extraInfo && !s3.panicked;
            var table' := if reached then Gate(s3.table, key, now).1 else s3.table;
            Step(ExtraStep(s3, flags.extraInfo, key, now, t), flags.ping, PingFacet, t)
            == RunPlan(s3, Late(flags, Admits(s3.table, key, now)), t).(table := table')
  {
    var p4 := if flags.extraInfo && Admits(s3.table, key, now) then [ExtraInfoFacet] else [];
    var p5 := if flags.ping then [PingFacet] else [];
    var reached := flags.extraInfo && !s3.panicked;
    var table' := if reached then Gate(s3.table, key, now).1 else s3.table;
    var s4 := ExtraStep(s3, flags.extraInfo, key, now, t);
    ExtraStepIsPlan(s3, flags.extraInfo, key, now, t);
    StepIsPlan(s4, flags.ping, PingFacet, t);
    RunPlanTable(s3, table', p4, t);
    RunPlanTable(RunPlan(s3, p4, t), table', p5, t);
    RunPlanAppend(s3, p4, p5, t);
    assert s3.(table := table') == s3 || reached;
  }

  /**
   * Where the table ends up: the gate's table exactly when an extra-info
   * request went out, that is, when the gate admitted it and the facets
   * before it did not panic.
   */
  lemma FacetsTable(t: Target, key: string, flags: Flags, inbox: seq<Incoming>,
                    table: map<string, u64>, now: u64)
    ensures var s0 := Session([], inbox, table, NOTHING_YET, false);
            var plan := Plan(flags, Admits(table, key, now));
            var reached := flags.extraInfo && !RunPlan(s0, Early(flags), t).panicked;
            var n := |RunPlan(s0, plan, t).sent|;
            n <= |plan|
            && (if reached then Gate(table, key, now).1 else table)
               == (if ExtraInfoFacet in plan[..n] then Gate(table, key, now).1 else table)
  {
    var s0 := Session([], inbox, table, NOTHING_YET, false);
    var admitted := Admits(table, key, now);
    ExtraInPlanRun(s0, flags, admitted, t);
    if flags.extraInfo && !admitted {
      assert Gate(table, key, now).1 == table;
    }
  }

  /**
   * The extra-info request is among those a run from the start sends
   * exactly when it is in the plan and the early facets do not panic.
   */
  lemma ExtraInPlanRun(s0: Session, flags: Flags, admitted: bool, t: Target)
    requires s0.sent == [] && !s0.panicked
    ensures var plan := Plan(flags, admitted);
            var n := |RunPlan(s0, plan, t).sent|;
            n <= |plan|
            && (ExtraInfoFacet in plan[..n] <==> flags.extraInfo && admitted && !RunPlan(s0, Early(flags), t).panicked)
  {
    var plan := Plan(flags, admitted);
    var n := |RunPlan(s0, plan, t).sent|;
    var inbox := s0.inbox;
    assert Drop(inbox, 0) == inbox;
    RunPlanSent(s0, plan, t, inbox);
    PlanFacts(flags, admitted);
    if flags.extraInfo && admitted {
      ExtraSent(s0, Early(flags), Late(flags, admitted), t, inbox);
    } else {
      SliceKeepsOut(plan, n, ExtraInfoFacet);
    }
  }

  lemma SliceKeepsOut(plan: seq<Facet>, n: nat, f: Facet)
    requires n <= |plan| && f !in plan
    ensures f !in plan[..n]
  {
    assert forall i :: 0 <= i < n ==> plan[..n][i] == plan[i];
  }

  /**
   * With extra info right after the early facets, its request goes out
   * exactly when the early facets do not panic.
   */
  lemma ExtraSent(s: Session, early: seq<Facet>, late: seq<Facet>, t: Target, inbox: seq<Incoming>)
    requires !s.panicked && s.sent == [] && s.inbox == Drop(inbox, 0)
    requires ExtraInfoFacet !in early && late != [] && late[0] == ExtraInfoFacet
    ensures var r := RunPlan(s, early + late, t);
            |r.sent| <= |early + late|
            && (ExtraInfoFacet in (early + late)[..|r.sent|] <==> !RunPlan(s, early, t).panicked)
  {
    var plan := early + late;
    var r := RunPlan(s, plan, t);
    var m := RunPlan(s, early, t);
    RunPlanAppend(s, early, late, t);
    RunPlanCount(s, early, t, inbox);
    if m.panicked {
      assert r == m;
      EarlySlice(early, late, |r.sent|);
    } else {
      RunPlanCount(m, late, t, inbox);
      LateSlice(early, late, |r.sent|);
    }
  }

  lemma EarlySlice(early: seq<Facet>, late: seq<Facet>, n: nat)
    requires n <= |early| && ExtraInfoFacet !in early
    ensures ExtraInfoFacet !in (early + late)[..n]
  {
    assert (early + late)[..n] == early[..n];
    SliceKeepsOut(early, n, ExtraInfoFacet);
  }

  lemma LateSlice(early: seq<Facet>, late: seq<Facet>, n: nat)
    requires |early| < n <= |early| + |late| && late[0] == ExtraInfoFacet
    ensures ExtraInfoFacet in (early + late)[..n]
  {
    assert (early + late)[..n][|early|] == ExtraInfoFacet;
  }

  /** How many requests a run sends: all of the plan, or up to and including the one that panicked. */
  lemma RunPlanCount(s: Session, plan: seq<Facet>, t: Target, inbox: seq<Incoming>)
    requires !s.panicked && s.inbox == Drop(inbox, |s.sent|)
    ensures var r := RunPlan(s, plan, t);
            |s.sent| <= |r.sent| <= |s.sent| + |plan| && r.inbox == Drop(inbox, |r.sent|)
            && (!r.panicked ==> |r.sent| == |s.sent| + |plan|)
            && (r.panicked ==> |s.sent| < |r.sent|)
  {
    RunPlanSent(s, plan, t, inbox);
    RunPlanPanics(s, plan, t, inbox);
  }


  /**
   * A call that opened its query sends the requests of a prefix of the plan,
   * the whole plan unless an arrival panicked, and that arrival is the last
   * one taken; the table changes only through an extra-info request that
   * went out.
   */
  lemma FacetsTrace(t: Target, key: string, flags: Flags, inbox: seq<Incoming>,
                    table: map<string, u64>, now: u64)
    ensures var s := Facets(t, key, flags, inbox, table, now);
            var plan := Plan(flags, Admits(table, key, now));
            var n := |s.sent|;
            n <= |plan| && s.sent == Requests(t.address, t.port, plan[..n])
            && s.table == (if ExtraInfoFacet in plan[..n] then Gate(table, key, now).1 else table)
            && (s.panicked ==> 0 < n && t.reply(Arrival(inbox, n - 1)).Panic? && Calm(t, inbox, 0, n - 1))
            && (!s.panicked ==> n == |plan|)
  {
    var s0 := Session([], inbox, table, NOTHING_YET, false);
    FacetsIsPlan(t, key, flags, inbox, table, now);
    RunFromStart(s0, Plan(flags, Admits(table, key, now)), t);
    FacetsTable(t, key, flags, inbox, table, now);
  }

  /** `RunPlanSent` and `RunPlanPanics` for a run that starts with nothing sent. */
  lemma RunFromStart(s0: Session, plan: seq<Facet>, t: Target)
    requires s0.sent == [] && !s0.panicked
    ensures var r := RunPlan(s0, plan, t);
            var n := |r.sent|;
            n <= |plan| && r.sent == Requests(t.address, t.port, plan[..n])
            && (r.panicked ==> 0 < n && t.reply(Arrival(s0.inbox, n - 1)).Panic? && Calm(t, s0.inbox, 0, n - 1))
            && (!r.panicked ==> n == |plan|)
  {
    var r := RunPlan(s0, plan, t);
    assert Drop(s0.inbox, 0) == s0.inbox;
    RunPlanSent(s0, plan, t, s0.inbox);
    RunPlanPanics(s0, plan, t, s0.inbox);
    assert [] + Requests(t.address, t.port, plan[..|r.sent|]) == Requests(t.address, t.port, plan[..|r.sent|]);
  }

  /**
   * A call without a panic fills in exactly the facets of the plan, each
   * from the arrival its request was answered by.
   */
  lemma FacetsEntries(t: Target, key: string, flags: Flags, inbox: seq<Incoming>,
                      table: map<string, u64>, now: u64)
    requires !Facets(t, key, flags, inbox, table, now).panicked
    ensures var r := Facets(t, key, flags, inbox, table, now).response;
            var plan := Plan(flags, Admits(table, key, now));
            (forall f :: f !in plan ==> EntryOf(r, f) == Unset)
            && forall k :: 0 <= k < |plan| ==> Filled(r, plan[k], t, inbox, k)
  {
    var s0 := Session([], inbox, table, NOTHING_YET, false);
    var plan := Plan(flags, Admits(table, key, now));
    var run := RunPlan(s0, plan, t);
    assert Facets(t, key, flags, inbox, table, now).response == run.response && !run.panicked by {
      FacetsIsPlan(t, key, flags, inbox, table, now);
    }
    PlanEntries(s0, flags, Admits(table, key, now), t);
  }

  /** `RunPlanEntries` for a plan run from the start, with nothing filled in yet. */
  lemma PlanEntries(s0: Session, flags: Flags, admitted: bool, t: Target)
    requires s0.sent == [] && !s0.panicked && s0.response == NOTHING_YET
    requires !RunPlan(s0, Plan(flags, admitted), t).panicked
    ensures var r := RunPlan(s0, Plan(flags, admitted), t).response;
            var plan := Plan(flags, admitted);
            (forall f :: f !in plan ==> EntryOf(r, f) == Unset)
            && forall k :: 0 <= k < |plan| ==> Filled(r, plan[k], t, s0.inbox, k)
  {
    var plan := Plan(flags, admitted);
    assert Drop(s0.inbox, 0) == s0.inbox;
    PlanOrdered(flags, admitted);
    RunPlanEntries(s0, plan, t, s0.inbox);
    assert forall f :: EntryOf(NOTHING_YET, f) == Unset;
  }

  // ------------------------------------------------- the call as a whole

  /** Only an address that `Query::new` cannot settle on makes the call fail, with its error. */
  lemma ServeRejected(ip: string, port: int, flags: Flags, lookup: Lookup, inbox: seq<Incoming>,
                      table: map<string, u64>, now: u64, elapsedMs: nat, reply: Incoming -> Reply)
    ensures var served := Serve(ip, port, flags, lookup, inbox, table, now, elapsedMs, reply);
            served.outcome.Rejected? <==> ResolveAddress(ip, lookup).Failure?
    ensures ResolveAddress(ip, lookup).Failure?
            ==> Serve(ip, port, flags, lookup, inbox, table, now, elapsedMs, reply)
                == Served(Rejected(INVALID_ADDRESS), [], table)
  {
  }

  /**
   * What goes out and what the table becomes: the requests of the plan in
   * order, up to the first reply that panics, after which nothing more is
   * sent and the call is aborted; the table records `now` for the key
   * exactly when an extra-info request went out.
   */
  lemma ServeTrace(ip: string, port: int, flags: Flags, lookup: Lookup, inbox: seq<Incoming>,
                   table: map<string, u64>, now: u64, elapsedMs: nat, reply: Incoming -> Reply)
    requires ResolveAddress(ip, lookup).Success?
    ensures var served := Serve(ip, port, flags, lookup, inbox, table, now, elapsedMs, reply);
            var address := ResolveAddress(ip, lookup).value;
            var plan := Plan(flags, Admits(table, Key(ip, port), now));
            var n := |served.sent|;
            n <= |plan| && served.sent == Requests(address, port, plan[..n])
            && served.table == (if ExtraInfoFacet in plan[..n] then Gate(table, Key(ip, port), now).1 else table)
            && (served.outcome.Aborted? ==>
                  0 < n && reply(Arrival(inbox, n - 1)).Panic?
                  && forall k :: 0 <= k < n - 1 ==> !reply(Arrival(inbox, k)).Panic?)
            && (served.outcome.Answered? ==> n == |plan|)
  {
    var served := Serve(ip, port, flags, lookup, inbox, table, now, elapsedMs, reply);
    var address := ResolveAddress(ip, lookup).value;
    var t := Target(address, port, elapsedMs, reply);
    var key := Key(ip, port);
    var s := Facets(t, key, flags, inbox, table, now);
    assert served.sent == s.sent && served.table == s.table
           && (served.outcome.Aborted? <==> s.panicked) && (served.outcome.Answered? <==> !s.panicked);
    FacetsTrace(t, key, flags, inbox, table, now);
    if s.panicked {
      assert Calm(t, inbox, 0, |s.sent| - 1);
    }
  }

  /**
   * An answered call holds an entry for exactly the facets of the plan:
   * each the payload or error text of the reply its request got (an error
   * does not stop the facets after it), the ping as its time or 9999.
   */
  lemma ServeAnswered(ip: string, port: int, flags: Flags, lookup: Lookup, inbox: seq<Incoming>,
                      table: map<string, u64>, now: u64, elapsedMs: nat, reply: Incoming -> Reply)
    requires Serve(ip, port, flags, lookup, inbox, table, now, elapsedMs, reply).outcome.Answered?
    ensures ResolveAddress(ip, lookup).Success?
    ensures var served := Serve(ip, port, flags, lookup, inbox, table, now, elapsedMs, reply);
            var plan := Plan(flags, Admits(table, Key(ip, port), now));
            var response := served.outcome.response;
            served.sent == Requests(ResolveAddress(ip, lookup).value, port, plan)
            && (forall f :: f !in plan ==> EntryOf(response, f) == Unset)
            && forall k :: 0 <= k < |plan| ==>
                 !reply(Arrival(inbox, k)).Panic?
                 && EntryOf(response, plan[k]) == Settled(plan[k], reply(Arrival(inbox, k)), elapsedMs)
  {
    var served := Serve(ip, port, flags, lookup, inbox, table, now, elapsedMs, reply);
    assert ResolveAddress(ip, lookup).Success?;
    var address := ResolveAddress(ip, lookup).value;
    var t := Target(address, port, elapsedMs, reply);
    var key := Key(ip, port);
    var s := Facets(t, key, flags, inbox, table, now);
    assert !s.panicked && served.sent == s.sent && served.outcome.response == s.response;
    var plan := Plan(flags, Admits(table, key, now));
    FacetsTrace(t, key, flags, inbox, table, now);
    assert plan[..|plan|] == plan;
    FacetsEntries(t, key, flags, inbox, table, now);
    forall k | 0 <= k < |plan|
      ensures !reply(Arrival(inbox, k)).Panic?
              && EntryOf(s.response, plan[k]) == Settled(plan[k], reply(Arrival(inbox, k)), elapsedMs)
    {
      assert Filled(s.response, plan[k], t, inbox, k);
    }
  }

  /**
   * When the cooldown gate refuses, the table stays as it was, no
   * extra-info request goes out, and an answered call has no extra-info entry.
   */
  lemma ExtraInfoSuppressed(ip: string, port: int, flags: Flags, lookup: Lookup, inbox: seq<Incoming>,
                            table: map<string, u64>, now: u64, elapsedMs: nat, reply: Incoming -> Reply)
    requires ResolveAddress(ip, lookup).Success? && !Admits(table, Key(ip, port), now)
    ensures var served := Serve(ip, port, flags, lookup, inbox, table, now, elapsedMs, reply);
            served.table == table
            && (forall k :: 0 <= k < |served.sent| ==> |served.sent[k]| > 10 && served.sent[k][10] != TAG_EXTRA)
            && (served.outcome.Answered? ==> served.outcome.response.extraInfo.None?)
  {
    var served := Serve(ip, port, flags, lookup, inbox, table, now, elapsedMs, reply);
    var address := ResolveAddress(ip, lookup).value;
    var plan := Plan(flags, false);
    var n := |served.sent|;
    ServeTrace(ip, port, flags, lookup, inbox, table, now, elapsedMs, reply);
    PlanFacts(flags, false);
    NoExtraRequest(address, port, plan, n);
    if served.outcome.Answered? {
      ServeAnswered(ip, port, flags, lookup, inbox, table, now, elapsedMs, reply);
      assert EntryOf(served.outcome.response, ExtraInfoFacet) == Unset;
    }
  }

  /** No request of a plan without extra info carries the extra-info opcode. */
  lemma NoExtraRequest(address: Octets, port: int, plan: seq<Facet>, n: nat)
    requires n <= |plan| && ExtraInfoFacet !in plan
    ensures forall k :: 0 <= k < n ==> var b := Requests(address, port, plan[..n])[k]; |b| > 10 && b[10] != TAG_EXTRA
  {
    forall k | 0 <= k < n
      ensures |Requests(address, port, plan[..n])[k]| > 10 && Requests(address, port, plan[..n])[k][10] != TAG_EXTRA
    {
      assert plan[..n][k] == plan[k] && plan[k] in plan;
    }
  }
}
