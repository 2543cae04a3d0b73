/**
 The request protocol between the dashboard and its worker (dashboard/src/useEngineWorker.ts, and the dispatch of
 dashboard/src/worker.ts). The page numbers its requests and keeps the promises of unanswered ones in `pending`;
 the worker starts its asynchronous handlers in order, but they finish in any order.
 */
module EngineWorker {
  import opened Wrappers

  datatype RequestKind = Expand | ListNodes | ComputeSlice | BlastRadius | ComputeDataflow | LoadCfgDetail

  datatype PayloadKind = Subgraph | NodeList | SliceResult | BlastResult | DataflowResult | CfgDetailResult

  /** The kind of payload that each handler posts. */
  function AnswerKind(kind: RequestKind): PayloadKind {
    match kind
    case Expand => Subgraph
    case ListNodes => NodeList
    case ComputeSlice => SliceResult
    case BlastRadius => BlastResult
    case ComputeDataflow => DataflowResult
    case LoadCfgDetail => CfgDetailResult
  }

  /** The kind of payload that the page promises to who makes the request. */
  function PromisedKind(kind: RequestKind): PayloadKind {
    match kind
    case Expand => Subgraph
    case ListNodes => NodeList
    case ComputeSlice => SliceResult
    case BlastRadius => BlastResult
    case ComputeDataflow => DataflowResult
    case LoadCfgDetail => CfgDetailResult
  }

  datatype WorkerIn = Init | Request(requestId: nat, kind: RequestKind, args: string)

  datatype WorkerOut =
    | Ready
    | Payload(requestId: nat, payloadKind: PayloadKind, content: string)
    | Error(failed: Option<nat>, message: string)

  /** How a promise ends. */
  datatype Settlement = Resolved(payloadKind: PayloadKind, content: string) | Rejected(message: string)

  // ---------------------------------------------------------------- the page

  /** The state of the hook: `settled` lists the resolve and reject calls made so far. */
  datatype Page = Page(
    running: bool,
    nextId: nat,
    pending: set<nat>,
    settled: seq<(nat, Settlement)>,
    ready: bool,
    error: Option<string>)

  function Sent(p: Page): Page {
    p.(nextId := p.nextId + 1, pending := p.pending + {p.nextId})
  }

  function Settle(p: Page, id: nat, outcome: Settlement): Page {
    if id in p.pending then p.(pending := p.pending - {id}, settled := p.settled + [(id, outcome)]) else p
  }

  function Received(p: Page, data: WorkerOut): Page {
    match data
    case Ready => p.(ready := true)
    case Error(None, message) => p.(error := Some(message))
    case Error(Some(id), message) => Settle(p, id, Rejected(message))
    case Payload(id, kind, content) => Settle(p, id, Resolved(kind, content))
  }

  /** The hook, updating its references in place. */
  class EngineClient {
    var running: bool
    var nextId: nat
    var pending: set<nat>
    var settled: seq<(nat, Settlement)>
    var ready: bool
    var error: Option<string>
    var posted: seq<WorkerIn>

    /** Mounting starts the worker and posts the init message. */
    constructor ()
      ensures View() == FreshPage() && posted == [Init]
    {
      running, nextId, pending, settled, ready, error := true, 1, {}, [], false, None;
      posted := [Init];
    }

    function View(): Page
      reads this
    {
      Page(running, nextId, pending, settled, ready, error)
    }

    /** Number the request, remember its promise, post it. Without a worker the promise is rejected at once. */
    method Send(kind: RequestKind, args: string) returns (requestId: Option<nat>)
      modifies this
      ensures old(running) ==>
                && requestId == Some(old(nextId)) && View() == Sent(old(View()))
                && posted == old(posted) + [Request(old(nextId), kind, args)]
      ensures !old(running) ==> requestId == None && View() == old(View()) && posted == old(posted)
    {
      if !running {
        return None;
      }
      var id := nextId;
      nextId := nextId + 1;
      pending := pending + {id};
      posted := posted + [Request(id, kind, args)];
      return Some(id);
    }

    method OnMessage(data: WorkerOut)
      modifies this
      ensures View() == Received(old(View()), data) && posted == old(posted)
      ensures running == old(running) && nextId == old(nextId)
      ensures data.Ready? ==>
                ready && error == old(error) && pending == old(pending) && settled == old(settled)
      ensures data.Error? && data.failed.None? ==>
                error == Some(data.message) && ready == old(ready) && pending == old(pending) && settled == old(settled)
      ensures data.Error? && data.failed.Some? ==>
                && pending == old(pending) - {data.failed.value} && ready == old(ready) && error == old(error)
                && settled == old(settled) +
                     if data.failed.value in old(pending) then [(data.failed.value, Rejected(data.message))] else []
      ensures data.Payload? ==>
                && pending == old(pending) - {data.requestId} && ready == old(ready) && error == old(error)
                && settled == old(settled) +
                     if data.requestId in old(pending) then [(data.requestId, Resolved(data.payloadKind, data.content))]
                     else []
    {
      if data.Ready? {
        ready := true;
        return;
      }
      if data.Error? {
        if data.failed.Some? {
          var id := data.failed.value;
          if id in pending {
            settled := settled + [(id, Rejected(data.message))];
          }
          pending := pending - {id};
        } else {
          error := Some(data.message);
        }
        return;
      }
      if data.requestId !in pending {
        return;
      }
      pending := pending - {data.requestId};
      settled := settled + [(data.requestId, Resolved(data.payloadKind, data.content))];
    }

    /** Unmounting terminates the worker; the promises still pending are left as they are. */
    method Unmount()
      modifies this
      ensures View() == old(View()).(running := false) && posted == old(posted)
    {
      running := false;
    }
  }

  function FreshPage(): Page {
    Page(true, 1, {}, [], false, None)
  }

  // ---------------------------------------------------------------- page, worker and channels together

  /** What was asked under each id, and what a handler would compute for it if it succeeds. */
  type Asked = map<nat, (RequestKind, string)>

  type Compute = (RequestKind, string) -> Option<string>

  datatype System = System(page: Page, inbox: seq<WorkerIn>, handling: seq<WorkerIn>, channel: seq<WorkerOut>,
    asked: Asked)

  function Started(): System {
    System(FreshPage(), [Init], [], [], map[])
  }

  function Without<T>(s: seq<T>, i: nat): seq<T>
    requires i < |s|
  {
    s[..i] + s[i + 1..]
  }

  /** Sending is always possible; without a worker it rejects a promise that got no number, and changes nothing. */
  datatype Step =
    | Send(kind: RequestKind, args: string)
    | Dispatch
    | Finish(i: nat, reply: WorkerOut)
    | Deliver
    | Unmount

  /** A handler answers its own request, with the right kind of payload or an error; init reports ready or an error. */
  ghost predicate MayReply(compute: Compute, msg: WorkerIn, reply: WorkerOut) {
    match msg
    case Init => reply.Ready? || (reply.Error? && reply.failed == None)
    case Request(id, kind, args) =>
      || (reply.Error? && reply.failed == Some(id))
      || (reply.Payload? && reply.requestId == id && reply.payloadKind == AnswerKind(kind)
          && compute(kind, args) == Some(reply.content))
  }

  ghost predicate Enabled(compute: Compute, s: System, step: Step) {
    match step
    case Send(_, _) => true
    case Dispatch => s.inbox != []
    case Finish(i, reply) => i < |s.handling| && MayReply(compute, s.handling[i], reply)
    case Deliver => s.page.running && s.channel != []
    case Unmount => s.page.running
  }

  ghost function Apply(compute: Compute, s: System, step: Step): System
    requires Enabled(compute, s, step)
  {
    match step
    case Send(kind, args) =>
      if !s.page.running then s
      else
        s.(page := Sent(s.page),
           inbox := s.inbox + [Request(s.page.nextId, kind, args)],
           asked := s.asked[s.page.nextId := (kind, args)])
    case Dispatch => s.(inbox := s.inbox[1..], handling := s.handling + [s.inbox[0]])
    case Finish(i, reply) => s.(handling := Without(s.handling, i), channel := s.channel + [reply])
    case Deliver => s.(page := Received(s.page, s.channel[0]), channel := s.channel[1..])
    case Unmount => s.(page := s.page.(running := false), inbox := [], handling := [], channel := [])
  }

  // ---------------------------------------------------------------- where an id is

  function One(b: bool): nat {
    if b then 1 else 0
  }

  /** How often an id occurs among requests, among replies, and among settlements. */
  function InCount(msgs: seq<WorkerIn>, id: nat): nat {
    if msgs == [] then 0 else One(Asks(msgs[0], id)) + InCount(msgs[1..], id)
  }

  function OutCount(msgs: seq<WorkerOut>, id: nat): nat {
    if msgs == [] then 0 else One(Replies(msgs[0], id)) + OutCount(msgs[1..], id)
  }

  function SettledCount(settled: seq<(nat, Settlement)>, id: nat): nat {
    if settled == [] then 0 else One(settled[0].0 == id) + SettledCount(settled[1..], id)
  }

  predicate Asks(msg: WorkerIn, id: nat) {
    msg.Request? && msg.requestId == id
  }

  predicate Replies(reply: WorkerOut, id: nat) {
    (reply.Payload? && reply.requestId == id) || (reply.Error? && reply.failed == Some(id))
  }

  /** An id on its way: waiting in the inbox, being handled, or answered but not delivered. */
  function Underway(s: System, id: nat): nat {
    InCount(s.inbox, id) + InCount(s.handling, id) + OutCount(s.channel, id)
  }

  function Issued(nextId: nat): (ids: set<nat>)
    ensures forall id :: id in ids <==> 1 <= id < nextId
  {
    if nextId <= 1 then {} else Issued(nextId - 1) + {nextId - 1}
  }

  lemma {:induction false} InCountConcat(a: seq<WorkerIn>, b: seq<WorkerIn>, id: nat)
    ensures InCount(a + b, id) == InCount(a, id) + InCount(b, id)
  {
    if a == [] {
      assert a + b == b;
    } else {
      InCountConcat(a[1..], b, id);
      assert (a + b)[1..] == a[1..] + b;
    }
  }

  lemma {:induction false} OutCountConcat(a: seq<WorkerOut>, b: seq<WorkerOut>, id: nat)
    ensures OutCount(a + b, id) == OutCount(a, id) + OutCount(b, id)
  {
    if a == [] {
      assert a + b == b;
    } else {
      OutCountConcat(a[1..], b, id);
      assert (a + b)[1..] == a[1..] + b;
    }
  }

  lemma {:induction false} SettledCountConcat(a: seq<(nat, Settlement)>, b: seq<(nat, Settlement)>, id: nat)
    ensures SettledCount(a + b, id) == SettledCount(a, id) + SettledCount(b, id)
  {
    if a == [] {
      assert a + b == b;
    } else {
      SettledCountConcat(a[1..], b, id);
      assert (a + b)[1..] == a[1..] + b;
    }
  }

  lemma {:induction false} InCountWithout(msgs: seq<WorkerIn>, i: nat, id: nat)
    requires i < |msgs|
    ensures InCount(msgs, id) == InCount(Without(msgs, i), id) + One(Asks(msgs[i], id))
  {
    var before, after := msgs[..i], msgs[i..];
    assert msgs == before + after;
    InCountConcat(before, after, id);
    assert after[1..] == msgs[i + 1..];
    InCountConcat(before, msgs[i + 1..], id);
  }

  // ---------------------------------------------------------------- the invariant

  /** An issued id is pending or settled, once; and while the worker runs, it is pending when it is underway, once. */
  ghost predicate AccountedFor(s: System, id: nat) {
    && One(id in s.page.pending) + SettledCount(s.page.settled, id) == One(1 <= id < s.page.nextId)
    && (s.page.running ==> Underway(s, id) == One(id in s.page.pending))
  }

  ghost predicate Accounted(s: System) {
    && s.page.nextId >= 1
    && (forall id: nat :: AccountedFor(s, id))
    && (!s.page.running ==> s.inbox == [] && s.handling == [] && s.channel == [])
  }

  /** Whatever is on its way or settled belongs to the request of its id. */
  ghost predicate Matching(compute: Compute, s: System) {
    && s.asked.Keys == Issued(s.page.nextId)
    && (forall m <- s.inbox | m.Request? :: m.requestId in s.asked && s.asked[m.requestId] == (m.kind, m.args))
    && (forall m <- s.handling | m.Request? :: m.requestId in s.asked && s.asked[m.requestId] == (m.kind, m.args))
    && (forall m <- s.channel | m.Payload? :: Honest(compute, s.asked, m.requestId, m.payloadKind, m.content))
    && (forall e <- s.page.settled | e.1.Resolved? :: Honest(compute, s.asked, e.0, e.1.payloadKind, e.1.content))
  }

  /** The content is what the handler of that very request computes, in a payload of the requested kind. */
  ghost predicate Honest(compute: Compute, asked: Asked, id: nat, kind: PayloadKind, content: string) {
    id in asked && kind == AnswerKind(asked[id].0) && compute(asked[id].0, asked[id].1) == Some(content)
  }

  /** Delivering a reply moves exactly its id from pending to settled. */
  lemma {:induction false} ReceivedCounts(p: Page, data: WorkerOut, id: nat)
    requires Replies(data, id) ==> id in p.pending
    ensures var q := Received(p, data);
            && q.running == p.running && q.nextId == p.nextId
            && One(id in q.pending) == One(id in p.pending) - One(Replies(data, id))
            && SettledCount(q.settled, id) == SettledCount(p.settled, id) + One(Replies(data, id))
  {
    var q := Received(p, data);
    if q.settled != p.settled {
      var e := q.settled[|q.settled| - 1];
      assert q.settled == p.settled + [e];
      SettledCountConcat(p.settled, [e], id);
    }
  }

  lemma StepAccountsFor(compute: Compute, s: System, step: Step, id: nat)
    requires s.page.nextId >= 1 && AccountedFor(s, id) && AccountedFor(s, s.page.nextId) && Enabled(compute, s, step)
    ensures AccountedFor(Apply(compute, s, step), id)
  {
    match step {
      case Send(kind, args) =>
        InCountConcat(s.inbox, [Request(s.page.nextId, kind, args)], id);
      case Dispatch =>
        InCountConcat(s.handling, [s.inbox[0]], id);
      case Finish(i, reply) =>
        InCountWithout(s.handling, i, id);
        OutCountConcat(s.channel, [reply], id);
      case Deliver =>
        ReceivedCounts(s.page, s.channel[0], id);
      case Unmount =>
    }
  }

  lemma StepAccounted(compute: Compute, s: System, step: Step)
    requires Accounted(s) && Enabled(compute, s, step)
    ensures Accounted(Apply(compute, s, step))
  {
    forall id: nat ensures AccountedFor(Apply(compute, s, step), id) {
      assert AccountedFor(s, id);
      assert AccountedFor(s, s.page.nextId);
      StepAccountsFor(compute, s, step, id);
    }
  }

  lemma StepMatching(compute: Compute, s: System, step: Step)
    requires Matching(compute, s) && s.page.nextId >= 1 && Enabled(compute, s, step)
    ensures Matching(compute, Apply(compute, s, step))
  {
    var t := Apply(compute, s, step);
    assert t.asked.Keys == Issued(t.page.nextId);
    forall id <- s.asked ensures id in t.asked && t.asked[id] == s.asked[id] {}
    if step.Finish? {
      assert s.handling[step.i] in s.handling;
    }
    if step.Deliver? {
      assert s.channel[0] in s.channel;
    }
    if step.Dispatch? {
      assert s.inbox[0] in s.inbox;
    }
  }

  // ---------------------------------------------------------------- all runs

  /** A run: states connected by enabled steps, from the start. */
  ghost predicate IsRun(compute: Compute, run: seq<System>, steps: seq<Step>) {
    && |run| == |steps| + 1
    && run[0] == Started()
    && forall i | 0 <= i < |steps| ::
         Enabled(compute, run[i], steps[i]) && run[i + 1] == Apply(compute, run[i], steps[i])
  }

  lemma StartedWell(compute: Compute)
    ensures Accounted(Started()) && Matching(compute, Started())
  {
    assert Started().asked.Keys == Issued(1);
  }

  /** In every interleaving, every state is accounted for and every message matches its request. */
  lemma {:induction false} EveryRunSafe(compute: Compute, run: seq<System>, steps: seq<Step>, i: nat)
    requires IsRun(compute, run, steps) && i < |run|
    ensures Accounted(run[i]) && Matching(compute, run[i])
  {
    if i == 0 {
      StartedWell(compute);
    } else {
      EveryRunSafe(compute, run, steps, i - 1);
      StepAccounted(compute, run[i - 1], steps[i - 1]);
      StepMatching(compute, run[i - 1], steps[i - 1]);
    }
  }

  /** While the worker runs, each issued id is in one place, once, and `pending` holds those not settled yet. */
  lemma {:induction false} ExactlyOnePlace(compute: Compute, run: seq<System>, steps: seq<Step>, i: nat, id: nat)
    requires IsRun(compute, run, steps) && i < |run| && run[i].page.running && 1 <= id < run[i].page.nextId
    ensures var s := run[i];
            && InCount(s.inbox, id) + InCount(s.handling, id) + OutCount(s.channel, id) +
                 SettledCount(s.page.settled, id) == 1
            && (id in s.page.pending <==> InCount(s.inbox, id) + InCount(s.handling, id) + OutCount(s.channel, id) == 1)
  {
    EveryRunSafe(compute, run, steps, i);
    assert AccountedFor(run[i], id);
  }

  lemma {:induction false} SettledAt(settled: seq<(nat, Settlement)>, i: nat, j: nat)
    requires i < j < |settled| && settled[i].0 == settled[j].0
    ensures SettledCount(settled, settled[i].0) >= 2
  {
    var before, after := settled[..j], settled[j..];
    assert settled == before + after;
    SettledCountConcat(before, after, settled[i].0);
    assert before == before[..i] + before[i..];
    SettledCountConcat(before[..i], before[i..], settled[i].0);
  }

  /** No promise is settled twice, before or after the page is unmounted. */
  lemma NeverSettledTwice(compute: Compute, run: seq<System>, steps: seq<Step>, n: nat, i: nat, j: nat)
    requires IsRun(compute, run, steps) && n < |run| && i < j < |run[n].page.settled|
    ensures run[n].page.settled[i].0 != run[n].page.settled[j].0
  {
    EveryRunSafe(compute, run, steps, n);
    var settled := run[n].page.settled;
    assert AccountedFor(run[n], settled[i].0);
    if settled[i].0 == settled[j].0 {
      SettledAt(settled, i, j);
    }
  }

  /** A promise is only ever resolved with what the worker computes for that very request, in the requested kind. */
  lemma SuccessAnswersItsRequest(compute: Compute, run: seq<System>, steps: seq<Step>, n: nat, i: nat)
    requires IsRun(compute, run, steps) && n < |run| && i < |run[n].page.settled| && run[n].page.settled[i].1.Resolved?
    ensures var (id, outcome) := run[n].page.settled[i];
            && id in run[n].asked
            && outcome.payloadKind == PromisedKind(run[n].asked[id].0)
            && compute(run[n].asked[id].0, run[n].asked[id].1) == Some(outcome.content)
  {
    EveryRunSafe(compute, run, steps, n);
    assert run[n].page.settled[i] in run[n].page.settled;
  }

  /** Settlements are final: later states of a run only add to them. */
  lemma {:induction false} SettledIsFinal(compute: Compute, run: seq<System>, steps: seq<Step>, i: nat, j: nat)
    requires IsRun(compute, run, steps) && i <= j < |run|
    ensures run[i].page.settled <= run[j].page.settled
    decreases j
  {
    if i < j {
      SettledIsFinal(compute, run, steps, i, j - 1);
      assert Enabled(compute, run[j - 1], steps[j - 1]) && run[j] == Apply(compute, run[j - 1], steps[j - 1]);
    }
  }

  /** The page takes this message off the channel in step `k`. */
  predicate Takes(run: seq<System>, steps: seq<Step>, k: nat, message: WorkerOut) {
    k < |steps| && k < |run| && steps[k].Deliver? && run[k].channel != [] && run[k].channel[0] == message
  }

  /** The reply that a settlement needs: a payload with the same content, or an error with the same text. */
  function ReplyFor(id: nat, outcome: Settlement): WorkerOut {
    match outcome
    case Resolved(kind, content) => Payload(id, kind, content)
    case Rejected(message) => Error(Some(id), message)
  }

  /**
   A promise is resolved only by a payload for it, with that payload, and rejected only by an error, with its text.
   */
  lemma {:induction false} SettlementHasReply(compute: Compute, run: seq<System>, steps: seq<Step>, n: nat, i: nat)
    requires IsRun(compute, run, steps) && n < |run| && i < |run[n].page.settled|
    ensures var (id, outcome) := run[n].page.settled[i];
            exists k | 0 <= k < n :: Takes(run, steps, k, ReplyFor(id, outcome))
  {
    if n > 0 {
      assert Enabled(compute, run[n - 1], steps[n - 1]) && run[n] == Apply(compute, run[n - 1], steps[n - 1]);
      if i < |run[n - 1].page.settled| {
        SettlementHasReply(compute, run, steps, n - 1, i);
        SettledIsFinal(compute, run, steps, n - 1, n);
        assert run[n - 1].page.settled[i] == run[n].page.settled[i];
      } else {
        var (id, outcome) := run[n].page.settled[i];
        assert Takes(run, steps, n - 1, ReplyFor(id, outcome));
      }
    }
  }

  /** The converse: what the page takes off the channel has its effect, on the promise of its id and on nothing else. */
  lemma DeliveryTakesEffect(compute: Compute, run: seq<System>, steps: seq<Step>, k: nat, message: WorkerOut)
    requires IsRun(compute, run, steps) && Takes(run, steps, k, message)
    ensures var p, q := run[k].page, run[k + 1].page;
            && run[k + 1].channel == run[k].channel[1..]
            && match message
               case Ready => q == p.(ready := true)
               case Error(None, text) => q == p.(error := Some(text))
               case Error(Some(id), text) =>
                 if id !in p.pending then q == p
                 else q == p.(pending := p.pending - {id}, settled := p.settled + [(id, Rejected(text))])
               case Payload(id, kind, content) =>
                 if id !in p.pending then q == p
                 else q == p.(pending := p.pending - {id}, settled := p.settled + [(id, Resolved(kind, content))])
  {
    assert Enabled(compute, run[k], steps[k]) && run[k + 1] == Apply(compute, run[k], steps[k]);
  }

  /** The page is ready, or shows an error of its own, only because the worker said so. */
  lemma {:induction false} ReadyAndErrorAreTold(compute: Compute, run: seq<System>, steps: seq<Step>, n: nat)
    requires IsRun(compute, run, steps) && n < |run|
    ensures run[n].page.ready ==> exists k | 0 <= k < n :: Takes(run, steps, k, Ready)
    ensures run[n].page.error.Some? ==>
              exists k | 0 <= k < n :: Takes(run, steps, k, Error(None, run[n].page.error.value))
  {
    if n > 0 {
      ReadyAndErrorAreTold(compute, run, steps, n - 1);
      assert Enabled(compute, run[n - 1], steps[n - 1]) && run[n] == Apply(compute, run[n - 1], steps[n - 1]);
      if steps[n - 1].Deliver? {
        assert Takes(run, steps, n - 1, run[n - 1].channel[0]);
      }
    }
  }

  /** Sending numbers the request, remembers its promise and posts it, as long as the worker runs. */
  lemma SendTakesEffect(compute: Compute, run: seq<System>, steps: seq<Step>, k: nat, kind: RequestKind, args: string)
    requires IsRun(compute, run, steps) && k < |steps| && steps[k] == Send(kind, args)
    ensures var p, q := run[k].page, run[k + 1].page;
            if !p.running then run[k + 1] == run[k]
            else
              && q == p.(nextId := p.nextId + 1, pending := p.pending + {p.nextId})
              && run[k + 1].inbox == run[k].inbox + [Request(p.nextId, kind, args)]
              && p.nextId in run[k + 1].asked && run[k + 1].asked[p.nextId] == (kind, args)
  {
    assert Enabled(compute, run[k], steps[k]) && run[k + 1] == Apply(compute, run[k], steps[k]);
  }

  // ---------------------------------------------------------------- every request can be, and eventually is, settled

  /** An upper bound on the steps that can follow before somebody sends again. */
  function Work(s: System): nat {
    3 * |s.inbox| + 2 * |s.handling| + |s.channel|
  }

  /** Every step other than sending uses up work, so a run cannot go on for ever without settling. */
  lemma WorkShrinks(compute: Compute, s: System, step: Step)
    requires Enabled(compute, s, step) && !step.Send? && !step.Unmount?
    ensures Work(Apply(compute, s, step)) < Work(s)
  {
  }

  lemma {:induction false} RunsBetweenSendsAreShort(compute: Compute, run: seq<System>, steps: seq<Step>)
    requires |run| == |steps| + 1
    requires forall i | 0 <= i < |steps| :: !steps[i].Send? && !steps[i].Unmount? && Enabled(compute, run[i], steps[i])
    requires forall i | 0 <= i < |steps| && Enabled(compute, run[i], steps[i]) ::
               run[i + 1] == Apply(compute, run[i], steps[i])
    ensures |steps| <= Work(run[0])
  {
    if steps != [] {
      WorkShrinks(compute, run[0], steps[0]);
      RunsBetweenSendsAreShort(compute, run[1..], steps[1..]);
    }
  }

  lemma NothingUnderway(s: System)
    requires Accounted(s) && s.page.running
    ensures s.inbox == [] && s.handling == [] && s.channel == [] ==> s.page.pending == {}
  {
    forall id <- s.page.pending ensures Underway(s, id) == 1 {
      assert AccountedFor(s, id);
    }
  }

  /** As long as a request is pending, the system can move without anybody sending. */
  lemma PendingMeansProgress(compute: Compute, s: System) returns (step: Step)
    requires Accounted(s) && s.page.running && s.page.pending != {}
    ensures Enabled(compute, s, step) && !step.Send? && !step.Unmount?
  {
    if s.channel != [] {
      step := Deliver;
    } else if s.inbox != [] {
      step := Dispatch;
    } else {
      assert s.handling != [] by {
        NothingUnderway(s);
      }
      var reply := match s.handling[0] case Init => Ready case Request(id, _, _) => Error(Some(id), "");
      step := Finish(0, reply);
    }
  }

  /** When nothing can move any more, every request that was ever sent has been settled. */
  lemma AtRestAllSettled(compute: Compute, s: System)
    requires Accounted(s) && s.page.running
    requires forall step: Step | !step.Send? && !step.Unmount? :: !Enabled(compute, s, step)
    ensures s.page.pending == {}
    ensures forall id | 1 <= id < s.page.nextId :: SettledCount(s.page.settled, id) == 1
  {
    if s.page.pending != {} {
      var step := PendingMeansProgress(compute, s);
      assert false;
    }
    forall id | 1 <= id < s.page.nextId ensures SettledCount(s.page.settled, id) == 1 {
      assert AccountedFor(s, id);
    }
  }

  /** Unmounting abandons the pending promises: however the run goes on, none of them is ever settled. */
  lemma {:induction false} UnmountAbandons(compute: Compute, run: seq<System>, steps: seq<Step>, i: nat, j: nat,
                                           id: nat)
    requires IsRun(compute, run, steps) && i <= j < |run|
    requires !run[i].page.running && id in run[i].page.pending
    ensures !run[j].page.running && id in run[j].page.pending && SettledCount(run[j].page.settled, id) == 0
    decreases j
  {
    EveryRunSafe(compute, run, steps, i);
    assert AccountedFor(run[i], id);
    if i < j {
      UnmountAbandons(compute, run, steps, i, j - 1, id);
      EveryRunSafe(compute, run, steps, j - 1);
      assert Enabled(compute, run[j - 1], steps[j - 1]) && run[j] == Apply(compute, run[j - 1], steps[j - 1]);
    }
  }
}
