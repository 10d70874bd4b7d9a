/** The agent's side of the confirmation protocol: the run loop, the chat turn and the resume. Everything
    they do is a run of the state machine, with any steps of others in between. */
module Orchestrator {
  import opened Wrappers
  import opened Confirmation

  // ---- the gate before every action ----

  class Action {
    var request: Request
    var actionClass: Option<ActionClass>
    var isReversible: Option<bool>
    /** None when no human is needed. */
    var humanConfirmation: Option<bool>

    constructor (request: Request)
      ensures this.request == request
      ensures actionClass == None && isReversible == None && humanConfirmation == None
    {
      this.request := request;
      actionClass, isReversible, humanConfirmation := None, None, None;
    }

    ghost function Abstract(): Left
      reads this
    {
      Left(request, actionClass, isReversible, humanConfirmation)
    }
  }

  /** Refuses an unknown action or bad parameters; marks what has to wait for a human. The class is noted
      before the pack's validator is handed the action, and looked at afterwards: the validator may have
      written to the action meanwhile. */
  method ValidateAction(action: Action, pack: Pack, at: nat) returns (refusal: Option<string>)
    modifies action
    ensures refusal.None? <==> Confirmation.Valid(pack, at, old(action.request))
    ensures refusal.None? <==>
            && old(action.request.key) in pack
            && pack[old(action.request.key)].check(at, old(action.request)).refusal in {None, Some("")}
    ensures action.request == Handled(pack, at, old(action.request))
    ensures old(action.request.key) !in pack ==> action.Abstract() == old(action.Abstract())
    ensures old(action.request.key) in pack ==>
              var left := pack[old(action.request.key)].check(at, old(action.request)).left;
              && action.actionClass == left.actionClass && action.isReversible == left.isReversible
              && action.humanConfirmation ==
                 if refusal.None? && left.actionClass == Some(WriteExecute) then Some(false) else left.humanConfirmation
    ensures refusal.None? ==> (action.humanConfirmation == Some(false) <==> Gated(pack, at, old(action.request)))
  {
    if action.request.key !in pack {
      return Some("Unknown action type");
    }
    var spec := pack[action.request.key];
    action.actionClass, action.isReversible := Some(spec.actionClass), Some(spec.isReversible);
    var checked := spec.check(at, action.request);
    var left := checked.left;
    action.request, action.actionClass := left.request, left.actionClass;
    action.isReversible, action.humanConfirmation := left.isReversible, left.humanConfirmation;
    if checked.refusal.Some? && checked.refusal.value != "" {
      return checked.refusal;
    }
    if action.actionClass == Some(WriteExecute) {
      action.humanConfirmation := Some(false);
    }
    return None;
  }

  // ---- who takes a step ----

  predicate OfRun(step: Step, run: nat) {
    (step.RunProposes? || step.RunPolls? || step.RunTimesOut? || step.RunDispatches?) && step.run == run
  }

  predicate OfChat(step: Step, chat: nat) {
    (step.ChatProposes? || step.ChatEndsTurn? || step.ChatLoads? || step.ChatExecutes?) && step.chat == chat
  }

  predicate NotOfRun(steps: seq<Step>, run: nat) {
    forall step | step in steps :: !OfRun(step, run)
  }

  predicate NotOfChat(steps: seq<Step>, chat: nat) {
    forall step | step in steps :: !OfChat(step, chat)
  }

  lemma OtherLeavesRun(pack: Pack, s: State, step: Step, run: nat)
    requires !OfRun(step, run)
    ensures PhaseOf(Next(pack, s, step), run) == PhaseOf(s, run)
  {
    hide Valid, Gated, Handled;
  }

  lemma {:induction false} OthersLeaveRun(pack: Pack, s: State, steps: seq<Step>, run: nat)
    requires NotOfRun(steps, run)
    ensures PhaseOf(Steps(pack, s, steps), run) == PhaseOf(s, run)
  {
    hide Next, PhaseOf, OfRun;
    if steps == [] {
    } else {
      var init, last := steps[..|steps| - 1], steps[|steps| - 1];
      assert last in steps && forall step | step in init :: step in steps;
      OthersLeaveRun(pack, s, init, run);
      OtherLeavesRun(pack, Steps(pack, s, init), last, run);
    }
  }

  lemma OtherLeavesChat(pack: Pack, s: State, step: Step, chat: nat)
    requires !OfChat(step, chat)
    ensures ChatOf(Next(pack, s, step), chat) == ChatOf(s, chat)
  {
    hide Valid, Gated, Handled;
  }

  lemma {:induction false} OthersLeaveChat(pack: Pack, s: State, steps: seq<Step>, chat: nat)
    requires NotOfChat(steps, chat)
    ensures ChatOf(Steps(pack, s, steps), chat) == ChatOf(s, chat)
  {
    hide Next, ChatOf, OfChat;
    if steps == [] {
    } else {
      var init, last := steps[..|steps| - 1], steps[|steps| - 1];
      assert last in steps && forall step | step in init :: step in steps;
      OthersLeaveChat(pack, s, init, chat);
      OtherLeavesChat(pack, Steps(pack, s, init), last, chat);
    }
  }

  /** Records are never removed, and what they ask for never changes. */
  lemma RecordsStayOnce(pack: Pack, s: State, step: Step, id: nat)
    requires id in s.records && id < s.nextId
    ensures id in Next(pack, s, step).records && Next(pack, s, step).records[id].request == s.records[id].request
    ensures s.nextId <= Next(pack, s, step).nextId
  {
    hide Valid, Gated, Handled;
  }

  lemma {:induction false} RecordsStay(pack: Pack, s: State, steps: seq<Step>, id: nat)
    requires id in s.records && id < s.nextId
    ensures id in Steps(pack, s, steps).records
    ensures Steps(pack, s, steps).records[id].request == s.records[id].request
    ensures s.nextId <= Steps(pack, s, steps).nextId
  {
    hide Next;
    if steps == [] {
    } else {
      RecordsStay(pack, s, steps[..|steps| - 1], id);
      RecordsStayOnce(pack, Steps(pack, s, steps[..|steps| - 1]), steps[|steps| - 1], id);
    }
  }

  /** `after` is reached from `before` by the steps `trace`. */
  ghost predicate Reached(pack: Pack, before: State, trace: seq<Step>, after: State) {
    after == Steps(pack, before, trace)
  }

  lemma ReachedNothing(pack: Pack, s: State)
    ensures Reached(pack, s, [], s)
  {
  }

  lemma ReachedOn(pack: Pack, a: State, trace: seq<Step>, b: State, more: seq<Step>, c: State)
    requires Reached(pack, a, trace, b) && Reached(pack, b, more, c)
    ensures Reached(pack, a, trace + more, c)
  {
    StepsJoin(pack, a, trace, more);
  }

  lemma ReachedStep(pack: Pack, a: State, trace: seq<Step>, b: State, step: Step)
    requires Reached(pack, a, trace, b)
    ensures Reached(pack, a, trace + [step], Next(pack, b, step))
  {
    hide Next;
    assert (trace + [step])[..|trace|] == trace;
  }

  // ---- what traces consist of ----

  /** What a run asks for in a trace, in order. */
  function Proposals(trace: seq<Step>, run: nat): seq<Request> {
    if trace == [] then []
    else
      var last := trace[|trace| - 1];
      Proposals(trace[..|trace| - 1], run) +
      if last.RunProposes? && last.run == run then [last.request] else []
  }

  /** What a chat session asks for in a trace, in order. */
  function ChatProposals(trace: seq<Step>, chat: nat): seq<Request> {
    if trace == [] then []
    else
      var last := trace[|trace| - 1];
      ChatProposals(trace[..|trace| - 1], chat) +
      if last.ChatProposes? && last.chat == chat then [last.request] else []
  }

  lemma {:induction false} ProposalsJoin(a: seq<Step>, b: seq<Step>, run: nat)
    ensures Proposals(a + b, run) == Proposals(a, run) + Proposals(b, run)
    ensures ChatProposals(a + b, run) == ChatProposals(a, run) + ChatProposals(b, run)
  {
    if b == [] {
      assert a + b == a;
    } else {
      var last := b[|b| - 1];
      ProposalsJoin(a, b[..|b| - 1], run);
      assert (a + b)[..|a + b| - 1] == a + b[..|b| - 1] && (a + b)[|a + b| - 1] == last;
    }
  }

  lemma {:induction false} OthersPropose(steps: seq<Step>, run: nat)
    ensures NotOfRun(steps, run) ==> Proposals(steps, run) == []
    ensures NotOfChat(steps, run) ==> ChatProposals(steps, run) == []
  {
    if steps == [] {
    } else {
      var init, last := steps[..|steps| - 1], steps[|steps| - 1];
      assert last in steps && forall step | step in init :: step in steps;
      OthersPropose(init, run);
    }
  }

  lemma ProposesOne(step: Step, run: nat)
    ensures Proposals([step], run) == if step.RunProposes? && step.run == run then [step.request] else []
    ensures ChatProposals([step], run) == if step.ChatProposes? && step.chat == run then [step.request] else []
  {
    assert [step][..0] == [];
  }

  /** The first `n` polls of a wait, each after the steps of others; the last window's is the late one. */
  function PollTrace(run: nat, windows: seq<seq<Step>>, n: nat): seq<Step>
    requires n <= |windows|
  {
    if n == 0 then []
    else PollTrace(run, windows, n - 1) + windows[n - 1] + [RunPolls(run, n == |windows|)]
  }

  /** What one action of a run does to the state: it is proposed and, if it has to wait, polled for in these
      windows and dispatched at the end or not. Nothing else happens but the steps of others in the windows. */
  ghost predicate ActionTrace(pack: Pack, run: nat, at: nat, request: Request, windows: seq<seq<Step>>,
                              trace: seq<Step>)
  {
    var proposed := [RunProposes(run, at, request)];
    if Confirmation.Valid(pack, at, request) && Gated(pack, at, request) then
      exists n | 0 < n <= |windows| ::
        || trace == proposed + PollTrace(run, windows, n)
        || trace == proposed + PollTrace(run, windows, n) + [RunDispatches(run)]
    else trace == proposed
  }

  /** What the first `n` iterations of a run do to the state: the steps of others before each reply, and the
      action the reply asks for. */
  ghost predicate RunTrace(pack: Pack, run: nat, replies: nat -> Reply, moments: nat -> nat, others: nat -> seq<Step>,
                           windows: nat -> seq<seq<Step>>, n: nat, trace: seq<Step>)
  {
    if n == 0 then trace == []
    else
      exists before, more ::
        && RunTrace(pack, run, replies, moments, others, windows, n - 1, before)
        && ReplyTrace(pack, run, replies(n), moments(n), windows(n), more)
        && trace == before + others(n) + more
  }

  ghost predicate ReplyTrace(pack: Pack, run: nat, reply: Reply, at: nat, windows: seq<seq<Step>>, trace: seq<Step>) {
    if reply.Act? && StopOf(reply) == None
    then ActionTrace(pack, run, at, Request(reply.name, reply.params), windows, trace)
    else trace == []
  }

  lemma RunTraceStarts(pack: Pack, run: nat, replies: nat -> Reply, moments: nat -> nat, others: nat -> seq<Step>,
                       windows: nat -> seq<seq<Step>>)
    ensures RunTrace(pack, run, replies, moments, others, windows, 0, [])
  {
  }

  lemma RunTraceGoesOn(pack: Pack, run: nat, replies: nat -> Reply, moments: nat -> nat, others: nat -> seq<Step>,
                       windows: nat -> seq<seq<Step>>, n: nat, before: seq<Step>, more: seq<Step>)
    requires n > 0 && RunTrace(pack, run, replies, moments, others, windows, n - 1, before)
    requires ReplyTrace(pack, run, replies(n), moments(n), windows(n), more)
    ensures RunTrace(pack, run, replies, moments, others, windows, n, before + others(n) + more)
  {
    hide ReplyTrace;
  }

  /** Without an action to take only the steps of others happen. */
  lemma RunTraceIdles(pack: Pack, run: nat, replies: nat -> Reply, moments: nat -> nat, others: nat -> seq<Step>,
                      windows: nat -> seq<seq<Step>>, n: nat, before: seq<Step>)
    requires n > 0 && RunTrace(pack, run, replies, moments, others, windows, n - 1, before)
    requires replies(n).Malformed? || StopOf(replies(n)).Some?
    ensures RunTrace(pack, run, replies, moments, others, windows, n, before + others(n))
  {
    hide RunTrace;
    RunTraceGoesOn(pack, run, replies, moments, others, windows, n, before, []);
    assert before + others(n) + [] == before + others(n);
  }

  /** The steps of a chat turn for an action it dispatches. */
  function TurnSteps(chat: nat, at: nat, allowed: seq<Request>): seq<Step> {
    if allowed == [] then [] else [ChatProposes(chat, at, allowed[0])]
  }

  /** What the first `n` tool calls of a turn do to the state: the steps of others before each outcome, and the
      action that the outcome has dispatched. */
  function TurnTrace(pack: Pack, chat: nat, outcomes: nat -> Outcome, moments: nat -> nat, others: nat -> seq<Step>,
                     n: nat)
    : seq<Step>
  {
    if n == 0 then []
    else
      TurnTrace(pack, chat, outcomes, moments, others, n - 1) + others(n - 1)
      + TurnSteps(chat, moments(n - 1), AllowedBy(pack, moments(n - 1), outcomes(n - 1)))
  }

  predicate Acts(o: Outcome) {
    o.Replied? && o.reply.Act?
  }

  /** A whole turn: its tool calls, the steps of others before its last outcome, and how it ends. */
  function WholeTurn(pack: Pack, chat: nat, outcomes: nat -> Outcome, moments: nat -> nat, others: nat -> seq<Step>,
                     r: TurnResult): seq<Step>
    requires r.pending.Some? ==> Acts(outcomes(r.toolCalls))
  {
    TurnTrace(pack, chat, outcomes, moments, others, r.toolCalls)
    + (if r.toolCalls == MAX_TOOL_CALLS_PER_TURN then [] else others(r.toolCalls))
    + [if r.pending.None? then ChatEndsTurn(chat)
       else ChatProposes(chat, moments(r.toolCalls), RequestOf(outcomes(r.toolCalls)))]
  }

  lemma NoTimeOutBy(steps: seq<Step>, run: nat)
    requires NotOfRun(steps, run)
    ensures RunTimesOut(run) !in steps
  {
    assert OfRun(RunTimesOut(run), run);
  }

  lemma {:induction false} PollsProposeNothing(run: nat, windows: seq<seq<Step>>, n: nat)
    requires n <= |windows| && forall w | w in windows :: NotOfRun(w, run)
    ensures Proposals(PollTrace(run, windows, n), run) == []
    ensures RunTimesOut(run) !in PollTrace(run, windows, n)
  {
    hide Proposals, ChatProposals, NotOfRun;
    if n == 0 {
      NoProposals(run);
    } else {
      var before, window, poll := PollTrace(run, windows, n - 1), windows[n - 1], RunPolls(run, n == |windows|);
      PollsProposeNothing(run, windows, n - 1);
      ProposalsJoin(before, window, run);
      ProposalsJoin(before + window, [poll], run);
      OthersPropose(window, run);
      ProposesOne(poll, run);
      NoTimeOutBy(window, run);
    }
  }

  // ---- what a model may answer ----

  datatype Reply = Malformed | Act(name: string, params: map<string, string>)

  const ACTION_TYPES: set<string> := {
    "read_file", "search_code", "build_graph", "run_slither", "run_mythril", "run_auditor_skill",
    "analyze_transactions", "decompile_bytecode", "write_poc", "run_tests", "deploy_test_contract",
    "write_memory", "request_human_confirmation", "escalate"
  }

  const MAX_ITERATIONS := 50
  const MAX_TOOL_CALLS_PER_TURN := 10

  /** How a run stops; an action type that does not exist raises. */
  datatype Stop = Escalated | Completed | Raised | MaxIterations

  datatype TurnStatus = TurnCompleted | Blocked | PausedRelay | PausedConfirmation | BudgetExhausted

  datatype Outcome = BlockedLocal | ToRelay | Replied(reply: Reply)

  datatype TurnResult = TurnResult(status: TurnStatus, pending: Option<nat>, toolCalls: nat)

  datatype Resumed = NoPending | NotFound | StillPending | NotExecuted | Finished(request: Request)

  /** Whether a reply ends a run, and how. */
  function StopOf(reply: Reply): Option<Stop> {
    if reply.Malformed? then None
    else if reply.name == "escalate" then Some(Escalated)
    else if reply.name == "complete" then Some(Completed)
    else if reply.name !in ACTION_TYPES then Some(Raised)
    else None
  }

  /** The actions that the replies 1 to n ask for. */
  function Asked(replies: nat -> Reply, n: nat): seq<Request> {
    if n == 0 then []
    else
      Asked(replies, n - 1) +
      if replies(n).Act? && StopOf(replies(n)) == None then [Request(replies(n).name, replies(n).params)] else []
  }

  lemma StopCases(replies: nat -> Reply, n: nat)
    requires n > 0
    ensures var reply := replies(n);
            && Asked(replies, n) == Asked(replies, n - 1) +
               (if reply.Act? && StopOf(reply) == None then [Request(reply.name, reply.params)] else [])
            && (reply.Malformed? ==> StopOf(reply) == None)
            && (reply.Act? && reply.name == "escalate" ==> StopOf(reply) == Some(Escalated))
            && (reply.Act? && reply.name == "complete" ==> StopOf(reply) == Some(Completed))
            && (reply.Act? && reply.name != "escalate" && reply.name != "complete" ==>
                  StopOf(reply) == if reply.name in ACTION_TYPES then None else Some(Raised))
  {
    hide ACTION_TYPES;
  }

  function RequestOf(o: Outcome): Request
    requires o.Replied? && o.reply.Act?
  {
    Request(o.reply.name, o.reply.params)
  }

  /** Whether an outcome ends a chat turn, and how. */
  function EndOf(pack: Pack, at: nat, o: Outcome): Option<TurnStatus> {
    if o.BlockedLocal? then Some(Blocked)
    else if o.ToRelay? then Some(PausedRelay)
    else if o.reply.Malformed? || o.reply.name == "complete" || o.reply.name == "escalate" then Some(TurnCompleted)
    else if o.reply.name in ACTION_TYPES && Confirmation.Valid(pack, at, RequestOf(o)) && Gated(pack, at, RequestOf(o))
    then Some(PausedConfirmation)
    else None
  }

  /** The action that an outcome has dispatched. */
  function AllowedBy(pack: Pack, at: nat, o: Outcome): seq<Request> {
    if EndOf(pack, at, o) == None && o.reply.name in ACTION_TYPES && Confirmation.Valid(pack, at, RequestOf(o))
    then [RequestOf(o)] else []
  }

  /** The actions dispatched over the first `n` outcomes of a turn. */
  function Allowed(pack: Pack, moments: nat -> nat, outcomes: nat -> Outcome, n: nat): seq<Request> {
    if n == 0 then []
    else Allowed(pack, moments, outcomes, n - 1) + AllowedBy(pack, moments(n - 1), outcomes(n - 1))
  }

  lemma EndCases(pack: Pack, at: nat, o: Outcome)
    ensures o.BlockedLocal? ==> EndOf(pack, at, o) == Some(Blocked)
    ensures o.ToRelay? ==> EndOf(pack, at, o) == Some(PausedRelay)
    ensures o.Replied? && (o.reply.Malformed? || o.reply.name == "complete" || o.reply.name == "escalate") ==>
              EndOf(pack, at, o) == Some(TurnCompleted)
    ensures o.Replied? && o.reply.Act? && o.reply.name != "complete" && o.reply.name != "escalate" ==>
              var valid := o.reply.name in ACTION_TYPES && Confirmation.Valid(pack, at, RequestOf(o));
              && EndOf(pack, at, o) ==
                 (if valid && Gated(pack, at, RequestOf(o)) then Some(PausedConfirmation) else None)
              && AllowedBy(pack, at, o) == if valid && !Gated(pack, at, RequestOf(o)) then [RequestOf(o)] else []
  {
    hide Confirmation.Valid, Gated, ACTION_TYPES;
  }

  // ---- the loop ----

  class World {
    const pack: Pack
    var records: map<nat, Record>
    var nextId: nat
    var runs: map<nat, Phase>
    var chats: map<nat, Chat>
    var history: seq<Event>

    constructor (pack: Pack)
      ensures this.pack == pack && Abstract() == START
    {
      this.pack := pack;
      records, nextId, runs, chats, history := map[], 0, map[], map[], [];
    }

    ghost function Abstract(): State
      reads this
    {
      State(records, nextId, runs, chats, history)
    }

    /** Steps of others happen. */
    method Others(steps: seq<Step>)
      modifies this
      ensures Reached(pack, old(Abstract()), steps, Abstract())
    {
      var t := Steps(pack, State(records, nextId, runs, chats, history), steps);
      records, nextId, runs, chats, history := t.records, t.nextId, t.runs, t.chats, t.history;
    }

    method RequestConfirmation(request: Request) returns (id: nat)
      modifies this`records, this`nextId, this`history
      ensures id == old(nextId) && Abstract() == File(old(Abstract()), request)
    {
      id := nextId;
      records := records[id := Record(request, Pending)];
      nextId, history := nextId + 1, history + [Filed(id, request)];
    }

    /** Polls until the operator has decided or the deadline has passed; the poll at the deadline is the
        last one, and a wait that ends there is recorded as rejected. `windows` are the steps of others
        before each poll. */
    method CheckConfirmation(run: nat, id: nat, windows: seq<seq<Step>>) returns (status: Decision, ghost polls: nat)
      requires |windows| > 0 && forall w | w in windows :: NotOfRun(w, run)
      requires PhaseOf(Abstract(), run) == Waiting(id) && id in records && id < nextId
      modifies this
      ensures 0 < polls <= |windows| && Reached(pack, old(Abstract()), PollTrace(run, windows, polls), Abstract())
      ensures status == Approved || status == Rejected
      ensures PhaseOf(Abstract(), run) == if status == Approved then Cleared(id, old(records[id].request)) else Free
    {
      hide Steps, NotOfRun, Reached, Next;
      polls := 0;
      ReachedNothing(pack, Abstract());
      var k := 0;
      while true
        invariant polls == k < |windows|
        invariant Reached(pack, old(Abstract()), PollTrace(run, windows, k), Abstract())
        invariant PhaseOf(Abstract(), run) == Waiting(id) && id in records && id < nextId
        invariant records[id].request == old(records[id].request)
        decreases |windows| - k
      {
        ghost var before := Abstract();
        Others(windows[k]);
        ReachedIsSteps(pack, before, windows[k], Abstract(), run, id);
        ReachedOn(pack, old(Abstract()), PollTrace(run, windows, k), before, windows[k], Abstract());
        before := Abstract();
        status := records[id].status;
        ghost var polled := PollTrace(run, windows, k) + windows[k];
        ReachedStep(pack, old(Abstract()), polled, before, RunPolls(run, k + 1 == |windows|));
        PollDoes(pack, before, run, id, k + 1 == |windows|);
        k, polls := k + 1, polls + 1;
        if status == Approved {
          runs := runs[run := Cleared(id, records[id].request)];
          return;
        } else if status == Rejected {
          runs := runs[run := Free];
          return;
        } else if k == |windows| {
          records := records[id := records[id].(status := Rejected)];
          history, runs := history + [TimedOut(id)], runs[run := Free];
          status := Rejected;
          return;
        }
      }
    }

    /** The loop of a run: at most 50 replies of the model. `windows(i)` are the steps of others before each
        poll of iteration i, the first of them before its proposal. */
    method Run(run: nat, replies: nat -> Reply, moments: nat -> nat, others: nat -> seq<Step>,
               windows: nat -> seq<seq<Step>>)
      returns (stop: Stop, iterations: nat, ghost trace: seq<Step>)
      requires forall i :: NotOfRun(others(i), run) && |windows(i)| > 0
      requires forall i, w | w in windows(i) :: NotOfRun(w, run)
      requires PhaseOf(Abstract(), run) == Free && forall id | id in records :: id < nextId
      modifies this
      ensures Reached(pack, old(Abstract()), trace, Abstract())
      ensures PhaseOf(Abstract(), run) == Free
      ensures iterations <= 50 && forall i | 0 < i < iterations :: StopOf(replies(i)) == None
      ensures if stop == MaxIterations then iterations == 50 && StopOf(replies(iterations)) == None
              else StopOf(replies(iterations)) == Some(stop)
      ensures RunTrace(pack, run, replies, moments, others, windows, iterations, trace)
      ensures Proposals(trace, run) == Asked(replies, iterations) && RunTimesOut(run) !in trace
    {
      hide Steps, NotOfRun, Reached, Next, Proposals, ACTION_TYPES, StopOf, Asked, RunTrace, ActionTrace;
      RunTraceStarts(pack, run, replies, moments, others, windows);
      trace, iterations := [], 0;
      ReachedNothing(pack, Abstract());
      NoProposals(run);
      NothingAsked(replies);
      while iterations < MAX_ITERATIONS
        invariant iterations <= MAX_ITERATIONS && forall i | 0 < i <= iterations :: StopOf(replies(i)) == None
        invariant Reached(pack, old(Abstract()), trace, Abstract())
        invariant PhaseOf(Abstract(), run) == Free
        invariant RunTrace(pack, run, replies, moments, others, windows, iterations, trace)
        invariant Proposals(trace, run) == Asked(replies, iterations) && RunTimesOut(run) !in trace
      {
        ghost var earlier := trace;
        iterations := iterations + 1;
        NoTimeOutBy(others(iterations), run);
        OthersPropose(others(iterations), run);
        ProposalsJoin(trace, others(iterations), run);
        ghost var before := Abstract();
        Others(others(iterations));
        ReachedLeavesRun(pack, before, others(iterations), Abstract(), run);
        ReachedOn(pack, old(Abstract()), trace, before, others(iterations), Abstract());
        trace := trace + others(iterations);
        var reply := replies(iterations);
        StopCases(replies, iterations);
        if reply.Malformed? || StopOf(reply).Some? {
          RunTraceIdles(pack, run, replies, moments, others, windows, iterations, earlier);
        }
        if reply.Malformed? {
          continue;
        }
        if reply.name == "escalate" {
          return Escalated, iterations, trace;
        }
        if reply.name == "complete" {
          return Completed, iterations, trace;
        }
        if reply.name !in ACTION_TYPES {
          return Raised, iterations, trace;
        }
        before := Abstract();
        ghost var more := OneAction(run, Request(reply.name, reply.params), moments(iterations), windows(iterations));
        ReachedOn(pack, old(Abstract()), trace, before, more, Abstract());
        ProposalsJoin(trace, more, run);
        RunTraceGoesOn(pack, run, replies, moments, others, windows, iterations, earlier, more);
        trace := trace + more;
      }
      stop := MaxIterations;
    }

    /** One action of a run: refused, dispatched, or held back until a human approves it. */
    method OneAction(run: nat, request: Request, at: nat, windows: seq<seq<Step>>) returns (ghost trace: seq<Step>)
      requires |windows| > 0 && forall w | w in windows :: NotOfRun(w, run)
      requires PhaseOf(Abstract(), run) == Free
      modifies this
      ensures Reached(pack, old(Abstract()), trace, Abstract())
      ensures PhaseOf(Abstract(), run) == Free
      ensures ActionTrace(pack, run, at, request, windows, trace)
      ensures Proposals(trace, run) == [request] && RunTimesOut(run) !in trace
    {
      hide Steps, NotOfRun, Reached, Next, Confirmation.Valid, Gated, Handled, Proposals, PollTrace;
      var action := new Action(request);
      var refusal := ValidateAction(action, pack, at);
      ghost var was := Abstract();
      ReachedNothing(pack, was);
      ReachedStep(pack, was, [], was, RunProposes(run, at, request));
      ProposalDoes(pack, was, run, at, request);
      trace := [] + [RunProposes(run, at, request)];
      ProposesOne(RunProposes(run, at, request), run);
      assert trace == [RunProposes(run, at, request)];
      if refusal.Some? {
        return;
      }
      if action.humanConfirmation == Some(false) {
        var id := RequestConfirmation(action.request);
        runs := runs[run := Waiting(id)];
        ghost var before := Abstract();
        var status;
        ghost var n;
        status, n := CheckConfirmation(run, id, windows);
        ghost var polls := PollTrace(run, windows, n);
        ReachedOn(pack, was, trace, before, polls, Abstract());
        PollsProposeNothing(run, windows, n);
        ProposalsJoin(trace, polls, run);
        trace := trace + polls;
        if status != Approved {
          return;
        }
        action.humanConfirmation := Some(true);
        ReachedStep(pack, was, trace, Abstract(), RunDispatches(run));
        DispatchDoes(pack, Abstract(), run);
        ProposesOne(RunDispatches(run), run);
        ProposalsJoin(trace, [RunDispatches(run)], run);
        trace := trace + [RunDispatches(run)];
        history, runs := history + [Executed(id, action.request)], runs[run := Free];
      } else {
        history := history + [Dispatched(action.request)];
      }
    }

    // ---- chat ----

    /** One action of a chat turn: refused, filed for a human, or dispatched. */
    method TurnAction(request: Request, at: nat) returns (refused: bool, waits: Option<nat>)
      modifies this
      ensures refused <==> !Confirmation.Valid(pack, at, request)
      ensures waits == if !refused && Gated(pack, at, request) then Some(old(nextId)) else None
      ensures Abstract() == if refused then old(Abstract())
                            else if Gated(pack, at, request) then File(old(Abstract()), Handled(pack, at, request))
                            else Log(old(Abstract()), Dispatched(Handled(pack, at, request)))
    {
      hide Confirmation.Valid, Gated, Handled;
      var action := new Action(request);
      var refusal := ValidateAction(action, pack, at);
      if refusal.Some? {
        return true, None;
      }
      if action.humanConfirmation == Some(false) {
        var id := RequestConfirmation(action.request);
        return false, Some(id);
      }
      history := history + [Dispatched(action.request)];
      return false, None;
    }

    /** One chat turn: at most 10 tool calls; an action that needs a human is filed and ends the turn. */
    method RunTurn(chat: nat, outcomes: nat -> Outcome, moments: nat -> nat, others: nat -> seq<Step>)
      returns (r: TurnResult, ghost trace: seq<Step>, ghost reached: State)
      requires forall i :: NotOfChat(others(i), chat)
      requires ChatOf(Abstract(), chat).approved.None?
      modifies this
      ensures r.toolCalls <= 10
      ensures forall i | 0 <= i < r.toolCalls :: EndOf(pack, moments(i), outcomes(i)) == None
      ensures if r.toolCalls == MAX_TOOL_CALLS_PER_TURN then r.status == BudgetExhausted
              else EndOf(pack, moments(r.toolCalls), outcomes(r.toolCalls)) == Some(r.status)
      ensures trace == TurnTrace(pack, chat, outcomes, moments, others, r.toolCalls)
                       + if r.toolCalls == MAX_TOOL_CALLS_PER_TURN then [] else others(r.toolCalls)
      ensures ChatProposals(trace, chat) == Allowed(pack, moments, outcomes, r.toolCalls)
      ensures Reached(pack, old(Abstract()), trace, reached) && ChatOf(reached, chat) == ChatOf(old(Abstract()), chat)
      ensures r.status == PausedConfirmation <==> r.pending.Some?
      ensures r.pending.None? ==> Abstract() == reached
      ensures r.pending.Some? ==>
                && r.pending.value == reached.nextId
                && outcomes(r.toolCalls).Replied? && outcomes(r.toolCalls).reply.Act?
                && var filed := RequestOf(outcomes(r.toolCalls));
                   var at := moments(r.toolCalls);
                   && Confirmation.Valid(pack, at, filed) && Gated(pack, at, filed)
                   && Abstract() == File(reached, Handled(pack, at, filed))
    {
      hide Steps, NotOfChat, Next, Reached, Confirmation.Valid, Gated, Handled, ACTION_TYPES, ChatProposals, EndOf,
           AllowedBy, ChatOf, Log, File;
      trace := [];
      NoProposals(chat);
      var toolCalls := 0;
      ReachedNothing(pack, Abstract());
      while toolCalls < MAX_TOOL_CALLS_PER_TURN
        invariant toolCalls <= MAX_TOOL_CALLS_PER_TURN
        invariant Reached(pack, old(Abstract()), trace, Abstract())
        invariant ChatOf(Abstract(), chat) == ChatOf(old(Abstract()), chat)
        invariant forall i | 0 <= i < toolCalls :: EndOf(pack, moments(i), outcomes(i)) == None
        invariant trace == TurnTrace(pack, chat, outcomes, moments, others, toolCalls)
        invariant ChatProposals(trace, chat) == Allowed(pack, moments, outcomes, toolCalls)
      {
        ghost var before := Abstract();
        Others(others(toolCalls));
        OthersOn(pack, old(Abstract()), trace, before, others(toolCalls), Abstract(), chat);
        trace, reached := trace + others(toolCalls), Abstract();
        var outcome, at := outcomes(toolCalls), moments(toolCalls);
        EndCases(pack, at, outcome);
        if outcome.BlockedLocal? {
          return TurnResult(Blocked, None, toolCalls), trace, reached;
        }
        if outcome.ToRelay? {
          return TurnResult(PausedRelay, None, toolCalls), trace, reached;
        }
        if outcome.reply.Malformed? || outcome.reply.name == "complete" || outcome.reply.name == "escalate" {
          return TurnResult(TurnCompleted, None, toolCalls), trace, reached;
        }
        if outcome.reply.name in ACTION_TYPES {
          var request := RequestOf(outcome);
          var refused, waits := TurnAction(request, at);
          if waits.Some? {
            return TurnResult(PausedConfirmation, waits, toolCalls), trace, reached;
          }
          if !refused {
            DispatchedOn(pack, old(Abstract()), trace, reached, chat, at, request);
            trace := trace + [ChatProposes(chat, at, request)];
          }
        }
        toolCalls := toolCalls + 1;
      }
      return TurnResult(BudgetExhausted, None, toolCalls), trace, Abstract();
    }

    /** A turn of a session: whatever the session waited for before, it now waits for what this turn filed. */
    method HandleTurn(chat: nat, outcomes: nat -> Outcome, moments: nat -> nat, others: nat -> seq<Step>)
      returns (r: TurnResult, ghost trace: seq<Step>)
      requires forall i :: NotOfChat(others(i), chat)
      requires ChatOf(Abstract(), chat).approved.None?
      modifies this
      ensures r.toolCalls <= MAX_TOOL_CALLS_PER_TURN
      ensures r.pending.Some? ==> Acts(outcomes(r.toolCalls))
      ensures Reached(pack, old(Abstract()), trace, Abstract())
      ensures trace == WholeTurn(pack, chat, outcomes, moments, others, r)
      ensures ChatOf(Abstract(), chat) == Chat(r.pending, None)
      ensures r.status == PausedConfirmation <==> r.pending.Some?
      ensures r.pending.Some? ==>
                && r.pending.value in records && records[r.pending.value] ==
                   Record(Handled(pack, moments(r.toolCalls), RequestOf(outcomes(r.toolCalls))), Pending)
    {
      hide Steps, NotOfChat, Next, Reached, Confirmation.Valid, Gated, Handled, ChatProposals, EndOf;
      ghost var reached;
      r, trace, reached := RunTurn(chat, outcomes, moments, others);
      ghost var filed := if r.pending.Some? then Some(RequestOf(outcomes(r.toolCalls))) else None;
      ghost var at := moments(r.toolCalls);
      ghost var last := if filed.Some? then ChatProposes(chat, at, filed.value) else ChatEndsTurn(chat);
      ReachedStep(pack, old(Abstract()), trace, reached, last);
      TurnEndDoes(pack, reached, chat, at, filed);
      trace := trace + [last];
      chats := chats[chat := Chat(r.pending, None)];
    }

    /** Takes up what the operator decided about the confirmation the session waits for. `between` are the
        steps of others after the record was read. */
    method ResumeConfirmation(chat: nat, at: nat, between: seq<Step>) returns (r: Resumed, ghost trace: seq<Step>)
      requires NotOfChat(between, chat) && ChatOf(Abstract(), chat).approved.None?
      modifies this
      ensures Reached(pack, old(Abstract()), trace, Abstract())
      ensures trace == [ChatLoads(chat)] + if r.Finished? then between + [ChatExecutes(chat, at)] else []
      ensures var c := old(ChatOf(Abstract(), chat));
              r == if c.pending.None? then NoPending
                   else if c.pending.value !in old(records) then NotFound
                   else if old(records)[c.pending.value].status == Pending then StillPending
                   else if old(records)[c.pending.value].status == Rejected then NotExecuted
                   else Finished(Handled(pack, at, old(records)[c.pending.value].request))
      ensures ChatOf(Abstract(), chat) ==
              if r.Finished? || r.NotExecuted? then Chat(None, None) else old(ChatOf(Abstract(), chat))
      ensures r.Finished? ==>
                && |history| > 0
                && history[|history| - 1] == Executed(old(ChatOf(Abstract(), chat)).pending.value, r.request)
    {
      hide Steps, NotOfChat, Reached, Next, Confirmation.Valid, Gated, Handled;
      ghost var was := Abstract();
      ReachedNothing(pack, was);
      ReachedStep(pack, was, [], was, ChatLoads(chat));
      LoadDoes(pack, was, chat);
      trace := [] + [ChatLoads(chat)];
      var pending := if chat in chats then chats[chat].pending else None;
      if pending.None? {
        return NoPending, trace;
      }
      var id := pending.value;
      if id !in records {
        return NotFound, trace;
      }
      if records[id].status == Pending {
        return StillPending, trace;
      }
      if records[id].status != Approved {
        chats := chats[chat := Chat(None, None)];
        return NotExecuted, trace;
      }
      var action := new Action(records[id].request);
      chats := chats[chat := Chat(Some(id), Some(action.request))];
      ghost var loaded := Abstract();
      Others(between);
      ReachedLeavesChat(pack, loaded, between, Abstract(), chat);
      ReachedOn(pack, was, trace, loaded, between, Abstract());
      trace := trace + between;
      var refusal := ValidateAction(action, pack, at);
      action.humanConfirmation := Some(true);
      ReachedStep(pack, was, trace, Abstract(), ChatExecutes(chat, at));
      ExecutionDoes(pack, Abstract(), chat, at);
      trace := trace + [ChatExecutes(chat, at)];
      history, chats := history + [Executed(id, action.request)], chats[chat := Chat(None, None)];
      return Finished(action.request), trace;
    }
  }

  // ---- who approves ----

  /** Somebody else takes the step, before a reply or while an action waits. */
  ghost predicate ByOthers(step: Step, others: nat -> seq<Step>, windows: nat -> seq<seq<Step>>) {
    || (exists i :: step in others(i))
    || (exists i, k | 0 <= k < |windows(i)| :: step in windows(i)[k])
  }

  lemma {:induction false} PollTraceSteps(run: nat, windows: seq<seq<Step>>, n: nat, step: Step)
    requires n <= |windows| && step in PollTrace(run, windows, n)
    ensures OfRun(step, run) || exists k | 0 <= k < |windows| :: step in windows[k]
  {
    if n > 0 && step in PollTrace(run, windows, n - 1) {
      PollTraceSteps(run, windows, n - 1, step);
    }
  }

  lemma ReplyTraceSteps(pack: Pack, run: nat, reply: Reply, at: nat, windows: seq<seq<Step>>, trace: seq<Step>,
                        step: Step)
    requires ReplyTrace(pack, run, reply, at, windows, trace) && step in trace
    ensures OfRun(step, run) || exists k | 0 <= k < |windows| :: step in windows[k]
  {
    hide Confirmation.Valid, Gated, StopOf, PollTrace;
    var proposed := RunProposes(run, at, Request(reply.name, reply.params));
    if trace != [proposed] {
      var n :| 0 < n <= |windows| && (trace == [proposed] + PollTrace(run, windows, n)
                                      || trace == [proposed] + PollTrace(run, windows, n) + [RunDispatches(run)]);
      if step in PollTrace(run, windows, n) {
        PollTraceSteps(run, windows, n, step);
      }
    }
  }

  /** A run takes no step but its own proposals, polls and dispatches; everything else in its trace others do. */
  lemma {:induction false} RunTraceSteps(pack: Pack, run: nat, replies: nat -> Reply, moments: nat -> nat,
                                         others: nat -> seq<Step>, windows: nat -> seq<seq<Step>>, n: nat,
                                         trace: seq<Step>, step: Step)
    requires RunTrace(pack, run, replies, moments, others, windows, n, trace) && step in trace
    ensures OfRun(step, run) || ByOthers(step, others, windows)
  {
    hide ReplyTrace, OfRun;
    if n > 0 {
      var before, more :|
        && RunTrace(pack, run, replies, moments, others, windows, n - 1, before)
        && ReplyTrace(pack, run, replies(n), moments(n), windows(n), more)
        && trace == before + others(n) + more;
      if step in before {
        RunTraceSteps(pack, run, replies, moments, others, windows, n - 1, before, step);
      } else if step in more {
        ReplyTraceSteps(pack, run, replies(n), moments(n), windows(n), more, step);
      }
    }
  }

  lemma {:induction false} TurnTraceSteps(pack: Pack, chat: nat, outcomes: nat -> Outcome, moments: nat -> nat,
                                          others: nat -> seq<Step>, n: nat, step: Step)
    requires step in TurnTrace(pack, chat, outcomes, moments, others, n)
    ensures (step.ChatProposes? && step.chat == chat) || exists i :: step in others(i)
  {
    hide AllowedBy;
    if n > 0 && step in TurnTrace(pack, chat, outcomes, moments, others, n - 1) {
      TurnTraceSteps(pack, chat, outcomes, moments, others, n - 1, step);
    }
  }

  lemma NewDecision(pack: Pack, s: State, step: Step, id: nat)
    requires Decided(id, true) in Next(pack, s, step).history
    ensures Decided(id, true) in s.history || step == Decides(id, true)
  {
    hide Confirmation.Valid, Gated, Handled;
  }

  lemma {:induction false} NewDecisions(pack: Pack, s: State, trace: seq<Step>, id: nat)
    requires Decided(id, true) in Steps(pack, s, trace).history
    ensures Decided(id, true) in s.history || Decides(id, true) in trace
  {
    hide Next;
    if trace != [] {
      var init, last := trace[..|trace| - 1], trace[|trace| - 1];
      NewDecision(pack, Steps(pack, s, init), last, id);
      if Decided(id, true) in Steps(pack, s, init).history {
        NewDecisions(pack, s, init, id);
      }
    }
  }

  /** Whatever is executed under an id was approved under that id. */
  lemma ExecutedIsApproved(pack: Pack, s: State, id: nat, r: Request)
    requires Safe(pack, s) && Executed(id, r) in s.history
    ensures Decided(id, true) in s.history
  {
    hide AllJustified, RecordsTrue, HoldersAlone, ClearedRightly, MayBeFiled, MayBecome;
    var k :| 0 <= k < |s.history| && s.history[k] == Executed(id, r);
    var i, j := JustifiedExecution(pack, s.history, k);
  }

  /** No approval is older than what it is for. */
  lemma ApprovedWasFiled(pack: Pack, s: State, id: nat)
    requires Safe(pack, s) && Decided(id, true) in s.history
    ensures id < s.nextId
  {
    hide AllJustified, HoldersAlone, ClearedRightly;
    var j :| 0 <= j < |s.history| && s.history[j] == Decided(id, true);
    var i := DecidedWasFiled(pack, s.history, j);
    assert Filed(id, s.history[i].request) in s.history;
  }

  lemma NeedsApproval(pack: Pack, s: State, trace: seq<Step>, id: nat, r: Request)
    requires Safe(pack, s) && Executed(id, r) in Steps(pack, s, trace).history
    ensures Decided(id, true) in s.history || Decides(id, true) in trace
    ensures id >= s.nextId ==> Decides(id, true) in trace
  {
    hide Steps, Safe;
    StepsKeepSafe(pack, s, trace);
    ExecutedIsApproved(pack, Steps(pack, s, trace), id, r);
    NewDecisions(pack, s, trace, id);
    if Decided(id, true) in s.history {
      ApprovedWasFiled(pack, s, id);
    }
  }

  /** The loop of a run gets nothing executed on its own: what is executed by its end was approved before it began,
      or by somebody else while it ran; and by somebody else while it ran if it was filed while it ran. */
  lemma RunNeedsApproval(pack: Pack, s: State, run: nat, replies: nat -> Reply, moments: nat -> nat,
                         others: nat -> seq<Step>, windows: nat -> seq<seq<Step>>, n: nat, trace: seq<Step>,
                         id: nat, r: Request)
    requires Safe(pack, s) && RunTrace(pack, run, replies, moments, others, windows, n, trace)
    requires Executed(id, r) in Steps(pack, s, trace).history
    ensures Decided(id, true) in s.history || ByOthers(Decides(id, true), others, windows)
    ensures id >= s.nextId ==> ByOthers(Decides(id, true), others, windows)
  {
    hide Steps, Safe, RunTrace, ByOthers;
    NeedsApproval(pack, s, trace, id, r);
    if Decides(id, true) in trace {
      RunTraceSteps(pack, run, replies, moments, others, windows, n, trace, Decides(id, true));
    }
  }

  /** Nor does a turn of a session. */
  lemma TurnNeedsApproval(pack: Pack, s: State, chat: nat, outcomes: nat -> Outcome, moments: nat -> nat,
                          others: nat -> seq<Step>, result: TurnResult, id: nat, r: Request)
    requires Safe(pack, s) && (result.pending.Some? ==> Acts(outcomes(result.toolCalls)))
    requires Executed(id, r) in Steps(pack, s, WholeTurn(pack, chat, outcomes, moments, others, result)).history
    ensures Decided(id, true) in s.history || exists i :: Decides(id, true) in others(i)
    ensures id >= s.nextId ==> exists i :: Decides(id, true) in others(i)
  {
    hide Steps, Safe, TurnTrace;
    NeedsApproval(pack, s, WholeTurn(pack, chat, outcomes, moments, others, result), id, r);
    if Decides(id, true) in TurnTrace(pack, chat, outcomes, moments, others, result.toolCalls) {
      TurnTraceSteps(pack, chat, outcomes, moments, others, result.toolCalls, Decides(id, true));
    }
  }

  // ---- single steps, spelled out ----

  lemma OthersOn(pack: Pack, a: State, trace: seq<Step>, b: State, others: seq<Step>, c: State, chat: nat)
    requires Reached(pack, a, trace, b) && Reached(pack, b, others, c) && NotOfChat(others, chat)
    ensures Reached(pack, a, trace + others, c) && ChatOf(c, chat) == ChatOf(b, chat)
    ensures ChatProposals(trace + others, chat) == ChatProposals(trace, chat)
  {
    hide Reached, NotOfChat, ChatOf, ChatProposals, Proposals;
    ReachedLeavesChat(pack, b, others, c, chat);
    ReachedOn(pack, a, trace, b, others, c);
    OthersPropose(others, chat);
    ProposalsJoin(trace, others, chat);
    assert ChatProposals(trace, chat) + [] == ChatProposals(trace, chat);
  }

  lemma DispatchedOn(pack: Pack, a: State, trace: seq<Step>, b: State, chat: nat, at: nat, r: Request)
    requires Reached(pack, a, trace, b)
    requires ChatOf(b, chat).approved.None? && Confirmation.Valid(pack, at, r) && !Gated(pack, at, r)
    ensures Reached(pack, a, trace + [ChatProposes(chat, at, r)], Log(b, Dispatched(Handled(pack, at, r))))
    ensures ChatProposals(trace + [ChatProposes(chat, at, r)], chat) == ChatProposals(trace, chat) + [r]
    ensures ChatOf(Log(b, Dispatched(Handled(pack, at, r))), chat) == ChatOf(b, chat)
  {
    hide Reached, Next, Confirmation.Valid, Gated, Handled, ChatProposals, Proposals;
    ChatDispatchDoes(pack, b, chat, at, r);
    ReachedStep(pack, a, trace, b, ChatProposes(chat, at, r));
    ProposesOne(ChatProposes(chat, at, r), chat);
    ProposalsJoin(trace, [ChatProposes(chat, at, r)], chat);
  }

  lemma NothingAsked(replies: nat -> Reply)
    ensures Asked(replies, 0) == []
  {
  }

  lemma NoProposals(run: nat)
    ensures Proposals([], run) == [] && ChatProposals([], run) == []
  {
  }

  lemma ReachedLeavesRun(pack: Pack, a: State, trace: seq<Step>, b: State, run: nat)
    requires Reached(pack, a, trace, b) && NotOfRun(trace, run)
    ensures PhaseOf(b, run) == PhaseOf(a, run)
  {
    OthersLeaveRun(pack, a, trace, run);
  }

  lemma ReachedLeavesChat(pack: Pack, a: State, trace: seq<Step>, b: State, chat: nat)
    requires Reached(pack, a, trace, b) && NotOfChat(trace, chat)
    ensures ChatOf(b, chat) == ChatOf(a, chat)
  {
    OthersLeaveChat(pack, a, trace, chat);
  }

  lemma ReachedIsSteps(pack: Pack, a: State, trace: seq<Step>, b: State, run: nat, id: nat)
    requires Reached(pack, a, trace, b) && NotOfRun(trace, run) && id in a.records && id < a.nextId
    ensures PhaseOf(b, run) == PhaseOf(a, run) && id in b.records && id < b.nextId
    ensures b.records[id].request == a.records[id].request
  {
    OthersLeaveRun(pack, a, trace, run);
    RecordsStay(pack, a, trace, id);
  }

  lemma PollDoes(pack: Pack, s: State, run: nat, id: nat, late: bool)
    requires PhaseOf(s, run) == Waiting(id) && id in s.records
    ensures Next(pack, s, RunPolls(run, late)) ==
            if s.records[id].status == Approved then SetRun(s, run, Cleared(id, s.records[id].request))
            else if s.records[id].status == Rejected then SetRun(s, run, Free)
            else if late then TimeOut(s, run, id) else s
  {
  }

  lemma ProposalDoes(pack: Pack, s: State, run: nat, at: nat, r: Request)
    requires PhaseOf(s, run) == Free
    ensures Next(pack, s, RunProposes(run, at, r)) ==
            if !Confirmation.Valid(pack, at, r) then s
            else if Gated(pack, at, r) then SetRun(File(s, Handled(pack, at, r)), run, Waiting(s.nextId))
            else Log(s, Dispatched(Handled(pack, at, r)))
  {
  }

  lemma DispatchDoes(pack: Pack, s: State, run: nat)
    requires PhaseOf(s, run).Cleared?
    ensures Next(pack, s, RunDispatches(run)) ==
            SetRun(Log(s, Executed(PhaseOf(s, run).id, PhaseOf(s, run).request)), run, Free)
  {
  }

  lemma ChatDispatchDoes(pack: Pack, s: State, chat: nat, at: nat, r: Request)
    requires ChatOf(s, chat).approved.None? && Confirmation.Valid(pack, at, r) && !Gated(pack, at, r)
    ensures Next(pack, s, ChatProposes(chat, at, r)) == Log(s, Dispatched(Handled(pack, at, r)))
  {
  }

  lemma TurnEndDoes(pack: Pack, s: State, chat: nat, at: nat, filed: Option<Request>)
    requires ChatOf(s, chat).approved.None?
    requires filed.Some? ==> Confirmation.Valid(pack, at, filed.value) && Gated(pack, at, filed.value)
    ensures filed.Some? ==>
              Next(pack, s, ChatProposes(chat, at, filed.value)) ==
              SetChat(File(s, Handled(pack, at, filed.value)), chat, Chat(Some(s.nextId), None))
    ensures Next(pack, s, ChatEndsTurn(chat)) == SetChat(s, chat, Chat(None, None))
  {
  }

  lemma LoadDoes(pack: Pack, s: State, chat: nat)
    requires ChatOf(s, chat).approved.None?
    ensures var c := ChatOf(s, chat);
            Next(pack, s, ChatLoads(chat)) ==
            if c.pending.None? || c.pending.value !in s.records || s.records[c.pending.value].status == Pending then s
            else if s.records[c.pending.value].status == Approved
            then SetChat(s, chat, Chat(c.pending, Some(s.records[c.pending.value].request)))
            else SetChat(s, chat, Chat(None, None))
  {
  }

  lemma ExecutionDoes(pack: Pack, s: State, chat: nat, at: nat)
    requires ChatOf(s, chat).pending.Some? && ChatOf(s, chat).approved.Some?
    ensures var c := ChatOf(s, chat);
            Next(pack, s, ChatExecutes(chat, at)) ==
            SetChat(Log(s, Executed(c.pending.value, Handled(pack, at, c.approved.value))), chat, Chat(None, None))
  {
  }
}
