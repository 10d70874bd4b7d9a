/** The out-of-band confirmation protocol as a state machine: agents that run, chat sessions that pause and
    resume, and the operator, in any interleaving. */
module Confirmation {
  import opened Wrappers

  // ---- packs ----

  datatype ActionClass = ReadOnly | WriteExecute | Memory | Control

  /** What an agent asks for: an action type and its parameters. */
  datatype Request = Request(key: string, params: map<string, string>)

  /** An action as a validator leaves it: the validator is handed the action itself and may write to it. */
  datatype Left = Left(request: Request, actionClass: Option<ActionClass>, isReversible: Option<bool>,
                       humanConfirmation: Option<bool>)

  /** The reason to refuse the action, if there is one (an empty reason is none), and what is left of it. */
  datatype Checked = Checked(refusal: Option<string>, left: Left)

  /** A validator may answer differently at different moments. */
  datatype Spec = Spec(actionClass: ActionClass, isReversible: bool, check: (nat, Request) -> Checked)

  type Pack = map<string, Spec>

  predicate Valid(pack: Pack, at: nat, r: Request) {
    r.key in pack && (pack[r.key].check(at, r).refusal.None? || pack[r.key].check(at, r).refusal.value == "")
  }

  /** The request as the validator leaves it. */
  function Handled(pack: Pack, at: nat, r: Request): Request {
    if r.key in pack then pack[r.key].check(at, r).left.request else r
  }

  /** The kernel asks for a human: by the class that is left, or because the validator did. */
  predicate Gated(pack: Pack, at: nat, r: Request) {
    r.key in pack && (pack[r.key].check(at, r).left.actionClass == Some(WriteExecute)
                      || pack[r.key].check(at, r).left.humanConfirmation == Some(false))
  }

  /** The pack declares the action as one that needs a human. */
  predicate NeedsHuman(pack: Pack, r: Request) {
    r.key in pack && pack[r.key].actionClass == WriteExecute
  }

  // ---- state ----

  datatype Decision = Pending | Approved | Rejected

  /** A confirmation file. */
  datatype Record = Record(request: Request, status: Decision)

  /** An agent in `run`: free, waiting on a confirmation, or cleared to dispatch. */
  datatype Phase = Free | Waiting(id: nat) | Cleared(id: nat, request: Request)

  /** A chat session: the confirmation it is paused on, and the approved request it is about to execute. */
  datatype Chat = Chat(pending: Option<nat>, approved: Option<Request>)

  datatype Event =
    | Filed(id: nat, request: Request)
    | Decided(id: nat, approve: bool)
    | TimedOut(id: nat)
    | Dispatched(request: Request)             // without a confirmation
    | Executed(id: nat, request: Request)      // under a confirmation

  datatype State = State(records: map<nat, Record>, nextId: nat, runs: map<nat, Phase>, chats: map<nat, Chat>,
                         history: seq<Event>)

  const START := State(map[], 0, map[], map[], [])

  function PhaseOf(s: State, run: nat): Phase {
    if run in s.runs then s.runs[run] else Free
  }

  function ChatOf(s: State, chat: nat): Chat {
    if chat in s.chats then s.chats[chat] else Chat(None, None)
  }

  // ---- steps ----

  datatype Step =
    | RunProposes(run: nat, at: nat, request: Request)
    | RunPolls(run: nat, late: bool)           // `late`: the deadline has passed
    | RunTimesOut(run: nat)                    // writes the rejection, whatever the file says by then
    | RunDispatches(run: nat)
    | ChatProposes(chat: nat, at: nat, request: Request)
    | ChatEndsTurn(chat: nat)                  // any other end of a turn
    | ChatLoads(chat: nat)                     // a resume reads the record
    | ChatExecutes(chat: nat, at: nat)         // after another validation, whose answer is ignored
    | Decides(id: nat, approve: bool)          // the operator

  function Log(s: State, e: Event): State {
    s.(history := s.history + [e])
  }

  function SetRun(s: State, run: nat, phase: Phase): State {
    s.(runs := s.runs[run := phase])
  }

  function SetChat(s: State, chat: nat, c: Chat): State {
    s.(chats := s.chats[chat := c])
  }

  /** Writes a pending record under a fresh id. */
  function File(s: State, r: Request): State {
    Log(s, Filed(s.nextId, r)).(records := s.records[s.nextId := Record(r, Pending)], nextId := s.nextId + 1)
  }

  function SetStatus(s: State, id: nat, status: Decision): State
    requires id in s.records
  {
    s.(records := s.records[id := s.records[id].(status := status)])
  }

  function TimeOut(s: State, run: nat, id: nat): State
    requires id in s.records
  {
    SetRun(Log(SetStatus(s, id, Rejected), TimedOut(id)), run, Free)
  }

  /** One step of someone; a step that cannot be taken changes nothing. */
  function Next(pack: Pack, s: State, step: Step): State {
    match step
    case RunProposes(run, at, r) =>
      if PhaseOf(s, run) != Free || !Valid(pack, at, r) then s
      else if Gated(pack, at, r) then SetRun(File(s, Handled(pack, at, r)), run, Waiting(s.nextId))
      else Log(s, Dispatched(Handled(pack, at, r)))
    case RunPolls(run, late) =>
      var phase := PhaseOf(s, run);
      if !phase.Waiting? || phase.id !in s.records then s
      else
        var record := s.records[phase.id];
        if record.status == Approved then SetRun(s, run, Cleared(phase.id, record.request))
        else if record.status == Rejected then SetRun(s, run, Free)
        else if late then TimeOut(s, run, phase.id)
        else s
    case RunTimesOut(run) =>
      var phase := PhaseOf(s, run);
      if !phase.Waiting? || phase.id !in s.records then s else TimeOut(s, run, phase.id)
    case RunDispatches(run) =>
      var phase := PhaseOf(s, run);
      if !phase.Cleared? then s else SetRun(Log(s, Executed(phase.id, phase.request)), run, Free)
    case ChatProposes(chat, at, r) =>
      if ChatOf(s, chat).approved.Some? || !Valid(pack, at, r) then s
      else if Gated(pack, at, r) then SetChat(File(s, Handled(pack, at, r)), chat, Chat(Some(s.nextId), None))
      else Log(s, Dispatched(Handled(pack, at, r)))
    case ChatEndsTurn(chat) =>
      if ChatOf(s, chat).approved.Some? then s else SetChat(s, chat, Chat(None, None))
    case ChatLoads(chat) =>
      var c := ChatOf(s, chat);
      if c.pending.None? || c.approved.Some? || c.pending.value !in s.records then s
      else
        var record := s.records[c.pending.value];
        if record.status == Pending then s
        else if record.status == Approved then SetChat(s, chat, Chat(c.pending, Some(record.request)))
        else SetChat(s, chat, Chat(None, None))
    case ChatExecutes(chat, at) =>
      var c := ChatOf(s, chat);
      if c.pending.None? || c.approved.None? then s
      else SetChat(Log(s, Executed(c.pending.value, Handled(pack, at, c.approved.value))), chat, Chat(None, None))
    case Decides(id, approve) =>
      if id !in s.records then s
      else Log(SetStatus(s, id, if approve then Approved else Rejected), Decided(id, approve))
  }

  function Steps(pack: Pack, s: State, steps: seq<Step>): State {
    if steps == [] then s
    else Next(pack, Steps(pack, s, steps[..|steps| - 1]), steps[|steps| - 1])
  }

  lemma {:induction false} StepsJoin(pack: Pack, s: State, a: seq<Step>, b: seq<Step>)
    ensures Steps(pack, Steps(pack, s, a), b) == Steps(pack, s, a + b)
  {
    hide Next;
    if b == [] {
      assert a + b == a;
    } else {
      StepsJoin(pack, s, a, b[..|b| - 1]);
      assert (a + b)[..|a + b| - 1] == a + b[..|b| - 1];
    }
  }

  lemma OneStep(pack: Pack, s: State, step: Step)
    ensures Steps(pack, s, [step]) == Next(pack, s, step)
  {
    hide Next;
    assert [step][..0] == [];
  }

  // ---- what single decisions come to ----

  /** A decision is recorded as it was made, a wait that times out as a rejection, whatever the record said; nothing
      else of the record changes, and no other record does. */
  lemma DecisionsAreRecorded(pack: Pack, s: State, id: nat, approve: bool, run: nat)
    requires id in s.records
    ensures Next(pack, s, Decides(id, approve)).records ==
            s.records[id := Record(s.records[id].request, if approve then Approved else Rejected)]
    ensures PhaseOf(s, run) == Waiting(id) ==>
              && Next(pack, s, RunTimesOut(run)).records == s.records[id := Record(s.records[id].request, Rejected)]
              && PhaseOf(Next(pack, s, RunTimesOut(run)), run) == Free
    ensures PhaseOf(s, run) == Waiting(id) && s.records[id].status == Pending ==>
              && Next(pack, s, RunPolls(run, true)) == Next(pack, s, RunTimesOut(run))
              && Next(pack, s, RunPolls(run, false)) == s
  {
  }

  /** A run proposes an action that has to wait, the operator decides, the run polls and goes on. */
  function Waited(run: nat, at: nat, r: Request, id: nat, approve: bool, late: bool): seq<Step> {
    [RunProposes(run, at, r), Decides(id, approve), RunPolls(run, late), RunDispatches(run)]
  }

  lemma FourSteps(pack: Pack, s: State, a: Step, b: Step, c: Step, d: Step)
    ensures Steps(pack, s, [a, b, c, d]) == Next(pack, Next(pack, Next(pack, Next(pack, s, a), b), c), d)
  {
    hide Next;
    OneStep(pack, s, a);
    StepAfter(pack, s, [a], b);
    StepAfter(pack, s, [a, b], c);
    StepAfter(pack, s, [a, b, c], d);
    assert [a] + [b] == [a, b] && [a, b] + [c] == [a, b, c] && [a, b, c] + [d] == [a, b, c, d];
  }

  /** If the operator approves, the action is executed as it was filed, even at the last poll; if not, it is not. */
  lemma DecisionsCount(pack: Pack, s: State, run: nat, at: nat, r: Request, approve: bool, late: bool)
    requires PhaseOf(s, run) == Free && Valid(pack, at, r) && Gated(pack, at, r)
    ensures var id, q := s.nextId, Handled(pack, at, r);
            var t := Steps(pack, s, Waited(run, at, r, id, approve, late));
            && PhaseOf(t, run) == Free
            && t.history == s.history + [Filed(id, q), Decided(id, approve)] + if approve then [Executed(id, q)] else []
  {
    hide Valid, Gated, Handled;
    var id, q := s.nextId, Handled(pack, at, r);
    var a, b, c, d := RunProposes(run, at, r), Decides(id, approve), RunPolls(run, late), RunDispatches(run);
    FourSteps(pack, s, a, b, c, d);
    var s1 := Next(pack, s, a);
    assert s1.history == s.history + [Filed(id, q)];
    assert s1.records[id] == Record(q, Pending) && PhaseOf(s1, run) == Waiting(id);
    var s2 := Next(pack, s1, b);
    assert s2.history == s.history + [Filed(id, q), Decided(id, approve)] && PhaseOf(s2, run) == Waiting(id);
    var s3 := Next(pack, s2, c);
    assert s3.history == s2.history && PhaseOf(s3, run) == if approve then Cleared(id, q) else Free;
  }

  // ---- what every history shows ----

  ghost predicate MayBeFiled(pack: Pack, q: Request) {
    exists at, r :: Valid(pack, at, r) && Gated(pack, at, r) && q == Handled(pack, at, r)
  }

  ghost predicate MayBeDispatched(pack: Pack, q: Request) {
    exists at, r :: Valid(pack, at, r) && !Gated(pack, at, r) && q == Handled(pack, at, r)
  }

  /** What a filed request may have become by the time it is executed. */
  ghost predicate MayBecome(pack: Pack, q: Request, executed: Request) {
    executed == q || exists at :: executed == Handled(pack, at, q)
  }

  /** What must have happened before an event. */
  ghost predicate Justified(pack: Pack, before: seq<Event>, e: Event) {
    match e
    case Filed(id, q) => MayBeFiled(pack, q) && forall r' :: Filed(id, r') !in before
    case Decided(id, _) => exists r :: Filed(id, r) in before
    case TimedOut(id) => (exists r :: Filed(id, r) in before) && !Spent(before, id)
    case Dispatched(q) => MayBeDispatched(pack, q)
    case Executed(id, r) =>
      (exists q :: Filed(id, q) in before && MayBecome(pack, q, r)) && Decided(id, true) in before && !Spent(before, id)
  }

  /** The id was executed, or its wait ended without an approval. */
  ghost predicate Spent(history: seq<Event>, id: nat) {
    TimedOut(id) in history || exists r :: Executed(id, r) in history
  }

  ghost predicate AllJustified(pack: Pack, history: seq<Event>) {
    forall k | 0 <= k < |history| :: Justified(pack, history[..k], history[k])
  }

  // ---- the invariant ----

  predicate RunHolds(s: State, run: nat, id: nat) {
    run in s.runs && (s.runs[run] == Waiting(id) || (s.runs[run].Cleared? && s.runs[run].id == id))
  }

  predicate ChatHolds(s: State, chat: nat, id: nat) {
    chat in s.chats && s.chats[chat].pending == Some(id)
  }

  /** Each record is what was filed under its id, and says "approved" only after the operator did. */
  ghost predicate RecordsTrue(s: State) {
    && (forall id | id in s.records ::
          && id < s.nextId && Filed(id, s.records[id].request) in s.history
          && (s.records[id].status == Approved ==> Decided(id, true) in s.history))
    && (forall id, r | Filed(id, r) in s.history :: id in s.records && s.records[id].request == r)
  }

  /** Whoever waits for an id is the only one, and the id is not spent. */
  ghost predicate HoldersAlone(s: State) {
    && (forall run, id | RunHolds(s, run, id) :: id in s.records && !Spent(s.history, id))
    && (forall chat, id | ChatHolds(s, chat, id) :: id in s.records && !Spent(s.history, id))
    && (forall run, run', id | RunHolds(s, run, id) && RunHolds(s, run', id) :: run == run')
    && (forall chat, chat', id | ChatHolds(s, chat, id) && ChatHolds(s, chat', id) :: chat == chat')
    && (forall run, chat, id :: !(RunHolds(s, run, id) && ChatHolds(s, chat, id)))
  }

  /** Whoever is about to execute was approved. */
  ghost predicate ClearedRightly(s: State) {
    && (forall run | run in s.runs && s.runs[run].Cleared? ::
          && Filed(s.runs[run].id, s.runs[run].request) in s.history && Decided(s.runs[run].id, true) in s.history)
    && (forall chat | chat in s.chats && s.chats[chat].approved.Some? ::
          && s.chats[chat].pending.Some?
          && Filed(s.chats[chat].pending.value, s.chats[chat].approved.value) in s.history
          && Decided(s.chats[chat].pending.value, true) in s.history)
  }

  ghost predicate Safe(pack: Pack, s: State) {
    AllJustified(pack, s.history) && RecordsTrue(s) && HoldersAlone(s) && ClearedRightly(s)
  }

  lemma LogJustified(pack: Pack, history: seq<Event>, e: Event)
    requires AllJustified(pack, history) && Justified(pack, history, e)
    ensures AllJustified(pack, history + [e])
  {
    hide Justified;
    var h := history + [e];
    forall k | 0 <= k < |h| ensures Justified(pack, h[..k], h[k]) {
      assert h[..k] == if k < |history| then history[..k] else history;
    }
  }

  /** An event about `id` leaves what is said of every other id as it was. */
  lemma SpentBy(history: seq<Event>, e: Event, id: nat)
    ensures Spent(history + [e], id) <==>
            Spent(history, id) || (e.TimedOut? && e.id == id) || (e.Executed? && e.id == id)
  {
    var h := history + [e];
    assert forall x :: x in h <==> x in history || x == e;
    if Spent(history, id) && TimedOut(id) !in history {
      var r :| Executed(id, r) in history;
      assert Executed(id, r) in h;
    }
    if e.Executed? && e.id == id {
      assert Executed(id, e.request) in h;
    }
  }

  lemma SpentWasFiled(pack: Pack, s: State, id: nat)
    requires AllJustified(pack, s.history) && RecordsTrue(s) && Spent(s.history, id)
    ensures id in s.records
  {
    var h := s.history;
    var k :| 0 <= k < |h| && ((h[k].TimedOut? || h[k].Executed?) && h[k].id == id);
    assert Justified(pack, h[..k], h[k]);
    var r :| Filed(id, r) in h[..k];
    assert Filed(id, r) in h;
  }

  lemma FiledRecords(pack: Pack, s: State, r: Request)
    requires RecordsTrue(s)
    ensures RecordsTrue(File(s, r)) && s.nextId !in s.records
    ensures forall q :: Filed(s.nextId, q) !in s.history
  {
    var t := File(s, r);
    assert forall x :: x in t.history <==> x in s.history || x == Filed(s.nextId, r);
  }

  lemma FiledHolders(pack: Pack, s: State, r: Request)
    requires HoldersAlone(s) && ClearedRightly(s) && s.nextId !in s.records
    ensures HoldersAlone(File(s, r)) && ClearedRightly(File(s, r))
    ensures Unheld(File(s, r), s.nextId)
  {
    hide Spent;
    var t := File(s, r);
    forall id { SpentBy(s.history, Filed(s.nextId, r), id); }
    assert forall x | x in s.history :: x in t.history;
    assert forall run, id :: RunHolds(t, run, id) <==> RunHolds(s, run, id);
    assert forall chat, id :: ChatHolds(t, chat, id) <==> ChatHolds(s, chat, id);
  }

  /** Filing gives a fresh id, which nobody holds yet. */
  lemma FileKeeps(pack: Pack, s: State, r: Request)
    requires Safe(pack, s) && MayBeFiled(pack, r)
    ensures Safe(pack, File(s, r))
    ensures var t, id := File(s, r), s.nextId;
            id in t.records && !Spent(t.history, id) && Unheld(t, id)
  {
    hide Spent, MayBeFiled, RecordsTrue, HoldersAlone, ClearedRightly, AllJustified, RunHolds, ChatHolds;
    FiledRecords(pack, s, r);
    FiledHolders(pack, s, r);
    LogJustified(pack, s.history, Filed(s.nextId, r));
    if Spent(s.history, s.nextId) {
      SpentWasFiled(pack, s, s.nextId);
    }
    SpentBy(s.history, Filed(s.nextId, r), s.nextId);
  }

  lemma LogKeeps(pack: Pack, s: State, e: Event)
    requires Safe(pack, s) && Justified(pack, s.history, e) && !e.Filed?
    requires e.TimedOut? || e.Executed? ==> Unheld(s, e.id)
    ensures Safe(pack, Log(s, e))
  {
    hide Spent, Justified;
    var t := Log(s, e);
    LogJustified(pack, s.history, e);
    forall id { SpentBy(s.history, e, id); }
    assert forall x :: x in t.history <==> x in s.history || x == e;
    assert forall run, id :: RunHolds(t, run, id) <==> RunHolds(s, run, id);
    assert forall chat, id :: ChatHolds(t, chat, id) <==> ChatHolds(s, chat, id);
  }

  lemma StatusKeeps(pack: Pack, s: State, id: nat, status: Decision)
    requires Safe(pack, s) && id in s.records
    requires status == Approved ==> Decided(id, true) in s.history
    ensures Safe(pack, SetStatus(s, id, status))
  {
    hide RecordsTrue, HoldersAlone, ClearedRightly, AllJustified;
    StatusRecords(s, id, status);
    StatusHolders(s, id, status);
  }

  lemma StatusRecords(s: State, id: nat, status: Decision)
    requires RecordsTrue(s) && id in s.records
    requires status == Approved ==> Decided(id, true) in s.history
    ensures RecordsTrue(SetStatus(s, id, status))
  {
  }

  lemma StatusHolders(s: State, id: nat, status: Decision)
    requires HoldersAlone(s) && ClearedRightly(s) && id in s.records
    ensures HoldersAlone(SetStatus(s, id, status)) && ClearedRightly(SetStatus(s, id, status))
  {
    hide Spent;
    var t := SetStatus(s, id, status);
    assert forall run, i :: RunHolds(t, run, i) <==> RunHolds(s, run, i);
    assert forall chat, i :: ChatHolds(t, chat, i) <==> ChatHolds(s, chat, i);
  }

  /** Nobody but one run may come to hold `id`. */
  ghost predicate FreeButForRun(s: State, run: nat, id: nat) {
    && id in s.records && !Spent(s.history, id)
    && (forall r | r != run :: !RunHolds(s, r, id)) && (forall chat :: !ChatHolds(s, chat, id))
  }

  ghost predicate FreeButForChat(s: State, chat: nat, id: nat) {
    && id in s.records && !Spent(s.history, id)
    && (forall d | d != chat :: !ChatHolds(s, d, id)) && (forall run :: !RunHolds(s, run, id))
  }

  ghost predicate Unheld(s: State, id: nat) {
    (forall run :: !RunHolds(s, run, id)) && (forall chat :: !ChatHolds(s, chat, id))
  }

  lemma RunHolders(s: State, run: nat, phase: Phase)
    requires HoldersAlone(s) && (!phase.Free? ==> FreeButForRun(s, run, phase.id))
    ensures HoldersAlone(SetRun(s, run, phase))
    ensures phase.Free? ==> forall id | RunHolds(s, run, id) :: Unheld(SetRun(s, run, phase), id)
  {
    hide Spent;
    var t := SetRun(s, run, phase);
    assert forall r: nat, id: nat :: RunHolds(t, r, id) <==>
           if r == run then !phase.Free? && id == phase.id else RunHolds(s, r, id);
    assert forall chat, id :: ChatHolds(t, chat, id) <==> ChatHolds(s, chat, id);
  }

  lemma ChatHolders(s: State, chat: nat, c: Chat)
    requires HoldersAlone(s) && (c.pending.Some? ==> FreeButForChat(s, chat, c.pending.value))
    ensures HoldersAlone(SetChat(s, chat, c))
    ensures c.pending.None? ==> forall id | ChatHolds(s, chat, id) :: Unheld(SetChat(s, chat, c), id)
  {
    hide Spent;
    var t := SetChat(s, chat, c);
    assert forall d: nat, id: nat :: ChatHolds(t, d, id) <==>
           if d == chat then c.pending == Some(id) else ChatHolds(s, d, id);
    assert forall run, id :: RunHolds(t, run, id) <==> RunHolds(s, run, id);
  }

  /** A run moves between phases: whatever it holds afterwards is not spent, no one else's, and cleared
      only if approved. */
  lemma RunKeeps(pack: Pack, s: State, run: nat, phase: Phase)
    requires Safe(pack, s)
    requires !phase.Free? ==> FreeButForRun(s, run, phase.id)
    requires phase.Cleared? ==> Filed(phase.id, phase.request) in s.history && Decided(phase.id, true) in s.history
    ensures Safe(pack, SetRun(s, run, phase))
    ensures phase.Free? ==> forall id | RunHolds(s, run, id) :: Unheld(SetRun(s, run, phase), id)
  {
    hide FreeButForRun, AllJustified, HoldersAlone, RunHolds, Unheld;
    RunHolders(s, run, phase);
  }

  lemma ChatKeeps(pack: Pack, s: State, chat: nat, c: Chat)
    requires Safe(pack, s)
    requires c.pending.Some? ==> FreeButForChat(s, chat, c.pending.value)
    requires c.approved.Some? ==>
               && c.pending.Some? && Filed(c.pending.value, c.approved.value) in s.history
               && Decided(c.pending.value, true) in s.history
    ensures Safe(pack, SetChat(s, chat, c))
    ensures c.pending.None? ==> forall id | ChatHolds(s, chat, id) :: Unheld(SetChat(s, chat, c), id)
  {
    hide FreeButForChat, AllJustified, HoldersAlone, ChatHolds, Unheld;
    ChatHolders(s, chat, c);
  }

  lemma AHolderIsAlone(s: State, run: nat, chat: nat, id: nat)
    requires HoldersAlone(s)
    ensures RunHolds(s, run, id) ==> FreeButForRun(s, run, id)
    ensures ChatHolds(s, chat, id) ==> FreeButForChat(s, chat, id)
  {
    hide Spent, RunHolds, ChatHolds;
  }

  lemma HeldIsRecorded(s: State, run: nat, chat: nat, id: nat)
    requires HoldersAlone(s) && (RunHolds(s, run, id) || ChatHolds(s, chat, id))
    ensures id in s.records && !Spent(s.history, id)
  {
  }

  lemma TimeOutKeeps(pack: Pack, s: State, run: nat, id: nat)
    requires Safe(pack, s) && RunHolds(s, run, id)
    ensures id in s.records && Safe(pack, TimeOut(s, run, id))
  {
    hide Spent, AllJustified;
    var a := SetRun(s, run, Free);
    RunKeeps(pack, s, run, Free);
    assert Filed(id, s.records[id].request) in a.history;
    LogKeeps(pack, a, TimedOut(id));
    StatusKeeps(pack, Log(a, TimedOut(id)), id, Rejected);
    assert SetStatus(Log(a, TimedOut(id)), id, Rejected) == TimeOut(s, run, id);
  }

  lemma RunStepKeeps(pack: Pack, s: State, step: Step)
    requires Safe(pack, s)
    requires step.RunPolls? || step.RunTimesOut? || step.RunDispatches?
    ensures Safe(pack, Next(pack, s, step))
  {
    hide Spent, AllJustified, TimeOut, HoldersAlone, FreeButForRun, Unheld;
    var run := step.run;
    var phase := PhaseOf(s, run);
    if phase.Waiting? {
      assert RunHolds(s, run, phase.id);
      HeldIsRecorded(s, run, 0, phase.id);
      AHolderIsAlone(s, run, 0, phase.id);
      if step.RunTimesOut? || (step.RunPolls? && s.records[phase.id].status == Pending && step.late) {
        TimeOutKeeps(pack, s, run, phase.id);
      } else if step.RunPolls? && s.records[phase.id].status == Approved {
        RunKeeps(pack, s, run, Cleared(phase.id, s.records[phase.id].request));
      } else if step.RunPolls? {
        RunKeeps(pack, s, run, Free);
      }
    } else if phase.Cleared? && step.RunDispatches? {
      assert RunHolds(s, run, phase.id);
      HeldIsRecorded(s, run, 0, phase.id);
      RunKeeps(pack, s, run, Free);
      LogKeeps(pack, SetRun(s, run, Free), Executed(phase.id, phase.request));
      assert Next(pack, s, step) == Log(SetRun(s, run, Free), Executed(phase.id, phase.request));
    }
  }

  lemma ChatStepKeeps(pack: Pack, s: State, step: Step)
    requires Safe(pack, s)
    requires step.ChatEndsTurn? || step.ChatLoads? || step.ChatExecutes?
    ensures Safe(pack, Next(pack, s, step))
  {
    hide Spent, AllJustified, HoldersAlone, FreeButForChat, Unheld;
    var chat := step.chat;
    var c := ChatOf(s, chat);
    if c.pending.Some? {
      assert ChatHolds(s, chat, c.pending.value);
      HeldIsRecorded(s, 0, chat, c.pending.value);
      AHolderIsAlone(s, 0, chat, c.pending.value);
    }
    ChatKeeps(pack, s, chat, Chat(None, None));
    if step.ChatLoads? && c.pending.Some? && c.approved.None? && s.records[c.pending.value].status == Approved {
      ChatKeeps(pack, s, chat, Chat(c.pending, Some(s.records[c.pending.value].request)));
    }
    if step.ChatExecutes? && c.pending.Some? && c.approved.Some? {
      var e := Executed(c.pending.value, Handled(pack, step.at, c.approved.value));
      assert MayBecome(pack, c.approved.value, e.request);
      LogKeeps(pack, SetChat(s, chat, Chat(None, None)), e);
      assert Next(pack, s, step) == Log(SetChat(s, chat, Chat(None, None)), e);
    }
  }

  lemma ProposalKeeps(pack: Pack, s: State, step: Step)
    requires Safe(pack, s)
    requires step.RunProposes? || step.ChatProposes?
    ensures Safe(pack, Next(pack, s, step))
  {
    hide Spent, AllJustified, Safe, File, SetRun, SetChat, Log, Valid, Gated, Handled, RunHolds, ChatHolds;
    var at, r := step.at, step.request;
    var q := Handled(pack, at, r);
    if Valid(pack, at, r) && Gated(pack, at, r) {
      assert MayBeFiled(pack, q);
      FileKeeps(pack, s, q);
      if step.RunProposes? {
        RunKeeps(pack, File(s, q), step.run, Waiting(s.nextId));
      } else {
        ChatKeeps(pack, File(s, q), step.chat, Chat(Some(s.nextId), None));
      }
    } else if Valid(pack, at, r) {
      assert MayBeDispatched(pack, q);
      LogKeeps(pack, s, Dispatched(q));
    }
  }

  lemma DecisionKeeps(pack: Pack, s: State, id: nat, approve: bool)
    requires Safe(pack, s)
    ensures Safe(pack, Next(pack, s, Decides(id, approve)))
  {
    hide Spent, AllJustified, HoldersAlone, Unheld;
    if id in s.records {
      assert Filed(id, s.records[id].request) in s.history;
      LogKeeps(pack, s, Decided(id, approve));
      StatusKeeps(pack, Log(s, Decided(id, approve)), id, if approve then Approved else Rejected);
    }
  }

  lemma NextKeeps(pack: Pack, s: State, step: Step)
    requires Safe(pack, s)
    ensures Safe(pack, Next(pack, s, step))
  {
    hide Safe, Next;
    match step
    case RunProposes(_, _, _) => ProposalKeeps(pack, s, step);
    case ChatProposes(_, _, _) => ProposalKeeps(pack, s, step);
    case RunPolls(_, _) => RunStepKeeps(pack, s, step);
    case RunTimesOut(_) => RunStepKeeps(pack, s, step);
    case RunDispatches(_) => RunStepKeeps(pack, s, step);
    case ChatEndsTurn(_) => ChatStepKeeps(pack, s, step);
    case ChatLoads(_) => ChatStepKeeps(pack, s, step);
    case ChatExecutes(_, _) => ChatStepKeeps(pack, s, step);
    case Decides(id, approve) => DecisionKeeps(pack, s, id, approve);
  }

  /** The invariant holds after any interleaving of any steps, for every pack. */
  lemma {:induction false} EveryRunIsSafe(pack: Pack, steps: seq<Step>)
    ensures Safe(pack, Steps(pack, START, steps))
  {
    hide Safe, Next;
    if steps == [] {
      StartIsSafe(pack);
    } else {
      EveryRunIsSafe(pack, steps[..|steps| - 1]);
      NextKeeps(pack, Steps(pack, START, steps[..|steps| - 1]), steps[|steps| - 1]);
    }
  }

  lemma StartIsSafe(pack: Pack)
    ensures Safe(pack, START)
  {
  }

  /** From any state in which they hold, the guarantees of the protocol hold after any steps. */
  lemma {:induction false} StepsKeepSafe(pack: Pack, s: State, steps: seq<Step>)
    requires Safe(pack, s)
    ensures Safe(pack, Steps(pack, s, steps))
  {
    hide Next, Safe;
    if steps == [] {
    } else {
      StepsKeepSafe(pack, s, steps[..|steps| - 1]);
      NextKeeps(pack, Steps(pack, s, steps[..|steps| - 1]), steps[|steps| - 1]);
    }
  }

  // ---- the guarantees ----

  ghost function History(pack: Pack, steps: seq<Step>): seq<Event> {
    Steps(pack, START, steps).history
  }

  /** Whatever a validator accepts and leaves ungated needs no human. */
  ghost predicate Confirming(pack: Pack) {
    forall at, r | Valid(pack, at, r) && !Gated(pack, at, r) :: !NeedsHuman(pack, Handled(pack, at, r))
  }

  /** In no history is an action dispatched without a confirmation although the pack declares that it needs a
      human: not by a run, not in a chat turn. */
  ghost predicate NeverUnconfirmed(pack: Pack) {
    forall steps, k | 0 <= k < |History(pack, steps)| && History(pack, steps)[k].Dispatched? ::
      !NeedsHuman(pack, History(pack, steps)[k].request)
  }

  /** A pack never gets an unconfirmed dispatch exactly when no validator of it leaves an accepted action
      ungated that needs a human. */
  lemma NoUnconfirmedWrite(pack: Pack)
    ensures NeverUnconfirmed(pack) <==> Confirming(pack)
  {
    hide Steps, Valid, NeedsHuman, Gated, Handled;
    if Confirming(pack) {
      forall steps, k | 0 <= k < |History(pack, steps)| && History(pack, steps)[k].Dispatched?
        ensures !NeedsHuman(pack, History(pack, steps)[k].request)
      {
        EveryRunIsSafe(pack, steps);
        assert Justified(pack, History(pack, steps)[..k], History(pack, steps)[k]);
      }
    }
    if NeverUnconfirmed(pack) {
      forall at, r | Valid(pack, at, r) && !Gated(pack, at, r) ensures !NeedsHuman(pack, Handled(pack, at, r)) {
        var steps := [RunProposes(0, at, r)];
        OneStep(pack, START, steps[0]);
        assert History(pack, steps) == [] + [Dispatched(Handled(pack, at, r))];
        assert History(pack, steps)[0].Dispatched?;
      }
    }
  }

  /** Validators that leave the request alone, and the class of what needs a human. */
  ghost predicate Tame(pack: Pack) {
    forall at: nat, r: Request | r.key in pack ::
      && Handled(pack, at, r) == r
      && (Valid(pack, at, r) && NeedsHuman(pack, r) ==> pack[r.key].check(at, r).left.actionClass == Some(WriteExecute))
  }

  lemma TamePacksConfirm(pack: Pack)
    requires Tame(pack)
    ensures NeverUnconfirmed(pack) && NeverSwapped(pack)
  {
    hide NeverUnconfirmed, NeverSwapped;
    NoUnconfirmedWrite(pack);
    ApprovedIsExecuted(pack);
    assert Confirming(pack);
  }

  /** A validator that lowers the class of the action it accepts gets it dispatched at once. */
  lemma ALoweringPack()
    ensures var pack: Pack := map["write_poc" := Spec(WriteExecute, false, Lowers)];
            var r := Request("write_poc", map[]);
            NeedsHuman(pack, r) && History(pack, [RunProposes(0, 0, r)]) == [Dispatched(r)]
  {
    var pack: Pack := map["write_poc" := Spec(WriteExecute, false, Lowers)];
    OneStep(pack, START, RunProposes(0, 0, Request("write_poc", map[])));
  }

  function Lowers(at: nat, r: Request): Checked {
    Checked(None, Left(r, Some(ReadOnly), Some(false), None))
  }

  lemma JustifiedAt(pack: Pack, h: seq<Event>, k: nat)
    requires AllJustified(pack, h) && k < |h|
    ensures Justified(pack, h[..k], h[k])
  {
  }

  /** A decision on an id was made after the id was filed. */
  lemma DecidedWasFiled(pack: Pack, h: seq<Event>, j: nat) returns (i: nat)
    requires AllJustified(pack, h) && j < |h| && h[j].Decided?
    ensures i < j && h[i].Filed? && h[i].id == h[j].id
  {
    hide AllJustified;
    JustifiedAt(pack, h, j);
    var r :| Filed(h[j].id, r) in h[..j];
    i :| 0 <= i < j && h[..j][i] == Filed(h[j].id, r);
  }

  lemma JustifiedExecution(pack: Pack, h: seq<Event>, k: nat) returns (i: nat, j: nat)
    requires AllJustified(pack, h) && k < |h| && h[k].Executed?
    ensures i < j < k && h[j] == Decided(h[k].id, true) && h[i].Filed? && h[i].id == h[k].id
    ensures MayBeFiled(pack, h[i].request) && MayBecome(pack, h[i].request, h[k].request)
  {
    hide Spent, MayBeFiled, MayBecome, AllJustified;
    var id := h[k].id;
    JustifiedAt(pack, h, k);
    j :| 0 <= j < k && h[..k][j] == Decided(id, true);
    i := DecidedWasFiled(pack, h, j);
    var q :| Filed(id, q) in h[..k] && MayBecome(pack, q, h[k].request);
    var f :| 0 <= f < k && h[..k][f] == Filed(id, q);
    FiledOnce(pack, h, i, f);
    JustifiedAt(pack, h, i);
  }

  /** What is executed was filed under its id, and was then approved by the operator under that id; between
      filing and execution only a validator may have changed it. */
  lemma ExecutedAfterApproval(pack: Pack, steps: seq<Step>, k: nat) returns (i: nat, j: nat)
    requires k < |History(pack, steps)| && History(pack, steps)[k].Executed?
    ensures var h := History(pack, steps);
            && i < j < k && h[j] == Decided(h[k].id, true) && h[i].Filed? && h[i].id == h[k].id
            && MayBeFiled(pack, h[i].request) && MayBecome(pack, h[i].request, h[k].request)
  {
    hide Steps, AllJustified, MayBeFiled, MayBecome;
    EveryRunIsSafe(pack, steps);
    i, j := JustifiedExecution(pack, History(pack, steps), k);
  }

  /** In every history what is executed under an id is what was filed under it. */
  ghost predicate NeverSwapped(pack: Pack) {
    forall steps, i, k | && 0 <= i < |History(pack, steps)| && 0 <= k < |History(pack, steps)|
                         && History(pack, steps)[i].Filed? && History(pack, steps)[k].Executed?
                         && History(pack, steps)[i].id == History(pack, steps)[k].id ::
      History(pack, steps)[i].request == History(pack, steps)[k].request
  }

  /** Validating a filed request once more leaves it as it is. */
  ghost predicate Settling(pack: Pack) {
    forall at, r, later | Valid(pack, at, r) && Gated(pack, at, r) ::
      Handled(pack, later, Handled(pack, at, r)) == Handled(pack, at, r)
  }

  /** What the operator approved is what is executed, parameters included, exactly when the validators of the
      pack leave filed requests alone. */
  lemma ApprovedIsExecuted(pack: Pack)
    ensures NeverSwapped(pack) <==> Settling(pack)
  {
    hide Steps, Valid, Gated, Handled;
    if Settling(pack) {
      forall steps, i, k | && 0 <= i < |History(pack, steps)| && 0 <= k < |History(pack, steps)|
                           && History(pack, steps)[i].Filed? && History(pack, steps)[k].Executed?
                           && History(pack, steps)[i].id == History(pack, steps)[k].id
        ensures History(pack, steps)[i].request == History(pack, steps)[k].request
      {
        EveryRunIsSafe(pack, steps);
        var f, j := ExecutedAfterApproval(pack, steps, k);
        FiledOnce(pack, History(pack, steps), i, f);
      }
    }
    if NeverSwapped(pack) {
      forall at, r, later | Valid(pack, at, r) && Gated(pack, at, r)
        ensures Handled(pack, later, Handled(pack, at, r)) == Handled(pack, at, r)
      {
        var steps := Approving(at, r, later);
        ApprovingDoes(pack, at, r, later);
        assert History(pack, steps)[0].Filed? && History(pack, steps)[2].Executed?;
      }
    }
  }

  /** A chat turn files a request, the operator approves it, the session resumes. */
  function Approving(at: nat, r: Request, later: nat): seq<Step> {
    [ChatProposes(0, at, r), Decides(0, true), ChatLoads(0), ChatExecutes(0, later)]
  }

  lemma ApprovingDoes(pack: Pack, at: nat, r: Request, later: nat)
    requires Valid(pack, at, r) && Gated(pack, at, r)
    ensures var q := Handled(pack, at, r);
            History(pack, Approving(at, r, later)) ==
            [Filed(0, q), Decided(0, true), Executed(0, Handled(pack, later, q))]
  {
    hide Valid, Gated, Handled;
    var q, steps := Handled(pack, at, r), Approving(at, r, later);
    OneStep(pack, START, steps[0]);
    var s1 := Next(pack, START, steps[0]);
    var s2 := Next(pack, s1, steps[1]);
    var s3 := Next(pack, s2, steps[2]);
    var s4 := Next(pack, s3, steps[3]);
    StepAfter(pack, START, [steps[0]], steps[1]);
    StepAfter(pack, START, [steps[0], steps[1]], steps[2]);
    StepAfter(pack, START, [steps[0], steps[1], steps[2]], steps[3]);
    assert [steps[0]] + [steps[1]] == [steps[0], steps[1]];
    assert [steps[0], steps[1]] + [steps[2]] == [steps[0], steps[1], steps[2]];
    assert [steps[0], steps[1], steps[2]] + [steps[3]] == steps;
    assert s1.records == map[0 := Record(q, Pending)] && ChatOf(s1, 0) == Chat(Some(0), None);
    assert s2.records == map[0 := Record(q, Approved)] && ChatOf(s3, 0) == Chat(Some(0), Some(q));
    assert s4.history == [Filed(0, q), Decided(0, true), Executed(0, Handled(pack, later, q))];
  }

  lemma StepAfter(pack: Pack, s: State, steps: seq<Step>, step: Step)
    ensures Steps(pack, s, steps + [step]) == Next(pack, Steps(pack, s, steps), step)
  {
    hide Next;
    assert (steps + [step])[..|steps|] == steps;
  }

  lemma Earlier(h: seq<Event>, i: nat, j: nat)
    requires i < j < |h|
    ensures h[i] in h[..j]
    ensures h[i].TimedOut? || h[i].Executed? ==> Spent(h[..j], h[i].id)
  {
    assert h[..j][i] == h[i];
    if h[i].Executed? {
      assert Executed(h[i].id, h[i].request) in h[..j];
    }
  }

  lemma FiledOnce(pack: Pack, h: seq<Event>, i: nat, j: nat)
    requires AllJustified(pack, h) && i < |h| && j < |h|
    requires h[i].Filed? && h[j].Filed? && h[i].id == h[j].id
    ensures i == j
  {
    assert Justified(pack, h[..i], h[i]) && Justified(pack, h[..j], h[j]);
    if i < j {
      Earlier(h, i, j);
    } else if j < i {
      Earlier(h, j, i);
    }
  }

  /** One approval, at most one execution. */
  lemma ExecutedOnce(pack: Pack, steps: seq<Step>, i: nat, j: nat)
    requires i < |History(pack, steps)| && j < |History(pack, steps)|
    requires History(pack, steps)[i].Executed? && History(pack, steps)[j].Executed?
    requires History(pack, steps)[i].id == History(pack, steps)[j].id
    ensures i == j
  {
    hide Steps, Spent, MayBeFiled, MayBecome;
    EveryRunIsSafe(pack, steps);
    var h := History(pack, steps);
    assert Justified(pack, h[..i], h[i]) && Justified(pack, h[..j], h[j]);
    if i < j {
      Earlier(h, i, j);
    } else if j < i {
      Earlier(h, j, i);
    }
  }

  /** A wait that timed out stays without effect, even if the operator approves it afterwards. */
  lemma TimedOutNeverExecutes(pack: Pack, steps: seq<Step>, i: nat, j: nat)
    requires i < |History(pack, steps)| && j < |History(pack, steps)|
    requires History(pack, steps)[i].TimedOut? && History(pack, steps)[j].Executed?
    ensures History(pack, steps)[i].id != History(pack, steps)[j].id
  {
    hide Steps, Spent, MayBeFiled, MayBecome;
    EveryRunIsSafe(pack, steps);
    var h := History(pack, steps);
    assert Justified(pack, h[..i], h[i]) && Justified(pack, h[..j], h[j]);
    if i < j {
      Earlier(h, i, j);
    } else {
      Earlier(h, j, i);
    }
  }

  // ---- abandoned requests ----

  /** Filed once, and nobody waits for it any more. */
  ghost predicate Abandoned(s: State, id: nat) {
    id < s.nextId && Unheld(s, id)
  }

  /** A step takes nobody's wait over: who waits afterwards waited before or has a fresh id. */
  lemma HoldsAsBefore(pack: Pack, s: State, step: Step, run: nat, id: nat)
    requires id < s.nextId
    ensures RunHolds(Next(pack, s, step), run, id) ==> RunHolds(s, run, id)
    ensures s.nextId <= Next(pack, s, step).nextId
  {
    hide Valid, Gated, Handled;
  }

  lemma ChatHoldsAsBefore(pack: Pack, s: State, step: Step, chat: nat, id: nat)
    requires id < s.nextId
    ensures ChatHolds(Next(pack, s, step), chat, id) ==> ChatHolds(s, chat, id)
  {
    hide Valid, Gated, Handled;
  }

  /** Only a holder executes. */
  lemma ExecutionHolds(pack: Pack, s: State, step: Step, id: nat, r: Request)
    requires Executed(id, r) in Next(pack, s, step).history && Executed(id, r) !in s.history
    ensures (exists run :: RunHolds(s, run, id)) || exists chat :: ChatHolds(s, chat, id)
  {
    hide Valid, Gated, Handled;
    if step.RunDispatches? {
      assert RunHolds(s, step.run, id);
    } else if step.ChatExecutes? {
      assert ChatHolds(s, step.chat, id);
    }
  }

  lemma AbandonedStays(pack: Pack, s: State, step: Step, id: nat)
    requires Abandoned(s, id)
    ensures Abandoned(Next(pack, s, step), id)
    ensures forall r | Executed(id, r) in Next(pack, s, step).history :: Executed(id, r) in s.history
  {
    hide Next, RunHolds, ChatHolds;
    forall run { HoldsAsBefore(pack, s, step, run, id); }
    forall chat { ChatHoldsAsBefore(pack, s, step, chat, id); }
    HoldsAsBefore(pack, s, step, 0, id);
    forall r | Executed(id, r) in Next(pack, s, step).history ensures Executed(id, r) in s.history {
      if Executed(id, r) !in s.history {
        ExecutionHolds(pack, s, step, id, r);
      }
    }
  }

  /** An approval that comes for an abandoned request is never acted upon. */
  lemma {:induction false} AbandonedNeverExecutes(pack: Pack, s: State, steps: seq<Step>, id: nat)
    requires Abandoned(s, id) && forall r :: Executed(id, r) !in s.history
    ensures Abandoned(Steps(pack, s, steps), id) && forall r :: Executed(id, r) !in Steps(pack, s, steps).history
  {
    hide Next, Abandoned;
    if steps == [] {
    } else {
      var init := steps[..|steps| - 1];
      AbandonedNeverExecutes(pack, s, init, id);
      AbandonedStays(pack, Steps(pack, s, init), steps[|steps| - 1], id);
    }
  }

  /** A turn on a session that waits for a confirmation abandons the request, whether the turn files another
      one or ends otherwise. */
  lemma AnotherTurnAbandons(pack: Pack, s: State, chat: nat, id: nat, step: Step)
    requires Safe(pack, s) && ChatHolds(s, chat, id) && ChatOf(s, chat).approved.None?
    requires step == ChatEndsTurn(chat) ||
             (step.ChatProposes? && step.chat == chat
              && Valid(pack, step.at, step.request) && Gated(pack, step.at, step.request))
    ensures Abandoned(Next(pack, s, step), id)
  {
    hide Spent, AllJustified, Valid, Gated, Handled, ClearedRightly;
    var t := Next(pack, s, step);
    forall run ensures !RunHolds(t, run, id) {
      assert RunHolds(t, run, id) == RunHolds(s, run, id);
    }
    forall c ensures !ChatHolds(t, c, id) {
      assert c != chat ==> ChatHolds(t, c, id) == ChatHolds(s, c, id);
    }
  }

  /** A resume executes a request exactly when the session still waits for it and its record says
      approved. */
  lemma ResumeExecutesWhenApproved(pack: Pack, s: State, chat: nat, at: nat, id: nat, r: Request)
    requires Safe(pack, s) && ChatOf(s, chat).approved.None?
    ensures Next(pack, Next(pack, s, ChatLoads(chat)), ChatExecutes(chat, at)).history == s.history + [Executed(id, r)]
            <==>
            && ChatHolds(s, chat, id) && id in s.records && s.records[id].status == Approved
            && r == Handled(pack, at, s.records[id].request)
  {
    hide Spent, AllJustified, HoldersAlone, ClearedRightly, Handled;
    var t := Next(pack, Next(pack, s, ChatLoads(chat)), ChatExecutes(chat, at));
    if t.history == s.history + [Executed(id, r)] {
      assert |t.history| == |s.history| + 1 && t.history[|s.history|] == Executed(id, r);
    }
  }
}
