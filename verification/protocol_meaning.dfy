/** What the guarantees and the traces of the confirmation protocol come to in terms of the pack, the replies of the
    model and the steps taken. */
module ProtocolMeaning {
  import opened Wrappers
  import opened Selection
  import opened Confirmation
  import opened Orchestrator

  // ---- the guarantees, in terms of the pack ----

  /** Nothing that the pack declares as write_execute is dispatched unconfirmed, whatever is done, if and only if every
      action that a validator accepts is left as write_execute, or waiting for a human, or as a request for something
      that the pack does not declare as write_execute. */
  lemma UnconfirmedWrites(pack: Pack)
    ensures (forall steps, k | 0 <= k < |History(pack, steps)| && History(pack, steps)[k].Dispatched? ::
               var q := History(pack, steps)[k].request; q.key in pack ==> pack[q.key].actionClass != WriteExecute)
            <==>
            (forall at, r: Request | r.key in pack && pack[r.key].check(at, r).refusal in {None, Some("")} ::
               var left := pack[r.key].check(at, r).left;
               || left.actionClass == Some(WriteExecute) || left.humanConfirmation == Some(false)
               || left.request.key !in pack || pack[left.request.key].actionClass != WriteExecute)
  {
    hide Steps, History;
    NoUnconfirmedWrite(pack);
    assert NeverUnconfirmed(pack) <==>
           forall steps, k | 0 <= k < |History(pack, steps)| && History(pack, steps)[k].Dispatched? ::
             var q := History(pack, steps)[k].request; q.key in pack ==> pack[q.key].actionClass != WriteExecute;
    ConfirmingIs(pack);
  }

  lemma ConfirmingIs(pack: Pack)
    ensures Confirming(pack) <==>
            forall at, r: Request | r.key in pack && pack[r.key].check(at, r).refusal in {None, Some("")} ::
              var left := pack[r.key].check(at, r).left;
              || left.actionClass == Some(WriteExecute) || left.humanConfirmation == Some(false)
              || left.request.key !in pack || pack[left.request.key].actionClass != WriteExecute
  {
    forall at, r: Request | Confirming(pack) && r.key in pack && pack[r.key].check(at, r).refusal in {None, Some("")}
      ensures var left := pack[r.key].check(at, r).left;
              || left.actionClass == Some(WriteExecute) || left.humanConfirmation == Some(false)
              || left.request.key !in pack || pack[left.request.key].actionClass != WriteExecute
    {
      assert Confirmation.Valid(pack, at, r);
    }
  }

  /** What is executed under an id is what was filed under it, whatever is done, if and only if every validator
      leaves a request as it is that a validator left waiting for a human. */
  lemma SwappedRequests(pack: Pack)
    ensures (forall steps, i, k | && 0 <= i < |History(pack, steps)| && History(pack, steps)[i].Filed?
                                  && 0 <= k < |History(pack, steps)| && History(pack, steps)[k].Executed?
                                  && History(pack, steps)[i].id == History(pack, steps)[k].id ::
               History(pack, steps)[i].request == History(pack, steps)[k].request)
            <==>
            (forall at, r: Request | r.key in pack && pack[r.key].check(at, r).refusal in {None, Some("")} ::
               var left := pack[r.key].check(at, r).left;
               (left.actionClass == Some(WriteExecute) || left.humanConfirmation == Some(false)) &&
               left.request.key in pack ==>
                 forall later: nat :: pack[left.request.key].check(later, left.request).left.request == left.request)
  {
    hide Steps, History;
    ApprovedIsExecuted(pack);
    SettlingIs(pack);
  }

  lemma SettlingIs(pack: Pack)
    ensures Settling(pack) <==>
            forall at, r: Request | r.key in pack && pack[r.key].check(at, r).refusal in {None, Some("")} ::
              var left := pack[r.key].check(at, r).left;
              (left.actionClass == Some(WriteExecute) || left.humanConfirmation == Some(false)) &&
              left.request.key in pack ==>
                forall later: nat :: pack[left.request.key].check(later, left.request).left.request == left.request
  {
    if Settling(pack) {
      forall at, r: Request, later: nat |
        && r.key in pack && pack[r.key].check(at, r).refusal in {None, Some("")}
        && var left := pack[r.key].check(at, r).left;
           (left.actionClass == Some(WriteExecute) || left.humanConfirmation == Some(false)) && left.request.key in pack
        ensures var left := pack[r.key].check(at, r).left;
                pack[left.request.key].check(later, left.request).left.request == left.request
      {
        assert Confirmation.Valid(pack, at, r) && Gated(pack, at, r);
        assert Handled(pack, later, Handled(pack, at, r)) == Handled(pack, at, r);
      }
    }
  }

  // ---- what is asked for and what is dispatched ----

  /** Reply `i + 1` asks a run for an action. */
  function AsksRun(replies: nat -> Reply): int -> bool {
    (i: int) => && i >= 0 && replies(i + 1).Act?
                && replies(i + 1).name != "escalate" && replies(i + 1).name != "complete"
                && replies(i + 1).name in ACTION_TYPES
  }

  function RunRequest(replies: nat -> Reply): int -> Option<Request> {
    (i: int) => if i >= 0 && replies(i + 1).Act?
                then Some(Request(replies(i + 1).name, replies(i + 1).params)) else None
  }

  /** A run is asked for the actions that its replies name, in order. */
  lemma {:induction false} AskedAre(replies: nat -> Reply, n: nat)
    ensures Picks(Numbers(n), AsksRun(replies), RunRequest(replies), Somes(Asked(replies, n)))
  {
    hide Picks, ACTION_TYPES;
    if n == 0 {
      PicksNothing(AsksRun(replies), RunRequest(replies));
      assert Numbers(0) == [] && Somes<Request>([]) == [];
    } else {
      AskedAre(replies, n - 1);
      var before := Asked(replies, n - 1);
      PicksMore(Numbers(n - 1), AsksRun(replies), RunRequest(replies), Somes(before), n - 1);
      assert Numbers(n - 1) + [n - 1] == Numbers(n);
      if AsksRun(replies)(n - 1) {
        var r := Request(replies(n).name, replies(n).params);
        assert Asked(replies, n) == before + [r] && Somes(before + [r]) == Somes(before) + [Some(r)];
      } else {
        assert Asked(replies, n) == before;
      }
    }
  }

  /** Outcome `i` of a turn asks for an action that the pack allows without a human. */
  function AllowedInTurn(pack: Pack, moments: nat -> nat, outcomes: nat -> Outcome): int -> bool {
    (i: int) => && i >= 0 && outcomes(i).Replied? && outcomes(i).reply.Act?
                && outcomes(i).reply.name != "escalate" && outcomes(i).reply.name != "complete"
                && outcomes(i).reply.name in ACTION_TYPES
                && LetThrough(pack, moments(i), Request(outcomes(i).reply.name, outcomes(i).reply.params))
  }

  predicate LetThrough(pack: Pack, at: nat, r: Request) {
    && r.key in pack && pack[r.key].check(at, r).refusal in {None, Some("")}
    && pack[r.key].check(at, r).left.actionClass != Some(WriteExecute)
    && pack[r.key].check(at, r).left.humanConfirmation != Some(false)
  }

  function TurnRequest(outcomes: nat -> Outcome): int -> Option<Request> {
    (i: int) => if i >= 0 && outcomes(i).Replied? && outcomes(i).reply.Act?
                then Some(Request(outcomes(i).reply.name, outcomes(i).reply.params)) else None
  }

  /** A turn dispatches those that its outcomes ask for and the pack allows without a human, in order. */
  lemma {:induction false} AllowedAre(pack: Pack, moments: nat -> nat, outcomes: nat -> Outcome, n: nat)
    ensures Picks(Numbers(n), AllowedInTurn(pack, moments, outcomes), TurnRequest(outcomes),
                  Somes(Allowed(pack, moments, outcomes, n)))
  {
    hide Picks, AllowedBy, ACTION_TYPES, LetThrough;
    var qualifies, part := AllowedInTurn(pack, moments, outcomes), TurnRequest(outcomes);
    if n == 0 {
      PicksNothing(qualifies, part);
      assert Numbers(0) == [] && Somes<Request>([]) == [];
    } else {
      AllowedAre(pack, moments, outcomes, n - 1);
      var before := Allowed(pack, moments, outcomes, n - 1);
      PicksMore(Numbers(n - 1), qualifies, part, Somes(before), n - 1);
      assert Numbers(n - 1) + [n - 1] == Numbers(n);
      AllowedOnce(pack, moments(n - 1), outcomes(n - 1));
      if qualifies(n - 1) {
        var r := RequestOf(outcomes(n - 1));
        assert Somes(before + [r]) == Somes(before) + [Some(r)];
      } else {
        assert before + [] == before;
      }
    }
  }

  lemma AllowedOnce(pack: Pack, at: nat, o: Outcome)
    ensures AllowedBy(pack, at, o) ==
            if && o.Replied? && o.reply.Act? && o.reply.name != "escalate" && o.reply.name != "complete"
               && o.reply.name in ACTION_TYPES && LetThrough(pack, at, RequestOf(o))
            then [RequestOf(o)] else []
  {
    hide ACTION_TYPES;
    EndCases(pack, at, o);
  }

  /** The steps of a trace by which a run, and a session, ask for something. */
  function ProposedByRun(run: nat): Step -> bool {
    (step: Step) => step.RunProposes? && step.run == run
  }

  function ProposedByChat(chat: nat): Step -> bool {
    (step: Step) => step.ChatProposes? && step.chat == chat
  }

  const PROPOSAL := (step: Step) => if step.RunProposes? || step.ChatProposes? then Some(step.request) else None

  lemma {:induction false} ProposalsAre(trace: seq<Step>, run: nat)
    ensures Picks(trace, ProposedByRun(run), PROPOSAL, Somes(Proposals(trace, run)))
  {
    hide Picks;
    if trace == [] {
      PicksNothing(ProposedByRun(run), PROPOSAL);
      assert Somes<Request>([]) == [];
    } else {
      var init, last := trace[..|trace| - 1], trace[|trace| - 1];
      ProposalsAre(init, run);
      var before := Proposals(init, run);
      PicksMore(init, ProposedByRun(run), PROPOSAL, Somes(before), last);
      assert trace == init + [last];
      if ProposedByRun(run)(last) {
        assert Somes(before + [last.request]) == Somes(before) + [Some(last.request)];
      } else {
        assert before + [] == before;
      }
    }
  }

  lemma {:induction false} ChatProposalsAre(trace: seq<Step>, chat: nat)
    ensures Picks(trace, ProposedByChat(chat), PROPOSAL, Somes(ChatProposals(trace, chat)))
  {
    hide Picks;
    if trace == [] {
      PicksNothing(ProposedByChat(chat), PROPOSAL);
      assert Somes<Request>([]) == [];
    } else {
      var init, last := trace[..|trace| - 1], trace[|trace| - 1];
      ChatProposalsAre(init, chat);
      var before := ChatProposals(init, chat);
      PicksMore(init, ProposedByChat(chat), PROPOSAL, Somes(before), last);
      assert trace == init + [last];
      if ProposedByChat(chat)(last) {
        assert Somes(before + [last.request]) == Somes(before) + [Some(last.request)];
      } else {
        assert before + [] == before;
      }
    }
  }

  // ---- how long a run waits ----

  /** A wait is polled once after each window; only the poll after the last window is the late one. */
  lemma {:induction false} PollsAre(run: nat, windows: seq<seq<Step>>, n: nat)
    requires n <= |windows| && forall w | w in windows :: NotOfRun(w, run)
    ensures Picks(PollTrace(run, windows, n), StepOfRun(run), LateIf(run), PollsUpTo(n, |windows|))
  {
    hide Picks, NotOfRun;
    if n == 0 {
      PicksNothing(StepOfRun(run), LateIf(run));
      assert PollsUpTo(0, |windows|) == [];
    } else {
      var before, window := PollTrace(run, windows, n - 1), windows[n - 1];
      var poll := RunPolls(run, n == |windows|);
      PollsAre(run, windows, n - 1);
      OthersNotPicked(run, before, window, PollsUpTo(n - 1, |windows|));
      PicksMore(before + window, StepOfRun(run), LateIf(run), PollsUpTo(n - 1, |windows|), poll);
      assert PollsUpTo(n, |windows|) == PollsUpTo(n - 1, |windows|) + [Some(n == |windows|)];
    }
  }

  function StepOfRun(run: nat): Step -> bool {
    (step: Step) => OfRun(step, run)
  }

  /** Whether a poll is the late one. */
  function LateIf(run: nat): Step -> Option<bool> {
    (step: Step) => if step.RunPolls? then Some(step.late) else None
  }

  function PollsUpTo(n: nat, windows: nat): seq<Option<bool>> {
    seq(n, i => Some(i + 1 == windows))
  }

  lemma {:induction false} OthersNotPicked(run: nat, before: seq<Step>, window: seq<Step>, polls: seq<Option<bool>>)
    requires NotOfRun(window, run) && Picks(before, StepOfRun(run), LateIf(run), polls)
    ensures Picks(before + window, StepOfRun(run), LateIf(run), polls)
  {
    hide Picks, OfRun;
    if window == [] {
      assert before + window == before;
    } else {
      var init, last := window[..|window| - 1], window[|window| - 1];
      assert last in window && forall step | step in init :: step in window;
      OthersNotPicked(run, before, init, polls);
      PicksMore(before + init, StepOfRun(run), LateIf(run), polls, last);
      assert before + window == (before + init) + [last];
    }
  }
}
