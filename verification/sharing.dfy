/** A chat session opened by a second process: what becomes of "one approval, one execution" when two processes
    may resume the same session. */
module Sharing {
  import opened Wrappers
  import opened Confirmation

  /** A step of the protocol, or process `chat` opens the session that process `of` holds. */
  datatype Move = Takes(step: Step) | Opens(chat: nat, of: nat)

  /** Opening a session is reading what it waits for; not in the middle of a resume. */
  function Open(s: State, chat: nat, of: nat): State {
    if ChatOf(s, chat).approved.Some? then s else SetChat(s, chat, Chat(ChatOf(s, of).pending, None))
  }

  function NextMove(pack: Pack, s: State, m: Move): State {
    match m
    case Takes(step) => Next(pack, s, step)
    case Opens(chat, of) => Open(s, chat, of)
  }

  function Moved(pack: Pack, moves: seq<Move>): State {
    if moves == [] then START else NextMove(pack, Moved(pack, moves[..|moves| - 1]), moves[|moves| - 1])
  }

  /** No id is executed twice. */
  predicate Once(h: seq<Event>) {
    forall i, j | 0 <= i < |h| && 0 <= j < |h| && h[i].Executed? && h[j].Executed? && h[i].id == h[j].id :: i == j
  }

  lemma SafeIsOnce(pack: Pack, s: State)
    requires Safe(pack, s)
    ensures Once(s.history)
  {
    hide Justified, RecordsTrue, HoldersAlone, ClearedRightly;
    var h := s.history;
    forall i, j | 0 <= i < |h| && 0 <= j < |h| && h[i].Executed? && h[j].Executed? && h[i].id == h[j].id
      ensures i == j
    {
      if i != j {
        TwiceIsUnjustified(pack, h, if i < j then i else j, if i < j then j else i);
      }
    }
  }

  lemma TwiceIsUnjustified(pack: Pack, h: seq<Event>, i: nat, j: nat)
    requires i < j < |h| && h[i].Executed? && h[j].Executed? && h[i].id == h[j].id
    ensures !Justified(pack, h[..j], h[j])
  {
    hide Spent, MayBeFiled, MayBecome;
    Earlier(h, i, j);
  }

  /** Nobody opens a session that somebody else holds while it waits for a confirmation. */
  predicate Alone(pack: Pack, moves: seq<Move>) {
    moves == [] ||
    (var init, last := moves[..|moves| - 1], moves[|moves| - 1];
     Alone(pack, init) && (last.Opens? ==> last.chat == last.of || ChatOf(Moved(pack, init), last.of).pending.None?))
  }

  /** Opening one's own session, or one that waits for nothing, is ending a turn, or nothing. */
  lemma OpeningIsAStep(pack: Pack, s: State, chat: nat, of: nat)
    requires chat == of || ChatOf(s, of).pending.None?
    ensures Open(s, chat, of) == s || Open(s, chat, of) == Next(pack, s, ChatEndsTurn(chat))
  {
    if chat == of && chat in s.chats && s.chats[chat].approved.None? {
      assert s.chats[chat := s.chats[chat]] == s.chats;
    }
  }

  /** As long as nobody shares a waiting session every guarantee of the protocol holds, and no approval is
      executed twice. */
  lemma {:induction false} AloneExecutesOnce(pack: Pack, moves: seq<Move>)
    requires Alone(pack, moves)
    ensures Safe(pack, Moved(pack, moves)) && Once(Moved(pack, moves).history)
  {
    hide Next, Safe, Open, ChatOf, Once;
    if moves == [] {
      StartIsSafe(pack);
    } else {
      var init, last := moves[..|moves| - 1], moves[|moves| - 1];
      AloneExecutesOnce(pack, init);
      var s := Moved(pack, init);
      match last
      case Takes(step) => NextKeeps(pack, s, step);
      case Opens(chat, of) =>
        OpeningIsAStep(pack, s, chat, of);
        NextKeeps(pack, s, ChatEndsTurn(chat));
    }
    SafeIsOnce(pack, Moved(pack, moves));
  }

  /** Whatever is done afterwards, no id is executed twice. */
  ghost predicate StaysOnce(pack: Pack, s: State) {
    forall steps :: Once(Steps(pack, s, steps).history)
  }

  /** In any state the protocol reaches, opening a session is harmless exactly when the process holds it itself or
      it waits for no confirmation. */
  lemma OpeningIsHarmless(pack: Pack, s: State, chat: nat, of: nat)
    requires Safe(pack, s) && ChatOf(s, chat).approved.None?
    ensures StaysOnce(pack, Open(s, chat, of)) <==> chat == of || ChatOf(s, of).pending.None?
  {
    hide Safe, Open, Next, Once;
    if chat == of || ChatOf(s, of).pending.None? {
      OpeningIsAStep(pack, s, chat, of);
      NextKeeps(pack, s, ChatEndsTurn(chat));
      forall steps ensures Once(Steps(pack, Open(s, chat, of), steps).history) {
        StepsKeepSafe(pack, Open(s, chat, of), steps);
        SafeIsOnce(pack, Steps(pack, Open(s, chat, of), steps));
      }
    } else {
      PendingIsRecorded(pack, s, of);
      BothExecute(pack, s, chat, of);
      assert !Once(Steps(pack, Open(s, chat, of), BothResume(ChatOf(s, of).pending.value, chat, of)).history);
    }
  }

  lemma PendingIsRecorded(pack: Pack, s: State, chat: nat)
    requires Safe(pack, s) && ChatOf(s, chat).pending.Some?
    ensures ChatOf(s, chat).pending.value in s.records
  {
    hide AllJustified, RecordsTrue, ClearedRightly, Spent;
    assert ChatHolds(s, chat, ChatOf(s, chat).pending.value);
  }

  /** The operator approves, both processes read the record, and both execute. */
  function BothResume(id: nat, chat: nat, of: nat): seq<Step> {
    [Decides(id, true), ChatLoads(of), ChatLoads(chat), ChatExecutes(of, 0), ChatExecutes(chat, 0)]
  }

  lemma FiveSteps(pack: Pack, s: State, a: Step, b: Step, c: Step, d: Step, e: Step)
    ensures Steps(pack, s, [a, b, c, d, e])
            == Next(pack, Next(pack, Next(pack, Next(pack, Next(pack, s, a), b), c), d), e)
  {
    hide Next;
    OneStep(pack, s, a);
    StepAfter(pack, s, [a], b);
    StepAfter(pack, s, [a, b], c);
    StepAfter(pack, s, [a, b, c], d);
    StepAfter(pack, s, [a, b, c, d], e);
    assert [a] + [b] == [a, b] && [a, b] + [c] == [a, b, c] && [a, b, c] + [d] == [a, b, c, d];
    assert [a, b, c, d] + [e] == [a, b, c, d, e];
  }

  lemma ApprovalLoads(pack: Pack, s: State, chat: nat, id: nat)
    requires ChatOf(s, chat).pending == Some(id) && id in s.records && s.records[id].status == Approved
    ensures var t := Next(pack, s, ChatLoads(chat));
            && ChatOf(t, chat).pending == Some(id) && ChatOf(t, chat).approved.Some?
            && t.records == s.records && t.history == s.history
            && forall c | c != chat :: ChatOf(t, c) == ChatOf(s, c)
  {
  }

  lemma LoadedExecutes(pack: Pack, s: State, chat: nat, id: nat)
    requires ChatOf(s, chat).pending == Some(id) && ChatOf(s, chat).approved.Some?
    ensures var t := Next(pack, s, ChatExecutes(chat, 0));
            && |t.history| == |s.history| + 1 && t.history[..|s.history|] == s.history
            && t.history[|s.history|].Executed? && t.history[|s.history|].id == id
            && forall c | c != chat :: ChatOf(t, c) == ChatOf(s, c)
  {
    hide Handled;
  }

  lemma BothExecute(pack: Pack, s: State, chat: nat, of: nat)
    requires chat != of && ChatOf(s, chat).approved.None?
    requires ChatOf(s, of).pending.Some? && ChatOf(s, of).pending.value in s.records
    ensures !Once(Steps(pack, Open(s, chat, of), BothResume(ChatOf(s, of).pending.value, chat, of)).history)
  {
    hide Next;
    var id := ChatOf(s, of).pending.value;
    var s0 := Open(s, chat, of);
    FiveSteps(pack, s0, Decides(id, true), ChatLoads(of), ChatLoads(chat), ChatExecutes(of, 0), ChatExecutes(chat, 0));
    var s1 := Next(pack, s0, Decides(id, true));
    ApprovalDecided(pack, s0, id);
    ApprovalLoads(pack, s1, of, id);
    var s2 := Next(pack, s1, ChatLoads(of));
    ApprovalLoads(pack, s2, chat, id);
    var s3 := Next(pack, s2, ChatLoads(chat));
    LoadedExecutes(pack, s3, of, id);
    var s4 := Next(pack, s3, ChatExecutes(of, 0));
    LoadedExecutes(pack, s4, chat, id);
    var s5 := Next(pack, s4, ChatExecutes(chat, 0));
    var n := |s3.history|;
    assert s5.history[n] == s4.history[n] && s5.history[n].Executed? && s5.history[n + 1].Executed?;
  }

  lemma ApprovalDecided(pack: Pack, s: State, id: nat)
    requires id in s.records
    ensures var t := Next(pack, s, Decides(id, true));
            id in t.records && t.records[id].status == Approved && forall c :: ChatOf(t, c) == ChatOf(s, c)
  {
  }

  /** A session waits for a request that a human has to allow, a second process opens it, and both resume it. */
  lemma ExecutedTwice(pack: Pack, r: Request)
    requires Valid(pack, 0, r) && Gated(pack, 0, r)
    ensures var waiting := Next(pack, START, ChatProposes(0, 0, r));
            !Once(Steps(pack, Open(waiting, 1, 0), BothResume(0, 1, 0)).history)
  {
    hide Valid, Gated, Handled;
    var waiting := Next(pack, START, ChatProposes(0, 0, r));
    assert ChatOf(waiting, 0) == Chat(Some(0), None) && 0 in waiting.records;
    BothExecute(pack, waiting, 1, 0);
  }
}
