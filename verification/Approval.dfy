/** The human-approval lifecycle of a signal (live/approval.py). */
module Approval {
  import opened Wrappers

  datatype State =
    | SignalGenerated | CriticRejected | RiskApproved | RiskRejected | AiExplained | PendingHumanApproval
    | HumanApproved | HumanRejected | ApprovalExpired | Executed

  function Successors(required: bool, s: State): set<State> {
    match s
    case SignalGenerated => {CriticRejected, RiskApproved, RiskRejected}
    case RiskApproved => {AiExplained, PendingHumanApproval} + if required then {} else {Executed}
    case AiExplained => {PendingHumanApproval} + if required then {} else {Executed}
    case PendingHumanApproval => {HumanApproved, HumanRejected, ApprovalExpired}
    case HumanApproved => {Executed, RiskRejected}
    case _ => {}
  }

  /** A history the transition graph allows, from the signal on. */
  ghost predicate Legal(required: bool, path: seq<State>) {
    && path != [] && path[0] == SignalGenerated
    && forall i :: 0 < i < |path| ==> path[i] in Successors(required, path[i - 1])
  }

  method LegalTransitions(required: bool) returns (graph: map<State, set<State>>)
    ensures forall s :: s in graph && graph[s] == Successors(required, s)
  {
    graph := map[
      SignalGenerated := {CriticRejected, RiskApproved, RiskRejected},
      CriticRejected := {},
      RiskApproved := {AiExplained, PendingHumanApproval},
      AiExplained := {PendingHumanApproval},
      PendingHumanApproval := {HumanApproved, HumanRejected, ApprovalExpired},
      HumanApproved := {Executed, RiskRejected},
      RiskRejected := {},
      HumanRejected := {},
      ApprovalExpired := {},
      Executed := {}];
    if !required {
      graph := graph[RiskApproved := graph[RiskApproved] + {Executed}];
      graph := graph[AiExplained := graph[AiExplained] + {Executed}];
    }
    forall s: State
      ensures s in graph && graph[s] == Successors(required, s)
    {
      match s
      case RiskApproved => assert graph[s] == Successors(required, s);
      case AiExplained => assert graph[s] == Successors(required, s);
      case _ =>
    }
  }

  function StatesOf(history: seq<(State, int)>): (path: seq<State>)
    ensures |path| == |history| && forall i :: 0 <= i < |path| ==> path[i] == history[i].0
  {
    seq(|history|, i requires 0 <= i < |history| => history[i].0)
  }

  class SignalLifecycle {
    const signalId: string
    const required: bool
    var state: State
    var history: seq<(State, int)>

    ghost predicate Valid()
      reads this
    {
      Legal(required, StatesOf(history)) && state == history[|history| - 1].0
    }

    constructor (signalId: string, required: bool, now: int)
      ensures Valid() && history == [(SignalGenerated, now)]
      ensures this.signalId == signalId && this.required == required
    {
      this.signalId, this.required := signalId, required;
      state, history := SignalGenerated, [(SignalGenerated, now)];
    }

    /** An illegal transition raises and changes nothing. */
    method TransitionTo(newState: State, now: int) returns (outcome: Outcome<(State, State)>)
      requires Valid()
      modifies this
      ensures Valid()
      ensures outcome.Pass? <==> newState in Successors(required, old(state))
      ensures outcome.Pass? ==> state == newState && history == old(history) + [(newState, now)]
      ensures outcome.Fail? ==> state == old(state) && history == old(history) && outcome.error == (state, newState)
    {
      var graph := LegalTransitions(required);
      if newState !in graph[state] {
        return Fail((state, newState));
      }
      state := newState;
      history := history + [(newState, now)];
      return Pass;
    }

    predicate IsTerminal()
      reads this
    {
      state in {CriticRejected, RiskRejected, HumanRejected, ApprovalExpired, Executed}
    }

    /** A lifecycle that calls itself terminal is one that nothing can move any more. */
    lemma TerminalIff()
      ensures IsTerminal() <==> forall next :: next !in Successors(required, state)
    {
      if !IsTerminal() {
        var next := match state
          case SignalGenerated => RiskApproved
          case RiskApproved => PendingHumanApproval
          case AiExplained => PendingHumanApproval
          case PendingHumanApproval => HumanApproved
          case _ => Executed;
        assert next in Successors(required, state);
      }
    }
  }

  /** How far along the flow a state is; every transition moves forward. */
  function Stage(s: State): nat {
    match s
    case SignalGenerated => 0
    case RiskApproved => 1
    case AiExplained => 2
    case PendingHumanApproval => 3
    case HumanApproved => 4
    case _ => 5
  }

  lemma {:induction false} StageBoundsHistory(required: bool, path: seq<State>)
    requires Legal(required, path)
    ensures |path| <= Stage(path[|path| - 1]) + 1
  {
    if |path| > 1 {
      StageBoundsHistory(required, path[..|path| - 1]);
    }
  }

  /** No state is visited twice and no history is longer than six states. */
  lemma HistoryIsShort(required: bool, path: seq<State>)
    requires Legal(required, path)
    ensures |path| <= 6
    ensures forall i, j :: 0 <= i < j < |path| ==> path[i] != path[j]
  {
    StageBoundsHistory(required, path);
    forall i, j | 0 <= i < j < |path|
      ensures path[i] != path[j]
    {
      StageGrows(required, path, i, j);
    }
  }

  lemma {:induction false} StageGrows(required: bool, path: seq<State>, i: nat, j: nat)
    requires Legal(required, path) && i < j < |path|
    ensures Stage(path[i]) < Stage(path[j])
  {
    if i < j - 1 {
      StageGrows(required, path, i, j - 1);
    }
  }

  lemma ApprovedBeforeExecution(path: seq<State>, k: nat)
    requires Legal(true, path) && k < |path| && path[k] == Executed
    ensures k >= 3 && path[k - 1] == HumanApproved && path[k - 2] == PendingHumanApproval
  {
    assert path[k] in Successors(true, path[k - 1]);
    assert path[k - 1] in Successors(true, path[k - 2]);
    assert path[k - 2] in Successors(true, path[k - 3]);
  }

  /** With human approval required, nothing is executed but right after a human approved it while it
      was pending; and that is what requiring it means, since otherwise a shortcut is legal. */
  lemma ExecutionNeedsAHuman(required: bool)
    ensures required <==>
            forall path: seq<State>, k: nat :: Legal(required, path) && k < |path| && path[k] == Executed ==>
              k >= 3 && path[k - 1] == HumanApproved && path[k - 2] == PendingHumanApproval
  {
    if required {
      forall path: seq<State>, k: nat | Legal(required, path) && k < |path| && path[k] == Executed
        ensures k >= 3 && path[k - 1] == HumanApproved && path[k - 2] == PendingHumanApproval
      {
        ApprovedBeforeExecution(path, k);
      }
    } else {
      var shortcut := [SignalGenerated, RiskApproved, Executed];
      assert Legal(false, shortcut) && shortcut[2] == Executed;
    }
  }

  /** A history nothing can follow. */
  ghost predicate Complete(required: bool, path: seq<State>) {
    Legal(required, path) && forall next :: !Legal(required, path + [next])
  }

  /** Every way a signal's life can end: refused by the critic or the risk engine at once; or approved by
      risk, with or without an explanation first, and decided by a human, whose approval the risk engine can
      still overrule, or by nobody in time; or, where no human is required, executed without one. */
  ghost predicate IsALife(required: bool, path: seq<State>) {
    || path == [SignalGenerated, CriticRejected]
    || path == [SignalGenerated, RiskRejected]
    || exists opening <- {[SignalGenerated, RiskApproved], [SignalGenerated, RiskApproved, AiExplained]} ::
         || path == opening + [PendingHumanApproval, HumanApproved, Executed]
         || path == opening + [PendingHumanApproval, HumanApproved, RiskRejected]
         || path == opening + [PendingHumanApproval, HumanRejected]
         || path == opening + [PendingHumanApproval, ApprovalExpired]
         || (!required && path == opening + [Executed])
  }

  lemma LivesIff(required: bool, path: seq<State>)
    ensures Complete(required, path) <==> IsALife(required, path)
  {
    if Legal(required, path) {
      ExtendsBySuccessor(required, path);
    }
    if Complete(required, path) {
      CompleteIsALife(required, path);
    }
    if IsALife(required, path) {
      LifeIsLegal(required, path);
    }
  }

  lemma ExtendsBySuccessor(required: bool, path: seq<State>)
    requires Legal(required, path)
    ensures (forall next :: !Legal(required, path + [next])) <==> Successors(required, path[|path| - 1]) == {}
  {
    forall next
      ensures Legal(required, path + [next]) <==> next in Successors(required, path[|path| - 1])
    {
      var longer := path + [next];
      assert longer[|path|] == next && longer[|path| - 1] == path[|path| - 1];
    }
    if Successors(required, path[|path| - 1]) != {} {
      var next :| next in Successors(required, path[|path| - 1]);
      assert Legal(required, path + [next]);
    }
  }

  lemma LifeIsLegal(required: bool, path: seq<State>)
    requires IsALife(required, path)
    ensures Legal(required, path) && Successors(required, path[|path| - 1]) == {}
  {
  }

  lemma EndsWhereNothingFollows(required: bool, path: seq<State>, i: nat)
    requires Legal(required, path) && i < |path|
    ensures |path| == i + 1 || Successors(required, path[i]) != {}
  {
    if i + 1 < |path| {
      assert path[i + 1] in Successors(required, path[i]);
    }
  }

  /** What follows the opening of an approved signal, up to where nothing can follow. */
  lemma EndOf(required: bool, path: seq<State>, n: nat)
    requires Legal(required, path) && Successors(required, path[|path| - 1]) == {}
    requires 0 < n < |path| && path[n - 1] in {RiskApproved, AiExplained} && path[n] != AiExplained
    ensures path[n..] in {[PendingHumanApproval, HumanApproved, Executed],
                          [PendingHumanApproval, HumanApproved, RiskRejected],
                          [PendingHumanApproval, HumanRejected], [PendingHumanApproval, ApprovalExpired]}
            || (!required && path[n..] == [Executed])
  {
    assert path[n] in Successors(required, path[n - 1]);
    if path[n] == Executed {
      EndsWhereNothingFollows(required, path, n);
    } else {
      assert path[n + 1] in Successors(required, path[n]);
      if path[n + 1] == HumanApproved {
        assert path[n + 2] in Successors(required, path[n + 1]);
        EndsWhereNothingFollows(required, path, n + 2);
        assert path[n..] == [path[n], path[n + 1], path[n + 2]];
      } else {
        EndsWhereNothingFollows(required, path, n + 1);
        assert path[n..] == [path[n], path[n + 1]];
      }
    }
  }

  lemma CompleteIsALife(required: bool, path: seq<State>)
    requires Legal(required, path) && Successors(required, path[|path| - 1]) == {}
    ensures IsALife(required, path)
  {
    assert path[1] in Successors(required, path[0]);
    if path[1] == RiskApproved {
      assert path[2] in Successors(required, path[1]);
      var n := if path[2] == AiExplained then 3 else 2;
      assert n == 3 ==> path[3] in Successors(required, path[2]);
      EndOf(required, path, n);
      assert path == path[..n] + path[n..];
      assert path[..n] == if n == 3 then [SignalGenerated, RiskApproved, AiExplained] else [SignalGenerated, RiskApproved];
    } else {
      EndsWhereNothingFollows(required, path, 1);
    }
  }
}
