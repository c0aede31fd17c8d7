/** The deterministic critic (critic/engine.py): thirteen checks, and a verdict by priority. */
module Critic {
  import opened Wrappers
  import opened Market
  import opened Sequences

  datatype CheckName =
    | KillSwitch | FutureTimestamp | DataFreshness | TradeStructure | DuplicateExposure | ScannerPresent
    | MarketContextPresent | ResearchPresent | VolumeConfirmation | IndicatorContradiction | RegimeConflict
    | RiskReward | ConfidenceIntegrity

  datatype Severity = Hard | Warning

  /** Which of a check's explanations applies; the wording is not modelled. */
  datatype Message = Message(name: CheckName, evaluated: bool, passed: bool)

  datatype Check = Check(name: CheckName, evaluated: bool, passed: bool, severity: Severity, detail: Message)
  {
    predicate Failed() {
      evaluated && !passed
    }
  }

  datatype Verdict = Approve | Downgrade | InsufficientEvidence | Reject
  {
    /** APPROVE < DOWNGRADE < INSUFFICIENT_EVIDENCE < REJECT. */
    function Rank(): nat {
      match this
      case Approve => 0
      case Downgrade => 1
      case InsufficientEvidence => 2
      case Reject => 3
    }
  }

  datatype CriticConfig = CriticConfig(maxStaleness: int, futureTolerance: int, minVolumeRatio: Option<real>,
                                       minRiskReward: real, downgradeThreshold: int)

  datatype Proposal = Buy | Watch | Avoid | NoAction

  datatype Scanner = Scanner(volumeRatio: Option<real>, momentumScore: Option<real>)

  datatype MarketContext = MarketContext(asOf: int, macdHistogram: Option<real>)

  datatype Regime = Uptrend | Downtrend | Sideways | Unknown

  /** The decision under scrutiny, its label first. Its confidence is an opaque number here. */
  datatype Decision = Decision(proposal: Proposal, symbol: string, scanner: Option<Scanner>,
                               context: Option<MarketContext>, research: bool, confidence: Option<real>)

  /** What the caller has gathered about the world outside the decision. */
  datatype Situation = Situation(now: int, killSwitch: Option<bool>, pendingOrder: bool, openPosition: bool,
                                 benchmark: Option<Regime>)

  datatype Assessment = Assessment(verdict: Verdict, checks: seq<Check>, failedChecks: seq<CheckName>,
                                   warnings: seq<CheckName>, reasons: Reasons)

  // ---- what each check says, in terms of the inputs ----

  predicate Evaluated(name: CheckName, config: CriticConfig, d: Decision, at: Situation) {
    match name
    case KillSwitch => at.killSwitch.Some?
    case FutureTimestamp => d.context.Some?
    case DataFreshness => d.context.Some?
    case VolumeConfirmation => config.minVolumeRatio.Some? && d.scanner.Some? && d.scanner.value.volumeRatio.Some?
    case IndicatorContradiction =>
      d.context.Some? && d.context.value.macdHistogram.Some? && d.scanner.Some? && d.scanner.value.momentumScore.Some?
    case RegimeConflict => at.benchmark.Some? && at.benchmark.value != Unknown
    case _ => true
  }

  predicate Holds(name: CheckName, config: CriticConfig, d: Decision, signal: Signal, at: Situation)
    requires Evaluated(name, config, d, at)
  {
    match name
    case KillSwitch => !at.killSwitch.value
    case FutureTimestamp => d.context.value.asOf <= at.now + config.futureTolerance
    case DataFreshness => at.now - d.context.value.asOf <= config.maxStaleness
    case TradeStructure => signal.stop < signal.reference < signal.target
    case DuplicateExposure => !(at.pendingOrder || at.openPosition)
    case ScannerPresent => d.scanner.Some?
    case MarketContextPresent => d.context.Some?
    case ResearchPresent => d.research
    case VolumeConfirmation => d.scanner.value.volumeRatio.value >= config.minVolumeRatio.value
    case IndicatorContradiction =>
      var macd, momentum := d.context.value.macdHistogram.value, d.scanner.value.momentumScore.value;
      macd == 0.0 || momentum == 0.0 || (macd > 0.0) == (momentum > 0.0)
    case RegimeConflict => at.benchmark.value != Downtrend
    case RiskReward => signal.riskReward >= config.minRiskReward
    case ConfidenceIntegrity => d.confidence.Some?
  }

  function SeverityOf(name: CheckName): Severity {
    match name
    case KillSwitch => Hard
    case FutureTimestamp => Hard
    case DataFreshness => Hard
    case TradeStructure => Hard
    case DuplicateExposure => Hard
    case ScannerPresent => Hard
    case _ => Warning
  }

  /** The order in which the checks are made. */
  const ORDER: seq<CheckName> := [
    KillSwitch, FutureTimestamp, DataFreshness, TradeStructure, DuplicateExposure, ScannerPresent,
    MarketContextPresent, ResearchPresent, VolumeConfirmation, IndicatorContradiction, RegimeConflict,
    RiskReward, ConfidenceIntegrity]

  predicate Fails(name: CheckName, config: CriticConfig, d: Decision, signal: Signal, at: Situation) {
    Evaluated(name, config, d, at) && !Holds(name, config, d, signal, at)
  }

  function NewCheck(name: CheckName, evaluated: bool, passed: bool): Check {
    Check(name, evaluated, passed, SeverityOf(name), Message(name, evaluated, passed))
  }

  /** One check as it is recorded: an unevaluated one always counts as passed. */
  function Record(name: CheckName, config: CriticConfig, d: Decision, signal: Signal, at: Situation): Check {
    NewCheck(name, Evaluated(name, config, d, at), !Fails(name, config, d, signal, at))
  }

  function Records(config: CriticConfig, d: Decision, signal: Signal, at: Situation): seq<Check> {
    seq(|ORDER|, i requires 0 <= i < |ORDER| => Record(ORDER[i], config, d, signal, at))
  }

  /** The names of the failed checks of one severity, in the order they were made. */
  function FailedOf(checks: seq<Check>, severity: Severity): seq<CheckName> {
    if checks == [] then []
    else
      var last := checks[|checks| - 1];
      FailedOf(checks[..|checks| - 1], severity) + if last.Failed() && last.severity == severity then [last.name] else []
  }

  function VerdictFor(config: CriticConfig, failedHard: nat, failedWarnings: nat, insufficient: bool): Verdict {
    if failedHard > 0 then Reject
    else if insufficient then InsufficientEvidence
    else if failedWarnings >= config.downgradeThreshold then Downgrade
    else Approve
  }

  predicate TooLittleEvidence(d: Decision) {
    d.context.None? && !d.research
  }

  function VerdictOf(config: CriticConfig, d: Decision, signal: Signal, at: Situation): Verdict {
    var checks := Records(config, d, signal, at);
    VerdictFor(config, |FailedOf(checks, Hard)|, |FailedOf(checks, Warning)|, TooLittleEvidence(d))
  }

  /** The lookup of a failed check's explanation by its name; None where the source would raise. */
  method DetailOf(checks: seq<Check>, name: CheckName) returns (detail: Option<Message>)
    ensures detail.Some? <==> exists k :: 0 <= k < |checks| && checks[k].name == name && checks[k].Failed()
    ensures detail.Some? ==>
              exists k :: 0 <= k < |checks| && checks[k].name == name && checks[k].Failed() && checks[k].detail == detail.value
  {
    for i := 0 to |checks|
      invariant forall k :: 0 <= k < i ==> !(checks[k].name == name && checks[k].Failed())
    {
      if checks[i].name == name && checks[i].Failed() {
        return Some(checks[i].detail);
      }
    }
    return None;
  }

  lemma {:induction false} FailedAreThere(checks: seq<Check>, severity: Severity, name: CheckName)
    ensures name in FailedOf(checks, severity) <==>
            exists k :: 0 <= k < |checks| && checks[k].name == name && checks[k].Failed() && checks[k].severity == severity
  {
    if checks != [] {
      var rest := checks[..|checks| - 1];
      FailedAreThere(rest, severity, name);
      assert forall k :: 0 <= k < |rest| ==> rest[k] == checks[k];
    }
  }

  datatype Reasons = Explained(details: seq<Message>) | NoEvidence | AllPassed

  /** The explanation a failed check of each name carries. */
  function Explanations(names: seq<CheckName>): seq<Message> {
    seq(|names|, i requires 0 <= i < |names| => Message(names[i], true, false))
  }

  /** The lookup behind each explanation never comes back empty-handed, nor with another check's. */
  method Explain(checks: seq<Check>, severity: Severity) returns (details: seq<Message>)
    requires forall k :: 0 <= k < |checks| ==> checks[k].detail == Message(checks[k].name, checks[k].evaluated, checks[k].passed)
    ensures details == Explanations(FailedOf(checks, severity))
  {
    var names := FailedOf(checks, severity);
    details := [];
    for i := 0 to |names|
      invariant details == Explanations(names[..i])
    {
      FailedAreThere(checks, severity, names[i]);
      var detail := DetailOf(checks, names[i]);
      details := details + [detail.value];
    }
    assert names[..|names|] == names;
  }

  function ReasonsFor(verdict: Verdict, failedHard: seq<CheckName>, failedWarnings: seq<CheckName>): Reasons {
    match verdict
    case Reject => Explained(Explanations(failedHard))
    case Downgrade => Explained(Explanations(failedWarnings))
    case InsufficientEvidence => NoEvidence
    case Approve => AllPassed
  }

  /** What evaluate() returns for a decision it accepts. */
  function AssessmentOf(config: CriticConfig, d: Decision, signal: Signal, at: Situation): Assessment {
    var checks := Records(config, d, signal, at);
    var hard, warnings := FailedOf(checks, Hard), FailedOf(checks, Warning);
    var verdict := VerdictOf(config, d, signal, at);
    Assessment(verdict, checks, hard, warnings, ReasonsFor(verdict, hard, warnings))
  }

  /** The critic: the checks in order, then the verdict of highest priority. */
  method Evaluate(config: CriticConfig, d: Decision, signal: Signal, at: Situation) returns (r: Result<Assessment, string>)
    ensures r.Success? <==> d.proposal == Buy && d.symbol == signal.symbol
    ensures r.Success? ==> r.value == AssessmentOf(config, d, signal, at)
  {
    if d.proposal != Buy {
      return Failure("Cannot critique this decision -- only BUY proposes a concrete trade to evaluate.");
    }
    if d.symbol != signal.symbol {
      return Failure("Decision symbol does not match signal symbol.");
    }
    var checks := MakeChecks(config, d, signal, at);
    var failedHard, failedWarning := FailedOf(checks, Hard), FailedOf(checks, Warning);
    var verdict, reasons;
    if failedHard != [] {
      verdict := Reject;
      var details := Explain(checks, Hard);
      reasons := Explained(details);
    } else if d.context.None? && !d.research {
      verdict, reasons := InsufficientEvidence, NoEvidence;
    } else if |failedWarning| >= config.downgradeThreshold {
      verdict := Downgrade;
      var details := Explain(checks, Warning);
      reasons := Explained(details);
    } else {
      verdict, reasons := Approve, AllPassed;
    }
    return Success(Assessment(verdict, checks, failedHard, failedWarning, reasons));
  }

  method MakeHardChecks(config: CriticConfig, d: Decision, signal: Signal, at: Situation) returns (checks: seq<Check>)
    ensures |checks| == 6 && forall i :: 0 <= i < 6 ==> checks[i] == Record(ORDER[i], config, d, signal, at)
  {
    var killEvaluated := at.killSwitch.Some?;
    checks := [NewCheck(KillSwitch, killEvaluated, if killEvaluated then !at.killSwitch.value else true)];

    var contextEvaluated := d.context.Some?;
    var futurePassed := true;
    if contextEvaluated {
      futurePassed := d.context.value.asOf <= at.now + config.futureTolerance;
    }
    checks := checks + [NewCheck(FutureTimestamp, contextEvaluated, futurePassed)];

    var freshnessPassed := true;
    if contextEvaluated {
      var age := at.now - d.context.value.asOf;
      freshnessPassed := age <= config.maxStaleness;
    }
    checks := checks + [NewCheck(DataFreshness, contextEvaluated, freshnessPassed)];
    checks := checks + [NewCheck(TradeStructure, true, signal.stop < signal.reference < signal.target)];
    checks := checks + [NewCheck(DuplicateExposure, true, !(at.pendingOrder || at.openPosition))];
    checks := checks + [NewCheck(ScannerPresent, true, d.scanner.Some?)];
  }

  method MakeWarningChecks(config: CriticConfig, d: Decision, signal: Signal, at: Situation) returns (checks: seq<Check>)
    ensures |checks| == 7 && forall i :: 6 <= i < 13 ==> checks[i - 6] == Record(ORDER[i], config, d, signal, at)
  {
    checks := [NewCheck(MarketContextPresent, true, d.context.Some?)];
    checks := checks + [NewCheck(ResearchPresent, true, d.research)];
    var volume := MakeVolumeCheck(config, d, signal, at);
    checks := checks + [volume];
    var indicators := MakeIndicatorCheck(config, d, signal, at);
    checks := checks + [indicators];
    var regimeEvaluated := at.benchmark.Some? && at.benchmark.value != Unknown;
    checks := checks + [NewCheck(RegimeConflict, regimeEvaluated,
                                 if regimeEvaluated then at.benchmark.value != Downtrend else true)];
    checks := checks + [NewCheck(RiskReward, true, signal.riskReward >= config.minRiskReward)];
    checks := checks + [NewCheck(ConfidenceIntegrity, true, d.confidence.Some?)];
  }

  method MakeVolumeCheck(config: CriticConfig, d: Decision, signal: Signal, at: Situation) returns (check: Check)
    ensures check == Record(VolumeConfirmation, config, d, signal, at)
  {
    var volumeRatio := if d.scanner.Some? then d.scanner.value.volumeRatio else None;
    var evaluated := config.minVolumeRatio.Some? && volumeRatio.Some?;
    return NewCheck(VolumeConfirmation, evaluated,
                    if evaluated then volumeRatio.value >= config.minVolumeRatio.value else true);
  }

  method MakeIndicatorCheck(config: CriticConfig, d: Decision, signal: Signal, at: Situation) returns (check: Check)
    ensures check == Record(IndicatorContradiction, config, d, signal, at)
  {
    var macd := if d.context.Some? then d.context.value.macdHistogram else None;
    var momentum := if d.scanner.Some? then d.scanner.value.momentumScore else None;
    var evaluated := macd.Some? && momentum.Some?;
    var passed := true;
    if evaluated {
      passed := macd.value == 0.0 || momentum.value == 0.0 || (macd.value > 0.0) == (momentum.value > 0.0);
    }
    return NewCheck(IndicatorContradiction, evaluated, passed);
  }

  method MakeChecks(config: CriticConfig, d: Decision, signal: Signal, at: Situation) returns (checks: seq<Check>)
    ensures checks == Records(config, d, signal, at)
  {
    hide Record;
    var hard := MakeHardChecks(config, d, signal, at);
    var warnings := MakeWarningChecks(config, d, signal, at);
    return hard + warnings;
  }

  // ---- what the verdict means ----

  lemma RecordedFails(config: CriticConfig, d: Decision, signal: Signal, at: Situation, name: CheckName)
    ensures name in FailedOf(Records(config, d, signal, at), SeverityOf(name)) <==> Fails(name, config, d, signal, at)
    ensures name !in FailedOf(Records(config, d, signal, at), if SeverityOf(name) == Hard then Warning else Hard)
  {
    var checks := Records(config, d, signal, at);
    FailedAreThere(checks, Hard, name);
    FailedAreThere(checks, Warning, name);
    var k := Position(name);
    assert checks[k] == Record(name, config, d, signal, at);
    hide Evaluated, Holds, FailedOf;
  }

  /** Where a check comes in the order they are made. */
  function Position(name: CheckName): (k: nat)
    ensures k < |ORDER| && ORDER[k] == name
  {
    match name
    case KillSwitch => 0
    case FutureTimestamp => 1
    case DataFreshness => 2
    case TradeStructure => 3
    case DuplicateExposure => 4
    case ScannerPresent => 5
    case MarketContextPresent => 6
    case ResearchPresent => 7
    case VolumeConfirmation => 8
    case IndicatorContradiction => 9
    case RegimeConflict => 10
    case RiskReward => 11
    case ConfidenceIntegrity => 12
  }

  /** The checks of a severity that fail, whatever the order they are made in. */
  ghost function Failing(severity: Severity, config: CriticConfig, d: Decision, signal: Signal, at: Situation): set<CheckName> {
    set name: CheckName | SeverityOf(name) == severity && Fails(name, config, d, signal, at)
  }

  lemma {:induction false} FailedOnce(checks: seq<Check>, severity: Severity)
    requires forall i, j :: 0 <= i < j < |checks| ==> checks[i].name != checks[j].name
    ensures Distinct(FailedOf(checks, severity))
  {
    if checks != [] {
      var rest, last := checks[..|checks| - 1], checks[|checks| - 1];
      FailedOnce(rest, severity);
      FailedAreThere(rest, severity, last.name);
      assert last.name !in FailedOf(rest, severity);
    }
  }

  /** The list of failures names each failing check of the severity exactly once. */
  lemma FailuresCounted(config: CriticConfig, d: Decision, signal: Signal, at: Situation, severity: Severity)
    ensures |FailedOf(Records(config, d, signal, at), severity)| == |Failing(severity, config, d, signal, at)|
  {
    var checks := Records(config, d, signal, at);
    var names := FailedOf(checks, severity);
    forall name
      ensures name in names <==> SeverityOf(name) == severity && Fails(name, config, d, signal, at)
    {
      RecordedFails(config, d, signal, at, name);
    }
    hide Fails, SeverityOf, FailedOf;
    assert forall i, j :: 0 <= i < j < |checks| ==> checks[i].name != checks[j].name;
    FailedOnce(checks, severity);
    SizeOfDistinct(names, Failing(severity, config, d, signal, at));
  }

  /** Exactly when each verdict is given, in terms of which checks fail and never of their order. */
  lemma VerdictIff(config: CriticConfig, d: Decision, signal: Signal, at: Situation)
    ensures var verdict := VerdictOf(config, d, signal, at);
            var hard := Failing(Hard, config, d, signal, at);
            var enough := |Failing(Warning, config, d, signal, at)| >= config.downgradeThreshold;
            && (verdict == Reject <==> hard != {})
            && (verdict == InsufficientEvidence <==> hard == {} && TooLittleEvidence(d))
            && (verdict == Downgrade <==> hard == {} && !TooLittleEvidence(d) && enough)
            && (verdict == Approve <==> hard == {} && !TooLittleEvidence(d) && !enough)
  {
    hide Failing, Records, FailedOf;
    FailuresCounted(config, d, signal, at, Hard);
    FailuresCounted(config, d, signal, at, Warning);
    if |Failing(Hard, config, d, signal, at)| == 0 {
      assert Failing(Hard, config, d, signal, at) == {};
    }
  }

  /** What each disqualifying condition is, on the inputs. */
  lemma NoHardFailureIff(config: CriticConfig, d: Decision, signal: Signal, at: Situation)
    ensures Failing(Hard, config, d, signal, at) == {} <==>
            && at.killSwitch != Some(true) && !at.pendingOrder && !at.openPosition
            && signal.stop < signal.reference < signal.target && d.scanner.Some?
            && (d.context.Some? ==>
                  && d.context.value.asOf <= at.now + config.futureTolerance
                  && at.now - d.context.value.asOf <= config.maxStaleness)
  {
    var hard := Failing(Hard, config, d, signal, at);
    assert hard == {} <==> KillSwitch !in hard && FutureTimestamp !in hard && DataFreshness !in hard && TradeStructure !in hard
                           && DuplicateExposure !in hard && ScannerPresent !in hard by {
      if hard != {} {
        var name :| name in hard;
      }
    }
  }

  /** What each warning is about, on the inputs: the two indicators contradict each other when their signs
      are opposite, and whatever was not supplied or is not configured warns of nothing but its absence. */
  lemma WarningsOnInputs(config: CriticConfig, d: Decision, signal: Signal, at: Situation)
    ensures var warnings := Failing(Warning, config, d, signal, at);
            var volume := if d.scanner.Some? then d.scanner.value.volumeRatio else None;
            var momentum := if d.scanner.Some? then d.scanner.value.momentumScore else None;
            var macd := if d.context.Some? then d.context.value.macdHistogram else None;
            && (MarketContextPresent in warnings <==> d.context == None)
            && (ResearchPresent in warnings <==> !d.research)
            && (VolumeConfirmation in warnings <==>
                  volume.Some? && config.minVolumeRatio.Some? && volume.value < config.minVolumeRatio.value)
            && (IndicatorContradiction in warnings <==> macd.Some? && momentum.Some? && macd.value * momentum.value < 0.0)
            && (RegimeConflict in warnings <==> at.benchmark == Some(Downtrend))
            && (RiskReward in warnings <==> signal.riskReward < config.minRiskReward)
            && (ConfidenceIntegrity in warnings <==> d.confidence == None)
            && warnings <= {MarketContextPresent, ResearchPresent, VolumeConfirmation, IndicatorContradiction,
                            RegimeConflict, RiskReward, ConfidenceIntegrity}
  {
    if d.context.Some? && d.context.value.macdHistogram.Some? && d.scanner.Some? && d.scanner.value.momentumScore.Some? {
      OppositeSigns(d.context.value.macdHistogram.value, d.scanner.value.momentumScore.value);
    }
  }

  lemma OppositeSigns(x: real, y: real)
    ensures x * y < 0.0 <==> (x < 0.0 < y || y < 0.0 < x)
  {
  }

  lemma {:induction false} MoreFailuresFailMore(fewer: seq<Check>, more: seq<Check>, severity: Severity)
    requires |fewer| == |more|
    requires forall i :: 0 <= i < |fewer| ==> fewer[i].severity == more[i].severity && (fewer[i].Failed() ==> more[i].Failed())
    ensures |FailedOf(fewer, severity)| <= |FailedOf(more, severity)|
  {
    if fewer != [] {
      MoreFailuresFailMore(fewer[..|fewer| - 1], more[..|more| - 1], severity);
    }
  }

  /** With the same evidence on the table, failing more checks never softens the verdict. */
  lemma MoreFailuresNeverSoften(config: CriticConfig, d: Decision, signal: Signal, at: Situation,
                                d': Decision, signal': Signal, at': Situation)
    requires TooLittleEvidence(d) == TooLittleEvidence(d')
    requires forall name :: Fails(name, config, d, signal, at) ==> Fails(name, config, d', signal', at')
    ensures VerdictOf(config, d, signal, at).Rank() <= VerdictOf(config, d', signal', at').Rank()
  {
    hide Fails, Evaluated, Holds, TooLittleEvidence;
    var fewer, more := Records(config, d, signal, at), Records(config, d', signal', at');
    forall i | 0 <= i < |ORDER|
      ensures fewer[i].severity == more[i].severity && (fewer[i].Failed() ==> more[i].Failed())
    {
      FailedIsFails(ORDER[i], config, d, signal, at);
      FailedIsFails(ORDER[i], config, d', signal', at');
    }
    MoreFailuresFailMore(fewer, more, Hard);
    MoreFailuresFailMore(fewer, more, Warning);
    hide FailedOf, Records;
  }

  lemma FailedIsFails(name: CheckName, config: CriticConfig, d: Decision, signal: Signal, at: Situation)
    ensures Record(name, config, d, signal, at).Failed() == Fails(name, config, d, signal, at)
    ensures !Record(name, config, d, signal, at).evaluated ==> Record(name, config, d, signal, at).passed
  {
  }

  /** A trade the critic lets through had no reported kill switch, no order or position of its own,
      prices in order, scanner evidence, and whatever market context there was, fresh and not from
      the future; and there was context or research. */
  lemma PassedIsSafe(config: CriticConfig, d: Decision, signal: Signal, at: Situation)
    requires VerdictOf(config, d, signal, at) in {Approve, Downgrade}
    ensures at.killSwitch != Some(true)
    ensures !at.pendingOrder && !at.openPosition
    ensures signal.stop < signal.reference < signal.target
    ensures d.scanner.Some? && (d.context.Some? || d.research)
    ensures d.context.Some? ==> -config.futureTolerance <= at.now - d.context.value.asOf <= config.maxStaleness
  {
    VerdictIff(config, d, signal, at);
    hide VerdictOf;
    var hard := Failing(Hard, config, d, signal, at);
    assert KillSwitch !in hard && FutureTimestamp !in hard && DataFreshness !in hard;
    assert TradeStructure !in hard && DuplicateExposure !in hard && ScannerPresent !in hard;
    assert !Fails(KillSwitch, config, d, signal, at) && !Fails(FutureTimestamp, config, d, signal, at);
    assert !Fails(DataFreshness, config, d, signal, at) && !Fails(TradeStructure, config, d, signal, at);
    assert !Fails(DuplicateExposure, config, d, signal, at) && !Fails(ScannerPresent, config, d, signal, at);
  }

  ghost predicate InOrder(names: seq<CheckName>) {
    forall i, j :: 0 <= i < j < |names| ==> Position(names[i]) < Position(names[j])
  }

  lemma {:induction false} FailedInOrder(checks: seq<Check>, severity: Severity)
    requires forall i, j :: 0 <= i < j < |checks| ==> Position(checks[i].name) < Position(checks[j].name)
    ensures InOrder(FailedOf(checks, severity))
  {
    if checks != [] {
      hide Position;
      var rest, last := checks[..|checks| - 1], checks[|checks| - 1];
      FailedInOrder(rest, severity);
      forall name | name in FailedOf(rest, severity)
        ensures Position(name) < Position(last.name)
      {
        FailedAreThere(rest, severity, name);
      }
    }
  }

  lemma RecordsInOrder(config: CriticConfig, d: Decision, signal: Signal, at: Situation, severity: Severity)
    ensures InOrder(FailedOf(Records(config, d, signal, at), severity))
    ensures forall name :: name in FailedOf(Records(config, d, signal, at), severity) <==>
              name in Failing(severity, config, d, signal, at)
  {
    var checks := Records(config, d, signal, at);
    assert forall i :: 0 <= i < |checks| ==> Position(checks[i].name) == i by { OrderIsByPosition(); }
    FailedInOrder(checks, severity);
    forall name
      ensures name in FailedOf(checks, severity) <==> name in Failing(severity, config, d, signal, at)
    {
      RecordedFails(config, d, signal, at, name);
      FailedAreThere(checks, severity, name);
    }
  }

  lemma OrderIsByPosition()
    ensures |ORDER| == 13 && forall i :: 0 <= i < |ORDER| ==> Position(ORDER[i]) == i
  {
  }

  /** What an assessment gives as its reasons: for a rejection the failing disqualifying checks, for a
      downgrade the failing warnings, each once and in the order they were made; for too little evidence and
      for an approval that alone. */
  lemma ReasonsIff(config: CriticConfig, d: Decision, signal: Signal, at: Situation)
    ensures var a := AssessmentOf(config, d, signal, at);
            match a.verdict
            case InsufficientEvidence => a.reasons == NoEvidence
            case Approve => a.reasons == AllPassed
            case _ =>
              && a.reasons.Explained?
              && var details := a.reasons.details;
                 && (forall k :: 0 <= k < |details| ==> details[k].evaluated && !details[k].passed)
                 && (forall i, j :: 0 <= i < j < |details| ==> Position(details[i].name) < Position(details[j].name))
                 && (set k | 0 <= k < |details| :: details[k].name)
                    == Failing(if a.verdict == Reject then Hard else Warning, config, d, signal, at)
  {
    hide Records, FailedOf, Failing, Position, VerdictOf;
    RecordsInOrder(config, d, signal, at, Hard);
    RecordsInOrder(config, d, signal, at, Warning);
    var a := AssessmentOf(config, d, signal, at);
    if a.reasons.Explained? {
      var names := if a.verdict == Reject then a.failedChecks else a.warnings;
      var details := a.reasons.details;
      assert details == Explanations(names);
      assert forall k :: 0 <= k < |details| ==> details[k].name == names[k];
    }
  }

  lemma FirstIsNamed(config: CriticConfig, d: Decision, signal: Signal, at: Situation)
    ensures var failed := AssessmentOf(config, d, signal, at).failedChecks;
            failed != [] ==> forall name :: name in Failing(Hard, config, d, signal, at) ==> Position(failed[0]) <= Position(name)
  {
    hide Records, FailedOf, Failing, Position, VerdictOf;
    RecordsInOrder(config, d, signal, at, Hard);
    var failed := AssessmentOf(config, d, signal, at).failedChecks;
    forall name | name in Failing(Hard, config, d, signal, at)
      ensures Position(failed[0]) <= Position(name)
    {
      assert name in failed;
    }
  }

  /** A rejection explains a check that does disqualify, the first of them. */
  lemma RejectedNames(config: CriticConfig, d: Decision, signal: Signal, at: Situation)
    ensures var a := AssessmentOf(config, d, signal, at);
            && (a.verdict == Reject ==>
                  && a.failedChecks != [] && a.failedChecks[0] in Failing(Hard, config, d, signal, at)
                  && a.reasons == Explained(Explanations(a.failedChecks)))
            && (a.verdict == InsufficientEvidence ==> a.reasons == NoEvidence && d.context.None?)
  {
    var a := AssessmentOf(config, d, signal, at);
    VerdictIff(config, d, signal, at);
    if a.verdict == Reject {
      FailuresCounted(config, d, signal, at, Hard);
      assert a.failedChecks != [];
      RecordedFails(config, d, signal, at, a.failedChecks[0]);
      FailedAreThere(Records(config, d, signal, at), Hard, a.failedChecks[0]);
    }
    hide Records, FailedOf, Fails;
  }
}
