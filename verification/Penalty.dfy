/** How the benchmark counts errors while the load runs, and how the errors it recorded are turned into the score. */
module Penalty {
  import opened Sequences

  /** The codes an error carries; OtherCode stands for those of the benchmark framework. */
  datatype Code = ValidationCode | CriticalCode | NormalCode | FailedLoadCode | FailedPrepareCode | OtherCode

  /** An error as recorded in the result: its codes. */
  type Recorded = seq<Code>

  const TWO_64 := 0x1_0000_0000_0000_0000
  const TWO_63 := 0x8000_0000_0000_0000

  // ---------------------------------------------------------------- one response

  datatype RequestOutcome = Answered | Canceled | Broken(message: string)

  /** The outcome of a request, and what each validator says of the answer. */
  datatype Response = Response(outcome: RequestOutcome, complaints: seq<Option<string>>)

  datatype ValidationError = ValidationError(errors: seq<string>, canceled: bool) {
    predicate IsEmpty() {
      if canceled then false else |errors| == 0
    }
  }

  /** Something is wrong with the response, other than that the benchmark ended. */
  predicate IsFailure(r: Response) {
    match r.outcome
    case Canceled => false
    case Broken(_) => true
    case Answered => exists i :: 0 <= i < |r.complaints| && r.complaints[i].Some?
  }

  /** ValidateResponseWithMsg, with the recording of its errors when it returns: exactly one for a failed response,
      however many validators complain, and none otherwise. */
  method ValidateResponse(r: Response) returns (ve: ValidationError, recorded: seq<Recorded>)
    ensures ve.canceled <==> r.outcome.Canceled?
    ensures ve.IsEmpty() <==> !ve.canceled && !IsFailure(r)
    ensures recorded == if IsFailure(r) then [[ValidationCode]] else []
    ensures r.outcome.Canceled? ==> recorded == []
    ensures r.outcome.Broken? ==> recorded == [[ValidationCode]]
    ensures r.outcome.Answered? ==>
              (recorded == [] <==> forall i :: 0 <= i < |r.complaints| ==> r.complaints[i].None?)
  {
    ve, recorded := ValidationError([], false), [];
    match r.outcome {
      case Canceled =>
        ve := ve.(canceled := true);
      case Broken(message) =>
        ve := ve.(errors := ve.errors + [message]);
      case Answered =>
        for i := 0 to |r.complaints|
          invariant ve == ValidationError([], false) && forall k :: 0 <= k < i ==> r.complaints[k].None?
        {
          if r.complaints[i].Some? {
            ve := ve.(errors := ve.errors + [r.complaints[i].value]);
            break;
          }
        }
    }
    recorded := seq(|ve.errors|, i => [ValidationCode]);
  }

  // ---------------------------------------------------------------- the load

  datatype Severity = Uncounted | Normal | Critical

  /** The load: what has been recorded, the counts of Load's loop, and the signals, by the request they are about, that
      have been or are being sent on the two channels and that the loop has not received. Each failed request has its
      own number, whichever worker makes it. */
  datatype Load = Load(errors: seq<Recorded>, errorCount: nat, criticalCount: nat, running: bool, signals: map<nat, Severity>)

  datatype LoadEvent =
    | RequestEnds(request: nat, response: Response, severity: Severity)
    | LoadReceives(request: nat)
    | TimeUp

  function Penalised(errorCount: nat, criticalCount: nat): nat {
    errorCount * 1 + criticalCount * 10
  }

  /** A request ends once: its number is not used again while its signal is on the way. */
  ghost function StepRequest(l: Load, request: nat, response: Response, severity: Severity): Load {
    if request in l.signals || !IsFailure(response) then l
    else l.(errors := l.errors + [[ValidationCode]],
            signals := if severity == Uncounted then l.signals else l.signals[request := severity])
  }

  ghost function CutOff(l: Load): Load {
    if 100 <= Penalised(l.errorCount, l.criticalCount)
    then l.(errors := l.errors + [[FailedLoadCode]], running := false) else l
  }

  /** One turn of Load's loop that takes a signal from one of the two channels. */
  ghost function StepLoad(l: Load, request: nat): Load {
    if request !in l.signals || !l.running then l
    else
      var taken := l.(signals := l.signals - {request});
      if l.signals[request] == Critical
      then CutOff(taken.(errors := l.errors + [[CriticalCode]], criticalCount := l.criticalCount + 1))
      else CutOff(taken.(errors := l.errors + [[NormalCode]], errorCount := l.errorCount + 1))
  }

  ghost function StepEvent(l: Load, e: LoadEvent): Load {
    match e
    case RequestEnds(request, response, severity) => StepRequest(l, request, response, severity)
    case LoadReceives(request) => StepLoad(l, request)
    case TimeUp => l.(running := false)
  }

  ghost function RunLoad(l: Load, events: seq<LoadEvent>): Load {
    if events == [] then l else StepEvent(RunLoad(l, events[..|events| - 1]), events[|events| - 1])
  }

  // ---------------------------------------------------------------- classification

  datatype Kind = IsValidation | IsCritical | IsNormal | IsFail | IsUnexpected

  /** What main takes an error for: the first of the kinds, in this order, that some code of it has. */
  function KindOf(codes: Recorded): Kind {
    if ValidationCode in codes then IsValidation
    else if CriticalCode in codes then IsCritical
    else if NormalCode in codes then IsNormal
    else if FailedLoadCode in codes || FailedPrepareCode in codes then IsFail
    else IsUnexpected
  }

  function Count(errors: seq<Recorded>, kind: Kind): nat {
    if errors == [] then 0
    else Count(errors[..|errors| - 1], kind) + if KindOf(errors[|errors| - 1]) == kind then 1 else 0
  }

  lemma CountMore(errors: seq<Recorded>, e: Recorded, kind: Kind)
    ensures Count(errors + [e], kind) == Count(errors, kind) + if KindOf(e) == kind then 1 else 0
  {
    assert (errors + [e])[..|errors|] == errors;
  }

  ghost function AtKind(errors: seq<Recorded>, kind: Kind): set<nat> {
    set i: nat | i < |errors| && KindOf(errors[i]) == kind
  }

  lemma AtKindMore(errors: seq<Recorded>, kind: Kind)
    requires errors != []
    ensures var n := |errors| - 1;
            && n !in AtKind(errors[..n], kind)
            && AtKind(errors, kind) == AtKind(errors[..n], kind) + if KindOf(errors[n]) == kind then {n} else {}
  {
    var n := |errors| - 1;
    assert forall i :: 0 <= i < n ==> errors[..n][i] == errors[i];
  }

  lemma {:induction false} CountIsSize(errors: seq<Recorded>, kind: Kind)
    ensures Count(errors, kind) == |AtKind(errors, kind)|
  {
    if errors != [] {
      var n := |errors| - 1;
      CountIsSize(errors[..n], kind);
      AtKindMore(errors, kind);
    }
  }

  /** The errors with a validation code. */
  ghost function Validations(errors: seq<Recorded>): set<nat> {
    set i: nat | i < |errors| && ValidationCode in errors[i]
  }

  /** Those with a critical code that are no validation errors. */
  ghost function CriticalLogs(errors: seq<Recorded>): set<nat> {
    set i: nat | i < |errors| && CriticalCode in errors[i] && ValidationCode !in errors[i]
  }

  ghost predicate HasFailLog(errors: seq<Recorded>) {
    exists i :: 0 <= i < |errors| && (FailedLoadCode in errors[i] || FailedPrepareCode in errors[i])
                && ValidationCode !in errors[i] && CriticalCode !in errors[i] && NormalCode !in errors[i]
  }

  /** An error that has none of the benchmark's own codes. */
  ghost predicate HasUnexpected(errors: seq<Recorded>) {
    exists i :: 0 <= i < |errors| && OnlyOther(errors[i])
  }

  ghost predicate OnlyOther(codes: Recorded) {
    forall c :: c in codes ==> c == OtherCode
  }

  /** The counts, told by the codes. */
  lemma CountsByCodes(errors: seq<Recorded>)
    ensures Count(errors, IsValidation) == |Validations(errors)|
    ensures Count(errors, IsCritical) == |CriticalLogs(errors)|
    ensures Count(errors, IsFail) > 0 <==> HasFailLog(errors)
    ensures Count(errors, IsUnexpected) > 0 <==> HasUnexpected(errors)
  {
    CountIsSize(errors, IsValidation);
    CountIsSize(errors, IsCritical);
    assert AtKind(errors, IsValidation) == Validations(errors);
    assert AtKind(errors, IsCritical) == CriticalLogs(errors);
    SomeOfKind(errors, IsFail);
    SomeOfKind(errors, IsUnexpected);
    forall i | 0 <= i < |errors| ensures KindOf(errors[i]) == IsUnexpected <==> OnlyOther(errors[i]) {
      UnexpectedIs(errors[i]);
    }
  }

  lemma UnexpectedIs(codes: Recorded)
    ensures KindOf(codes) == IsUnexpected <==> OnlyOther(codes)
  {
    if KindOf(codes) == IsUnexpected {
      forall c | c in codes ensures c == OtherCode {
        match c {
          case OtherCode =>
          case _ =>
        }
      }
    }
  }

  lemma SomeOfKind(errors: seq<Recorded>, kind: Kind)
    ensures Count(errors, kind) > 0 <==> exists i :: 0 <= i < |errors| && KindOf(errors[i]) == kind
  {
    CountIsSize(errors, kind);
    if i :| 0 <= i < |errors| && KindOf(errors[i]) == kind {
      assert i in AtKind(errors, kind);
    }
    if AtKind(errors, kind) != {} {
      var i :| i in AtKind(errors, kind);
    }
  }

  /** The loop over the codes of one error. */
  method Flags(codes: Recorded) returns (isValidateError: bool, isCriticalError: bool, isNormalError: bool, fail: bool)
    ensures isValidateError <==> ValidationCode in codes
    ensures isCriticalError <==> CriticalCode in codes
    ensures isNormalError <==> NormalCode in codes
    ensures fail <==> FailedLoadCode in codes || FailedPrepareCode in codes
  {
    isValidateError, isCriticalError, isNormalError, fail := false, false, false, false;
    for i := 0 to |codes|
      invariant isValidateError <==> ValidationCode in codes[..i]
      invariant isCriticalError <==> CriticalCode in codes[..i]
      invariant isNormalError <==> NormalCode in codes[..i]
      invariant fail <==> FailedLoadCode in codes[..i] || FailedPrepareCode in codes[..i]
    {
      assert codes[..i + 1] == codes[..i] + [codes[i]];
      match codes[i] {
        case ValidationCode => isValidateError := true;
        case CriticalCode => isCriticalError := true;
        case FailedLoadCode => fail := true;
        case FailedPrepareCode => fail := true;
        case NormalCode => isNormalError := true;
        case OtherCode =>
      }
    }
    assert codes[..|codes|] == codes;
  }

  method Classify(errAll: seq<Recorded>)
    returns (validateErrors: nat, criticalErrorCount: nat, existFailLog: bool, unexpectedErrors: nat)
    ensures validateErrors == Count(errAll, IsValidation)
    ensures criticalErrorCount == Count(errAll, IsCritical)
    ensures existFailLog <==> Count(errAll, IsFail) > 0
    ensures unexpectedErrors == Count(errAll, IsUnexpected)
  {
    validateErrors, criticalErrorCount, existFailLog, unexpectedErrors := 0, 0, false, 0;
    for n := 0 to |errAll|
      invariant validateErrors == Count(errAll[..n], IsValidation)
      invariant criticalErrorCount == Count(errAll[..n], IsCritical)
      invariant existFailLog <==> Count(errAll[..n], IsFail) > 0
      invariant unexpectedErrors == Count(errAll[..n], IsUnexpected)
    {
      assert errAll[..n + 1][..n] == errAll[..n];
      var isValidateError, isCriticalError, isNormalError, fail := Flags(errAll[n]);
      if isValidateError {
        validateErrors := validateErrors + 1;
        continue;
      }
      if isCriticalError {
        criticalErrorCount := criticalErrorCount + 1;
        continue;
      }
      if isNormalError {
        continue;
      }
      if fail {
        existFailLog := true;
        continue;
      }
      unexpectedErrors := unexpectedErrors + 1;
    }
    assert errAll[..|errAll|] == errAll;
  }

  // ---------------------------------------------------------------- the score

  /** Two's complement. */
  function Wrap64(n: int): (w: int)
    ensures -TWO_63 <= w < TWO_63
    ensures -TWO_63 <= n < TWO_63 ==> w == n
    ensures (n - w) % TWO_64 == 0
  {
    var m := n % TWO_64;
    if m < TWO_63 then m else m - TWO_64
  }

  /** Division that truncates toward zero. */
  function Truncated(n: int, d: int): (q: int)
    requires d > 0
    ensures if n >= 0 then d * q <= n < d * q + d else d * q - d < n <= d * q
  {
    if n >= 0 then n / d else -((-n) / d)
  }

  function Deduction(addition: int, deductPercent: int): int {
    Truncated(Wrap64(addition * deductPercent), 100)
  }

  /** The deduction is the stated percentage, rounded down, exactly when the product fits 64 bits. */
  lemma DeductionIsExact(addition: int, deductPercent: int)
    requires addition >= 0 && deductPercent >= 0
    ensures Deduction(addition, deductPercent) == addition * deductPercent / 100 <==> addition * deductPercent < TWO_63
  {
    var product := addition * deductPercent;
    ProductSign(addition, deductPercent);
    if product >= TWO_63 {
      var w := Wrap64(product);
      if product < TWO_64 {
        assert w < 0;
      }
    }
  }

  lemma ProductSign(a: int, b: int)
    requires a >= 0 && b >= 0
    ensures a * b >= 0
  {
  }

  datatype Verdict = Verdict(score: int, normalErrorCount: int, criticalErrorCount: int, isPassed: bool)

  /** One percent off for a normal error, ten for a critical one, rounded down, never below zero; passed with points left
      and no fail log. Once the product exceeds 64 bits nothing is said about the score. */
  ghost predicate IsVerdict(errors: seq<Recorded>, addition: int, v: Verdict) {
    var all, criticals := |Validations(errors)|, |CriticalLogs(errors)|;
    var critical := if criticals <= all then criticals else all;
    var percent := (all - critical) + 10 * critical;
    && v.criticalErrorCount == critical && v.normalErrorCount == all - critical
    && (v.isPassed <==> v.score > 0 && !HasFailLog(errors))
    && (addition * percent < 0x8000_0000_0000_0000 ==> v.score == AfterDeduction(addition, percent))
  }

  function AfterDeduction(addition: int, percent: int): int {
    if percent >= 100 then 0 else addition - addition * percent / 100
  }

  lemma SettledIsVerdict(errors: seq<Recorded>, addition: int)
    requires 0 <= addition < TWO_63
    ensures IsVerdict(errors, addition, Settled(errors, addition))
  {
    CountsByCodes(errors);
    var percent := DeductPercent(errors);
    DeductionIsExact(addition, percent);
    ProductSign(addition, percent);
    if percent >= 100 {
      ScaledUp(addition, 100, percent);
    } else {
      ScaledUp(addition, percent, 100);
    }
  }

  lemma ScaledUp(n: int, a: int, b: int)
    requires n >= 0 && a <= b
    ensures n * a <= n * b
  {
  }

  /** The clamp, the deduction and the verdict. None means the benchmark itself is at fault and exits. */
  method Settle(errAll: seq<Recorded>, addition: int) returns (r: Option<Verdict>)
    requires 0 <= addition < TWO_63
    ensures r.None? <==> HasUnexpected(errAll)
    ensures r.Some? ==> r.value == Settled(errAll, addition) && IsVerdict(errAll, addition, r.value)
  {
    CountsByCodes(errAll);
    SettledIsVerdict(errAll, addition);
    var validateErrors, criticalErrorCount, existFailLog, unexpectedErrors := Classify(errAll);
    if unexpectedErrors != 0 {
      return None;
    }
    var normalErrorCount: int := validateErrors as int - criticalErrorCount as int;
    var critical: int := criticalErrorCount;
    if normalErrorCount < 0 {
      normalErrorCount := 0;
      critical := validateErrors;
    }
    var deductPercent := normalErrorCount * 1 + critical * 10;
    var deduction := Truncated(Wrap64(addition * deductPercent), 100);
    var score := Wrap64(addition - deduction);
    if score < 0 {
      score := 0;
    }
    var isPassed := 0 < score && !existFailLog;
    r := Some(Verdict(score, normalErrorCount, critical, isPassed));
  }

  function Settled(errors: seq<Recorded>, addition: int): Verdict {
    var validations, criticals := Count(errors, IsValidation), Count(errors, IsCritical);
    var critical := if criticals <= validations then criticals else validations;
    var normal := validations - critical;
    var left := Wrap64(addition - Deduction(addition, normal + critical * 10));
    var score := if left < 0 then 0 else left;
    Verdict(score, normal, critical, score > 0 && Count(errors, IsFail) == 0)
  }

  /** The percentage that the verdict deducts. */
  function DeductPercent(errors: seq<Recorded>): nat {
    var r := Settled(errors, 0);
    r.normalErrorCount + r.criticalErrorCount * 10
  }

  lemma ScoreInRange(errors: seq<Recorded>, addition: int)
    requires 0 <= addition < TWO_63 && addition * DeductPercent(errors) < TWO_63
    ensures 0 <= Settled(errors, addition).score <= addition
    ensures DeductPercent(errors) >= 100 ==> Settled(errors, addition).score == 0
  {
    var percent := DeductPercent(errors);
    DeductionIsExact(addition, percent);
    ProductSign(addition, percent);
    if percent >= 100 {
      ScaledUp(addition, 100, percent);
    }
  }

  // ---------------------------------------------------------------- every run

  /** Preparation may have left validation errors, and nothing else. */
  ghost predicate Prepared(l: Load) {
    && l.running && l.errorCount == 0 && l.criticalCount == 0 && l.signals == map[]
    && forall i :: 0 <= i < |l.errors| ==> KindOf(l.errors[i]) == IsValidation
  }

  /** Every count, and every signal still to come, has its own validation error. */
  ghost predicate LoadInv(l: Load) {
    && Count(l.errors, IsValidation) >= l.errorCount + l.criticalCount + |l.signals|
    && Count(l.errors, IsCritical) == l.criticalCount && Count(l.errors, IsNormal) == l.errorCount
    && Count(l.errors, IsUnexpected) == 0
    && (Count(l.errors, IsFail) > 0 <==> 100 <= Penalised(l.errorCount, l.criticalCount))
    && (l.running ==> Penalised(l.errorCount, l.criticalCount) < 100)
  }

  lemma {:induction false} OnlyValidations(errors: seq<Recorded>)
    requires forall i :: 0 <= i < |errors| ==> KindOf(errors[i]) == IsValidation
    ensures Count(errors, IsCritical) == Count(errors, IsNormal) == Count(errors, IsFail) == Count(errors, IsUnexpected) == 0
  {
    if errors != [] {
      OnlyValidations(errors[..|errors| - 1]);
    }
  }

  lemma Counts(errors: seq<Recorded>, e: Recorded)
    ensures forall kind :: Count(errors + [e], kind) == Count(errors, kind) + if KindOf(e) == kind then 1 else 0
  {
    forall kind ensures Count(errors + [e], kind) == Count(errors, kind) + if KindOf(e) == kind then 1 else 0 {
      CountMore(errors, e, kind);
    }
  }

  lemma FewerSignals(signals: map<nat, Severity>, request: nat)
    requires request in signals
    ensures |signals - {request}| == |signals| - 1
  {
    assert (signals - {request}).Keys == signals.Keys - {request};
  }

  lemma MoreSignals(signals: map<nat, Severity>, request: nat, severity: Severity)
    requires request !in signals
    ensures |signals[request := severity]| == |signals| + 1
  {
    assert signals[request := severity].Keys == signals.Keys + {request};
  }

  lemma RequestKeepsLoadInv(l: Load, request: nat, response: Response, severity: Severity)
    requires LoadInv(l)
    ensures LoadInv(StepRequest(l, request, response, severity))
  {
    if request !in l.signals && IsFailure(response) {
      Counts(l.errors, [ValidationCode]);
      MoreSignals(l.signals, request, severity);
    }
  }

  lemma CutOffKeepsLoadInv(l: Load)
    requires Count(l.errors, IsValidation) >= l.errorCount + l.criticalCount + |l.signals|
    requires Count(l.errors, IsCritical) == l.criticalCount && Count(l.errors, IsNormal) == l.errorCount
    requires Count(l.errors, IsUnexpected) == Count(l.errors, IsFail) == 0
    ensures LoadInv(CutOff(l))
  {
    Counts(l.errors, [FailedLoadCode]);
  }

  lemma CriticalKeepsLoadInv(l: Load, signals: map<nat, Severity>)
    requires LoadInv(l) && l.running && |signals| == |l.signals| - 1
    ensures LoadInv(CutOff(l.(signals := signals, errors := l.errors + [[CriticalCode]], criticalCount := l.criticalCount + 1)))
  {
    Counts(l.errors, [CriticalCode]);
    CutOffKeepsLoadInv(l.(signals := signals, errors := l.errors + [[CriticalCode]], criticalCount := l.criticalCount + 1));
  }

  lemma NormalKeepsLoadInv(l: Load, signals: map<nat, Severity>)
    requires LoadInv(l) && l.running && |signals| == |l.signals| - 1
    ensures LoadInv(CutOff(l.(signals := signals, errors := l.errors + [[NormalCode]], errorCount := l.errorCount + 1)))
  {
    Counts(l.errors, [NormalCode]);
    CutOffKeepsLoadInv(l.(signals := signals, errors := l.errors + [[NormalCode]], errorCount := l.errorCount + 1));
  }

  lemma LoadKeepsLoadInv(l: Load, request: nat)
    requires LoadInv(l)
    ensures LoadInv(StepLoad(l, request))
  {
    if request in l.signals && l.running {
      FewerSignals(l.signals, request);
      if l.signals[request] == Critical {
        CriticalKeepsLoadInv(l, l.signals - {request});
      } else {
        NormalKeepsLoadInv(l, l.signals - {request});
      }
    }
  }

  lemma StepKeepsLoadInv(l: Load, e: LoadEvent)
    requires LoadInv(l)
    ensures LoadInv(StepEvent(l, e))
  {
    match e {
      case RequestEnds(request, response, severity) => RequestKeepsLoadInv(l, request, response, severity);
      case LoadReceives(request) => LoadKeepsLoadInv(l, request);
      case TimeUp =>
    }
  }

  lemma {:induction false} RunsKeepLoadInv(l: Load, events: seq<LoadEvent>)
    requires Prepared(l)
    ensures LoadInv(RunLoad(l, events))
  {
    if events == [] {
      OnlyValidations(l.errors);
    } else {
      RunsKeepLoadInv(l, events[..|events| - 1]);
      StepKeepsLoadInv(RunLoad(l, events[..|events| - 1]), events[|events| - 1]);
    }
  }

  /** In every run, the errors shown are the validation errors that were recorded, none of them twice and none missing:
      the counts need no correction, and the benchmark never exits as faulty. */
  lemma ShownErrorsAreValidationErrors(l: Load, events: seq<LoadEvent>, addition: int)
    requires Prepared(l)
    ensures var end := RunLoad(l, events); var r := Settled(end.errors, addition);
            && Count(end.errors, IsUnexpected) == 0
            && r.criticalErrorCount == end.criticalCount
            && r.normalErrorCount + r.criticalErrorCount == Count(end.errors, IsValidation)
            && r.normalErrorCount >= end.errorCount
  {
    RunsKeepLoadInv(l, events);
  }

  /** The verdict of a load, by its own counts: a percent for each failed request and nine more for each critical one that
      Load has counted. It passes exactly with points left and without a cut-off. */
  ghost predicate IsVerdictOf(end: Load, addition: int, v: Verdict) {
    var percent := |Validations(end.errors)| + 9 * end.criticalCount;
    && (v.isPassed <==> v.score > 0 && !(end.errorCount + 10 * end.criticalCount >= 100))
    && (addition * percent < 0x8000_0000_0000_0000 ==> v.score == AfterDeduction(addition, percent))
  }

  lemma CountsDecide(end: Load, addition: int)
    requires LoadInv(end) && 0 <= addition < TWO_63
    ensures IsVerdictOf(end, addition, Settled(end.errors, addition))
  {
    CountsByCodes(end.errors);
    SettledIsVerdict(end.errors, addition);
  }

  lemma VerdictOfRun(l: Load, events: seq<LoadEvent>, addition: int)
    requires Prepared(l) && 0 <= addition < TWO_63
    ensures IsVerdictOf(RunLoad(l, events), addition, Settled(RunLoad(l, events).errors, addition))
  {
    RunsKeepLoadInv(l, events);
    CountsDecide(RunLoad(l, events), addition);
  }

  /** Without a broken answer and without a complaint, every point is kept, and one point is enough to pass. */
  lemma {:induction false} CleanRunPasses(l: Load, events: seq<LoadEvent>, addition: int)
    requires Prepared(l) && l.errors == [] && 0 <= addition < TWO_63
    requires forall e :: e in events && e.RequestEnds? ==>
               e.response.outcome.Canceled?
               || (e.response.outcome.Answered? && forall i :: 0 <= i < |e.response.complaints| ==> e.response.complaints[i].None?)
    ensures RunLoad(l, events).errors == [] && RunLoad(l, events).signals == map[]
    ensures var r := Settled(RunLoad(l, events).errors, addition);
            r.score == addition && r.normalErrorCount == r.criticalErrorCount == 0 && (r.isPassed <==> addition > 0)
  {
    if events != [] {
      CleanRunPasses(l, events[..|events| - 1], addition);
      assert events[|events| - 1] in events;
    }
  }

  /** In every run the score lies between zero and what was earned, as long as the product of the earnings and the
      percentage fits 64 bits. A run that was cut off fails in any case, and then scores zero. */
  lemma CutOffScoresZero(l: Load, events: seq<LoadEvent>, addition: int)
    requires Prepared(l) && 0 <= addition < TWO_63
    ensures var end := RunLoad(l, events); var r := Settled(end.errors, addition);
            var cutOff := 100 <= Penalised(end.errorCount, end.criticalCount);
            && (cutOff ==> !r.isPassed && DeductPercent(end.errors) >= 100)
            && (addition * DeductPercent(end.errors) < TWO_63 ==> 0 <= r.score <= addition)
            && (addition * DeductPercent(end.errors) < TWO_63 && cutOff ==> r.score == 0)
  {
    RunsKeepLoadInv(l, events);
    var end := RunLoad(l, events);
    if addition * DeductPercent(end.errors) < TWO_63 {
      ScoreInRange(end.errors, addition);
    }
  }

  /** Why the condition is there. A run that is cut off at exactly 100 percent keeps all it earned if that is 2^62
      points, because the product is then a multiple of 2^64; no load can earn so much. */
  lemma OverflowKeepsScore(l: Load, events: seq<LoadEvent>)
    requires Prepared(l) && 100 <= Penalised(RunLoad(l, events).errorCount, RunLoad(l, events).criticalCount)
    requires DeductPercent(RunLoad(l, events).errors) == 100
    ensures Settled(RunLoad(l, events).errors, TWO_63 / 2).score == TWO_63 / 2
    ensures (TWO_63 / 2) * DeductPercent(RunLoad(l, events).errors) >= TWO_63
  {
    assert (TWO_63 / 2) * 100 == 25 * TWO_64;
    assert Wrap64((TWO_63 / 2) * 100) == 0;
  }

  /** A failed request whose signal Load receives is counted as what it is, leaves a validation error and its own, and cuts
      the load off at a hundred. */
  lemma FailureIsCounted(l: Load, request: nat, response: Response, severity: Severity)
    requires l.running && request !in l.signals && response.outcome.Broken? && severity != Uncounted
    ensures var end := StepEvent(StepEvent(l, RequestEnds(request, response, severity)), LoadReceives(request));
            && end.signals == l.signals
            && end.errorCount == l.errorCount + (if severity == Normal then 1 else 0)
            && end.criticalCount == l.criticalCount + (if severity == Critical then 1 else 0)
            && (end.running <==> end.errorCount + 10 * end.criticalCount < 100)
            && Validations(end.errors) == Validations(l.errors) + {|l.errors|}
  {
    var failed := StepEvent(l, RequestEnds(request, response, severity));
    assert failed.signals - {request} == l.signals;
    MoreValidations(l.errors, [ValidationCode]);
    var own := if severity == Critical then [CriticalCode] else [NormalCode];
    MoreValidations(l.errors + [[ValidationCode]], own);
    MoreValidations(l.errors + [[ValidationCode]] + [own], [FailedLoadCode]);
  }

  lemma MoreValidations(errors: seq<Recorded>, e: Recorded)
    ensures Validations(errors + [e]) == Validations(errors) + if ValidationCode in e then {|errors|} else {}
  {
  }

  /** What k critical errors in a row leave. */
  ghost predicate Criticals(l: Load, k: nat) {
    && l.errorCount == 0 && l.criticalCount == k && l.signals == map[] && (l.running <==> k < 10)
    && Count(l.errors, IsValidation) == k && Count(l.errors, IsCritical) == k
  }

  lemma OneMoreCritical(l: Load, k: nat)
    requires Criticals(l, k) && k < 10
    ensures var failed := StepEvent(l, RequestEnds(0, Response(Broken(""), []), Critical));
            Criticals(StepEvent(failed, LoadReceives(0)), k + 1)
  {
    var failed := StepEvent(l, RequestEnds(0, Response(Broken(""), []), Critical));
    Counts(l.errors, [ValidationCode]);
    Counts(failed.errors, [CriticalCode]);
    Counts(failed.errors + [[CriticalCode]], [FailedLoadCode]);
    assert failed.signals - {0} == map[];
  }

  /** Such a run exists: ten critical errors, one after the other. */
  lemma {:induction false} CriticalRun(l: Load, k: nat) returns (events: seq<LoadEvent>)
    requires Prepared(l) && l.errors == [] && k <= 10
    ensures Criticals(RunLoad(l, events), k)
    ensures k == 10 ==> DeductPercent(RunLoad(l, events).errors) == 100
  {
    if k == 0 {
      events := [];
    } else {
      events := CriticalRun(l, k - 1);
      OneMoreCritical(RunLoad(l, events), k - 1);
      var failing, received := RequestEnds(0, Response(Broken(""), []), Critical), LoadReceives(0);
      assert (events + [failing])[..|events|] == events;
      assert (events + [failing, received])[..|events| + 1] == events + [failing];
      events := events + [failing, received];
    }
  }
}
