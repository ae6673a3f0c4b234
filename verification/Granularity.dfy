/** The granularity controller: hysteresis with a capped exponential backoff on changes of direction. */
module Granularity {
  import opened Series

  datatype Action = Compose | Decompose | Maintain

  datatype Cause = Overhead | ErrorRate | ContextUtilization | Parallelism

  /** Why a decision was taken. */
  datatype Reason =
    | NoData
    | Quiet(overhead: real)
    | Acted(action: Action, cause: Cause, value: real, threshold: real, consecutive: nat)

  /** What the controller reads of one telemetry record. */
  datatype Record = Record(
    totalTokens: int, coordinationTokens: int, errorCount: int, batchSize: int, contextUtilization: real)

  datatype ThresholdFields = ThresholdFields(
    overheadHigh: real, overheadLow: real, errorRateHigh: real, contextUtilHigh: real,
    parallelismFactor: real, hysteresisWindow: int, backoffBase: int)

  predicate Accepted(t: ThresholdFields) {
    && 0.0 <= t.overheadLow < t.overheadHigh <= 1.0
    && 0.0 <= t.errorRateHigh <= 1.0
    && 0.0 < t.contextUtilHigh <= 1.0
    && t.hysteresisWindow >= 1
    && t.backoffBase >= 1
  }

  type Thresholds = t: ThresholdFields | Accepted(t)
    witness ThresholdFields(0.40, 0.15, 0.15, 0.85, 2.0, 3, 2)

  datatype Tuner = Tuner(
    window: seq<Record>, composeStreak: nat, decomposeStreak: nat,
    directionChanges: nat, lastAction: Action, decisions: seq<Reason>)

  const FRESH := Tuner([], 0, 0, 0, Maintain, [])

  // ----- signals over the window --------------------------------------------------------------

  function Total(s: seq<Record>, f: Record -> int): int {
    if s == [] then 0 else f(s[0]) + Total(s[1..], f)
  }

  function Ratio(part: int, whole: int): real {
    if whole > 0 then part as real / whole as real else 0.0
  }

  function OverheadOf(w: seq<Record>): real {
    Ratio(Total(w, (r: Record) => r.coordinationTokens), Total(w, (r: Record) => r.totalTokens))
  }

  function ErrorsOf(w: seq<Record>): real {
    Ratio(Total(w, (r: Record) => r.errorCount), Total(w, (r: Record) => r.batchSize))
  }

  function PressureOf(w: seq<Record>): real
    requires w != []
  {
    Average(seq(|w|, i requires 0 <= i < |w| => w[i].contextUtilization))
  }

  predicate WantsCompose(t: Thresholds, w: seq<Record>) {
    OverheadOf(w) > t.overheadHigh || ErrorsOf(w) > t.errorRateHigh
  }

  predicate WantsDecompose(t: Thresholds, w: seq<Record>, available: int, inFlight: int)
    requires w != []
  {
    PressureOf(w) > t.contextUtilHigh
    || (available as real > t.parallelismFactor * inFlight as real && OverheadOf(w) < t.overheadLow)
  }

  // ----- the decision -------------------------------------------------------------------------

  function Pow(b: int, n: nat): int {
    if n == 0 then 1 else b * Pow(b, n - 1)
  }

  function Min(a: int, b: int): int {
    if a < b then a else b
  }

  predicate IsFlip(last: Action, candidate: Action) {
    candidate != Maintain && last != Maintain && candidate != last
  }

  /** How long a streak has to be before the candidate action is taken. */
  function RequiredStreak(t: Thresholds, c: Tuner, candidate: Action): int {
    if !IsFlip(c.lastAction, candidate) then t.hysteresisWindow
    else Min(t.hysteresisWindow * Pow(t.backoffBase, c.directionChanges + 1), t.hysteresisWindow * 3)
  }

  function AfterAction(c: Tuner, action: Action): Tuner {
    c.(directionChanges := c.directionChanges + (if IsFlip(c.lastAction, action) then 1 else 0), lastAction := action)
  }

  function Counted(t: Thresholds, c: Tuner, available: int, inFlight: int): Tuner
    requires c.window != []
  {
    if WantsCompose(t, c.window) then c.(composeStreak := c.composeStreak + 1, decomposeStreak := 0)
    else if WantsDecompose(t, c.window, available, inFlight)
    then c.(composeStreak := 0, decomposeStreak := c.decomposeStreak + 1)
    else c.(composeStreak := 0, decomposeStreak := 0)
  }

  /** The action on the counted streaks. */
  function ActionOf(t: Thresholds, c: Tuner, available: int, inFlight: int): Action
    requires c.window != []
  {
    if WantsCompose(t, c.window) && c.composeStreak >= RequiredStreak(t, c, Compose) then Compose
    else if WantsDecompose(t, c.window, available, inFlight) && c.decomposeStreak >= RequiredStreak(t, c, Decompose)
    then Decompose
    else Maintain
  }

  function ReasonOf(t: Thresholds, c: Tuner, available: int, action: Action): Reason
    requires c.window != []
  {
    var overhead, errors, pressure := OverheadOf(c.window), ErrorsOf(c.window), PressureOf(c.window);
    match action
    case Compose =>
      if overhead > t.overheadHigh then Acted(Compose, Overhead, overhead, t.overheadHigh, c.composeStreak)
      else Acted(Compose, ErrorRate, errors, t.errorRateHigh, c.composeStreak)
    case Decompose =>
      if pressure > t.contextUtilHigh
      then Acted(Decompose, ContextUtilization, pressure, t.contextUtilHigh, c.decomposeStreak)
      else Acted(Decompose, Parallelism, available as real, 0.0, c.decomposeStreak)
    case Maintain => Quiet(overhead)
  }

  function Acting(c: Tuner, action: Action): Tuner {
    match action
    case Compose => AfterAction(c, Compose).(composeStreak := 0)
    case Decompose => AfterAction(c, Decompose).(decomposeStreak := 0)
    case Maintain => c
  }

  /** One call of decide: the action, and the state with the reason on record. */
  function Decided(t: Thresholds, c: Tuner, available: int, inFlight: int): (Action, Tuner) {
    if c.window == [] then (Maintain, c.(decisions := c.decisions + [NoData])) else
      var counted := Counted(t, c, available, inFlight);
      var action := ActionOf(t, counted, available, inFlight);
      (action, Acting(counted, action).(decisions := c.decisions + [ReasonOf(t, counted, available, action)]))
  }

  /** The oldest record makes room when the window is full. */
  function Observed(t: Thresholds, c: Tuner, r: Record): Tuner {
    c.(window := if |c.window| < t.hysteresisWindow then c.window + [r] else (c.window + [r])[1..])
  }

  // ----- the controller object ----------------------------------------------------------------

  class GranularityController {
    const thresholds: Thresholds
    const available: int
    var window: seq<Record>
    var composeStreak: nat
    var decomposeStreak: nat
    var directionChanges: nat
    var lastAction: Action
    var decisions: seq<Reason>

    function View(): Tuner
      reads this
    {
      Tuner(window, composeStreak, decomposeStreak, directionChanges, lastAction, decisions)
    }

    constructor (t: Thresholds, parallelism: int)
      ensures View() == FRESH && thresholds == t && available == parallelism
    {
      thresholds, available := t, parallelism;
      window, composeStreak, decomposeStreak := [], 0, 0;
      directionChanges, lastAction, decisions := 0, Maintain, [];
    }

    method Observe(r: Record)
      modifies this
      ensures View() == Observed(thresholds, old(View()), r)
    {
      window := window + [r];
      if |window| > thresholds.hysteresisWindow {
        window := window[1..];
      }
    }

    method CountStreaks(inFlight: int)
      requires window != []
      modifies this
      ensures View() == Counted(thresholds, old(View()), available, inFlight)
    {
      if WantsCompose(thresholds, window) {
        composeStreak := composeStreak + 1;
        decomposeStreak := 0;
      } else if WantsDecompose(thresholds, window, available, inFlight) {
        decomposeStreak := decomposeStreak + 1;
        composeStreak := 0;
      } else {
        composeStreak := 0;
        decomposeStreak := 0;
      }
    }

    method OnAction(action: Action)
      modifies this
      ensures View() == AfterAction(old(View()), action)
    {
      if lastAction != Maintain && action != Maintain && action != lastAction {
        directionChanges := directionChanges + 1;
      }
      lastAction := action;
    }

    method Decide(inFlight: int) returns (action: Action)
      modifies this
      ensures (action, View()) == Decided(thresholds, old(View()), available, inFlight)
    {
      if window == [] {
        decisions := decisions + [NoData];
        return Maintain;
      }
      CountStreaks(inFlight);
      var composeRequired := RequiredStreak(thresholds, View(), Compose);
      var decomposeRequired := RequiredStreak(thresholds, View(), Decompose);
      if composeStreak >= composeRequired && WantsCompose(thresholds, window) {
        action := Compose;
      } else if decomposeStreak >= decomposeRequired && WantsDecompose(thresholds, window, available, inFlight) {
        action := Decompose;
      } else {
        action := Maintain;
      }
      var reason := ReasonOf(thresholds, View(), available, action);
      if action == Compose {
        OnAction(action);
        composeStreak := 0;
      } else if action == Decompose {
        OnAction(action);
        decomposeStreak := 0;
      }
      decisions := decisions + [reason];
    }

    method Reset()
      modifies this
      ensures View() == FRESH
    {
      window, composeStreak, decomposeStreak := [], 0, 0;
      directionChanges, lastAction, decisions := 0, Maintain, [];
    }
  }

  // ----- histories ----------------------------------------------------------------------------

  datatype Call = Observe(record: Record) | Decide(inFlight: int) | Reset

  function Apply(t: Thresholds, available: int, c: Tuner, call: Call): Tuner {
    match call
    case Observe(r) => Observed(t, c, r)
    case Decide(inFlight) => Decided(t, c, available, inFlight).1
    case Reset => FRESH
  }

  function After(t: Thresholds, available: int, calls: seq<Call>): Tuner
    decreases |calls|
  {
    if calls == [] then FRESH else
      Apply(t, available, After(t, available, calls[..|calls| - 1]), calls[|calls| - 1])
  }

  /** The records observed since the last reset. */
  function Records(calls: seq<Call>): seq<Record>
    decreases |calls|
  {
    if calls == [] then [] else
      var before := Records(calls[..|calls| - 1]);
      match calls[|calls| - 1]
      case Observe(r) => before + [r]
      case Decide(_) => before
      case Reset => []
  }

  /** The controller looks at exactly the last records of the history. */
  lemma {:induction false} WindowIsRecent(t: Thresholds, available: int, calls: seq<Call>)
    ensures After(t, available, calls).window == Last(Records(calls), t.hysteresisWindow)
    decreases |calls|
  {
    if calls != [] {
      var before := calls[..|calls| - 1];
      WindowIsRecent(t, available, before);
      hide WantsCompose, WantsDecompose, RequiredStreak;
      if calls[|calls| - 1].Observe? {
        Slides(Records(before), calls[|calls| - 1].record, t.hysteresisWindow);
      }
    }
  }

  lemma Slides(s: seq<Record>, r: Record, size: nat)
    requires size >= 1
    ensures Last(s + [r], size) == if |Last(s, size)| < size then Last(s, size) + [r] else (Last(s, size) + [r])[1..]
  {
  }

  // ----- how often the direction can change ---------------------------------------------------

  /** What f changes of direction cost, in hysteresis windows. */
  function Effort(base: nat, f: nat): nat
    requires base >= 1
  {
    if f == 0 then 1 else
      PowPositive(base, f);
      Effort(base, f - 1) + Min(Pow(base, f), 3)
  }

  lemma {:induction false} PowPositive(b: nat, n: nat)
    requires b >= 1
    ensures Pow(b, n) >= 1
    ensures n >= 1 ==> Pow(b, n) >= b
    ensures b >= 2 && n >= 2 ==> Pow(b, n) >= 3
  {
    if n == 1 {
      assert Pow(b, 1) == b * Pow(b, 0) == b;
    } else if n > 1 {
      PowPositive(b, n - 1);
      Scales(b, Pow(b, n - 1));
    }
  }

  lemma Scales(b: nat, x: nat)
    requires b >= 1 && x >= b
    ensures b * x >= b && (b >= 2 ==> b * x >= 4)
  {
    assert b * x >= b * b;
  }

  /** From the second change on each one costs three windows, unless there is no backoff at all. */
  lemma {:induction false} EffortIsLinear(base: nat, f: nat)
    requires base >= 1 && f >= 1
    ensures Effort(base, f) == if base == 1 then 1 + f else if base == 2 then 3 * f else 1 + 3 * f
  {
    PowPositive(base, f);
    if base == 1 {
      PowOne(f);
    }
    if f > 1 {
      EffortIsLinear(base, f - 1);
    } else {
      assert Pow(base, 1) == base * Pow(base, 0) == base;
      assert Effort(base, 0) == 1;
    }
  }

  lemma {:induction false} PowOne(n: nat)
    ensures Pow(1, n) == 1
  {
    if n > 0 {
      PowOne(n - 1);
    }
  }

  /** The decisions that the actions so far must have taken. */
  ghost function Debt(t: Thresholds, c: Tuner): int {
    if c.lastAction == Maintain then 0 else t.hysteresisWindow * Effort(t.backoffBase, c.directionChanges)
  }

  /** Decisions taken pay for the changes of direction, and the running streak comes on top. */
  ghost predicate Paid(t: Thresholds, c: Tuner) {
    && (c.composeStreak == 0 || c.decomposeStreak == 0)
    && (c.lastAction == Maintain ==> c.directionChanges == 0)
    && |c.decisions| >= c.composeStreak + c.decomposeStreak + Debt(t, c)
  }

  lemma StreakPays(t: Thresholds, c: Tuner, action: Action)
    requires action != Maintain && (c.lastAction == Maintain ==> c.directionChanges == 0)
    ensures Debt(t, AfterAction(c, action)) <= Debt(t, c) + RequiredStreak(t, c, action)
  {
    var w, f := t.hysteresisWindow, c.directionChanges;
    if IsFlip(c.lastAction, action) {
      PowPositive(t.backoffBase, f + 1);
      Scale(w, Pow(t.backoffBase, f + 1));
      assert Effort(t.backoffBase, f + 1) == Effort(t.backoffBase, f) + Min(Pow(t.backoffBase, f + 1), 3);
      hide Effort, Pow;
      Distribute(w, Effort(t.backoffBase, f), Min(Pow(t.backoffBase, f + 1), 3));
    } else {
      assert Effort(t.backoffBase, 0) == 1;
      hide Effort;
    }
  }

  lemma Distribute(w: int, a: int, b: int)
    ensures w * (a + b) == w * a + w * b
  {
  }

  lemma Scale(w: int, x: int)
    requires w >= 1
    ensures Min(w * x, w * 3) == w * Min(x, 3)
  {
    if x < 3 {
      assert w * x < w * 3;
    } else {
      assert w * x >= w * 3;
    }
  }

  lemma DebtLooksAtActions(t: Thresholds, c: Tuner, d: Tuner)
    requires c.lastAction == d.lastAction && c.directionChanges == d.directionChanges
    ensures Debt(t, c) == Debt(t, d)
  {
  }

  lemma DecisionPays(t: Thresholds, available: int, c: Tuner, inFlight: int)
    requires Paid(t, c)
    ensures Paid(t, Decided(t, c, available, inFlight).1)
  {
    if c.window != [] {
      var counted := Counted(t, c, available, inFlight);
      StreakPays(t, counted, Compose);
      StreakPays(t, counted, Decompose);
      hide WantsCompose, WantsDecompose, Debt, RequiredStreak, ReasonOf;
      DebtLooksAtActions(t, c, counted);
    }
  }

  /** In every history, f changes of direction since the last reset took at least
      window * (1 + min(base, 3) + min(base^2, 3) + ... + min(base^f, 3)) decisions. */
  lemma {:induction false} DirectionChangesAreRare(t: Thresholds, available: int, calls: seq<Call>)
    ensures
      var c := After(t, available, calls);
      && Paid(t, c)
      && (c.directionChanges > 0 ==> |c.decisions| >= t.hysteresisWindow * Effort(t.backoffBase, c.directionChanges))
    decreases |calls|
  {
    if calls != [] {
      var call := calls[|calls| - 1];
      DirectionChangesAreRare(t, available, calls[..|calls| - 1]);
      hide Decided, Effort;
      if call.Decide? {
        DecisionPays(t, available, After(t, available, calls[..|calls| - 1]), call.inFlight);
      }
    }
  }

  /** A decision acts exactly when its trigger has held for the required number of decisions in a row, this one
      included; composing takes precedence. A window that is not full yet acts all the same. */
  lemma ActsExactlyWhenConvinced(t: Thresholds, available: int, c: Tuner, inFlight: int)
    ensures
      var (action, d) := Decided(t, c, available, inFlight);
      && (action == Compose <==>
            c.window != [] && WantsCompose(t, c.window) && c.composeStreak + 1 >= RequiredStreak(t, c, Compose))
      && (action == Decompose <==>
            c.window != [] && !WantsCompose(t, c.window) && WantsDecompose(t, c.window, available, inFlight)
            && c.decomposeStreak + 1 >= RequiredStreak(t, c, Decompose))
      && (c.window != [] && action == Maintain ==>
            d.composeStreak == (if WantsCompose(t, c.window) then c.composeStreak + 1 else 0))
      && d.lastAction == (if action == Maintain then c.lastAction else action)
      && |d.decisions| == |c.decisions| + 1
  {
    PowPositive(t.backoffBase, c.directionChanges + 1);
    Scale(t.hysteresisWindow, Pow(t.backoffBase, c.directionChanges + 1));
    hide WantsCompose, WantsDecompose, Pow;
  }

  /** The reason on record is the true one: its signal does cross its threshold, for exactly as long as it says, and
      no signal that takes precedence does. */
  lemma ReasonIsTrue(t: Thresholds, available: int, c: Tuner, inFlight: int)
    ensures
      var (action, d) := Decided(t, c, available, inFlight);
      d.decisions != [] && TrueReason(t, available, c, inFlight, action, d.decisions[|d.decisions| - 1])
  {
    hide PressureOf, OverheadOf, ErrorsOf, Pow;
    if c.window != [] {
      LongEnough(t, c, Decompose);
      var counted := Counted(t, c, available, inFlight);
      var action := ActionOf(t, counted, available, inFlight);
      assert action == Compose ==>
          WantsCompose(t, c.window) && counted.composeStreak == c.composeStreak + 1 >= RequiredStreak(t, c, Compose);
      assert action == Decompose ==>
          WantsDecompose(t, c.window, available, inFlight)
            && counted.decomposeStreak == c.decomposeStreak + 1 >= RequiredStreak(t, c, Decompose);
      hide RequiredStreak, Counted, ActionOf;
    }
  }

  ghost predicate TrueReason(t: Thresholds, available: int, c: Tuner, inFlight: int, action: Action, reason: Reason) {
    match reason
    case NoData => c.window == [] && action == Maintain
    case Quiet(overhead) => c.window != [] && action == Maintain && overhead == OverheadOf(c.window)
    case Acted(taken, cause, value, threshold, consecutive) =>
      && c.window != [] && taken == action != Maintain && consecutive >= RequiredStreak(t, c, action)
      && consecutive == (if action == Compose then c.composeStreak else c.decomposeStreak) + 1
      && (action == Compose <==> cause == Overhead || cause == ErrorRate)
      && match cause
         case Overhead => value == OverheadOf(c.window) && value > threshold == t.overheadHigh
         case ErrorRate =>
           value == ErrorsOf(c.window) && value > threshold == t.errorRateHigh && OverheadOf(c.window) <= t.overheadHigh
         case ContextUtilization => value == PressureOf(c.window) && value > threshold == t.contextUtilHigh
         case Parallelism =>
           value == available as real && threshold == 0.0 && value > t.parallelismFactor * inFlight as real
             && OverheadOf(c.window) < t.overheadLow && PressureOf(c.window) <= t.contextUtilHigh
  }

  // ----- windows that are not full ------------------------------------------------------------

  /** The decisions asked for since the last reset. */
  function Decisions(calls: seq<Call>): nat
    decreases |calls|
  {
    if calls == [] then 0 else
      var before := Decisions(calls[..|calls| - 1]);
      match calls[|calls| - 1]
      case Observe(_) => before
      case Decide(_) => before + 1
      case Reset => 0
  }

  lemma {:induction false} EveryDecisionIsKept(t: Thresholds, available: int, calls: seq<Call>)
    ensures |After(t, available, calls).decisions| == Decisions(calls)
    decreases |calls|
  {
    if calls != [] {
      EveryDecisionIsKept(t, available, calls[..|calls| - 1]);
      hide WantsCompose, WantsDecompose, RequiredStreak, Counted, ActionOf, ReasonOf;
    }
  }

  lemma LongEnough(t: Thresholds, c: Tuner, action: Action)
    ensures RequiredStreak(t, c, action) >= t.hysteresisWindow
  {
    PowPositive(t.backoffBase, c.directionChanges + 1);
    Scale(t.hysteresisWindow, Pow(t.backoffBase, c.directionChanges + 1));
    ScaleUp(t.hysteresisWindow, Min(Pow(t.backoffBase, c.directionChanges + 1), 3));
    hide Pow;
  }

  lemma ScaleUp(w: int, x: int)
    requires w >= 1 && x >= 1
    ensures w * x >= w
  {
  }

  /** The window is full exactly when enough records were observed since the last reset. As long as the decisions
      asked for since then, this one included, do not outnumber the records, an action rests on a full window. */
  lemma ActsOnFullWindow(t: Thresholds, available: int, calls: seq<Call>, inFlight: int)
    ensures
      var c := After(t, available, calls);
      && (|c.window| == t.hysteresisWindow <==> |Records(calls)| >= t.hysteresisWindow)
      && (Decisions(calls) + 1 <= |Records(calls)| && Decided(t, c, available, inFlight).0 != Maintain
          ==> |c.window| == t.hysteresisWindow)
  {
    var c := After(t, available, calls);
    WindowIsRecent(t, available, calls);
    EveryDecisionIsKept(t, available, calls);
    DirectionChangesAreRare(t, available, calls);
    ActsExactlyWhenConvinced(t, available, c, inFlight);
    LongEnough(t, c, Compose);
    LongEnough(t, c, Decompose);
    DebtIsNoGift(t, c);
    hide After, Decided, RequiredStreak, Records, Decisions, WantsCompose, WantsDecompose, Debt, Effort;
  }

  lemma DebtIsNoGift(t: Thresholds, c: Tuner)
    ensures Debt(t, c) >= 0
  {
    hide Effort;
  }

  /** One record, then k decisions. */
  function Impatient(r: Record, k: nat): seq<Call> {
    [Observe(r)] + seq(k, i => Decide(1))
  }

  lemma {:induction false} StreakGrows(t: Thresholds, available: int, r: Record, k: nat)
    requires OverheadOf([r]) > t.overheadHigh && k < t.hysteresisWindow
    ensures
      var c := After(t, available, Impatient(r, k));
      c.window == [r] && c.composeStreak == k && c.lastAction == Maintain
    decreases k
  {
    hide OverheadOf, ErrorsOf, PressureOf;
    if k == 0 {
      assert Impatient(r, 0)[..0] == [];
      assert After(t, available, []) == FRESH;
      assert Impatient(r, 0) == [Observe(r)];
    } else {
      assert Impatient(r, k)[..k] == Impatient(r, k - 1);
      StreakGrows(t, available, r, k - 1);
      ActsExactlyWhenConvinced(t, available, After(t, available, Impatient(r, k - 1)), 1);
      assert Impatient(r, k)[k] == Decide(1);
      hide Impatient;
      WindowStays(t, After(t, available, Impatient(r, k - 1)), available);
    }
  }

  lemma WindowStays(t: Thresholds, c: Tuner, available: int)
    ensures Decided(t, c, available, 1).1.window == c.window
  {
    hide WantsCompose, WantsDecompose, RequiredStreak, ReasonOf;
  }

  /** A window with a single record in it is enough to act upon, if it is only asked often enough. */
  lemma ActsOnPartialWindow(t: Thresholds, available: int, r: Record)
    requires t.hysteresisWindow >= 2 && OverheadOf([r]) > t.overheadHigh
    ensures
      var c := After(t, available, Impatient(r, t.hysteresisWindow - 1));
      |c.window| == 1 < t.hysteresisWindow && Decided(t, c, available, 1).0 == Compose
  {
    hide OverheadOf, ErrorsOf, PressureOf, After;
    StreakGrows(t, available, r, t.hysteresisWindow - 1);
    ActsExactlyWhenConvinced(t, available, After(t, available, Impatient(r, t.hysteresisWindow - 1)), 1);
    hide Decided, Impatient;
  }

  // ----- when a decision acts, in sums over the window ----------------------------------------

  function Tokens(w: seq<Record>): int {
    if w == [] then 0 else Tokens(w[..|w| - 1]) + w[|w| - 1].totalTokens
  }

  function Coordination(w: seq<Record>): int {
    if w == [] then 0 else Coordination(w[..|w| - 1]) + w[|w| - 1].coordinationTokens
  }

  function Errors(w: seq<Record>): int {
    if w == [] then 0 else Errors(w[..|w| - 1]) + w[|w| - 1].errorCount
  }

  function Items(w: seq<Record>): int {
    if w == [] then 0 else Items(w[..|w| - 1]) + w[|w| - 1].batchSize
  }

  function Utilization(w: seq<Record>): real {
    if w == [] then 0.0 else Utilization(w[..|w| - 1]) + w[|w| - 1].contextUtilization
  }

  /** More coordination tokens than the threshold allows, or more errors. */
  predicate TooCostly(t: Thresholds, w: seq<Record>) {
    || (Tokens(w) > 0 && Coordination(w) as real > t.overheadHigh * Tokens(w) as real)
    || (Items(w) > 0 && Errors(w) as real > t.errorRateHigh * Items(w) as real)
  }

  /** Fuller contexts than the threshold allows, or room for more work while there is little coordination. */
  predicate TooLarge(t: Thresholds, w: seq<Record>, available: int, inFlight: int) {
    || Utilization(w) > t.contextUtilHigh * |w| as real
    || (&& available as real > t.parallelismFactor * inFlight as real
        && if Tokens(w) > 0 then Coordination(w) as real < t.overheadLow * Tokens(w) as real else t.overheadLow > 0.0)
  }

  /** How many decisions in a row it takes: as many as the window has records, and after an action in the other
      direction up to three times as many, depending on the base of the backoff. */
  function Needed(t: Thresholds, c: Tuner, action: Action): int {
    if c.lastAction == Maintain || c.lastAction == action || t.backoffBase == 1 then t.hysteresisWindow
    else if t.backoffBase == 2 && c.directionChanges == 0 then 2 * t.hysteresisWindow
    else 3 * t.hysteresisWindow
  }

  lemma RequiredIsNeeded(t: Thresholds, c: Tuner, action: Action)
    requires action != Maintain
    ensures RequiredStreak(t, c, action) == Needed(t, c, action)
  {
    var n := c.directionChanges + 1;
    PowPositive(t.backoffBase, n);
    Scale(t.hysteresisWindow, Pow(t.backoffBase, n));
    if t.backoffBase == 1 {
      PowOne(n);
    }
    assert Pow(t.backoffBase, 1) == t.backoffBase * Pow(t.backoffBase, 0) == t.backoffBase;
    hide Pow;
  }

  lemma {:induction false} TotalIs(w: seq<Record>, f: Record -> int)
    ensures w != [] ==> Total(w, f) == Total(w[..|w| - 1], f) + f(w[|w| - 1])
  {
    if |w| > 1 {
      TotalIs(w[1..], f);
      assert w[1..][..|w| - 2] == w[..|w| - 1][1..];
    }
  }

  lemma {:induction false} SumsOf(w: seq<Record>)
    ensures Total(w, (r: Record) => r.totalTokens) == Tokens(w)
    ensures Total(w, (r: Record) => r.coordinationTokens) == Coordination(w)
    ensures Total(w, (r: Record) => r.errorCount) == Errors(w)
    ensures Total(w, (r: Record) => r.batchSize) == Items(w)
  {
    if w != [] {
      SumsOf(w[..|w| - 1]);
      TotalIs(w, (r: Record) => r.totalTokens);
      TotalIs(w, (r: Record) => r.coordinationTokens);
      TotalIs(w, (r: Record) => r.errorCount);
      TotalIs(w, (r: Record) => r.batchSize);
    }
  }

  lemma SignalsAre(w: seq<Record>)
    ensures OverheadOf(w) == Ratio(Coordination(w), Tokens(w)) && ErrorsOf(w) == Ratio(Errors(w), Items(w))
  {
    SumsOf(w);
    hide Ratio;
  }

  lemma RatioAgainst(part: int, whole: int, bound: real)
    requires bound >= 0.0
    ensures Ratio(part, whole) > bound <==> whole > 0 && part as real > bound * whole as real
    ensures Ratio(part, whole) < bound <==> if whole > 0 then part as real < bound * whole as real else bound > 0.0
  {
    if whole > 0 {
      QuotientAgainst(part as real, whole, bound);
    }
  }

  lemma {:induction false} UtilizationIs(w: seq<Record>)
    ensures Sum(seq(|w|, i requires 0 <= i < |w| => w[i].contextUtilization)) == Utilization(w)
  {
    var all := seq(|w|, i requires 0 <= i < |w| => w[i].contextUtilization);
    if w != [] {
      var front, last := w[..|w| - 1], w[|w| - 1].contextUtilization;
      UtilizationIs(front);
      assert all == seq(|front|, i requires 0 <= i < |front| => front[i].contextUtilization) + [last];
      SumOfParts(seq(|front|, i requires 0 <= i < |front| => front[i].contextUtilization), [last], last);
    }
  }

  lemma CostlyIs(t: Thresholds, w: seq<Record>)
    ensures WantsCompose(t, w) <==> TooCostly(t, w)
  {
    SignalsAre(w);
    RatioAgainst(Coordination(w), Tokens(w), t.overheadHigh);
    RatioAgainst(Errors(w), Items(w), t.errorRateHigh);
    hide Ratio, Tokens, Coordination, Errors, Items, OverheadOf, ErrorsOf;
  }

  lemma LargeIs(t: Thresholds, w: seq<Record>, available: int, inFlight: int)
    requires w != []
    ensures WantsDecompose(t, w, available, inFlight) <==> TooLarge(t, w, available, inFlight)
  {
    SignalsAre(w);
    RatioAgainst(Coordination(w), Tokens(w), t.overheadLow);
    UtilizationIs(w);
    QuotientAgainst(Utilization(w), |w|, t.contextUtilHigh);
    hide Ratio, Tokens, Coordination, OverheadOf, Utilization, Sum;
  }

  /** One decision. It acts exactly when its signal has been there long enough, counted in decisions, with composing
      taking precedence; a signal that is not there breaks its streak. */
  lemma ActsWhenTriggered(t: Thresholds, available: int, c: Tuner, inFlight: int)
    requires c.window != []
    ensures
      var (action, d) := Decided(t, c, available, inFlight);
      var costly, large := TooCostly(t, c.window), TooLarge(t, c.window, available, inFlight);
      && (action == Compose <==> costly && c.composeStreak + 1 >= Needed(t, c, Compose))
      && (action == Decompose <==> !costly && large && c.decomposeStreak + 1 >= Needed(t, c, Decompose))
      && d.composeStreak == (if costly && action == Maintain then c.composeStreak + 1 else 0)
      && d.decomposeStreak == (if !costly && large && action == Maintain then c.decomposeStreak + 1 else 0)
      && d.window == c.window && d.lastAction == (if action == Maintain then c.lastAction else action)
      && d.directionChanges == c.directionChanges
           + (if action != Maintain && c.lastAction != Maintain && action != c.lastAction then 1 else 0)
  {
    CostlyIs(t, c.window);
    LargeIs(t, c.window, available, inFlight);
    RequiredIsNeeded(t, c, Compose);
    RequiredIsNeeded(t, c, Decompose);
    hide WantsCompose, WantsDecompose, TooCostly, TooLarge, RequiredStreak, Needed, ReasonOf;
  }

  /** The controller after some more calls. */
  function Onwards(t: Thresholds, available: int, c: Tuner, calls: seq<Call>): Tuner
    decreases |calls|
  {
    if calls == [] then c else
      Apply(t, available, Onwards(t, available, c, calls[..|calls| - 1]), calls[|calls| - 1])
  }

  /** At call k, if a decision is asked for, there are records and they call for this action. */
  ghost predicate CallsFor(t: Thresholds, available: int, c: Tuner, calls: seq<Call>, action: Action, k: int)
    requires 0 <= k < |calls|
  {
    calls[k].Decide? ==>
      var w := Onwards(t, available, c, calls[..k]).window;
      && w != []
      && (action == Compose ==> TooCostly(t, w))
      && (action == Decompose ==> !TooCostly(t, w) && TooLarge(t, w, available, calls[k].inFlight))
  }

  /** No call is a reset, and every decision is asked for while the records call for this action. */
  ghost predicate Persistent(t: Thresholds, available: int, c: Tuner, calls: seq<Call>, action: Action) {
    && action != Maintain
    && (forall k :: 0 <= k < |calls| ==> !calls[k].Reset?)
    && (forall k :: 0 <= k < |calls| ==> CallsFor(t, available, c, calls, action, k))
  }

  function StreakOf(c: Tuner, action: Action): nat {
    if action == Compose then c.composeStreak else c.decomposeStreak
  }

  lemma PersistentSoFar(t: Thresholds, available: int, c: Tuner, calls: seq<Call>, action: Action)
    requires Persistent(t, available, c, calls, action) && calls != []
    ensures Persistent(t, available, c, calls[..|calls| - 1], action) && !calls[|calls| - 1].Reset?
    ensures CallsFor(t, available, c, calls, action, |calls| - 1)
  {
    var before := calls[..|calls| - 1];
    forall k | 0 <= k < |before| ensures CallsFor(t, available, c, before, action, k) {
      assert CallsFor(t, available, c, calls, action, k) && before[..k] == calls[..k];
    }
  }

  /** Records come and go, but as long as all decisions see the signal, the streak counts them. */
  lemma {:induction false} StreakCounts(t: Thresholds, available: int, c: Tuner, calls: seq<Call>, action: Action)
    requires Persistent(t, available, c, calls, action)
    requires StreakOf(c, action) + Decisions(calls) < Needed(t, c, action)
    ensures
      var d := Onwards(t, available, c, calls);
      && StreakOf(d, action) == StreakOf(c, action) + Decisions(calls)
      && d.lastAction == c.lastAction && d.directionChanges == c.directionChanges
    decreases |calls|
  {
    if calls != [] {
      var before, call := calls[..|calls| - 1], calls[|calls| - 1];
      PersistentSoFar(t, available, c, calls, action);
      assert Decisions(calls) == Decisions(before) + if call.Decide? then 1 else 0;
      StreakCounts(t, available, c, before, action);
      hide Persistent, Decided, TooCostly, TooLarge;
      var d := Onwards(t, available, c, before);
      assert Needed(t, d, action) == Needed(t, c, action);
      hide Needed, Decisions;
      if call.Decide? {
        ActsWhenTriggered(t, available, d, call.inFlight);
      }
    }
  }

  /** A signal that is there at every decision is acted upon in the end, and not before: the first decision to act is
      the one that completes the streak. */
  lemma PersistenceActs(t: Thresholds, available: int, c: Tuner, calls: seq<Call>, inFlight: int, action: Action)
    requires Persistent(t, available, c, calls + [Decide(inFlight)], action)
    requires StreakOf(c, action) + Decisions(calls) < Needed(t, c, action)
    ensures
      var acted := Decided(t, Onwards(t, available, c, calls), available, inFlight).0;
      acted == if StreakOf(c, action) + Decisions(calls) + 1 == Needed(t, c, action) then action else Maintain
  {
    var all := calls + [Decide(inFlight)];
    assert all[..|calls|] == calls;
    PersistentSoFar(t, available, c, all, action);
    StreakCounts(t, available, c, calls, action);
    var d := Onwards(t, available, c, calls);
    hide Persistent, Decided, TooCostly, TooLarge, Onwards;
    assert Needed(t, d, action) == Needed(t, c, action);
    hide Needed, Decisions;
    ActsWhenTriggered(t, available, d, inFlight);
  }
}
