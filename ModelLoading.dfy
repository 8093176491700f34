/**
 * The detector-acquisition policy of `TrafficApp.load_model`: up to three
 * attempts; each tries the large model and, only if that load raised, the
 * medium one; a one-second sleep follows every attempt in which both raised;
 * after the last failed attempt the application quits.
 *
 * The loader is an oracle: `loads(k)` tells whether the k-th `YOLO(...)`
 * call (counting from 0) returns a model rather than raising.
 */
module ModelLoading {
  import opened Wrappers

  datatype Variant = Large | Medium

  /** The weights file `YOLO(...)` is given for each variant. */
  function WeightsFile(v: Variant): string {
    match v
    case Large => "yolov8l.pt"
    case Medium => "yolov8m.pt"
  }

  const MaxAttempts: nat := 3

  /**
   * What a run of the policy does: the model it ends up holding (None when
   * every load raised), the variants requested in order, the one-second
   * sleeps taken, and whether it gave up and quit.
   */
  datatype LoadTrace = LoadTrace(loaded: Option<Variant>, tried: seq<Variant>, sleeps: nat, quit: bool)

  /** The policy from attempt `attempt` on, after `calls` loads have been made. */
  function LoadFrom(loads: nat -> bool, attempt: nat, calls: nat): LoadTrace
    requires attempt <= MaxAttempts
    decreases MaxAttempts - attempt
  {
    if attempt == MaxAttempts then
      LoadTrace(None, [], 0, true)
    else if loads(calls) then
      LoadTrace(Some(Large), [Large], 0, false)
    else if loads(calls + 1) then
      LoadTrace(Some(Medium), [Large, Medium], 0, false)
    else
      var rest := LoadFrom(loads, attempt + 1, calls + 2);
      LoadTrace(rest.loaded, [Large, Medium] + rest.tried, rest.sleeps + 1, rest.quit)
  }

  /** The whole policy, as `load_model` runs it. */
  function LoadPolicy(loads: nat -> bool): LoadTrace {
    LoadFrom(loads, 0, 0)
  }

  /** A run that made the loads `made` over `attempts` failed attempts and then went on as `rest`. */
  ghost function Resumed(made: seq<Variant>, attempts: nat, rest: LoadTrace): LoadTrace {
    LoadTrace(rest.loaded, made + rest.tried, attempts + rest.sleeps, rest.quit)
  }

  lemma ResumeLarge(loads: nat -> bool, attempt: nat, calls: nat, made: seq<Variant>)
    requires attempt < MaxAttempts && loads(calls)
    ensures Resumed(made, attempt, LoadFrom(loads, attempt, calls)) == LoadTrace(Some(Large), made + [Large], attempt, false)
  {
  }

  lemma ResumeMedium(loads: nat -> bool, attempt: nat, calls: nat, made: seq<Variant>)
    requires attempt < MaxAttempts && !loads(calls) && loads(calls + 1)
    ensures Resumed(made, attempt, LoadFrom(loads, attempt, calls)) == LoadTrace(Some(Medium), made + [Large, Medium], attempt, false)
  {
  }

  lemma ResumeFailed(loads: nat -> bool, attempt: nat, calls: nat, made: seq<Variant>)
    requires attempt < MaxAttempts && !loads(calls) && !loads(calls + 1)
    ensures Resumed(made, attempt, LoadFrom(loads, attempt, calls))
         == Resumed(made + [Large, Medium], attempt + 1, LoadFrom(loads, attempt + 1, calls + 2))
  {
    var next := LoadFrom(loads, attempt + 1, calls + 2);
    assert made + ([Large, Medium] + next.tried) == (made + [Large, Medium]) + next.tried;
  }

  lemma ResumeGiveUp(loads: nat -> bool, calls: nat, made: seq<Variant>)
    ensures Resumed(made, MaxAttempts, LoadFrom(loads, MaxAttempts, calls)) == LoadTrace(None, made, MaxAttempts, true)
  {
    assert made + [] == made;
  }

  /** Every load of the run after the first `calls` raised. */
  ghost predicate AllRaise(loads: nat -> bool, calls: nat, upTo: int) {
    forall k :: calls <= k < upTo ==> !loads(k)
  }

  /** Alternation of the requested variants and the bounds on loads and sleeps. */
  lemma {:induction false} LoadFromShape(loads: nat -> bool, attempt: nat, calls: nat)
    requires attempt <= MaxAttempts
    ensures var t := LoadFrom(loads, attempt, calls);
      && |t.tried| <= 2 * (MaxAttempts - attempt)
      && t.sleeps <= MaxAttempts - attempt
      && (forall i :: 0 <= i < |t.tried| ==> t.tried[i] == (if i % 2 == 0 then Large else Medium))
    decreases MaxAttempts - attempt
  {
    if attempt < MaxAttempts && !loads(calls) && !loads(calls + 1) {
      LoadFromShape(loads, attempt + 1, calls + 2);
      var rest := LoadFrom(loads, attempt + 1, calls + 2);
      var t := LoadFrom(loads, attempt, calls);
      forall i | 0 <= i < |t.tried|
        ensures t.tried[i] == (if i % 2 == 0 then Large else Medium)
      {
        if i >= 2 {
          assert t.tried[i] == rest.tried[i - 2];
        }
      }
    }
  }

  /** Every load before the last one requested raised; quitting means all of them did. */
  lemma {:induction false} LoadFromRaises(loads: nat -> bool, attempt: nat, calls: nat)
    requires attempt <= MaxAttempts
    ensures var t := LoadFrom(loads, attempt, calls);
      && AllRaise(loads, calls, calls + |t.tried| - 1)
      && (t.quit <==> AllRaise(loads, calls, calls + 2 * (MaxAttempts - attempt)))
    decreases MaxAttempts - attempt
  {
    if attempt < MaxAttempts && !loads(calls) && !loads(calls + 1) {
      LoadFromRaises(loads, attempt + 1, calls + 2);
      var rest := LoadFrom(loads, attempt + 1, calls + 2);
      var t := LoadFrom(loads, attempt, calls);
      assert |t.tried| == 2 + |rest.tried|;
      if AllRaise(loads, calls, calls + 2 * (MaxAttempts - attempt)) {
        assert AllRaise(loads, calls + 2, (calls + 2) + 2 * (MaxAttempts - (attempt + 1)));
      }
    }
  }

  /** What the run ends with: the model of its last load, or nothing after six failures. */
  lemma {:induction false} LoadFromResult(loads: nat -> bool, attempt: nat, calls: nat)
    requires attempt <= MaxAttempts
    ensures var t := LoadFrom(loads, attempt, calls);
      && (t.quit ==> t.loaded == None && |t.tried| == 2 * (MaxAttempts - attempt) && t.sleeps == MaxAttempts - attempt)
      && (!t.quit ==> |t.tried| >= 1 && loads(calls + |t.tried| - 1)
                      && t.loaded == Some(t.tried[|t.tried| - 1])
                      && t.sleeps == (|t.tried| - 1) / 2)
    decreases MaxAttempts - attempt
  {
    if attempt < MaxAttempts && !loads(calls) && !loads(calls + 1) {
      LoadFromResult(loads, attempt + 1, calls + 2);
      var rest := LoadFrom(loads, attempt + 1, calls + 2);
      var t := LoadFrom(loads, attempt, calls);
      assert |t.tried| == 2 + |rest.tried|;
      if !t.quit {
        assert t.tried[|t.tried| - 1] == rest.tried[|rest.tried| - 1];
        assert calls + |t.tried| - 1 == (calls + 2) + |rest.tried| - 1;
      }
    }
  }

  /**
   * At most three attempts: at most six loads and three sleeps; the requests
   * alternate large, medium, large, ... so the medium model is only ever
   * requested straight after a large load, and only after that load raised.
   */
  lemma LoadPolicyAttempts(loads: nat -> bool)
    ensures var t := LoadPolicy(loads);
      && |t.tried| <= 2 * MaxAttempts
      && t.sleeps <= MaxAttempts
      && (forall i :: 0 <= i < |t.tried| ==> t.tried[i] == (if i % 2 == 0 then Large else Medium))
      && (forall i :: 0 <= i < |t.tried| && t.tried[i] == Medium ==> i >= 1 && t.tried[i - 1] == Large && !loads(i - 1))
      && (forall i :: 0 <= i < |t.tried| ==> WeightsFile(t.tried[i]) == (if i % 2 == 0 then "yolov8l.pt" else "yolov8m.pt"))
  {
    LoadFromShape(loads, 0, 0);
    LoadFromRaises(loads, 0, 0);
    var t := LoadPolicy(loads);
    forall i | 0 <= i < |t.tried| && t.tried[i] == Medium
      ensures i >= 1 && t.tried[i - 1] == Large && !loads(i - 1)
    {
      assert 0 + (i - 1) == i - 1;
    }
  }

  /**
   * The policy stops at the first load that succeeds and holds that model:
   * every earlier load raised and the last one requested returned a model.
   */
  lemma LoadPolicyFirstSuccess(loads: nat -> bool)
    ensures var t := LoadPolicy(loads);
      && (forall k :: 0 <= k < |t.tried| - 1 ==> !loads(k))
      && (!t.quit ==> |t.tried| >= 1 && loads(|t.tried| - 1) && t.loaded == Some(t.tried[|t.tried| - 1]))
  {
    LoadFromRaises(loads, 0, 0);
    LoadFromResult(loads, 0, 0);
  }

  /**
   * The policy quits exactly when all six loads raise; it then holds no model,
   * has requested all six and has slept once after each of the three attempts.
   */
  lemma LoadPolicyGivesUp(loads: nat -> bool)
    ensures var t := LoadPolicy(loads);
      && (t.quit <==> forall k :: 0 <= k < 2 * MaxAttempts ==> !loads(k))
      && (t.quit ==> t.loaded == None && t.tried == [Large, Medium, Large, Medium, Large, Medium] && t.sleeps == MaxAttempts)
      && (!t.quit <==> t.loaded.Some?)
  {
    LoadFromShape(loads, 0, 0);
    LoadFromRaises(loads, 0, 0);
    LoadFromResult(loads, 0, 0);
    var t := LoadPolicy(loads);
    if t.quit {
      assert |t.tried| == 6;
      assert t.tried[0] == Large && t.tried[1] == Medium && t.tried[2] == Large;
      assert t.tried[3] == Medium && t.tried[4] == Large && t.tried[5] == Medium;
    }
  }

  /** A successful run slept once for each attempt before the one that succeeded. */
  lemma LoadPolicySleeps(loads: nat -> bool)
    ensures var t := LoadPolicy(loads);
      t.sleeps == if t.quit then MaxAttempts else (|t.tried| - 1) / 2
  {
    LoadFromResult(loads, 0, 0);
  }
}
