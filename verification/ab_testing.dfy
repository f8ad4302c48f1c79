/**
 * The A/B testing framework of the recommendation system: experiments whose
 * variants split the traffic by percentage, a deterministic bucket per
 * (user, experiment), per-user result counters updated by tracked events,
 * the relative lift of a variant over the control, and the rule that stops
 * an experiment once a variant shows a large significant lift.
 *
 * The database tables become two maps held by the framework object; the MD5
 * digest of the bucketing key is a function parameter `hash`; the current
 * time is a parameter `now` in seconds.
 */
module ABTesting {
  import opened Common

  // ---------------------------------------------------------------------
  // Experiments and variants

  datatype Status = Draft | Running | Paused | Completed

  /** One variant: a name, the recommender weights it uses and its share of traffic in percent. */
  datatype Variant = Variant(
    name: string, description: string,
    algorithmWeights: map<string, real>, trafficPercentage: real)

  datatype Experiment = Experiment(
    name: string, description: string, status: Status,
    variants: seq<Variant>, metrics: seq<string>,
    startDate: Option<int>, endDate: Option<int>)

  /** The traffic of the first `n` variants, summed left to right. */
  function Cumulative(variants: seq<Variant>, n: nat): real
    requires n <= |variants|
  {
    if n == 0 then 0.0 else Cumulative(variants, n - 1) + variants[n - 1].trafficPercentage
  }

  function TotalTraffic(variants: seq<Variant>): real {
    Cumulative(variants, |variants|)
  }

  function AbsReal(x: real): real {
    if x < 0.0 then -x else x
  }

  /** The validation of `create_experiment`: the percentages sum to 100 within 0.01. */
  predicate TrafficValid(variants: seq<Variant>) {
    AbsReal(TotalTraffic(variants) - 100.0) <= 0.01
  }

  ghost predicate NonNegativeTraffic(variants: seq<Variant>) {
    forall i :: 0 <= i < |variants| ==> variants[i].trafficPercentage >= 0.0
  }

  lemma {:induction false} CumulativeMonotone(variants: seq<Variant>, j: nat, k: nat)
    requires NonNegativeTraffic(variants)
    requires j <= k <= |variants|
    ensures Cumulative(variants, j) <= Cumulative(variants, k)
    decreases k
  {
    if j < k {
      CumulativeMonotone(variants, j, k - 1);
    }
  }

  // ---------------------------------------------------------------------
  // Bucketing

  /** The string that is hashed: `f"{user_id}-{experiment_id}"`. */
  function HashInput(userId: int, experimentId: int): string {
    IntToString(userId) + "-" + IntToString(experimentId)
  }

  /** `int(md5(...).hexdigest(), 16) % 100`, with the digest-as-integer given by `hash`. */
  function Bucket(hash: string -> nat, userId: int, experimentId: int): (b: nat)
    ensures b < 100
  {
    hash(HashInput(userId, experimentId)) % 100
  }

  /** Variant `i` covers bucket `b` when `b` lies below the running total through `i`. */
  predicate Covers(variants: seq<Variant>, b: nat, i: nat)
    requires i < |variants|
  {
    (b as real) < Cumulative(variants, i + 1)
  }

  /** The first variant from index `i` on that covers bucket `b`, if any. */
  function FirstCovering(variants: seq<Variant>, b: nat, i: nat): (r: Option<nat>)
    ensures r.Some? ==> i <= r.value < |variants| && Covers(variants, b, r.value)
    ensures r.Some? ==> forall j :: i <= j < r.value ==> !Covers(variants, b, j)
    ensures r.None? ==> forall j :: i <= j < |variants| ==> !Covers(variants, b, j)
    decreases |variants| - i
  {
    if i >= |variants| then None
    else if Covers(variants, b, i) then Some(i)
    else FirstCovering(variants, b, i + 1)
  }

  /**
   * The variant name `get_user_variant` returns for bucket `b` of an active
   * experiment: the first covering variant, else the first variant, which
   * raises IndexError when there are no variants.
   */
  function Assignment(variants: seq<Variant>, b: nat): Result<string> {
    match FirstCovering(variants, b, 0)
    case Some(i) => Ok(variants[i].name)
    case None => if |variants| == 0 then Err(IndexError) else Ok(variants[0].name)
  }

  /** What `get_user_variant(user_id, experiment_id)` returns. */
  function UserVariant(
    experiments: map<int, Experiment>, active: set<int>,
    hash: string -> nat, userId: int, experimentId: int): Result<Option<string>>
  {
    if experimentId !in active || experimentId !in experiments then Ok(None)
    else
      match Assignment(experiments[experimentId].variants, Bucket(hash, userId, experimentId))
      case Ok(name) => Ok(Some(name))
      case Err(e) => Err(e)
  }

  /** The cumulative-percentage scan of `get_user_variant` for bucket `b`. */
  method ScanVariants(variants: seq<Variant>, b: nat) returns (r: Result<string>)
    ensures r == Assignment(variants, b)
  {
    var cumulative := 0.0;
    for i := 0 to |variants|
      invariant cumulative == Cumulative(variants, i)
      invariant FirstCovering(variants, b, 0) == FirstCovering(variants, b, i)
    {
      cumulative := cumulative + variants[i].trafficPercentage;
      if (b as real) < cumulative {
        return Ok(variants[i].name);
      }
    }
    if |variants| == 0 {
      return Err(IndexError);
    }
    r := Ok(variants[0].name);
  }

  /** When the percentages sum to 100, every bucket 0..99 reaches a covering variant: the fallback is never taken. */
  lemma FallbackUnreachable(variants: seq<Variant>, b: nat)
    requires TrafficValid(variants)
    requires b < 100
    ensures FirstCovering(variants, b, 0).Some?
    ensures Assignment(variants, b) == Ok(variants[FirstCovering(variants, b, 0).value].name)
  {
    assert |variants| > 0;
    assert Covers(variants, b, |variants| - 1);
  }

  /** A variant with no traffic is never chosen by the cumulative scan. */
  lemma ZeroTrafficNeverChosen(variants: seq<Variant>, b: nat, i: nat)
    requires i < |variants| && variants[i].trafficPercentage <= 0.0
    ensures FirstCovering(variants, b, 0) != Some(i)
  {
    if i == 0 {
      assert Cumulative(variants, 1) == variants[0].trafficPercentage;
    } else if !Covers(variants, b, i - 1) {
      assert !Covers(variants, b, i);
    }
  }

  /**
   * With non-negative percentages the scan partitions the buckets: variant
   * `i` is chosen exactly for the buckets in [Cumulative(i), Cumulative(i + 1)).
   */
  lemma ChosenRange(variants: seq<Variant>, b: nat, i: nat)
    requires NonNegativeTraffic(variants)
    requires i < |variants|
    ensures FirstCovering(variants, b, 0) == Some(i) <==>
      Cumulative(variants, i) <= b as real < Cumulative(variants, i + 1)
  {
    if FirstCovering(variants, b, 0) == Some(i) && i > 0 {
      assert !Covers(variants, b, i - 1);
    }
    if Cumulative(variants, i) <= b as real < Cumulative(variants, i + 1) {
      forall j | 0 <= j < i ensures !Covers(variants, b, j) {
        CumulativeMonotone(variants, j + 1, i);
      }
      assert Covers(variants, b, i);
    }
  }

  // ---------------------------------------------------------------------
  // Variant weights

  /** The first variant named `name`, if any. */
  function FirstNamed(variants: seq<Variant>, name: string, i: nat): (r: Option<nat>)
    ensures r.Some? ==> i <= r.value < |variants| && variants[r.value].name == name
    ensures r.Some? ==> forall j :: i <= j < r.value ==> variants[j].name != name
    ensures r.None? ==> forall j :: i <= j < |variants| ==> variants[j].name != name
    decreases |variants| - i
  {
    if i >= |variants| then None
    else if variants[i].name == name then Some(i)
    else FirstNamed(variants, name, i + 1)
  }

  /** The weights of the first variant named `name`. */
  function WeightsNamed(variants: seq<Variant>, name: string): Option<map<string, real>> {
    match FirstNamed(variants, name, 0)
    case Some(i) => Some(variants[i].algorithmWeights)
    case None => None
  }

  /** What `get_variant_weights(user_id, experiment_id)` returns: None for no variant or an empty name. */
  function VariantWeights(
    experiments: map<int, Experiment>, active: set<int>,
    hash: string -> nat, userId: int, experimentId: int): Result<Option<map<string, real>>>
  {
    match UserVariant(experiments, active, hash, userId, experimentId)
    case Err(e) => Err(e)
    case Ok(None) => Ok(None)
    case Ok(Some(name)) =>
      if name == "" then Ok(None) else Ok(WeightsNamed(experiments[experimentId].variants, name))
  }

  predicate DistinctNames(variants: seq<Variant>) {
    forall i, j :: 0 <= i < j < |variants| ==> variants[i].name != variants[j].name
  }

  /**
   * A user chosen a variant with a non-empty name always gets weights; with
   * distinct names they are the weights of the variant the bucket chose.
   */
  lemma WeightsOfAssignedVariant(
    experiments: map<int, Experiment>, active: set<int>,
    hash: string -> nat, userId: int, experimentId: int)
    requires experimentId in active && experimentId in experiments
    requires FirstCovering(experiments[experimentId].variants, Bucket(hash, userId, experimentId), 0).Some?
    requires experiments[experimentId].variants[
      FirstCovering(experiments[experimentId].variants, Bucket(hash, userId, experimentId), 0).value].name != ""
    ensures VariantWeights(experiments, active, hash, userId, experimentId).Ok?
    ensures VariantWeights(experiments, active, hash, userId, experimentId).value.Some?
    ensures DistinctNames(experiments[experimentId].variants) ==>
      VariantWeights(experiments, active, hash, userId, experimentId).value.value ==
        experiments[experimentId].variants[
          FirstCovering(experiments[experimentId].variants, Bucket(hash, userId, experimentId), 0).value].algorithmWeights
  {
    var variants := experiments[experimentId].variants;
    var i := FirstCovering(variants, Bucket(hash, userId, experimentId), 0).value;
    assert FirstNamed(variants, variants[i].name, 0).Some?;
  }

  // ---------------------------------------------------------------------
  // Result counters

  /** The identity of one `ABTestResult` row. */
  datatype ResultKey = ResultKey(experimentId: int, userId: int, variant: string)

  /** The metric columns of one stored `ABTestResult` row. */
  datatype Counters = Counters(
    recommendationsShown: int, clicks: int, purchases: int, revenue: real,
    custom: map<string, real>)

  /** The column defaults a row receives when it is first written. */
  const Zero := Counters(0, 0, 0, 0.0, map[])

  /** The event types that update a dedicated column rather than `custom_metrics`. */
  predicate IsCounterEvent(event: string) {
    event == "recommendation_shown" || event == "click" || event == "purchase"
  }

  /** The update `track_event` makes to an existing row for one event. */
  function Apply(c: Counters, event: string, value: real): Counters {
    if event == "recommendation_shown" then c.(recommendationsShown := c.recommendationsShown + Trunc(value))
    else if event == "click" then c.(clicks := c.clicks + 1)
    else if event == "purchase" then c.(purchases := c.purchases + 1, revenue := c.revenue + value)
    else c.(custom := c.custom[event := GetReal(c.custom, event) + value])
  }

  /**
   * The result table after one event for `key`, as written. A new row is
   * created without values in its metric columns (their defaults are only
   * filled in when the row is inserted at commit), so the `+=` on the
   * dedicated columns raises TypeError and the session is not committed. A
   * custom metric on a new row starts from an empty dictionary and commits.
   */
  function Track(records: map<ResultKey, Counters>, key: ResultKey, event: string, value: real)
    : Result<map<ResultKey, Counters>>
  {
    if key in records then Ok(records[key := Apply(records[key], event, value)])
    else if IsCounterEvent(event) then Err(TypeError)
    else Ok(records[key := Apply(Zero, event, value)])
  }

  /** The result table after one event with new rows starting from the column defaults. */
  function TrackFromZero(records: map<ResultKey, Counters>, key: ResultKey, event: string, value: real)
    : map<ResultKey, Counters>
  {
    records[key := Apply(if key in records then records[key] else Zero, event, value)]
  }

  /** What `track_event` does to the result table: Ok(table) to commit, or the error it raises. */
  function TrackedEvent(
    experiments: map<int, Experiment>, active: set<int>, records: map<ResultKey, Counters>,
    hash: string -> nat, userId: int, experimentId: int, event: string, value: real)
    : Result<map<ResultKey, Counters>>
  {
    match UserVariant(experiments, active, hash, userId, experimentId)
    case Err(e) => Err(e)
    case Ok(None) => Ok(records)
    case Ok(Some(name)) =>
      if name == "" then Ok(records)
      else Track(records, ResultKey(experimentId, userId, name), event, value)
  }

  /** The first click, purchase or shown-recommendation event of a user in a variant raises TypeError. */
  lemma FirstCounterEventFails(records: map<ResultKey, Counters>, key: ResultKey, event: string, value: real)
    requires key !in records && IsCounterEvent(event)
    ensures Track(records, key, event, value) == Err(TypeError)
    ensures event == "click" ==> TrackFromZero(records, key, event, value)[key].clicks == 1
    ensures event == "purchase" ==> TrackFromZero(records, key, event, value)[key].purchases == 1
  {
  }

  /** On every other path the code as written and the zero-initialised update agree. */
  lemma TrackAgrees(records: map<ResultKey, Counters>, key: ResultKey, event: string, value: real)
    requires key in records || !IsCounterEvent(event)
    ensures Track(records, key, event, value) == Ok(TrackFromZero(records, key, event, value))
  {
  }

  /** One tracked event: its type and value. */
  datatype Event = Event(kind: string, value: real)

  /** The row after a sequence of events applied to `c` in order. */
  function ApplyAll(c: Counters, events: seq<Event>): Counters {
    if events == [] then c
    else
      var last := events[|events| - 1];
      Apply(ApplyAll(c, events[..|events| - 1]), last.kind, last.value)
  }

  function CountKind(events: seq<Event>, kind: string): nat {
    if events == [] then 0
    else CountKind(events[..|events| - 1], kind) + (if events[|events| - 1].kind == kind then 1 else 0)
  }

  function SumValues(events: seq<Event>, kind: string): real {
    if events == [] then 0.0
    else SumValues(events[..|events| - 1], kind) + (if events[|events| - 1].kind == kind then events[|events| - 1].value else 0.0)
  }

  function SumShown(events: seq<Event>): int {
    if events == [] then 0
    else
      var last := events[|events| - 1];
      SumShown(events[..|events| - 1]) + (if last.kind == "recommendation_shown" then Trunc(last.value) else 0)
  }

  /**
   * Each dedicated column counts only its own events: clicks and purchases
   * count their events, revenue sums purchase values, and the shown count
   * sums the truncated values of shown events.
   */
  lemma {:induction false} ApplyAllCounters(c: Counters, events: seq<Event>)
    ensures ApplyAll(c, events).clicks == c.clicks + CountKind(events, "click")
    ensures ApplyAll(c, events).purchases == c.purchases + CountKind(events, "purchase")
    ensures ApplyAll(c, events).revenue == c.revenue + SumValues(events, "purchase")
    ensures ApplyAll(c, events).recommendationsShown == c.recommendationsShown + SumShown(events)
  {
    if events != [] {
      ApplyAllCounters(c, events[..|events| - 1]);
    }
  }

  /** A custom metric accumulates the values of its own events and of nothing else. */
  lemma {:induction false} ApplyAllCustom(c: Counters, events: seq<Event>, kind: string)
    requires !IsCounterEvent(kind)
    ensures GetReal(ApplyAll(c, events).custom, kind) == GetReal(c.custom, kind) + SumValues(events, kind)
  {
    if events != [] {
      ApplyAllCustom(c, events[..|events| - 1], kind);
    }
  }

  /** The result table after a sequence of events for one key, each applied by `TrackFromZero`. */
  function TrackAllFromZero(records: map<ResultKey, Counters>, key: ResultKey, events: seq<Event>): map<ResultKey, Counters> {
    if events == [] then records
    else
      var last := events[|events| - 1];
      TrackFromZero(TrackAllFromZero(records, key, events[..|events| - 1]), key, last.kind, last.value)
  }

  /**
   * With new rows starting from the column defaults, a user's row after a
   * sequence of events holds exactly the counts of those events, the first
   * one included, and no other row changes.
   */
  lemma {:induction false} TrackFromZeroCounts(records: map<ResultKey, Counters>, key: ResultKey, events: seq<Event>)
    requires key !in records && events != []
    ensures key in TrackAllFromZero(records, key, events)
    ensures TrackAllFromZero(records, key, events)[key] == ApplyAll(Zero, events)
    ensures TrackAllFromZero(records, key, events)[key].clicks == CountKind(events, "click")
    ensures TrackAllFromZero(records, key, events)[key].purchases == CountKind(events, "purchase")
    ensures TrackAllFromZero(records, key, events) - {key} == records
  {
    var init := events[..|events| - 1];
    if init != [] {
      TrackFromZeroCounts(records, key, init);
    } else {
      assert ApplyAll(Zero, init) == Zero;
    }
    ApplyAllCounters(Zero, events);
  }

  // ---------------------------------------------------------------------
  // Lift

  /** A conversion rate: conversions over users, with at least one user in the denominator. */
  function Rate(conversions: int, total: int): real {
    (conversions as real) / (if total < 1 then 1.0 else total as real)
  }

  /** The percentage lift of the variant's conversion rate over the control's, with the control rate floored at 0.001. */
  function Lift(controlConversions: int, controlTotal: int, variantConversions: int, variantTotal: int): real {
    (Rate(variantConversions, variantTotal) - Rate(controlConversions, controlTotal))
      / MaxReal(Rate(controlConversions, controlTotal), 0.001) * 100.0
  }

  /** The lift has the sign of the difference between the variant's rate and the control's. */
  lemma LiftSign(cc: int, ct: int, vc: int, vt: int)
    ensures Lift(cc, ct, vc, vt) > 0.0 <==> Rate(vc, vt) > Rate(cc, ct)
    ensures Lift(cc, ct, vc, vt) == 0.0 <==> Rate(vc, vt) == Rate(cc, ct)
    ensures Lift(cc, ct, vc, vt) < 0.0 <==> Rate(vc, vt) < Rate(cc, ct)
  {
    var d := Rate(vc, vt) - Rate(cc, ct);
    var m := MaxReal(Rate(cc, ct), 0.001);
    assert m > 0.0;
    QuotientSign(d, m);
  }

  lemma QuotientSign(d: real, m: real)
    requires m > 0.0
    ensures d / m * 100.0 > 0.0 <==> d > 0.0
    ensures d / m * 100.0 == 0.0 <==> d == 0.0
    ensures d / m * 100.0 < 0.0 <==> d < 0.0
  {
  }

  /** Once the control rate reaches 0.001 the lift is the relative change in percent. */
  lemma LiftRelative(cc: int, ct: int, vc: int, vt: int)
    requires Rate(cc, ct) >= 0.001
    ensures Lift(cc, ct, vc, vt) == (Rate(vc, vt) / Rate(cc, ct) - 1.0) * 100.0
  {
    RelativeChange(Rate(vc, vt), Rate(cc, ct));
  }

  lemma RelativeChange(v: real, c: real)
    requires c > 0.0
    ensures (v - c) / c == v / c - 1.0
  {
    assert (v - c) / c == v / c - c / c;
  }

  // ---------------------------------------------------------------------
  // Auto-stop

  /** The per-variant statistics `auto_stop_experiment` inspects; `significant` and `lift` are absent for the control. */
  datatype VariantSummary = VariantSummary(name: string, users: int, significant: Option<bool>, lift: Option<real>)

  /** A variant that justifies stopping: significant, more than 10% lift, more than 100 users. */
  predicate StopsExperiment(s: VariantSummary) {
    s.significant == Some(true) && s.lift.Some? && s.lift.value > 10.0 && s.users > 100
  }

  /**
   * The metric update of `track_event` on one row, field by field as the
   * ORM assigns them; `Apply` is its specification.
   */
  method UpdateRow(row: Counters, event: string, value: real) returns (updated: Counters)
    ensures updated == Apply(row, event, value)
  {
    updated := row;
    if event == "recommendation_shown" {
      updated := updated.(recommendationsShown := updated.recommendationsShown + Trunc(value));
    } else if event == "click" {
      updated := updated.(clicks := updated.clicks + 1);
    } else if event == "purchase" {
      updated := updated.(purchases := updated.purchases + 1, revenue := updated.revenue + value);
    } else {
      updated := updated.(custom := updated.custom[event := GetReal(updated.custom, event) + value]);
    }
  }

  /** The scan of `get_variant_weights` for the variant carrying `name`. */
  method FindWeights(variants: seq<Variant>, name: string) returns (weights: Option<map<string, real>>)
    ensures weights == WeightsNamed(variants, name)
  {
    for i := 0 to |variants|
      invariant FirstNamed(variants, name, 0) == FirstNamed(variants, name, i)
    {
      if variants[i].name == name {
        return Some(variants[i].algorithmWeights);
      }
    }
    weights := None;
  }

  // ---------------------------------------------------------------------
  // The framework

  class ABTestingFramework {
    /** The experiment table, by id. */
    var experiments: map<int, Experiment>
    /** `active_experiments`: the ids the framework serves variants for. */
    var active: set<int>
    /** The result table. */
    var results: map<ResultKey, Counters>
    /** The id the database gives the next new experiment. */
    var nextId: int

    /** The active experiments are exactly the running ones, and new ids are unused. */
    ghost predicate Valid()
      reads this
    {
      (forall id :: id in active <==> id in experiments && experiments[id].status == Running)
      && (forall id :: id in experiments ==> id < nextId)
    }

    /** Loads the running experiments as the active set. */
    constructor (stored: map<int, Experiment>, records: map<ResultKey, Counters>)
      ensures experiments == stored && results == records
      ensures active == set id | id in stored && stored[id].status == Running
      ensures Valid()
    {
      var next := 1;
      var remaining := stored.Keys;
      while remaining != {}
        invariant remaining <= stored.Keys
        invariant forall id :: id in stored && id !in remaining ==> id < next
        decreases |remaining|
      {
        NonEmpty(remaining);
        var id :| id in remaining;
        if id >= next {
          next := id + 1;
        }
        remaining := remaining - {id};
      }
      experiments := stored;
      results := records;
      active := set id | id in stored && stored[id].status == Running;
      nextId := next;
    }

    /**
     * `create_experiment`: rejects percentages that do not sum to 100 within
     * 0.01, otherwise stores a draft experiment ending `durationDays` from now.
     * Every bucket of an accepted experiment reaches a covering variant.
     */
    method CreateExperiment(
      name: string, description: string, variants: seq<Variant>, metrics: seq<string>,
      durationDays: int, now: int) returns (r: Result<int>)
      requires Valid()
      modifies this
      ensures Valid()
      ensures r.Err? <==> !TrafficValid(variants)
      ensures r.Err? ==> r.error.ValueError? && unchanged(this)
      ensures r.Ok? ==> r.value !in old(experiments)
      ensures r.Ok? ==> experiments == old(experiments)[r.value :=
        Experiment(name, description, Draft, variants, metrics, None, Some(now + durationDays * Day))]
      ensures active == old(active) && results == old(results)
      ensures r.Ok? ==> forall b: nat :: b < 100 ==> FirstCovering(variants, b, 0).Some?
    {
      var total := 0.0;
      for i := 0 to |variants|
        invariant total == Cumulative(variants, i)
      {
        total := total + variants[i].trafficPercentage;
      }
      if AbsReal(total - 100.0) > 0.01 {
        return Err(ValueError("Traffic percentages must sum to 100"));
      }
      forall b: nat | b < 100 ensures FirstCovering(variants, b, 0).Some? {
        FallbackUnreachable(variants, b);
      }
      var id := nextId;
      experiments := experiments[id := Experiment(name, description, Draft, variants, metrics, None, Some(now + durationDays * Day))];
      nextId := nextId + 1;
      r := Ok(id);
    }

    /** `start_experiment`: an unknown id raises ValueError; otherwise the experiment runs from `now` and is active. */
    method StartExperiment(experimentId: int, now: int) returns (r: Outcome)
      requires Valid()
      modifies this
      ensures Valid()
      ensures r.Fail? <==> experimentId !in old(experiments)
      ensures r.Fail? ==> r.error.ValueError? && unchanged(this)
      ensures r.Pass? ==> experiments == old(experiments)[experimentId :=
        old(experiments)[experimentId].(status := Running, startDate := Some(now))]
      ensures r.Pass? ==> active == old(active) + {experimentId}
      ensures results == old(results) && nextId == old(nextId)
    {
      if experimentId !in experiments {
        return Fail(ValueError("Experiment " + IntToString(experimentId) + " not found"));
      }
      experiments := experiments[experimentId := experiments[experimentId].(status := Running, startDate := Some(now))];
      active := active + {experimentId};
      r := Pass;
    }

    /**
     * `get_user_variant`: None for an experiment that is not active,
     * otherwise the first variant whose running percentage exceeds the
     * user's bucket, falling back to the first variant.
     */
    method GetUserVariant(userId: int, experimentId: int, hash: string -> nat) returns (r: Result<Option<string>>)
      requires Valid()
      ensures r == UserVariant(experiments, active, hash, userId, experimentId)
      ensures experimentId !in active ==> r == Ok(None)
      ensures experimentId in active && TrafficValid(experiments[experimentId].variants) ==>
        r.Ok? && r.value.Some?
        && FirstCovering(experiments[experimentId].variants, Bucket(hash, userId, experimentId), 0).Some?
        && r.value.value == experiments[experimentId].variants[
          FirstCovering(experiments[experimentId].variants, Bucket(hash, userId, experimentId), 0).value].name
    {
      if experimentId !in active {
        return Ok(None);
      }
      var variants := experiments[experimentId].variants;
      var b := Bucket(hash, userId, experimentId);
      if TrafficValid(variants) {
        FallbackUnreachable(variants, b);
      }
      var name := ScanVariants(variants, b);
      if name.Err? {
        return Err(name.error);
      }
      r := Ok(Some(name.value));
    }

    /** `get_variant_weights`: the weights of the first variant carrying the user's variant name. */
    method GetVariantWeights(userId: int, experimentId: int, hash: string -> nat)
      returns (r: Result<Option<map<string, real>>>)
      requires Valid()
      ensures r == VariantWeights(experiments, active, hash, userId, experimentId)
    {
      var chosen := GetUserVariant(userId, experimentId, hash);
      if chosen.Err? {
        return Err(chosen.error);
      }
      if chosen.value.None? || chosen.value.value == "" {
        return Ok(None);
      }
      var weights := FindWeights(experiments[experimentId].variants, chosen.value.value);
      r := Ok(weights);
    }

    /**
     * `track_event`: finds the user's variant and updates the (experiment,
     * user, variant) row for the event, or raises; a user with no variant is
     * not tracked.
     */
    method TrackEvent(userId: int, experimentId: int, event: string, value: real, hash: string -> nat)
      returns (r: Outcome)
      requires Valid()
      modifies this
      ensures Valid()
      ensures experiments == old(experiments) && active == old(active) && nextId == old(nextId)
      ensures TrackedEvent(old(experiments), old(active), old(results), hash, userId, experimentId, event, value).Ok? ==>
        r == Pass && results == TrackedEvent(old(experiments), old(active), old(results), hash, userId, experimentId, event, value).value
      ensures TrackedEvent(old(experiments), old(active), old(results), hash, userId, experimentId, event, value).Err? ==>
        r == Fail(TrackedEvent(old(experiments), old(active), old(results), hash, userId, experimentId, event, value).error)
        && results == old(results)
    {
      var chosen := GetUserVariant(userId, experimentId, hash);
      if chosen.Err? {
        return Fail(chosen.error);
      }
      if chosen.value.None? || chosen.value.value == "" {
        return Pass;
      }
      var key := ResultKey(experimentId, userId, chosen.value.value);
      var row: Counters;
      if key in results {
        row := results[key];
      } else if IsCounterEvent(event) {
        return Fail(TypeError);
      } else {
        row := Zero;
      }
      row := UpdateRow(row, event, value);
      results := results[key := row];
      r := Pass;
    }

    /**
     * `auto_stop_experiment`: None for an unknown experiment; otherwise, if
     * some variant is significant with more than 10% lift and more than 100
     * users, completes the experiment, drops it from the active set and
     * answers true, and answers false otherwise.
     */
    method AutoStopExperiment(experimentId: int, summaries: seq<VariantSummary>) returns (r: Option<bool>)
      requires Valid()
      modifies this
      ensures Valid()
      ensures experimentId !in old(experiments) ==> r == None && unchanged(this)
      ensures experimentId in old(experiments) ==>
        r == Some(exists i :: 0 <= i < |summaries| && StopsExperiment(summaries[i]))
      ensures r == Some(true) ==>
        experiments == old(experiments)[experimentId := old(experiments)[experimentId].(status := Completed)]
        && active == old(active) - {experimentId}
      ensures r != Some(true) ==> unchanged(this)
      ensures results == old(results) && nextId == old(nextId)
    {
      if experimentId !in experiments {
        return None;
      }
      for i := 0 to |summaries|
        invariant forall j :: 0 <= j < i ==> !StopsExperiment(summaries[j])
      {
        if StopsExperiment(summaries[i]) {
          experiments := experiments[experimentId := experiments[experimentId].(status := Completed)];
          active := active - {experimentId};
          return Some(true);
        }
      }
      r := Some(false);
    }
  }
}
