/** The rule engine `get_causes`: it maps one sensor reading to the ordered
    list of cause tags of every rule that applies (not first-match-wins). */
module CauseRules {

  /** One row of the OBD data set: the ten classifier features and the
      reading's own timestamp (abstract here: only charts use it). */
  datatype Reading = Reading(
    timestamp: int,
    coolantTemp: real,        // Engine_Coolant_Temperature
    manifoldPressure: real,   // Intake_Manifold_Abs_Pressure
    rpm: real,                // Engine_RPM
    speed: real,              // Vehicle_Speed
    intakeAirTemp: real,      // Intake_Air_Temperature
    airflowRate: real,        // AirFlow_Rate
    throttle: real,           // Throttle_Position
    airTemp: real,            // Air_Temperature
    pedalD: real,             // Acc_Pedal_Pos_D
    pedalE: real)             // Acc_Pedal_Pos_E

  /** The multiplier `factor` of the stall rule. */
  const StallFactor: real := 70.0

  datatype Rule = Overheating | Stall | Blockage | IntakeAir | GearIssue

  /** The order in which the rules are evaluated and their tags listed. */
  const RuleOrder: seq<Rule> := [Overheating, Stall, Blockage, IntakeAir, GearIssue]

  function Rank(k: Rule): (i: nat)
    ensures i < |RuleOrder| && RuleOrder[i] == k
  {
    match k
    case Overheating => 0
    case Stall => 1
    case Blockage => 2
    case IntakeAir => 3
    case GearIssue => 4
  }

  /** The tags `get_causes` appends, indexed by rule rank. */
  const TagTable: seq<string> := [
    "Overheating (Coolant Temp > 100°C)",
    "RPM too low for throttle → possible stall",
    "High manifold pressure → possible blockage",
    "Abnormal intake air temperature",
    "Pedal pressed but vehicle not moving → possible gear issue"]

  function Tag(k: Rule): string {
    TagTable[Rank(k)]
  }

  /** The sentinel stored as `breakdown_cause` when no rule applies. */
  const NoCause: string := "None"

  lemma TagsDistinct(j: Rule, k: Rule)
    ensures Tag(j) == Tag(k) <==> j == k
    ensures Tag(k) != NoCause
  {
  }

  /** The speed gate of the first four rules. */
  predicate Moving(r: Reading) {
    r.speed > 1.0
  }

  /** The condition of each rule, stated on its own. */
  predicate Holds(k: Rule, r: Reading) {
    match k
    case Overheating => Moving(r) && r.coolantTemp > 100.0
    case Stall => Moving(r) && r.throttle < 70.0 && r.rpm < r.throttle * StallFactor
    case Blockage => Moving(r) && r.manifoldPressure > 220.0
    case IntakeAir => Moving(r) && (r.intakeAirTemp > 120.0 || r.intakeAirTemp < -20.0)
    case GearIssue => r.pedalD > 30.0 && r.speed < 5.0
  }

  /** The rules of `rules` that hold of `r`, in the order given. */
  function Fired(rules: seq<Rule>, r: Reading): (f: seq<Rule>)
    ensures |f| <= |rules|
    ensures forall k :: k in f <==> k in rules && Holds(k, r)
  {
    if rules == [] then []
    else Opt(rules[0], r) + Fired(rules[1..], r)
  }

  function Tags(rules: seq<Rule>): (tags: seq<string>)
    ensures |tags| == |rules|
  {
    seq(|rules|, i requires 0 <= i < |rules| => Tag(rules[i]))
  }

  /** The reference definition of `get_causes`: the rule table filtered by
      the reading, then mapped to tags. */
  function Causes(r: Reading): seq<string> {
    Tags(Fired(RuleOrder, r))
  }

  /** `get_causes(row)`: evaluates every rule in turn and appends its tag. */
  method GetCauses(r: Reading) returns (causes: seq<string>)
    ensures causes == Causes(r)
  {
    TagIfUnfolded(Overheating, r);
    TagIfUnfolded(Stall, r);
    TagIfUnfolded(Blockage, r);
    TagIfUnfolded(IntakeAir, r);
    TagIfUnfolded(GearIssue, r);
    causes := [];
    if r.speed > 1.0 {
      if r.coolantTemp > 100.0 {
        causes := causes + [Tag(Overheating)];
      }
      ghost var upTo := TagIf(Overheating, r);
      assert causes == upTo;
      if r.throttle < 70.0 && r.rpm < r.throttle * StallFactor {
        causes := causes + [Tag(Stall)];
      }
      upTo := upTo + TagIf(Stall, r);
      assert causes == upTo;
      if r.manifoldPressure > 220.0 {
        causes := causes + [Tag(Blockage)];
      }
      upTo := upTo + TagIf(Blockage, r);
      assert causes == upTo;
      if r.intakeAirTemp > 120.0 || r.intakeAirTemp < -20.0 {
        causes := causes + [Tag(IntakeAir)];
      }
    }
    assert causes == TagIf(Overheating, r) + TagIf(Stall, r) + TagIf(Blockage, r) + TagIf(IntakeAir, r);
    if r.pedalD > 30.0 && r.speed < 5.0 {
      causes := causes + [Tag(GearIssue)];
    }
    CausesUnfolded(r);
  }

  /** The tag one rule contributes to the list. */
  function TagIf(k: Rule, r: Reading): seq<string> {
    Tags(Opt(k, r))
  }

  lemma TagIfUnfolded(k: Rule, r: Reading)
    ensures TagIf(k, r) == if Holds(k, r) then [Tag(k)] else []
  {
    if Holds(k, r) {
      assert Tags([k])[0] == Tag(k);
    }
  }

  lemma CausesUnfolded(r: Reading)
    ensures Causes(r) ==
      TagIf(Overheating, r) + TagIf(Stall, r) + TagIf(Blockage, r) + TagIf(IntakeAir, r) + TagIf(GearIssue, r)
  {
    FiredInRuleOrder(r);
    var o, s, b, i, g := Opt(Overheating, r), Opt(Stall, r), Opt(Blockage, r), Opt(IntakeAir, r), Opt(GearIssue, r);
    TagsAppend(o + s + b + i, g);
    TagsAppend(o + s + b, i);
    TagsAppend(o + s, b);
    TagsAppend(o, s);
  }

  /** `causes[0] if causes else "None"`: the first tag, or the sentinel for
      an empty list. */
  function PrimaryCause(causes: seq<string>): (primary: string)
    ensures causes != [] ==> primary == causes[0]
    ensures causes == [] ==> primary == NoCause
  {
    if causes != [] then causes[0] else NoCause
  }

  /** The contribution of one rule: its name if it holds. */
  function Opt(k: Rule, r: Reading): seq<Rule> {
    if Holds(k, r) then [k] else []
  }

  lemma TagsAppend(a: seq<Rule>, b: seq<Rule>)
    ensures Tags(a + b) == Tags(a) + Tags(b)
  {
  }

  lemma {:induction false} FiredSnoc(rules: seq<Rule>, k: Rule, r: Reading)
    ensures Fired(rules + [k], r) == Fired(rules, r) + Opt(k, r)
    decreases |rules|
  {
    if rules == [] {
      assert [] + [k] == [k];
      assert Fired([k], r) == Opt(k, r) + Fired([], r);
    } else {
      assert (rules + [k])[1..] == rules[1..] + [k];
      FiredSnoc(rules[1..], k, r);
      assert Fired(rules + [k], r) == Opt(rules[0], r) + (Fired(rules[1..], r) + Opt(k, r));
    }
  }

  /** The filter over the five rules, unfolded one rule at a time. */
  lemma FiredInRuleOrder(r: Reading)
    ensures Fired(RuleOrder, r) ==
      Opt(Overheating, r) + Opt(Stall, r) + Opt(Blockage, r) + Opt(IntakeAir, r) + Opt(GearIssue, r)
  {
    FiredSnoc([], Overheating, r);
    FiredSnoc([Overheating], Stall, r);
    FiredSnoc([Overheating, Stall], Blockage, r);
    FiredSnoc([Overheating, Stall, Blockage], IntakeAir, r);
    FiredSnoc([Overheating, Stall, Blockage, IntakeAir], GearIssue, r);
    assert [] + [Overheating] == [Overheating];
    assert [Overheating] + [Stall] == [Overheating, Stall];
    assert [Overheating, Stall] + [Blockage] == [Overheating, Stall, Blockage];
    assert [Overheating, Stall, Blockage] + [IntakeAir] == [Overheating, Stall, Blockage, IntakeAir];
    assert [Overheating, Stall, Blockage, IntakeAir] + [GearIssue] == RuleOrder;
  }

  /** A rule's tag is listed exactly when its condition holds. */
  lemma CauseListedIffRuleHolds(r: Reading, k: Rule)
    ensures Tag(k) in Causes(r) <==> Holds(k, r)
  {
    var f := Fired(RuleOrder, r);
    if Tag(k) in Causes(r) {
      var i :| 0 <= i < |f| && Tags(f)[i] == Tag(k);
      TagsDistinct(f[i], k);
      assert f[i] in f;
    }
    if Holds(k, r) {
      assert RuleOrder[Rank(k)] == k;
      assert k in f;
      var i :| 0 <= i < |f| && f[i] == k;
      assert Tags(f)[i] == Tag(k);
    }
  }

  predicate StrictlyRanked(rules: seq<Rule>) {
    forall i, j :: 0 <= i < j < |rules| ==> Rank(rules[i]) < Rank(rules[j])
  }

  lemma {:induction false} FiredKeepsOrder(rules: seq<Rule>, r: Reading)
    requires StrictlyRanked(rules)
    ensures StrictlyRanked(Fired(rules, r))
    decreases |rules|
  {
    if rules != [] {
      var rest := Fired(rules[1..], r);
      FiredKeepsOrder(rules[1..], r);
      forall k | k in rest ensures Rank(rules[0]) < Rank(k) {
        var j :| 0 <= j < |rules[1..]| && rules[1..][j] == k;
        assert rules[j + 1] == k;
      }
    }
  }

  /** `get_causes` lists the tags of the rules that fire in the fixed order
      overheating, stall, blockage, intake air, gear issue, each at most once. */
  lemma CausesInRuleOrder(r: Reading)
    ensures |Causes(r)| <= 5
    ensures StrictlyRanked(Fired(RuleOrder, r))
    ensures forall i, j :: 0 <= i < j < |Causes(r)| ==> Causes(r)[i] != Causes(r)[j]
  {
    var f := Fired(RuleOrder, r);
    FiredKeepsOrder(RuleOrder, r);
    forall i, j | 0 <= i < j < |Causes(r)| ensures Causes(r)[i] != Causes(r)[j] {
      TagsDistinct(f[i], f[j]);
    }
  }

  /** A stationary vehicle with the pedal released yields no cause. */
  lemma NoCauseWhenStationaryAndPedalReleased(r: Reading)
    requires r.speed <= 1.0 && r.pedalD <= 30.0
    ensures Causes(r) == []
  {
    FiredInRuleOrder(r);
  }

  /** Below the speed gate only the gear-issue rule can fire. */
  lemma StationaryOnlyGearIssue(r: Reading)
    requires r.speed <= 1.0
    ensures Causes(r) == if r.pedalD > 30.0 then [Tag(GearIssue)] else []
  {
    FiredInRuleOrder(r);
  }

  /** A moving vehicle with coolant above 100 reports overheating first, so
      overheating is its primary cause whatever else fires. */
  lemma OverheatingIsPrimary(r: Reading)
    requires r.speed > 1.0 && r.coolantTemp > 100.0
    ensures |Causes(r)| > 0 && Causes(r)[0] == Tag(Overheating)
    ensures PrimaryCause(Causes(r)) == Tag(Overheating)
  {
    FiredInRuleOrder(r);
  }

  /** The first rule `Fired` keeps is the first in `rules` that holds. */
  lemma {:induction false} FirstFired(rules: seq<Rule>, r: Reading)
    requires Fired(rules, r) != []
    ensures exists j :: 0 <= j < |rules| && rules[j] == Fired(rules, r)[0] && Holds(rules[j], r) &&
                        forall i :: 0 <= i < j ==> !Holds(rules[i], r)
    decreases |rules|
  {
    if !Holds(rules[0], r) {
      assert Fired(rules, r) == Fired(rules[1..], r);
      FirstFired(rules[1..], r);
      var j :| 0 <= j < |rules[1..]| && rules[1..][j] == Fired(rules[1..], r)[0] && Holds(rules[1..][j], r) &&
        forall i :: 0 <= i < j ==> !Holds(rules[1..][i], r);
      assert forall i :: 0 <= i < j + 1 ==> !Holds(rules[i], r) by {
        forall i | 0 <= i < j + 1 ensures !Holds(rules[i], r) {
          if i > 0 {
            assert rules[i] == rules[1..][i - 1];
          }
        }
      }
      assert rules[j + 1] == rules[1..][j];
    }
  }

  /** The primary cause is "None" exactly when no rule fires, and otherwise
      the tag of the first rule in evaluation order that fires. */
  lemma PrimaryCauseIsFirstFiringRule(r: Reading)
    ensures PrimaryCause(Causes(r)) == NoCause <==> forall k :: !Holds(k, r)
    ensures PrimaryCause(Causes(r)) != NoCause ==>
              exists j :: 0 <= j < |RuleOrder| && Holds(RuleOrder[j], r) &&
                          PrimaryCause(Causes(r)) == Tag(RuleOrder[j]) &&
                          forall i :: 0 <= i < j ==> !Holds(RuleOrder[i], r)
  {
    var f := Fired(RuleOrder, r);
    if f == [] {
      forall k ensures !Holds(k, r) {
        assert RuleOrder[Rank(k)] == k;
      }
    } else {
      TagsDistinct(f[0], f[0]);
      assert f[0] in f;
      assert PrimaryCause(Causes(r)) == Tag(f[0]);
      FirstFired(RuleOrder, r);
    }
  }

  /** The worked example: a hot engine at speed 60 with too few RPM for
      its throttle yields overheating then stall. */
  lemma HotEngineExample()
    ensures var r := Reading(0, 105.0, 200.0, 1000.0, 60.0, 30.0, 0.0, 50.0, 0.0, 0.0, 0.0);
      Causes(r) == [Tag(Overheating), Tag(Stall)] &&
      PrimaryCause(Causes(r)) == "Overheating (Coolant Temp > 100°C)"
  {
    FiredInRuleOrder(Reading(0, 105.0, 200.0, 1000.0, 60.0, 30.0, 0.0, 50.0, 0.0, 0.0, 0.0));
  }
}
