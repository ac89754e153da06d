/** How skill phrases turn into skill values: the "raise to at least" and
    flat-bonus rules of `LearnOrAdvance`, the order in which `ParseSkills`
    applies them, and the whole sequence as a function of the record list. */
module Stacking {
  import opened Wrappers
  import opened Catalog
  import opened Phrases
  import opened SkillStore

  /** The occupational ladder: one value per occupational slot, the slot
      after the last occupational phrase going to Credit Rating. */
  const OccupationalValues: seq<int> := [70, 60, 60, 50, 50, 50, 40, 40, 40]

  /** The skill that always takes the slot after the occupational list. */
  const CreditRating: string := "Credit Rating"

  /** The flat bonus of each non-occupational phrase. */
  const InterestBonus: int := 20

  // ---------------------------------------------------------------------------
  // The two rules
  // ---------------------------------------------------------------------------

  /** The raise step of `LearnOrAdvance`, as written: nothing if the value
      already reaches the target; the exact difference if no bonus has been
      given yet; otherwise the difference less the bonus already given, which
      leaves the value at the target less that old bonus. */
  function Raise(s: SkillState, finalValue: int): (r: SkillState)
    ensures r.skillName == s.skillName && r.specialization == s.specialization
    ensures r.initialValue == s.initialValue
    ensures s.Value() >= finalValue ==> r == s
    ensures s.Value() < finalValue && s.bonuses == 0 ==> r.Value() == finalValue
    ensures s.Value() < finalValue && s.bonuses != 0 ==> r.Value() == finalValue - s.bonuses
  {
    if s.Value() >= finalValue then s
    else if s.bonuses == 0 then s.(bonuses := finalValue - s.initialValue)
    else s.(bonuses := finalValue - s.initialValue - s.bonuses)
  }

  /** One call of `LearnOrAdvance` on the record it resolved to: the raise
      step when the target is non-zero, then the flat bonus when non-zero. */
  function Advance(s: SkillState, finalValue: int, bonus: int): (r: SkillState)
    ensures r.skillName == s.skillName && r.specialization == s.specialization
    ensures r.initialValue == s.initialValue
    ensures finalValue == 0 ==> r.bonuses == s.bonuses + bonus
    ensures finalValue != 0 ==> r.bonuses == Raise(s, finalValue).bonuses + bonus
  {
    var raised := if finalValue != 0 then Raise(s, finalValue) else s;
    if bonus != 0 then raised.(bonuses := raised.bonuses + bonus) else raised
  }

  /** The rule the raise step stands for: top the value up to the target. */
  function RaiseToAtLeast(s: SkillState, finalValue: int): (r: SkillState)
  {
    if s.Value() >= finalValue then s else s.(bonuses := finalValue - s.initialValue)
  }

  /** On a record without bonuses, or one already at the target, the raise
      step is exactly "raise to at least": the new value is the larger of
      the old value and the target, and a second identical raise changes
      nothing. */
  lemma RaiseFromFresh(s: SkillState, finalValue: int)
    requires s.bonuses == 0 || s.Value() >= finalValue
    ensures Raise(s, finalValue) == RaiseToAtLeast(s, finalValue)
    ensures Raise(s, finalValue).Value() == if s.Value() >= finalValue then s.Value() else finalValue
    ensures Raise(Raise(s, finalValue), finalValue) == Raise(s, finalValue)
  {
  }

  /** On a record below the target that already carries a positive bonus,
      the raise step is not idempotent: applying it twice restores the
      record, and the first application leaves the value short of the
      target by the old bonus. */
  lemma RaiseLayeredIsInvolution(s: SkillState, finalValue: int)
    requires s.Value() < finalValue && s.bonuses > 0
    ensures Raise(s, finalValue).Value() == finalValue - s.bonuses < finalValue
    ensures Raise(Raise(s, finalValue), finalValue) == s
  {
  }

  /** Initial 20: raise to 50 gives bonus 30 (value 50); raising that to 70
      gives bonus 70 - 20 - 30 = 20 and value 40, below both targets, and
      raising to 70 once more brings back bonus 30. */
  lemma RaiseStackingExample()
    ensures var start := SkillState("Occult", None, 20, 0);
            var once := Raise(start, 50);
            var twice := Raise(once, 70);
            && once.bonuses == 30 && once.Value() == 50
            && twice.bonuses == 20 && twice.Value() == 40
            && Raise(twice, 70) == once
  {
  }

  /** A raise to 60 on a fresh record with initial value 20 gives bonus 40,
      and the second raise to 60 is a no-op. */
  lemma RaiseIdempotenceExample()
    ensures var start := SkillState("Spot Hidden", None, 20, 0);
            Raise(start, 60).bonuses == 40 && Raise(Raise(start, 60), 60).bonuses == 40
  {
  }

  /** A flat bonus adds exactly its amount, on top of an earlier raise. */
  lemma FlatBonusAfterRaise(s: SkillState, bonus: int)
    ensures Advance(s, 0, bonus) == s.(bonuses := s.bonuses + bonus)
    ensures Advance(SkillState("Spot Hidden", None, 20, 30), 0, InterestBonus).bonuses == 50
  {
  }

  // ---------------------------------------------------------------------------
  // Processing order
  // ---------------------------------------------------------------------------

  /** One call of `LearnOrAdvance`: the phrase, the target and the bonus. */
  datatype Step = Step(phrase: string, finalValue: int, bonus: int)

  /** The occupational phrases against the ladder, the k-th against the
      k-th value. */
  function OccupationalSteps(occupational: seq<string>): (p: seq<Step>)
    requires |occupational| < |OccupationalValues|
    ensures |p| == |occupational|
    ensures forall k :: 0 <= k < |occupational| ==> p[k] == Step(occupational[k], OccupationalValues[k], 0)
  {
    seq(|occupational|, k requires 0 <= k < |occupational| => Step(occupational[k], OccupationalValues[k], 0))
  }

  /** The non-occupational phrases, each with the flat bonus. */
  function InterestSteps(nonOccupational: seq<string>): (p: seq<Step>)
    ensures |p| == |nonOccupational|
    ensures forall k :: 0 <= k < |nonOccupational| ==> p[k] == Step(nonOccupational[k], 0, InterestBonus)
  {
    seq(|nonOccupational|, k requires 0 <= k < |nonOccupational| => Step(nonOccupational[k], 0, InterestBonus))
  }

  /** The Credit Rating call after `n` occupational phrases. */
  function CreditStep(n: nat): Step
    requires n < |OccupationalValues|
  {
    Step(CreditRating, OccupationalValues[n], 0)
  }

  /** The calls `ParseSkills` makes, in order: the k-th occupational phrase
      against the k-th ladder value, Credit Rating against the next one, then
      every non-occupational phrase with the flat bonus. The occupational
      list may hold at most eight phrases, or the Credit Rating slot would
      fall off the ladder. */
  function Plan(occupational: seq<string>, nonOccupational: seq<string>): (p: seq<Step>)
    requires |occupational| < |OccupationalValues|
    ensures |p| == |occupational| + 1 + |nonOccupational|
    ensures forall k :: 0 <= k < |occupational| ==> p[k] == Step(occupational[k], OccupationalValues[k], 0)
    ensures p[|occupational|] == Step(CreditRating, OccupationalValues[|occupational|], 0)
    ensures forall k :: 0 <= k < |nonOccupational| ==>
              p[|occupational| + 1 + k] == Step(nonOccupational[k], 0, InterestBonus)
  {
    OccupationalSteps(occupational) + [CreditStep(|occupational|)] + InterestSteps(nonOccupational)
  }

  /** Every raise comes before every flat bonus, and the raise targets
      never go up along the plan. */
  lemma PlanOrder(occupational: seq<string>, nonOccupational: seq<string>)
    requires |occupational| < |OccupationalValues|
    ensures var p := Plan(occupational, nonOccupational);
            && (forall i, j :: 0 <= i < j < |p| && p[i].bonus != 0 ==> p[j].bonus != 0 && p[j].finalValue == 0)
            && (forall i, j :: 0 <= i < j < |p| && p[j].finalValue != 0 ==> p[j].finalValue <= p[i].finalValue)
            && (forall i :: 0 <= i < |p| ==> (p[i].finalValue != 0 <==> i <= |occupational|))
  {
    var p := Plan(occupational, nonOccupational);
    var n := |occupational|;
    forall i | 0 <= i < |p|
      ensures i <= n ==> p[i].finalValue == OccupationalValues[i] && p[i].bonus == 0
      ensures i > n ==> p[i].finalValue == 0 && p[i].bonus == InterestBonus
    {
      if i > n {
        assert p[n + 1 + (i - n - 1)] == Step(nonOccupational[i - n - 1], 0, InterestBonus);
      }
    }
  }

  // ---------------------------------------------------------------------------
  // The whole sequence on values
  // ---------------------------------------------------------------------------

  /** `LearnOrAdvance` on the record list: resolve the phrase (skip it if the
      catalog does not know it), fetch or create the record, advance it. */
  function Learn(rs: seq<SkillState>, dexterity: int, education: int, catalog: seq<SkillDef>, step: Step)
    : (r: seq<SkillState>)
    ensures |rs| <= |r| <= |rs| + 1
  {
    match Resolve(catalog, step.phrase)
    case None => rs
    case Some((def, spec)) =>
      var (grown, k) := Obtain(rs, def, spec, dexterity, education);
      grown[k := Advance(grown[k], step.finalValue, step.bonus)]
  }

  /** The steps applied one after the other. */
  function ApplySteps(rs: seq<SkillState>, dexterity: int, education: int, catalog: seq<SkillDef>, steps: seq<Step>)
    : (r: seq<SkillState>)
    ensures |rs| <= |r| <= |rs| + |steps|
  {
    if |steps| == 0 then rs
    else
      var n := |steps| - 1;
      Learn(ApplySteps(rs, dexterity, education, catalog, steps[..n]), dexterity, education, catalog, steps[n])
  }

  /** A step whose phrase resolves advances the first record with the
      resolved identity, or appends a new record advanced from its default. */
  lemma LearnResolved(rs: seq<SkillState>, dexterity: int, education: int, catalog: seq<SkillDef>,
                      step: Step, def: SkillDef, spec: Option<string>)
    requires Resolve(catalog, step.phrase) == Some((def, spec))
    ensures var r := Learn(rs, dexterity, education, catalog, step);
            match FindRecord(rs, def.name, spec)
            case Some(k) => r == rs[k := Advance(rs[k], step.finalValue, step.bonus)]
            case None => r == rs + [Advance(NewRecord(def, spec, dexterity, education), step.finalValue, step.bonus)]
  {
  }

  /** A phrase the catalog knows neither in full nor by its base name is
      skipped: the records stay as they are. */
  lemma LearnSkipsUnknown(rs: seq<SkillState>, dexterity: int, education: int, catalog: seq<SkillDef>, step: Step)
    requires forall k :: 0 <= k < |catalog| ==>
               catalog[k].name != step.phrase && catalog[k].name != ParsePhrase(step.phrase).0
    ensures Learn(rs, dexterity, education, catalog, step) == rs
  {
    ResolveFound(catalog, step.phrase);
  }

  /** One step only changes the record it resolves to, and appends at most
      one: every other record is kept, in place. */
  lemma LearnTouchesOne(rs: seq<SkillState>, dexterity: int, education: int, catalog: seq<SkillDef>, step: Step)
    ensures var r := Learn(rs, dexterity, education, catalog, step);
            forall i, j :: 0 <= i < j < |rs| ==> r[i] == rs[i] || r[j] == rs[j]
    ensures var r := Learn(rs, dexterity, education, catalog, step);
            forall i :: 0 <= i < |rs| ==>
              (r[i].skillName == rs[i].skillName && r[i].specialization == rs[i].specialization
               && r[i].initialValue == rs[i].initialValue)
  {
  }

  /** Each step keeps the record list a set under identity: the phrase's
      specialization is normalised before the record is fetched. */
  lemma LearnKeepsKeysUnique(rs: seq<SkillState>, dexterity: int, education: int, catalog: seq<SkillDef>, step: Step)
    requires KeysUnique(rs)
    ensures KeysUnique(Learn(rs, dexterity, education, catalog, step))
  {
    match Resolve(catalog, step.phrase)
    case None =>
    case Some((def, spec)) =>
      ObtainKeepsKeysUnique(rs, def, spec, dexterity, education);
  }

  lemma {:induction false} ApplyStepsKeepsKeysUnique(
    rs: seq<SkillState>, dexterity: int, education: int, catalog: seq<SkillDef>, steps: seq<Step>)
    requires KeysUnique(rs)
    ensures KeysUnique(ApplySteps(rs, dexterity, education, catalog, steps))
  {
    if |steps| > 0 {
      var n := |steps| - 1;
      ApplyStepsKeepsKeysUnique(rs, dexterity, education, catalog, steps[..n]);
      LearnKeepsKeysUnique(ApplySteps(rs, dexterity, education, catalog, steps[..n]),
                           dexterity, education, catalog, steps[n]);
    }
  }

  /** Applying two lists of steps is applying their concatenation. */
  lemma {:induction false} ApplyStepsAppend(
    rs: seq<SkillState>, dexterity: int, education: int, catalog: seq<SkillDef>, a: seq<Step>, b: seq<Step>)
    ensures ApplySteps(ApplySteps(rs, dexterity, education, catalog, a), dexterity, education, catalog, b)
            == ApplySteps(rs, dexterity, education, catalog, a + b)
    decreases |b|
  {
    if |b| == 0 {
      assert a + b == a;
    } else {
      var n := |b| - 1;
      var ab := a + b;
      var m := |a| + n;
      ApplyStepsAppend(rs, dexterity, education, catalog, a, b[..n]);
      assert ab[..m] == a + b[..n];
      assert ab[m] == b[n];
      assert ab[..m + 1] == ab;
      assert b[..n + 1] == b;
      ApplyStepsSnoc(ApplySteps(rs, dexterity, education, catalog, a), dexterity, education, catalog, b, n);
      ApplyStepsSnoc(rs, dexterity, education, catalog, ab, m);
    }
  }

  /** Applying one more step at the end. */
  lemma ApplyStepsOneMore(rs: seq<SkillState>, dexterity: int, education: int, catalog: seq<SkillDef>,
                          steps: seq<Step>, last: Step)
    ensures ApplySteps(rs, dexterity, education, catalog, steps + [last])
            == Learn(ApplySteps(rs, dexterity, education, catalog, steps), dexterity, education, catalog, last)
  {
    assert (steps + [last])[..|steps|] == steps;
  }

  /** Applying a plan one step further. */
  lemma ApplyStepsSnoc(rs: seq<SkillState>, dexterity: int, education: int, catalog: seq<SkillDef>,
                       steps: seq<Step>, k: nat)
    requires k < |steps|
    ensures ApplySteps(rs, dexterity, education, catalog, steps[..k + 1])
            == Learn(ApplySteps(rs, dexterity, education, catalog, steps[..k]), dexterity, education, catalog, steps[k])
  {
    assert steps[..k + 1][..k] == steps[..k];
  }

  // ---------------------------------------------------------------------------
  // In the real flow the layered branch never fires
  // ---------------------------------------------------------------------------

  /** Every record either has no bonus yet or already reaches `floor`. */
  predicate Settled(rs: seq<SkillState>, floor: int) {
    forall j :: 0 <= j < |rs| ==> rs[j].bonuses == 0 || rs[j].Value() >= floor
  }

  /** A raise no higher than the floor of a settled list acts as "raise to
      at least" and leaves the list settled at the new, lower target. */
  lemma LearnSettled(rs: seq<SkillState>, dexterity: int, education: int, catalog: seq<SkillDef>,
                     step: Step, floor: int)
    requires Settled(rs, floor)
    requires step.finalValue != 0 && step.finalValue <= floor && step.bonus == 0
    ensures Settled(Learn(rs, dexterity, education, catalog, step), step.finalValue)
    ensures match Resolve(catalog, step.phrase)
            case None => true
            case Some((def, spec)) =>
              var (grown, k) := Obtain(rs, def, spec, dexterity, education);
              Learn(rs, dexterity, education, catalog, step)[k] == RaiseToAtLeast(grown[k], step.finalValue)
  {
    match Resolve(catalog, step.phrase)
    case None =>
    case Some((def, spec)) =>
      var (grown, k) := Obtain(rs, def, spec, dexterity, education);
      RaiseFromFresh(grown[k], step.finalValue);
  }

  /** The ladder never goes up. */
  lemma LadderDescends(j: nat)
    requires 0 < j < |OccupationalValues|
    ensures 0 < OccupationalValues[j] <= OccupationalValues[j - 1]
  {
  }

  /** Starting from records without bonuses (a new character), the raises of
      the occupational phrases and Credit Rating each act as "raise to at
      least": after the first `k` steps every record has no bonus or reaches
      the `k`-th target, so the layered branch of the raise step is never
      taken, because the ladder only goes down. */
  lemma {:induction false} OccupationalPhaseSettled(
    rs: seq<SkillState>, dexterity: int, education: int, catalog: seq<SkillDef>,
    occupational: seq<string>, nonOccupational: seq<string>, k: nat)
    requires |occupational| < |OccupationalValues|
    requires forall j :: 0 <= j < |rs| ==> rs[j].bonuses == 0
    requires 1 <= k <= |occupational| + 1
    ensures Settled(ApplySteps(rs, dexterity, education, catalog, Plan(occupational, nonOccupational)[..k]),
                    OccupationalValues[k - 1])
  {
    var p := Plan(occupational, nonOccupational);
    var j := k - 1;
    if j < |occupational| {
      assert p[j] == Step(occupational[j], OccupationalValues[j], 0);
    } else {
      assert p[j] == Step(CreditRating, OccupationalValues[j], 0);
    }
    ApplyStepsSnoc(rs, dexterity, education, catalog, p, j);
    assert p[..j + 1] == p[..k];
    if j == 0 {
      assert p[..0] == [];
      LearnSettled(rs, dexterity, education, catalog, p[0], OccupationalValues[0]);
    } else {
      OccupationalPhaseSettled(rs, dexterity, education, catalog, occupational, nonOccupational, j);
      LadderDescends(j);
      LearnSettled(ApplySteps(rs, dexterity, education, catalog, p[..j]), dexterity, education, catalog,
                   p[j], OccupationalValues[j - 1]);
    }
  }

  // ---------------------------------------------------------------------------
  // Worked examples
  // ---------------------------------------------------------------------------

  /** The phrase the credit step uses parses to itself. */
  lemma CreditRatingParses()
    ensures ParsePhrase(CreditRating) == (CreditRating, None)
  {
    ParseLabel(CreditRating, None);
  }

  /** A new character whose only occupational phrase names a plain entry
      with default 30 (First Aid, say): the raise to 70 gives bonus 40, and
      Credit Rating, not in this catalog, is skipped. */
  lemma FirstAidExample(d: SkillDef, dexterity: int, education: int)
    requires !d.specialization && d.defaultValue == 30 && PlainName(d.name) && d.name != CreditRating
    ensures ApplySteps([], dexterity, education, [d], Plan([d.name], []))
            == [SkillState(d.name, None, 30, 40)]
  {
    assert Plan([d.name], []) == [Step(d.name, 70, 0), Step(CreditRating, 60, 0)];
    CreditRatingParses();
    FirstAidSteps(d, dexterity, education, CreditRating);
  }

  /** The two steps of that plan, one after the other, for a second phrase
      that the one-entry catalog does not know. */
  lemma FirstAidSteps(d: SkillDef, dexterity: int, education: int, other: string)
    requires !d.specialization && d.defaultValue == 30 && PlainName(d.name)
    requires d.name != other && d.name != ParsePhrase(other).0
    ensures ApplySteps([], dexterity, education, [d], [Step(d.name, 70, 0), Step(other, 60, 0)])
            == [SkillState(d.name, None, 30, 40)]
  {
    var p := [Step(d.name, 70, 0), Step(other, 60, 0)];
    ApplyStepsSnoc([], dexterity, education, [d], p, 1);
    assert p[..2] == p;
    assert p[..1] == [Step(d.name, 70, 0)];
    FreshRaise(d, dexterity, education);
    LearnSkipsUnknown([SkillState(d.name, None, 30, 40)], dexterity, education, [d], p[1]);
  }

  /** The raise to 70 of a fresh plain record with default 30. */
  lemma FreshRaise(d: SkillDef, dexterity: int, education: int)
    requires !d.specialization && d.defaultValue == 30 && PlainName(d.name)
    ensures ApplySteps([], dexterity, education, [d], [Step(d.name, 70, 0)]) == [SkillState(d.name, None, 30, 40)]
  {
    var step := Step(d.name, 70, 0);
    ParseLabel(d.name, None);
    LearnResolved([], dexterity, education, [d], step, d, None);
    assert [step][..0] == [];
  }

  /** A specialized phrase in display form resolves to its entry, keeping
      the specialization. */
  lemma ResolveSpecialized(d: SkillDef, x: string)
    requires d.specialization && PlainName(d.name) && PlainSpec(Some(x))
    ensures Resolve([d], Label(d.name, Some(x))) == Some((d, Some(x)))
  {
    var n := Label(d.name, Some(x));
    ParseLabel(d.name, Some(x));
    assert n[|n| - 1] == ')';
    ResolveByBase([d], 0, n);
  }

  /** A phrase resolving to a specialization, learnt into an empty list,
      gives one fresh record for that specialization, with the bonus added. */
  lemma SpecializationOnce(d: SkillDef, n: string, x: string, dexterity: int, education: int)
    requires Resolve([d], n) == Some((d, Some(x)))
    ensures Learn([], dexterity, education, [d], Step(n, 0, InterestBonus))
              == [NewRecord(d, Some(x), dexterity, education).(bonuses := InterestBonus)]
  {
    FlatBonusAfterRaise(NewRecord(d, Some(x), dexterity, education), InterestBonus);
    LearnResolved([], dexterity, education, [d], Step(n, 0, InterestBonus), d, Some(x));
  }

  /** The same specialization twice reaches one record, whose bonuses add
      up. */
  lemma SpecializationRepeated(d: SkillDef, n: string, x: string, dexterity: int, education: int)
    requires Resolve([d], n) == Some((d, Some(x)))
    ensures var sx := Step(n, 0, InterestBonus);
            var once := Learn([], dexterity, education, [d], sx);
            Learn(once, dexterity, education, [d], sx)
              == [NewRecord(d, Some(x), dexterity, education).(bonuses := 2 * InterestBonus)]
  {
    SpecializationOnce(d, n, x, dexterity, education);
    var once := [NewRecord(d, Some(x), dexterity, education).(bonuses := InterestBonus)];
    assert FindRecord(once, d.name, Some(x)) == Some(0);
    LearnResolved(once, dexterity, education, [d], Step(n, 0, InterestBonus), d, Some(x));
  }

  /** A phrase resolving to a specialization that no record holds yet gets
      a record of its own, appended after the others. */
  lemma SpecializationApart(d: SkillDef, rs: seq<SkillState>, n: string, y: string, dexterity: int, education: int)
    requires Resolve([d], n) == Some((d, Some(y)))
    requires FindRecord(rs, d.name, Some(y)).None?
    ensures Learn(rs, dexterity, education, [d], Step(n, 0, InterestBonus))
              == rs + [NewRecord(d, Some(y), dexterity, education).(bonuses := InterestBonus)]
  {
    var r := NewRecord(d, Some(y), dexterity, education);
    FlatBonusAfterRaise(r, InterestBonus);
    LearnResolved(rs, dexterity, education, [d], Step(n, 0, InterestBonus), d, Some(y));
  }

  /** The same specialization twice reaches one record, whose bonuses add
      up; a different specialization of the same skill gets a record of its
      own, appended after it. */
  lemma SpecializationIdentity(d: SkillDef, x: string, y: string, dexterity: int, education: int)
    requires d.specialization && PlainName(d.name) && PlainSpec(Some(x)) && PlainSpec(Some(y)) && x != y
    ensures var sx := Step(Label(d.name, Some(x)), 0, InterestBonus);
            var sy := Step(Label(d.name, Some(y)), 0, InterestBonus);
            var once := Learn([], dexterity, education, [d], sx);
            var twice := Learn(once, dexterity, education, [d], sx);
            var both := Learn(twice, dexterity, education, [d], sy);
            && twice == [NewRecord(d, Some(x), dexterity, education).(bonuses := 2 * InterestBonus)]
            && both == twice + [NewRecord(d, Some(y), dexterity, education).(bonuses := InterestBonus)]
  {
    ResolveSpecialized(d, x);
    ResolveSpecialized(d, y);
    SpecializationRepeated(d, Label(d.name, Some(x)), x, dexterity, education);
    var twice := [NewRecord(d, Some(x), dexterity, education).(bonuses := 2 * InterestBonus)];
    assert FindRecord(twice, d.name, Some(y)).None?;
    SpecializationApart(d, twice, Label(d.name, Some(y)), y, dexterity, education);
  }
}
