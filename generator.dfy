/** The generator's rules engine on a character object: `LearnOrAdvance`,
    `ParseSkills` and the assembly of a character from the generated texts
    (`GenerateCharacter` once the language model's replies and the dice roll
    are in hand). Each method is proved against the value-level
    specification of the `Stacking`, `Allocation` and `DerivedScores`
    modules. */
module Generator {
  import opened Wrappers
  import opened Strings
  import opened Catalog
  import opened Phrases
  import opened SkillStore
  import opened CharacterSheet
  import opened Stacking
  import opened Allocation
  import opened DerivedScores

  /** `LearnOrAdvance`: resolve the phrase, skip it if the catalog does not
      know it, fetch or create the record, then apply the raise step and the
      flat bonus to that record in place. */
  method LearnOrAdvance(pc: Character, catalog: seq<SkillDef>, skill: string, finalValue: int, bonus: int)
    requires pc.Valid()
    modifies pc, pc.Repr
    ensures pc.Valid()
    ensures pc.Records() == Learn(old(pc.Records()), pc.attributes.Get(DEX), pc.attributes.Get(EDU), catalog,
                                  Step(skill, finalValue, bonus))
    ensures old(pc.skills) <= pc.skills
    ensures old(pc.Repr) <= pc.Repr && fresh(pc.Repr - old(pc.Repr))
    ensures unchanged(pc.attributes.values) && unchanged(pc.scores)
  {
    // parse the phrase, look it up (full phrase first, then the base name),
    // skip it when unknown, and drop the specialization when the entry takes none
    var resolved := Resolve(catalog, skill);
    if resolved.None? {
      return;
    }
    var (def, specialization) := resolved.value;
    ghost var before := pc.Records();
    var sk := pc.GetSkill(def, specialization);
    ghost var k := Obtain(before, def, specialization, pc.attributes.Get(DEX), pc.attributes.Get(EDU)).1;
    AdvanceRecord(pc, k, sk, finalValue, bonus);
  }

  /** The body of `LearnOrAdvance` once the record is in hand: the raise step
      when a target is given, then the flat bonus when one is given. Only
      that record changes. */
  method AdvanceRecord(pc: Character, ghost k: nat, sk: CharacterSkill, finalValue: int, bonus: int)
    requires pc.Valid() && k < |pc.skills| && sk == pc.skills[k]
    modifies sk
    ensures pc.Valid()
    ensures pc.Records() == old(pc.Records())[k := Advance(old(pc.Records())[k], finalValue, bonus)]
  {
    if finalValue != 0 {
      if sk.Value() >= finalValue {
        // already there
      } else if sk.bonuses == 0 {
        sk.bonuses := finalValue - sk.initialValue;
      } else {
        sk.bonuses := finalValue - sk.initialValue - sk.bonuses;
      }
    }
    if bonus != 0 {
      sk.bonuses := sk.bonuses + bonus;
    }
    assert sk.State() == Advance(old(sk.State()), finalValue, bonus);
  }

  /** `ParseSkills`: the occupational phrases against the ladder, in order,
      then Credit Rating against the next ladder value, then each
      non-occupational phrase with the flat bonus. The occupational list may
      hold at most eight phrases (a ninth would leave no ladder value for
      Credit Rating). */
  method ParseSkills(pc: Character, catalog: seq<SkillDef>, occupational: string, nonOccupational: string)
    requires pc.Valid()
    requires |SplitTrim(occupational, ',')| < |OccupationalValues|
    modifies pc, pc.Repr
    ensures pc.Valid()
    ensures pc.Records() == ApplySteps(old(pc.Records()), pc.attributes.Get(DEX), pc.attributes.Get(EDU), catalog,
                                       Plan(SplitTrim(occupational, ','), SplitTrim(nonOccupational, ',')))
    ensures old(pc.Repr) <= pc.Repr && fresh(pc.Repr - old(pc.Repr))
    ensures unchanged(pc.attributes.values) && unchanged(pc.scores)
  {
    var occupationalSkills := SplitTrim(occupational, ',');
    var nonOccupationalSkills := SplitTrim(nonOccupational, ',');
    ghost var start := pc.Records();
    ghost var dex := pc.attributes.Get(DEX);
    ghost var edu := pc.attributes.Get(EDU);
    var values := OccupationalValues;
    var next := |occupationalSkills|;

    LearnOccupational(pc, catalog, occupationalSkills);
    assert fresh(pc.Repr - old(pc.Repr));
    LearnOrAdvance(pc, catalog, CreditRating, values[next], 0);
    assert fresh(pc.Repr - old(pc.Repr));
    ghost var learned := OccupationalSteps(occupationalSkills) + [CreditStep(next)];
    ApplyStepsOneMore(start, dex, edu, catalog, OccupationalSteps(occupationalSkills), CreditStep(next));
    LearnInterests(pc, catalog, nonOccupationalSkills);
    ApplyStepsAppend(start, dex, edu, catalog, learned, InterestSteps(nonOccupationalSkills));
  }

  /** The first loop of `ParseSkills`: the k-th occupational phrase against
      the k-th ladder value. */
  method LearnOccupational(pc: Character, catalog: seq<SkillDef>, occupationalSkills: seq<string>)
    requires pc.Valid()
    requires |occupationalSkills| < |OccupationalValues|
    modifies pc, pc.Repr
    ensures pc.Valid()
    ensures pc.Records() == ApplySteps(old(pc.Records()), pc.attributes.Get(DEX), pc.attributes.Get(EDU), catalog,
                                       OccupationalSteps(occupationalSkills))
    ensures old(pc.Repr) <= pc.Repr && fresh(pc.Repr - old(pc.Repr))
    ensures unchanged(pc.attributes.values) && unchanged(pc.scores)
  {
    ghost var steps := OccupationalSteps(occupationalSkills);
    ghost var start := pc.Records();
    ghost var dex := pc.attributes.Get(DEX);
    ghost var edu := pc.attributes.Get(EDU);
    var values := OccupationalValues;
    var next := 0;
    while next < |occupationalSkills|
      invariant 0 <= next <= |occupationalSkills|
      invariant pc.Valid()
      invariant unchanged(pc.attributes.values) && unchanged(pc.scores)
      invariant pc.Records() == ApplySteps(start, dex, edu, catalog, steps[..next])
      invariant old(pc.Repr) <= pc.Repr && fresh(pc.Repr - old(pc.Repr))
    {
      LearnOrAdvance(pc, catalog, occupationalSkills[next], values[next], 0);
      ApplyStepsSnoc(start, dex, edu, catalog, steps, next);
      next := next + 1;
    }
    assert steps[..next] == steps;
  }

  /** The last loop of `ParseSkills`: each non-occupational phrase with the
      flat bonus. */
  method LearnInterests(pc: Character, catalog: seq<SkillDef>, nonOccupationalSkills: seq<string>)
    requires pc.Valid()
    modifies pc, pc.Repr
    ensures pc.Valid()
    ensures pc.Records() == ApplySteps(old(pc.Records()), pc.attributes.Get(DEX), pc.attributes.Get(EDU), catalog,
                                       InterestSteps(nonOccupationalSkills))
    ensures old(pc.Repr) <= pc.Repr && fresh(pc.Repr - old(pc.Repr))
    ensures unchanged(pc.attributes.values) && unchanged(pc.scores)
  {
    ghost var steps := InterestSteps(nonOccupationalSkills);
    ghost var start := pc.Records();
    ghost var dex := pc.attributes.Get(DEX);
    ghost var edu := pc.attributes.Get(EDU);
    var j := 0;
    while j < |nonOccupationalSkills|
      invariant 0 <= j <= |nonOccupationalSkills|
      invariant pc.Valid()
      invariant unchanged(pc.attributes.values) && unchanged(pc.scores)
      invariant pc.Records() == ApplySteps(start, dex, edu, catalog, steps[..j])
      invariant old(pc.Repr) <= pc.Repr && fresh(pc.Repr - old(pc.Repr))
    {
      LearnOrAdvance(pc, catalog, nonOccupationalSkills[j], 0, InterestBonus);
      ApplyStepsSnoc(start, dex, edu, catalog, steps, j);
      j := j + 1;
    }
    assert steps[..j] == steps;
  }

  /** The lines of the generated description. */
  function Lines(fullDescription: string): seq<string>
  {
    Split(fullDescription, '\n')
  }

  /** The backstory: every line after the blank fourth one, joined back;
      empty when there are no such lines. Split again, it gives back
      exactly those lines. */
  function Backstory(lines: seq<string>): (b: string)
    ensures |lines| <= 4 ==> b == []
    ensures |lines| > 4 && (forall k :: 4 <= k < |lines| ==> '\n' !in lines[k]) ==> Split(b, '\n') == lines[4..]
  {
    if |lines| > 4 then
      var rest := lines[4..];
      if forall k :: 0 <= k < |rest| ==> '\n' !in rest[k] then
        SplitJoin(rest, '\n');
        Join(rest, '\n')
      else
        Join(rest, '\n')
    else
      Join([], '\n')
  }

  /** What the allocated attributes must provide for the derived scores. */
  predicate CoversScoreInputs(codes: seq<string>) {
    && "STR" in codes && "CON" in codes && "SIZ" in codes && "DEX" in codes && "POW" in codes
  }

  /** The priority list names known attributes, each once, at most eight,
      and among them those the derived scores read. */
  predicate ValidPriority(codes: seq<string>) {
    && |codes| <= |AttributeValues|
    && Distinct(codes)
    && (forall i :: 0 <= i < |codes| ==> codes[i] in AttributeOrder)
    && CoversScoreInputs(codes)
  }

  /** The text half of the sheet: name, age and occupation are the first
      three lines of the description, trimmed, the backstory the lines after
      the fourth, and the trait and skill texts are kept as given. */
  predicate SheetText(pc: Character, fullDescription: string, traits: string,
                      occupational: string, nonOccupational: string)
    requires |Lines(fullDescription)| >= 3
  {
    var lines := Lines(fullDescription);
    && pc.name == Trim(lines[0]) && pc.age == Trim(lines[1]) && pc.occupation == Trim(lines[2])
    && pc.backstory == Backstory(lines)
    && pc.traits == traits
    && pc.occupationalSkills == occupational && pc.nonOccupationalSkills == nonOccupational
  }

  /** The eight slots hold the ladder values placed by the priority list,
      exactly the ladder when the list names all eight attributes. */
  ghost predicate SheetAttributes(v: CharacterAttributes, codes: seq<string>)
    requires ValidPriority(codes)
    reads v.values
  {
    && v.values[..] == Placed(codes)
    && (|codes| == 8 ==> multiset(v.values[..]) == multiset(AttributeValues))
  }

  /** The derived scores of the stored attributes: damage bonus and build,
      movement rate, hit points and magic points, and luck five times the
      roll. */
  predicate SheetScores(scores: CharacterScores, v: CharacterAttributes, luckRoll: int)
    requires v.values.Length == 8
    reads scores, v.values
  {
    && (scores.damageBonusValue, scores.build) == DamageBonusAndBuild(v.Get(STR) + v.Get(SIZ))
    && scores.move == Movement(v.Get(DEX), v.Get(STR), v.Get(SIZ))
    && scores.hp == HitPoints(v.Get(CON), v.Get(SIZ))
    && scores.mp == MagicPoints(v.Get(POW))
    && scores.luck == Luck(luckRoll)
  }

  /** The sheet as `GenerateCharacter` fills it in before the skills. */
  ghost predicate SheetFilled(pc: Character, fullDescription: string, attributePriority: string, traits: string,
                              occupational: string, nonOccupational: string, luckRoll: int)
    requires |Lines(fullDescription)| >= 3 && ValidPriority(AttributeList(attributePriority))
    requires pc.attributes.values.Length == 8
    reads pc.attributes.values, pc.scores
  {
    && SheetText(pc, fullDescription, traits, occupational, nonOccupational)
    && SheetAttributes(pc.attributes, AttributeList(attributePriority))
    && SheetScores(pc.scores, pc.attributes, luckRoll)
  }

  /** `GenerateCharacter` after the text generator has answered: the
      sheet is filled in, then the skill phrases are applied to it. The luck
      roll is supplied by the caller. Every code in the priority list must be
      known, distinct, at most eight, and cover the attributes the scores
      read; the occupational list may hold at most eight phrases. */
  method BuildCharacter(fullDescription: string, attributePriority: string, traits: string,
                        occupational: string, nonOccupational: string,
                        catalog: seq<SkillDef>, luckRoll: int)
    returns (pc: Character)
    requires |Lines(fullDescription)| >= 3
    requires ValidPriority(AttributeList(attributePriority))
    requires |SplitTrim(occupational, ',')| < |OccupationalValues|
    ensures fresh(pc) && pc.Valid()
    ensures SheetFilled(pc, fullDescription, attributePriority, traits, occupational, nonOccupational, luckRoll)
    ensures pc.Records() == ApplySteps([], pc.attributes.Get(DEX), pc.attributes.Get(EDU), catalog,
                                       Plan(SplitTrim(occupational, ','), SplitTrim(nonOccupational, ',')))
    ensures KeysUnique(pc.Records())
  {
    pc := BuildSheet(fullDescription, attributePriority, traits, occupational, nonOccupational, luckRoll);
    ParseSkills(pc, catalog, occupational, nonOccupational);
    ApplyStepsKeepsKeysUnique([], pc.attributes.Get(DEX), pc.attributes.Get(EDU), catalog,
                              Plan(SplitTrim(occupational, ','), SplitTrim(nonOccupational, ',')));
  }

  /** Everything `GenerateCharacter` does before `ParseSkills`: the
      description's first three lines give name, age and occupation, the
      lines after the fourth the backstory; the priority list is allocated
      and stored slot by slot; the derived scores are computed from the
      allocation. The character has no skills yet. */
  method BuildSheet(fullDescription: string, attributePriority: string, traits: string,
                    occupational: string, nonOccupational: string, luckRoll: int)
    returns (pc: Character)
    requires |Lines(fullDescription)| >= 3
    requires ValidPriority(AttributeList(attributePriority))
    ensures fresh(pc) && fresh(pc.attributes) && fresh(pc.attributes.values) && fresh(pc.scores)
    ensures pc.Valid() && pc.skills == [] && pc.Repr == {}
    ensures SheetFilled(pc, fullDescription, attributePriority, traits, occupational, nonOccupational, luckRoll)
  {
    pc := NewSheet(fullDescription, traits, occupational, nonOccupational);
    var attributesWithValues := StoreAllocation(pc.attributes, attributePriority);
    SetScores(pc.scores, pc.attributes, attributesWithValues, luckRoll);
  }

  /** The character as constructed from the description's lines: the text
      half of the sheet, every slot and score zero, no skills. */
  method NewSheet(fullDescription: string, traits: string, occupational: string, nonOccupational: string)
    returns (pc: Character)
    requires |Lines(fullDescription)| >= 3
    ensures fresh(pc) && fresh(pc.attributes) && fresh(pc.attributes.values) && fresh(pc.scores)
    ensures pc.Valid() && pc.skills == [] && pc.Repr == {}
    ensures SheetText(pc, fullDescription, traits, occupational, nonOccupational)
    ensures forall i :: 0 <= i < 8 ==> pc.attributes.values[i] == 0
  {
    var lines := Lines(fullDescription);
    var name := Trim(lines[0]);
    var age := Trim(lines[1]);
    var tagline := Trim(lines[2]);
    var backstory := Backstory(lines);
    pc := new Character(name, age, tagline, backstory, traits, occupational, nonOccupational);
  }

  /** The attribute half of `GenerateCharacter`: allocate the priority list
      and store every allocated value in its slot. The map it returns holds
      the values the derived scores are computed from, and they are the ones
      now in the character's slots. */
  method StoreAllocation(attributes: CharacterAttributes, attributePriority: string)
    returns (attributeMap: map<string, int>)
    requires attributes.values.Length == 8 && forall i :: 0 <= i < 8 ==> attributes.values[i] == 0
    requires ValidPriority(AttributeList(attributePriority))
    modifies attributes.values
    ensures var codes := AttributeList(attributePriority);
            && (forall c :: c in attributeMap <==> c in codes)
            && forall i :: 0 <= i < |codes| ==> attributeMap[codes[i]] == AttributeValues[i]
    ensures SheetAttributes(attributes, AttributeList(attributePriority))
    ensures ScoreInputs(attributeMap, attributes)
  {
    attributeMap := AllocateAttributes(attributePriority);
    var codes := AttributeList(attributePriority);
    StoreAttributes(attributes, codes, attributeMap);
    StoredScoreInputs(codes, attributeMap, attributes.values[..]);
    if |codes| == 8 {
      AllocationIsPermutation(codes);
    }
  }

  /** The map holds, under each code the scores read, the value stored in
      that attribute's slot. */
  predicate ScoreInputs(attributeMap: map<string, int>, attributes: CharacterAttributes)
    requires attributes.values.Length == 8
    reads attributes.values
  {
    && "STR" in attributeMap && "CON" in attributeMap && "SIZ" in attributeMap
    && "DEX" in attributeMap && "POW" in attributeMap
    && attributeMap["STR"] == attributes.Get(STR) && attributeMap["CON"] == attributes.Get(CON)
    && attributeMap["SIZ"] == attributes.Get(SIZ) && attributeMap["DEX"] == attributes.Get(DEX)
    && attributeMap["POW"] == attributes.Get(POW)
  }

  /** The derived scores, computed from the allocated map, which agrees with
      the stored attributes. */
  method SetScores(scores: CharacterScores, attributes: CharacterAttributes, attributeMap: map<string, int>, luckRoll: int)
    requires attributes.values.Length == 8
    requires ScoreInputs(attributeMap, attributes)
    modifies scores
    ensures SheetScores(scores, attributes, luckRoll)
  {
    var (db, build) := CalculateDBandBuild(attributeMap);
    var move := CalculateMovement(attributeMap);
    var mp := MagicPoints(attributeMap["POW"]);
    var hp := HitPoints(attributeMap["CON"], attributeMap["SIZ"]);
    var luck := Luck(luckRoll);
    scores.damageBonusValue := db;
    scores.build := build;
    scores.hp := hp;
    scores.mp := mp;
    scores.move := move;
    scores.luck := luck;
  }

  /** The loop over the allocated map: each code's value goes to the slot
      `attributeOrder` gives it. */
  method StoreAttributes(attributes: CharacterAttributes, codes: seq<string>, attributeMap: map<string, int>)
    requires attributes.values.Length == 8 && forall i :: 0 <= i < 8 ==> attributes.values[i] == 0
    requires |codes| <= 8
    requires forall i :: 0 <= i < |codes| ==> codes[i] in AttributeOrder
    requires forall i :: 0 <= i < |codes| ==> codes[i] in attributeMap && attributeMap[codes[i]] == AttributeValues[i]
    modifies attributes.values
    ensures attributes.values[..] == Placed(codes)
  {
    var i := 0;
    while i < |codes|
      invariant 0 <= i <= |codes|
      invariant attributes.values[..] == Placed(codes[..i])
    {
      var key := codes[i];
      assert codes[..i + 1][..i] == codes[..i];
      attributes.values[AttributeOrder[key]] := attributeMap[key];
      i := i + 1;
    }
    assert codes[..i] == codes;
  }

  /** The slot of a listed attribute holds the value allocated to its code. */
  lemma StoredSlot(codes: seq<string>, attributeMap: map<string, int>, a: Attribute)
    requires |codes| <= 8 && Distinct(codes)
    requires forall i :: 0 <= i < |codes| ==> codes[i] in AttributeOrder
    requires forall i :: 0 <= i < |codes| ==> codes[i] in attributeMap && attributeMap[codes[i]] == AttributeValues[i]
    requires Code(a) in codes
    ensures Code(a) in attributeMap && Placed(codes)[Index(a)] == attributeMap[Code(a)]
  {
    PlacedAt(codes);
    AttributeOrderMatchesIndex(a);
    var i :| 0 <= i < |codes| && codes[i] == Code(a);
  }

  /** The slots the scores read hold the allocated values of those codes. */
  lemma StoredScoreInputs(codes: seq<string>, attributeMap: map<string, int>, slots: seq<int>)
    requires |codes| <= 8 && Distinct(codes)
    requires forall i :: 0 <= i < |codes| ==> codes[i] in AttributeOrder
    requires forall i :: 0 <= i < |codes| ==> codes[i] in attributeMap && attributeMap[codes[i]] == AttributeValues[i]
    requires slots == Placed(codes)
    requires CoversScoreInputs(codes)
    ensures "STR" in attributeMap && "CON" in attributeMap && "SIZ" in attributeMap
    ensures "DEX" in attributeMap && "POW" in attributeMap
    ensures slots[0] == attributeMap["STR"] && slots[1] == attributeMap["CON"] && slots[2] == attributeMap["SIZ"]
    ensures slots[3] == attributeMap["DEX"] && slots[6] == attributeMap["POW"]
  {
    StoredSlot(codes, attributeMap, STR);
    StoredSlot(codes, attributeMap, CON);
    StoredSlot(codes, attributeMap, SIZ);
    StoredSlot(codes, attributeMap, DEX);
    StoredSlot(codes, attributeMap, POW);
  }
}
