# CoCCGen character rules engine in Dafny

This project models the rules engine of CoCCGen, a Call of Cthulhu character
generator. A language model writes the character's description, its
attribute priority and its skill phrases. The engine then turns those texts
into a character sheet:

- **Attribute allocation.** The priority list of attribute codes is mapped
  onto the ladder 80, 70, 60, 60, 50, 50, 50, 40. The values are stored in
  the eight attribute slots in the order given by `attributeOrder`.
- **Derived scores.** Damage bonus and build come from a step table on
  STR+SIZ. The movement rate comes from comparing DEX and STR with SIZ. Hit
  points and magic points use C#'s truncating division. Luck is the 3d6 roll
  times five.
- **Skill resolution and stacking** (`ParseSkills`, `LearnOrAdvance`,
  `FindSkill`).
  - Each phrase is split into a base name and an optional parenthetical.
  - It is looked up in the skill catalog, full phrase first, then base name.
    Unknown phrases are skipped.
  - The record is fetched or created on the character (`GetSkill`). Then
    the record is raised to the occupational ladder value, or given the
    flat +20 of a non-occupational phrase.
- **The character record** (`COCCharacter` and its parts):
  - the attribute slots and their named accessors;
  - the derived-score block and its damage-bonus text;
  - the skill records, with `Value`, `Equals`, `GetHashCode` and `ToString`;
  - the skill list, with `GetSkill` and its sentinel-encoded defaults.

Code that works by changing state is modelled as imperative Dafny:

- `Character`, `CharacterAttributes`, `CharacterScores` and `CharacterSkill`
  are classes.
- `GetSkill`, `AllocateAttributes`, the attribute store
  (`Generator.StoreAttributes`) and the two loops of `ParseSkills`
  (`Generator.LearnOccupational`, `Generator.LearnInterests`) are methods
  with loops.
- `LearnOrAdvance` and `ParseSkills` are methods without loops of their
  own. They call `GetSkill` and the loop methods.

Each method is proved against a value-level specification:

- `Stacking.Learn` and `Stacking.ApplySteps` for the skill list, through
  the ghost view `Character.Records()`;
- `SkillStore.Obtain` for `GetSkill`;
- `Allocation.Placed` for the attribute slots;
- the functions of `DerivedScores` for the scores.

The properties the engine promises are lemmas about those specifications.

The modules are:

- `Wrappers`: the optional value;
- `Strings`: .NET `Split`, `Join`, `Trim`, `IndexOf` and the decimal
  rendering of an `int`;
- `Arithmetic`: C#'s truncating `/` and `%`;
- `Catalog`: the `COCSkill` record;
- `Phrases`: phrase parsing, catalog lookup and `AllPossibleSkills`;
- `SkillStore`: a skill record as a value, and `GetSkill` on values;
- `CharacterSheet`: the classes;
- `DerivedScores`, `Allocation`, `Stacking`;
- `Generator`: the methods of the generator.

The raise step at `CoCCGen.Core/AICharacterGenerator.cs:112-122` is modelled
as written. While the record has no bonus, the step raises the value to at
least the target. Once the record carries a bonus, the third branch
subtracts that bonus again. So an initial value of 20, raised to 50 and then
to 70, ends at 40. Applying the same raise twice restores the record rather
than leaving it unchanged.

`Stacking.OccupationalPhaseSettled` proves that this branch never fires in
the generator's own flow. A new character starts without bonuses, and the
ladder only goes down, so every raise there acts as "raise to at least".

## Model

| member | source | states |
|---|---|---|
| Strings.Split | CoCCGen.Core/AICharacterGenerator.cs:37-40 | `Split` yields at least one piece and no piece contains the separator. There is exactly one piece, the whole text, when the separator does not occur. |
| Strings.JoinSplit | CoCCGen.Core/AICharacterGenerator.cs:40 | Joining the pieces of a split with the same separator gives the original text back. |
| Strings.SplitJoin | CoCCGen.Core/AICharacterGenerator.cs:40 | Splitting the join of separator-free pieces gives the pieces back. |
| Strings.Trim | CoCCGen.Core/AICharacterGenerator.cs:37-39 | `Trim` gives a contiguous slice of the text. Everything cut off on either side is white space, and the result neither starts nor ends with white space. |
| Strings.SplitTrimItems | CoCCGen.Core/AICharacterGenerator.cs:79-80 | Split-and-trim gives one item per piece, and item k is piece k trimmed. |
| Strings.IntToStringRoundTrip | CoCCGen.Core/COCCharacter.cs:53-54 | The decimal rendering of an `int` is digits with a leading minus exactly for negatives, and it reads back to the same number. |
| Arithmetic.TruncDiv | CoCCGen.Core/AICharacterGenerator.cs:46-47 | C# `/` for a positive divisor is the quotient rounded toward zero. The bounds are stated for both signs of the dividend. |
| Arithmetic.TruncRem | CoCCGen.Core/COCCharacter.cs:54 | C# `%` satisfies a = (a / b) * b + r, and the remainder has the sign of the dividend with magnitude below the divisor. |
| Allocation.AllocateAttributes | CoCCGen.Core/AICharacterGenerator.cs:218-232 | The result's keys are exactly the trimmed codes, and the code at position i receives the i-th ladder value. The ladder bound and distinct codes are required, because the source throws otherwise. |
| Allocation.AttributeOrderMatchesIndex | CoCCGen.Core/AICharacterGenerator.cs:246-255 | `attributeOrder` sends each attribute's code to the slot of the `Attributes` enumeration. |
| Allocation.AttributeOrderInjective | CoCCGen.Core/AICharacterGenerator.cs:246-255 | `attributeOrder` sends every code to a slot below 8, and distinct codes to distinct slots. |
| Allocation.Placed | CoCCGen.Core/AICharacterGenerator.cs:67-69 | Storing the first n codes leaves eight slots, each still zero or holding one of the first n ladder values. |
| Allocation.PlacedAt | CoCCGen.Core/AICharacterGenerator.cs:67-69 | After storing distinct codes, each code's slot holds its ladder value, and every other slot is still zero. |
| Allocation.AllocationIsPermutation | CoCCGen.Core/AICharacterGenerator.cs:218-232 | With all eight distinct codes, the stored slots are exactly the multiset {80,70,60,60,50,50,50,40}. |
| DerivedScores.DamageBonusAndBuild | CoCCGen.Core/AICharacterGenerator.cs:264-275 | The build runs from -2 to 7 and fixes the damage bonus. The bonus equals the build while the build is not positive, is 1D4 for build 1, and is (build-1)D6 above that. |
| DerivedScores.DamageBonusAndBuildIsTableLookup | CoCCGen.Core/AICharacterGenerator.cs:261-276 | The damage-bonus/build switch is the table row selected by the number of thresholds STR+SIZ has reached. |
| DerivedScores.DamageBonusAndBuildMonotone | CoCCGen.Core/AICharacterGenerator.cs:264-275 | Damage bonus and build are both non-decreasing in STR+SIZ. |
| DerivedScores.DamageBonusAndBuildBoundaries | CoCCGen.Core/AICharacterGenerator.cs:264-275 | Every boundary of the table is checked on both sides: 63/64, 83/84, up to 523/524. |
| DerivedScores.CalculateDBandBuild | CoCCGen.Core/AICharacterGenerator.cs:261-276 | The result, looked up by the STR and SIZ codes, is one of the ten table rows, so the damage bonus is between -2 and 66 and the build between -2 and 7. |
| DerivedScores.Movement | CoCCGen.Core/AICharacterGenerator.cs:283-293 | The movement rate is 7 iff DEX and STR are both below SIZ, and 9 iff both are above. Otherwise it is 8, so it is always 7, 8 or 9. |
| DerivedScores.MovementExamples | CoCCGen.Core/AICharacterGenerator.cs:279-282 | The three cases of the rule on concrete values, including a tie with SIZ giving 8. |
| DerivedScores.CalculateMovement | CoCCGen.Core/AICharacterGenerator.cs:278-294 | The movement rate looked up by code is always 7, 8 or 9. |
| DerivedScores.HitPoints | CoCCGen.Core/AICharacterGenerator.cs:47 | HP is (CON+SIZ)/10 rounded toward zero, as bounds on 10·HP for both signs. |
| DerivedScores.MagicPoints | CoCCGen.Core/AICharacterGenerator.cs:46 | MP is POW/5 rounded toward zero, as bounds on 5·MP for both signs. |
| DerivedScores.Luck | CoCCGen.Core/AICharacterGenerator.cs:48 | Luck is five times the roll, so a multiple of five, and lies between 15 and 90 for any 3d6 roll. |
| DerivedScores.HitPointsTruncates | CoCCGen.Core/AICharacterGenerator.cs:46-47 | CON 13 and SIZ 14 give HP 2, the negative case truncates to -2, and POW 54 gives MP 10. |
| CharacterSheet.Index | CoCCGen.Core/COCCharacter.cs:122-131 | Each attribute's enumeration value is a slot below 8. |
| CharacterSheet.IndexBijective | CoCCGen.Core/COCCharacter.cs:122-131 | Attributes and the slots 0..7 correspond one to one. |
| CharacterSheet.CharacterAttributes.constructor | CoCCGen.Core/COCCharacter.cs:59 | A new attribute block has eight slots, all zero. |
| CharacterSheet.CharacterAttributes.Get | CoCCGen.Core/COCCharacter.cs:60-67 | A named getter reads the slot that the `Attributes` enumeration assigns to its attribute. |
| CharacterSheet.CharacterAttributes.Set | CoCCGen.Core/COCCharacter.cs:60-67 | A named setter writes exactly its own slot, and the other seven attributes keep their values. |
| CharacterSheet.DamageBonusText | CoCCGen.Core/COCCharacter.cs:52-55 | The damage-bonus text, a plain number or `+tensDunits`, reads back to the value it displays. It starts with `+` exactly when the value is positive. |
| CharacterSheet.NumberTextReadsBack | CoCCGen.Core/COCCharacter.cs:53 | A non-positive damage bonus, written as its number, does not start with `+` and reads back to the value. |
| CharacterSheet.DiceTextReadsBack | CoCCGen.Core/COCCharacter.cs:54 | A positive damage bonus, written as tens, `D` and units, reads back to the value. |
| CharacterSheet.DamageBonusExamples | CoCCGen.Core/COCCharacter.cs:52-55 | 14 is shown as "+1D4", 26 as "+2D6", 0 as "0" and -2 as "-2". |
| CharacterSheet.CharacterScores.constructor | CoCCGen.Core/COCCharacter.cs:44-50 | A new score block has every score zero. |
| CharacterSheet.CharacterScores.DamageBonus | CoCCGen.Core/COCCharacter.cs:52-55 | The displayed damage bonus reads back to the stored damage-bonus value. |
| CharacterSheet.SkillLine | CoCCGen.Core/COCCharacter.cs:87-92 | A skill line `Name (Spec): V% (V/2/V/5)` gives back the skill's name, specialization and value, and the two numbers in the parentheses are V/2 and V/5 rounded toward zero. This holds whenever the skill-name pattern captures the name and specialization whole. |
| CharacterSheet.Fractions | CoCCGen.Core/COCCharacter.cs:89 | The tail of a skill line starts with `%`, and the numbers in its parentheses read back to V/2 and V/5 rounded toward zero. |
| CharacterSheet.FractionsParts | CoCCGen.Core/COCCharacter.cs:89 | A tail `% (H/F)` built from two numbers without a slash reads back to those two numbers. |
| CharacterSheet.LabelHasNoColon | CoCCGen.Core/COCCharacter.cs:88 | The heading of a skill line with such a name and specialization contains no colon. |
| CharacterSheet.CharacterSkill.constructor | CoCCGen.Core/COCCharacter.cs:74-83 | A new skill record holds the given name, specialization, initial value and bonuses. |
| CharacterSheet.CharacterSkill.Value | CoCCGen.Core/COCCharacter.cs:85 | The record's value is the value of its state, initial value plus bonuses, which is the quantity the stacking lemmas bound. |
| CharacterSheet.CharacterSkill.HasSpecialization | CoCCGen.Core/COCCharacter.cs:79 | A record has a specialization exactly when it carries one, which is exactly when its label shows more than the bare skill name. |
| CharacterSheet.CharacterSkill.ToString | CoCCGen.Core/COCCharacter.cs:87-92 | The record's line gives back its name, specialization and current value, and the half and fifth of that value rounded toward zero. This holds for names the skill-name pattern captures whole. |
| CharacterSheet.CharacterSkill.Equals | CoCCGen.Core/COCCharacter.cs:94-99 | Two records are equal exactly when a skill list holding both would hold one identity twice. Nothing equals null. |
| CharacterSheet.CharacterSkill.HashCode | CoCCGen.Core/COCCharacter.cs:101-107 | Without a specialization the hash is the name's hash. With one, xor-ing the specialization's hash out of the result gives back the name's hash. |
| CharacterSheet.EqualsIsEquivalence | CoCCGen.Core/COCCharacter.cs:94-107 | `Equals` holds iff the name and the specialization are equal. It is reflexive, symmetric and transitive, and equal records have equal hash codes. |
| CharacterSheet.Character.Records | CoCCGen.Core/COCCharacter.cs:16 | The skill list read as values, one state per record, in list order. |
| CharacterSheet.Character.constructor | CoCCGen.Core/COCCharacter.cs:5-19 | A new character keeps the given texts and has zero attributes and scores. Its skill list is empty. |
| CharacterSheet.Character.GetSkill | CoCCGen.Core/COCCharacter.cs:21-41 | `GetSkill` returns the first record with the given name and specialization, leaving the list as it was. Otherwise it appends one new record with the decoded default and no bonuses, and returns it. Existing records are untouched either way. |
| SkillStore.FindRecord | CoCCGen.Core/COCCharacter.cs:22 | The result is the first position holding the identity (name, specialization), or none exactly when no record has it. |
| SkillStore.Obtain | CoCCGen.Core/COCCharacter.cs:21-32 | The list grows exactly when no record has the identity. It grows by one new record at the end, and the returned position holds the record that was found or created. |
| SkillStore.DefaultValue | CoCCGen.Core/COCCharacter.cs:34-40 | Default -20 decodes to half of DEX rounded toward zero, stated as bounds for both signs. Default -50 decodes to EDU, and any other default to itself. |
| SkillStore.NewRecord | CoCCGen.Core/COCCharacter.cs:24-29 | A new record has the definition's name and no bonuses, and its value is the decoded default. It keeps the specialization when the definition takes one and has none otherwise. |
| SkillStore.ObtainKeepsKeysUnique | CoCCGen.Core/COCCharacter.cs:21-32 | With a specialization normalised for the definition, `GetSkill` keeps the records unique by identity. |
| SkillStore.ObtainDuplicatesUnnormalised | CoCCGen.Core/COCCharacter.cs:22-30 | Without that normalisation, a definition without a specialization asked for with one appends a duplicate on every call. |
| Phrases.ParsePhrase | CoCCGen.Core/AICharacterGenerator.cs:82 | The regular expression's first match: the base name is empty exactly when the phrase has no word character. Otherwise it is drawn from `[\w\s\/]` and ends in a word character. A captured specialization is non-empty and drawn from `[\w\s]`. |
| Phrases.MatchStartNone | CoCCGen.Core/AICharacterGenerator.cs:82 | The pattern matches nowhere from a position exactly when no word character follows it. |
| Phrases.BaseSpanShape | CoCCGen.Core/AICharacterGenerator.cs:82 | Group 1 is absent exactly when the phrase has no word character. When present, it is a run of `[\w\s\/]` that ends in a word character. |
| Phrases.ParseTrailing | CoCCGen.Core/AICharacterGenerator.cs:82 | A name followed by nothing, or by a character that is neither a name character nor `(`, parses to that name without specialization. |
| Phrases.ParseParenthetical | CoCCGen.Core/AICharacterGenerator.cs:82 | `Name (Spec` followed by nothing, or by a character outside `[\w\s]`, parses to the name and `Spec`. |
| Phrases.ParseLabel | CoCCGen.Core/AICharacterGenerator.cs:99-101 | Parsing `Name` or `Name (Spec)` gives back the name and the specialization. |
| Phrases.ParsePunctuated | CoCCGen.Core/AICharacterGenerator.cs:82 | Trailing punctuation is dropped: "Listen." parses to base name "Listen" and no specialization. |
| Phrases.ParseSlashedSpecialization | CoCCGen.Core/AICharacterGenerator.cs:82 | A specialization is cut at its first character outside `[\w\s]`: "Firearms (Rifle/Shotgun)" parses to "Firearms" and "Rifle". |
| Phrases.FirstNamed | CoCCGen.Core/AICharacterGenerator.cs:129 | The result is the first catalog position bearing the name, or none exactly when no entry bears it. |
| Phrases.FindByName | CoCCGen.Core/AICharacterGenerator.cs:129 | `FirstOrDefault` by name gives the first entry bearing the name, or nothing exactly when none does. |
| Phrases.FindByNameUnique | CoCCGen.Core/AICharacterGenerator.cs:129 | With unique names, looking up an entry's name gives that entry. |
| Phrases.FindSkill | CoCCGen.Core/AICharacterGenerator.cs:128-130 | A found entry is in the catalog and bears either the full phrase or the base name. |
| Phrases.FindSkillPrecedence | CoCCGen.Core/AICharacterGenerator.cs:128-130 | An entry named by the full phrase wins over one named by the base name. The base name is tried only when no entry has the full phrase, and nothing is found exactly when neither matches. |
| Phrases.Resolve | CoCCGen.Core/AICharacterGenerator.cs:99-108 | A resolved entry is in the catalog, and an entry that takes no specialization is resolved without one. |
| Phrases.ResolveFound | CoCCGen.Core/AICharacterGenerator.cs:99-108 | A phrase is skipped exactly when neither it nor its base name is in the catalog. Otherwise it resolves to a catalog entry with one of those names, and the parsed specialization is kept only if the entry takes one. |
| Phrases.PromptNames | CoCCGen.Core/AICharacterGenerator.cs:15-23 | A specialized entry that offers specializations contributes one `Name (Spec)` per offer, in order. Any other entry contributes its bare name. |
| Phrases.AllPossibleSkills | CoCCGen.Core/AICharacterGenerator.cs:14-25 | Every catalog entry offers at least one name, and exactly one when no entry offers a list of specializations. |
| Phrases.AllPossibleSkillsAppend | CoCCGen.Core/AICharacterGenerator.cs:14-25 | Names come in catalog order: appending an entry to the catalog appends that entry's names after all the earlier ones. |
| Phrases.AllPossibleSkillsMembers | CoCCGen.Core/AICharacterGenerator.cs:14-25 | A name is in `AllPossibleSkills` exactly when some catalog entry contributes it. |
| Phrases.ResolveByBase | CoCCGen.Core/AICharacterGenerator.cs:99-108 | In a catalog with unique names, a phrase that names no entry but whose base name names entry k resolves to entry k. The parsed specialization is kept when the entry takes one. |
| Phrases.LabelResolves | CoCCGen.Core/AICharacterGenerator.cs:99-108 | In a well-formed catalog, `Name (Spec)` built from an entry's name parses back to that name and `Spec`, and resolves to that entry. |
| Phrases.PromptNamesResolve | CoCCGen.Core/AICharacterGenerator.cs:99-108 | In a well-formed catalog, every offered name that comes back verbatim resolves to the entry that offered it, with the offered specialization. |
| Stacking.Raise | CoCCGen.Core/AICharacterGenerator.cs:112-122 | The raise step leaves a record at or above the target unchanged. A record without bonus reaches the target exactly. Otherwise it ends at the target less the old bonus, and the identity and initial value never change. |
| Stacking.Advance | CoCCGen.Core/AICharacterGenerator.cs:112-125 | One call applies the raise step only when the target is non-zero. The bonus is then added exactly. |
| Stacking.RaiseFromFresh | CoCCGen.Core/AICharacterGenerator.cs:113-117 | On a record without bonus, or already at the target, the raise step is "raise to at least". The new value is the larger of the old value and the target, and repeating the raise changes nothing. |
| Stacking.RaiseLayeredIsInvolution | CoCCGen.Core/AICharacterGenerator.cs:119-121 | On a record below the target with a positive bonus, the raise leaves it short of the target by that bonus, and a second identical raise restores the record. |
| Stacking.RaiseStackingExample | CoCCGen.Core/AICharacterGenerator.cs:116-121 | Initial 20, raised to 50, gives bonus 30. Raising that to 70 gives bonus 20 and value 40, and raising to 70 once more brings bonus 30 back. |
| Stacking.RaiseIdempotenceExample | CoCCGen.Core/AICharacterGenerator.cs:116-117 | A fresh record with initial 20 raised to 60 gets bonus 40, and the second raise to 60 keeps it. |
| Stacking.FlatBonusAfterRaise | CoCCGen.Core/AICharacterGenerator.cs:123-125 | A call without a target adds exactly its bonus, on top of an earlier raise. |
| Stacking.OccupationalSteps | CoCCGen.Core/AICharacterGenerator.cs:87-89 | The k-th occupational phrase is paired with the k-th ladder value and no bonus. |
| Stacking.InterestSteps | CoCCGen.Core/AICharacterGenerator.cs:93-95 | Every non-occupational phrase is paired with no target and the flat bonus 20. |
| Stacking.Plan | CoCCGen.Core/AICharacterGenerator.cs:84-95 | The calls of `ParseSkills` in order: the occupational phrases on the ladder, then Credit Rating on the next ladder value, then the non-occupational phrases with +20. |
| Stacking.PlanOrder | CoCCGen.Core/AICharacterGenerator.cs:84-95 | Every raise comes before every flat bonus, and the raise targets never go up along the calls. Exactly the first n+1 calls carry a target. |
| Stacking.LadderDescends | CoCCGen.Core/AICharacterGenerator.cs:84 | The occupational ladder is positive and never goes up. |
| Stacking.Learn | CoCCGen.Core/AICharacterGenerator.cs:97-126 | One `LearnOrAdvance` call on the record list adds at most one record. |
| Stacking.ApplySteps | CoCCGen.Core/AICharacterGenerator.cs:87-95 | A sequence of calls adds at most one record per call. |
| Stacking.LearnResolved | CoCCGen.Core/AICharacterGenerator.cs:103-125 | A phrase that resolves advances the first record with the resolved identity in place. When there is none, it appends the new record, advanced from its default. |
| Stacking.LearnSkipsUnknown | CoCCGen.Core/AICharacterGenerator.cs:103-104 | A phrase that names no catalog entry, in full or by its base name, leaves the record list unchanged. |
| Stacking.LearnTouchesOne | CoCCGen.Core/AICharacterGenerator.cs:110-125 | One call changes at most one existing record and keeps every record's identity and initial value in place. |
| Stacking.LearnKeepsKeysUnique | CoCCGen.Core/AICharacterGenerator.cs:106-110 | Because the specialization is normalised before `GetSkill`, each call keeps the records unique by identity. |
| Stacking.ApplyStepsKeepsKeysUnique | CoCCGen.Core/AICharacterGenerator.cs:87-95 | A whole sequence of calls keeps the records unique by identity. |
| Stacking.ApplyStepsAppend | CoCCGen.Core/AICharacterGenerator.cs:87-95 | Applying two call sequences one after the other is applying their concatenation. |
| Stacking.LearnSettled | CoCCGen.Core/AICharacterGenerator.cs:112-122 | On records that have no bonus or already reach a floor, a raise no higher than the floor acts as "raise to at least". The records stay settled at the new target. |
| Stacking.OccupationalPhaseSettled | CoCCGen.Core/AICharacterGenerator.cs:84-91 | Starting from records without bonuses, after the first k calls every record has no bonus or reaches the k-th ladder value. So the layered branch of the raise never fires in `ParseSkills`. |
| Stacking.CreditRatingParses | CoCCGen.Core/AICharacterGenerator.cs:91 | The phrase "Credit Rating" parses to itself as base name, without specialization. |
| Stacking.FirstAidExample | CoCCGen.Core/AICharacterGenerator.cs:87-91 | A single occupational phrase naming a plain entry with default 30 (First Aid, say) gives one record with bonus 40. Credit Rating, absent from that catalog, is skipped. |
| Stacking.FirstAidSteps | CoCCGen.Core/AICharacterGenerator.cs:87-91 | The raise to 70 on such an entry, followed by a phrase the catalog does not know, gives the single record with bonus 40. |
| Stacking.FreshRaise | CoCCGen.Core/AICharacterGenerator.cs:112-117 | Raising a fresh plain record with default 30 to 70 gives bonus 40. |
| Stacking.ResolveSpecialized | CoCCGen.Core/AICharacterGenerator.cs:99-108 | `Name (Spec)` resolves to the specialized entry named `Name`, keeping `Spec`. |
| Stacking.SpecializationOnce | CoCCGen.Core/AICharacterGenerator.cs:103-125 | A phrase resolving to a specialization, learnt into an empty list, gives one new record for that specialization with the +20 added. |
| Stacking.SpecializationRepeated | CoCCGen.Core/AICharacterGenerator.cs:103-125 | The same phrase learnt twice reaches one record, whose two bonuses add up. |
| Stacking.SpecializationApart | CoCCGen.Core/AICharacterGenerator.cs:103-125 | A phrase resolving to a specialization that no record holds yet appends a record of its own after the others. |
| Stacking.SpecializationIdentity | CoCCGen.Core/AICharacterGenerator.cs:97-126 | The same specialization twice reaches one record, whose bonuses add up. A different specialization of the same skill gets a record of its own, appended after it. |
| Generator.LearnOrAdvance | CoCCGen.Core/AICharacterGenerator.cs:97-126 | `LearnOrAdvance` on the character changes its records exactly as `Learn` specifies. Records are only appended. The attributes and scores are unchanged. |
| Generator.AdvanceRecord | CoCCGen.Core/AICharacterGenerator.cs:112-125 | The in-place update of `sk.Bonuses` changes only that record, to `Advance` of its old state. |
| Generator.ParseSkills | CoCCGen.Core/AICharacterGenerator.cs:76-95 | `ParseSkills` changes the records exactly as the calls of `Plan` on the split-and-trimmed lists, in order. It needs at most eight occupational phrases, and the attributes and scores are unchanged. |
| Generator.LearnOccupational | CoCCGen.Core/AICharacterGenerator.cs:87-89 | The occupational loop applies the occupational calls in order. |
| Generator.LearnInterests | CoCCGen.Core/AICharacterGenerator.cs:93-95 | The non-occupational loop applies the +20 calls in order. |
| Generator.BuildCharacter | CoCCGen.Core/AICharacterGenerator.cs:27-74 | Given the generated texts and the dice roll, the new character is built in full. The sheet is filled: texts from the description lines, slots from the priority list, scores from the stored attributes. The records are the plan's calls applied to an empty list, unique by identity. |
| Generator.Backstory | CoCCGen.Core/AICharacterGenerator.cs:40 | The backstory is empty when the description has at most four lines. Otherwise, splitting it again gives back exactly the lines after the fourth. |
| Generator.BuildSheet | CoCCGen.Core/AICharacterGenerator.cs:37-69 | Before the skills, the sheet is filled as above and the skill list is empty. |
| Generator.NewSheet | CoCCGen.Core/AICharacterGenerator.cs:37-58 | Name, age and occupation are the first three description lines trimmed, and the backstory is the lines after the fourth. Slots are zero and there are no skills. |
| Generator.StoreAllocation | CoCCGen.Core/AICharacterGenerator.cs:67-69 | After `AllocateAttributes` (line 42), the slots hold the placed ladder values, exactly the ladder when all eight codes are given. The map agrees with the slots the scores read. |
| Generator.SetScores | CoCCGen.Core/AICharacterGenerator.cs:44-65 | The scores are computed from the allocated map: damage bonus and build, movement, HP, MP and luck. They equal the derived scores of the stored attributes. |
| Generator.StoreAttributes | CoCCGen.Core/AICharacterGenerator.cs:67-69 | The store loop writes each code's allocated value into the slot `attributeOrder` gives it. |
| Generator.StoredSlot | CoCCGen.Core/AICharacterGenerator.cs:67-68 | A listed attribute's slot holds the value allocated to its code. |

## Left out

- The language-model calls and their prompts (`GenerateFullDescription`,
  `GenerateAttributePriority`, `GenerateTraits`, `GenerateSkills`, the
  OpenAI client): they are network I/O. Their replies are parameters of
  `Generator.BuildCharacter`.
- The dice (`Dice.Roll`): a process-wide random source. The 3d6 luck roll is
  a parameter.
- Loading the skill catalog from JSON (`COCSkillHelper.Load`): file I/O. The
  catalog is a sequence parameter.
- The console program (`Program.cs`): console and file output only.
- `ToAttributeString` and `COCCharacterAttributes.ToString`: display
  helpers that no modelled operation reads.
- `COCCharacterSkill.CompareTo`: it uses culture-sensitive string
  comparison and nothing in the modelled core calls it.
- Phrases.ParsePhrase: the regular expression at
  `AICharacterGenerator.cs:82` is modelled as its first match, with `\w`
  taken as the ASCII letters, digits and `_`, and `\s` as the white space
  of `Strings.IsWhiteSpace`. .NET's `\w` also matches non-ASCII letters;
  here those count as non-word characters.
- Strings.IsWhiteSpace: only the ASCII and Latin-1 white-space characters
  are recognised, not the whole Unicode class.
- CharacterSheet.CharacterSkill.HashCode: the string hash is a parameter,
  since .NET string hashing is randomised per process.
- CharacterSheet.CharacterSkill.Equals: compares against another skill
  record or null only. Objects of other types, which always compare
  unequal, are not modelled.
- Stacking.RaiseFromFresh: idempotence of the raise step is stated only for
  records without bonus or already at the target. As written, a second
  identical raise on a record with a bonus restores the record
  (`Stacking.RaiseLayeredIsInvolution`).
- Allocation.AllocateAttributes: more than eight codes, or a repeated code,
  make the source throw. These are preconditions rather than modelled
  exceptions.
- Generator.BuildCharacter: a description of fewer than three lines makes
  the source throw, and so does a priority list without STR, CON, SIZ, DEX
  and POW. Both are preconditions.
- Generator.ParseSkills: a ninth occupational phrase makes the source throw
  when it looks up the Credit Rating value. At most eight is a
  precondition.
- Generator.StoreAttributes: the dictionary is visited in insertion order.
  The codes go to distinct slots, so the order does not change the result.
- Generator.BuildCharacter: a priority code outside `attributeOrder` makes
  the source throw `KeyNotFoundException` at `AICharacterGenerator.cs:68`.
  `ValidPriority` requires every code to be known instead.
- Stacking.Raise: integers are unbounded, so the C# 32-bit wrap-around of
  the bonus updates at `AICharacterGenerator.cs:117` and `:120` is not
  modelled. The generator's own values stay far below the limit.
- Stacking.Advance: likewise, `sk.Bonuses += bonus` at
  `AICharacterGenerator.cs:124` does not wrap around.
- CharacterSheet.CharacterSkill.Value: `InitialValue + Bonuses` at
  `COCCharacter.cs:85` does not wrap around.
- DerivedScores.CalculateDBandBuild: STR+SIZ at
  `AICharacterGenerator.cs:262` does not wrap around.
- DerivedScores.HitPoints: CON+SIZ at `AICharacterGenerator.cs:47` does not
  wrap around.
- CharacterSheet.DamageBonusText: the interpolated numbers at
  `COCCharacter.cs:53-54` use the current culture's negative sign, which
  in some cultures is U+2212 rather than `-`. The model always writes `-`.
- CharacterSheet.SkillLine: the same holds for the numbers of a skill line
  at `COCCharacter.cs:89`.
- Generator.ParseSkills: the two loops of `ParseSkills` are the helper
  methods `Generator.LearnOccupational` and `Generator.LearnInterests`.
