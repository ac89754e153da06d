/** The character's skill store as values: the state of one skill record and
    the specification of `COCCharacter.GetSkill` (find the record with the
    same name and specialization, or append a fresh one). */
module SkillStore {
  import opened Wrappers
  import opened Arithmetic
  import opened Catalog

  /** The state of one `COCCharacterSkill`: its identity (name and
      specialization), its initial value and its accumulated bonuses. */
  datatype SkillState = SkillState(
    skillName: string,
    specialization: Option<string>,
    initialValue: int,
    bonuses: int)
  {
    /** The skill's current value. */
    function Value(): int {
      initialValue + bonuses
    }
  }

  /** The local `GetDefaultValue`: decodes the catalog's sentinel default,
      -20 as half of DEX (the C# division, truncating toward zero), -50 as
      EDU, and any other value as itself. */
  function DefaultValue(defaultValue: int, dexterity: int, education: int): (v: int)
    ensures defaultValue == HalfDexterity ==>
              && -1 <= dexterity - 2 * v <= 1
              && (dexterity >= 0 ==> 0 <= 2 * v <= dexterity)
              && (dexterity < 0 ==> dexterity <= 2 * v <= 0)
    ensures defaultValue == EqualEducation ==> v == education
    ensures defaultValue != HalfDexterity && defaultValue != EqualEducation ==> v == defaultValue
  {
    if defaultValue == HalfDexterity then TruncDiv(dexterity, 2)
    else if defaultValue == EqualEducation then education
    else defaultValue
  }

  /** The position of the first record with the given identity
      (`Skills.FirstOrDefault(...)`). */
  function FindRecord(rs: seq<SkillState>, name: string, spec: Option<string>): (r: Option<nat>)
    ensures r.None? <==> forall j :: 0 <= j < |rs| ==> !(rs[j].skillName == name && rs[j].specialization == spec)
    ensures r.Some? ==> r.value < |rs| && rs[r.value].skillName == name && rs[r.value].specialization == spec
                        && forall j :: 0 <= j < r.value ==> !(rs[j].skillName == name && rs[j].specialization == spec)
  {
    if |rs| == 0 then None
    else if rs[0].skillName == name && rs[0].specialization == spec then Some(0)
    else
      match FindRecord(rs[1..], name, spec)
      case None => None
      case Some(k) => Some(k + 1)
  }

  /** The record `GetSkill` creates when none matches: the definition's
      name, no bonuses, the decoded default as its value, and the
      specialization only when the definition takes one. */
  function NewRecord(def: SkillDef, spec: Option<string>, dexterity: int, education: int): (s: SkillState)
    ensures s.skillName == def.name && s.bonuses == 0
    ensures s.Value() == DefaultValue(def.defaultValue, dexterity, education)
    ensures def.specialization ==> s.specialization == spec
    ensures !def.specialization ==> s.specialization.None?
  {
    SkillState(def.name, if def.specialization then spec else None,
               DefaultValue(def.defaultValue, dexterity, education), 0)
  }

  /** `GetSkill` on values: the new record list and the position of the
      record handed back. The lookup uses the specialization as passed; a new
      record keeps it only when the definition takes a specialization. */
  function Obtain(rs: seq<SkillState>, def: SkillDef, spec: Option<string>, dexterity: int, education: int)
    : (r: (seq<SkillState>, nat))
    ensures r.1 < |r.0| && r.0[r.1].skillName == def.name
    ensures rs <= r.0 && |r.0| <= |rs| + 1
    ensures |r.0| == |rs| <==>
              exists j :: 0 <= j < |rs| && rs[j].skillName == def.name && rs[j].specialization == spec
    ensures |r.0| == |rs| ==> r.0[r.1].specialization == spec
                              && forall j :: 0 <= j < r.1 ==> !(rs[j].skillName == def.name && rs[j].specialization == spec)
    ensures |r.0| == |rs| + 1 ==> r.1 == |rs| && r.0[r.1] == NewRecord(def, spec, dexterity, education)
  {
    match FindRecord(rs, def.name, spec)
    case Some(k) => (rs, k)
    case None => (rs + [NewRecord(def, spec, dexterity, education)], |rs|)
  }

  /** No two records share an identity: the store is a set under
      `(SkillName, Specialization)`. */
  predicate KeysUnique(rs: seq<SkillState>) {
    forall i, j :: 0 <= i < j < |rs| ==>
      !(rs[i].skillName == rs[j].skillName && rs[i].specialization == rs[j].specialization)
  }

  /** `GetSkill` keeps the store a set under identity, provided the
      specialization it is given is already normalised for the definition
      (which is what `LearnOrAdvance` does before calling it). */
  lemma ObtainKeepsKeysUnique(rs: seq<SkillState>, def: SkillDef, spec: Option<string>, dexterity: int, education: int)
    requires KeysUnique(rs)
    requires def.specialization || spec.None?
    ensures KeysUnique(Obtain(rs, def, spec, dexterity, education).0)
  {
  }

  /** Without that normalisation the store does not stay a set: a flagless
      definition asked for with a specialization appends a fresh record on
      every call, since the lookup compares against the specialization as
      passed while the record stores none. */
  lemma ObtainDuplicatesUnnormalised(def: SkillDef, dexterity: int, education: int)
    requires !def.specialization
    ensures var once := Obtain([], def, Some("x"), dexterity, education).0;
            var twice := Obtain(once, def, Some("x"), dexterity, education).0;
            |twice| == 2 && !KeysUnique(twice)
  {
    var once := Obtain([], def, Some("x"), dexterity, education).0;
    assert once == [NewRecord(def, Some("x"), dexterity, education)];
  }
}
