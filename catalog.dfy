/** The skill catalog record (`COCSkill`), loaded once from the catalog file. */
module Catalog {
  import opened Wrappers

  /** One known skill: its name, whether it carries a free-text
      specialization, its default value and the specializations offered to
      the text generator. `possibleSpecs` is `None` when the catalog entry has
      no list at all (the field is then null in the source). */
  datatype SkillDef = SkillDef(
    name: string,
    specialization: bool,
    defaultValue: int,
    possibleSpecs: Option<seq<string>>)

  /** The default-value sentinel meaning "half of the character's DEX". */
  const HalfDexterity: int := -20

  /** The default-value sentinel meaning "equal to the character's EDU". */
  const EqualEducation: int := -50
}
