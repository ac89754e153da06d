/** The character record (`COCCharacter` and its parts): the eight attribute
    slots, the derived-score block, the skill records, and the character's
    skill list with `GetSkill`. */
module CharacterSheet {
  import opened Wrappers
  import opened Strings
  import opened Arithmetic
  import opened Catalog
  import opened Phrases
  import opened SkillStore

  // ---------------------------------------------------------------------------
  // Attributes
  // ---------------------------------------------------------------------------

  /** The `Attributes` enumeration. */
  datatype Attribute = STR | CON | SIZ | DEX | INT | APP | POW | EDU

  /** `(int)Attributes.X`: the slot of an attribute in the eight-slot array. */
  function Index(a: Attribute): (i: nat)
    ensures i < 8
  {
    match a
    case STR => 0
    case CON => 1
    case SIZ => 2
    case DEX => 3
    case INT => 4
    case APP => 5
    case POW => 6
    case EDU => 7
  }

  /** The attribute stored in a slot. */
  function AttributeAt(i: nat): Attribute
    requires i < 8
  {
    [STR, CON, SIZ, DEX, INT, APP, POW, EDU][i]
  }

  /** Each attribute has its own slot and every slot belongs to one attribute. */
  lemma IndexBijective(a: Attribute, i: nat)
    requires i < 8
    ensures AttributeAt(Index(a)) == a
    ensures Index(AttributeAt(i)) == i
  {
  }

  /** The only slot holding `a` is `Index(a)`. */
  lemma SlotOf(a: Attribute)
    ensures forall i :: 0 <= i < 8 && AttributeAt(i) == a ==> i == Index(a)
  {
    forall i | 0 <= i < 8 && AttributeAt(i) == a
      ensures i == Index(a)
    {
      IndexBijective(a, i);
    }
  }

  /** `COCCharacterAttributes`: eight integer slots, read and written through
      the named accessors `Strength` ... `Education`, which are `Get(X)` and
      `Set(X, v)` here. */
  class CharacterAttributes {
    const values: array<int>

    constructor ()
      ensures fresh(values) && values.Length == 8
      ensures forall i :: 0 <= i < 8 ==> values[i] == 0
    {
      values := new int[8](i => 0);
    }

    /** The getter of the named accessor for `a`: the slot the
        enumeration assigns to `a`. */
    function Get(a: Attribute): (v: int)
      requires values.Length == 8
      reads values
      ensures forall i :: 0 <= i < 8 && AttributeAt(i) == a ==> v == values[i]
    {
      SlotOf(a);
      values[Index(a)]
    }

    /** The setter of the named accessor for `a`: writes exactly its slot,
        so the other seven attributes keep their values. */
    method Set(a: Attribute, v: int)
      requires values.Length == 8
      modifies values
      ensures Get(a) == v
      ensures forall b :: b != a ==> Get(b) == old(Get(b))
      ensures values[Index(a)] == v
      ensures forall i :: 0 <= i < 8 && i != Index(a) ==> values[i] == old(values[i])
    {
      values[Index(a)] := v;
      forall b | b != a
        ensures Index(b) != Index(a)
      {
        IndexBijective(a, 0);
        IndexBijective(b, 0);
      }
    }
  }

  // ---------------------------------------------------------------------------
  // Derived-score block
  // ---------------------------------------------------------------------------

  /** `COCCharacterScores.DamageBonus`: a non-positive value as its number, a
      positive one as extra dice, tens before the `D` and units after it.
      The text loses nothing: it reads back to the value, and it starts
      with `+` exactly for a positive value. */
  function DamageBonusText(v: int): (s: string)
    ensures ParseDamageBonus(s) == Some(v)
    ensures |s| >= 1 && (s[0] == '+' <==> v > 0)
  {
    if v <= 0 then
      NumberTextReadsBack(v);
      IntToString(v)
    else
      DiceTextReadsBack(v);
      "+" + IntToString(TruncDiv(v, 10)) + "D" + IntToString(TruncRem(v, 10))
  }

  /** A non-positive bonus, written as its number, reads back. */
  lemma NumberTextReadsBack(v: int)
    requires v <= 0
    ensures var s := IntToString(v);
            |s| >= 1 && s[0] != '+' && ParseDamageBonus(s) == Some(v)
  {
    IntToStringRoundTrip(v);
  }

  /** A positive bonus, written as extra dice, reads back. */
  lemma DiceTextReadsBack(v: int)
    requires v > 0
    ensures var s := "+" + IntToString(TruncDiv(v, 10)) + "D" + IntToString(TruncRem(v, 10));
            ParseDamageBonus(s) == Some(v)
  {
    var q := TruncDiv(v, 10);
    var r := TruncRem(v, 10);
    var tens := NatToString(q);
    var s := "+" + IntToString(q) + "D" + IntToString(r);
    ParseNatToString(q);
    assert s == "+" + tens + "D" + [DigitChar(r)];
    assert s[1..|s| - 2] == tens;
  }

  /** Text that `IntToString` can have written. */
  predicate IsIntText(s: string) {
    (|s| >= 2 && s[0] == '-' && AllDigits(s[1..])) || (|s| >= 1 && AllDigits(s))
  }

  /** Reads a damage bonus back from its display form. */
  function ParseDamageBonus(s: string): Option<int>
  {
    if |s| >= 4 && s[0] == '+' && s[|s| - 2] == 'D' && IsDigit(s[|s| - 1]) && AllDigits(s[1..|s| - 2]) then
      Some(10 * ParseNat(s[1..|s| - 2]) + DigitValue(s[|s| - 1]))
    else if IsIntText(s) then
      Some(ParseInt(s))
    else
      None
  }

  /** The two worked examples of the extra-dice notation. */
  lemma DamageBonusExamples()
    ensures DamageBonusText(14) == "+1D4"
    ensures DamageBonusText(26) == "+2D6"
    ensures DamageBonusText(0) == "0"
    ensures DamageBonusText(-2) == "-2"
  {
    assert TruncDiv(14, 10) == 1 && TruncRem(14, 10) == 4;
    assert TruncDiv(26, 10) == 2 && TruncRem(26, 10) == 6;
  }

  /** `COCCharacterScores`: settable derived scores. */
  class CharacterScores {
    var hp: int
    var mp: int
    var build: int
    var move: int
    var luck: int
    var damageBonusValue: int

    constructor ()
      ensures hp == 0 && mp == 0 && build == 0 && move == 0 && luck == 0 && damageBonusValue == 0
    {
      hp, mp, build, move, luck, damageBonusValue := 0, 0, 0, 0, 0, 0;
    }

    /** The damage bonus as displayed; it reads back to the stored value. */
    function DamageBonus(): (s: string)
      reads this
      ensures ParseDamageBonus(s) == Some(damageBonusValue)
    {
      DamageBonusText(damageBonusValue)
    }
  }

  // ---------------------------------------------------------------------------
  // Skill records
  // ---------------------------------------------------------------------------

  /** `COCCharacterSkill.ToString`: `Name (Spec): V% (V/2/V/5)`, halves and
      fifths by truncating division, the parenthetical only when there is a
      specialization. The line names its skill and value unambiguously, as
      long as the name and specialization are ones the skill-name pattern
      captures whole. */
  function SkillLine(s: SkillState): (line: string)
    ensures PlainName(s.skillName) && PlainSpec(s.specialization) ==>
              ParseSkillLine(line) == Some((s.skillName, s.specialization, s.Value(),
                                            TruncDiv(s.Value(), 2), TruncDiv(s.Value(), 5)))
  {
    var v := s.Value();
    var heading := Label(s.skillName, s.specialization);
    var line := heading + ": " + IntToString(v) + Fractions(v);
    if PlainName(s.skillName) && PlainSpec(s.specialization) then
      LabelHasNoColon(s.skillName, s.specialization);
      IntTextHasNoMarks(v);
      IntToStringRoundTrip(v);
      ParseSkillLineParts(heading, IntToString(v), Fractions(v));
      ParseLabel(s.skillName, s.specialization);
      line
    else
      line
  }

  /** The tail of a skill line: the percent sign, then the half and the
      fifth of the value in parentheses. */
  function Fractions(v: int): (tail: string)
    ensures |tail| >= 1 && tail[0] == '%'
    ensures ParseFractions(tail) == Some((TruncDiv(v, 2), TruncDiv(v, 5)))
  {
    var half, fifth := TruncDiv(v, 2), TruncDiv(v, 5);
    IntToStringRoundTrip(half);
    IntToStringRoundTrip(fifth);
    IntTextHasNoMarks(half);
    FractionsParts(IntToString(half), IntToString(fifth));
    "% (" + IntToString(half) + "/" + IntToString(fifth) + ")"
  }

  /** Reads the two numbers back from the tail `% (H/F)` of a skill line. */
  function ParseFractions(tail: string): Option<(int, int)>
  {
    if |tail| >= 4 && tail[..3] == "% (" && tail[|tail| - 1] == ')' then
      var inner := tail[3..|tail| - 1];
      if '/' in inner then
        var k := IndexOf(inner, '/');
        if IsIntText(inner[..k]) && IsIntText(inner[k + 1..]) then
          Some((ParseInt(inner[..k]), ParseInt(inner[k + 1..])))
        else None
      else None
    else None
  }

  /** Parsing a tail cut into its two numbers. */
  lemma FractionsParts(a: string, b: string)
    requires IsIntText(a) && '/' !in a
    requires IsIntText(b)
    ensures ParseFractions("% (" + a + "/" + b + ")") == Some((ParseInt(a), ParseInt(b)))
  {
    var inner := a + "/" + b;
    var tail := "% (" + inner + ")";
    assert "% (" + a + "/" + b + ")" == tail;
    assert tail[..3] == "% (";
    assert tail[|tail| - 1] == ')';
    assert tail[3..|tail| - 1] == inner;
    assert inner[|a|] == '/' && inner[..|a|] == a;
    assert IndexOf(inner, '/') == |a|;
    assert inner[|a| + 1..] == b;
  }

  /** Reads the heading, the value, its half and its fifth back from a
      skill line. */
  function ParseSkillLine(line: string): Option<(string, Option<string>, int, int, int)>
  {
    if ':' in line then
      var i := IndexOf(line, ':');
      var rest := line[i + 1..];
      if |rest| >= 1 && rest[0] == ' ' && '%' in rest then
        var j := IndexOf(rest, '%');
        var number := rest[1..j];
        if IsIntText(number) then
          match ParseFractions(rest[j..])
          case Some((half, fifth)) =>
            var (name, spec) := ParsePhrase(line[..i]);
            Some((name, spec, ParseInt(number), half, fifth))
          case None => None
        else None
      else None
    else None
  }

  lemma IntTextHasNoMarks(v: int)
    ensures ':' !in IntToString(v) && '%' !in IntToString(v) && '/' !in IntToString(v)
  {
    var s := IntToString(v);
    IntToStringRoundTrip(v);
    forall k | 0 <= k < |s|
      ensures s[k] != ':' && s[k] != '%' && s[k] != '/'
    {
      if k > 0 || v >= 0 {
        assert v < 0 ==> s[1..][k - 1] == s[k];
      }
    }
  }

  /** Parsing a line cut into heading, number and the rest. */
  lemma ParseSkillLineParts(heading: string, number: string, tail: string)
    requires ':' !in heading
    requires IsIntText(number) && '%' !in number
    requires |tail| >= 1 && tail[0] == '%' && ParseFractions(tail).Some?
    ensures ParseSkillLine(heading + ": " + number + tail)
            == Some((ParsePhrase(heading).0, ParsePhrase(heading).1, ParseInt(number),
                     ParseFractions(tail).value.0, ParseFractions(tail).value.1))
  {
    var line := heading + ": " + number + tail;
    assert line[|heading|] == ':';
    assert line[..|heading|] == heading;
    assert IndexOf(line, ':') == |heading|;
    var rest := [' '] + number + tail;
    assert line[|heading| + 1..] == rest;
    assert rest[|number| + 1] == '%';
    assert rest[..|number| + 1] == [' '] + number;
    assert IndexOf(rest, '%') == |number| + 1;
    assert rest[1..|number| + 1] == number;
    assert rest[|number| + 1..] == tail;
  }

  /** The name pattern's characters include no colon. */
  lemma LabelHasNoColon(name: string, spec: Option<string>)
    requires PlainName(name) && PlainSpec(spec)
    ensures ':' !in Label(name, spec)
  {
    forall k | 0 <= k < |name|
      ensures name[k] != ':'
    {
      assert IsNameChar(name[k]);
    }
    if spec.Some? {
      var x := spec.value;
      forall k | 0 <= k < |x|
        ensures x[k] != ':'
      {
        assert IsSpecChar(x[k]);
      }
      assert Label(name, spec) == name + [' ', '('] + x + [')'];
    }
  }

  /** `COCCharacterSkill`. Name, specialization and initial value are fixed
      at creation; the bonuses are updated in place. */
  class CharacterSkill {
    const skillName: string
    const specialization: Option<string>
    const initialValue: int
    var bonuses: int

    constructor (skillName: string, specialization: Option<string>, initialValue: int, bonuses: int)
      ensures this.skillName == skillName && this.specialization == specialization
      ensures this.initialValue == initialValue && this.bonuses == bonuses
    {
      this.skillName := skillName;
      this.specialization := specialization;
      this.initialValue := initialValue;
      this.bonuses := bonuses;
    }

    /** The record's state as a value. */
    function State(): SkillState
      reads this
    {
      SkillState(skillName, specialization, initialValue, bonuses)
    }

    /** `Value`: the initial value plus the bonuses, which is the value of
        the record's state. */
    function Value(): (v: int)
      reads this
      ensures v == State().Value()
    {
      initialValue + bonuses
    }

    /** `HasSpecialization`: the record carries a specialization, which is
        exactly when its label shows more than the bare skill name. */
    function HasSpecialization(): (h: bool)
      ensures h <==> specialization.Some?
      ensures h <==> Label(skillName, specialization) != skillName
    {
      assert specialization.Some? ==>
        |Label(skillName, specialization)| > |skillName|;
      specialization.Some?
    }

    /** `ToString`: the record's skill line, from which its name,
        specialization and value read back. */
    function ToString(): (line: string)
      reads this
      ensures PlainName(skillName) && PlainSpec(specialization) ==>
                ParseSkillLine(line) == Some((skillName, specialization, Value(),
                                              TruncDiv(Value(), 2), TruncDiv(Value(), 5)))
    {
      SkillLine(State())
    }

    /** `Equals`: same name and same specialization; nothing equals null.
        Two records are equal exactly when a skill list holding both would
        hold one identity twice. */
    predicate Equals(other: CharacterSkill?)
      reads this, other
      ensures Equals(other) <==> other != null && !KeysUnique([State(), other.State()])
    {
      other != null &&
        var pair := [State(), other.State()];
        assert KeysUnique(pair) <==> !(pair[0].skillName == pair[1].skillName
                                       && pair[0].specialization == pair[1].specialization);
        other.skillName == skillName && other.specialization == specialization
    }

    /** `GetHashCode`, for a given string hash: the name's hash, xor-ed with
        the specialization's when there is one; xor-ing the specialization's
        hash out again gives back the name's. */
    function HashCode(hash: string -> bv32): (h: bv32)
      ensures specialization.None? ==> h == hash(skillName)
      ensures specialization.Some? ==> h ^ hash(specialization.value) == hash(skillName)
    {
      match specialization
      case None => hash(skillName)
      case Some(x) => hash(skillName) ^ hash(x)
    }
  }

  /** `Equals` is an equivalence and agrees with `GetHashCode`. */
  lemma EqualsIsEquivalence(a: CharacterSkill, b: CharacterSkill, c: CharacterSkill, hash: string -> bv32)
    ensures a.Equals(a)
    ensures a.Equals(b) <==> b.Equals(a)
    ensures a.Equals(b) && b.Equals(c) ==> a.Equals(c)
    ensures a.Equals(b) ==> a.HashCode(hash) == b.HashCode(hash)
    ensures a.Equals(b) <==> a.skillName == b.skillName && a.specialization == b.specialization
  {
  }

  // ---------------------------------------------------------------------------
  // The character
  // ---------------------------------------------------------------------------

  /** `COCCharacter`: the generated texts, the attribute slots, the derived
      scores and the skill list. */
  class Character {
    const name: string
    const age: string
    const occupation: string
    const backstory: string
    const traits: string
    const occupationalSkills: string
    const nonOccupationalSkills: string
    const attributes: CharacterAttributes
    const scores: CharacterScores
    var skills: seq<CharacterSkill>
    /** The skill records the character owns. */
    ghost var Repr: set<CharacterSkill>

    /** Eight attribute slots, and each skill record in the list once and
        owned by the character. */
    ghost predicate Valid()
      reads this
    {
      && attributes.values.Length == 8
      && (forall i, j :: 0 <= i < j < |skills| ==> skills[i] != skills[j])
      && (forall i :: 0 <= i < |skills| ==> skills[i] in Repr)
    }

    /** The skill list as values. */
    ghost function Records(): (rs: seq<SkillState>)
      reads this, skills
      ensures |rs| == |skills|
      ensures forall i :: 0 <= i < |skills| ==> rs[i] == skills[i].State()
    {
      var ss := skills;
      seq(|ss|, i reads ss requires 0 <= i < |ss| => ss[i].State())
    }

    constructor (name: string, age: string, occupation: string, backstory: string, traits: string,
                 occupationalSkills: string, nonOccupationalSkills: string)
      ensures Valid() && skills == [] && Records() == [] && Repr == {}
      ensures fresh(attributes) && fresh(attributes.values) && fresh(scores)
      ensures forall i :: 0 <= i < 8 ==> attributes.values[i] == 0
      ensures this.name == name && this.age == age && this.occupation == occupation
      ensures this.backstory == backstory && this.traits == traits
      ensures this.occupationalSkills == occupationalSkills
      ensures this.nonOccupationalSkills == nonOccupationalSkills
    {
      this.name := name;
      this.age := age;
      this.occupation := occupation;
      this.backstory := backstory;
      this.traits := traits;
      this.occupationalSkills := occupationalSkills;
      this.nonOccupationalSkills := nonOccupationalSkills;
      attributes := new CharacterAttributes();
      scores := new CharacterScores();
      skills := [];
      Repr := {};
    }

    /** `GetSkill`: the first record with the definition's name and the given
        specialization, or else a fresh record appended at the end, with no
        bonuses, its initial value decoded from the definition's default, and
        the specialization kept only if the definition takes one. */
    method GetSkill(def: SkillDef, spec: Option<string>) returns (sk: CharacterSkill)
      requires Valid()
      modifies this
      ensures Valid()
      ensures var (rs, k) := Obtain(old(Records()), def, spec, attributes.Get(DEX), attributes.Get(EDU));
              Records() == rs && k < |skills| && sk == skills[k]
      ensures old(skills) <= skills
      ensures old(Repr) <= Repr && fresh(Repr - old(Repr))
    {
      var i := 0;
      while i < |skills|
        invariant 0 <= i <= |skills|
        invariant forall j :: 0 <= j < i ==> !(skills[j].skillName == def.name && skills[j].specialization == spec)
      {
        if skills[i].skillName == def.name && skills[i].specialization == spec {
          sk := skills[i];
          return;
        }
        i := i + 1;
      }
      var initial := DefaultValue(def.defaultValue, attributes.Get(DEX), attributes.Get(EDU));
      sk := new CharacterSkill(def.name, if def.specialization then spec else None, initial, 0);
      skills := skills + [sk];
      Repr := Repr + {sk};
    }
  }
}
