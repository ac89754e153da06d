/** Skill-name resolution: splitting a free-text phrase into a base name and
    an optional parenthetical, looking it up in the catalog, and the list of
    skill names offered to the text generator (`AllPossibleSkills`). */
module Phrases {
  import opened Wrappers
  import opened Strings
  import opened Catalog

  /** The display form of a skill: `Name` or `Name (Spec)`. This is both the
      shape the generator is shown and the label a skill line starts with. */
  function Label(name: string, spec: Option<string>): string
  {
    match spec
    case None => name
    case Some(x) => name + " (" + x + ")"
  }

  /** `\w` restricted to ASCII: a letter, a digit or `_`. */
  predicate IsWordChar(c: char) {
    'a' <= c <= 'z' || 'A' <= c <= 'Z' || '0' <= c <= '9' || c == '_'
  }

  /** The class `[\w\s\/]` the base name is drawn from. */
  predicate IsNameChar(c: char) {
    IsWordChar(c) || IsWhiteSpace(c) || c == '/'
  }

  /** The class `[\w\s]` the parenthetical is drawn from. */
  predicate IsSpecChar(c: char) {
    IsWordChar(c) || IsWhiteSpace(c)
  }

  /** The end of the longest run of name characters starting at `i`. */
  function NameRunEnd(p: string, i: nat): (e: nat)
    requires i <= |p|
    ensures i <= e <= |p|
    decreases |p| - i
  {
    if i == |p| || !IsNameChar(p[i]) then i else NameRunEnd(p, i + 1)
  }

  /** `NameRunEnd` ends a run: everything before it is a name character,
      and it is the end of the text or a character of another kind. */
  lemma {:induction false} NameRun(p: string, i: nat)
    requires i <= |p|
    ensures forall k :: i <= k < NameRunEnd(p, i) ==> IsNameChar(p[k])
    ensures NameRunEnd(p, i) == |p| || !IsNameChar(p[NameRunEnd(p, i)])
    decreases |p| - i
  {
    if i < |p| && IsNameChar(p[i]) {
      NameRun(p, i + 1);
    }
  }

  /** The end of the longest run of parenthetical characters starting at `i`. */
  function SpecRunEnd(p: string, i: nat): (e: nat)
    requires i <= |p|
    ensures i <= e <= |p|
    decreases |p| - i
  {
    if i == |p| || !IsSpecChar(p[i]) then i else SpecRunEnd(p, i + 1)
  }

  /** `SpecRunEnd` ends a run of parenthetical characters. */
  lemma {:induction false} SpecRun(p: string, i: nat)
    requires i <= |p|
    ensures forall k :: i <= k < SpecRunEnd(p, i) ==> IsSpecChar(p[k])
    ensures SpecRunEnd(p, i) == |p| || !IsSpecChar(p[SpecRunEnd(p, i)])
    decreases |p| - i
  {
    if i < |p| && IsSpecChar(p[i]) {
      SpecRun(p, i + 1);
    }
  }

  /** The last word character in `p[i..e]`, if any. */
  function LastWordChar(p: string, i: nat, e: nat): (r: Option<nat>)
    requires i <= e <= |p|
    ensures r.Some? ==> i <= r.value < e
    decreases e - i
  {
    if e == i then None
    else if IsWordChar(p[e - 1]) then Some(e - 1)
    else LastWordChar(p, i, e - 1)
  }

  /** `LastWordChar` finds a word character exactly when there is one, and
      none follows the one it finds. */
  lemma {:induction false} LastWord(p: string, i: nat, e: nat)
    requires i <= e <= |p|
    ensures LastWordChar(p, i, e).None? <==> forall k :: i <= k < e ==> !IsWordChar(p[k])
    ensures LastWordChar(p, i, e).Some? ==>
              var j := LastWordChar(p, i, e).value;
              IsWordChar(p[j]) && forall k :: j < k < e ==> !IsWordChar(p[k])
    decreases e - i
  {
    if e > i && !IsWordChar(p[e - 1]) {
      LastWord(p, i, e - 1);
    }
  }

  /** Where the leftmost match of `[\w\s\/]*\w+` at or after `i` begins: the
      first position whose run of name characters holds a word character. */
  function MatchStart(p: string, i: nat): (r: Option<nat>)
    requires i <= |p|
    ensures r.Some? ==> i <= r.value < |p| && LastWordChar(p, r.value, NameRunEnd(p, r.value)).Some?
    decreases |p| - i
  {
    if i == |p| then None
    else if LastWordChar(p, i, NameRunEnd(p, i)).Some? then Some(i)
    else MatchStart(p, i + 1)
  }

  /** There is a match exactly when a word character occurs. */
  lemma {:induction false} MatchStartNone(p: string, i: nat)
    requires i <= |p|
    ensures MatchStart(p, i).None? <==> forall k :: i <= k < |p| ==> !IsWordChar(p[k])
    decreases |p| - i
  {
    if i < |p| {
      NameRun(p, i);
      LastWord(p, i, NameRunEnd(p, i));
      MatchStartNone(p, i + 1);
    }
  }

  /** The span of group 1 of the first match: the leftmost run of name
      characters that holds a word character, up to its last word character.
      `None` when the phrase holds no word character at all. */
  function BaseSpan(p: string): (r: Option<(nat, nat)>)
    ensures r.Some? ==> r.value.0 < r.value.1 <= |p|
  {
    match MatchStart(p, 0)
    case None => None
    case Some(i) =>
      var j := LastWordChar(p, i, NameRunEnd(p, i)).value;
      Some((i, j + 1))
  }

  /** Group 1 is missing exactly when the phrase holds no word character,
      and is a plain name when present. */
  lemma BaseSpanShape(p: string)
    ensures BaseSpan(p).None? <==> forall k :: 0 <= k < |p| ==> !IsWordChar(p[k])
    ensures BaseSpan(p).Some? ==> PlainName(p[BaseSpan(p).value.0..BaseSpan(p).value.1])
  {
    MatchStartNone(p, 0);
    if MatchStart(p, 0).Some? {
      var i := MatchStart(p, 0).value;
      var e := NameRunEnd(p, i);
      NameRun(p, i);
      LastWord(p, i, e);
      PlainSlice(p, i, LastWordChar(p, i, e).value + 1, e);
    }
  }

  /** A slice of a run of name characters that ends in a word character is a
      plain name. */
  lemma PlainSlice(p: string, i: nat, j: nat, e: nat)
    requires i < j <= e <= |p|
    requires forall k :: i <= k < e ==> IsNameChar(p[k])
    requires IsWordChar(p[j - 1])
    ensures PlainName(p[i..j])
  {
    forall k | 0 <= k < j - i
      ensures IsNameChar(p[i..j][k])
    {
      assert p[i..j][k] == p[i + k];
    }
  }

  /** Group 2 of the match whose group 1 ends at `from`: after one optional
      white space and one optional `(`, the run of word and white-space
      characters that follows, when it is not empty. */
  function SpecGroup(p: string, from: nat): Option<string>
    requires from <= |p|
  {
    var k := if from < |p| && IsWhiteSpace(p[from]) then from + 1 else from;
    var k' := if k < |p| && p[k] == '(' then k + 1 else k;
    var e := SpecRunEnd(p, k');
    if e > k' then Some(p[k'..e]) else None
  }

  /** Group 2, when present, is a plain specialization. */
  lemma SpecGroupPlain(p: string, from: nat)
    requires from <= |p|
    ensures PlainSpec(SpecGroup(p, from))
  {
    var k := if from < |p| && IsWhiteSpace(p[from]) then from + 1 else from;
    var k' := if k < |p| && p[k] == '(' then k + 1 else k;
    SpecRun(p, k');
    var e := SpecRunEnd(p, k');
    assert forall m :: 0 <= m < e - k' ==> p[k'..e][m] == p[k' + m];
  }

  /** Splits a phrase into `(base, parenthetical)` as the regular expression
      `([\w\s\/]*\w+)\s?\(?([\w\s]+)?\)?` does with its first match: the base
      is group 1, empty when the match fails, and the parenthetical is group
      2 when that group took part in the match. */
  function ParsePhrase(p: string): (r: (string, Option<string>))
    ensures r.0 == [] <==> forall k :: 0 <= k < |p| ==> !IsWordChar(p[k])
    ensures r.0 != [] ==> PlainName(r.0)
    ensures PlainSpec(r.1)
  {
    BaseSpanShape(p);
    match BaseSpan(p)
    case None => ("", None)
    case Some((i, j)) => SpecGroupPlain(p, j); (p[i..j], SpecGroup(p, j))
  }

  /** A name the regular expression captures whole as group 1: non-empty,
      drawn from `[\w\s\/]`, and ending in a word character. */
  predicate PlainName(name: string) {
    && |name| > 0
    && (forall k :: 0 <= k < |name| ==> IsNameChar(name[k]))
    && IsWordChar(name[|name| - 1])
  }

  /** A specialization the regular expression captures whole as group 2:
      absent, or non-empty text drawn from `[\w\s]`. */
  predicate PlainSpec(spec: Option<string>) {
    spec.None? || (|spec.value| > 0 && forall k :: 0 <= k < |spec.value| ==> IsSpecChar(spec.value[k]))
  }

  /** A run of name characters ended by the end of the text or by another
      character is the run `NameRunEnd` finds. */
  lemma NameRunEndIs(p: string, i: nat, e: nat)
    requires i <= e <= |p|
    requires forall k :: i <= k < e ==> IsNameChar(p[k])
    requires e == |p| || !IsNameChar(p[e])
    ensures NameRunEnd(p, i) == e
  {
    NameRun(p, i);
  }

  /** The same for runs of parenthetical characters. */
  lemma SpecRunEndIs(p: string, i: nat, e: nat)
    requires i <= e <= |p|
    requires forall k :: i <= k < e ==> IsSpecChar(p[k])
    requires e == |p| || !IsSpecChar(p[e])
    ensures SpecRunEnd(p, i) == e
  {
    SpecRun(p, i);
  }

  /** When the phrase starts with a plain name that the character at `n`
      ends, group 1 is that name. */
  lemma BaseSpanAt(p: string, n: nat, e: nat)
    requires 0 < n <= e <= |p| && PlainName(p[..n])
    requires forall k :: n <= k < e ==> IsNameChar(p[k]) && !IsWordChar(p[k])
    requires e == |p| || !IsNameChar(p[e])
    ensures BaseSpan(p) == Some((0, n))
  {
    assert forall k :: 0 <= k < n ==> p[k] == p[..n][k];
    NameRunEndIs(p, 0, e);
    LastWord(p, 0, e);
    assert LastWordChar(p, 0, e) == Some(n - 1);
  }

  /** Group 2 is absent when group 1 is followed by nothing, or by a
      character that neither continues the name nor opens a parenthetical. */
  lemma SpecGroupAbsent(p: string, from: nat)
    requires from <= |p|
    requires from == |p| || (!IsNameChar(p[from]) && p[from] != '(')
    ensures SpecGroup(p, from) == None
  {
    SpecRunEndIs(p, from, from);
  }

  /** Group 2 after a space and `(` is the run of parenthetical characters
      that follows them. */
  lemma SpecGroupAt(p: string, from: nat, e: nat)
    requires from + 2 < e <= |p|
    requires p[from] == ' ' && p[from + 1] == '('
    requires forall k :: from + 2 <= k < e ==> IsSpecChar(p[k])
    requires e == |p| || !IsSpecChar(p[e])
    ensures SpecGroup(p, from) == Some(p[from + 2..e])
  {
    assert IsWhiteSpace(' ');
    SpecRunEndIs(p, from + 2, e);
  }

  /** A plain name followed by nothing, or by a character that can neither
      continue the name nor open a parenthetical, parses to that name alone:
      the regular expression drops trailing punctuation. */
  lemma ParseTrailing(name: string, rest: string)
    requires PlainName(name)
    requires rest == [] || (!IsNameChar(rest[0]) && rest[0] != '(')
    ensures ParsePhrase(name + rest) == (name, None)
  {
    var p := name + rest;
    var n := |name|;
    assert p[..n] == name;
    BaseSpanAt(p, n, n);
    SpecGroupAbsent(p, n);
  }

  /** A plain name, a space, `(`, and a plain specialization parse to that
      name and specialization whatever follows, provided it does not continue
      the specialization: group 2 stops at the first character outside
      `[\w\s]`, a closing `)` or any other. */
  lemma ParseParenthetical(name: string, x: string, rest: string)
    requires PlainName(name) && PlainSpec(Some(x))
    requires rest == [] || !IsSpecChar(rest[0])
    ensures ParsePhrase(name + " (" + x + rest) == (name, Some(x))
  {
    var n := |name|;
    var head := name + [' ', '('];
    var p := head + (x + rest);
    assert name + " (" + x + rest == p;
    assert p[..n] == name;
    BaseSpanAt(p, n, n + 1);
    var m := n + 2 + |x|;
    assert p[n + 2..m] == x;
    forall k | n + 2 <= k < m
      ensures IsSpecChar(p[k])
    {
      assert p[k] == x[k - n - 2];
    }
    assert m < |p| ==> p[m] == rest[0];
    SpecGroupAt(p, n, m);
  }

  /** Parsing inverts the display form. */
  lemma ParseLabel(name: string, spec: Option<string>)
    requires PlainName(name) && PlainSpec(spec)
    ensures ParsePhrase(Label(name, spec)) == (name, spec)
  {
    if spec.None? {
      ParseTrailing(name, []);
      assert name + [] == name;
    } else {
      ParseParenthetical(name, spec.value, ")");
    }
  }

  /** `Listen.` is looked up as `Listen`. */
  lemma ParsePunctuated()
    ensures ParsePhrase("Listen.") == ("Listen", None)
  {
    assert "Listen" + "." == "Listen.";
    ParseTrailing("Listen", ".");
  }

  /** `Firearms (Rifle/Shotgun)` keeps only `Rifle` as its specialization. */
  lemma ParseSlashedSpecialization()
    ensures ParsePhrase("Firearms (Rifle/Shotgun)") == ("Firearms", Some("Rifle"))
  {
    assert "Firearms" + " (" + "Rifle" + "/Shotgun)" == "Firearms (Rifle/Shotgun)";
    ParseParenthetical("Firearms", "Rifle", "/Shotgun)");
  }

  /** The position of the first catalog entry with the given name. */
  function FirstNamed(catalog: seq<SkillDef>, name: string): (r: Option<nat>)
    ensures r.None? <==> forall k :: 0 <= k < |catalog| ==> catalog[k].name != name
    ensures r.Some? ==> r.value < |catalog| && catalog[r.value].name == name
                        && forall j :: 0 <= j < r.value ==> catalog[j].name != name
  {
    if |catalog| == 0 then None
    else if catalog[0].name == name then Some(0)
    else
      match FirstNamed(catalog[1..], name)
      case None => None
      case Some(k) => Some(k + 1)
  }

  /** `catalog.FirstOrDefault(s => s.Name == name)`. */
  function FindByName(catalog: seq<SkillDef>, name: string): (r: Option<SkillDef>)
    ensures r.None? <==> forall k :: 0 <= k < |catalog| ==> catalog[k].name != name
    ensures r.Some? ==> r.value.name == name && r.value == catalog[FirstNamed(catalog, name).value]
  {
    match FirstNamed(catalog, name)
    case None => None
    case Some(k) => Some(catalog[k])
  }

  /** With unique names, the entry found by name is the one with that name. */
  lemma FindByNameUnique(catalog: seq<SkillDef>, k: nat)
    requires k < |catalog|
    requires forall i, j :: 0 <= i < j < |catalog| ==> catalog[i].name != catalog[j].name
    ensures FindByName(catalog, catalog[k].name) == Some(catalog[k])
  {
  }

  /** The local `FindSkill`: the entry named by the full phrase if there is
      one, else the entry named by the base name, else nothing. */
  function FindSkill(catalog: seq<SkillDef>, fullName: string, skillName: string): (r: Option<SkillDef>)
    ensures r.Some? ==> r.value in catalog && (r.value.name == fullName || r.value.name == skillName)
  {
    match FindByName(catalog, fullName)
    case Some(d) => Some(d)
    case None => FindByName(catalog, skillName)
  }

  /** The full phrase takes precedence over the base name, and nothing is
      found only when neither names an entry. */
  lemma FindSkillPrecedence(catalog: seq<SkillDef>, fullName: string, skillName: string)
    ensures var r := FindSkill(catalog, fullName, skillName);
            && ((exists k :: 0 <= k < |catalog| && catalog[k].name == fullName) ==>
                  r == FindByName(catalog, fullName) && r.Some? && r.value.name == fullName)
            && ((forall k :: 0 <= k < |catalog| ==> catalog[k].name != fullName) ==>
                  r == FindByName(catalog, skillName))
            && (r.None? <==> forall k :: 0 <= k < |catalog| ==>
                               catalog[k].name != fullName && catalog[k].name != skillName)
  {
  }

  /** What the body of `LearnOrAdvance` resolves a phrase to before touching
      the character: the catalog entry and the specialization to use, which is
      dropped when the entry takes none. `None` means the phrase is skipped. */
  function Resolve(catalog: seq<SkillDef>, phrase: string): (r: Option<(SkillDef, Option<string>)>)
    ensures r.Some? ==> r.value.0 in catalog
    ensures r.Some? && !r.value.0.specialization ==> r.value.1.None?
  {
    var (base, paren) := ParsePhrase(phrase);
    match FindSkill(catalog, phrase, base)
    case None => None
    case Some(def) => Some((def, if def.specialization then paren else None))
  }

  /** A phrase is skipped exactly when neither it nor its base name names a
      catalog entry; otherwise it resolves to a catalog entry bearing one of
      those names, keeping the parsed specialization only when the entry
      takes one. */
  lemma ResolveFound(catalog: seq<SkillDef>, phrase: string)
    ensures var r := Resolve(catalog, phrase);
            var base := ParsePhrase(phrase).0;
            && (r.None? <==> forall k :: 0 <= k < |catalog| ==> catalog[k].name != phrase && catalog[k].name != base)
            && (r.Some? ==> r.value.0 in catalog && (r.value.0.name == phrase || r.value.0.name == base))
            && (r.Some? ==> r.value.1 == if r.value.0.specialization then ParsePhrase(phrase).1 else None)
  {
    FindSkillPrecedence(catalog, phrase, ParsePhrase(phrase).0);
  }

  /** The names one catalog entry contributes to the generator's list: one
      `Name (Spec)` per offered specialization when the entry takes a
      specialization and offers some, otherwise the bare name. */
  function PromptNames(d: SkillDef): (names: seq<string>)
    ensures |names| >= 1
    ensures d.specialization && d.possibleSpecs.Some? && |d.possibleSpecs.value| > 0 ==>
              |names| == |d.possibleSpecs.value|
              && forall k :: 0 <= k < |names| ==> names[k] == Label(d.name, Some(d.possibleSpecs.value[k]))
    ensures !(d.specialization && d.possibleSpecs.Some? && |d.possibleSpecs.value| > 0) ==> names == [d.name]
  {
    if d.specialization && d.possibleSpecs.Some? && |d.possibleSpecs.value| > 0 then
      var specs := d.possibleSpecs.value;
      seq(|specs|, k requires 0 <= k < |specs| => Label(d.name, Some(specs[k])))
    else
      [d.name]
  }

  /** `AllPossibleSkills`: the entries' names, in catalog order. Every
      entry offers at least one name, and exactly one when none offers a
      list of specializations. */
  function AllPossibleSkills(catalog: seq<SkillDef>): (names: seq<string>)
    ensures |names| >= |catalog|
    ensures (forall k :: 0 <= k < |catalog| ==> |PromptNames(catalog[k])| == 1) ==> |names| == |catalog|
  {
    if |catalog| == 0 then [] else PromptNames(catalog[0]) + AllPossibleSkills(catalog[1..])
  }

  /** Catalog order: appending an entry appends its names after all the
      names offered before it. */
  lemma {:induction false} AllPossibleSkillsAppend(catalog: seq<SkillDef>, d: SkillDef)
    ensures AllPossibleSkills(catalog + [d]) == AllPossibleSkills(catalog) + PromptNames(d)
  {
    if |catalog| == 0 {
      assert catalog + [d] == [d];
      assert [d][1..] == [];
    } else {
      assert (catalog + [d])[0] == catalog[0];
      assert (catalog + [d])[1..] == catalog[1..] + [d];
      AllPossibleSkillsAppend(catalog[1..], d);
    }
  }

  /** A name is offered exactly when some catalog entry contributes it. */
  lemma {:induction false} AllPossibleSkillsMembers(catalog: seq<SkillDef>, n: string)
    ensures n in AllPossibleSkills(catalog) <==> exists k :: 0 <= k < |catalog| && n in PromptNames(catalog[k])
  {
    if |catalog| > 0 {
      AllPossibleSkillsMembers(catalog[1..], n);
      if n in AllPossibleSkills(catalog[1..]) {
        var k :| 0 <= k < |catalog| - 1 && n in PromptNames(catalog[1..][k]);
        assert n in PromptNames(catalog[k + 1]);
      }
      if exists k :: 0 <= k < |catalog| && n in PromptNames(catalog[k]) {
        var k :| 0 <= k < |catalog| && n in PromptNames(catalog[k]);
        if k > 0 {
          assert n in PromptNames(catalog[1..][k - 1]);
        }
      }
    }
  }

  /** A catalog whose names are unique and captured whole by the regular
      expression, and whose offered specializations are too. */
  predicate WellFormedCatalog(catalog: seq<SkillDef>) {
    && (forall i, j :: 0 <= i < j < |catalog| ==> catalog[i].name != catalog[j].name)
    && (forall k :: 0 <= k < |catalog| ==> PlainName(catalog[k].name))
    && (forall k :: 0 <= k < |catalog| ==> catalog[k].possibleSpecs.Some? ==>
          forall x :: x in catalog[k].possibleSpecs.value ==> PlainSpec(Some(x)))
  }

  /** A phrase that names no catalog entry but whose base name names
      entry `k` of a catalog with unique names resolves to that entry. */
  lemma ResolveByBase(catalog: seq<SkillDef>, k: nat, n: string)
    requires k < |catalog|
    requires forall i, j :: 0 <= i < j < |catalog| ==> catalog[i].name != catalog[j].name
    requires forall j :: 0 <= j < |catalog| ==> catalog[j].name != n
    requires ParsePhrase(n).0 == catalog[k].name
    ensures Resolve(catalog, n) == Some((catalog[k], if catalog[k].specialization then ParsePhrase(n).1 else None))
  {
    FindByNameUnique(catalog, k);
    assert FindByName(catalog, n).None?;
  }

  /** Every name offered to the generator, when it comes back verbatim,
      resolves to the entry that offered it, with the offered specialization. */
  lemma PromptNamesResolve(catalog: seq<SkillDef>, k: nat, n: string)
    requires WellFormedCatalog(catalog)
    requires k < |catalog| && n in PromptNames(catalog[k])
    ensures Resolve(catalog, n).Some? && Resolve(catalog, n).value.0 == catalog[k]
    ensures ParsePhrase(n).0 == catalog[k].name
    ensures catalog[k].specialization ==> Resolve(catalog, n).value.1 == ParsePhrase(n).1
  {
    var d := catalog[k];
    if d.specialization && d.possibleSpecs.Some? && |d.possibleSpecs.value| > 0 {
      var names := PromptNames(d);
      var i :| 0 <= i < |names| && names[i] == n;
      var x := d.possibleSpecs.value[i];
      assert x in d.possibleSpecs.value;
      LabelResolves(catalog, k, x);
    } else {
      assert n == d.name;
      FindByNameUnique(catalog, k);
      ParseLabel(d.name, None);
    }
  }

  /** `Name (Spec)` for a well-formed catalog's entry resolves to it by its
      base name, no entry bearing the full label. */
  lemma LabelResolves(catalog: seq<SkillDef>, k: nat, x: string)
    requires WellFormedCatalog(catalog)
    requires k < |catalog| && PlainSpec(Some(x))
    ensures ParsePhrase(Label(catalog[k].name, Some(x))) == (catalog[k].name, Some(x))
    ensures Resolve(catalog, Label(catalog[k].name, Some(x)))
            == Some((catalog[k], if catalog[k].specialization then Some(x) else None))
  {
    var n := Label(catalog[k].name, Some(x));
    ParseLabel(catalog[k].name, Some(x));
    assert n[|n| - 1] == ')';
    forall j | 0 <= j < |catalog|
      ensures catalog[j].name != n
    {
      assert PlainName(catalog[j].name);
    }
    ResolveByBase(catalog, k, n);
  }
}
