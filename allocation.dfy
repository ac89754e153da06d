/** Attribute allocation: the priority list is mapped onto the fixed value
    ladder by position (`AllocateAttributes`), and the values are then stored
    in the character's eight slots through the `attributeOrder` table. */
module Allocation {
  import opened Strings
  import CharacterSheet

  /** `attributeValues`: the ladder handed out by priority. */
  const AttributeValues: seq<int> := [80, 70, 60, 60, 50, 50, 50, 40]

  /** `attributeOrder`: the slot of each attribute code. */
  const AttributeOrder: map<string, nat> :=
    map["STR" := 0, "CON" := 1, "SIZ" := 2, "DEX" := 3, "INT" := 4, "APP" := 5, "POW" := 6, "EDU" := 7]

  /** The code the generator uses for an attribute. */
  function Code(a: CharacterSheet.Attribute): string
  {
    match a
    case STR => "STR"
    case CON => "CON"
    case SIZ => "SIZ"
    case DEX => "DEX"
    case INT => "INT"
    case APP => "APP"
    case POW => "POW"
    case EDU => "EDU"
  }

  /** The generator's table and the enumeration agree on every slot. */
  lemma AttributeOrderMatchesIndex(a: CharacterSheet.Attribute)
    ensures Code(a) in AttributeOrder && AttributeOrder[Code(a)] == CharacterSheet.Index(a)
  {
  }

  /** The table sends distinct codes to distinct slots among the eight. */
  lemma AttributeOrderInjective(x: string, y: string)
    ensures x in AttributeOrder ==> AttributeOrder[x] < 8
    ensures x in AttributeOrder && y in AttributeOrder && AttributeOrder[x] == AttributeOrder[y] ==> x == y
  {
  }

  /** The priority text as a list of codes: split on commas and trimmed. */
  function AttributeList(attributes: string): seq<string>
  {
    SplitTrim(attributes, ',')
  }

  predicate Distinct(codes: seq<string>) {
    forall i, j :: 0 <= i < j < |codes| ==> codes[i] != codes[j]
  }

  /** `AllocateAttributes`: the code at position `i` receives the `i`-th
      ladder value. More than eight codes would overrun the ladder and a
      repeated code would be added twice; both are excluded. */
  method AllocateAttributes(attributes: string) returns (a: map<string, int>)
    requires |AttributeList(attributes)| <= |AttributeValues|
    requires Distinct(AttributeList(attributes))
    ensures var codes := AttributeList(attributes);
            && (forall c :: c in a <==> c in codes)
            && forall i :: 0 <= i < |codes| ==> a[codes[i]] == AttributeValues[i]
  {
    var attributeList := AttributeList(attributes);
    a := map[];
    var i := 0;
    while i < |attributeList|
      invariant 0 <= i <= |attributeList|
      invariant forall c :: c in a <==> c in attributeList[..i]
      invariant forall k :: 0 <= k < i ==> a[attributeList[k]] == AttributeValues[k]
    {
      var attribute := attributeList[i];
      var value := AttributeValues[i];
      assert attributeList[..i + 1] == attributeList[..i] + [attribute];
      a := a[attribute := value];
      i := i + 1;
    }
    assert attributeList[..i] == attributeList;
  }

  /** The eight slots after storing the first `|codes|` ladder values, one
      code after the other (the loop over the allocated map). */
  function Placed(codes: seq<string>): (slots: seq<int>)
    requires |codes| <= 8
    requires forall i :: 0 <= i < |codes| ==> codes[i] in AttributeOrder
    ensures |slots| == 8
    ensures forall j :: 0 <= j < 8 ==> slots[j] == 0 || slots[j] in AttributeValues[..|codes|]
  {
    if |codes| == 0 then [0, 0, 0, 0, 0, 0, 0, 0]
    else
      var n := |codes| - 1;
      Placed(codes[..n])[AttributeOrder[codes[n]] := AttributeValues[n]]
  }

  /** With distinct codes, each code's slot holds its ladder value and every
      other slot is still zero. */
  lemma {:induction false} PlacedAt(codes: seq<string>)
    requires |codes| <= 8 && Distinct(codes)
    requires forall i :: 0 <= i < |codes| ==> codes[i] in AttributeOrder
    ensures forall i :: 0 <= i < |codes| ==> Placed(codes)[AttributeOrder[codes[i]]] == AttributeValues[i]
    ensures forall j :: 0 <= j < 8 && (forall i :: 0 <= i < |codes| ==> AttributeOrder[codes[i]] != j) ==>
              Placed(codes)[j] == 0
  {
    if |codes| > 0 {
      var n := |codes| - 1;
      PlacedAt(codes[..n]);
      forall i | 0 <= i < n
        ensures AttributeOrder[codes[i]] != AttributeOrder[codes[n]]
      {
        AttributeOrderInjective(codes[i], codes[n]);
      }
    }
  }

  /** Values moved to distinct positions keep their multiset. */
  lemma {:induction false} PermutedMultiset(s: seq<int>, t: seq<int>, p: seq<nat>)
    requires |s| == |t| == |p|
    requires forall i :: 0 <= i < |p| ==> p[i] < |t| && t[p[i]] == s[i]
    requires forall i, j :: 0 <= i < j < |p| ==> p[i] != p[j]
    ensures multiset(s) == multiset(t)
    decreases |s|
  {
    if |s| > 0 {
      var n := |s| - 1;
      var k := p[n];
      var rest := t[..k] + t[k + 1..];
      var q := seq(n, i requires 0 <= i < n => if p[i] < k then p[i] else p[i] - 1);
      forall i | 0 <= i < n
        ensures q[i] < |rest| && rest[q[i]] == s[i]
      {
        assert p[i] != k;
      }
      forall i, j | 0 <= i < j < n
        ensures q[i] != q[j]
      {
        assert p[i] != k && p[j] != k;
      }
      PermutedMultiset(s[..n], rest, q);
      assert s == s[..n] + [s[n]];
      assert t == t[..k] + [t[k]] + t[k + 1..];
    }
  }

  /** The slot of each code in the list. */
  function Slots(codes: seq<string>): (p: seq<nat>)
    requires forall i :: 0 <= i < |codes| ==> codes[i] in AttributeOrder
    ensures |p| == |codes| && forall i :: 0 <= i < |codes| ==> p[i] == AttributeOrder[codes[i]]
  {
    seq(|codes|, i requires 0 <= i < |codes| => AttributeOrder[codes[i]])
  }

  /** Distinct codes take distinct slots, each among the eight, and each
      code's slot holds its ladder value. */
  lemma PlacedSlots(codes: seq<string>) returns (p: seq<nat>)
    requires |codes| <= 8 && Distinct(codes)
    requires forall i :: 0 <= i < |codes| ==> codes[i] in AttributeOrder
    ensures |p| == |codes|
    ensures forall i :: 0 <= i < |codes| ==> p[i] < 8 && Placed(codes)[p[i]] == AttributeValues[i]
    ensures forall i, j :: 0 <= i < j < |codes| ==> p[i] != p[j]
  {
    p := Slots(codes);
    PlacedAt(codes);
    forall i, j | 0 <= i < j < |codes|
      ensures p[i] != p[j]
    {
      AttributeOrderInjective(codes[i], codes[j]);
    }
    forall i | 0 <= i < |codes|
      ensures p[i] < 8
    {
      AttributeOrderInjective(codes[i], codes[i]);
    }
  }

  /** A priority list that names each of the eight attributes once gives
      the character exactly the ladder's values, each slot one of them. */
  lemma AllocationIsPermutation(codes: seq<string>)
    requires |codes| == 8 && Distinct(codes)
    requires forall i :: 0 <= i < |codes| ==> codes[i] in AttributeOrder
    ensures multiset(Placed(codes)) == multiset(AttributeValues)
  {
    var p := PlacedSlots(codes);
    PermutedMultiset(AttributeValues, Placed(codes), p);
  }
}
