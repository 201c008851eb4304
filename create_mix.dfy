/**
 * The ingredient editor of the mix-creation screen (CreateMix.jsx): the list
 * the user builds, its running total, the gate on "next" and the request the
 * screen sends to POST /api/mixes.
 */
module CreateMix {
  import opened Wrappers
  import opened Catalog
  import opened MixRules

  /** A list entry: the picked flavor, its id again as `flavorId`, and a percentage. */
  datatype Entry = Entry(flavor: Flavor, flavorId: int, percentage: int)

  /** The percentage a newly added flavor starts with. */
  const DefaultPercentage := 20

  /** `totalPercentage`: the sum of the entries' percentages, 0 for an empty list. */
  function Total(list: seq<Entry>): (t: int)
    ensures list == [] ==> t == 0
    ensures (forall i :: 0 <= i < |list| ==> list[i].percentage >= 0) ==>
      0 <= t && forall i :: 0 <= i < |list| ==> list[i].percentage <= t
  {
    if list == [] then 0 else Total(list[..|list| - 1]) + list[|list| - 1].percentage
  }

  lemma {:induction false} TotalAppend(list: seq<Entry>, e: Entry)
    ensures Total(list + [e]) == Total(list) + e.percentage
  {
    assert (list + [e])[..|list|] == list;
  }

  /** The sum is independent of where the list is cut. */
  lemma {:induction false} TotalConcat(a: seq<Entry>, b: seq<Entry>)
    ensures Total(a + b) == Total(a) + Total(b)
    decreases |b|
  {
    if b == [] {
      assert a + b == a;
    } else {
      assert a + b == (a + b[..|b| - 1]) + [b[|b| - 1]];
      TotalConcat(a, b[..|b| - 1]);
      TotalAppend(a + b[..|b| - 1], b[|b| - 1]);
      TotalAppend(b[..|b| - 1], b[|b| - 1]);
      assert b[..|b| - 1] + [b[|b| - 1]] == b;
    }
  }

  predicate ContainsFlavor(list: seq<Entry>, id: int) {
    exists i :: 0 <= i < |list| && list[i].flavorId == id
  }

  /** No flavor appears twice in the list. */
  predicate DistinctFlavors(list: seq<Entry>) {
    forall i, j :: 0 <= i < j < |list| ==> list[i].flavorId != list[j].flavorId
  }

  /** `addIngredient`: a flavor already in the list is ignored, any other is appended at 20%. */
  function Added(list: seq<Entry>, flavor: Flavor): (r: seq<Entry>)
    ensures list <= r && |r| <= |list| + 1
    ensures ContainsFlavor(r, flavor.id)
    ensures |r| == |list| + 1 <==> !ContainsFlavor(list, flavor.id)
  {
    if ContainsFlavor(list, flavor.id) then list
    else
      var r := list + [Entry(flavor, flavor.id, DefaultPercentage)];
      assert r[|list|].flavorId == flavor.id;
      r
  }

  /**
   * Adding keeps the flavors distinct; a new flavor lands at the end at 20%
   * with every earlier entry unchanged, and a known one changes nothing.
   */
  lemma AddedShape(list: seq<Entry>, flavor: Flavor)
    requires DistinctFlavors(list)
    ensures var r := Added(list, flavor);
      && DistinctFlavors(r)
      && ContainsFlavor(r, flavor.id)
      && (ContainsFlavor(list, flavor.id) ==> r == list)
      && (!ContainsFlavor(list, flavor.id) ==>
            && |r| == |list| + 1
            && r[..|list|] == list
            && r[|list|].flavorId == flavor.id
            && r[|list|].percentage == DefaultPercentage
            && Total(r) == Total(list) + DefaultPercentage)
  {
    var r := Added(list, flavor);
    if !ContainsFlavor(list, flavor.id) {
      assert r[|list|].flavorId == flavor.id;
      assert r[..|list|] == list;
      TotalAppend(list, r[|list|]);
    }
  }

  /** The start index of `splice(index, 1)`: negative indexes count from the end. */
  function SpliceStart(len: nat, index: int): (k: nat)
    ensures k <= len
  {
    if index < 0 then (if len + index < 0 then 0 else len + index)
    else if index > len then len
    else index
  }

  /** `removeIngredient`: the list with the element at `index` cut out, as `splice(index, 1)` does. */
  function Removed(list: seq<Entry>, index: int): (r: seq<Entry>)
    ensures |r| == |list| - 1 <==> list != [] && index < |list|
    ensures |r| == |list| <==> list == [] || index >= |list|
    ensures forall i :: 0 <= i < |r| ==> r[i] in list
  {
    var k := SpliceStart(|list|, index);
    if k < |list| then list[..k] + list[k + 1..] else list
  }

  lemma TotalSingle(e: Entry)
    ensures Total([e]) == e.percentage
  {
    assert [e][..0] == [];
  }

  /** The total splits around any entry. */
  lemma TotalAround(list: seq<Entry>, i: nat)
    requires i < |list|
    ensures Total(list) == Total(list[..i]) + list[i].percentage + Total(list[i + 1..])
  {
    var pre, mid, post := list[..i], [list[i]], list[i + 1..];
    assert list == pre + (mid + post);
    TotalConcat(pre, mid + post);
    TotalConcat(mid, post);
    TotalSingle(list[i]);
  }

  /**
   * Removing the entry at a valid index drops exactly that entry: one fewer
   * entry, the rest in their order, the total lowered by its percentage.
   */
  lemma RemovedShape(list: seq<Entry>, i: int)
    requires 0 <= i < |list|
    ensures var r := Removed(list, i);
      && |r| == |list| - 1
      && r[..i] == list[..i]
      && r[i..] == list[i + 1..]
      && Total(r) == Total(list) - list[i].percentage
  {
    var r := Removed(list, i);
    assert r == list[..i] + list[i + 1..];
    TotalConcat(list[..i], list[i + 1..]);
    TotalAround(list, i);
  }

  /** Removing keeps the flavors distinct, and the removed flavor is gone. */
  lemma RemovedDistinct(list: seq<Entry>, i: int)
    requires 0 <= i < |list| && DistinctFlavors(list)
    ensures DistinctFlavors(Removed(list, i))
    ensures !ContainsFlavor(Removed(list, i), list[i].flavorId)
  {
    var r := Removed(list, i);
    assert r == list[..i] + list[i + 1..];
    forall a, b | 0 <= a < b < |r| ensures r[a].flavorId != r[b].flavorId {
      var a' := if a < i then a else a + 1;
      var b' := if b < i then b else b + 1;
      assert r[a] == list[a'] && r[b] == list[b'];
    }
    forall a | 0 <= a < |r| ensures r[a].flavorId != list[i].flavorId {
      var a' := if a < i then a else a + 1;
      assert r[a] == list[a'];
    }
  }

  /**
   * As with `splice`, an index past the end removes nothing, and a negative
   * index counts from the end (clamped at the first entry).
   */
  lemma RemovedOtherIndexes(list: seq<Entry>, index: int)
    ensures index >= |list| ==> Removed(list, index) == list
    ensures -|list| <= index < 0 ==> Removed(list, index) == Removed(list, |list| + index)
    ensures index < -|list| && |list| > 0 ==> Removed(list, index) == list[1..]
  {
  }

  /** `updatePercentage`: entry `index` gets the new percentage. */
  function WithPercentage(list: seq<Entry>, index: nat, value: int): (r: seq<Entry>)
    requires index < |list|
    ensures |r| == |list|
    ensures r[index].percentage == value && r[index].flavorId == list[index].flavorId
    ensures forall j :: 0 <= j < |list| && j != index ==> r[j] == list[j]
  {
    list[index := list[index].(percentage := value)]
  }

  /** Only entry `index`'s percentage changes, and the total follows it. */
  lemma WithPercentageShape(list: seq<Entry>, index: nat, value: int)
    requires index < |list|
    ensures var r := WithPercentage(list, index, value);
      && |r| == |list|
      && r[index].percentage == value
      && r[index].flavorId == list[index].flavorId && r[index].flavor == list[index].flavor
      && (forall j :: 0 <= j < |list| && j != index ==> r[j] == list[j])
      && Total(r) == Total(list) - list[index].percentage + value
      && (DistinctFlavors(list) ==> DistinctFlavors(r))
  {
    var r := WithPercentage(list, index, value);
    TotalAround(list, index);
    TotalAround(r, index);
    assert r[..index] == list[..index];
    assert r[index + 1..] == list[index + 1..];
  }

  /** The step-1 "next" button is enabled on a non-empty list totalling exactly 100. */
  predicate CanProceed(list: seq<Entry>): (b: bool)
    ensures b ==> list != [] && PercentSum(Payload(list)) == 100
  {
    PayloadSum(list);
    |list| > 0 && Total(list) == 100
  }

  /** `ingredients.map(i => ({ flavorId: i.flavorId, percentage: i.percentage }))`. */
  function Payload(list: seq<Entry>): (p: seq<IngredientInput>)
    ensures |p| == |list|
    ensures forall i :: 0 <= i < |list| ==>
      p[i].flavorId == list[i].flavorId && p[i].percentage == list[i].percentage
  {
    if list == [] then [] else Payload(list[..|list| - 1]) + [IngredientInput(list[|list| - 1].flavorId, list[|list| - 1].percentage)]
  }

  /** The request body carries the editor's total. */
  lemma {:induction false} PayloadSum(list: seq<Entry>)
    ensures PercentSum(Payload(list)) == Total(list)
    decreases |list|
  {
    if list != [] {
      var p := Payload(list);
      assert p[..|p| - 1] == Payload(list[..|list| - 1]);
      PayloadSum(list[..|list| - 1]);
    }
  }

  /** `handleSubmit`: nothing without a name or an ingredient, else the request body. */
  function Submission(name: string, description: string, authorId: Option<int>, list: seq<Entry>)
    : (sent: Option<CreateMixRequest>)
    ensures sent.None? <==> name == "" || list == []
    ensures sent.Some? ==>
      && sent.value.name == Some(name)
      && sent.value.description == Some(description)
      && sent.value.authorId == authorId
      && sent.value.strength.None?
      && sent.value.ingredients == Some(Payload(list))
  {
    if name == "" || list == [] then None
    else Some(CreateMixRequest(Some(name), Some(description), authorId, None, Some(Payload(list))))
  }

  /**
   * What the screen sends once "next" was enabled is accepted by the server
   * when the user has an id: same ingredients in the same order, strength MEDIUM.
   */
  lemma SubmissionAccepted(name: string, description: string, authorId: int, list: seq<Entry>, now: nat)
    requires name != "" && authorId != 0 && CanProceed(list)
    ensures var sent := Submission(name, description, Some(authorId), list);
      && sent.Some?
      && var r := ValidateCreate(sent.value, now);
      && r.Accepted?
      && r.draft.userStrength == "MEDIUM"
      && |r.draft.ingredients| == |list|
      && (forall i :: 0 <= i < |list| ==>
            r.draft.ingredients[i] == IngredientRow(list[i].flavorId, list[i].percentage))
  {
    PayloadSum(list);
  }

  /** The screen's state: the step, the typed name and description, the list and the flavor picker. */
  class MixEditor {
    var step: int
    var name: string
    var description: string
    var ingredients: seq<Entry>
    var showFlavorSelect: bool
    var selectedBrand: Option<int>

    /** Step 2 is only ever reached through an enabled "next". */
    ghost predicate Valid()
      reads this
    {
      && (step == 1 || step == 2)
      && (step == 2 ==> CanProceed(ingredients))
      && DistinctFlavors(ingredients)
    }

    constructor ()
      ensures Valid()
      ensures step == 1 && name == "" && description == "" && ingredients == []
      ensures !showFlavorSelect && selectedBrand == None
    {
      step := 1;
      name := "";
      description := "";
      ingredients := [];
      showFlavorSelect := false;
      selectedBrand := None;
    }

    /** The picker closes and forgets its brand only when the flavor was new. */
    method AddIngredient(flavor: Flavor)
      requires Valid() && step == 1
      modifies this
      ensures Valid() && step == 1
      ensures ingredients == Added(old(ingredients), flavor)
      ensures ContainsFlavor(old(ingredients), flavor.id) ==>
        showFlavorSelect == old(showFlavorSelect) && selectedBrand == old(selectedBrand)
      ensures !ContainsFlavor(old(ingredients), flavor.id) ==> !showFlavorSelect && selectedBrand == None
      ensures name == old(name) && description == old(description)
    {
      AddedShape(ingredients, flavor);
      if ContainsFlavor(ingredients, flavor.id) {
        return;
      }
      ingredients := ingredients + [Entry(flavor, flavor.id, DefaultPercentage)];
      showFlavorSelect := false;
      selectedBrand := None;
    }

    method RemoveIngredient(index: int)
      requires Valid() && step == 1
      modifies this`ingredients
      ensures Valid() && step == 1
      ensures ingredients == Removed(old(ingredients), index)
    {
      var k := SpliceStart(|ingredients|, index);
      if k < |ingredients| {
        RemovedShape(ingredients, k);
        RemovedDistinct(ingredients, k);
        ingredients := ingredients[..k] + ingredients[k + 1..];
      }
    }

    /** The slider reports an index of the rendered list, so it is always in range. */
    method UpdatePercentage(index: nat, value: int)
      requires Valid() && step == 1 && index < |ingredients|
      modifies this`ingredients
      ensures Valid() && step == 1
      ensures ingredients == WithPercentage(old(ingredients), index, value)
    {
      WithPercentageShape(ingredients, index, value);
      ingredients := ingredients[index := ingredients[index].(percentage := value)];
    }

    /** "Next": a disabled button does nothing. */
    method Next()
      requires Valid()
      modifies this`step
      ensures Valid()
      ensures step == (if old(step) == 1 && CanProceed(ingredients) then 2 else old(step))
    {
      if step == 1 && CanProceed(ingredients) {
        step := 2;
      }
    }

    method Back()
      requires Valid()
      modifies this`step
      ensures Valid() && step == 1
    {
      step := 1;
    }

    method SetName(value: string)
      requires Valid()
      modifies this`name
      ensures Valid() && name == value
    {
      name := value;
    }

    method SetDescription(value: string)
      requires Valid()
      modifies this`description
      ensures Valid() && description == value
    {
      description := value;
    }

    /**
     * `handleSubmit` for the user `authorId`: nothing without a name or
     * ingredients, else one `{flavorId, percentage}` per entry, in order.
     */
    method HandleSubmit(authorId: Option<int>) returns (sent: Option<CreateMixRequest>)
      requires Valid()
      ensures sent == Submission(name, description, authorId, ingredients)
      ensures sent.None? <==> name == "" || ingredients == []
      ensures sent.Some? ==>
        && sent.value.name == Some(name)
        && sent.value.ingredients.Some?
        && |sent.value.ingredients.value| == |ingredients|
        && (forall i :: 0 <= i < |ingredients| ==>
              sent.value.ingredients.value[i] == IngredientInput(ingredients[i].flavorId, ingredients[i].percentage))
      ensures sent.Some? && step == 2 ==> PercentSum(sent.value.ingredients.value) == 100
    {
      PayloadSum(ingredients);
      if name == "" || |ingredients| == 0 {
        return None;
      }
      sent := Some(CreateMixRequest(Some(name), Some(description), authorId, None, Some(Payload(ingredients))));
    }
  }
}
