/** The training-plan composer: three selection lists of catalogue items
    (basics, principles, tactics), toggled by id, that are saved as a
    reusable plan; and the list of saved plans, which is prepended to on
    create, filtered on delete and mapped over on update. Every handler
    builds new lists and hands them to a state setter, so each is a function
    from the component's state to its next state. */
module TrainingPlans {
  import opened Lists
  import opened Text
  import opened Outcomes

  datatype ItemKind = Basic | Principle | Tactic

  /** A catalogue entry that can be selected into a plan. */
  datatype Item = Item(id: string, name: string, description: string, kind: ItemKind)

  /** A saved, reusable plan: the three selections taken at save time. */
  datatype TrainingPlan = TrainingPlan(
    id: string,
    name: string,
    description: string,
    basics: seq<Item>,
    principles: seq<Item>,
    tactics: seq<Item>,
    createdAt: string,
    isCustom: bool)

  /** The component state the plan handlers read and replace. */
  datatype Composer = Composer(
    selectedBasics: seq<Item>,
    selectedPrinciples: seq<Item>,
    selectedTactics: seq<Item>,
    trainingName: string,
    trainingDescription: string,
    trainingPlans: seq<TrainingPlan>,
    selectedPlan: Option<TrainingPlan>,
    isEditing: bool,
    editingPlan: Option<TrainingPlan>)

  function ItemId(i: Item): string { i.id }

  function PlanId(p: TrainingPlan): string { p.id }

  /** The selection list of one kind. */
  function Selection(c: Composer, kind: ItemKind): seq<Item> {
    match kind
    case Basic => c.selectedBasics
    case Principle => c.selectedPrinciples
    case Tactic => c.selectedTactics
  }

  /** `c` with the selection list of one kind replaced. */
  function WithSelection(c: Composer, kind: ItemKind, list: seq<Item>): (r: Composer)
    ensures Selection(r, kind) == list
    ensures forall k :: k != kind ==> Selection(r, k) == Selection(c, k)
  {
    match kind
    case Basic => c.(selectedBasics := list)
    case Principle => c.(selectedPrinciples := list)
    case Tactic => c.(selectedTactics := list)
  }

  /** The form is empty: no name, no description, nothing selected. */
  predicate Cleared(c: Composer) {
    c.trainingName == "" && c.trainingDescription == ""
    && c.selectedBasics == [] && c.selectedPrinciples == [] && c.selectedTactics == []
  }

  /** The body shared by the three toggles: drop the items with `item`'s id
      when one is selected, append `item` otherwise. */
  function ToggleById(list: seq<Item>, item: Item): (r: seq<Item>)
    ensures HasKey(r, ItemId, item.id) <==> !HasKey(list, ItemId, item.id)
    ensures forall x: Item :: x.id != item.id ==> (x in r <==> x in list)
    ensures HasKey(list, ItemId, item.id) ==> r == WithoutKey(list, ItemId, item.id)
    ensures !HasKey(list, ItemId, item.id) ==> r == list + [item]
  {
    if HasKey(list, ItemId, item.id) then
      WithoutKey(list, ItemId, item.id)
    else
      var r := list + [item];
      assert ItemId(r[|list|]) == item.id;
      r
  }

  /** `toggleBasicSelection`, `togglePrincipleSelection` and
      `toggleTacticSelection`: flip whether an item with `item`'s id is in the
      list of that kind; nothing else changes. */
  function ToggleSelection(c: Composer, kind: ItemKind, item: Item): (r: Composer)
    ensures IsItemSelected(r, item, kind) <==> !IsItemSelected(c, item, kind)
    ensures forall x: Item :: x.id != item.id ==> (x in Selection(r, kind) <==> x in Selection(c, kind))
    ensures WithSelection(r, kind, Selection(c, kind)) == c
  {
    WithSelection(c, kind, ToggleById(Selection(c, kind), item))
  }

  /** `isItemSelected`: some item in the list of that kind has `item`'s id. */
  function IsItemSelected(c: Composer, item: Item, kind: ItemKind): (r: bool)
    ensures r <==> exists i :: 0 <= i < |Selection(c, kind)| && Selection(c, kind)[i].id == item.id
  {
    HasKey(Selection(c, kind), ItemId, item.id)
  }

  /** `totalSelected`: zero exactly when all three lists are empty (the
      create button is disabled then). */
  function TotalSelected(c: Composer): (n: nat)
    ensures n == 0 <==> forall k :: Selection(c, k) == []
  {
    assert Selection(c, Basic) == c.selectedBasics;
    assert Selection(c, Principle) == c.selectedPrinciples;
    assert Selection(c, Tactic) == c.selectedTactics;
    |c.selectedBasics| + |c.selectedPrinciples| + |c.selectedTactics|
  }

  /** `handleCreateTraining`: opening the save dialog is refused when
      nothing at all is selected; otherwise the state is untouched. */
  function HandleCreateTraining(c: Composer): (r: Result<Composer>)
    ensures r.Rejected? <==> TotalSelected(c) == 0
    ensures r.Ok? ==> r.value == c
  {
    if |c.selectedBasics| == 0 && |c.selectedPrinciples| == 0 && |c.selectedTactics| == 0 then
      Rejected("Please select at least one item")
    else
      Ok(c)
  }

  /** `handleSaveTraining`. A blank or whitespace-only name is refused;
      otherwise the new plan, holding the current selections, goes in front
      of the saved plans and the form is cleared. `id` and `createdAt` are
      the clock readings the source takes. */
  function HandleSaveTraining(c: Composer, id: string, createdAt: string): (r: Result<Composer>)
    ensures r.Rejected? <==> IsBlank(c.trainingName)
    ensures r.Ok? ==>
      var plans := r.value.trainingPlans;
      && |plans| == |c.trainingPlans| + 1
      && plans[1..] == c.trainingPlans
      && plans[0].id == id && plans[0].createdAt == createdAt && plans[0].isCustom
      && plans[0].name == c.trainingName && plans[0].description == c.trainingDescription
      && plans[0].basics == c.selectedBasics
      && plans[0].principles == c.selectedPrinciples
      && plans[0].tactics == c.selectedTactics
      && Cleared(r.value)
      && r.value.selectedPlan == c.selectedPlan
      && r.value.isEditing == c.isEditing && r.value.editingPlan == c.editingPlan
  {
    TrimEmptyIffBlank(c.trainingName);
    if Trim(c.trainingName) == "" then
      Rejected("Please enter a training plan name")
    else
      var plan := TrainingPlan(id, c.trainingName, c.trainingDescription,
                               c.selectedBasics, c.selectedPrinciples, c.selectedTactics,
                               createdAt, true);
      Ok(c.(trainingPlans := [plan] + c.trainingPlans,
            trainingName := "", trainingDescription := "",
            selectedBasics := [], selectedPrinciples := [], selectedTactics := []))
  }

  /** `handleDeletePlan`: exactly the plans with that id go; the detail view
      closes when it showed one of them; nothing else changes. */
  function HandleDeletePlan(c: Composer, planId: string): (r: Composer)
    ensures forall p :: p in r.trainingPlans <==> p in c.trainingPlans && p.id != planId
    ensures r.selectedPlan ==
      if c.selectedPlan.Some? && c.selectedPlan.value.id == planId then None else c.selectedPlan
    ensures r.(trainingPlans := c.trainingPlans, selectedPlan := c.selectedPlan) == c
  {
    var plans := WithoutKey(c.trainingPlans, PlanId, planId);
    if c.selectedPlan.Some? && c.selectedPlan.value.id == planId then
      c.(trainingPlans := plans, selectedPlan := None)
    else
      c.(trainingPlans := plans)
  }

  /** `handleEditPlan`: the plan's selections, name and description are
      loaded into the form and the plan is remembered as the one edited. */
  function HandleEditPlan(c: Composer, plan: TrainingPlan): (r: Composer)
    ensures forall k :: Selection(r, k) == Selection(PlanAsComposer(plan, c), k)
    ensures r.trainingName == plan.name && r.trainingDescription == plan.description
    ensures r.isEditing && r.editingPlan == Some(plan)
    ensures r.trainingPlans == c.trainingPlans && r.selectedPlan == c.selectedPlan
  {
    c.(editingPlan := Some(plan),
       selectedBasics := plan.basics, selectedPrinciples := plan.principles,
       selectedTactics := plan.tactics,
       trainingName := plan.name, trainingDescription := plan.description,
       isEditing := true)
  }

  /** The three item lists of a plan, laid out as selections. */
  function PlanAsComposer(plan: TrainingPlan, c: Composer): Composer {
    c.(selectedBasics := plan.basics, selectedPrinciples := plan.principles,
       selectedTactics := plan.tactics)
  }

  /** The edited plan as `handleUpdateTraining` stores it: the form's name,
      description and selections, with the plan's own id, creation time and
      custom flag kept. */
  function Edited(e: TrainingPlan, c: Composer): (p: TrainingPlan)
    ensures p.id == e.id && p.createdAt == e.createdAt && p.isCustom == e.isCustom
    ensures p.name == c.trainingName && p.description == c.trainingDescription
    ensures p.basics == c.selectedBasics && p.principles == c.selectedPrinciples
    ensures p.tactics == c.selectedTactics
  {
    e.(name := c.trainingName, description := c.trainingDescription,
       basics := c.selectedBasics, principles := c.selectedPrinciples,
       tactics := c.selectedTactics)
  }

  /** `handleUpdateTraining`. A blank name is refused; with no plan being
      edited nothing happens; otherwise every saved plan with the edited
      plan's id is replaced by `Edited`, every other plan stays where it
      was, and the form is cleared and leaves edit mode. */
  function HandleUpdateTraining(c: Composer): (r: Result<Composer>)
    ensures r.Rejected? <==> IsBlank(c.trainingName)
    ensures r.Ok? && c.editingPlan.None? ==> r.value == c
    ensures r.Ok? && c.editingPlan.Some? ==>
      && |r.value.trainingPlans| == |c.trainingPlans|
      && (forall i :: 0 <= i < |c.trainingPlans| ==>
            r.value.trainingPlans[i] ==
              if c.trainingPlans[i].id == c.editingPlan.value.id
              then Edited(c.editingPlan.value, c) else c.trainingPlans[i])
      && Cleared(r.value) && !r.value.isEditing && r.value.editingPlan == None
      && r.value.selectedPlan == c.selectedPlan
  {
    TrimEmptyIffBlank(c.trainingName);
    if Trim(c.trainingName) == "" then
      Rejected("Please enter a training plan name")
    else if c.editingPlan.None? then
      Ok(c)
    else
      var e := c.editingPlan.value;
      Ok(c.(trainingPlans := ReplaceKey(c.trainingPlans, PlanId, e.id, Edited(e, c)),
            isEditing := false, editingPlan := None,
            trainingName := "", trainingDescription := "",
            selectedBasics := [], selectedPrinciples := [], selectedTactics := []))
  }

  /** `handleCancelEdit`: leave edit mode and clear the form; the saved
      plans are untouched. */
  function HandleCancelEdit(c: Composer): (r: Composer)
    ensures Cleared(r) && !r.isEditing && r.editingPlan == None
    ensures r.trainingPlans == c.trainingPlans && r.selectedPlan == c.selectedPlan
  {
    c.(isEditing := false, editingPlan := None,
       trainingName := "", trainingDescription := "",
       selectedBasics := [], selectedPrinciples := [], selectedTactics := [])
  }

  /** Toggling an item that was not selected, then toggling it again, gives
      back exactly the list it started from. */
  lemma ToggleTwiceRestores(list: seq<Item>, item: Item)
    requires !HasKey(list, ItemId, item.id)
    ensures ToggleById(ToggleById(list, item), item) == list
  {
    WithoutKeyAppend(list, [item], ItemId, item.id);
    assert WithoutKey([item], ItemId, item.id) == [];
  }

  /** The same law on the component state, for each of the three lists. */
  lemma ToggleSelectionTwice(c: Composer, kind: ItemKind, item: Item)
    requires !IsItemSelected(c, item, kind)
    ensures ToggleSelection(ToggleSelection(c, kind, item), kind, item) == c
  {
    ToggleTwiceRestores(Selection(c, kind), item);
  }

  /** A toggle keeps the ids of a selection list unique. */
  lemma ToggleKeepsIdsUnique(list: seq<Item>, item: Item)
    requires KeysUnique(list, ItemId)
    ensures KeysUnique(ToggleById(list, item), ItemId)
  {
    if HasKey(list, ItemId, item.id) {
      WithoutKeyKeysUnique(list, ItemId, item.id);
    } else {
      var r := list + [item];
      forall i, j | 0 <= i < j < |r| ensures ItemId(r[i]) != ItemId(r[j]) {
        if j == |list| {
          assert r[i] == list[i];
        } else {
          assert r[i] == list[i] && r[j] == list[j];
        }
      }
    }
  }

  /** A selection list after a series of toggles, starting from `list`. */
  function ApplyToggles(list: seq<Item>, items: seq<Item>): seq<Item>
    decreases |items|
  {
    if items == [] then list else ApplyToggles(ToggleById(list, items[0]), items[1..])
  }

  /** Lists built only through the toggles hold each id at most once. */
  lemma {:induction false} TogglesKeepIdsUnique(list: seq<Item>, items: seq<Item>)
    requires KeysUnique(list, ItemId)
    ensures KeysUnique(ApplyToggles(list, items), ItemId)
    decreases |items|
  {
    if items != [] {
      ToggleKeepsIdsUnique(list, items[0]);
      TogglesKeepIdsUnique(ToggleById(list, items[0]), items[1..]);
    }
  }

  /** Deleting keeps the remaining plans in their order: the result on any
      split of the list is the results on the two parts, concatenated. */
  lemma DeleteKeepsOrder(c: Composer, planId: string, k: nat)
    requires k <= |c.trainingPlans|
    ensures HandleDeletePlan(c, planId).trainingPlans ==
      WithoutKey(c.trainingPlans[..k], PlanId, planId) + WithoutKey(c.trainingPlans[k..], PlanId, planId)
  {
    WithoutKeyAppend(c.trainingPlans[..k], c.trainingPlans[k..], PlanId, planId);
    assert c.trainingPlans[..k] + c.trainingPlans[k..] == c.trainingPlans;
  }
}
