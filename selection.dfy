/**
 * The selection model of the scrape client. `groups` maps a group name to
 * its lesson entries; `selections` maps a group name to its flag and a
 * title -> flag record. These are the pure definitions the client's
 * methods are proved against, and what they promise.
 */
module Selection {
  import opened Wrappers
  import opened Records
  import opened Entities

  type Groups = Rec<seq<LessonItem>>
  type Selections = Rec<GroupSelection>

  /** `{selected: false, items: {}}` */
  function Blank(): GroupSelection {
    GroupSelection(false, Empty())
  }

  /** `item.title` for each entry, in order. */
  function Titles(items: seq<LessonItem>): (r: seq<string>)
    ensures |r| == |items|
    ensures forall k | 0 <= k < |items| :: r[k] == items[k].title
  {
    if items == [] then [] else Titles(items[..|items| - 1]) + [items[|items| - 1].title]
  }

  /** The item record of group `g`, `{}` when the group has no entry. */
  function ItemsOf(sel: Selections, g: string): Rec<bool> {
    match Get(sel, g)
    case None => Empty()
    case Some(e) => e.items
  }

  /** A title that `groups[g]` lists. */
  predicate KnownTitle(groups: Groups, g: string, t: string) {
    g in groups.vals && t in Titles(groups.vals[g])
  }

  /** `if (!selections[g]) selections[g] = {selected: false, items: {}}`: an existing entry is kept. */
  function Ensure(sel: Selections, g: string): (r: Selections)
    ensures g in r.vals
    ensures r.vals[g] == (if g in sel.vals then sel.vals[g] else Blank())
    ensures forall k | k != g :: Get(r, k) == Get(sel, k)
  {
    if g in sel.vals then sel else Put(sel, g, Blank())
  }

  /** `items[t] = v` for each title in turn. */
  function SetTitles(items: Rec<bool>, titles: seq<string>, v: bool): Rec<bool> {
    if titles == [] then items
    else
      var n := |titles| - 1;
      Put(SetTitles(items, titles[..n], v), titles[n], v)
  }

  /** `selectGroup(g, v)` */
  function SelectGroup(groups: Groups, sel: Selections, g: string, v: bool): Selections {
    var s1 := Ensure(sel, g);
    var entry := s1.vals[g].(selected := v);
    var items := match Get(groups, g)
      case None => entry.items
      case Some(data) => SetTitles(entry.items, Titles(data), v);
    Put(s1, g, entry.(items := items))
  }

  /** `groupData.every(item => items[item.title])`, `true` for no entries. */
  function AllSelected(items: Rec<bool>, titles: seq<string>): (r: bool)
    ensures r <==> forall t | t in titles :: Get(items, t) == Some(true)
  {
    if titles == [] then true
    else Get(items, titles[0]) == Some(true) && AllSelected(items, titles[1..])
  }

  /** `selectItem(g, t, v)` */
  function SelectItem(groups: Groups, sel: Selections, g: string, t: string, v: bool): Selections {
    var s1 := Ensure(sel, g);
    var items := Put(s1.vals[g].items, t, v);
    var selected := match Get(groups, g)
      case None => s1.vals[g].selected
      case Some(data) => AllSelected(items, Titles(data));
    Put(s1, g, GroupSelection(selected, items))
  }

  /** `selectGroup(g, v)` for each of the given names in turn. */
  function SelectGroups(groups: Groups, names: seq<string>, sel: Selections, v: bool): Selections {
    if names == [] then sel
    else
      var n := |names| - 1;
      SelectGroup(groups, SelectGroups(groups, names[..n], sel, v), names[n], v)
  }

  /** `selectAll(v)`: `selectGroup` for every group name, in order. */
  function SelectAll(groups: Groups, sel: Selections, v: bool): Selections {
    SelectGroups(groups, groups.keys, sel, v)
  }

  /** The titles among `keys` that are mapped to `true`, in order. */
  function TrueOf(keys: seq<string>, items: Rec<bool>): seq<string> {
    if keys == [] then []
    else
      var n := |keys| - 1;
      TrueOf(keys[..n], items) + (if Get(items, keys[n]) == Some(true) then [keys[n]] else [])
  }

  /** `Object.entries(items).filter(([_, s]) => s).map(([t]) => t)` */
  function TrueTitles(items: Rec<bool>): seq<string> {
    TrueOf(items.keys, items)
  }

  /** The group names among `names` with at least one selected title, in order. */
  function SelectedNames(names: seq<string>, sel: Selections): seq<string> {
    if names == [] then []
    else
      var n := |names| - 1;
      SelectedNames(names[..n], sel) + (if TrueTitles(ItemsOf(sel, names[n])) != [] then [names[n]] else [])
  }

  /** The record built by `getSelectedItems` from the given group names. */
  function SelectedOf(names: seq<string>, sel: Selections): Rec<seq<string>> {
    if names == [] then Empty()
    else
      var n := |names| - 1;
      var acc := SelectedOf(names[..n], sel);
      var titles := TrueTitles(ItemsOf(sel, names[n]));
      if titles != [] then Put(acc, names[n], titles) else acc
  }

  /** `getSelectedItems()` */
  function SelectedItems(sel: Selections): Rec<seq<string>> {
    SelectedOf(sel.keys, sel)
  }

  // ---------------------------------------------------------------------------
  // properties

  /** Setting titles to `v` gives exactly those titles `v` and leaves every other key as it was. */
  lemma {:induction false} SetTitlesGet(items: Rec<bool>, titles: seq<string>, v: bool, t: string)
    ensures Get(SetTitles(items, titles, v), t) == if t in titles then Some(v) else Get(items, t)
  {
    if titles != [] {
      var n := |titles| - 1;
      SetTitlesGet(items, titles[..n], v, t);
      assert titles == titles[..n] + [titles[n]];
    }
  }

  /**
   * `selectGroup(g, v)`: the entry of `g` exists afterwards with flag `v`;
   * every title `groups[g]` lists is `v`; every other title keeps its flag;
   * every other group is untouched.
   */
  lemma SelectGroupEffect(groups: Groups, sel: Selections, g: string, v: bool)
    ensures var r := SelectGroup(groups, sel, g, v);
      g in r.vals && r.vals[g].selected == v
    ensures var r := SelectGroup(groups, sel, g, v);
      forall t :: Get(r.vals[g].items, t) == if KnownTitle(groups, g, t) then Some(v) else Get(ItemsOf(sel, g), t)
    ensures forall k | k != g :: Get(SelectGroup(groups, sel, g, v), k) == Get(sel, k)
  {
    var r := SelectGroup(groups, sel, g, v);
    var before := Ensure(sel, g).vals[g].items;
    assert before == ItemsOf(sel, g);
    forall t
      ensures Get(r.vals[g].items, t) == if KnownTitle(groups, g, t) then Some(v) else Get(ItemsOf(sel, g), t)
    {
      if g in groups.vals {
        SetTitlesGet(before, Titles(groups.vals[g]), v, t);
      }
    }
  }

  /**
   * `selectItem(g, t, v)`: exactly `items[t]` becomes `v`; the flag becomes
   * the AND over the titles `groups[g]` lists (true for none), or stays as
   * it was when `groups[g]` is absent; every other group is untouched.
   */
  lemma SelectItemEffect(groups: Groups, sel: Selections, g: string, t: string, v: bool)
    ensures var r := SelectItem(groups, sel, g, t, v);
      g in r.vals && Get(r.vals[g].items, t) == Some(v) &&
      forall u | u != t :: Get(r.vals[g].items, u) == Get(ItemsOf(sel, g), u)
    ensures var r := SelectItem(groups, sel, g, t, v);
      g in groups.vals ==>
        (r.vals[g].selected <==> forall u | KnownTitle(groups, g, u) :: Get(r.vals[g].items, u) == Some(true))
    ensures var r := SelectItem(groups, sel, g, t, v);
      g !in groups.vals ==> r.vals[g].selected == (g in sel.vals && sel.vals[g].selected)
    ensures forall k | k != g :: Get(SelectItem(groups, sel, g, t, v), k) == Get(sel, k)
  {
    assert Ensure(sel, g).vals[g].items == ItemsOf(sel, g);
  }

  /** What `selectAll(v)` leaves for group `g`: present, flag `v`, every listed title `v`. */
  ghost predicate SetTo(r: Selections, groups: Groups, g: string, v: bool) {
    g in r.vals && r.vals[g].selected == v &&
    forall t | KnownTitle(groups, g, t) :: Get(r.vals[g].items, t) == Some(v)
  }

  lemma {:induction false} SelectGroupsEffect(groups: Groups, names: seq<string>, sel: Selections, v: bool)
    ensures forall g | g in names :: SetTo(SelectGroups(groups, names, sel, v), groups, g, v)
    ensures forall k | k !in names :: Get(SelectGroups(groups, names, sel, v), k) == Get(sel, k)
  {
    if names != [] {
      var n := |names| - 1;
      var prev := SelectGroups(groups, names[..n], sel, v);
      var r := SelectGroups(groups, names, sel, v);
      SelectGroupsEffect(groups, names[..n], sel, v);
      SelectGroupEffect(groups, prev, names[n], v);
      assert names == names[..n] + [names[n]];
      forall g | g in names
        ensures SetTo(r, groups, g, v)
      {
        if g != names[n] {
          assert g in names[..n];
          assert Get(r, g) == Get(prev, g);
          assert r.vals[g] == prev.vals[g];
        }
      }
    }
  }

  /**
   * `selectAll(v)`: every group of `groups` ends with flag `v` and all its
   * listed titles `v`; entries of names that are not groups are untouched.
   */
  lemma SelectAllEffect(groups: Groups, sel: Selections, v: bool)
    ensures forall g | g in groups.keys :: SetTo(SelectAll(groups, sel, v), groups, g, v)
    ensures forall k | k !in groups.keys :: Get(SelectAll(groups, sel, v), k) == Get(sel, k)
  {
    SelectGroupsEffect(groups, groups.keys, sel, v);
  }

  /** A title is listed by `TrueOf` exactly when it is among the keys and mapped to `true`. */
  lemma {:induction false} TrueOfExact(keys: seq<string>, items: Rec<bool>, t: string)
    ensures t in TrueOf(keys, items) <==> t in keys && Get(items, t) == Some(true)
  {
    if keys != [] {
      var n := |keys| - 1;
      TrueOfExact(keys[..n], items, t);
      assert keys == keys[..n] + [keys[n]];
    }
  }

  /** The selected titles of a group are exactly its titles mapped to `true`. */
  lemma TrueTitlesExact(items: Rec<bool>, t: string)
    requires Valid(items)
    ensures t in TrueTitles(items) <==> Get(items, t) == Some(true)
  {
    TrueOfExact(items.keys, items, t);
  }

  /** The names are pairwise distinct, as the keys of an object are. */
  predicate Distinct(names: seq<string>) {
    forall i, j | 0 <= i < j < |names| :: names[i] != names[j]
  }

  lemma {:induction false} SelectedOfExact(names: seq<string>, sel: Selections)
    requires Distinct(names)
    ensures var r := SelectedOf(names, sel);
      Valid(r) && r.keys == SelectedNames(names, sel) &&
      forall g :: g in r.vals <==> g in names && TrueTitles(ItemsOf(sel, g)) != []
    ensures var r := SelectedOf(names, sel);
      forall g | g in r.vals :: r.vals[g] == TrueTitles(ItemsOf(sel, g))
  {
    if names != [] {
      var n := |names| - 1;
      assert Distinct(names[..n]);
      SelectedOfExact(names[..n], sel);
      assert names == names[..n] + [names[n]];
      assert names[n] !in names[..n];
    }
  }

  /**
   * `getSelectedItems()`: a group is listed exactly when one of its titles
   * is `true`, with exactly those titles, and the groups come in the order
   * of `selections`.
   */
  lemma SelectedItemsExact(sel: Selections)
    requires Valid(sel)
    ensures var r := SelectedItems(sel);
      Valid(r) && r.keys == SelectedNames(sel.keys, sel) &&
      forall g :: g in r.vals <==> g in sel.vals && TrueTitles(sel.vals[g].items) != []
    ensures var r := SelectedItems(sel);
      forall g | g in r.vals :: r.vals[g] == TrueTitles(sel.vals[g].items)
  {
    SelectedOfExact(sel.keys, sel);
    forall g | g in sel.vals
      ensures ItemsOf(sel, g) == sel.vals[g].items
    {
    }
  }

  /** Whatever the names, each group listed by `getSelectedItems` maps to its titles that are `true`. */
  lemma {:induction false} SelectedOfValues(names: seq<string>, sel: Selections)
    ensures var r := SelectedOf(names, sel);
      forall g | g in r.vals :: r.vals[g] == TrueTitles(ItemsOf(sel, g))
  {
    if names != [] {
      SelectedOfValues(names[..|names| - 1], sel);
    }
  }

  // ---------------------------------------------------------------------------
  // well-formed selections

  /** `selections` and the `items` of each of its groups are well-formed objects. */
  ghost predicate ValidSelections(sel: Selections) {
    Valid(sel) && forall g | g in sel.vals :: Valid(sel.vals[g].items)
  }

  lemma PutEntryValid(sel: Selections, g: string, e: GroupSelection)
    requires ValidSelections(sel) && Valid(e.items)
    ensures ValidSelections(Put(sel, g, e))
  {
  }

  lemma {:induction false} SetTitlesValid(items: Rec<bool>, titles: seq<string>, v: bool)
    requires Valid(items)
    ensures Valid(SetTitles(items, titles, v))
  {
    if titles != [] {
      SetTitlesValid(items, titles[..|titles| - 1], v);
    }
  }

  lemma EnsureValid(sel: Selections, g: string)
    requires ValidSelections(sel)
    ensures ValidSelections(Ensure(sel, g))
  {
    if g !in sel.vals {
      PutEntryValid(sel, g, Blank());
    }
  }

  /** `selectGroup` keeps the selections well formed. */
  lemma SelectGroupValid(groups: Groups, sel: Selections, g: string, v: bool)
    requires ValidSelections(sel)
    ensures ValidSelections(SelectGroup(groups, sel, g, v))
  {
    EnsureValid(sel, g);
    var s1 := Ensure(sel, g);
    var entry := s1.vals[g].(selected := v);
    if g in groups.vals {
      SetTitlesValid(entry.items, Titles(groups.vals[g]), v);
      PutEntryValid(s1, g, entry.(items := SetTitles(entry.items, Titles(groups.vals[g]), v)));
    } else {
      PutEntryValid(s1, g, entry);
    }
  }

  /** `selectItem` keeps the selections well formed. */
  lemma SelectItemValid(groups: Groups, sel: Selections, g: string, t: string, v: bool)
    requires ValidSelections(sel)
    ensures ValidSelections(SelectItem(groups, sel, g, t, v))
  {
    EnsureValid(sel, g);
    var s1 := Ensure(sel, g);
    var items := Put(s1.vals[g].items, t, v);
    var selected := match Get(groups, g)
      case None => s1.vals[g].selected
      case Some(data) => AllSelected(items, Titles(data));
    PutEntryValid(s1, g, GroupSelection(selected, items));
  }

  lemma {:induction false} SelectGroupsValid(groups: Groups, names: seq<string>, sel: Selections, v: bool)
    requires ValidSelections(sel)
    ensures ValidSelections(SelectGroups(groups, names, sel, v))
  {
    if names != [] {
      var n := |names| - 1;
      SelectGroupsValid(groups, names[..n], sel, v);
      SelectGroupValid(groups, SelectGroups(groups, names[..n], sel, v), names[n], v);
    }
  }

  /** `selectAll` keeps the selections well formed. */
  lemma SelectAllValid(groups: Groups, sel: Selections, v: bool)
    requires ValidSelections(sel)
    ensures ValidSelections(SelectAll(groups, sel, v))
  {
    SelectGroupsValid(groups, groups.keys, sel, v);
  }

  /**
   * `getSelectedItems()` on well-formed selections, pair by pair: title `t`
   * is listed under group `g` exactly when `selections[g].items[t]` is `true`.
   */
  lemma SelectedItemsPairs(sel: Selections)
    requires ValidSelections(sel)
    ensures var r := SelectedItems(sel);
      forall g, t :: (g in r.vals && t in r.vals[g]) <==> Get(ItemsOf(sel, g), t) == Some(true)
  {
    var r := SelectedItems(sel);
    SelectedItemsExact(sel);
    forall g, t
      ensures (g in r.vals && t in r.vals[g]) <==> Get(ItemsOf(sel, g), t) == Some(true)
    {
      if g in sel.vals {
        TrueTitlesExact(sel.vals[g].items, t);
      }
    }
  }
}
