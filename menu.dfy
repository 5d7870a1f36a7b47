/** The menu repository of js/utils.js, stated on the catalogue as a sequence of items. */
module Menu {
  import opened Records

  /** The five items the catalogue is seeded with the first time it is read. */
  const DefaultMenu: seq<MenuItem> := [
    MenuItem(1, "Idly", 3000,
      "https://images.pexels.com/photos/1640777/pexels-photo-1640777.jpeg?auto=compress&cs=tinysrgb&w=600&h=400&fit=crop"),
    MenuItem(2, "Puri", 4000,
      "https://images.pexels.com/photos/1640774/pexels-photo-1640774.jpeg?auto=compress&cs=tinysrgb&w=600&h=400&fit=crop"),
    MenuItem(3, "Vada", 2500,
      "https://images.pexels.com/photos/1640770/pexels-photo-1640770.jpeg?auto=compress&cs=tinysrgb&w=600&h=400&fit=crop"),
    MenuItem(4, "Coffee", 2000,
      "https://images.pexels.com/photos/302899/pexels-photo-302899.jpeg?auto=compress&cs=tinysrgb&w=600&h=400&fit=crop"),
    MenuItem(5, "Pazhampori", 3500,
      "https://images.pexels.com/photos/1640772/pexels-photo-1640772.jpeg?auto=compress&cs=tinysrgb&w=600&h=400&fit=crop")
  ]

  /** No two items share an id. */
  predicate UniqueIds(menu: seq<MenuItem>)
  {
    forall i, j :: 0 <= i < j < |menu| ==> menu[i].id != menu[j].id
  }

  /** The default catalogue has five items, ids 1 to 5 in order, all priced above zero. */
  lemma DefaultMenuShape()
    ensures |DefaultMenu| == 5 && UniqueIds(DefaultMenu)
    ensures forall i :: 0 <= i < 5 ==> DefaultMenu[i].id == i + 1 && DefaultMenu[i].price > 0
  {
  }

  /** `Math.max(...menu.map(m => m.id))`. */
  function MaxId(menu: seq<MenuItem>): (m: int)
    requires |menu| > 0
    ensures forall i :: 0 <= i < |menu| ==> menu[i].id <= m
    ensures exists i :: 0 <= i < |menu| && menu[i].id == m
  {
    if |menu| == 1 then menu[0].id
    else
      var rest := MaxId(menu[1..]);
      if menu[0].id >= rest then menu[0].id else rest
  }

  /** The id `addMenuItem` assigns: one more than the largest id, or 1 for an empty catalogue. */
  function NextId(menu: seq<MenuItem>): (id: int)
    ensures forall i :: 0 <= i < |menu| ==> menu[i].id < id
    ensures menu == [] ==> id == 1
    ensures menu != [] ==> exists i :: 0 <= i < |menu| && menu[i].id == id - 1
  {
    if |menu| > 0 then MaxId(menu) + 1 else 1
  }

  /** The catalogue after `addMenuItem(draft)`. */
  function Added(menu: seq<MenuItem>, draft: MenuDraft): seq<MenuItem>
  {
    menu + [MenuItem(NextId(menu), draft.name, draft.price, draft.image)]
  }

  /** Adding keeps every earlier item, appends one, and keeps ids unique. */
  lemma AddedKeepsIdsUnique(menu: seq<MenuItem>, draft: MenuDraft)
    requires UniqueIds(menu)
    ensures var r := Added(menu, draft);
      && |r| == |menu| + 1 && r[..|menu|] == menu
      && r[|menu|].id == NextId(menu) && UniqueIds(r)
  {
  }

  /** `findIndex(item => item.id === id)`: the first position holding that id. */
  function FindIndex(menu: seq<MenuItem>, id: int): (r: Option<nat>)
    ensures r.Some? ==> r.value < |menu| && menu[r.value].id == id
                        && forall j :: 0 <= j < r.value ==> menu[j].id != id
    ensures r.None? <==> forall j :: 0 <= j < |menu| ==> menu[j].id != id
  {
    if menu == [] then None
    else if menu[0].id == id then Some(0)
    else match FindIndex(menu[1..], id)
      case None => None
      case Some(k) => Some(k + 1)
  }

  /** `find(item => item.id === id)`: the first item with that id, if any. */
  function Find(menu: seq<MenuItem>, id: int): (r: Option<MenuItem>)
    ensures r.Some? ==> r.value in menu && r.value.id == id
    ensures r.None? <==> forall j :: 0 <= j < |menu| ==> menu[j].id != id
  {
    match FindIndex(menu, id)
    case None => None
    case Some(i) => Some(menu[i])
  }

  /** `{ ...item, ...patch, id: id }`: fields in the patch win, the id is forced to `id`. */
  function Merge(item: MenuItem, patch: MenuPatch, id: int): (r: MenuItem)
    ensures r.id == id
    ensures r.name == patch.name.GetOr(item.name)
    ensures r.price == patch.price.GetOr(item.price)
    ensures r.image == patch.image.GetOr(item.image)
  {
    MenuItem(id, patch.name.GetOr(item.name), patch.price.GetOr(item.price), patch.image.GetOr(item.image))
  }

  /** The catalogue after `updateMenuItem(id, patch)`: only the first item with that id changes. */
  function Updated(menu: seq<MenuItem>, id: int, patch: MenuPatch): seq<MenuItem>
  {
    match FindIndex(menu, id)
    case None => menu
    case Some(i) => menu[i := Merge(menu[i], patch, id)]
  }

  /** Updating replaces one item at its own position and leaves every id where it was. */
  lemma UpdatedKeepsIds(menu: seq<MenuItem>, id: int, patch: MenuPatch)
    ensures var r := Updated(menu, id, patch);
      && |r| == |menu|
      && (forall j :: 0 <= j < |menu| ==> r[j].id == menu[j].id)
      && (FindIndex(menu, id).None? ==> r == menu)
      && (forall j :: 0 <= j < |menu| && Some(j) != FindIndex(menu, id) ==> r[j] == menu[j])
    ensures UniqueIds(menu) ==> UniqueIds(Updated(menu, id, patch))
  {
  }

  /** `filter(item => item.id !== id)`. */
  function Deleted(menu: seq<MenuItem>, id: int): (r: seq<MenuItem>)
    ensures forall x :: x in r <==> x in menu && x.id != id
    ensures |r| <= |menu|
  {
    if menu == [] then []
    else (if menu[0].id != id then [menu[0]] else []) + Deleted(menu[1..], id)
  }

  /** Deleting acts on each part of the catalogue separately, so the kept items stay in their order. */
  lemma {:induction false} DeletedAppend(a: seq<MenuItem>, b: seq<MenuItem>, id: int)
    ensures Deleted(a + b, id) == Deleted(a, id) + Deleted(b, id)
  {
    if a != [] {
      assert (a + b)[1..] == a[1..] + b;
      DeletedAppend(a[1..], b, id);
    } else {
      assert a + b == b;
    }
  }

  /** Deleting an id that is absent changes nothing. */
  lemma {:induction false} DeletedAbsent(menu: seq<MenuItem>, id: int)
    requires forall j :: 0 <= j < |menu| ==> menu[j].id != id
    ensures Deleted(menu, id) == menu
  {
    if menu != [] {
      DeletedAbsent(menu[1..], id);
      assert [menu[0]] + menu[1..] == menu;
    }
  }

  /** After deleting an id, looking it up finds nothing. */
  lemma DeletedNotFound(menu: seq<MenuItem>, id: int)
    ensures Find(Deleted(menu, id), id).None?
  {
    var r := Deleted(menu, id);
    forall j | 0 <= j < |r| ensures r[j].id != id {
      assert r[j] in r;
    }
  }

  /** Deleting keeps ids unique. */
  lemma {:induction false} DeletedKeepsIdsUnique(menu: seq<MenuItem>, id: int)
    requires UniqueIds(menu)
    ensures UniqueIds(Deleted(menu, id))
  {
    if menu != [] {
      DeletedKeepsIdsUnique(menu[1..], id);
      var t := Deleted(menu[1..], id);
      forall j | 0 <= j < |t| ensures t[j].id != menu[0].id {
        assert t[j] in menu[1..];
      }
    }
  }
}
