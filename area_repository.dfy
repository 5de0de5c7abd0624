/**
 * The area table: add, update and delete, lookup by id, and the list that shows either the active
 * or the inactive areas, ordered by name.
 */
module AreaRepository {
  import opened Wrappers
  import opened Domain
  import Text
  import Sorting

  predicate UniqueIds(areas: seq<Area>) {
    forall i, j :: 0 <= i < j < |areas| ==> areas[i].id != areas[j].id
  }

  predicate HasId(areas: seq<Area>, id: Id) {
    exists i :: 0 <= i < |areas| && areas[i].id == id
  }

  /** The table with the row whose id is `a.id` overwritten by `a`. */
  function Replaced(areas: seq<Area>, a: Area): (r: seq<Area>)
    ensures |r| == |areas|
    ensures forall i :: 0 <= i < |areas| ==> r[i] == if areas[i].id == a.id then a else areas[i]
  {
    seq(|areas|, i requires 0 <= i < |areas| => if areas[i].id == a.id then a else areas[i])
  }

  class Repository {
    var areas: seq<Area>

    ghost predicate Valid()
      reads this
    {
      UniqueIds(areas)
    }

    constructor ()
      ensures Valid() && areas == []
    {
      areas := [];
    }

    /** `AddAsync`: a null area is refused before the database is reached; a repeated key is refused by it. */
    method Add(area: Option<Area>) returns (r: Outcome<()>)
      requires Valid()
      modifies this
      ensures Valid()
      ensures area.None? ==> r == Err(NullArgument("area")) && areas == old(areas)
      ensures area.Some? && HasId(old(areas), area.value.id) ==> r == Err(SaveRefused) && areas == old(areas)
      ensures area.Some? && !HasId(old(areas), area.value.id) ==> r == Ok(()) && areas == old(areas) + [area.value]
    {
      if area.None? {
        return Err(NullArgument("area"));
      }
      if HasId(areas, area.value.id) {
        return Err(SaveRefused);
      }
      areas := areas + [area.value];
      r := Ok(());
    }

    /** `UpdateAsync`: overwrites the stored row that has the area's id. */
    method Update(area: Option<Area>) returns (r: Outcome<()>)
      requires Valid()
      modifies this
      ensures Valid()
      ensures area.None? ==> r == Err(NullArgument("area")) && areas == old(areas)
      ensures area.Some? && !HasId(old(areas), area.value.id) ==> r == Err(RowMissing) && areas == old(areas)
      ensures area.Some? && HasId(old(areas), area.value.id) ==> r == Ok(()) && areas == Replaced(old(areas), area.value)
    {
      if area.None? {
        return Err(NullArgument("area"));
      }
      if !HasId(areas, area.value.id) {
        return Err(RowMissing);
      }
      areas := Replaced(areas, area.value);
      r := Ok(());
    }

    /**
     * `DeleteAsync`: removes the stored row that has the area's id. `referenced` says whether some
     * ticket or request type still points at the area, in which case the restricting foreign key
     * makes the database refuse the delete.
     */
    method Delete(area: Option<Area>, referenced: bool) returns (r: Outcome<()>)
      requires Valid()
      modifies this
      ensures Valid()
      ensures area.None? ==> r == Err(NullArgument("area")) && areas == old(areas)
      ensures area.Some? && !HasId(old(areas), area.value.id) ==> r == Err(RowMissing) && areas == old(areas)
      ensures area.Some? && HasId(old(areas), area.value.id) && referenced ==> r == Err(SaveRefused) && areas == old(areas)
      ensures area.Some? && HasId(old(areas), area.value.id) && !referenced ==>
        r == Ok(()) && areas == Filter(old(areas), (x: Area) => x.id != area.value.id)
    {
      if area.None? {
        return Err(NullArgument("area"));
      }
      var id := area.value.id;
      if !HasId(areas, id) {
        return Err(RowMissing);
      }
      if referenced {
        return Err(SaveRefused);
      }
      FilterKeepsUnique(areas, (x: Area) => x.id != id);
      areas := Filter(areas, (x: Area) => x.id != id);
      r := Ok(());
    }
  }

  lemma FilterKeepsUnique(areas: seq<Area>, p: Area -> bool)
    requires UniqueIds(areas)
    ensures UniqueIds(Filter(areas, p))
  {
    var id := (a: Area) => a.id;
    assert DistinctKeys(areas, id);
    FilterKeepsDistinct(areas, p, id);
  }

  /** `GetByIdAsync`: the area with that id, or null. */
  function GetById(areas: seq<Area>, id: Id): (r: Option<Area>)
    ensures r.Some? ==> r.value in areas && r.value.id == id
    ensures r.None? <==> !HasId(areas, id)
  {
    match FirstIndex(areas, (a: Area) => a.id == id)
    case None => None
    case Some(k) => Some(areas[k])
  }

  /** By name, ascending: the order of `OrderBy(a => a.Nombre)`. */
  predicate NameOrder(a: Area, b: Area) {
    Text.LexLe(a.nombre, b.nombre)
  }

  lemma NameOrderIsTotalPreorder()
    ensures Sorting.TotalPreorder(NameOrder)
  {
    forall a: Area, b: Area ensures NameOrder(a, b) || NameOrder(b, a) {
      Text.LexLeTotal(a.nombre, b.nombre);
    }
    forall a: Area, b: Area, c: Area | NameOrder(a, b) && NameOrder(b, c) ensures NameOrder(a, c) {
      Text.LexLeTransitive(a.nombre, b.nombre, c.nombre);
    }
  }

  /** The state the list keeps: the flag selects the inactive areas, its absence (false) the active ones. */
  predicate Listed(a: Area, incluirInactivos: bool) {
    a.activo == !incluirInactivos
  }

  /** `GetAllAsync(incluirInactivos)`: the areas of one state, by name. */
  function GetAll(areas: seq<Area>, incluirInactivos: bool): (r: seq<Area>)
    ensures forall a :: a in r <==> a in areas && Listed(a, incluirInactivos)
    ensures forall a :: multiset(r)[a] == if Listed(a, incluirInactivos) then multiset(areas)[a] else 0
    ensures Sorting.SortedBy(r, NameOrder)
  {
    NameOrderIsTotalPreorder();
    Sorting.SortedWhere(areas, (a: Area) => Listed(a, incluirInactivos), NameOrder)
  }

  /** Asking to include inactive areas gives the inactive areas only: an active area is never in that list. */
  lemma IncluirInactivosExcludesActive(areas: seq<Area>, a: Area)
    requires a in areas
    ensures a in GetAll(areas, true) <==> !a.activo
    ensures a in GetAll(areas, false) <==> a.activo
    ensures a in GetAll(areas, true) <==> a !in GetAll(areas, false)
  {
  }

  /** The two lists split the table: every stored area is in exactly one of them, as often as it is stored. */
  lemma ListsPartitionTable(areas: seq<Area>)
    ensures multiset(GetAll(areas, true)) + multiset(GetAll(areas, false)) == multiset(areas)
  {
    var t := GetAll(areas, true);
    var f := GetAll(areas, false);
    forall a ensures (multiset(t) + multiset(f))[a] == multiset(areas)[a] {
      assert multiset(t)[a] == if !a.activo then multiset(areas)[a] else 0;
      assert multiset(f)[a] == if a.activo then multiset(areas)[a] else 0;
    }
  }
}
