/** The same for the whole grid: every block of every location, and all that is below it, listed once each. */
module PowerGrid {
  import opened Options
  import opened PowerUse
  import opened PowerSites

  // ----- What the grid holds -----

  /** Block z of grid location (x, y), and an item below it. */
  datatype Occurrence = Occurrence(x: nat, y: nat, z: nat, item: Item)

  /** A block hangs on a location with offset 0 and a type that the library knows. */
  ghost predicate BlockAt(entries: seq<Instance>, grid: seq<seq<Location>>, x: nat, y: nat, z: nat, p: Place) {
    && x < |grid| && y < |grid[x]| && z < |grid[x][y].blocks| && grid[x][y].offset == 0 && grid[x][y].kind == Some(p.node)
    && p.block == grid[x][y].blocks[z] && FirstNamed(entries, p.node.name, p.entry)
  }

  ghost predicate Occurs(entries: seq<Instance>, grid: seq<seq<Location>>, o: Occurrence) {
    exists p :: BlockAt(entries, grid, o.x, o.y, o.z, p) && Belongs(p, o.item)
  }

  predicate SameSpot(a: Occurrence, b: Occurrence) {
    a.x == b.x && a.y == b.y && a.z == b.z && SameKey(a.item, b.item)
  }

  predicate AllApart(os: seq<Occurrence>) {
    forall i, j | 0 <= i < j < |os| :: !SameSpot(os[i], os[j])
  }

  /** The list has everything that is counted anywhere in the grid, once. */
  ghost predicate CoversGrid(entries: seq<Instance>, grid: seq<seq<Location>>, os: seq<Occurrence>) {
    AllApart(os) && forall o :: o in os <==> Occurs(entries, grid, o)
  }

  ghost predicate EntriesOk(entries: seq<Instance>) {
    forall k | 0 <= k < |entries| :: InstanceOk(entries[k])
  }

  ghost predicate GridOk(entries: seq<Instance>, grid: seq<seq<Location>>) {
    forall x, y | 0 <= x < |grid| && 0 <= y < |grid[x]| :: LocationOk(grid[x][y], entries)
  }

  /** The first n items below a block. */
  function Stamped(x: nat, y: nat, z: nat, items: seq<Item>): (os: seq<Occurrence>)
    ensures |os| == |items|
  {
    seq(|items|, i requires 0 <= i < |items| => Occurrence(x, y, z, items[i]))
  }

  predicate InUse(entries: seq<Instance>, l: Location) {
    l.offset == 0 && l.kind.Some? && Entry(entries, l.kind.value.name) < |entries|
  }

  function BlockPlace(entries: seq<Instance>, l: Location, z: nat): (p: Place)
    requires EntriesOk(entries) && LocationOk(l, entries) && InUse(entries, l) && z < |l.blocks|
    ensures PlaceOk(p)
  {
    Place(l.kind.value, l.blocks[z], entries[Entry(entries, l.kind.value.name)])
  }

  /** The first z blocks of a location. */
  ghost function BlockItems(entries: seq<Instance>, l: Location, x: nat, y: nat, z: nat): seq<Occurrence>
    requires EntriesOk(entries) && LocationOk(l, entries) && z <= |l.blocks|
  {
    if z == 0 || !InUse(entries, l) then []
    else BlockItems(entries, l, x, y, z - 1) + Stamped(x, y, z - 1, Items(BlockPlace(entries, l, z - 1)))
  }

  /** The first y locations of column x. */
  ghost function ColumnItems(entries: seq<Instance>, grid: seq<seq<Location>>, x: nat, y: nat): seq<Occurrence>
    requires EntriesOk(entries) && GridOk(entries, grid) && x < |grid| && y <= |grid[x]|
  {
    if y == 0 then []
    else ColumnItems(entries, grid, x, y - 1) + BlockItems(entries, grid[x][y - 1], x, y - 1, |grid[x][y - 1].blocks|)
  }

  /** The first x columns. */
  ghost function GridItems(entries: seq<Instance>, grid: seq<seq<Location>>, x: nat): seq<Occurrence>
    requires EntriesOk(entries) && GridOk(entries, grid) && x <= |grid|
  {
    if x == 0 then [] else GridItems(entries, grid, x - 1) + ColumnItems(entries, grid, x - 1, |grid[x - 1]|)
  }

  lemma StampedHas(x: nat, y: nat, z: nat, items: seq<Item>, o: Occurrence)
    ensures o in Stamped(x, y, z, items) <==> o.x == x && o.y == y && o.z == z && o.item in items
  {
    if o.x == x && o.y == y && o.z == z && o.item in items {
      var i :| 0 <= i < |items| && items[i] == o.item;
      assert Stamped(x, y, z, items)[i] == o;
    }
  }

  /** o is below one of the first z blocks of location l. */
  ghost predicate OnLocation(entries: seq<Instance>, l: Location, x: nat, y: nat, z: nat, o: Occurrence)
    requires EntriesOk(entries) && LocationOk(l, entries) && z <= |l.blocks|
  {
    o.x == x && o.y == y && o.z < z && InUse(entries, l) && Belongs(BlockPlace(entries, l, o.z), o.item)
  }

  lemma {:induction false} BlockHas(entries: seq<Instance>, l: Location, x: nat, y: nat, z: nat, o: Occurrence)
    requires EntriesOk(entries) && LocationOk(l, entries) && z <= |l.blocks|
    ensures o in BlockItems(entries, l, x, y, z) <==> OnLocation(entries, l, x, y, z, o)
  {
    hide EntriesOk, LocationOk, InUse, BlockPlace, Items, Stamped, Belongs, PlaceOk;
    if z > 0 && InUse(entries, l) {
      BlockHas(entries, l, x, y, z - 1, o);
      StampedHas(x, y, z - 1, Items(BlockPlace(entries, l, z - 1)), o);
      ItemsHas(BlockPlace(entries, l, z - 1), o.item);
    }
  }

  lemma BlockUnique(entries: seq<Instance>, grid: seq<seq<Location>>, x: nat, y: nat, z: nat, p: Place)
    requires EntriesOk(entries) && GridOk(entries, grid) && x < |grid| && y < |grid[x]| && z < |grid[x][y].blocks|
    ensures BlockAt(entries, grid, x, y, z, p) <==> InUse(entries, grid[x][y]) && p == BlockPlace(entries, grid[x][y], z)
  {
    hide Fits, InstanceOk, FirstNamed, Entry;
    EntryNamed(entries, p.node.name, p.entry);
  }

  lemma OccursThere(entries: seq<Instance>, grid: seq<seq<Location>>, o: Occurrence)
    requires EntriesOk(entries) && GridOk(entries, grid)
    ensures Occurs(entries, grid, o) <==>
              && o.x < |grid| && o.y < |grid[o.x]| && OnLocation(entries, grid[o.x][o.y], o.x, o.y, |grid[o.x][o.y].blocks|, o)
  {
    hide EntriesOk, InUse, BlockPlace, Belongs, LocationOk, FirstNamed;
    if o.x < |grid| && o.y < |grid[o.x]| && o.z < |grid[o.x][o.y].blocks| {
      forall p ensures BlockAt(entries, grid, o.x, o.y, o.z, p) <==> InUse(entries, grid[o.x][o.y]) && p == BlockPlace(entries, grid[o.x][o.y], o.z) {
        BlockUnique(entries, grid, o.x, o.y, o.z, p);
      }
    }
  }

  lemma {:induction false} ColumnHas(entries: seq<Instance>, grid: seq<seq<Location>>, x: nat, y: nat, o: Occurrence)
    requires EntriesOk(entries) && GridOk(entries, grid) && x < |grid| && y <= |grid[x]|
    ensures o in ColumnItems(entries, grid, x, y) <==> o.x == x && o.y < y && Occurs(entries, grid, o)
  {
    hide EntriesOk, LocationOk, OnLocation, BlockItems, Occurs;
    if y > 0 {
      ColumnHas(entries, grid, x, y - 1, o);
      BlockHas(entries, grid[x][y - 1], x, y - 1, |grid[x][y - 1].blocks|, o);
      OccursThere(entries, grid, o);
      OnLocationAt(entries, grid[x][y - 1], x, y - 1, o);
    }
  }

  lemma OnLocationAt(entries: seq<Instance>, l: Location, x: nat, y: nat, o: Occurrence)
    requires EntriesOk(entries) && LocationOk(l, entries)
    ensures OnLocation(entries, l, x, y, |l.blocks|, o) ==> o.x == x && o.y == y
  {
  }

  lemma {:induction false} GridHas(entries: seq<Instance>, grid: seq<seq<Location>>, x: nat, o: Occurrence)
    requires EntriesOk(entries) && GridOk(entries, grid) && x <= |grid|
    ensures o in GridItems(entries, grid, x) <==> o.x < x && Occurs(entries, grid, o)
  {
    hide EntriesOk, GridOk, ColumnItems, Occurs;
    if x > 0 {
      GridHas(entries, grid, x - 1, o);
      ColumnHas(entries, grid, x - 1, |grid[x - 1]|, o);
      if Occurs(entries, grid, o) {
        OccursThere(entries, grid, o);
      }
    }
  }

  lemma JoinApart(a: seq<Occurrence>, b: seq<Occurrence>)
    requires AllApart(a) && AllApart(b) && forall p, q | p in a && q in b :: !SameSpot(p, q)
    ensures AllApart(a + b)
  {
    forall i, j | 0 <= i < j < |a + b| ensures !SameSpot((a + b)[i], (a + b)[j]) {
      if i < |a| && j >= |a| {
        assert a[i] in a && b[j - |a|] in b;
      }
    }
  }

  lemma {:induction false} BlocksApart(entries: seq<Instance>, l: Location, x: nat, y: nat, z: nat)
    requires EntriesOk(entries) && LocationOk(l, entries) && z <= |l.blocks|
    ensures AllApart(BlockItems(entries, l, x, y, z))
  {
    hide EntriesOk, LocationOk, InUse, BlockPlace, Items, Belongs, PlaceOk;
    if z > 0 && InUse(entries, l) {
      var front, items := BlockItems(entries, l, x, y, z - 1), Items(BlockPlace(entries, l, z - 1));
      BlocksApart(entries, l, x, y, z - 1);
      ItemsApart(BlockPlace(entries, l, z - 1));
      forall p, q | p in front && q in Stamped(x, y, z - 1, items) ensures !SameSpot(p, q) {
        BlockHas(entries, l, x, y, z - 1, p);
      }
      JoinApart(front, Stamped(x, y, z - 1, items));
    }
  }

  lemma {:induction false} ColumnApart(entries: seq<Instance>, grid: seq<seq<Location>>, x: nat, y: nat)
    requires EntriesOk(entries) && GridOk(entries, grid) && x < |grid| && y <= |grid[x]|
    ensures AllApart(ColumnItems(entries, grid, x, y))
  {
    hide EntriesOk, LocationOk, BlockItems, Occurs, OnLocation;
    if y > 0 {
      var front, l := ColumnItems(entries, grid, x, y - 1), grid[x][y - 1];
      ColumnApart(entries, grid, x, y - 1);
      BlocksApart(entries, l, x, y - 1, |l.blocks|);
      forall p, q | p in front && q in BlockItems(entries, l, x, y - 1, |l.blocks|) ensures !SameSpot(p, q) {
        ColumnHas(entries, grid, x, y - 1, p);
        BlockHas(entries, l, x, y - 1, |l.blocks|, q);
        OnLocationAt(entries, l, x, y - 1, q);
      }
      JoinApart(front, BlockItems(entries, l, x, y - 1, |l.blocks|));
    }
  }

  lemma {:induction false} GridApart(entries: seq<Instance>, grid: seq<seq<Location>>, x: nat)
    requires EntriesOk(entries) && GridOk(entries, grid) && x <= |grid|
    ensures AllApart(GridItems(entries, grid, x))
  {
    hide EntriesOk, GridOk, ColumnItems, Occurs;
    if x > 0 {
      var front, column := GridItems(entries, grid, x - 1), ColumnItems(entries, grid, x - 1, |grid[x - 1]|);
      GridApart(entries, grid, x - 1);
      ColumnApart(entries, grid, x - 1, |grid[x - 1]|);
      forall p, q | p in front && q in column ensures !SameSpot(p, q) {
        GridHas(entries, grid, x - 1, p);
        ColumnHas(entries, grid, x - 1, |grid[x - 1]|, q);
      }
      JoinApart(front, column);
    }
  }

  /** Everything counted anywhere in the grid is listed, once, and nothing else is. */
  lemma GridExact(entries: seq<Instance>, grid: seq<seq<Location>>)
    requires EntriesOk(entries) && GridOk(entries, grid)
    ensures CoversGrid(entries, grid, GridItems(entries, grid, |grid|))
  {
    hide EntriesOk, GridOk, GridItems, Occurs, AllApart;
    GridApart(entries, grid, |grid|);
    forall o ensures o in GridItems(entries, grid, |grid|) <==> Occurs(entries, grid, o) {
      GridHas(entries, grid, |grid|, o);
      if Occurs(entries, grid, o) {
        OccursThere(entries, grid, o);
      }
    }
  }

  // ----- Totals -----

  function GridTotal(lib: Library, os: seq<Occurrence>): Use
    requires LibraryOk(lib)
  {
    if os == [] then NoUse else Add(GridTotal(lib, os[..|os| - 1]), ItemUse(lib, os[|os| - 1].item))
  }

  lemma {:induction false} GridTotalAppend(lib: Library, a: seq<Occurrence>, b: seq<Occurrence>)
    requires LibraryOk(lib)
    ensures GridTotal(lib, a + b) == Add(GridTotal(lib, a), GridTotal(lib, b))
  {
    hide ItemUse, Add;
    if b == [] {
      assert a + b == a;
      AddNone(GridTotal(lib, a));
    } else {
      var n := |b| - 1;
      assert (a + b)[..|a + b| - 1] == a + b[..n];
      GridTotalAppend(lib, a, b[..n]);
      AddAdd(GridTotal(lib, a), GridTotal(lib, b[..n]), ItemUse(lib, b[n].item));
    }
  }

  lemma {:induction false} StampedTotal(lib: Library, x: nat, y: nat, z: nat, items: seq<Item>)
    requires LibraryOk(lib)
    ensures GridTotal(lib, Stamped(x, y, z, items)) == Total(lib, items)
  {
    hide ItemUse, Add;
    if items != [] {
      StampedTotal(lib, x, y, z, items[..|items| - 1]);
      assert Stamped(x, y, z, items)[..|items| - 1] == Stamped(x, y, z, items[..|items| - 1]);
    }
  }
}
