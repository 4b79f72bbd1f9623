/** The commodity kinds of the board, their array indices and the name table
    that maps typed names back to kinds. */
module Comodities {

  /** Rust's `u32`: every price, amount and holding in the game has this width. */
  const U32_BOUND: int := 0x1_0000_0000
  type U32 = x: int | 0 <= x < U32_BOUND

  datatype Option<+T> = None | Some(value: T)

  /** The seven kinds, in the order of their discriminants. The trailing
      `Count` variant of the source is a size marker, modelled as `Count`. */
  datatype Comodity = Any | Coal | Goods | Iron | Luxury | Wheat | Wood

  const Count: nat := 7

  /** The discriminant, `c as usize`, used to index every per-commodity array. */
  function Index(c: Comodity): (i: nat)
    ensures i < Count
  {
    match c
    case Any => 0
    case Coal => 1
    case Goods => 2
    case Iron => 3
    case Luxury => 4
    case Wheat => 5
    case Wood => 6
  }

  lemma IndexInjective(c: Comodity, d: Comodity)
    ensures Index(c) == Index(d) <==> c == d
  {
  }

  /** The name table, one `(name, kind)` pair per discriminant. */
  const ComodityNameMap: seq<(string, Comodity)> := [
    ("Any", Any),
    ("Coal", Coal),
    ("Goods", Goods),
    ("Iron", Iron),
    ("Luxury", Luxury),
    ("Wheat", Wheat),
    ("Wood", Wood)
  ]

  /** The table row of a kind sits at its discriminant. */
  lemma NameMapIndexed(i: nat)
    requires i < |ComodityNameMap|
    ensures |ComodityNameMap| == Count
    ensures Index(ComodityNameMap[i].1) == i
  {
  }

  /** The printed name of a kind: the table row at its discriminant. */
  function Name(c: Comodity): (s: string)
    ensures ComodityNameMap[Index(c)] == (s, c)
  {
    ComodityNameMap[Index(c)].0
  }

  /** No two rows of a table share a name. */
  ghost predicate DistinctNames(table: seq<(string, Comodity)>)
  {
    forall i, j :: 0 <= i < j < |table| ==> table[i].0 != table[j].0
  }

  /** A linear scan with early return: the kind of the first row named `name`.
      Whatever it returns comes from a row carrying the name. */
  function Lookup(table: seq<(string, Comodity)>, name: string): (r: Option<Comodity>)
    ensures r.Some? ==> (name, r.value) in table
    decreases |table|
  {
    if table == [] then None
    else if table[0].0 == name then Some(table[0].1)
    else Lookup(table[1..], name)
  }

  /** The scan finds a row exactly when some row carries the name, and then
      returns the kind of the first such row. */
  lemma {:induction false} LookupFirst(table: seq<(string, Comodity)>, name: string, i: nat)
    requires i < |table| && table[i].0 == name
    requires forall j :: 0 <= j < i ==> table[j].0 != name
    ensures Lookup(table, name) == Some(table[i].1)
    decreases i
  {
    if i > 0 {
      LookupFirst(table[1..], name, i - 1);
    }
  }

  lemma {:induction false} LookupMissing(table: seq<(string, Comodity)>, name: string)
    ensures Lookup(table, name).None? <==> forall j :: 0 <= j < |table| ==> table[j].0 != name
    decreases |table|
  {
    if table != [] {
      LookupMissing(table[1..], name);
      assert forall j :: 1 <= j < |table| ==> table[j] == table[1..][j - 1];
    }
  }

  lemma NameMapDistinct()
    ensures DistinctNames(ComodityNameMap)
  {
  }

  /** `Comodity::from_name`: a kind it returns is named `name` in the table. */
  function FromName(name: string): (r: Option<Comodity>)
    ensures r.Some? ==> (name, r.value) in ComodityNameMap
  {
    Lookup(ComodityNameMap, name)
  }

  /** Name to kind to index round-trips for every table row. */
  lemma FromNameRow(i: nat)
    requires i < |ComodityNameMap|
    ensures FromName(ComodityNameMap[i].0) == Some(ComodityNameMap[i].1)
    ensures Index(ComodityNameMap[i].1) == i
  {
    NameMapDistinct();
    LookupFirst(ComodityNameMap, ComodityNameMap[i].0, i);
  }

  /** Kind to name to kind round-trips. */
  lemma FromNameOfName(c: Comodity)
    ensures FromName(Name(c)) == Some(c)
  {
    FromNameRow(Index(c));
  }

  /** Whatever kind a name yields, that name is the kind's printed name. */
  lemma FromNameSound(name: string)
    requires FromName(name).Some?
    ensures Name(FromName(name).value) == name
  {
    var j :| 0 <= j < |ComodityNameMap| && ComodityNameMap[j] == (name, FromName(name).value);
    NameMapIndexed(j);
  }

  /** A name outside the table yields `None`, and only such a name does. */
  lemma FromNameNone(name: string)
    ensures FromName(name).None? <==> forall c: Comodity :: Name(c) != name
  {
    LookupMissing(ComodityNameMap, name);
    if FromName(name).None? {
      forall c: Comodity ensures Name(c) != name {
        assert ComodityNameMap[Index(c)].0 == Name(c);
      }
    } else {
      FromNameSound(name);
    }
  }
}
