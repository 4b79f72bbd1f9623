/** Production cards and what applying their two lists does to one commodity. */
module Productions {
  import opened Comodities
  import opened Prices

  /** `Production(Comodity, u32)`: one entry of a card. */
  datatype Production = Production(kind: Comodity, amount: U32)

  /** `ProductionCard`: what the producing player gains and which prices rise. */
  datatype ProductionCard = ProductionCard(produce: seq<Production>, inflate: seq<Production>)

  /** The sum of the amounts of all entries naming the commodity at index `c`. */
  function TotalFor(entries: seq<Production>, c: nat): (total: nat)
    ensures (forall k :: 0 <= k < |entries| ==> Index(entries[k].kind) != c) ==> total == 0
  {
    if entries == [] then 0
    else (if Index(entries[0].kind) == c then entries[0].amount else 0) + TotalFor(entries[1..], c)
  }

  /** Entries accumulate: the total of two lists is the sum of their totals. */
  lemma {:induction false} TotalForAppend(a: seq<Production>, b: seq<Production>, c: nat)
    ensures TotalFor(a + b, c) == TotalFor(a, c) + TotalFor(b, c)
    decreases |a|
  {
    if a != [] {
      assert (a + b)[0] == a[0] && (a + b)[1..] == a[1..] + b;
      TotalForAppend(a[1..], b, c);
    } else {
      assert a + b == b;
    }
  }

  /** A single entry contributes its amount to its own commodity only. */
  lemma TotalForSingle(p: Production, c: nat)
    ensures TotalFor([p], c) == if Index(p.kind) == c then p.amount else 0
  {
    assert [p][1..] == [];
  }

  /** Whether every `inflate` of the entries naming commodity `c`, applied in
      list order from the price `p`, adds without leaving `u32`. */
  ghost predicate InflateFits(p: ComodityPrice, c: nat, entries: seq<Production>)
    decreases |entries|
  {
    entries == [] ||
    if Index(entries[0].kind) == c then
      p.current + entries[0].amount < U32_BOUND && InflateFits(p.Inflate(entries[0].amount), c, entries[1..])
    else
      InflateFits(p, c, entries[1..])
  }

  /** The price of commodity `c` after `inflate` for each entry naming it, in
      list order. */
  function InflatedFor(p: ComodityPrice, c: nat, entries: seq<Production>): (r: ComodityPrice)
    requires InflateFits(p, c, entries)
    ensures r.min == p.min && r.max == p.max
    decreases |entries|
  {
    if entries == [] then p
    else if Index(entries[0].kind) == c then InflatedFor(p.Inflate(entries[0].amount), c, entries[1..])
    else InflatedFor(p, c, entries[1..])
  }

  /** A commodity no entry names keeps its price. */
  lemma {:induction false} InflatedForUnnamed(p: ComodityPrice, c: nat, entries: seq<Production>)
    requires forall k :: 0 <= k < |entries| ==> Index(entries[k].kind) != c
    ensures InflateFits(p, c, entries)
    ensures InflatedFor(p, c, entries) == p
    decreases |entries|
  {
    if entries != [] {
      InflatedForUnnamed(p, c, entries[1..]);
    }
  }

  /** Applying entries never takes a price out of its band, and never lowers it. */
  lemma {:induction false} InflatedForInBand(p: ComodityPrice, c: nat, entries: seq<Production>)
    requires InflateFits(p, c, entries)
    requires p.InBand()
    ensures InflatedFor(p, c, entries).InBand()
    ensures p.current <= InflatedFor(p, c, entries).current
    decreases |entries|
  {
    if entries != [] {
      if Index(entries[0].kind) == c {
        InflatedForInBand(p.Inflate(entries[0].amount), c, entries[1..]);
      } else {
        InflatedForInBand(p, c, entries[1..]);
      }
    }
  }

  /** Inflating an in-band price by several entries comes to the same as
      adding their total and cutting at the ceiling. */
  lemma {:induction false} InflatedForTotal(p: ComodityPrice, c: nat, entries: seq<Production>)
    requires InflateFits(p, c, entries)
    requires p.InBand()
    ensures InflatedFor(p, c, entries).current == Min(p.current + TotalFor(entries, c), p.max)
    decreases |entries|
  {
    if entries != [] {
      if Index(entries[0].kind) == c {
        InflatedForTotal(p.Inflate(entries[0].amount), c, entries[1..]);
      } else {
        InflatedForTotal(p, c, entries[1..]);
      }
    }
  }
}
