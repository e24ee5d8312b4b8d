/**
 * The prize inventory of the wheel: the prize record, the built-in default
 * inventory, the "still in stock" filter, the look-up by name, stock totals,
 * the one-unit decrement a finished spin applies, and the per-record status
 * shown in the stock report.
 */
module Prizes {

  /**
   * One prize record. `name` identifies the record, `kind` is the record's
   * `type` field: "prize" for a real reward, "empty" for a no-win slot.
   */
  datatype Prize = Prize(name: string, maxQuantity: int, currentQuantity: int, kind: string)

  const PrizeKind := "prize"
  const EmptyKind := "empty"

  /** Every record holds between zero and its maximum quantity. */
  ghost predicate StockInvariant(ps: seq<Prize>)
  {
    forall i :: 0 <= i < |ps| ==> 0 <= ps[i].currentQuantity <= ps[i].maxQuantity
  }

  /** No two records share a name. */
  ghost predicate UniqueNames(ps: seq<Prize>)
  {
    forall i, j :: 0 <= i < j < |ps| ==> ps[i].name != ps[j].name
  }

  /** The built-in inventory used when the store holds nothing usable: four rewards and one no-win slot, all full. */
  function DefaultPrizes(): (r: seq<Prize>)
    ensures |r| == 5
    ensures forall i :: 0 <= i < |r| ==> 0 < r[i].currentQuantity == r[i].maxQuantity
    ensures StockInvariant(r) && UniqueNames(r)
    ensures forall i :: 0 <= i < 4 ==> r[i].kind == PrizeKind
    ensures r[4].kind == EmptyKind
  {
    [ Prize("Par de Medias", 24, 24, PrizeKind),
      Prize("10% de Descuento", 30, 30, PrizeKind),
      Prize("Desayuno", 20, 20, PrizeKind),
      Prize("Cordones", 20, 20, PrizeKind),
      Prize("Lo sentimos! Será la proxima", 25, 25, EmptyKind) ]
  }

  /** The records with positive stock, in inventory order. */
  function Available(ps: seq<Prize>): (r: seq<Prize>)
    ensures |r| <= |ps|
    ensures forall k :: 0 <= k < |r| ==> r[k].currentQuantity > 0
  {
    if ps == [] then []
    else if ps[0].currentQuantity > 0 then [ps[0]] + Available(ps[1..])
    else Available(ps[1..])
  }

  /** Where the k-th available record sits in the whole inventory. */
  function AvailableIndex(ps: seq<Prize>, k: nat): (j: nat)
    requires k < |Available(ps)|
    ensures k <= j < |ps|
    ensures ps[j] == Available(ps)[k]
  {
    var rest := ps[1..];
    if ps[0].currentQuantity > 0 then
      assert Available(ps) == [ps[0]] + Available(rest);
      if k == 0 then 0
      else
        var j := AvailableIndex(rest, k - 1);
        assert ps[j + 1] == rest[j];
        1 + j
    else
      assert Available(ps) == Available(rest);
      var j := AvailableIndex(rest, k);
      assert ps[j + 1] == rest[j];
      1 + j
  }

  /** The filter keeps inventory order: later available records come from later positions. */
  lemma {:induction false} AvailableKeepsOrder(ps: seq<Prize>, k1: nat, k2: nat)
    requires k1 < k2 < |Available(ps)|
    ensures AvailableIndex(ps, k1) < AvailableIndex(ps, k2)
  {
    var rest := ps[1..];
    if ps[0].currentQuantity > 0 {
      assert AvailableIndex(ps, k2) == 1 + AvailableIndex(rest, k2 - 1);
      if k1 > 0 {
        assert AvailableIndex(ps, k1) == 1 + AvailableIndex(rest, k1 - 1);
        AvailableKeepsOrder(rest, k1 - 1, k2 - 1);
      }
    } else {
      assert AvailableIndex(ps, k1) == 1 + AvailableIndex(rest, k1);
      assert AvailableIndex(ps, k2) == 1 + AvailableIndex(rest, k2);
      AvailableKeepsOrder(rest, k1, k2);
    }
  }

  /** The filter drops nothing in stock: every record with positive stock is some available record. */
  lemma {:induction false} AvailableIsComplete(ps: seq<Prize>, j: nat)
    requires j < |ps| && ps[j].currentQuantity > 0
    ensures exists k :: 0 <= k < |Available(ps)| && AvailableIndex(ps, k) == j
  {
    if j == 0 {
      assert AvailableIndex(ps, 0) == 0;
    } else {
      AvailableIsComplete(ps[1..], j - 1);
      var k :| 0 <= k < |Available(ps[1..])| && AvailableIndex(ps[1..], k) == j - 1;
      if ps[0].currentQuantity > 0 {
        assert AvailableIndex(ps, k + 1) == j;
      } else {
        assert AvailableIndex(ps, k) == j;
      }
    }
  }

  /** Nothing is available exactly when no record has positive stock. */
  lemma {:induction false} NothingAvailableIffNoStock(ps: seq<Prize>)
    ensures Available(ps) == [] <==> forall j :: 0 <= j < |ps| ==> ps[j].currentQuantity <= 0
  {
    if ps != [] {
      NothingAvailableIffNoStock(ps[1..]);
      assert forall j :: 1 <= j < |ps| ==> ps[j] == ps[1..][j - 1];
    }
  }

  /**
   * Position of the first record called `name`, or -1 when there is none
   * (the array's findIndex on a name comparison).
   */
  function FindIndexByName(ps: seq<Prize>, name: string): (r: int)
    ensures -1 <= r < |ps|
    ensures r == -1 <==> forall j :: 0 <= j < |ps| ==> ps[j].name != name
    ensures r >= 0 ==> ps[r].name == name && forall j :: 0 <= j < r ==> ps[j].name != name
  {
    if ps == [] then -1
    else if ps[0].name == name then 0
    else
      var t := FindIndexByName(ps[1..], name);
      if t == -1 then -1 else t + 1
  }

  /**
   * Looking up an available record by its name finds a record of that name,
   * and with unique names it finds exactly that record's own position.
   */
  lemma LookupFindsChosen(ps: seq<Prize>, k: nat)
    requires k < |Available(ps)|
    ensures 0 <= FindIndexByName(ps, Available(ps)[k].name) <= AvailableIndex(ps, k)
    ensures UniqueNames(ps) ==> FindIndexByName(ps, Available(ps)[k].name) == AvailableIndex(ps, k)
  {
    var j := AvailableIndex(ps, k);
    var r := FindIndexByName(ps, Available(ps)[k].name);
    assert ps[j].name == Available(ps)[k].name;
  }

  /** Total remaining stock over all records. */
  function TotalStock(ps: seq<Prize>): int
  {
    if ps == [] then 0 else ps[0].currentQuantity + TotalStock(ps[1..])
  }

  /** With no negative stock, nothing is available exactly when the total stock is zero. */
  lemma {:induction false} NothingAvailableIffZeroTotal(ps: seq<Prize>)
    requires StockInvariant(ps)
    ensures TotalStock(ps) >= 0
    ensures Available(ps) == [] <==> TotalStock(ps) == 0
  {
    if ps != [] {
      assert StockInvariant(ps[1..]) by {
        assert forall j :: 0 <= j < |ps[1..]| ==> ps[1..][j] == ps[j + 1];
      }
      NothingAvailableIffZeroTotal(ps[1..]);
    }
  }

  /** The inventory after one unit of record `i` is handed out. */
  function Decremented(ps: seq<Prize>, i: nat): (r: seq<Prize>)
    requires i < |ps|
    ensures |r| == |ps|
    ensures r[i].currentQuantity == ps[i].currentQuantity - 1
    ensures r[i].name == ps[i].name && r[i].maxQuantity == ps[i].maxQuantity && r[i].kind == ps[i].kind
    ensures forall j :: 0 <= j < |ps| && j != i ==> r[j] == ps[j]
  {
    ps[i := ps[i].(currentQuantity := ps[i].currentQuantity - 1)]
  }

  /** Handing out one unit lowers the total stock by exactly one. */
  lemma {:induction false} DecrementedLowersTotal(ps: seq<Prize>, i: nat)
    requires i < |ps|
    ensures TotalStock(Decremented(ps, i)) == TotalStock(ps) - 1
  {
    var r := Decremented(ps, i);
    if i == 0 {
      assert r[1..] == ps[1..];
    } else {
      assert r[1..] == Decremented(ps[1..], i - 1);
      DecrementedLowersTotal(ps[1..], i - 1);
    }
  }

  /**
   * Handing out a unit of a record that has stock keeps every record within
   * zero and its maximum, and keeps names unique.
   */
  lemma DecrementedKeepsInvariants(ps: seq<Prize>, i: nat)
    requires i < |ps| && ps[i].currentQuantity > 0
    requires StockInvariant(ps)
    ensures StockInvariant(Decremented(ps, i))
    ensures UniqueNames(ps) ==> UniqueNames(Decremented(ps, i))
  {
  }

  /** The status word the stock report prints for one record. */
  function Status(p: Prize): (s: string)
    ensures s == "DISPONIBLE" <==> p.currentQuantity > 0
    ensures s == "AGOTADO" <==> p.currentQuantity <= 0
  {
    if p.currentQuantity > 0 then "DISPONIBLE" else "AGOTADO"
  }

  /** The status words of the whole inventory, one per record, in order. */
  function StatusReport(ps: seq<Prize>): (r: seq<string>)
    ensures |r| == |ps|
    ensures forall i :: 0 <= i < |ps| ==> r[i] == Status(ps[i])
  {
    if ps == [] then [] else [Status(ps[0])] + StatusReport(ps[1..])
  }

  /** How many entries of `ss` equal `s`. */
  function Occurrences(ss: seq<string>, s: string): nat
  {
    if ss == [] then 0 else (if ss[0] == s then 1 else 0) + Occurrences(ss[1..], s)
  }

  /** The report says "DISPONIBLE" exactly as often as there are records a spin can draw. */
  lemma {:induction false} ReportCountsAvailable(ps: seq<Prize>)
    ensures Occurrences(StatusReport(ps), "DISPONIBLE") == |Available(ps)|
  {
    if ps != [] {
      var r := StatusReport(ps);
      assert r[1..] == StatusReport(ps[1..]);
      ReportCountsAvailable(ps[1..]);
    }
  }
}
