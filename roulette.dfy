/**
 * The wheel's session state: the inventory, the spin button's disabled flag,
 * the spin in flight (if any), and the key-value store the inventory is
 * persisted in. The click on the spin button and the end of the wheel's
 * animation are the two steps that move it.
 */
module Roulette {
  import opened Options
  import opened Prizes
  import opened Draw

  const StorageKey := "roulettePrizes"

  /**
   * What the store can hold under a key: an empty string (read as "nothing
   * stored"), text that does not parse, or a serialised inventory.
   */
  datatype Entry = Blank | Malformed | Stored(prizes: seq<Prize>)

  /** The title and body of the dialog shown when a spin ends. */
  datatype Message = Message(title: string, content: string)

  const WinTitle := "¡Felicidades!"
  const LoseTitle := "¡Suerte para la próxima!"

  /** `"name"`, the way the dialog quotes a record's name. */
  function Quoted(name: string): (q: string)
    ensures |q| == |name| + 2 && q[1..|q| - 1] == name
    ensures q[0] == '"' && q[|q| - 1] == '"'
  {
    "\"" + name + "\""
  }

  /** The dialog for a finished spin: a congratulation for a real reward, a consolation otherwise. */
  function ResultMessage(p: Prize): (m: Message)
    ensures m.title == WinTitle <==> p.kind == PrizeKind
    ensures m.title == LoseTitle <==> p.kind != PrizeKind
    ensures p.kind == PrizeKind ==> m.content == "¡Has ganado: " + Quoted(p.name) + "!"
    ensures p.kind != PrizeKind ==> m.content == Quoted(p.name)
  {
    if p.kind == PrizeKind then Message(WinTitle, "¡Has ganado: " + Quoted(p.name) + "!")
    else Message(LoseTitle, Quoted(p.name))
  }

  /** What a click on the spin button did. */
  datatype SpinStart = Ignored | GameOver | Spinning(plan: SpinPlan)

  class Wheel {
    var prizes: seq<Prize>
    var disabled: bool
    var pending: Option<SpinPlan>
    var store: map<string, Entry>

    /**
     * The store always holds the inventory in memory; a spin in flight keeps
     * the button disabled and names a record with that name at its position;
     * outside a spin the button is disabled only when nothing is in stock.
     */
    ghost predicate Valid()
      reads this
    {
      && StorageKey in store && store[StorageKey] == Stored(prizes)
      && (pending.Some? ==>
            && disabled
            && pending.value.index < |prizes|
            && prizes[pending.value.index].name == pending.value.chosen.name
            && pending.value.chosen.currentQuantity > 0
            && (UniqueNames(prizes) ==> prizes[pending.value.index] == pending.value.chosen))
      && (pending.None? && disabled ==> Available(prizes) == [])
    }

    /** Start-up: load the inventory, or fall back to a fresh copy of the defaults and save them. */
    constructor (initialStore: map<string, Entry>)
      ensures Valid() && pending == None && !disabled
      ensures (StorageKey in initialStore && initialStore[StorageKey].Stored? && initialStore[StorageKey].prizes != [])
        ==> prizes == initialStore[StorageKey].prizes && store == initialStore
      ensures !(StorageKey in initialStore && initialStore[StorageKey].Stored? && initialStore[StorageKey].prizes != [])
        ==> prizes == DefaultPrizes() && store == initialStore[StorageKey := Stored(DefaultPrizes())]
    {
      prizes := [];
      disabled := false;
      pending := None;
      store := initialStore;
      new;
      var loaded := LoadPrizes();
      if loaded.None? || |loaded.value| == 0 {
        prizes := DefaultPrizes();
        var _ := SavePrizes();
      } else {
        prizes := loaded.value;
      }
    }

    /** Read the inventory from the store; text that does not parse is removed. */
    method LoadPrizes() returns (loaded: Option<seq<Prize>>)
      modifies this`store
      ensures StorageKey !in old(store) ==> loaded == None && store == old(store)
      ensures StorageKey in old(store) && old(store)[StorageKey] == Blank ==> loaded == None && store == old(store)
      ensures StorageKey in old(store) && old(store)[StorageKey] == Malformed
        ==> loaded == None && store == old(store) - {StorageKey}
      ensures StorageKey in old(store) && old(store)[StorageKey].Stored?
        ==> loaded == Some(old(store)[StorageKey].prizes) && store == old(store)
    {
      loaded := None;
      if StorageKey in store {
        match store[StorageKey]
        case Blank =>
        case Malformed =>
          store := store - {StorageKey};
        case Stored(ps) =>
          loaded := Some(ps);
      }
    }

    /** Write the inventory to the store; the report is the status of every record after the write. */
    method SavePrizes() returns (report: seq<string>)
      modifies this`store
      ensures store == old(store)[StorageKey := Stored(prizes)]
      ensures report == StatusReport(prizes)
    {
      store := store[StorageKey := Stored(prizes)];
      report := StatusReport(prizes);
    }

    /**
     * A click on the spin button, with `r` the random index into the
     * available records. It is ignored while the button is disabled, ends the
     * game when nothing is in stock, and otherwise commits to a draw and
     * disables the button; the inventory itself is not touched yet.
     */
    method StartSpin(r: nat) returns (outcome: SpinStart)
      requires Valid()
      requires disabled || Available(prizes) == [] || r < |Available(prizes)|
      modifies this`disabled, this`pending
      ensures Valid()
      ensures old(disabled) ==> outcome == Ignored && disabled && pending == old(pending)
      ensures !old(disabled) && Available(prizes) == [] ==> outcome == GameOver && disabled && pending == None
      ensures !old(disabled) && Available(prizes) != []
        ==> outcome.Spinning? && outcome.plan == PlanSpin(prizes, r).value
            && disabled && pending == Some(outcome.plan)
    {
      if disabled {
        return Ignored;
      }
      var available := Available(prizes);
      if |available| == 0 {
        disabled := true;
        return GameOver;
      }
      disabled := true;
      var plan := PlanSpin(prizes, r);
      if plan.None? {
        assert false;
      }
      pending := plan;
      outcome := Spinning(plan.value);
    }

    /**
     * The end of the wheel's animation. With a spin in flight, the drawn
     * record loses one unit, the inventory is saved, the dialog is chosen by
     * the record's kind, and the button is re-enabled unless nothing is left.
     * The handler runs once per spin: a second signal finds nothing pending
     * and changes nothing.
     */
    method CompleteSpin() returns (shown: Option<Message>, report: seq<string>)
      requires Valid()
      modifies this
      ensures Valid() && pending == None
      ensures old(pending).None?
        ==> shown == None && prizes == old(prizes) && disabled == old(disabled) && store == old(store)
      ensures old(pending).Some? ==>
        && prizes == Decremented(old(prizes), old(pending).value.index)
        && store == old(store)[StorageKey := Stored(prizes)]
        && shown == Some(ResultMessage(old(pending).value.chosen))
        && report == StatusReport(prizes)
        && (disabled <==> Available(prizes) == [])
        && TotalStock(prizes) == TotalStock(old(prizes)) - 1
      ensures StockInvariant(old(prizes)) && UniqueNames(old(prizes)) ==> StockInvariant(prizes) && UniqueNames(prizes)
    {
      shown, report := None, [];
      if pending.None? {
        return;
      }
      var plan := pending.value;
      DecrementedLowersTotal(prizes, plan.index);
      if StockInvariant(prizes) && UniqueNames(prizes) {
        DecrementedKeepsInvariants(prizes, plan.index);
      }
      prizes := Decremented(prizes, plan.index);
      report := SavePrizes();
      shown := Some(ResultMessage(plan.chosen));
      disabled := false;
      pending := None;
      if |Available(prizes)| == 0 {
        disabled := true;
      }
    }
  }

  /**
   * A one-unit inventory: the first spin must draw its only record, award it,
   * and leave the button disabled, so the next click is ignored.
   */
  method SingleUnitScenario()
  {
    var x := Prize("X", 1, 1, PrizeKind);
    var w := new Wheel(map[StorageKey := Stored([x])]);
    assert w.prizes == [x];
    assert Available([x]) == [x];
    var started := w.StartSpin(0);
    assert started.Spinning? && started.plan.chosen == x && started.plan.index == 0;
    var shown, _ := w.CompleteSpin();
    assert shown == Some(Message(WinTitle, "¡Has ganado: " + Quoted("X") + "!"));
    assert w.prizes == [x.(currentQuantity := 0)];
    assert w.disabled;
    var again := w.StartSpin(0);
    assert again == Ignored;
  }
}
