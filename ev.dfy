/** The EV-charger card (components/ev.tsx): the status styles, the six chargers and the
    clamped carousel index. */
module EVChargers {
  datatype StatusStyle = StatusStyle(color: string, caption: string)

  /** `statusStyles`, keyed by the status text. */
  const StatusStyles: map<string, StatusStyle> := map[
    "Active" := StatusStyle("#22C55E", "Active"),
    "Idle" := StatusStyle("#FACC15", "Idle"),
    "Offline" := StatusStyle("#9CA3AF", "Offline")]

  datatype Charger = Charger(location: string, status: string)

  const Chargers: seq<Charger> := [
    Charger("Basement Level - 1", "Active"),
    Charger("Basement Level - 2", "Idle"),
    Charger("Parking Lot A", "Offline"),
    Charger("Parking Lot B", "Active"),
    Charger("Entrance Left", "Idle"),
    Charger("Entrance Right", "Offline")]

  /** `statusStyles[charger.status]` is defined for every charger, and each style's label (`caption`)
      is its own key. */
  lemma {:induction false} EveryStatusStyled()
    ensures forall i :: 0 <= i < |Chargers| ==> Chargers[i].status in StatusStyles
    ensures forall k :: k in StatusStyles ==> StatusStyles[k].caption == k
  {
  }

  /** `Math.max(prev - 1, 0)`. */
  function Back(i: int): (j: int)
    ensures j >= 0
    ensures i > 0 ==> j == i - 1
    ensures i <= 0 ==> j == 0
  {
    if i - 1 > 0 then i - 1 else 0
  }

  /** `Math.min(prev + 1, chargers.length - 1)`. */
  function Forward(i: int): (j: int)
    ensures j <= |Chargers| - 1
    ensures i < |Chargers| - 1 ==> j == i + 1
    ensures i >= |Chargers| - 1 ==> j == |Chargers| - 1
  {
    if i + 1 < |Chargers| - 1 then i + 1 else |Chargers| - 1
  }

  /** The clamps keep an in-range index in range, move it by one step or not at all, and
      away from the ends undo each other. */
  lemma {:induction false} BackForward(i: int)
    requires 0 <= i < |Chargers|
    ensures 0 <= Back(i) < |Chargers| && 0 <= Forward(i) < |Chargers|
    ensures (Back(i) == i) == (i == 0) && (Forward(i) == i) == (i == |Chargers| - 1)
    ensures i > 0 ==> Forward(Back(i)) == i
    ensures i < |Chargers| - 1 ==> Back(Forward(i)) == i
  {
  }

  class ChargerCarousel {
    var index: int

    predicate Valid()
      reads this
    {
      0 <= index < |Chargers|
    }

    constructor ()
      ensures index == 0 && Valid()
    {
      index := 0;
    }

    /** `statusStyles[chargers[index].status]`. */
    function CurrentStyle(): (c: StatusStyle)
      reads this
      requires Valid()
      ensures c.caption == Chargers[index].status
    {
      EveryStatusStyled();
      StatusStyles[Chargers[index].status]
    }

    /** `disabled={index === 0}` and `disabled={index === chargers.length - 1}`. */
    predicate BackDisabled()
      reads this
    {
      index == 0
    }

    predicate ForwardDisabled()
      reads this
    {
      index == |Chargers| - 1
    }

    method GoBack()
      modifies this
      requires Valid()
      ensures Valid() && index == Back(old(index))
      ensures (index == old(index)) == old(BackDisabled())
    {
      BackForward(index);
      index := Back(index);
    }

    method GoForward()
      modifies this
      requires Valid()
      ensures Valid() && index == Forward(old(index))
      ensures (index == old(index)) == old(ForwardDisabled())
    {
      BackForward(index);
      index := Forward(index);
    }
  }
}
