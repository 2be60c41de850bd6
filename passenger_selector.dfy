/**
 * The passenger and cabin picker
 * (`src/components/PassengerSelector/PassengerSelector.tsx`): the value
 * changes it reports to the form and its open/closed dropdown.
 */
module PassengerSelector {
  import opened FlightTypes

  /** `handleCountChange`: a count below one is ignored, any other is reported with the cabin kept. */
  function CountChange(value: PassengerValue, newCount: int): (change: Option<PassengerValue>)
    ensures change.Some? <==> newCount >= 1
    ensures change.Some? ==> change.value.count == newCount && change.value.cabin == value.cabin
  {
    if newCount >= 1 then Some(value.(count := newCount)) else None
  }

  /** The plus button: reports one more passenger whenever the count is not negative. */
  function Increase(value: PassengerValue): (change: Option<PassengerValue>)
    ensures change.Some? <==> value.count >= 0
    ensures change.Some? ==> change.value == PassengerValue(value.count + 1, value.cabin)
  {
    CountChange(value, value.count + 1)
  }

  /** The minus button: reports one passenger fewer only from two passengers up. */
  function Decrease(value: PassengerValue): (change: Option<PassengerValue>)
    ensures change.Some? <==> value.count >= 2
    ensures change.Some? ==> change.value == PassengerValue(value.count - 1, value.cabin)
  {
    CountChange(value, value.count - 1)
  }

  /** `handleCabinChange`: the cabin changes, the count stays. */
  function CabinChange(value: PassengerValue, cabin: CabinType): (change: PassengerValue)
    ensures change.cabin == cabin && change.count == value.count
  {
    value.(cabin := cabin)
  }

  /** The decrease button is disabled at one passenger or fewer. */
  function IsDecreaseDisabled(value: PassengerValue): (disabled: bool)
    ensures disabled <==> Decrease(value).None?
  {
    value.count <= 1
  }

  /** Increase has no upper bound: from any valid count it reports one more, same cabin. */
  lemma IncreaseAlwaysReports(value: PassengerValue)
    requires value.count >= 1
    ensures Increase(value) == Some(PassengerValue(value.count + 1, value.cabin))
  {
  }

  /** Decreasing after increasing gives back the original value. */
  lemma IncreaseThenDecrease(value: PassengerValue)
    requires value.count >= 1
    ensures Increase(value).Some? && Decrease(Increase(value).value) == Some(value)
  {
  }

  /** A reported value never has fewer than one passenger. */
  lemma ReportedCountsArePositive(value: PassengerValue, newCount: int, cabin: CabinType)
    requires value.count >= 1
    ensures CountChange(value, newCount).Some? ==> CountChange(value, newCount).value.count >= 1
    ensures Increase(value).Some? && Increase(value).value.count >= 1
    ensures Decrease(value).Some? ==> Decrease(value).value.count >= 1
    ensures CabinChange(value, cabin).count >= 1
  {
  }

  /** The dropdown's open state. */
  class Dropdown {
    var isOpen: bool

    constructor()
      ensures !isOpen
    {
      isOpen := false;
    }

    /** A click on the trigger opens a closed dropdown and closes an open one. */
    method HandleTriggerClick()
      modifies this
      ensures isOpen == !old(isOpen)
    {
      isOpen := !isOpen;
    }

    /** Enter and space act like a click; other keys do nothing. */
    method HandleTriggerKeyDown(key: string)
      modifies this
      ensures isOpen == if key == "Enter" || key == " " then !old(isOpen) else old(isOpen)
    {
      if key == "Enter" || key == " " {
        isOpen := !isOpen;
      }
    }

    /** A mouse press outside the picker closes it; one inside leaves it as it is. */
    method HandleMouseDown(insidePicker: bool)
      modifies this
      ensures isOpen == if insidePicker then old(isOpen) else false
    {
      if !insidePicker {
        isOpen := false;
      }
    }
  }
}
