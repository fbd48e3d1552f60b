/** The optimise form of src/components/otw/RouteOptimizationForm.tsx: vehicle
    radio group, the zero-selection warning and the optimise button. */
module RouteForm {
  import opened Common
  import opened Text

  const LoadingLabel: string := "Optimizing..."

  /** The button is disabled while a request runs or when nothing is selected. */
  predicate OptimizeDisabled(isLoading: bool, selectedOrderCount: nat) {
    isLoading || selectedOrderCount == 0
  }

  predicate ShowSelectionWarning(selectedOrderCount: nat) {
    selectedOrderCount == 0
  }

  function OrderNoun(selectedOrderCount: nat): string {
    if selectedOrderCount == 1 then "order" else "orders"
  }

  function ButtonLabel(isLoading: bool, selectedOrderCount: nat): string {
    if isLoading then LoadingLabel
    else "Optimize Route (" + NatToString(selectedOrderCount) + " " + OrderNoun(selectedOrderCount) + ")"
  }

  /** The value of each radio item. */
  function RadioValue(v: VehicleType): string {
    match v
    case Car => "car"
    case Bike => "bike"
  }

  /** `onValueChange`: the radio value, cast to a vehicle type. */
  function OnVehicleRadioChange(value: string): VehicleType
    requires value == "car" || value == "bike"
  {
    if value == "car" then Car else Bike
  }

  /** Choosing an item forwards that item's vehicle type unchanged. */
  lemma RadioForwardsVehicle(v: VehicleType)
    ensures OnVehicleRadioChange(RadioValue(v)) == v
  {
    if v == Bike {
      assert RadioValue(v) != "car";
    }
  }

  datatype FormView = FormView(vehicleType: VehicleType, warning: bool, disabled: bool, buttonLabel: string)

  function RenderForm(vehicleType: VehicleType, isLoading: bool, selectedOrderCount: nat): FormView {
    FormView(vehicleType, ShowSelectionWarning(selectedOrderCount),
      OptimizeDisabled(isLoading, selectedOrderCount), ButtonLabel(isLoading, selectedOrderCount))
  }

  /** Disabled iff loading or nothing selected; the warning iff nothing selected;
      while loading the label is fixed; otherwise it states the count, which reads
      back from its digits, and says "order" exactly for one. */
  lemma RenderFormSpec(vehicleType: VehicleType, isLoading: bool, n: nat)
    ensures var v := RenderForm(vehicleType, isLoading, n);
      && v.vehicleType == vehicleType
      && (v.disabled <==> isLoading || n == 0)
      && (v.warning <==> n == 0)
      && (isLoading ==> v.buttonLabel == LoadingLabel)
      && (!isLoading ==>
            exists digits, noun ::
              && v.buttonLabel == "Optimize Route (" + digits + " " + noun + ")"
              && AllDigits(digits) && ParseDigits(digits) == n
              && (noun == "order" <==> n == 1)
              && (noun == "orders" <==> n != 1))
  {
    if !isLoading {
      ParseNatToString(n);
      var noun := OrderNoun(n);
      assert n != 1 ==> noun != "order" by {
        if n != 1 { assert |noun| == 6; }
      }
      assert RenderForm(vehicleType, isLoading, n).buttonLabel == "Optimize Route (" + NatToString(n) + " " + noun + ")";
    }
  }
}
