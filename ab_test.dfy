/**
 * The A/B split rule of the flow builder's A/B-test dialog
 * (updateVariationPercentage): setting one variant's share of traffic sets
 * its counterpart to the complement.
 */
module ABTest {

  datatype Status = Active | Inactive

  datatype ABVariation = ABVariation(
    id: string,
    title: string,
    status: Status,
    percentage: int,
    subtitle: string)

  /** The counterpart adjusted alongside `variantId`. */
  function OtherVariant(variantId: string): string {
    if variantId == "variant-a" then "variant-b" else "variant-a"
  }

  /** The callback given to `prev.map`. */
  function Adjust(v: ABVariation, variantId: string, newPercentage: int): ABVariation {
    if v.id == variantId then v.(percentage := newPercentage)
    else if v.id == OtherVariant(variantId) then v.(percentage := 100 - newPercentage)
    else v
  }

  /**
   * The new variation list: same length and order; the chosen variation
   * takes `newPercentage`, its counterpart the complement to 100, and every
   * other variation, and every field but the percentage, is unchanged.
   */
  function UpdateVariationPercentage(prev: seq<ABVariation>, variantId: string, newPercentage: int)
    : (r: seq<ABVariation>)
    ensures |r| == |prev|
    ensures forall i :: 0 <= i < |prev| ==> r[i] == prev[i].(percentage := r[i].percentage)
    ensures forall i :: 0 <= i < |prev| && prev[i].id == variantId ==> r[i].percentage == newPercentage
    ensures forall i :: 0 <= i < |prev| && prev[i].id != variantId && prev[i].id == OtherVariant(variantId) ==>
              r[i].percentage == 100 - newPercentage
    ensures forall i :: 0 <= i < |prev| && prev[i].id != variantId && prev[i].id != OtherVariant(variantId) ==>
              r[i] == prev[i]
  {
    if prev == [] then []
    else [Adjust(prev[0], variantId, newPercentage)] + UpdateVariationPercentage(prev[1..], variantId, newPercentage)
  }

  /**
   * Moving the slider of variant A or B to a value in [0, 100] leaves both
   * shares in [0, 100], adding up to 100.
   */
  lemma SplitAddsUpTo100(prev: seq<ABVariation>, variantId: string, newPercentage: int, a: nat, b: nat)
    requires variantId == "variant-a" || variantId == "variant-b"
    requires 0 <= newPercentage <= 100
    requires a < |prev| && b < |prev| && prev[a].id == "variant-a" && prev[b].id == "variant-b"
    ensures var r := UpdateVariationPercentage(prev, variantId, newPercentage);
            0 <= r[a].percentage <= 100 && 0 <= r[b].percentage <= 100 &&
            r[a].percentage + r[b].percentage == 100
  {
  }

  /** Applying the same slider value twice is applying it once. */
  lemma {:induction false} UpdateIdempotent(prev: seq<ABVariation>, variantId: string, newPercentage: int)
    ensures var once := UpdateVariationPercentage(prev, variantId, newPercentage);
            UpdateVariationPercentage(once, variantId, newPercentage) == once
  {
    var once := UpdateVariationPercentage(prev, variantId, newPercentage);
    var twice := UpdateVariationPercentage(once, variantId, newPercentage);
    assert forall i :: 0 <= i < |once| ==> once[i].id == prev[i].id;
    assert forall i :: 0 <= i < |once| ==> twice[i] == once[i];
  }

  /** The dialog's initial pair, 100 / 0, moved to 30 for variant B, becomes 70 / 30. */
  lemma InitialSplitExample()
    ensures var init := [ABVariation("variant-a", "Title 1", Active, 100, "You still have work to do"),
                         ABVariation("variant-b", "Title 2", Inactive, 0, "You still have work to do")];
            var r := UpdateVariationPercentage(init, "variant-b", 30);
            r[0].percentage == 70 && r[1].percentage == 30
  {
  }
}
