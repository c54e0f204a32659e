/** The query of Frontend/src/pages/Dashboard.jsx: the `grade`, `brand` and `sort`
    parameters it builds from the selection (lines 97-111), and the click handlers that
    select or clear a brand or a fuel (lines 187-190 and 233-236). */
module GradeQuery {
  import opened Wrappers
  import opened Js
  import opened Requests
  import Stations
  import Text
  import FuelQuery

  /** The fuel chips, in display order; this page has no Diesel chip. */
  const FuelOptions: seq<string> := ["Regular: 87", "Midgrade: 89", "Premium: 91", "Ethanol: E85"]

  /** The `grade` parameter for the selected fuel: the first test that matches, and
      "default" when none does or nothing is selected. */
  function Grade(selectedFuel: Option<string>): (r: string)
    ensures r in ["default", "regular", "midgrade", "premium", "e85"]
    ensures !Truthy(selectedFuel) ==> r == "default"
  {
    if !Truthy(selectedFuel) then "default"
    else
      var fuel := selectedFuel.value;
      if Text.Contains(fuel, "87") then "regular"
      else if Text.Contains(fuel, "89") then "midgrade"
      else if Text.Contains(fuel, "91") then "premium"
      else if Text.Contains(Text.Lower(fuel), "e85") then "e85"
      else "default"
  }

  /** `new URLSearchParams({grade, brand, sort})`: the brand falls back to "Default",
      the sort mode to "Defaullt" (spelled so in the source). */
  function QueryParams(selectedFuel: Option<string>, selectedBrand: Option<string>, sortMode: Option<string>): (r: Args)
    ensures Stations.KeysOf(r) == ["grade", "brand", "sort"]
  {
    [("grade", Grade(selectedFuel)), ("brand", OrElse(selectedBrand, "Default")), ("sort", OrElse(sortMode, "Defaullt"))]
  }

  /** The click handler `cur === item ? null : item`. */
  function Toggle(cur: Option<string>, item: string): (r: Option<string>)
    ensures r.None? <==> cur == Some(item)
    ensures r.Some? ==> r.value == item
  {
    if cur == Some(item) then None else Some(item)
  }

  /** Two clicks on the same entry: a selection of that entry survives, any other
      selection (or none) ends cleared. */
  lemma ToggleTwice(cur: Option<string>, item: string)
    ensures Toggle(Toggle(cur, item), item) == (if cur == Some(item) then cur else None)
  {
  }

  /** The selection after clicking `clicks` in order, starting from `cur`. */
  function Clicks(cur: Option<string>, clicks: seq<string>): Option<string>
    decreases |clicks|
  {
    if |clicks| == 0 then cur else Clicks(Toggle(cur, clicks[0]), clicks[1..])
  }

  /** After any clicks, nothing or the last entry clicked is selected: never an
      earlier one, never one not clicked. */
  lemma {:induction false} ClicksSelectLastClicked(cur: Option<string>, clicks: seq<string>)
    requires |clicks| > 0
    ensures Clicks(cur, clicks).None? || Clicks(cur, clicks) == Some(clicks[|clicks| - 1])
    decreases |clicks|
  {
    if |clicks| > 1 {
      ClicksSelectLastClicked(Toggle(cur, clicks[0]), clicks[1..]);
    }
  }

  /** Clicking one entry `n` times from no selection leaves it selected exactly when
      `n` is odd. */
  lemma {:induction false} RepeatedClicks(item: string, n: nat)
    ensures Clicks(None, seq(n, _ => item)) == if n % 2 == 1 then Some(item) else None
  {
    if n >= 2 {
      var twice := seq(n - 2, _ => item);
      assert seq(n, _ => item) == [item, item] + twice;
      assert Clicks(None, [item, item] + twice) == Clicks(None, twice) by {
        assert ([item, item] + twice)[1..] == [item] + twice;
        assert ([item] + twice)[1..] == twice;
      }
      RepeatedClicks(item, n - 2);
    } else if n == 1 {
      assert seq(n, _ => item) == [item];
    }
  }

  /** The grade in terms of the other dashboard's `gas_type`. */
  function GradeOfGasType(gasType: string): string {
    match gasType
    case "87" => "regular"
    case "89" => "midgrade"
    case "91" => "premium"
    case "E85" => "e85"
    case _ => "default"
  }

  /** The two dashboards run the same chain of tests, so the grade this page sends is
      the other page's `gas_type` renamed, Diesel falling through to "default". */
  lemma GradeAgreesWithGasType(selectedFuel: Option<string>)
    ensures Grade(selectedFuel) == GradeOfGasType(FuelQuery.GasType(selectedFuel))
  {
  }

  /** What each chip sends as `grade`. */
  lemma GradeOfOptions()
    ensures Grade(None) == "default"
    ensures Grade(Some(FuelOptions[0])) == "regular"
    ensures Grade(Some(FuelOptions[1])) == "midgrade"
    ensures Grade(Some(FuelOptions[2])) == "premium"
    ensures Grade(Some(FuelOptions[3])) == "e85"
    ensures forall i :: 0 <= i < |FuelOptions| ==> FuelOptions[i] == FuelQuery.FuelOptions[i]
  {
    FuelQuery.GasTypeOfOptions();
    GradeAgreesWithGasType(Some(FuelOptions[0]));
    GradeAgreesWithGasType(Some(FuelOptions[1]));
    GradeAgreesWithGasType(Some(FuelOptions[2]));
    GradeAgreesWithGasType(Some(FuelOptions[3]));
  }

  /** Each chip selects its own grade, never the unfiltered "default". */
  lemma GradeDistinguishesOptions(i: nat, j: nat)
    requires i < |FuelOptions| && j < |FuelOptions|
    ensures Grade(Some(FuelOptions[i])) != "default"
    ensures Grade(Some(FuelOptions[i])) == Grade(Some(FuelOptions[j])) <==> i == j
  {
    GradeOfOptions();
  }
}
