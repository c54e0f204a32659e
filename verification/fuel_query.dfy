/** The search form of Frontend/src/pages/dashboard.jsx: the `gas_type` and `brand`
    fields it posts for the selected fuel and brand (lines 135-151), and the price line
    it shows for each station of the answer (lines 443-459). */
module FuelQuery {
  import opened Wrappers
  import opened Stations
  import opened Js
  import Text

  /** The fuel chips, in display order. */
  const FuelOptions: seq<string> := ["Regular: 87", "Midgrade: 89", "Premium: 91", "Ethanol: E85", "Diesel"]

  /** The `gas_type` the search posts for the selected fuel: the first of the tests
      that matches, "all" when none does or nothing is selected. */
  function GasType(selectedFuel: Option<string>): (r: string)
    ensures r in ["all", "87", "89", "91", "E85", "diesel"]
    ensures !Truthy(selectedFuel) ==> r == "all"
  {
    if !Truthy(selectedFuel) then "all"
    else
      var fuel := selectedFuel.value;
      if Text.Contains(fuel, "87") then "87"
      else if Text.Contains(fuel, "89") then "89"
      else if Text.Contains(fuel, "91") then "91"
      else if Text.Contains(Text.Lower(fuel), "e85") then "E85"
      else if Text.Contains(Text.Lower(fuel), "diesel") then "diesel"
      else "all"
  }

  /** The fields of the search request that the selection decides; the location and
      radius fields are not part of this model. */
  datatype Search = Search(gasType: string, brand: string, sortBy: string)

  function SearchFor(selectedFuel: Option<string>, selectedBrand: Option<string>, sortMode: string): (r: Search)
    ensures !Truthy(selectedBrand) ==> r.brand == "all"
    ensures Truthy(selectedBrand) ==> r.brand == selectedBrand.value
    ensures !Truthy(selectedFuel) ==> r.gasType == "all"
  {
    Search(GasType(selectedFuel), OrElse(selectedBrand, "all"), sortMode)
  }

  /** The key the price line reads and the label it prints: the text after ": " for a
      chip with a colon ("undefined" when no ": " follows it), 'diesel' for the Diesel
      chip, and '87' otherwise. */
  function PriceKey(selectedFuel: Option<string>): (r: (string, string))
    ensures !Truthy(selectedFuel) ==> r == ("87", "87")
  {
    if !Truthy(selectedFuel) then ("87", "87")
    else
      var fuel := selectedFuel.value;
      if Text.Contains(fuel, ":") then
        var key := match Text.SplitSecond(fuel, ": ")
                   case None => "undefined"
                   case Some(piece) => piece;
        (key, key)
      else if Text.Lower(fuel) == "diesel" then ("diesel", "Diesel")
      else ("87", "87")
  }

  /** A price JavaScript treats as truthy: present, not null and not zero. */
  predicate PriceTruthy(v: Option<Option<Price>>) {
    v.Some? && v.value.Some? && v.value.value != 0
  }

  /** The price line of one station: "Prices not available", "<label>: $<price>", or
      the fallback "87: $<price>" whose price is absent ("N/A") when the station has no
      non-null '87' price. */
  datatype PriceLine = NotAvailable | Shown(caption: string, price: Price) | Fallback(regular: Option<Price>)

  function PriceLineFor(selectedFuel: Option<string>, prices: Prices): (r: PriceLine)
    ensures r.NotAvailable? <==> |prices| == 0
    ensures |prices| > 0 ==> (r.Shown? <==> PriceTruthy(Lookup(prices, PriceKey(selectedFuel).0)))
    ensures r.Shown? ==> Lookup(prices, PriceKey(selectedFuel).0) == Some(Some(r.price)) && r.price != 0
    ensures r.Shown? ==> r.caption == PriceKey(selectedFuel).1
    ensures r.Fallback? ==> r.regular == (if Lookup(prices, "87").Some? then Lookup(prices, "87").value else None)
  {
    if |prices| == 0 then NotAvailable
    else
      var (key, caption) := PriceKey(selectedFuel);
      var v := Lookup(prices, key);
      if PriceTruthy(v) then Shown(caption, v.value.value)
      else
        var regular := Lookup(prices, "87");
        Fallback(if regular.Some? then regular.value else None)
  }

  /** The tests are tried in order and the first that matches decides; a label that
      matches none posts "all", like no selection. */
  lemma GasTypeFirstMatch(fuel: string)
    requires fuel != ""
    ensures GasType(Some(fuel)) == "87" <==> Text.Contains(fuel, "87")
    ensures GasType(Some(fuel)) == "89" <==> !Text.Contains(fuel, "87") && Text.Contains(fuel, "89")
    ensures GasType(Some(fuel)) == "91"
        <==> !Text.Contains(fuel, "87") && !Text.Contains(fuel, "89") && Text.Contains(fuel, "91")
    ensures GasType(Some(fuel)) == "E85"
        <==> !Text.Contains(fuel, "87") && !Text.Contains(fuel, "89") && !Text.Contains(fuel, "91")
             && Text.Contains(Text.Lower(fuel), "e85")
    ensures GasType(Some(fuel)) == "all"
        <==> !Text.Contains(fuel, "87") && !Text.Contains(fuel, "89") && !Text.Contains(fuel, "91")
             && !Text.Contains(Text.Lower(fuel), "e85") && !Text.Contains(Text.Lower(fuel), "diesel")
  {
  }

  lemma ContainsAt(s: string, sub: string, i: nat)
    requires Text.OccursAt(s, sub, i)
    ensures Text.Contains(s, sub)
  {
  }

  lemma GasTypeRegular()
    ensures GasType(Some("Regular: 87")) == "87"
  {
    assert "Regular: 87"[9..11] == "87";
    ContainsAt("Regular: 87", "87", 9);
  }

  lemma GasTypeMidgrade()
    ensures GasType(Some("Midgrade: 89")) == "89"
  {
    Text.ContainsOnlyItsChars("Midgrade: 89", "87", '7');
    assert "Midgrade: 89"[10..12] == "89";
    ContainsAt("Midgrade: 89", "89", 10);
  }

  lemma GasTypePremium()
    ensures GasType(Some("Premium: 91")) == "91"
  {
    Text.ContainsOnlyItsChars("Premium: 91", "87", '7');
    Text.ContainsOnlyItsChars("Premium: 91", "89", '8');
    assert "Premium: 91"[9..11] == "91";
    ContainsAt("Premium: 91", "91", 9);
  }

  lemma GasTypeEthanol()
    ensures GasType(Some("Ethanol: E85")) == "E85"
  {
    var fuel := "Ethanol: E85";
    Text.ContainsOnlyItsChars(fuel, "87", '7');
    Text.ContainsOnlyItsChars(fuel, "89", '9');
    Text.ContainsOnlyItsChars(fuel, "91", '9');
    assert Text.Lower(fuel)[9..12] == "e85";
    ContainsAt(Text.Lower(fuel), "e85", 9);
  }

  lemma GasTypeDiesel()
    ensures GasType(Some("Diesel")) == "diesel"
  {
    var fuel := "Diesel";
    Text.ContainsOnlyItsChars(fuel, "87", '8');
    Text.ContainsOnlyItsChars(fuel, "89", '8');
    Text.ContainsOnlyItsChars(fuel, "91", '9');
    assert Text.Lower(fuel) == "diesel";
    Text.ContainsOnlyItsChars(Text.Lower(fuel), "e85", '8');
    ContainsAt(Text.Lower(fuel), "diesel", 0);
  }

  /** What each chip posts as `gas_type`, and "all" with no chip. */
  lemma GasTypeOfOptions()
    ensures GasType(None) == "all"
    ensures GasType(Some(FuelOptions[0])) == "87"
    ensures GasType(Some(FuelOptions[1])) == "89"
    ensures GasType(Some(FuelOptions[2])) == "91"
    ensures GasType(Some(FuelOptions[3])) == "E85"
    ensures GasType(Some(FuelOptions[4])) == "diesel"
  {
    GasTypeRegular();
    GasTypeMidgrade();
    GasTypePremium();
    GasTypeEthanol();
    GasTypeDiesel();
  }

  /** Distinct chips post distinct grades, and none posts "all". */
  lemma GasTypeDistinguishesOptions(i: nat, j: nat)
    requires i < |FuelOptions| && j < |FuelOptions|
    ensures GasType(Some(FuelOptions[i])) != "all"
    ensures GasType(Some(FuelOptions[i])) == GasType(Some(FuelOptions[j])) <==> i == j
  {
    GasTypeOfOptions();
  }

  /** For every chip the price line reads the very key the search posted as
      `gas_type`, and labels it that way, except Diesel, labelled "Diesel". */
  lemma PriceKeyMatchesGasType(i: nat)
    requires i < |FuelOptions|
    ensures PriceKey(Some(FuelOptions[i])).0 == GasType(Some(FuelOptions[i]))
    ensures PriceKey(Some(FuelOptions[i])).1 == (if i == 4 then "Diesel" else GasType(Some(FuelOptions[i])))
  {
    GasTypeOfOptions();
    var o := FuelOptions[i];
    if i < 4 {
      var at := if i == 1 then 8 else 7;
      assert Text.OccursAt(o, ": ", at);
      assert o[at] == ':';
      ContainsAt(o, ":", at);
      Text.SplitSecondOnce(o, ": ", at);
    } else {
      Text.ContainsOnlyItsChars(o, ":", ':');
      assert Text.Lower(o) == "diesel";
    }
  }

  /** With no chip selected the line shows the '87' price. */
  lemma NoSelectionShowsRegular(prices: Prices, p: Price)
    requires Lookup(prices, "87") == Some(Some(p)) && p != 0
    ensures PriceLineFor(None, prices) == Shown("87", p)
  {
  }

  /** A chip whose price the station has (non-zero) is shown under the chip's label. */
  lemma SelectedPriceShown(i: nat, prices: Prices, p: Price)
    requires i < |FuelOptions|
    requires Lookup(prices, GasType(Some(FuelOptions[i]))) == Some(Some(p)) && p != 0
    ensures PriceLineFor(Some(FuelOptions[i]), prices)
         == Shown(if i == 4 then "Diesel" else GasType(Some(FuelOptions[i])), p)
  {
    PriceKeyMatchesGasType(i);
  }

  /** A zero price counts as missing: the line falls back to the '87' price, which is
      shown even when it is zero itself. */
  lemma ZeroPriceFallsBack(selectedFuel: Option<string>, prices: Prices, regular: Price)
    requires Lookup(prices, PriceKey(selectedFuel).0) == Some(Some(0))
    requires Lookup(prices, "87") == Some(Some(regular))
    ensures PriceLineFor(selectedFuel, prices) == Fallback(Some(regular))
  {
  }
}
