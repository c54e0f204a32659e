# Gas station query pipeline

A Dafny model of the station query pipeline of a "find nearby gas stations" web app.
It covers the following pieces:

- **The two Flask services.** `Backend/app.py` and the root `app.py` each answer
  `GET /` with `requestForData`. Each runs a fixed pipeline over the station dictionary
  it loads: a grade filter (`sortByGrade`), then a brand filter (`sortByBrand`), then a
  sort stage (`sortByCheapest`, `sortByShortest`). A parameter equal to `"default"`
  skips its stage.
- **The query builders of the two React dashboards.**
  - `Frontend/src/pages/dashboard.jsx` turns the selected fuel chip into the
    `gas_type` it searches for and the price it displays.
  - `Frontend/src/pages/Dashboard.jsx` turns the selection into the `grade`, `brand`
    and `sort` parameters, and toggles a selection on click.

The station dictionary is an ordered list of (id, record) pairs, as Python's
insertion-ordered `dict` iterates. A record's `prices` object is an ordered list of
(grade, price-or-null) pairs with unique keys. Prices are exact counts of thousandths of a dollar. A Python
exception is a `Failure` carrying `KeyError`, `TypeError` or `AttributeError`.

The modules:

| module | file | models |
|---|---|---|
| `Stations` | stations.dfy | station records, `d[k]`, `del d[k]`, the lowest non-null price of a price object |
| `Requests` | requests.dfy | `request.args.get(name, fallback)` |
| `GradeFilter` | grade_filter.dfy | `sortByGrade`, identical in both services |
| `Stages` | stages.dfy | the grade and brand stages of `requestForData`, shared by both services |
| `BackendApp` | backend_app.dfy | `Backend/app.py` |
| `RootApp` | root_app.dfy | `app.py` |
| `FuelQuery` | fuel_query.dfy | `Frontend/src/pages/dashboard.jsx` |
| `GradeQuery` | grade_query.dfy | `Frontend/src/pages/Dashboard.jsx` |
| `CrossFile` | cross_file.dfy | the Dashboard.jsx query as the Backend service reads it |
| `Text`, `Seqs`, `Js`, `Wrappers` | text.dfy, seqs.dfy, js.dfy, wrappers.dfy | string search and lower-casing, stable filter and map, JavaScript `||` and truthiness, `Option` and `Result` |

## What the sort stages do

Neither service orders the stations:

- In the Backend, both sort paths return `None`, so building the response raises.
- In the root service, "cheapest" returns a single station record.
- The root service's "cheapest" raises `TypeError` on a null price.
- The root service seeds its running minimum at 100 dollars, so a station priced at 100 dollars or more can never win (`RootApp.SortByCheapestSelects`).

## Model

| member | source | states |
|---|---|---|
| Stations.GetPrice | Backend/app.py:34 | `prices[grade]` gives the stored price or null, and raises KeyError naming the grade exactly when the key is absent |
| Stations.Del | Backend/app.py:37 | `del prices[k]` succeeds iff `k` is present; the keys left are exactly the old keys other than `k`, each with its value unchanged; otherwise KeyError naming `k` |
| Stations.DelAll | Backend/app.py:37-40 | a run of `del` statements succeeds iff every key is present and none is listed twice; it then removes exactly those keys, and otherwise raises KeyError on one of them |
| Stations.LowestPrice | Backend/app.py:83-88 | the inner loop's minimum is absent iff every price is null; otherwise it is one of the station's prices and no greater than any non-null price |
| Stations.LookupAtFirst | Backend/app.py:10-12 | a lookup by key, as Flask's `args.get` does for a repeated name, gives the value of the first entry with that key |
| Requests.ArgOr | Backend/app.py:10-12 | an absent parameter reads as the fallback; a present one reads as the value of its first occurrence in the query |
| GradeFilter.OtherGrades | Backend/app.py:35-60 | for each of the five grades, the `match` deletes four distinct keys, exactly the other grades; for an unnamed grade it deletes nothing |
| GradeFilter.Reduced | Backend/app.py:35-60 | a kept station keeps its brand and other fields; its price keys are its old keys minus the deleted grades, and the chosen grade's price is unchanged |
| GradeFilter.KeepStation | Backend/app.py:34-62 | one loop iteration succeeds iff the station has the grade key and, when that price is non-null, all the keys to delete; it keeps the station iff the price is non-null, reduced to the other grades removed |
| GradeFilter.SortByGrade | Backend/app.py:31-64 | succeeds iff every station survives its iteration, and fails only with KeyError; on success it is the stable filter "grade price non-null" followed by the reduction of each kept station |
| GradeFilter.SortByGradeSelects | Backend/app.py:33-62 | a station is kept iff it was in the input with a non-null price for the grade; kept stations keep their ids and input order |
| GradeFilter.MissingGradeFails | Backend/app.py:34 | one station without the grade key makes the whole filter raise KeyError |
| GradeFilter.ReducedSingleKey | Backend/app.py:35-60 | a kept well-formed station's price object has the grade as its one unique key, with its price unchanged; brand and other fields are untouched |
| GradeFilter.ReducedPricesAreGradePrice | app.py:35-60 | every price left in a kept well-formed station is the chosen grade's price |
| GradeFilter.SortByGradeNotReapplicable | Backend/app.py:35-60 | running the filter again on its own non-empty output raises, because the keys to delete are gone |
| GradeFilter.UnnamedGradeOnlyFilters | Backend/app.py:34-62 | a grade the `match` does not name only filters and alters no station |
| Stages.GradeStageFilters | Backend/app.py:18-19 | the grade stage succeeds iff it is skipped or every station survives `sortByGrade`; it is then a stable filter plus a per-station reshaping |
| Stages.BrandStageFilters | Backend/app.py:20-21 | the brand stage is a stable filter by brand, or the identity when skipped |
| Stages.StagesAreConjunctiveFilter | Backend/app.py:18-21 | grade stage then brand stage equals one stable filter by grade AND brand over the input, then the grade reshaping |
| Stages.GradeStage | Backend/app.py:18-19 | skipped (the input unchanged) on "default"; otherwise succeeds iff every station survives `sortByGrade`, fails only with KeyError, and never adds stations |
| Stages.BrandStage | Backend/app.py:20-21 | the input unchanged when skipped; otherwise some of the entries, unaltered and in input order, each with the target brand |
| BackendApp.ReadParams | Backend/app.py:10-12 | each parameter reads as the lower-cased value of its first occurrence in the query, or "default" when absent; all three come out lower-case |
| BackendApp.ReadArg | Backend/app.py:10-12 | one parameter reads as the lower-cased value of its first occurrence in the query, or "default" when absent, and is always lower-case |
| BackendApp.SortByBrandSelects | Backend/app.py:66-72 | keeps exactly the stations whose lower-cased brand equals the argument, unaltered and in input order; applying it twice equals applying it once |
| BackendApp.SortByBrandUpperCaseArgument | Backend/app.py:69 | called with an argument holding an upper-case letter, the filter keeps nothing |
| BackendApp.SortByBrand | Backend/app.py:66-72 | the result is entries of the input, unaltered and in order, each with lower-cased brand equal to the argument (`SortByBrandSelects` gives the converse) |
| BackendApp.SortByShortest | Backend/app.py:74-76 | the stub returns None |
| BackendApp.SortByCheapest | Backend/app.py:78-92 | without a return statement the function returns None (`Cheapest` states what its loop finds) |
| BackendApp.Cheapest | Backend/app.py:78-92 | no winner iff every station's prices are all null; the winner holds the lowest price of all, every earlier station is strictly dearer, so ties go to the earliest |
| BackendApp.Respond | Backend/app.py:18-29 | the response succeeds iff the grade stage does and the sort type is neither "shortest" nor "cheapest"; failures are KeyError or AttributeError; it never lists more stations than were loaded |
| BackendApp.RequestForData | Backend/app.py:10-29 | failures are KeyError or AttributeError; a query naming none of the three parameters answers every station as loaded |
| BackendApp.RespondIsConjunctiveFilter | Backend/app.py:18-29 | with any sort type but the two implemented ones, the response succeeds iff the grade stage does (else KeyError), and lists the stations passing grade AND brand in input order |
| BackendApp.SortPathsFail | Backend/app.py:22-29 | "shortest" and "cheapest" both make the response raise, since both return None |
| BackendApp.UnknownSortPassesThrough | Backend/app.py:22-27 | an unrecognised sort type answers as "default" does |
| BackendApp.ReadQuery | Backend/app.py:10-12 | the three parameters of a query naming each once are read lower-cased |
| BackendApp.RequestIsCaseInsensitive | Backend/app.py:10-21 | any spelling of grade, brand and sort type answers as its lower-case spelling |
| BackendApp.NoParametersReturnsEverything | Backend/app.py:10-29 | a request without parameters answers with every station, as loaded |
| RootApp.ReadParamsVerbatim | app.py:10-12 | the parameters are used exactly as given, "default" when absent |
| RootApp.ReadParams | app.py:10-12 | an absent parameter reads as "default"; a present one reads as the value of its first occurrence in the query, not lower-cased |
| RootApp.SortByBrandSelects | app.py:66-72 | keeps exactly the stations whose brand equals the argument up to case, unaltered and in input order; idempotent |
| RootApp.SortByBrandCaseInsensitive | app.py:69 | two spellings of a brand that differ in case select the same stations |
| RootApp.SortByBrand | app.py:66-72 | the result is entries of the input, unaltered and in order, each with a brand equal to the argument up to case |
| RootApp.ScanPrices | app.py:83-86 | the inner loop raises TypeError iff a price is null; else the running minimum moves to the station's lowest price, with the station, exactly when that price is strictly lower |
| RootApp.CheapestFrom | app.py:82-86 | the outer loop raises, with TypeError, iff some price of some station is null |
| RootApp.CheapestFromSelects | app.py:82-88 | from a running minimum, the loop keeps its station when no price is lower, and otherwise picks the first station holding the lowest price |
| RootApp.SortByCheapestSelects | app.py:78-88 | `sortByCheapest` raises TypeError iff a price is null; it answers `{}` when no price is below 100 dollars, and otherwise the first station holding the lowest price |
| RootApp.SortByShortest | app.py:74-76 | the stub returns None, which the response turns into `null` |
| RootApp.SortByCheapest | app.py:78-88 | raises TypeError iff some price is null; a returned station is one of the input's, with a price below 100 dollars |
| RootApp.SortStage | app.py:22-29 | only "cheapest" can fail, with TypeError; a record answered is an input station; a dictionary answered is the input or `{}`; `null` only for "shortest" |
| RootApp.Respond | app.py:18-29 | failures are KeyError or TypeError, and an answered dictionary never has more stations than were loaded |
| RootApp.RequestForData | app.py:10-29 | failures are KeyError or TypeError; a query naming none of the three parameters answers the loaded dictionary itself |
| RootApp.RespondCheapest | app.py:26-27 | "cheapest" raises TypeError iff a station left by the grade and brand stages has a null price; otherwise it answers `{}` when no price is below 100 dollars, and else the record of the first station holding the lowest price |
| RootApp.BrandStageIsSortByBrand | app.py:20-21 | the brand stage is `sortByBrand` with the brand as given |
| RootApp.RespondIsConjunctiveFilter | app.py:18-29 | with any sort type but the two implemented ones, the response is the keyed dictionary of the stations passing grade AND brand, in input order; it fails only with KeyError, iff the grade stage raises |
| RootApp.ShortestAnswersNull | app.py:24-25 | "shortest" answers `null` once the grade stage passes |
| RootApp.GradeIsCaseSensitive | app.py:34 | on a non-empty store whose first station is well-formed, a grade holding an upper-case letter is no key of that station, so the request raises KeyError |
| RootApp.RequestGradeIsCaseSensitive | app.py:10-19 | on such a store, a query whose grade is not lower-case raises KeyError, unlike the Backend, which lower-cases it |
| RootApp.CheapestAfterGradeFilter | app.py:83-86 | after a grade filter over well-formed stations no price is null, so `sortByCheapest` cannot raise, and each station's lowest price is its grade price |
| RootApp.ReducedStationPriced | app.py:35-60 | a kept well-formed station has only non-null prices, and its lowest price is its grade price |
| Text.LowerIsLower | Backend/app.py:10-12 | lower-casing yields a lower-case string, leaves one unchanged, and is idempotent |
| Text.IndexOf | Frontend/src/pages/dashboard.jsx:452 | the first index at which the separator occurs, absent iff it occurs nowhere |
| Text.SplitSecond | Frontend/src/pages/dashboard.jsx:452 | `split(': ')[1]` is undefined iff the separator does not occur |
| Text.SplitSecondOnce | Frontend/src/pages/dashboard.jsx:452 | when the separator's first character (':' for ": ") appears in the string only at the start of one occurrence of the separator, the second piece is everything after that occurrence |
| FuelQuery.GasType | Frontend/src/pages/dashboard.jsx:135-142 | the posted `gas_type` is one of "all", "87", "89", "91", "E85", "diesel", and is "all" with no selection |
| FuelQuery.GasTypeFirstMatch | Frontend/src/pages/dashboard.jsx:136-141 | each outcome holds iff its test matches and every earlier test fails; a label matching none posts "all" |
| FuelQuery.GasTypeOfOptions | Frontend/src/pages/dashboard.jsx:135-142 | the five chips post "87", "89", "91", "E85", "diesel", and no chip posts "all" |
| FuelQuery.GasTypeDistinguishesOptions | Frontend/src/pages/dashboard.jsx:94 | distinct chips post distinct grades, none of them "all" |
| FuelQuery.SearchFor | Frontend/src/pages/dashboard.jsx:144-151 | an unselected brand is sent as "all" and a selected one verbatim |
| FuelQuery.PriceKey | Frontend/src/pages/dashboard.jsx:447-458 | with no chip selected the line reads and labels key '87' |
| FuelQuery.PriceKeyMatchesGasType | Frontend/src/pages/dashboard.jsx:447-458 | for every chip the displayed price key equals the `gas_type` posted; the label is the key, except "Diesel" |
| FuelQuery.PriceLineFor | Frontend/src/pages/dashboard.jsx:443-459 | "Prices not available" iff the price object is empty; otherwise the selected price is shown, under the selected label, iff it is truthy (present, non-null, non-zero); else the line falls back to the stored '87' price, or "N/A" when that is absent or null |
| FuelQuery.NoSelectionShowsRegular | Frontend/src/pages/dashboard.jsx:447-459 | with no chip selected a non-zero '87' price is shown as "87" |
| FuelQuery.SelectedPriceShown | Frontend/src/pages/dashboard.jsx:450-459 | a chip whose grade the station prices at non-zero is shown under the chip's label |
| FuelQuery.ZeroPriceFallsBack | Frontend/src/pages/dashboard.jsx:459 | a zero price counts as missing: the line shows the '87' price instead, even a zero one |
| GradeQuery.Grade | Frontend/src/pages/Dashboard.jsx:98-105 | the sent grade is "default" or one of "regular", "midgrade", "premium", "e85", and is "default" with no selection |
| GradeQuery.QueryParams | Frontend/src/pages/Dashboard.jsx:107-111 | the query names `grade`, `brand` and `sort`, in that order |
| GradeQuery.Toggle | Frontend/src/pages/Dashboard.jsx:189 | a click clears the selection iff the clicked entry was selected, and otherwise selects exactly that entry |
| GradeQuery.ToggleTwice | Frontend/src/pages/Dashboard.jsx:235 | two clicks on one entry keep it selected if it was, and otherwise end with nothing selected |
| GradeQuery.ClicksSelectLastClicked | Frontend/src/pages/Dashboard.jsx:187-190 | after any sequence of clicks the selection is null or the last entry clicked, never an earlier or unclicked one |
| GradeQuery.RepeatedClicks | Frontend/src/pages/Dashboard.jsx:233-236 | clicking one entry n times from no selection leaves it selected iff n is odd, so twice returns to null |
| GradeQuery.GradeAgreesWithGasType | Frontend/src/pages/Dashboard.jsx:99-105 | for every selection, the grade equals the other dashboard's `gas_type` renamed, Diesel becoming "default" |
| GradeQuery.GradeOfOptions | Frontend/src/pages/Dashboard.jsx:86-91 | the four chips send "regular", "midgrade", "premium", "e85" |
| GradeQuery.GradeDistinguishesOptions | Frontend/src/pages/Dashboard.jsx:101-104 | distinct chips send distinct grades, none of them "default" |
| CrossFile.DashboardGradesAreKnown | Frontend/src/pages/Dashboard.jsx:101-104 | every grade the page sends is "default" or a grade the Backend's `match` names, and is already lower-case |
| CrossFile.ReadDashboardQuery | Frontend/src/pages/Dashboard.jsx:107-111 | the Backend reads the page's grade unchanged, its brand lower-cased, and always "default" for the sort type; no selected brand switches the brand stage off |
| CrossFile.DashboardRequestIsFilter | Frontend/src/pages/Dashboard.jsx:97-111 | end to end, the answer to the page's query is the stations of the selected grade and brand (up to case), in file order; it fails only with KeyError |
| CrossFile.DashboardSortIsIgnored | Frontend/src/pages/Dashboard.jsx:110 | the sort toggles do not change the answer |
| CrossFile.NoSelectionReturnsEverything | Frontend/src/pages/Dashboard.jsx:109-110 | with nothing selected the answer is every station |

## Left out

- Reading and parsing `stations.json`, Flask routing, CORS and `jsonify` are left out. The loaded dictionary is an input. The response is the list of values (Backend), or a dictionary, one record or `null` (root).
- Float prices are exact counts of thousandths of a dollar, the precision the station data is generated with (three decimals); float rounding is not modelled. `float("inf")` is `None` in `BackendApp.Cheapest`, and the 100-dollar seed is 100000 units. `toFixed(2)` formatting is left out.
- Prices are an ordered list of pairs with unique keys, not a map. Python dicts and JSON objects are ordered, and `.values()` is iterated in that order.
- `sortByGrade` mutates the loaded records in place. That is not observable, because each request loads a fresh copy, so the model returns new records.
- Lower-casing (`str.lower`, `toLowerCase`) is modelled on ASCII letters only.
- `sortByShortest` and distance sorting are stubs in both services, so there is no Haversine formula to model.
- `AVERAGE_CAR_MPG` and `updateData` in `app.py` are unused, so they are left out.
- React rendering, animation, the map, geolocation and network calls are left out. This includes the URL at Frontend/src/pages/Dashboard.jsx:113, written in single quotes, so its placeholder is never substituted. The model takes the page's `URLSearchParams` as the query the Backend sees.
- The location and radius fields of the dashboard.jsx search request are left out. So is the service that answers it.
- The model assumes `stations.json` holds an object keyed by station id, as both services read it with `.items()` and `.values()`. The generator in Gas Station App/Gas Stations.py writes a JSON list instead, on which those calls would raise AttributeError; that file shape is not modelled.
- The brand list constants of the dashboards are left out: brand selection is any string.
- JSON values other than numbers and null in a price object (and NaN) are left out.
- BackendApp.SortByCheapest: models the function's return value only (None). `BackendApp.Cheapest` models the loop whose result it discards.
