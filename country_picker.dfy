/**
 * The country picker of the phone-number form: the country list built from
 * the keyed country data, the case-insensitive name filter, the phone-mask
 * table, the label of the country button, and the three pieces of UI state
 * (`showList`, `searchString`, `selectedCountry`) changed by the four event
 * handlers.
 */
module CountryPicker {
  import opened Wrappers

  // ---------------------------------------------------------------------------
  // Data model
  // ---------------------------------------------------------------------------

  /** One country as the component uses it (the `CountryData` type). */
  datatype Country = Country(
    id: int,
    name: string,
    callingCode: string,
    phoneLength: int,
    countryCode: string)

  /** One value of the keyed country data: a country without its code, which is the key. */
  datatype CountryEntry = CountryEntry(
    id: int,
    name: string,
    callingCode: string,
    phoneLength: int)

  /**
   * The keyed country data, in the order `Object.keys` lists it (insertion
   * order, since every key is a non-numeric string).
   */
  type CountryTable = seq<(string, CountryEntry)>

  /** The keys of an object are distinct. */
  ghost predicate DistinctKeys(data: CountryTable) {
    forall i, j :: 0 <= i < j < |data| ==> data[i].0 != data[j].0
  }

  ghost function Keys(data: CountryTable): set<string> {
    set i | 0 <= i < |data| :: data[i].0
  }

  // ---------------------------------------------------------------------------
  // countryArray: one country per key, the key becoming its code
  // ---------------------------------------------------------------------------

  /** The entry's fields, with the key as its country code. */
  function WithCode(key: string, e: CountryEntry): (c: Country)
    ensures c.countryCode == key
    ensures c.id == e.id && c.name == e.name
    ensures c.callingCode == e.callingCode && c.phoneLength == e.phoneLength
  {
    Country(e.id, e.name, e.callingCode, e.phoneLength, key)
  }

  /** The country list: one country per key of the data, in key order, carrying its key as its code. */
  function CountryArray(data: CountryTable): (r: seq<Country>)
    ensures |r| == |data|
    ensures forall i :: 0 <= i < |data| ==> r[i] == WithCode(data[i].0, data[i].1)
  {
    if data == [] then [] else [WithCode(data[0].0, data[0].1)] + CountryArray(data[1..])
  }

  /**
   * The country list has exactly one entry per key: the codes it carries are
   * the keys, no two entries share a code, and every other field is the one
   * stored under that key.
   */
  lemma CountryArrayOnePerKey(data: CountryTable)
    requires DistinctKeys(data)
    ensures (set c | c in CountryArray(data) :: c.countryCode) == Keys(data)
    ensures forall i, j :: 0 <= i < j < |CountryArray(data)| ==>
              CountryArray(data)[i].countryCode != CountryArray(data)[j].countryCode
    ensures forall i :: 0 <= i < |data| ==>
              CountryArray(data)[i].name == data[i].1.name &&
              CountryArray(data)[i].callingCode == data[i].1.callingCode &&
              CountryArray(data)[i].phoneLength == data[i].1.phoneLength &&
              CountryArray(data)[i].id == data[i].1.id
  {
    var r := CountryArray(data);
    forall k | k in Keys(data) ensures k in (set c | c in r :: c.countryCode) {
      var i :| 0 <= i < |data| && data[i].0 == k;
      assert r[i] in r;
    }
    forall k | k in (set c | c in r :: c.countryCode) ensures k in Keys(data) {
      var c :| c in r && c.countryCode == k;
      var i :| 0 <= i < |r| && r[i] == c;
      assert data[i].0 == k;
    }
  }

  // ---------------------------------------------------------------------------
  // Case-insensitive name filter
  // ---------------------------------------------------------------------------

  /** `toLowerCase` on one character, restricted to the ASCII letters. */
  function LowerChar(ch: char): (r: char)
    ensures 'A' <= ch <= 'Z' ==> r as int == ch as int + 32
    ensures !('A' <= ch <= 'Z') ==> r == ch
    ensures !('A' <= r <= 'Z')
  {
    if 'A' <= ch <= 'Z' then (ch as int + 32) as char else ch
  }

  /** `toLowerCase`, with ASCII case mapping. */
  function Lower(s: string): (r: string)
    ensures |r| == |s|
    ensures forall i :: 0 <= i < |s| ==> r[i] == LowerChar(s[i])
  {
    seq(|s|, i requires 0 <= i < |s| => LowerChar(s[i]))
  }

  /** Lowering an already lowered string changes nothing. */
  lemma LowerIdempotent(s: string)
    ensures Lower(Lower(s)) == Lower(s)
  {
  }

  predicate IsPrefix(needle: string, hay: string) {
    |needle| <= |hay| && hay[..|needle|] == needle
  }

  /** `hay.includes(needle)`: tries every starting position from the left. */
  function Includes(hay: string, needle: string): bool
    decreases |hay|
  {
    if IsPrefix(needle, hay) then true
    else if hay == [] then false
    else Includes(hay[1..], needle)
  }

  /** `needle` occurs in `hay` starting at position `i`. */
  ghost predicate OccursAt(hay: string, needle: string, i: int) {
    0 <= i && i + |needle| <= |hay| && hay[i..i + |needle|] == needle
  }

  /** `Includes` holds exactly when the needle occurs somewhere in the haystack. */
  lemma {:induction false} IncludesIffOccurs(hay: string, needle: string)
    ensures Includes(hay, needle) <==> exists i :: OccursAt(hay, needle, i)
    decreases |hay|
  {
    if IsPrefix(needle, hay) {
      assert OccursAt(hay, needle, 0);
    } else if hay == [] {
      forall i | OccursAt(hay, needle, i) ensures false {
      }
    } else {
      var tail := hay[1..];
      IncludesIffOccurs(tail, needle);
      forall i | OccursAt(tail, needle, i) ensures OccursAt(hay, needle, i + 1) {
        assert hay[i + 1..i + 1 + |needle|] == tail[i..i + |needle|];
      }
      forall i | OccursAt(hay, needle, i) ensures i != 0 {
      }
      forall i | OccursAt(hay, needle, i) ensures OccursAt(tail, needle, i - 1) {
        assert 1 <= i;
        assert hay[i..i + |needle|] == hay[1..][i - 1..i - 1 + |needle|];
      }
    }
  }

  /** `Array.prototype.filter`: the elements that pass `keep`, in their order. */
  function Filter<T(!new)>(s: seq<T>, keep: T -> bool): (r: seq<T>)
    ensures |r| <= |s|
    ensures forall x :: x in r <==> x in s && keep(x)
  {
    if s == [] then []
    else if keep(s[0]) then [s[0]] + Filter(s[1..], keep)
    else Filter(s[1..], keep)
  }

  ghost predicate Increasing(idx: seq<int>) {
    forall k, l :: 0 <= k < l < |idx| ==> idx[k] < idx[l]
  }

  /** `r` lists the elements of `s` at the positions `idx`. */
  ghost predicate PicksAt<T>(s: seq<T>, r: seq<T>, idx: seq<int>) {
    |idx| == |r| && forall k :: 0 <= k < |idx| ==> 0 <= idx[k] < |s| && r[k] == s[idx[k]]
  }

  /** The positions `idx` are exactly those of the elements of `s` that pass `keep`. */
  ghost predicate KeptPositions<T(!new)>(s: seq<T>, keep: T -> bool, idx: seq<int>) {
    forall j :: 0 <= j < |s| ==> (keep(s[j]) <==> j in idx)
  }

  /**
   * `r` is the subsequence of `s` at the strictly increasing positions `idx`,
   * and those positions are exactly the ones whose element passes `keep`.
   */
  ghost predicate KeepsExactly<T(!new)>(s: seq<T>, keep: T -> bool, r: seq<T>, idx: seq<int>) {
    PicksAt(s, r, idx) && Increasing(idx) && KeptPositions(s, keep, idx)
  }

  /** Every position moved one place to the right. */
  ghost function Shifted(idx: seq<int>): (r: seq<int>)
    ensures |r| == |idx|
    ensures forall k :: 0 <= k < |idx| ==> r[k] == idx[k] + 1
  {
    seq(|idx|, k requires 0 <= k < |idx| => idx[k] + 1)
  }

  /** Shifting keeps positions increasing, and position 0 may go in front of them. */
  lemma ShiftedIncreasing(idx: seq<int>)
    requires Increasing(idx)
    requires forall k :: 0 <= k < |idx| ==> 0 <= idx[k]
    ensures Increasing(Shifted(idx))
    ensures Increasing([0] + Shifted(idx))
  {
  }

  lemma PicksAtCons<T>(x: T, tail: seq<T>, rt: seq<T>, rest: seq<int>)
    requires PicksAt(tail, rt, rest)
    ensures PicksAt([x] + tail, [x] + rt, [0] + Shifted(rest))
  {
  }

  lemma PicksAtSkip<T>(x: T, tail: seq<T>, rt: seq<T>, rest: seq<int>)
    requires PicksAt(tail, rt, rest)
    ensures PicksAt([x] + tail, rt, Shifted(rest))
  {
  }

  lemma KeptPositionsCons<T(!new)>(s: seq<T>, keep: T -> bool, rest: seq<int>)
    requires s != [] && KeptPositions(s[1..], keep, rest)
    requires forall k :: 0 <= k < |rest| ==> 0 <= rest[k]
    ensures keep(s[0]) ==> KeptPositions(s, keep, [0] + Shifted(rest))
    ensures !keep(s[0]) ==> KeptPositions(s, keep, Shifted(rest))
  {
  }

  /** Putting the head in front of a kept tail, or dropping it, keeps exactly the passing positions. */
  lemma KeepsExactlyCons<T(!new)>(s: seq<T>, keep: T -> bool, rest: seq<int>)
    requires s != []
    requires KeepsExactly(s[1..], keep, Filter(s[1..], keep), rest)
    ensures KeepsExactly(s, keep, Filter(s, keep), if keep(s[0]) then [0] + Shifted(rest) else Shifted(rest))
  {
    assert s == [s[0]] + s[1..];
    ShiftedIncreasing(rest);
    KeptPositionsCons(s, keep, rest);
    if keep(s[0]) {
      PicksAtCons(s[0], s[1..], Filter(s[1..], keep), rest);
    } else {
      PicksAtSkip(s[0], s[1..], Filter(s[1..], keep), rest);
    }
  }

  /**
   * `filter` returns an order-preserving subsequence of its input that keeps
   * a position exactly when the element there passes the test.
   */
  lemma {:induction false} FilterKeepsInOrder<T(!new)>(s: seq<T>, keep: T -> bool) returns (idx: seq<int>)
    ensures KeepsExactly(s, keep, Filter(s, keep), idx)
  {
    if s == [] {
      idx := [];
    } else {
      var rest := FilterKeepsInOrder(s[1..], keep);
      KeepsExactlyCons(s, keep, rest);
      idx := if keep(s[0]) then [0] + Shifted(rest) else Shifted(rest);
    }
  }

  /** `filter` with a test every element passes returns its input. */
  lemma {:induction false} FilterAllPass<T(!new)>(s: seq<T>, keep: T -> bool)
    requires forall j :: 0 <= j < |s| ==> keep(s[j])
    ensures Filter(s, keep) == s
  {
    if s != [] {
      assert forall j :: 0 <= j < |s[1..]| ==> keep(s[1..][j]) by {
        forall j | 0 <= j < |s[1..]| ensures keep(s[1..][j]) {
          assert s[1..][j] == s[j + 1];
        }
      }
      FilterAllPass(s[1..], keep);
    }
  }

  /** `filter` with a test no element passes returns the empty list. */
  lemma {:induction false} FilterNonePass<T(!new)>(s: seq<T>, keep: T -> bool)
    requires forall j :: 0 <= j < |s| ==> !keep(s[j])
    ensures Filter(s, keep) == []
  {
    if s != [] {
      assert forall j :: 0 <= j < |s[1..]| ==> s[1..][j] == s[j + 1];
      FilterNonePass(s[1..], keep);
    }
  }

  /** Filtering a concatenation filters each part. */
  lemma {:induction false} FilterAppend<T(!new)>(a: seq<T>, b: seq<T>, keep: T -> bool)
    ensures Filter(a + b, keep) == Filter(a, keep) + Filter(b, keep)
  {
    if a != [] {
      assert (a + b)[0] == a[0] && (a + b)[1..] == a[1..] + b;
      FilterAppend(a[1..], b, keep);
    } else {
      assert a + b == b;
    }
  }

  /** The filter's test: the lowered name contains the lowered search string. */
  predicate Matches(c: Country, search: string) {
    Includes(Lower(c.name), Lower(search))
  }

  /** The countries shown for a search string: those that match it, in list order. */
  function FilteredCountries(countries: seq<Country>, search: string): (r: seq<Country>)
    ensures forall c :: c in r <==> c in countries && Matches(c, search)
  {
    Filter(countries, c => Matches(c, search))
  }

  /**
   * The filtered list is an order-preserving subsequence of the country list
   * (the countries at the increasing positions `idx`), and a position is kept
   * exactly when the lowered name there contains the lowered search string.
   */
  lemma FilterKeepsMatchesInOrder(countries: seq<Country>, search: string) returns (idx: seq<int>)
    ensures |idx| == |FilteredCountries(countries, search)|
    ensures forall k :: 0 <= k < |idx| ==>
              0 <= idx[k] < |countries| && FilteredCountries(countries, search)[k] == countries[idx[k]]
    ensures forall k, l :: 0 <= k < l < |idx| ==> idx[k] < idx[l]
    ensures forall j :: 0 <= j < |countries| ==>
              (Includes(Lower(countries[j].name), Lower(search)) <==> j in idx)
  {
    idx := FilterKeepsInOrder(countries, c => Matches(c, search));
  }

  /** An empty search string keeps every country. */
  lemma FilterEmptySearchKeepsAll(countries: seq<Country>)
    ensures FilteredCountries(countries, "") == countries
  {
    forall j | 0 <= j < |countries| ensures Matches(countries[j], "") {
      assert IsPrefix(Lower(""), Lower(countries[j].name));
    }
    FilterAllPass(countries, c => Matches(c, ""));
  }

  /** The filter ignores the case of the search string. */
  lemma SearchIgnoresCase(c: Country, search: string)
    ensures Matches(c, search) == Matches(c, Lower(search))
  {
    LowerIdempotent(search);
  }

  // ---------------------------------------------------------------------------
  // Phone mask
  // ---------------------------------------------------------------------------

  /** The mask used for every length without an entry of its own. */
  const DefaultMask: string := "999999999999999"

  /** `getPhoneMask`: a `9` in the mask is one digit slot. */
  function PhoneMask(length: int): string {
    if length == 10 then "(999) 999-9999"
    else if length == 11 then "999 999 99999"
    else if length == 12 then "9999 999 9999"
    else if length == 13 then "99999 999 9999"
    else DefaultMask
  }

  /** The number of digit slots of a mask: its `9` characters. */
  function DigitSlots(mask: string): (n: nat)
    ensures n <= |mask|
  {
    multiset(mask)['9']
  }

  lemma SlotsOf10() ensures DigitSlots(PhoneMask(10)) == 10 {}
  lemma SlotsOf11() ensures DigitSlots(PhoneMask(11)) == 11 {}
  lemma SlotsOf12() ensures DigitSlots(PhoneMask(12)) == 11 {}
  lemma SlotsOf13() ensures DigitSlots(PhoneMask(13)) == 12 {}
  lemma SlotsOfDefault() ensures DigitSlots(DefaultMask) == 15 {}

  /** Lengths 10 to 13 have masks of their own; every other length gets the default. */
  lemma PhoneMaskDefaultExactlyOutside(length: int)
    ensures (PhoneMask(length) == DefaultMask) <==> !(10 <= length <= 13)
  {
  }

  /**
   * The 10 and 11 masks have one slot per digit, the 12 and 13 masks one slot
   * fewer than the length, and the default has 15.
   */
  lemma PhoneMaskSlots(length: int)
    ensures DigitSlots(PhoneMask(length)) ==
              if length == 10 || length == 11 then length
              else if length == 12 || length == 13 then length - 1
              else 15
  {
    if length == 10 { SlotsOf10(); }
    else if length == 11 { SlotsOf11(); }
    else if length == 12 { SlotsOf12(); }
    else if length == 13 { SlotsOf13(); }
    else { SlotsOfDefault(); }
  }

  /** Every mask is made of digit slots and the separators `(`, `)`, ` ` and `-`. */
  lemma PhoneMaskAlphabet(length: int)
    ensures forall i :: 0 <= i < |PhoneMask(length)| ==> PhoneMask(length)[i] in "9() -"
  {
  }

  /** The mask the phone input asks for: by the selected country's length, or length 0. */
  function MaskFor(selected: Option<Country>): (mask: string)
    ensures selected.Some? ==> mask == PhoneMask(selected.value.phoneLength)
  {
    PhoneMask(if selected.Some? then selected.value.phoneLength else 0)
  }

  /** With no country selected the phone input gets the default mask, with 15 digit slots. */
  lemma NoSelectionGetsDefaultMask()
    ensures MaskFor(None) == DefaultMask
    ensures DigitSlots(MaskFor(None)) == 15
  {
  }

  // ---------------------------------------------------------------------------
  // Country button
  // ---------------------------------------------------------------------------

  /** What the country button shows: the flag's country code and the calling code. */
  datatype ButtonLabel = ButtonLabel(flagCode: string, callingCode: string)

  /**
   * The button shows the selected country, or the first of the list when none
   * is selected. With neither, `countryArray[0]` is `undefined` and reading its
   * fields throws: that is `None`.
   */
  function ButtonShows(selected: Option<Country>, countries: seq<Country>): (r: Option<ButtonLabel>)
    ensures r.Some? <==> selected.Some? || |countries| > 0
    ensures r.Some? ==>
              var shown := if selected.Some? then selected.value else countries[0];
              r.value == ButtonLabel(shown.countryCode, shown.callingCode)
  {
    match selected
    case Some(c) => Some(ButtonLabel(c.countryCode, c.callingCode))
    case None =>
      if |countries| > 0 then Some(ButtonLabel(countries[0].countryCode, countries[0].callingCode))
      else None
  }

  // ---------------------------------------------------------------------------
  // UI state and the four handlers
  // ---------------------------------------------------------------------------

  /** The component's three state cells. */
  datatype PickerState = PickerState(
    showList: bool,
    searchString: string,
    selectedCountry: Option<Country>)

  /** The state on first render: list closed, empty search, nothing selected. */
  const InitialPicker: PickerState := PickerState(false, "", None)

  /** `handleSearch(value)` */
  function Searched(s: PickerState, value: string): PickerState {
    s.(searchString := value)
  }

  /** `handleSelect(country)` */
  function Selected(s: PickerState, country: Country): PickerState {
    s.(selectedCountry := Some(country), showList := false)
  }

  /** `toggleList`: clears a non-empty search, flips the list. */
  function Toggled(s: PickerState): PickerState {
    var search := if |s.searchString| > 0 then "" else s.searchString;
    PickerState(!s.showList, search, s.selectedCountry)
  }

  /**
   * `handleClickOutside`: `mounted` says whether the dropdown element exists
   * (`dropdownRef.current` is set), `inside` whether it contains the click target.
   */
  function ClickedOutside(s: PickerState, mounted: bool, inside: bool): PickerState {
    if mounted && !inside then s.(showList := false) else s
  }

  /** The state cells of the component, updated in place by its handlers. */
  class Picker {
    var showList: bool
    var searchString: string
    var selectedCountry: Option<Country>

    function State(): PickerState
      reads this
    {
      PickerState(showList, searchString, selectedCountry)
    }

    /** The `useState` initial values. */
    constructor ()
      ensures State() == InitialPicker
    {
      showList := false;
      searchString := "";
      selectedCountry := None;
    }

    /** `filteredCountries` for the current search string. */
    function Visible(countries: seq<Country>): (r: seq<Country>)
      reads this
      ensures forall c :: c in r <==> c in countries && Matches(c, searchString)
    {
      FilteredCountries(countries, searchString)
    }

    method HandleSearch(value: string)
      modifies this
      ensures State() == Searched(old(State()), value)
    {
      searchString := value;
    }

    method HandleSelect(country: Country)
      modifies this
      ensures State() == Selected(old(State()), country)
    {
      selectedCountry := Some(country);
      showList := false;
    }

    method ToggleList()
      modifies this
      ensures State() == Toggled(old(State()))
    {
      if |searchString| > 0 {
        searchString := "";
      }
      showList := !showList;
    }

    method HandleClickOutside(mounted: bool, inside: bool)
      modifies this
      ensures State() == ClickedOutside(old(State()), mounted, inside)
    {
      if mounted && !inside {
        showList := false;
      }
    }
  }

  // ---------------------------------------------------------------------------
  // Properties of the handlers
  // ---------------------------------------------------------------------------

  /** `handleSearch` changes the search string, to the given value, and nothing else. */
  lemma SearchSetsOnlySearch(s: PickerState, value: string)
    ensures Searched(s, value).searchString == value
    ensures Searched(s, value).showList == s.showList
    ensures Searched(s, value).selectedCountry == s.selectedCountry
  {
  }

  /**
   * `handleSelect` selects the country and closes the list, keeps the search,
   * and from then on the button and the phone mask follow that country.
   */
  lemma SelectShowsCountry(s: PickerState, country: Country, countries: seq<Country>)
    ensures Selected(s, country).selectedCountry == Some(country)
    ensures !Selected(s, country).showList
    ensures Selected(s, country).searchString == s.searchString
    ensures ButtonShows(Selected(s, country).selectedCountry, countries) ==
              Some(ButtonLabel(country.countryCode, country.callingCode))
    ensures MaskFor(Selected(s, country).selectedCountry) == PhoneMask(country.phoneLength)
  {
  }

  /**
   * `toggleList` flips the list, leaves the search empty and the selection as
   * it was, so that the whole country list is visible afterwards.
   */
  lemma ToggleFlipsAndClears(s: PickerState, countries: seq<Country>)
    ensures Toggled(s).showList == !s.showList
    ensures Toggled(s).searchString == ""
    ensures Toggled(s).selectedCountry == s.selectedCountry
    ensures FilteredCountries(countries, Toggled(s).searchString) == countries
  {
    FilterEmptySearchKeepsAll(countries);
  }

  /** Toggling twice restores the list's visibility; only the search is left cleared. */
  lemma ToggleTwiceRestores(s: PickerState)
    ensures Toggled(Toggled(s)).showList == s.showList
    ensures Toggled(Toggled(s)) == s.(searchString := "")
  {
  }

  /** A click outside the mounted dropdown closes the list; any other click changes nothing. */
  lemma ClickOutsideClosesOnlyOutside(s: PickerState, mounted: bool, inside: bool)
    ensures mounted && !inside ==> ClickedOutside(s, mounted, inside) == s.(showList := false)
    ensures !(mounted && !inside) ==> ClickedOutside(s, mounted, inside) == s
  {
  }

  /**
   * The toggle button lies outside the dropdown element, so pressing it while
   * the list is open first closes the list (the mouse-down listener) and then
   * toggles it open again (the click handler): the button cannot close the list.
   */
  lemma ButtonPressKeepsOpenListOpen(s: PickerState)
    requires s.showList
    ensures Toggled(ClickedOutside(s, true, false)).showList
  {
  }

  // ---------------------------------------------------------------------------
  // The dummy country data of the application context
  // ---------------------------------------------------------------------------

  const DummyCountryData: CountryTable := [
    ("PK", CountryEntry(1, "Pakistan", "+92", 10)),
    ("IN", CountryEntry(2, "India", "+91", 10)),
    ("US", CountryEntry(3, "United States", "+1", 10)),
    ("CN", CountryEntry(4, "China", "+86", 13)),
    ("ES", CountryEntry(5, "Spain", "+34", 9)),
    ("OK", CountryEntry(1, "Pakistan", "+92", 10)),
    ("UN", CountryEntry(2, "India", "+91", 10)),
    ("WS", CountryEntry(3, "United States", "+1", 10)),
    ("XN", CountryEntry(4, "China", "+86", 13)),
    ("MS", CountryEntry(5, "Spain", "+34", 9))
  ]

  /** A needle whose first character does not occur in the haystack is not included. */
  lemma {:induction false} MissingFirstCharNotIncluded(hay: string, needle: string)
    requires |needle| > 0 && needle[0] !in hay
    ensures !Includes(hay, needle)
    decreases |hay|
  {
    if hay != [] {
      assert forall ch :: ch in hay[1..] ==> ch in hay;
      MissingFirstCharNotIncluded(hay[1..], needle);
    }
  }

  lemma PakistanMatchesPak(c: Country)
    requires c.name == "Pakistan"
    ensures Matches(c, "PAK")
  {
  }

  /** A country whose lowered name has no `p` does not match "PAK". */
  lemma NoPMissesPak(c: Country)
    requires 'p' !in Lower(c.name)
    ensures !Matches(c, "PAK")
  {
    assert Lower("PAK") == "pak";
    MissingFirstCharNotIncluded(Lower(c.name), "pak");
  }

  lemma SpainMissesPak(c: Country)
    requires c.name == "Spain"
    ensures !Matches(c, "PAK")
  {
    assert Lower("PAK") == "pak";
    assert Lower("Spain") == "spain";
    assert "spain"[..3][0] == 's' && "spain"[1..] == "pain";
    assert "pain"[..3][2] == 'i' && "pain"[1..] == "ain";
    MissingFirstCharNotIncluded("ain", "pak");
    assert !Includes("pain", "pak");
  }

  /** No other name of the dummy data matches "PAK". */
  lemma OtherNamesMissPak(c: Country)
    requires c.name in ["India", "United States", "China", "Spain"]
    ensures !Matches(c, "PAK")
  {
    if c.name == "India" {
      assert Lower(c.name) == "india";
      NoPMissesPak(c);
    } else if c.name == "United States" {
      assert Lower(c.name) == "united states";
      NoPMissesPak(c);
    } else if c.name == "China" {
      assert Lower(c.name) == "china";
      NoPMissesPak(c);
    } else {
      SpainMissesPak(c);
    }
  }

  /** On the dummy data the country list has ten entries and the button starts on Pakistan. */
  lemma DummyDataButton()
    ensures |CountryArray(DummyCountryData)| == 10
    ensures ButtonShows(None, CountryArray(DummyCountryData)) == Some(ButtonLabel("PK", "+92"))
  {
  }

  /** The names of the dummy country list, by position. */
  lemma DummyNames()
    ensures |CountryArray(DummyCountryData)| == 10
    ensures CountryArray(DummyCountryData)[0].name == CountryArray(DummyCountryData)[5].name == "Pakistan"
    ensures CountryArray(DummyCountryData)[1].name == CountryArray(DummyCountryData)[6].name == "India"
    ensures CountryArray(DummyCountryData)[2].name == CountryArray(DummyCountryData)[7].name == "United States"
    ensures CountryArray(DummyCountryData)[3].name == CountryArray(DummyCountryData)[8].name == "China"
    ensures CountryArray(DummyCountryData)[4].name == CountryArray(DummyCountryData)[9].name == "Spain"
  {
  }

  /** On the dummy data, exactly the two Pakistan entries, at positions 0 and 5, match "PAK". */
  lemma DummyMatchesPak(j: int)
    requires 0 <= j < 10
    ensures Matches(CountryArray(DummyCountryData)[j], "PAK") <==> j == 0 || j == 5
  {
    DummyNames();
    var c := CountryArray(DummyCountryData)[j];
    if j == 0 || j == 5 { PakistanMatchesPak(c); }
    else { OtherNamesMissPak(c); }
  }

  /** A filter that passes exactly the position `a` returns that element. */
  lemma FilterPicksOne<T(!new)>(s: seq<T>, keep: T -> bool, a: int)
    requires 0 <= a < |s|
    requires forall j :: 0 <= j < |s| ==> (keep(s[j]) <==> j == a)
    ensures Filter(s, keep) == [s[a]]
  {
    var before, after := s[..a], s[a + 1..];
    assert s == before + ([s[a]] + after);
    FilterNonePass(before, keep);
    assert forall j :: 0 <= j < |after| ==> after[j] == s[a + 1 + j];
    FilterNonePass(after, keep);
    FilterAppend([s[a]], after, keep);
    FilterAppend(before, [s[a]] + after, keep);
  }

  /** A filter that passes exactly the positions `a < b` returns those two elements. */
  lemma FilterPicksTwo<T(!new)>(s: seq<T>, keep: T -> bool, a: int, b: int)
    requires 0 <= a < b < |s|
    requires forall j :: 0 <= j < |s| ==> (keep(s[j]) <==> j == a || j == b)
    ensures Filter(s, keep) == [s[a], s[b]]
  {
    var front, back := s[..b], s[b..];
    assert s == front + back;
    forall j | 0 <= j < |front| ensures keep(front[j]) <==> j == a {
      assert front[j] == s[j];
    }
    FilterPicksOne(front, keep, a);
    forall j | 0 <= j < |back| ensures keep(back[j]) <==> j == 0 {
      assert back[j] == s[b + j];
    }
    FilterPicksOne(back, keep, 0);
    FilterAppend(front, back, keep);
  }

  /** On the dummy data, searching "PAK" keeps the two Pakistan entries, PK then OK. */
  lemma DummyDataSearchPak()
    ensures FilteredCountries(CountryArray(DummyCountryData), "PAK") ==
              [Country(1, "Pakistan", "+92", 10, "PK"), Country(1, "Pakistan", "+92", 10, "OK")]
  {
    var cs := CountryArray(DummyCountryData);
    DummyNames();
    forall j | 0 <= j < |cs| ensures Matches(cs[j], "PAK") <==> j == 0 || j == 5 {
      DummyMatchesPak(j);
    }
    FilterPicksTwo(cs, c => Matches(c, "PAK"), 0, 5);
  }
}
