/** The location picker (app/location.tsx).

    The screen keeps three pieces of state: the selected country code, the
    selected city and the city search text. The country is looked up by
    code in a static table; its cities are filtered by a case-insensitive
    substring match against the search text; "Continue" navigates home only
    when both a city and a country are selected.

    Lower-casing is a parameter `lower`: Unicode case mapping is not modelled.
    Navigation is an emitted action.
 */
module Location {

  datatype Option<T> = None | Some(value: T)

  datatype Country = Country(code: string, name: string, cities: seq<string>)

  /** The countries offered, with their cities, in display order. */
  const COUNTRIES: seq<Country> := [
    Country("BE", "Belgique", ["Bruxelles", "Anvers", "Gand", "Charleroi", "Liège"]),
    Country("CM", "Cameroun", ["Yaoundé", "Douala", "Garoua", "Bamenda", "Bafoussam"]),
    Country("CA", "Canada", ["Montréal", "Québec", "Toronto", "Vancouver", "Ottawa"]),
    Country("CG", "Congo", ["Brazzaville", "Pointe-Noire", "Dolisie", "Nkayi", "Ouesso"]),
    Country("CI", "Côte d'Ivoire", ["Abidjan", "Bouaké", "Yamoussoukro", "San-Pédro", "Daloa"]),
    Country("FR", "France", ["Paris", "Lyon", "Marseille", "Toulouse", "Nice", "Nantes", "Bordeaux"]),
    Country("GA", "Gabon", ["Libreville", "Port-Gentil", "Franceville", "Oyem", "Moanda"]),
    Country("ML", "Mali", ["Bamako", "Sikasso", "Mopti", "Koutiala", "Kayes"]),
    Country("SN", "Sénégal", ["Dakar", "Thiès", "Saint-Louis", "Kaolack", "Ziguinchor"]),
    Country("CH", "Suisse", ["Genève", "Zurich", "Bâle", "Lausanne", "Berne"])
  ]

  /** No two countries of a table share a code. */
  ghost predicate DistinctCodes(table: seq<Country>) {
    forall i, j :: 0 <= i < j < |table| ==> table[i].code != table[j].code
  }

  /** `Array.prototype.find` by code: the first country whose code equals
      `code`; a missing code (null) matches nothing. */
  function FindCountry(table: seq<Country>, code: Option<string>): (r: Option<Country>)
    ensures r.Some? ==> r.value in table && code == Some(r.value.code)
    ensures r.None? ==> forall c :: c in table ==> code != Some(c.code)
    decreases |table|
  {
    if |table| == 0 then None
    else if code == Some(table[0].code) then Some(table[0])
    else FindCountry(table[1..], code)
  }

  /** With distinct codes the lookup finds the one country carrying the code. */
  lemma FindCountryUnique(table: seq<Country>, c: Country)
    requires DistinctCodes(table) && c in table
    ensures FindCountry(table, Some(c.code)) == Some(c)
  {
    var r := FindCountry(table, Some(c.code));
    var i :| 0 <= i < |table| && table[i] == r.value;
    var j :| 0 <= j < |table| && table[j] == c;
    assert !(i < j) && !(j < i);
  }

  lemma CountryCodesDistinct()
    ensures DistinctCodes(COUNTRIES)
  {
  }

  // ---------------------------------------------------------------------------
  // City filter

  /** `String.prototype.includes`: needle occurs somewhere in hay. The empty
      needle occurs everywhere; a needle longer than hay nowhere. */
  function Includes(hay: string, needle: string): (b: bool)
    ensures |needle| == 0 ==> b
    ensures b ==> |needle| <= |hay|
    ensures needle <= hay ==> b
    decreases |hay|
  {
    needle <= hay || (|hay| > 0 && Includes(hay[1..], needle))
  }

  /** needle occurs in hay at position i. */
  ghost predicate OccursAt(needle: string, hay: string, i: nat) {
    i + |needle| <= |hay| && hay[i..i + |needle|] == needle
  }

  /** Every position the recursive search accepts is an occurrence. */
  lemma {:induction false} IncludesSound(hay: string, needle: string)
    requires Includes(hay, needle)
    ensures exists i: nat :: OccursAt(needle, hay, i)
    decreases |hay|
  {
    if needle <= hay {
      assert OccursAt(needle, hay, 0);
    } else {
      IncludesSound(hay[1..], needle);
      var i: nat :| OccursAt(needle, hay[1..], i);
      assert hay[1..][i..i + |needle|] == hay[i + 1..i + 1 + |needle|];
      assert OccursAt(needle, hay, i + 1);
    }
  }

  /** The recursive search finds every occurrence. */
  lemma {:induction false} IncludesComplete(hay: string, needle: string, i: nat)
    requires OccursAt(needle, hay, i)
    ensures Includes(hay, needle)
    decreases i
  {
    if i == 0 {
      assert hay[..|needle|] == needle;
    } else {
      assert hay[1..][i - 1..i - 1 + |needle|] == hay[i..i + |needle|];
      IncludesComplete(hay[1..], needle, i - 1);
    }
  }

  /** The recursive search finds exactly the needles that occur at some position. */
  lemma IncludesIffOccurs(hay: string, needle: string)
    ensures Includes(hay, needle) <==> exists i: nat :: OccursAt(needle, hay, i)
  {
    if Includes(hay, needle) {
      IncludesSound(hay, needle);
    }
    if exists i: nat :: OccursAt(needle, hay, i) {
      var i: nat :| OccursAt(needle, hay, i);
      IncludesComplete(hay, needle, i);
    }
  }

  /** r is r's elements taken from s in order, possibly skipping some. */
  predicate IsSubsequence(r: seq<string>, s: seq<string>)
    decreases |s|
  {
    if |r| == 0 then true
    else if |s| == 0 then false
    else (r[0] == s[0] && IsSubsequence(r[1..], s[1..])) || IsSubsequence(r, s[1..])
  }

  /** Whether the filter keeps a city for this search text. */
  predicate Keeps(city: string, search: string, lower: string -> string) {
    Includes(lower(city), lower(search))
  }

  /** `cities.filter(city => lower(city).includes(lower(search)))`. */
  function FilterCities(cities: seq<string>, search: string, lower: string -> string): (r: seq<string>)
    ensures IsSubsequence(r, cities)
    ensures forall c :: c in r <==> c in cities && Keeps(c, search, lower)
    ensures forall c :: multiset(r)[c] == if Keeps(c, search, lower) then multiset(cities)[c] else 0
    decreases |cities|
  {
    if |cities| == 0 then []
    else
      var rest := FilterCities(cities[1..], search, lower);
      assert cities == [cities[0]] + cities[1..];
      if Keeps(cities[0], search, lower) then [cities[0]] + rest else rest
  }

  /** An empty search keeps every city, in order. */
  lemma {:induction false} EmptySearchKeepsAll(cities: seq<string>, lower: string -> string)
    requires lower("") == ""
    ensures FilterCities(cities, "", lower) == cities
    decreases |cities|
  {
    if |cities| > 0 {
      assert "" <= lower(cities[0]);
      EmptySearchKeepsAll(cities[1..], lower);
    }
  }

  // ---------------------------------------------------------------------------
  // Screen state and events

  /** The screen's state; None is JavaScript's null. */
  datatype Picker = Picker(selectedCountry: Option<string>, selectedCity: Option<string>, searchCity: string)

  const INITIAL: Picker := Picker(None, None, "")

  /** What the user can do on the screen. */
  datatype UiEvent =
    | SelectCountry(code: string)  // press a country in the list
    | ChangeCountry                // press "Changer"
    | TypeSearch(text: string)     // edit the city search field
    | SelectCity(city: string)     // press a city in the list
    | PressContinue                // press "Continuer"

  /** What the screen asks of the navigator. */
  datatype Action = Stay | Navigate(route: string)

  /** JavaScript truthiness of a nullable string: null and "" are false. */
  predicate Truthy(o: Option<string>) {
    o.Some? && o.value != ""
  }

  /** The country of the table (COUNTRIES on the screen) matching the
      selected code, if any. */
  function CurrentCountry(table: seq<Country>, s: Picker): Option<Country> {
    FindCountry(table, s.selectedCountry)
  }

  /** The cities listed for the current country; None when no country matches. */
  function FilteredCities(table: seq<Country>, s: Picker, lower: string -> string): (r: Option<seq<string>>)
    ensures r.None? <==> CurrentCountry(table, s).None?
    ensures r.Some? ==> IsSubsequence(r.value, CurrentCountry(table, s).value.cities)
    ensures r.Some? ==> forall c :: c in r.value <==>
      c in CurrentCountry(table, s).value.cities && Keeps(c, s.searchCity, lower)
    ensures r.Some? ==> forall c ::
      multiset(r.value)[c] ==
        if Keeps(c, s.searchCity, lower) then multiset(CurrentCountry(table, s).value.cities)[c] else 0
  {
    match CurrentCountry(table, s)
    case None => None
    case Some(c) => Some(FilterCities(c.cities, s.searchCity, lower))
  }

  /** The "Continuer" handler: navigate home only with a city and a country. */
  function HandleContinue(s: Picker): (a: Action)
    ensures a == Navigate("/") <==> Truthy(s.selectedCity) && Truthy(s.selectedCountry)
    ensures a != Navigate("/") ==> a == Stay
  {
    if Truthy(s.selectedCity) && Truthy(s.selectedCountry) then Navigate("/") else Stay
  }

  /** The "Continuer" button is shown exactly when a city is selected. */
  predicate ContinueVisible(s: Picker) {
    Truthy(s.selectedCity)
  }

  /** The country list is shown while no country is selected, the city pane
      (search field, city list, "Changer") once one is. */
  predicate CountryListVisible(s: Picker) {
    !Truthy(s.selectedCountry)
  }

  /** The state change and the action an event causes. Each handler writes
      its own piece of state, and only Continue can navigate. */
  function Step(s: Picker, e: UiEvent): (r: (Picker, Action))
    ensures r.1 != Stay ==> e == PressContinue && r.1 == Navigate("/")
    ensures e == PressContinue ==> r.0 == s
    ensures !(e.SelectCountry? || e == ChangeCountry) ==> r.0.selectedCountry == s.selectedCountry
    ensures !e.SelectCity? ==> r.0.selectedCity == s.selectedCity
    ensures !e.TypeSearch? ==> r.0.searchCity == s.searchCity
    ensures e.SelectCountry? ==> r.0.selectedCountry == Some(e.code)
    ensures e == ChangeCountry ==> r.0.selectedCountry == None
    ensures e.TypeSearch? ==> r.0.searchCity == e.text
    ensures e.SelectCity? ==> r.0.selectedCity == Some(e.city)
  {
    match e
    case SelectCountry(code) => (s.(selectedCountry := Some(code)), Stay)
    case ChangeCountry => (s.(selectedCountry := None), Stay)
    case TypeSearch(text) => (s.(searchCity := text), Stay)
    case SelectCity(city) => (s.(selectedCity := Some(city)), Stay)
    case PressContinue => (s, HandleContinue(s))
  }

  /** Which events the screen offers in a state: the controls on display.
      The country list shows while no country is selected and offers the
      table's codes; the city pane ("Changer", the search field, the filtered
      cities) shows once one is; Continue shows once a city is. */
  function Enabled(table: seq<Country>, s: Picker, e: UiEvent, lower: string -> string): (b: bool)
    ensures b && e.SelectCountry? ==> CurrentCountry(table, Step(s, e).0).Some?
    ensures b && e.SelectCity? ==>
      CurrentCountry(table, s).Some? && e.city in CurrentCountry(table, s).value.cities
    ensures b && (e == ChangeCountry || e.TypeSearch? || e.SelectCity?) ==> Truthy(s.selectedCountry)
    ensures e == PressContinue ==> (b <==> Truthy(s.selectedCity))
    ensures e.SelectCountry? ==>
      (b <==> !Truthy(s.selectedCountry) && FindCountry(table, Some(e.code)).Some?)
    ensures e == ChangeCountry || e.TypeSearch? ==> (b <==> Truthy(s.selectedCountry))
    ensures e.SelectCity? ==>
      (b <==> Truthy(s.selectedCountry) && FilteredCities(table, s, lower).Some? &&
              e.city in FilteredCities(table, s, lower).value)
  {
    match e
    case SelectCountry(code) => CountryListVisible(s) && FindCountry(table, Some(code)).Some?
    case ChangeCountry => !CountryListVisible(s)
    case TypeSearch(_) => !CountryListVisible(s)
    case SelectCity(city) =>
      !CountryListVisible(s) && FilteredCities(table, s, lower).Some? && city in FilteredCities(table, s, lower).value
    case PressContinue => ContinueVisible(s)
  }

  /** A country press is on offer exactly while no country is selected, and
      only for a code some country of the table carries. */
  lemma CountryPressOffered(table: seq<Country>, s: Picker, code: string, lower: string -> string)
    ensures Enabled(table, s, SelectCountry(code), lower) <==>
      !Truthy(s.selectedCountry) && exists c :: c in table && c.code == code
  {
  }

  /** The state after a run of events, each offered when it happens; None
      when some event is not on offer at its turn. */
  function Run(table: seq<Country>, s: Picker, es: seq<UiEvent>, lower: string -> string): (r: Option<Picker>)
    ensures |es| == 0 ==> r == Some(s)
    ensures r.Some? && |es| > 0 ==> Enabled(table, s, es[0], lower)
    decreases |es|
  {
    if |es| == 0 then Some(s)
    else if Enabled(table, s, es[0], lower) then Run(table, Step(s, es[0]).0, es[1..], lower)
    else None
  }

  // ---------------------------------------------------------------------------
  // Properties

  /** Continue never changes the state; it navigates exactly when both a city
      and a country are selected. */
  lemma ContinueGuard(s: Picker)
    ensures Step(s, PressContinue).0 == s
    ensures Step(s, PressContinue).1 == Navigate("/") <==>
      Truthy(s.selectedCity) && Truthy(s.selectedCountry)
    ensures !(Truthy(s.selectedCity) && Truthy(s.selectedCountry)) ==> Step(s, PressContinue).1 == Stay
  {
  }

  /** "Changer" brings the country list back and forgets only the country:
      the selected city, the search text and the Continue button stay. */
  lemma ChangeKeepsCityAndSearch(table: seq<Country>, s: Picker)
    ensures var t := Step(s, ChangeCountry).0;
      && t.selectedCountry.None? && CountryListVisible(t) && CurrentCountry(table, t).None?
      && t.selectedCity == s.selectedCity && t.searchCity == s.searchCity
      && (ContinueVisible(t) <==> ContinueVisible(s))
  {
  }

  /** Pressing a city selects exactly that city and changes nothing else;
      Continue is then on display. */
  lemma SelectCityExact(s: Picker, city: string)
    requires city != ""
    ensures var t := Step(s, SelectCity(city)).0;
      && t.selectedCity == Some(city)
      && t.selectedCountry == s.selectedCountry && t.searchCity == s.searchCity
      && ContinueVisible(t)
  {
  }

  /** A city some country of the table lists. */
  ghost predicate IsListedCity(table: seq<Country>, city: string) {
    exists c :: c in table && city in c.cities
  }

  /** States the screen can reach: any selected country code is in the
      table and any selected city is one the table lists. */
  ghost predicate Valid(table: seq<Country>, s: Picker) {
    && (s.selectedCountry.Some? ==> CurrentCountry(table, s).Some?)
    && (s.selectedCity.Some? ==> IsListedCity(table, s.selectedCity.value))
  }

  /** Every offered event keeps the state valid. */
  lemma StepKeepsValid(table: seq<Country>, s: Picker, e: UiEvent, lower: string -> string)
    requires Valid(table, s) && Enabled(table, s, e, lower)
    ensures Valid(table, Step(s, e).0)
  {
    match e
    case SelectCity(city) =>
      var c := CurrentCountry(table, s).value;
      assert c in table && city in c.cities;
    case _ =>
  }

  /** Whatever the user does, the state stays valid. */
  lemma {:induction false} RunKeepsValid(table: seq<Country>, s: Picker, es: seq<UiEvent>, lower: string -> string)
    requires Valid(table, s) && Run(table, s, es, lower).Some?
    ensures Valid(table, Run(table, s, es, lower).value)
    decreases |es|
  {
    if |es| > 0 {
      StepKeepsValid(table, s, es[0], lower);
      RunKeepsValid(table, Step(s, es[0]).0, es[1..], lower);
    }
  }

  /** The lookup of "FR" finds France. */
  lemma FranceLookup()
    ensures CurrentCountry(COUNTRIES, Picker(Some("FR"), None, "")) == Some(COUNTRIES[5])
  {
    CountryCodesDistinct();
    FindCountryUnique(COUNTRIES, COUNTRIES[5]);
  }

  /** With a country found and no search text, every city of that country
      is offered. */
  lemma {:induction false} CityOfferedWithoutSearch(table: seq<Country>, s: Picker, city: string, lower: string -> string)
    requires lower("") == "" && s.searchCity == "" && Truthy(s.selectedCountry)
    requires CurrentCountry(table, s).Some? && city in CurrentCountry(table, s).value.cities
    ensures Enabled(table, s, SelectCity(city), lower)
  {
    EmptySearchKeepsAll(CurrentCountry(table, s).value.cities, lower);
  }

  /** With France selected and no search, the city list offers Paris. */
  lemma ParisOffered(lower: string -> string)
    requires lower("") == ""
    ensures Enabled(COUNTRIES, Picker(Some("FR"), None, ""), SelectCity("Paris"), lower)
  {
    FranceLookup();
    assert COUNTRIES[5].cities[0] == "Paris";
    CityOfferedWithoutSearch(COUNTRIES, Picker(Some("FR"), None, ""), "Paris", lower);
  }

  /** Selecting France and then Paris is possible from the opening state. */
  lemma PickFranceAndParis(lower: string -> string)
    requires lower("") == ""
    ensures Run(COUNTRIES, INITIAL, [SelectCountry("FR"), SelectCity("Paris")], lower)
         == Some(Picker(Some("FR"), Some("Paris"), ""))
  {
    var s1 := Picker(Some("FR"), None, "");
    var s2 := Picker(Some("FR"), Some("Paris"), "");
    FranceLookup();
    assert Enabled(COUNTRIES, INITIAL, SelectCountry("FR"), lower);
    ParisOffered(lower);
    assert Run(COUNTRIES, s2, [], lower) == Some(s2);
    assert Run(COUNTRIES, s1, [SelectCity("Paris")], lower) == Run(COUNTRIES, s2, [], lower);
    assert [SelectCountry("FR"), SelectCity("Paris")][1..] == [SelectCity("Paris")];
  }

  /** A city or search text that differs from the start's was set by some
      event of the run. */
  lemma {:induction false} RunProvenance(table: seq<Country>, s: Picker, es: seq<UiEvent>, lower: string -> string)
    requires Run(table, s, es, lower).Some?
    ensures var t := Run(table, s, es, lower).value;
      t.selectedCity != s.selectedCity ==> t.selectedCity.Some? && SelectCity(t.selectedCity.value) in es
    ensures var t := Run(table, s, es, lower).value;
      t.searchCity != s.searchCity ==> TypeSearch(t.searchCity) in es
    decreases |es|
  {
    if |es| > 0 {
      RunProvenance(table, Step(s, es[0]).0, es[1..], lower);
      assert forall e :: e in es[1..] ==> e in es;
    }
  }

  /** Running a run and then more events is running the whole sequence. */
  lemma {:induction false} RunAppend(table: seq<Country>, s: Picker, es: seq<UiEvent>, more: seq<UiEvent>, lower: string -> string)
    requires Run(table, s, es, lower).Some?
    ensures Run(table, s, es + more, lower) == Run(table, Run(table, s, es, lower).value, more, lower)
    decreases |es|
  {
    if |es| > 0 {
      assert (es + more)[0] == es[0];
      assert (es + more)[1..] == es[1..] + more;
      RunAppend(table, Step(s, es[0]).0, es[1..], more, lower);
    } else {
      assert es + more == more;
    }
  }

  /** Continue can be on display while its handler does nothing: pick France
      and Paris, then press "Changer"; the city survives the country. */
  lemma ContinueShownButRejected(lower: string -> string)
    requires lower("") == ""
    ensures Run(COUNTRIES, INITIAL, [SelectCountry("FR"), SelectCity("Paris"), ChangeCountry], lower)
         == Some(Picker(None, Some("Paris"), ""))
    ensures ContinueVisible(Picker(None, Some("Paris"), ""))
    ensures HandleContinue(Picker(None, Some("Paris"), "")) == Stay
  {
    FranceParisChange(lower);
  }

  /** France, Paris, "Changer" is a run the screen offers. */
  lemma FranceParisChange(lower: string -> string)
    requires lower("") == ""
    ensures Run(COUNTRIES, INITIAL, [SelectCountry("FR"), SelectCity("Paris"), ChangeCountry], lower)
         == Some(Picker(None, Some("Paris"), ""))
  {
    var first, last := [SelectCountry("FR"), SelectCity("Paris")], [ChangeCountry];
    assert first + last == [SelectCountry("FR"), SelectCity("Paris"), ChangeCountry];
    var s2 := Picker(Some("FR"), Some("Paris"), "");
    PickFranceAndParis(lower);
    ChangeAfterParis(lower);
    RunThen(COUNTRIES, INITIAL, first, s2, last, lower);
  }

  /** A run that reaches t, followed by more events, continues from t. */
  lemma RunThen(table: seq<Country>, s: Picker, es: seq<UiEvent>, t: Picker, more: seq<UiEvent>,
                lower: string -> string)
    requires Run(table, s, es, lower) == Some(t)
    ensures Run(table, s, es + more, lower) == Run(table, t, more, lower)
  {
    RunAppend(table, s, es, more, lower);
  }

  /** With France and Paris selected, "Changer" forgets only the country. */
  lemma ChangeAfterParis(lower: string -> string)
    ensures Run(COUNTRIES, Picker(Some("FR"), Some("Paris"), ""), [ChangeCountry], lower)
         == Some(Picker(None, Some("Paris"), ""))
  {
    var s2 := Picker(Some("FR"), Some("Paris"), "");
    var s3 := Picker(None, Some("Paris"), "");
    assert Run(COUNTRIES, s3, [], lower) == Some(s3);
    assert Enabled(COUNTRIES, s2, ChangeCountry, lower);
    assert Step(s2, ChangeCountry).0 == s3;
    assert [ChangeCountry][1..] == [];
  }

  /** The selected city need not belong to the selected country: after
      France / Paris / "Changer" / Cameroun, Continue navigates home with
      Paris and Cameroun. */
  lemma CityOfAnotherCountry(lower: string -> string)
    requires lower("") == ""
    ensures Run(COUNTRIES, INITIAL,
        [SelectCountry("FR"), SelectCity("Paris"), ChangeCountry, SelectCountry("CM")], lower)
         == Some(Picker(Some("CM"), Some("Paris"), ""))
    ensures CurrentCountry(COUNTRIES, Picker(Some("CM"), Some("Paris"), "")) == Some(COUNTRIES[1])
    ensures "Paris" !in COUNTRIES[1].cities
    ensures HandleContinue(Picker(Some("CM"), Some("Paris"), "")) == Navigate("/")
  {
    FranceParisThenCameroon(lower);
    CameroonLookup();
    ParisInCameroon();
  }

  /** France, Paris, "Changer", Cameroun is a run the screen offers. */
  lemma FranceParisThenCameroon(lower: string -> string)
    requires lower("") == ""
    ensures Run(COUNTRIES, INITIAL,
        [SelectCountry("FR"), SelectCity("Paris"), ChangeCountry, SelectCountry("CM")], lower)
         == Some(Picker(Some("CM"), Some("Paris"), ""))
  {
    var first := [SelectCountry("FR"), SelectCity("Paris"), ChangeCountry];
    var last := [SelectCountry("CM")];
    assert first + last
        == [SelectCountry("FR"), SelectCity("Paris"), ChangeCountry, SelectCountry("CM")];
    FranceParisChange(lower);
    PickCameroon(lower);
    RunThen(COUNTRIES, INITIAL, first, Picker(None, Some("Paris"), ""), last, lower);
  }

  /** Looking up "CM" finds Cameroun. */
  lemma CameroonLookup()
    ensures CurrentCountry(COUNTRIES, Picker(Some("CM"), Some("Paris"), "")) == Some(COUNTRIES[1])
  {
    CountryCodesDistinct();
    FindCountryUnique(COUNTRIES, COUNTRIES[1]);
  }

  /** With no country selected, the list offers Cameroun. */
  lemma CameroonOffered(lower: string -> string)
    ensures Enabled(COUNTRIES, Picker(None, Some("Paris"), ""), SelectCountry("CM"), lower)
  {
    CameroonLookup();
  }

  /** From the country list, Cameroun can be picked; the city is kept. */
  lemma PickCameroon(lower: string -> string)
    ensures Run(COUNTRIES, Picker(None, Some("Paris"), ""), [SelectCountry("CM")], lower)
         == Some(Picker(Some("CM"), Some("Paris"), ""))
  {
    var s3 := Picker(None, Some("Paris"), "");
    var s4 := Picker(Some("CM"), Some("Paris"), "");
    var es := [SelectCountry("CM")];
    CameroonOffered(lower);
    assert Step(s3, es[0]).0 == s4;
    assert es[1..] == [];
    assert Run(COUNTRIES, s3, es, lower) == Run(COUNTRIES, s4, [], lower);
  }

  /** Paris is not a city of Cameroun, yet Continue accepts the pair. */
  lemma ParisInCameroon()
    ensures "Paris" !in COUNTRIES[1].cities
    ensures HandleContinue(Picker(Some("CM"), Some("Paris"), "")) == Navigate("/")
  {
  }
}
