/** The catalogue selection dialog: its search state machine, the results
    panel and the candidates it offers. */
module CatalogueSearch {
  import opened Common
  import Confidence

  /** A search hit: a catalogue product with its relevance score in [0, 1]. */
  datatype CatalogueItem = CatalogueItem(
    id: string, description: string, manufacturer: string, code: string, unit: string,
    price: real, assembly: real, score: real, info: string)

  /** The ten candidates every search returns. */
  function MockResults(): seq<CatalogueItem> {
    [ CatalogueItem("101", "Klimatizace nástěnná 3.5kW Set", "Daikin", "DAIK-35", "ks", 12500.0, 2500.0, 0.95, "R32, A++/A+, WiFi ready, 21dB"),
      CatalogueItem("102", "Klimatizace nástěnná 3.5kW Vnitřní", "Toshiba", "TOS-35-IN", "ks", 8900.0, 1500.0, 0.82, "R32, A++, Inverter, 10m max pipe"),
      CatalogueItem("103", "Klimatizace nástěnná 2.5kW Set", "LG", "LG-25", "ks", 11000.0, 2200.0, 0.76, "R32, A++/A+, Plasmaster Ionizer"),
      CatalogueItem("104", "Montážní sada pro klimatizace", "Generic", "MNT-SET", "kpl", 1500.0, 0.0, 0.45, "Wall brackets 450mm, 4x bolts, anti-vibration"),
      CatalogueItem("105", "Klimatizace Samsung WindFree 3.5kW", "Samsung", "SAM-WF-35", "ks", 13200.0, 2500.0, 0.72, "WindFree cooling, AI Auto Comfort, R32"),
      CatalogueItem("106", "Panasonic Etherea 3.5kW Set", "Panasonic", "PAN-ETH-35", "ks", 14500.0, 2500.0, 0.68, "Nanoe X, Built-in WiFi, A+++/A++"),
      CatalogueItem("107", "Mitsubishi MSZ-LN 3.5kW", "Mitsubishi", "MIT-LN-35", "ks", 16800.0, 2800.0, 0.65, "3D i-see sensor, Dual Barrier Coating, R32"),
      CatalogueItem("108", "Sinclair Terrel 3.5kW", "Sinclair", "SIN-TER-35", "ks", 9500.0, 2200.0, 0.60, "Plasma tec, Heater, I FEEL function"),
      CatalogueItem("109", "Gree Fairy 3.5kW Set", "Gree", "GREE-FAI-35", "ks", 9200.0, 2200.0, 0.55, "Cold plasma, Heated chassis, -22°C operation"),
      CatalogueItem("110", "Aux Freedom 3.5kW", "Aux", "AUX-FRE-35", "ks", 8500.0, 2000.0, 0.50, "Self-cleaning, 4D airflow, 0.5W standby") ]
  }

  /** Every mock candidate has a score in [0, 1] and non-negative prices. */
  lemma MockResultsWellFormed()
    ensures |MockResults()| == 10
    ensures forall i :: 0 <= i < |MockResults()| ==>
      0.0 <= MockResults()[i].score <= 1.0 && MockResults()[i].price >= 0.0 && MockResults()[i].assembly >= 0.0
  {
  }

  /** What the results table body shows. */
  datatype ResultsPanel = Searching | NoResults | NotSearched | ResultList(items: seq<CatalogueItem>)

  /** The four-way choice of the results table; a search in flight wins. */
  function PanelOf(isSearching: bool, hasSearched: bool, results: seq<CatalogueItem>): (p: ResultsPanel)
    ensures p == Searching <==> isSearching
    ensures p == NoResults <==> !isSearching && hasSearched && results == []
    ensures p == NotSearched <==> !isSearching && !hasSearched
    ensures p.ResultList? <==> !isSearching && hasSearched && results != []
    ensures p.ResultList? ==> p.items == results
  {
    if isSearching then Searching
    else if hasSearched && |results| == 0 then NoResults
    else if !hasSearched then NotSearched
    else ResultList(results)
  }

  /** One row of the result list: its band, percentage and the item it selects. */
  datatype ResultBadge = ResultBadge(band: Confidence.Band, percent: int)

  function BadgeOf(item: CatalogueItem): (b: ResultBadge)
    ensures 0.0 <= item.score <= 1.0 ==> 0 <= b.percent <= 100
    ensures b.band == Confidence.Green <==> item.score >= 0.8
    ensures b.band == Confidence.Yellow <==> 0.7 <= item.score < 0.8
    ensures b.band == Confidence.Red <==> item.score < 0.7
    ensures b.percent == Confidence.Round(item.score * 100.0)
  {
    ResultBadge(Confidence.BandOf(item.score), Confidence.PercentLabel(item.score))
  }

  /** Every candidate's badge reads a percentage between 0 and 100. */
  lemma CandidateBadgesInRange()
    ensures forall i :: 0 <= i < |MockResults()| ==> 0 <= BadgeOf(MockResults()[i]).percent <= 100
  {
    MockResultsWellFormed();
  }


  /** The search dialog's own state. `pendingSearches` counts search timers
      scheduled and not yet fired. */
  class CatalogueDialog {
    var searchTerm: string
    var isSearching: bool
    var results: seq<CatalogueItem>
    var hasSearched: bool
    var pendingSearches: nat

    /** A search is in flight whenever the spinner shows, and results are
        only ever nothing or the full candidate list. */
    ghost predicate Valid()
      reads this
    {
      (isSearching ==> pendingSearches > 0) &&
      (results == [] || results == MockResults()) &&
      (!hasSearched ==> results == [])
    }

    constructor()
      ensures Valid()
      ensures searchTerm == "" && !isSearching && results == [] && !hasSearched && pendingSearches == 0
    {
      searchTerm := "";
      isSearching := false;
      results := [];
      hasSearched := false;
      pendingSearches := 0;
    }

    /** The effect on `isOpen` and `currentItem`. `currentDescription` is the
        description of the row being replaced, when there is one. */
    method Open(isOpen: bool, currentDescription: Option<string>)
      requires Valid()
      modifies this
      ensures Valid()
      ensures isOpen && currentDescription.Some? ==> searchTerm == currentDescription.value
      ensures !(isOpen && currentDescription.Some?) ==> searchTerm == old(searchTerm)
      ensures isOpen ==> results == MockResults() && hasSearched
      ensures !isOpen ==> results == old(results) && hasSearched == old(hasSearched)
      ensures isSearching == old(isSearching) && pendingSearches == old(pendingSearches)
    {
      if isOpen {
        if currentDescription.Some? {
          searchTerm := currentDescription.value;
        }
        results := MockResults();
        hasSearched := true;
      }
    }

    /** Typing in the search box. */
    method SetSearchTerm(term: string)
      requires Valid()
      modifies this
      ensures Valid()
      ensures searchTerm == term
      ensures isSearching == old(isSearching) && results == old(results)
      ensures hasSearched == old(hasSearched) && pendingSearches == old(pendingSearches)
    {
      searchTerm := term;
    }

    /** The Search button is clickable only while no search is in flight. */
    predicate SearchButtonEnabled()
      reads this
    {
      !isSearching
    }

    /** `handleSearch`, reached from the button or the Enter key: the
        spinner appears and the old results are cleared. */
    method StartSearch()
      requires Valid()
      modifies this
      ensures Valid()
      ensures isSearching && results == [] && pendingSearches == old(pendingSearches) + 1
      ensures !SearchButtonEnabled() && Panel() == Searching && MatchCount() == None
      ensures hasSearched == old(hasSearched) && searchTerm == old(searchTerm)
    {
      isSearching := true;
      results := [];
      pendingSearches := pendingSearches + 1;
    }

    /** The search timer fires. */
    method CompleteSearch()
      requires Valid() && pendingSearches > 0
      modifies this
      ensures Valid()
      ensures results == MockResults() && !isSearching && hasSearched
      ensures SearchButtonEnabled() && Panel() == ResultList(MockResults()) && MatchCount() == Some(|MockResults()|)
      ensures pendingSearches == old(pendingSearches) - 1 && searchTerm == old(searchTerm)
    {
      results := MockResults();
      isSearching := false;
      hasSearched := true;
      pendingSearches := pendingSearches - 1;
    }

    function Panel(): (p: ResultsPanel)
      reads this
      requires Valid()
      ensures p == NotSearched ==> results == []
    {
      PanelOf(isSearching, hasSearched, results)
    }

    /** The "N matches found" count agrees with the panel below it: no count
        while the spinner or the prompt shows, a count of 0 exactly with "no
        results", and otherwise the length of the list on show. */
    function MatchCount(): (n: Option<nat>)
      reads this
      ensures n.None? <==> PanelOf(isSearching, hasSearched, results) in {Searching, NotSearched}
      ensures n == Some(0) <==> PanelOf(isSearching, hasSearched, results) == NoResults
      ensures PanelOf(isSearching, hasSearched, results).ResultList? <==> n.Some? && n.value > 0
      ensures PanelOf(isSearching, hasSearched, results).ResultList? ==>
        n.value == |PanelOf(isSearching, hasSearched, results).items|
    {
      if hasSearched && !isSearching then Some(|results|) else None
    }
  }

  /** Opening on a row and searching again ends with the full list on show,
      the term taken from the row and the count matching the list. */
  method OpenAndSearch(description: string) returns (panel: ResultsPanel, count: Option<nat>)
    ensures panel == ResultList(MockResults())
    ensures count == Some(10)
  {
    var dialog := new CatalogueDialog();
    dialog.Open(true, Some(description));
    assert dialog.searchTerm == description;
    dialog.StartSearch();
    assert dialog.Panel() == Searching && dialog.MatchCount() == None;
    assert !dialog.SearchButtonEnabled();
    dialog.CompleteSearch();
    panel := dialog.Panel();
    count := dialog.MatchCount();
  }
}
