/**
 * The sample-selection page of src/pages/DatabaseSelection.tsx: the simulated database
 * connection, the search and filter over the available samples, and the list of selected
 * samples that the page's buttons replace.
 */
module DatabaseSelection {
  import opened PipelineTypes
  import opened Strings

  /** A deep-sea sample (src/types/index.ts). */
  datatype Sample = Sample(
    id: string,
    location: string,
    coordinates: (real, real),
    depth: string,
    temperature: string,
    collectionDate: string,
    platform: string,
    readCount: int,
    fileSize: string,
    environmentType: string,
    selected: Option<bool>)

  /** The connection status; `Failed` is the source's `'error'` status (src/types/index.ts:88). */
  datatype ConnectionStatus = Disconnected | Connecting | Connected | Failed

  /** The connection state; `lastUpdated` is the clock reading taken when it connected. */
  datatype Connection = Connection(status: ConnectionStatus, availableSamples: seq<Sample>, lastUpdated: Option<int>)

  /** The samples the simulated database serves (src/data/mockData.ts). */
  const MockSamples: seq<Sample> := [
    Sample("SRR15847291", "Mariana Trench, Pacific Ocean", (11.373, 142.591), "10,994m", "1.2°C",
           "2024-03-15", "Illumina NovaSeq 6000", 2450000, "1.2 GB", "Hadal Zone", None)]

  // ---------------------------------------------------------------------------
  // Filtering

  /** The lower-cased search occurs in the lower-cased location or id. */
  predicate MatchesSearch(sample: Sample, searchTerm: string) {
    Contains(ToLower(sample.location), ToLower(searchTerm)) || Contains(ToLower(sample.id), ToLower(searchTerm))
  }

  predicate MatchesDepth(sample: Sample, depthFilter: string) {
    depthFilter == "all"
    || (depthFilter == "hadal" && sample.environmentType == "Hadal Zone")
    || (depthFilter == "abyssal" && sample.environmentType == "Abyssal Plain")
    || (depthFilter == "bathyal" && sample.environmentType == "Bathyal Zone")
  }

  predicate MatchesEnvironment(sample: Sample, environmentFilter: string) {
    environmentFilter == "all" || sample.environmentType == environmentFilter
  }

  predicate Keep(sample: Sample, searchTerm: string, depthFilter: string, environmentFilter: string) {
    MatchesSearch(sample, searchTerm) && MatchesDepth(sample, depthFilter) && MatchesEnvironment(sample, environmentFilter)
  }

  /** `a` is `b` with some elements left out, the rest in their order. */
  predicate IsSubsequence<T(==)>(a: seq<T>, b: seq<T>)
    decreases |b|
  {
    if a == [] then true
    else if b == [] then false
    else (a[0] == b[0] && IsSubsequence(a[1..], b[1..])) || IsSubsequence(a, b[1..])
  }

  /**
   * `filteredSamples`: the samples that pass the search and both filters, as an order-preserving
   * subsequence of the available ones, keeping a sample exactly when it passes.
   */
  function FilterSamples(samples: seq<Sample>, searchTerm: string, depthFilter: string, environmentFilter: string)
    : (r: seq<Sample>)
    ensures IsSubsequence(r, samples)
    ensures forall x :: x in r <==> x in samples && Keep(x, searchTerm, depthFilter, environmentFilter)
    ensures forall x :: multiset(r)[x] == if Keep(x, searchTerm, depthFilter, environmentFilter) then multiset(samples)[x] else 0
  {
    assert samples != [] ==> samples == [samples[0]] + samples[1..];
    if samples == [] then []
    else
      var rest := FilterSamples(samples[1..], searchTerm, depthFilter, environmentFilter);
      if Keep(samples[0], searchTerm, depthFilter, environmentFilter) then
        assert ([samples[0]] + rest)[1..] == rest;
        [samples[0]] + rest
      else rest
  }

  /** With no search text and both filters at `all`, nothing is filtered out. */
  lemma {:induction false} FilterKeepsAllByDefault(samples: seq<Sample>)
    ensures FilterSamples(samples, "", "all", "all") == samples
  {
    if samples != [] {
      ContainsEmpty(ToLower(samples[0].location));
      FilterKeepsAllByDefault(samples[1..]);
    }
  }

  /**
   * `all` keeps every sample, each zone filter keeps exactly the samples of its zone, and a
   * value the code does not know keeps nothing.
   */
  lemma DepthFilterZones(sample: Sample, depthFilter: string)
    ensures MatchesDepth(sample, "all")
    ensures MatchesDepth(sample, "hadal") <==> sample.environmentType == "Hadal Zone"
    ensures MatchesDepth(sample, "abyssal") <==> sample.environmentType == "Abyssal Plain"
    ensures MatchesDepth(sample, "bathyal") <==> sample.environmentType == "Bathyal Zone"
    ensures depthFilter !in {"all", "hadal", "abyssal", "bathyal"} ==> !MatchesDepth(sample, depthFilter)
  {
  }

  // ---------------------------------------------------------------------------
  // The selection list

  /** `prev.find(s => s.id === id)` found something. */
  predicate HasId(selection: seq<Sample>, id: string) {
    exists i :: 0 <= i < |selection| && selection[i].id == id
  }

  /** `prev.filter(s => s.id !== id)`: every entry with that id removed, the others kept in order. */
  function WithoutId(selection: seq<Sample>, id: string): (r: seq<Sample>)
    ensures IsSubsequence(r, selection)
    ensures forall x :: x in r <==> x in selection && x.id != id
    ensures forall x :: multiset(r)[x] == if x.id != id then multiset(selection)[x] else 0
  {
    assert selection != [] ==> selection == [selection[0]] + selection[1..];
    if selection == [] then []
    else
      var rest := WithoutId(selection[1..], id);
      if selection[0].id != id then
        assert ([selection[0]] + rest)[1..] == rest;
        [selection[0]] + rest
      else rest
  }

  /** `toggleSampleSelection`. */
  function Toggle(selection: seq<Sample>, sample: Sample): seq<Sample> {
    if HasId(selection, sample.id) then WithoutId(selection, sample.id) else selection + [sample]
  }

  /**
   * Toggling a selected id removes every entry with that id and keeps the rest; toggling an
   * unselected sample appends it at the end.
   */
  lemma ToggleEffect(selection: seq<Sample>, sample: Sample)
    ensures HasId(selection, sample.id) ==>
      !HasId(Toggle(selection, sample), sample.id)
      && IsSubsequence(Toggle(selection, sample), selection)
      && forall x: Sample :: x.id != sample.id ==> multiset(Toggle(selection, sample))[x] == multiset(selection)[x]
    ensures !HasId(selection, sample.id) ==>
      Toggle(selection, sample) == selection + [sample] && HasId(Toggle(selection, sample), sample.id)
  {
    var t := Toggle(selection, sample);
    if HasId(selection, sample.id) {
      forall i | 0 <= i < |t| ensures t[i].id != sample.id {
        assert t[i] in t;
      }
    } else {
      assert t[|selection|] == sample;
    }
  }

  lemma {:induction false} WithoutAbsentId(selection: seq<Sample>, id: string)
    requires !HasId(selection, id)
    ensures WithoutId(selection, id) == selection
  {
    if selection != [] {
      assert selection[0].id != id;
      forall i | 0 <= i < |selection[1..]| ensures selection[1..][i].id != id {
        assert selection[1..][i] == selection[i + 1];
      }
      WithoutAbsentId(selection[1..], id);
    }
  }

  lemma {:induction false} WithoutIdAppend(a: seq<Sample>, b: seq<Sample>, id: string)
    ensures WithoutId(a + b, id) == WithoutId(a, id) + WithoutId(b, id)
  {
    if a != [] {
      var ab := a + b;
      assert ab[0] == a[0] && ab[1..] == a[1..] + b;
      WithoutIdAppend(a[1..], b, id);
      if a[0].id != id {
        assert WithoutId(ab, id) == [a[0]] + WithoutId(ab[1..], id);
        assert WithoutId(a, id) == [a[0]] + WithoutId(a[1..], id);
      } else {
        assert WithoutId(ab, id) == WithoutId(ab[1..], id);
        assert WithoutId(a, id) == WithoutId(a[1..], id);
      }
    } else {
      assert a + b == b;
    }
  }

  /** Toggling a sample that is not selected twice gives back the original selection. */
  lemma ToggleTwiceRestores(selection: seq<Sample>, sample: Sample)
    requires !HasId(selection, sample.id)
    ensures Toggle(Toggle(selection, sample), sample) == selection
  {
    var once := selection + [sample];
    assert Toggle(selection, sample) == once;
    assert once[|selection|].id == sample.id;
    WithoutIdAppend(selection, [sample], sample.id);
    WithoutAbsentId(selection, sample.id);
    assert WithoutId([sample], sample.id) == [];
  }

  /** The visible samples whose id the selection does not hold yet, in their order. */
  function NewSelections(visible: seq<Sample>, selection: seq<Sample>): (r: seq<Sample>)
    ensures IsSubsequence(r, visible)
    ensures forall x :: x in r <==> x in visible && !HasId(selection, x.id)
    ensures forall x :: multiset(r)[x] == if !HasId(selection, x.id) then multiset(visible)[x] else 0
  {
    assert visible != [] ==> visible == [visible[0]] + visible[1..];
    if visible == [] then []
    else
      var rest := NewSelections(visible[1..], selection);
      if !HasId(selection, visible[0].id) then
        assert ([visible[0]] + rest)[1..] == rest;
        [visible[0]] + rest
      else rest
  }

  /** `selectAllVisible`: the old selection followed by the visible samples it does not hold yet. */
  function SelectAllVisible(selection: seq<Sample>, visible: seq<Sample>): seq<Sample> {
    selection + NewSelections(visible, selection)
  }

  /**
   * The old selection is an unchanged prefix, every visible id is selected afterwards, and the
   * appended part is the visible samples not yet selected, in visible order, every copy kept.
   */
  lemma SelectAllVisibleEffect(selection: seq<Sample>, visible: seq<Sample>)
    ensures var r := SelectAllVisible(selection, visible);
      && r[..|selection|] == selection
      && (forall v :: v in visible ==> HasId(r, v.id))
      && IsSubsequence(r[|selection|..], visible)
      && (forall x :: multiset(r[|selection|..])[x] == if !HasId(selection, x.id) then multiset(visible)[x] else 0)
  {
    var r := SelectAllVisible(selection, visible);
    assert r[|selection|..] == NewSelections(visible, selection);
    forall v | v in visible ensures HasId(r, v.id) {
      if HasId(selection, v.id) {
        var i :| 0 <= i < |selection| && selection[i].id == v.id;
        assert r[i] == selection[i];
      } else {
        var added := NewSelections(visible, selection);
        assert v in added;
        var k :| 0 <= k < |added| && added[k] == v;
        assert r[|selection| + k] == v;
      }
    }
  }

  // ---------------------------------------------------------------------------
  // The page

  class DatabaseSelectionPage {
    var connection: Connection
    var selectedSamples: seq<Sample>
    var searchTerm: string
    var depthFilter: string
    var environmentFilter: string

    constructor()
      ensures connection == Connection(Disconnected, [], None)
      ensures selectedSamples == [] && searchTerm == "" && depthFilter == "all" && environmentFilter == "all"
    {
      connection := Connection(Disconnected, [], None);
      selectedSamples := [];
      searchTerm, depthFilter, environmentFilter := "", "all", "all";
    }

    function FilteredSamples(): seq<Sample>
      reads this
    {
      FilterSamples(connection.availableSamples, searchTerm, depthFilter, environmentFilter)
    }

    /** The first half of `connectToDatabase`: the status becomes `connecting`, the samples stay. */
    method BeginConnect()
      modifies this
      ensures connection == old(connection).(status := Connecting)
      ensures selectedSamples == old(selectedSamples) && searchTerm == old(searchTerm)
      ensures depthFilter == old(depthFilter) && environmentFilter == old(environmentFilter)
    {
      connection := connection.(status := Connecting);
    }

    /** The second half, once the simulated delay is over: connected, serving the mock samples. */
    method CompleteConnect(now: int)
      modifies this
      ensures connection == Connection(Connected, MockSamples, Some(now))
      ensures selectedSamples == old(selectedSamples) && searchTerm == old(searchTerm)
      ensures depthFilter == old(depthFilter) && environmentFilter == old(environmentFilter)
    {
      connection := Connection(Connected, MockSamples, Some(now));
    }

    method SetSearchTerm(term: string)
      modifies this`searchTerm
      ensures searchTerm == term
    {
      searchTerm := term;
    }

    method SetDepthFilter(filter: string)
      modifies this`depthFilter
      ensures depthFilter == filter
    {
      depthFilter := filter;
    }

    method SetEnvironmentFilter(filter: string)
      modifies this`environmentFilter
      ensures environmentFilter == filter
    {
      environmentFilter := filter;
    }

    method ToggleSampleSelection(sample: Sample)
      modifies this`selectedSamples
      ensures selectedSamples == Toggle(old(selectedSamples), sample)
    {
      var found := HasId(selectedSamples, sample.id);
      if found {
        selectedSamples := WithoutId(selectedSamples, sample.id);
      } else {
        selectedSamples := selectedSamples + [sample];
      }
    }

    method SelectAllVisibleSamples()
      modifies this`selectedSamples
      ensures selectedSamples == SelectAllVisible(old(selectedSamples), old(FilteredSamples()))
    {
      var newSelections := NewSelections(FilteredSamples(), selectedSamples);
      selectedSamples := selectedSamples + newSelections;
    }

    method ClearSelection()
      modifies this`selectedSamples
      ensures selectedSamples == []
    {
      selectedSamples := [];
    }

    /** `startAnalysis`: hands the selection to storage only when it is not empty. */
    method StartAnalysis() returns (stored: Option<seq<Sample>>)
      ensures stored.Some? <==> |selectedSamples| > 0
      ensures stored.Some? ==> stored.value == selectedSamples
    {
      if |selectedSamples| > 0 {
        stored := Some(selectedSamples);
      } else {
        stored := None;
      }
    }
  }

  /** The connection of a fresh page goes disconnected, connecting, connected with the mock samples. */
  method ConnectionSequence(now: int) returns (seen: seq<ConnectionStatus>, samples: seq<Sample>)
    ensures seen == [Disconnected, Connecting, Connected] && samples == MockSamples
  {
    var page := new DatabaseSelectionPage();
    seen := [page.connection.status];
    page.BeginConnect();
    seen := seen + [page.connection.status];
    page.CompleteConnect(now);
    seen := seen + [page.connection.status];
    samples := page.connection.availableSamples;
  }
}
