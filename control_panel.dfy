/** The control panel's list editing: toggles, name-group checkboxes, de-duplicated lists, search, sliders. */
module ControlPanel {
  import opened Types
  import opened Seqs
  import opened Store

  /** `current.includes(x) ? current.filter(y => y !== x) : [...current, x]` */
  function Toggle<T(==)>(current: seq<T>, x: T): seq<T> {
    if x in current then Filter(current, y => y != x) else current + [x]
  }

  /** toggleExchange: the setFilters patch it issues. */
  function ToggleExchange(f: FilterState, id: string): FilterPatch {
    EmptyPatch.(selectedExchanges := Some(Toggle(f.selectedExchanges, id)))
  }

  /** toggleCloudProvider: the setFilters patch it issues. */
  function ToggleCloudProvider(f: FilterState, provider: CloudProvider): FilterPatch {
    EmptyPatch.(selectedCloudProviders := Some(Toggle(f.selectedCloudProviders, provider)))
  }

  function Names(servers: seq<ExchangeServer>): seq<string> {
    seq(|servers|, k requires 0 <= k < |servers| => servers[k].name)
  }

  function Providers(servers: seq<ExchangeServer>): seq<CloudProvider> {
    seq(|servers|, k requires 0 <= k < |servers| => servers[k].cloudProvider)
  }

  function Ids(servers: seq<ExchangeServer>): seq<string> {
    seq(|servers|, k requires 0 <= k < |servers| => servers[k].id)
  }

  /** uniqueExchanges: `Array.from(new Set(names))`. */
  function UniqueExchanges(servers: seq<ExchangeServer>): seq<string> {
    Dedup(Names(servers))
  }

  /** uniqueProviders: `Array.from(new Set(providers))`. */
  function UniqueProviders(servers: seq<ExchangeServer>): seq<CloudProvider> {
    Dedup(Providers(servers))
  }

  /** The ids of the servers that carry one display name. */
  function GroupIds(servers: seq<ExchangeServer>, name: string): seq<string> {
    Ids(Filter(servers, (s: ExchangeServer) => s.name == name))
  }

  /** `exchangeIds.every(id => selected.includes(id))`; true for an empty group. */
  predicate AllSelected(ids: seq<string>, selected: seq<string>) {
    forall k :: 0 <= k < |ids| ==> ids[k] in selected
  }

  /** `exchangeIds.some(id => selected.includes(id))`; false for an empty group. */
  predicate SomeSelected(ids: seq<string>, selected: seq<string>) {
    exists k :: 0 <= k < |ids| && ids[k] in selected
  }

  /** The checkbox's indeterminate flag: part of the group is selected. */
  predicate Indeterminate(ids: seq<string>, selected: seq<string>) {
    SomeSelected(ids, selected) && !AllSelected(ids, selected)
  }

  /** The new selection the group checkbox's onChange hands to setFilters. */
  function GroupSelection(selected: seq<string>, ids: seq<string>): seq<string> {
    if AllSelected(ids, selected) then Filter(selected, id => id !in ids)
    else Dedup(selected + ids)
  }

  function GroupChange(f: FilterState, ids: seq<string>): FilterPatch {
    EmptyPatch.(selectedExchanges := Some(GroupSelection(f.selectedExchanges, ids)))
  }

  /** The minimum slider: replaces the threshold, carrying the current maximum over. */
  function MinSlider(f: FilterState, value: int): FilterPatch {
    EmptyPatch.(latencyThreshold := Some(Threshold(value, f.latencyThreshold.max)))
  }

  /** The maximum slider: replaces the threshold, carrying the current minimum over. */
  function MaxSlider(f: FilterState, value: int): FilterPatch {
    EmptyPatch.(latencyThreshold := Some(Threshold(f.latencyThreshold.min, value)))
  }

  /** toLowerCase, on the ASCII letters. */
  function LowerChar(c: char): char {
    if 'A' <= c <= 'Z' then (c as int - 'A' as int + 'a' as int) as char else c
  }

  function Lower(s: string): string {
    seq(|s|, k requires 0 <= k < |s| => LowerChar(s[k]))
  }

  /** String.prototype.includes: q is a prefix of some suffix of s. */
  predicate Includes(s: string, q: string) {
    q <= s || (|s| > 0 && Includes(s[1..], q))
  }

  /** The search test on an already lower-cased query. */
  predicate MatchesQuery(s: ExchangeServer, q: string) {
    Includes(Lower(s.name), q) || Includes(Lower(s.city), q) || Includes(Lower(s.country), q)
  }

  /** filteredExchanges: everything for an empty query, otherwise the servers matching it. */
  function FilteredExchanges(servers: seq<ExchangeServer>, query: string): seq<ExchangeServer> {
    if query == "" then servers
    else
      var q := Lower(query);
      Filter(servers, s => MatchesQuery(s, q))
  }

  /**
   * A present item is removed wherever it occurs, the rest keeping their order and their number of
   * copies; an absent one is appended.
   */
  lemma ToggleSpec<T>(current: seq<T>, x: T)
    ensures x in current ==> x !in Toggle(current, x) && Subsequence(Toggle(current, x), current)
    ensures x in current ==> forall k :: 0 <= k < |current| && current[k] != x ==> current[k] in Toggle(current, x)
    ensures x in current ==> forall k :: 0 <= k < |current| && current[k] != x ==>
              multiset(Toggle(current, x))[current[k]] == multiset(current)[current[k]]
    ensures x !in current ==> Toggle(current, x) == current + [x]
  {
  }

  /** Toggling an absent item twice restores the list. */
  lemma ToggleTwiceRestores<T>(current: seq<T>, x: T)
    requires x !in current
    ensures Toggle(Toggle(current, x), x) == current
  {
    assert x in current + [x];
    FilterAppend(current, [x], y => y != x);
    FilterAllPass(current, y => y != x);
    assert Filter([x], y => y != x) == [];
  }

  /** The toggle handlers change the selection list they own and nothing else in the filters. */
  lemma TogglePatchesTouchOneList(f: FilterState, id: string, provider: CloudProvider)
    ensures Merge(f, ToggleExchange(f, id)) == f.(selectedExchanges := Toggle(f.selectedExchanges, id))
    ensures Merge(f, ToggleCloudProvider(f, provider)) == f.(selectedCloudProviders := Toggle(f.selectedCloudProviders, provider))
  {
  }

  /** uniqueExchanges is duplicate-free, holds exactly the server names, and follows first occurrences. */
  lemma UniqueExchangesSpec(servers: seq<ExchangeServer>)
    ensures NoDup(UniqueExchanges(servers))
    ensures forall k :: 0 <= k < |servers| ==> servers[k].name in UniqueExchanges(servers)
    ensures forall k :: 0 <= k < |UniqueExchanges(servers)| ==> UniqueExchanges(servers)[k] in Names(servers)
    ensures Subsequence(UniqueExchanges(servers), Names(servers))
    ensures forall i, j :: 0 <= i < j < |UniqueExchanges(servers)| ==>
              IndexOf(Names(servers), UniqueExchanges(servers)[i]) < IndexOf(Names(servers), UniqueExchanges(servers)[j])
  {
    assert forall k :: 0 <= k < |servers| ==> Names(servers)[k] == servers[k].name;
    DedupSubsequence(Names(servers));
    DedupFirstOccurrenceOrder(Names(servers));
  }

  /** uniqueProviders behaves the same way on the provider tags. */
  lemma UniqueProvidersSpec(servers: seq<ExchangeServer>)
    ensures NoDup(UniqueProviders(servers))
    ensures forall k :: 0 <= k < |servers| ==> servers[k].cloudProvider in UniqueProviders(servers)
    ensures forall k :: 0 <= k < |UniqueProviders(servers)| ==> UniqueProviders(servers)[k] in Providers(servers)
    ensures Subsequence(UniqueProviders(servers), Providers(servers))
    ensures forall i, j :: 0 <= i < j < |UniqueProviders(servers)| ==>
              IndexOf(Providers(servers), UniqueProviders(servers)[i]) < IndexOf(Providers(servers), UniqueProviders(servers)[j])
  {
    assert forall k :: 0 <= k < |servers| ==> Providers(servers)[k] == servers[k].cloudProvider;
    DedupSubsequence(Providers(servers));
    DedupFirstOccurrenceOrder(Providers(servers));
  }

  /** A group's ids are the ids of the servers with that name, in registry order, and no others. */
  lemma GroupIdsSpec(servers: seq<ExchangeServer>, name: string)
    ensures Subsequence(GroupIds(servers, name), Ids(servers))
    ensures forall k :: 0 <= k < |servers| && servers[k].name == name ==> servers[k].id in GroupIds(servers, name)
    ensures forall k :: 0 <= k < |GroupIds(servers, name)| ==>
              exists m :: 0 <= m < |servers| && servers[m].name == name && servers[m].id == GroupIds(servers, name)[k]
  {
    var g := Filter(servers, (s: ExchangeServer) => s.name == name);
    IdsSubsequence(g, servers);
    forall k | 0 <= k < |servers| && servers[k].name == name
      ensures servers[k].id in GroupIds(servers, name)
    {
      var m :| 0 <= m < |g| && g[m] == servers[k];
      assert GroupIds(servers, name)[m] == servers[k].id;
    }
    forall k | 0 <= k < |GroupIds(servers, name)|
      ensures exists m :: 0 <= m < |servers| && servers[m].name == name && servers[m].id == GroupIds(servers, name)[k]
    {
      assert g[k] in servers;
      var m :| 0 <= m < |servers| && servers[m] == g[k];
    }
  }

  /** Taking the ids of a subsequence gives a subsequence of the ids. */
  lemma {:induction false} IdsSubsequence(r: seq<ExchangeServer>, s: seq<ExchangeServer>)
    requires Subsequence(r, s)
    ensures Subsequence(Ids(r), Ids(s))
    decreases |s|
  {
    if r != [] {
      assert Ids(s)[1..] == Ids(s[1..]);
      if r[0] == s[0] && Subsequence(r[1..], s[1..]) {
        IdsSubsequence(r[1..], s[1..]);
        assert Ids(r)[1..] == Ids(r[1..]);
      } else {
        IdsSubsequence(r, s[1..]);
      }
    }
  }

  /** For a non-empty group, all selected implies some selected; the empty group is "all" but not "some". */
  lemma AllSelectedImpliesSome(ids: seq<string>, selected: seq<string>)
    ensures |ids| > 0 && AllSelected(ids, selected) ==> SomeSelected(ids, selected)
    ensures AllSelected([], selected) && !SomeSelected([], selected)
  {
    if |ids| > 0 && AllSelected(ids, selected) {
      assert ids[0] in selected;
    }
  }

  /** An indeterminate checkbox belongs to a group with at least two ids. */
  lemma IndeterminateNeedsTwo(ids: seq<string>, selected: seq<string>)
    requires Indeterminate(ids, selected)
    ensures |ids| >= 2
  {
    var i :| 0 <= i < |ids| && ids[i] in selected;
    var j :| 0 <= j < |ids| && ids[j] !in selected;
    assert i != j;
  }

  /** A fully selected group is removed: no group id stays, every other id stays with all its copies, in its order. */
  lemma GroupDeselect(selected: seq<string>, ids: seq<string>)
    requires AllSelected(ids, selected)
    ensures forall k :: 0 <= k < |GroupSelection(selected, ids)| ==>
              GroupSelection(selected, ids)[k] !in ids && GroupSelection(selected, ids)[k] in selected
    ensures forall k :: 0 <= k < |selected| && selected[k] !in ids ==> selected[k] in GroupSelection(selected, ids)
    ensures forall k :: 0 <= k < |selected| && selected[k] !in ids ==>
              multiset(GroupSelection(selected, ids))[selected[k]] == multiset(selected)[selected[k]]
    ensures Subsequence(GroupSelection(selected, ids), selected)
  {
  }

  /**
   * Otherwise the group is added: the result is duplicate-free and contains every prior id and
   * every group id and nothing else.
   */
  lemma GroupSelect(selected: seq<string>, ids: seq<string>)
    requires !AllSelected(ids, selected)
    ensures NoDup(GroupSelection(selected, ids))
    ensures forall k :: 0 <= k < |selected| ==> selected[k] in GroupSelection(selected, ids)
    ensures forall k :: 0 <= k < |ids| ==> ids[k] in GroupSelection(selected, ids)
    ensures forall k :: 0 <= k < |GroupSelection(selected, ids)| ==>
              GroupSelection(selected, ids)[k] in selected || GroupSelection(selected, ids)[k] in ids
  {
    var all := selected + ids;
    var r := Dedup(all);
    assert forall k :: 0 <= k < |selected| ==> all[k] == selected[k];
    assert forall k :: 0 <= k < |ids| ==> all[|selected| + k] == ids[k];
    assert forall k :: 0 <= k < |r| ==> r[k] in all;
  }

  /**
   * The added ids are listed by first occurrence in the prior selection followed by the group, and
   * a duplicate-free prior selection is kept unchanged as the head of the result.
   */
  lemma GroupSelectOrder(selected: seq<string>, ids: seq<string>)
    requires !AllSelected(ids, selected)
    ensures forall i, j :: 0 <= i < j < |GroupSelection(selected, ids)| ==>
              IndexOf(selected + ids, GroupSelection(selected, ids)[i]) < IndexOf(selected + ids, GroupSelection(selected, ids)[j])
    ensures NoDup(selected) ==>
              |selected| <= |GroupSelection(selected, ids)| && GroupSelection(selected, ids)[..|selected|] == selected
  {
    DedupFirstOccurrenceOrder(selected + ids);
    DedupPrefix(selected, ids);
    if NoDup(selected) {
      DedupNoDup(selected);
    }
  }

  /** The group checkbox's patch changes the exchange selection and nothing else in the filters. */
  lemma GroupChangeTouchesSelection(f: FilterState, ids: seq<string>)
    ensures Merge(f, GroupChange(f, ids)) == f.(selectedExchanges := GroupSelection(f.selectedExchanges, ids))
    ensures AllSelected(ids, f.selectedExchanges) ==>
              forall k :: 0 <= k < |ids| ==> ids[k] !in Merge(f, GroupChange(f, ids)).selectedExchanges
    ensures !AllSelected(ids, f.selectedExchanges) ==>
              AllSelected(ids, Merge(f, GroupChange(f, ids)).selectedExchanges)
  {
    if !AllSelected(ids, f.selectedExchanges) {
      GroupSelect(f.selectedExchanges, ids);
    } else {
      GroupDeselect(f.selectedExchanges, ids);
    }
  }

  /** The sliders change one bound and keep the other, so min > max is reachable: the store does not clamp. */
  lemma SlidersSetOneBound(f: FilterState, value: int)
    ensures Merge(f, MinSlider(f, value)) == f.(latencyThreshold := Threshold(value, f.latencyThreshold.max))
    ensures Merge(f, MaxSlider(f, value)) == f.(latencyThreshold := Threshold(f.latencyThreshold.min, value))
    ensures Merge(DefaultFilters(), MaxSlider(DefaultFilters(), 0)).latencyThreshold == Threshold(0, 0)
    ensures var g := Merge(DefaultFilters(), MinSlider(DefaultFilters(), 300));
            Merge(g, MaxSlider(g, 100)).latencyThreshold == Threshold(300, 100)
  {
  }

  /** Lower-casing keeps the length, maps exactly the letters A-Z to a-z, and is idempotent. */
  lemma LowerSpec(s: string)
    ensures |Lower(s)| == |s|
    ensures forall k :: 0 <= k < |s| ==>
              (if 'A' <= s[k] <= 'Z' then Lower(s)[k] as int == s[k] as int + 32 else Lower(s)[k] == s[k])
    ensures forall k :: 0 <= k < |s| ==> !('A' <= Lower(s)[k] <= 'Z')
    ensures Lower(Lower(s)) == Lower(s)
  {
  }

  /** Includes holds exactly when q occurs in s at some offset. */
  lemma {:induction false} IncludesAt(s: string, q: string, k: nat)
    requires k + |q| <= |s| && s[k..k + |q|] == q
    ensures Includes(s, q)
    decreases k
  {
    if k == 0 {
      assert q == s[..|q|];
    } else {
      assert s[1..][k - 1..k - 1 + |q|] == s[k..k + |q|];
      IncludesAt(s[1..], q, k - 1);
    }
  }

  /** The offset at which an included string occurs. */
  ghost function Offset(s: string, q: string): (k: nat)
    requires Includes(s, q)
    ensures k + |q| <= |s| && s[k..k + |q|] == q
    decreases |s|
  {
    if q <= s then 0
    else
      var k := Offset(s[1..], q);
      assert s[1..][k..k + |q|] == s[k + 1..k + 1 + |q|];
      k + 1
  }

  /** Every string includes the empty string, and every string includes itself. */
  lemma IncludesEmptyAndSelf(s: string)
    ensures Includes(s, "")
    ensures Includes(s, s)
  {
  }

  /**
   * An empty query returns every server; any other query returns, in registry order, exactly the
   * servers whose lower-cased name, city or country includes the lower-cased query.
   */
  lemma SearchSpec(servers: seq<ExchangeServer>, query: string)
    ensures query == "" ==> FilteredExchanges(servers, query) == servers
    ensures Subsequence(FilteredExchanges(servers, query), servers)
    ensures query != "" ==> forall k :: 0 <= k < |servers| ==>
              (servers[k] in FilteredExchanges(servers, query) <==> MatchesQuery(servers[k], Lower(query)))
  {
    if query == "" {
      SubsequenceReflexive(servers);
    } else {
      var r := FilteredExchanges(servers, query);
      forall k | 0 <= k < |servers| && servers[k] in r
        ensures MatchesQuery(servers[k], Lower(query))
      {
        var m :| 0 <= m < |r| && r[m] == servers[k];
      }
    }
  }

  /** The empty-query shortcut agrees with what the filter would have returned. */
  lemma EmptyQueryShortcutAgrees(servers: seq<ExchangeServer>)
    ensures Filter(servers, s => MatchesQuery(s, Lower(""))) == servers
  {
    forall s | s in servers
      ensures MatchesQuery(s, Lower(""))
    {
      IncludesEmptyAndSelf(Lower(s.name));
    }
    FilterAllPass(servers, s => MatchesQuery(s, Lower("")));
  }

  lemma {:induction false} SubsequenceReflexive<T>(s: seq<T>)
    ensures Subsequence(s, s)
    decreases |s|
  {
    if s != [] {
      SubsequenceReflexive(s[1..]);
    }
  }
}
