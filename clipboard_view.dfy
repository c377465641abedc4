/**
 * The list logic of the history window (Buffer/Views/ClipboardView.swift):
 * the search and type filters, the grouping into a pinned section and date
 * sections, the filter chips' string keys and the empty-state message.
 *
 * Unicode lower-casing is the `lower` parameter. `DateSection` and an item's
 * `dateSection` are not part of this model: a section is any type `S`, its
 * `allCases` the sequence `allCases`, and an item's section `sectionOf(item)`.
 */
module ClipboardView {
  import opened Wrappers
  import opened Seqs
  import opened ClipboardItems
  import opened History
  import opened Localization

  /** `ClipboardFilter`, the chips above the list. */
  datatype ClipboardFilter = AllItems | TextItems | ImageItems | FileItems | UrlItems | PinnedItems {

    /** `localizedKey`: the translation key of the chip's title. */
    function LocalizedKey(): (r: string)
      ensures r in EnglishTable
    {
      match this
      case AllItems => "filter.all"
      case TextItems => "filter.text"
      case ImageItems => "filter.images"
      case FileItems => "filter.files"
      case UrlItems => "filter.urls"
      case PinnedItems => "filter.pinned"
    }

    /** Whether the filter's `switch` arm keeps `it`. */
    predicate Accepts(it: Item) {
      match this
      case AllItems => true
      case TextItems => it.kind == Text
      case ImageItems => it.kind == Image
      case FileItems => it.kind == File
      case UrlItems => it.kind == Url
      case PinnedItems => it.isPinned
    }
  }

  /** Different chips have different keys. */
  lemma LocalizedKeyInjective(f: ClipboardFilter, g: ClipboardFilter)
    ensures f.LocalizedKey() == g.LocalizedKey() ==> f == g
  {
  }

  // ---------------------------------------------------------------- filtering

  /** Whether `it` is shown for the search text: always when it is empty, else by case-insensitive substring. */
  predicate SearchHit(search: string, lower: string -> string, it: Item) {
    search == [] || Contains(lower(it.content), lower(search))
  }

  function MatchesSearch(search: string, lower: string -> string): Item -> bool {
    (it: Item) => Contains(lower(it.content), lower(search))
  }

  /** The search stage of `filteredItems`. */
  function SearchFiltered(items: seq<Item>, search: string, lower: string -> string): seq<Item> {
    if search == [] then items else Filter(items, MatchesSearch(search, lower))
  }

  function Keeps(filter: ClipboardFilter): Item -> bool {
    (it: Item) => filter.Accepts(it)
  }

  /** `filteredItems`: the search stage, then the type stage. */
  function FilteredItems(items: seq<Item>, search: string, filter: ClipboardFilter, lower: string -> string): (r: seq<Item>)
    ensures |r| <= |items|
    ensures search == [] && filter == AllItems ==> r == items
  {
    var searched := SearchFiltered(items, search, lower);
    match filter
    case AllItems => searched
    case _ => Filter(searched, Keeps(filter))
  }

  /** Whether an item is in the filtered list, as one test. */
  function Shown(search: string, filter: ClipboardFilter, lower: string -> string): Item -> bool {
    (it: Item) => SearchHit(search, lower, it) && filter.Accepts(it)
  }

  /** An empty search leaves the list alone; otherwise exactly the hits are kept. */
  lemma SearchExact(items: seq<Item>, search: string, lower: string -> string)
    ensures search == [] ==> SearchFiltered(items, search, lower) == items
    ensures forall it :: it in SearchFiltered(items, search, lower) <==> it in items && SearchHit(search, lower, it)
  {
    if search != [] {
      FilterMembers(items, MatchesSearch(search, lower));
    }
  }

  /** The two stages together are one order-preserving filter by `Shown`. */
  lemma FilteredItemsIsFilter(items: seq<Item>, search: string, filter: ClipboardFilter, lower: string -> string)
    ensures FilteredItems(items, search, filter, lower) == Filter(items, Shown(search, filter, lower))
  {
    var shown := Shown(search, filter, lower);
    if search == [] {
      if filter == AllItems {
        FilterAll(items, shown);
      } else {
        FilterExt(items, Keeps(filter), shown);
      }
    } else {
      if filter == AllItems {
        FilterExt(items, MatchesSearch(search, lower), shown);
      } else {
        FilterFilter(items, MatchesSearch(search, lower), Keeps(filter), shown);
      }
    }
  }

  /**
   * The filtered list keeps the relative order of `items` and holds exactly
   * the items that pass the search and the filter: `AllItems` keeps every
   * search hit, the kind filters keep that kind, `PinnedItems` the pinned.
   */
  lemma FilteredItemsExact(items: seq<Item>, search: string, filter: ClipboardFilter, lower: string -> string)
    ensures IsSubsequence(FilteredItems(items, search, filter, lower), items)
    ensures forall it :: it in FilteredItems(items, search, filter, lower) <==>
      it in items && SearchHit(search, lower, it) && filter.Accepts(it)
  {
    FilteredItemsIsFilter(items, search, filter, lower);
    FilterIsSubsequence(items, Shown(search, filter, lower));
    FilterMembers(items, Shown(search, filter, lower));
  }

  // ---------------------------------------------------------------- grouping

  /** One `(DateSection?, [ClipboardItem])` pair; the pinned section has no header. */
  datatype Section<S> = Section(header: Option<S>, items: seq<Item>)

  function InSection<S(==)>(sectionOf: Item -> S, sec: S): Item -> bool {
    (it: Item) => sectionOf(it) == sec
  }

  /** `groupedDict[sec]` of `Dictionary(grouping:)`: the unpinned items of the section, in order. */
  function Group<S(==)>(unpinned: seq<Item>, sectionOf: Item -> S, sec: S): seq<Item> {
    Filter(unpinned, InSection(sectionOf, sec))
  }

  /** The date sections built from the first `n` cases, empty groups skipped. */
  function DateSections<S(==)>(unpinned: seq<Item>, allCases: seq<S>, n: nat, sectionOf: Item -> S): (r: seq<Section<S>>)
    requires n <= |allCases|
    ensures |r| <= n
  {
    if n == 0 then []
    else
      var group := Group(unpinned, sectionOf, allCases[n - 1]);
      DateSections(unpinned, allCases, n - 1, sectionOf) + (if group == [] then [] else [Section(Some(allCases[n - 1]), group)])
  }

  /** The leading pinned section, when something is pinned. */
  function PinnedSection<S>(filtered: seq<Item>): seq<Section<S>> {
    if Pinned(filtered) == [] then [] else [Section(None, Pinned(filtered))]
  }

  /** What `groupedItems` returns for the filtered list. */
  function Grouped<S(==)>(filtered: seq<Item>, allCases: seq<S>, sectionOf: Item -> S): (r: seq<Section<S>>)
    ensures |r| <= |allCases| + 1
    ensures forall i :: 0 <= i < |r| ==> r[i].items != [] && (r[i].header.None? <==> i == 0 && Pinned(filtered) != [])
  {
    DateSectionsShape(Unpinned(filtered), allCases, |allCases|, sectionOf);
    PinnedSection(filtered) + DateSections(Unpinned(filtered), allCases, |allCases|, sectionOf)
  }

  /** `groupedItems`: the sections are appended one by one in a loop over `allCases`. */
  method GroupedItems<S(==)>(items: seq<Item>, search: string, filter: ClipboardFilter, lower: string -> string,
                             allCases: seq<S>, sectionOf: Item -> S)
    returns (sections: seq<Section<S>>)
    ensures sections == Grouped(FilteredItems(items, search, filter, lower), allCases, sectionOf)
  {
    sections := GroupSections(FilteredItems(items, search, filter, lower), allCases, sectionOf);
  }

  /** The body of `groupedItems` once `filteredItems` is computed. */
  method GroupSections<S(==)>(filtered: seq<Item>, allCases: seq<S>, sectionOf: Item -> S)
    returns (sections: seq<Section<S>>)
    ensures sections == Grouped(filtered, allCases, sectionOf)
  {
    var pinnedItems := Filter(filtered, IsPinned);
    var unpinnedItems := Filter(filtered, IsUnpinned);
    sections := [];
    if pinnedItems != [] {
      sections := sections + [Section(None, pinnedItems)];
    }
    ghost var pinnedPart: seq<Section<S>> := PinnedSection(filtered);
    for i := 0 to |allCases|
      invariant sections == pinnedPart + DateSections(unpinnedItems, allCases, i, sectionOf)
    {
      var section := allCases[i];
      var group := Filter(unpinnedItems, InSection(sectionOf, section));
      ghost var before := DateSections(unpinnedItems, allCases, i, sectionOf);
      ghost var added: seq<Section<S>> := if group == [] then [] else [Section(Some(section), group)];
      assert DateSections(unpinnedItems, allCases, i + 1, sectionOf) == before + added;
      if group != [] {
        sections := sections + [Section(Some(section), group)];
      }
      AppendAssoc(pinnedPart, before, added);
    }
  }

  /** Every date section has a header, is not empty, and holds exactly its group. */
  lemma {:induction false} DateSectionsShape<S>(unpinned: seq<Item>, allCases: seq<S>, n: nat, sectionOf: Item -> S)
    requires n <= |allCases|
    ensures forall i :: 0 <= i < |DateSections(unpinned, allCases, n, sectionOf)| ==>
      var sec := DateSections(unpinned, allCases, n, sectionOf)[i];
      sec.header.Some? && sec.items != [] && sec.items == Group(unpinned, sectionOf, sec.header.value)
  {
    if n > 0 {
      DateSectionsShape(unpinned, allCases, n - 1, sectionOf);
    }
  }

  /**
   * A headerless section leads the list exactly when some filtered item is
   * pinned, and holds the pinned items in order; every other section is a
   * non-empty date section holding exactly the unpinned items of its date.
   */
  lemma GroupedShape<S>(filtered: seq<Item>, allCases: seq<S>, sectionOf: Item -> S)
    ensures var g := Grouped(filtered, allCases, sectionOf);
      (g != [] && g[0].header.None?) <==> Pinned(filtered) != []
    ensures var g := Grouped(filtered, allCases, sectionOf);
      forall i :: 0 <= i < |g| && g[i].header.None? ==> i == 0 && g[i].items == Pinned(filtered)
    ensures var g := Grouped(filtered, allCases, sectionOf);
      forall i :: 0 <= i < |g| ==> g[i].items != []
    ensures var g := Grouped(filtered, allCases, sectionOf);
      forall i :: 0 <= i < |g| && g[i].header.Some? ==> g[i].items == Group(Unpinned(filtered), sectionOf, g[i].header.value)
  {
    var d := DateSections(Unpinned(filtered), allCases, |allCases|, sectionOf);
    DateSectionsShape(Unpinned(filtered), allCases, |allCases|, sectionOf);
    var g := Grouped(filtered, allCases, sectionOf);
    var p: seq<Section<S>> := PinnedSection(filtered);
    assert g == p + d;
    forall i | 0 <= i < |g|
      ensures g[i].items != []
      ensures g[i].header.None? ==> i == 0 && g[i].items == Pinned(filtered)
      ensures g[i].header.Some? ==> g[i].items == Group(Unpinned(filtered), sectionOf, g[i].header.value)
    {
      if i >= |p| {
        assert g[i] == d[i - |p|];
      }
    }
    if Pinned(filtered) == [] && g != [] {
      assert g[0] == d[0];
    }
  }

  /** The headers of the date sections, in list order. */
  function Headers<S>(sections: seq<Section<S>>): seq<S> {
    if sections == [] then []
    else
      Headers(sections[..|sections| - 1])
      + (match sections[|sections| - 1].header case Some(h) => [h] case None => [])
  }

  lemma {:induction false} HeadersAppend<S>(a: seq<Section<S>>, b: seq<Section<S>>)
    ensures Headers(a + b) == Headers(a) + Headers(b)
    decreases |b|
  {
    if b == [] {
      assert a + b == a;
    } else {
      assert (a + b)[..|a + b| - 1] == a + b[..|b| - 1];
      HeadersAppend(a, b[..|b| - 1]);
    }
  }

  function HasItems<S(==)>(unpinned: seq<Item>, sectionOf: Item -> S): S -> bool {
    (sec: S) => Group(unpinned, sectionOf, sec) != []
  }

  /** The date headers are the cases with a non-empty group, in `allCases` order. */
  lemma {:induction false} DateSectionsHeaders<S(!new)>(unpinned: seq<Item>, allCases: seq<S>, n: nat, sectionOf: Item -> S)
    requires n <= |allCases|
    ensures Headers(DateSections(unpinned, allCases, n, sectionOf)) == Filter(allCases[..n], HasItems(unpinned, sectionOf))
  {
    if n > 0 {
      DateSectionsHeaders(unpinned, allCases, n - 1, sectionOf);
      var prev := DateSections(unpinned, allCases, n - 1, sectionOf);
      var group := Group(unpinned, sectionOf, allCases[n - 1]);
      var last: seq<Section<S>> := if group == [] then [] else [Section(Some(allCases[n - 1]), group)];
      HeadersAppend(prev, last);
      assert Headers(last) == (if group == [] then [] else [allCases[n - 1]]) by {
        if group != [] {
          assert last[..0] == [];
        }
      }
      assert allCases[..n] == allCases[..n - 1] + [allCases[n - 1]];
      FilterAppend(allCases[..n - 1], [allCases[n - 1]], HasItems(unpinned, sectionOf));
    }
  }

  /**
   * The grouped list's headers are exactly the sections of `allCases` that
   * hold some unpinned filtered item, in `allCases` order.
   */
  lemma GroupedHeaders<S(!new)>(filtered: seq<Item>, allCases: seq<S>, sectionOf: Item -> S)
    ensures Headers(Grouped(filtered, allCases, sectionOf)) == Filter(allCases, HasItems(Unpinned(filtered), sectionOf))
    ensures IsSubsequence(Headers(Grouped(filtered, allCases, sectionOf)), allCases)
  {
    var p: seq<Section<S>> := PinnedSection(filtered);
    var d := DateSections(Unpinned(filtered), allCases, |allCases|, sectionOf);
    HeadersAppend(p, d);
    if p != [] {
      assert p[..0] == [];
    }
    DateSectionsHeaders(Unpinned(filtered), allCases, |allCases|, sectionOf);
    assert allCases[..|allCases|] == allCases;
    FilterIsSubsequence(allCases, HasItems(Unpinned(filtered), sectionOf));
  }

  /** All items of the sections, section after section. */
  function Flatten<S>(sections: seq<Section<S>>): seq<Item> {
    if sections == [] then [] else Flatten(sections[..|sections| - 1]) + sections[|sections| - 1].items
  }

  lemma {:induction false} FlattenAppend<S>(a: seq<Section<S>>, b: seq<Section<S>>)
    ensures Flatten(a + b) == Flatten(a) + Flatten(b)
    decreases |b|
  {
    if b == [] {
      assert a + b == a;
    } else {
      assert (a + b)[..|a + b| - 1] == a + b[..|b| - 1];
      FlattenAppend(a, b[..|b| - 1]);
    }
  }

  predicate Distinct<S(==)>(s: seq<S>) {
    forall i, j :: 0 <= i < j < |s| ==> s[i] != s[j]
  }

  function InFirstCases<S(==)>(sectionOf: Item -> S, allCases: seq<S>, n: nat): Item -> bool
    requires n <= |allCases|
  {
    (it: Item) => sectionOf(it) in allCases[..n]
  }

  /** The first `n` cases are the first `n - 1` and, apart from them, the `n`-th. */
  lemma CasesStep<S>(unpinned: seq<Item>, allCases: seq<S>, n: nat, sectionOf: Item -> S)
    requires 0 < n <= |allCases| && Distinct(allCases)
    ensures forall i :: 0 <= i < |unpinned| ==>
      !(InFirstCases(sectionOf, allCases, n - 1)(unpinned[i]) && InSection(sectionOf, allCases[n - 1])(unpinned[i]))
    ensures forall i :: 0 <= i < |unpinned| ==>
      InFirstCases(sectionOf, allCases, n)(unpinned[i])
      == (InFirstCases(sectionOf, allCases, n - 1)(unpinned[i]) || InSection(sectionOf, allCases[n - 1])(unpinned[i]))
  {
    assert allCases[..n] == allCases[..n - 1] + [allCases[n - 1]];
  }

  /** The date sections built so far hold, between them, the unpinned items of the first `n` cases. */
  lemma {:induction false} DateSectionsItems<S>(unpinned: seq<Item>, allCases: seq<S>, n: nat, sectionOf: Item -> S)
    requires n <= |allCases| && Distinct(allCases)
    ensures multiset(Flatten(DateSections(unpinned, allCases, n, sectionOf)))
      == multiset(Filter(unpinned, InFirstCases(sectionOf, allCases, n)))
  {
    if n == 0 {
      FilterNone(unpinned, InFirstCases(sectionOf, allCases, 0));
    } else {
      DateSectionsItems(unpinned, allCases, n - 1, sectionOf);
      DateSectionsFlattenStep(unpinned, allCases, n, sectionOf);
      CasesStep(unpinned, allCases, n, sectionOf);
      FilterDisjointUnion(unpinned, InFirstCases(sectionOf, allCases, n - 1), InSection(sectionOf, allCases[n - 1]),
        InFirstCases(sectionOf, allCases, n));
    }
  }

  /** The `n`-th case contributes its group, possibly empty, to the sections' items. */
  lemma DateSectionsFlattenStep<S>(unpinned: seq<Item>, allCases: seq<S>, n: nat, sectionOf: Item -> S)
    requires 0 < n <= |allCases|
    ensures Flatten(DateSections(unpinned, allCases, n, sectionOf))
      == Flatten(DateSections(unpinned, allCases, n - 1, sectionOf)) + Group(unpinned, sectionOf, allCases[n - 1])
  {
    var prev := DateSections(unpinned, allCases, n - 1, sectionOf);
    var sec := allCases[n - 1];
    var group := Group(unpinned, sectionOf, sec);
    var last: seq<Section<S>> := if group == [] then [] else [Section(Some(sec), group)];
    assert DateSections(unpinned, allCases, n, sectionOf) == prev + last;
    FlattenAppend(prev, last);
    assert Flatten(last) == group by {
      if group != [] {
        assert last[..0] == [];
      }
    }
  }

  /**
   * When `allCases` lists each section once and covers every filtered item's
   * section, the sections together hold each filtered item exactly as often
   * as the filtered list does.
   */
  lemma GroupedIsPermutation<S>(filtered: seq<Item>, allCases: seq<S>, sectionOf: Item -> S)
    requires Distinct(allCases)
    requires forall i :: 0 <= i < |filtered| ==> sectionOf(filtered[i]) in allCases
    ensures multiset(Flatten(Grouped(filtered, allCases, sectionOf))) == multiset(filtered)
  {
    var u := Unpinned(filtered);
    var p: seq<Section<S>> := PinnedSection(filtered);
    var d := DateSections(u, allCases, |allCases|, sectionOf);
    FlattenAppend(p, d);
    assert Flatten(p) == Pinned(filtered) by {
      if p != [] {
        assert p[..0] == [];
      }
    }
    DateSectionsItems(u, allCases, |allCases|, sectionOf);
    FilterMembers(filtered, IsUnpinned);
    assert allCases[..|allCases|] == allCases;
    forall i | 0 <= i < |u|
      ensures InFirstCases(sectionOf, allCases, |allCases|)(u[i])
    {
      assert u[i] in filtered;
    }
    FilterAll(u, InFirstCases(sectionOf, allCases, |allCases|));
    FilterPartition(filtered, IsPinned, IsUnpinned);
  }

  // ---------------------------------------------------------------- empty state

  /** The translation key of `emptyStateMessage`. */
  function EmptyStateMessageKey(search: string, filter: ClipboardFilter): (r: string)
    ensures search != [] ==> r == "empty.noFound"
    ensures search == [] ==> r != "empty.noFound"
    ensures r in EnglishTable
  {
    if search != [] then "empty.noFound"
    else
      match filter
      case AllItems => "empty.noClipboard"
      case TextItems => "empty.noText"
      case ImageItems => "empty.noImages"
      case FileItems => "empty.noFiles"
      case UrlItems => "empty.noUrls"
      case PinnedItems => "empty.noPinned"
  }

  /** Without a search, each filter has its own empty-state key. */
  lemma EmptyStateKeyInjective(f: ClipboardFilter, g: ClipboardFilter)
    ensures EmptyStateMessageKey([], f) == EmptyStateMessageKey([], g) ==> f == g
  {
  }

  /** `emptyStateMessage`: the key looked up in the current language; never a bracketed key. */
  function EmptyStateMessage(search: string, filter: ClipboardFilter, lang: AppLanguage): (r: string)
    ensures r == Table(lang)[EmptyStateMessageKey(search, filter)]
  {
    LocalizedFallback(lang, EmptyStateMessageKey(search, filter));
    Localized(lang, EmptyStateMessageKey(search, filter))
  }
}
