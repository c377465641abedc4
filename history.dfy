/**
 * The clipboard history list of Buffer/Managers/ClipboardManager.swift as
 * values: one function per mutating operation (the new `items` as a function
 * of the old), and the properties the manager promises, as lemmas.
 */
module History {
  import opened Wrappers
  import opened Seqs
  import opened ClipboardItems

  /** `addItem` keeps only the first 25 unpinned entries. */
  const MaxUnpinned: nat := 25

  predicate IsPinned(it: Item) { it.isPinned }

  predicate IsUnpinned(it: Item) { !it.isPinned }

  /** `items.filter { $0.isPinned }` */
  function Pinned(s: seq<Item>): seq<Item> {
    Filter(s, IsPinned)
  }

  /** `items.filter { !$0.isPinned }` */
  function Unpinned(s: seq<Item>): seq<Item> {
    Filter(s, IsUnpinned)
  }

  /** Whether `y` survives the duplicate sweep done before inserting `x`. */
  function SurvivesCollapse(x: Item): Item -> bool {
    (y: Item) => !(y.content == x.content && !y.isPinned)
  }

  /** `items.removeAll { $0.content == item.content && !$0.isPinned }` */
  function Collapse(s: seq<Item>, x: Item): seq<Item> {
    Filter(s, SurvivesCollapse(x))
  }

  function HasOtherContent(c: string): Item -> bool {
    (y: Item) => y.content != c
  }

  /** The entries of `s` whose content is not `c`, in order. */
  function WithoutContent(s: seq<Item>, c: string): seq<Item> {
    Filter(s, HasOtherContent(c))
  }

  /** `addItem`: collapse unpinned duplicates, prepend, then cap the unpinned entries. */
  function AddItemSpec(s: seq<Item>, x: Item): (r: seq<Item>)
    ensures x in r
    ensures |r| <= |s| + 1
  {
    var inserted := [x] + Collapse(s, x);
    assert inserted[0] == x;
    if |Unpinned(inserted)| > MaxUnpinned then
      FilterPartitionLength(inserted, IsPinned, IsUnpinned);
      TrimmedKeepsHead(x, Collapse(s, x));
      Pinned(inserted) + Unpinned(inserted)[..MaxUnpinned]
    else
      inserted
  }

  function HasOtherId(id: ItemId): Item -> bool {
    (y: Item) => y.id != id
  }

  /** `removeItem`: `items.removeAll { $0.id == item.id }` */
  function RemoveItemSpec(s: seq<Item>, id: ItemId): (r: seq<Item>)
    ensures |r| <= |s|
    ensures forall i :: 0 <= i < |r| ==> r[i].id != id && r[i] in s
  {
    FilterElements(s, HasOtherId(id));
    Filter(s, HasOtherId(id))
  }

  /** `items.firstIndex(where: { $0.id == id })` */
  function FirstIndexOf(s: seq<Item>, id: ItemId): (r: Option<nat>)
    ensures r.None? <==> forall j :: 0 <= j < |s| ==> s[j].id != id
    ensures r.Some? ==> r.value < |s| && s[r.value].id == id
    ensures r.Some? ==> forall j :: 0 <= j < r.value ==> s[j].id != id
    decreases |s|
  {
    if s == [] then None
    else if s[0].id == id then Some(0)
    else match FirstIndexOf(s[1..], id)
      case None => None
      case Some(i) => Some(i + 1)
  }

  /** `togglePin`: flip the pin of the first entry with the id, if there is one. */
  function TogglePinSpec(s: seq<Item>, id: ItemId): (r: seq<Item>)
    ensures |r| == |s|
    ensures forall i :: 0 <= i < |s| ==> r[i].id == s[i].id && r[i].content == s[i].content && r[i].kind == s[i].kind
  {
    match FirstIndexOf(s, id)
    case None => s
    case Some(i) => s[i := s[i].TogglePinned()]
  }

  /** `clearAll`: `items.removeAll { !$0.isPinned }` — only the unpinned entries go. */
  function ClearAllSpec(s: seq<Item>): (r: seq<Item>)
    ensures |r| <= |s|
    ensures forall i :: 0 <= i < |r| ==> r[i].isPinned && r[i] in s
  {
    FilterElements(s, IsPinned);
    Filter(s, IsPinned)
  }

  /** No two entries share an id. */
  predicate DistinctIds(s: seq<Item>) {
    forall i, j :: 0 <= i < |s| && 0 <= j < |s| && s[i].id == s[j].id ==> i == j
  }

  /** Every entry of `s` carries an id drawn before `next`. */
  predicate IdsBelow(s: seq<Item>, next: ItemId) {
    forall i :: 0 <= i < |s| ==> s[i].id < next
  }

  /** All pinned entries come before all unpinned ones. */
  predicate PinnedFirst(s: seq<Item>) {
    forall i, j :: 0 <= i < j < |s| && !s[i].isPinned ==> !s[j].isPinned
  }

  // ---------------------------------------------------------------------
  // addItem
  // ---------------------------------------------------------------------

  lemma UnpinnedOfCollapse(s: seq<Item>, x: Item)
    ensures Unpinned(Collapse(s, x)) == WithoutContent(Unpinned(s), x.content)
  {
    var both := (y: Item) => !y.isPinned && y.content != x.content;
    FilterFilter(s, SurvivesCollapse(x), IsUnpinned, both);
    FilterFilter(s, IsUnpinned, HasOtherContent(x.content), both);
  }

  lemma PinnedOfCollapse(s: seq<Item>, x: Item)
    ensures Pinned(Collapse(s, x)) == Pinned(s)
  {
    FilterFilter(s, SurvivesCollapse(x), IsPinned, IsPinned);
  }

  /** In the trimmed list, the unpinned part is exactly the kept prefix. */
  lemma TrimmedParts(t: seq<Item>)
    requires |Unpinned(t)| > MaxUnpinned
    ensures Unpinned(Pinned(t) + Unpinned(t)[..MaxUnpinned]) == Unpinned(t)[..MaxUnpinned]
    ensures Pinned(Pinned(t) + Unpinned(t)[..MaxUnpinned]) == Pinned(t)
  {
    var p, u := Pinned(t), Unpinned(t)[..MaxUnpinned];
    FilterMembers(t, IsPinned);
    FilterMembers(t, IsUnpinned);
    assert forall i :: 0 <= i < |u| ==> u[i] in Unpinned(t);
    assert forall i :: 0 <= i < |p| ==> p[i] in p;
    FilterAppend(p, u, IsUnpinned);
    FilterAppend(p, u, IsPinned);
    FilterNone(p, IsUnpinned);
    FilterAll(u, IsUnpinned);
    FilterAll(p, IsPinned);
    FilterNone(u, IsPinned);
  }

  /**
   * After `addItem(x)` with a new (unpinned) item, the unpinned entries are
   * `x` followed by the old unpinned entries whose content differs from
   * `x.content`, in their old order, cut to the first 25.
   */
  lemma {:induction false} AddItemUnpinned(s: seq<Item>, x: Item)
    requires !x.isPinned
    ensures Unpinned(AddItemSpec(s, x)) == Take([x] + WithoutContent(Unpinned(s), x.content), MaxUnpinned)
  {
    var c := Collapse(s, x);
    var inserted := [x] + c;
    assert inserted[1..] == c;
    UnpinnedOfCollapse(s, x);
    assert Unpinned(inserted) == [x] + WithoutContent(Unpinned(s), x.content);
    if |Unpinned(inserted)| > MaxUnpinned {
      TrimmedParts(inserted);
    }
  }

  /** `addItem(x)` with a new item leaves the pinned entries exactly as they were, in order. */
  lemma {:induction false} AddItemKeepsPinned(s: seq<Item>, x: Item)
    requires !x.isPinned
    ensures Pinned(AddItemSpec(s, x)) == Pinned(s)
  {
    var inserted := [x] + Collapse(s, x);
    assert inserted[1..] == Collapse(s, x);
    PinnedOfCollapse(s, x);
    if |Unpinned(inserted)| > MaxUnpinned {
      TrimmedParts(inserted);
    }
  }

  /**
   * When the cap does not apply, `x` comes first and the old entries follow
   * in their old order: pinned entries stay where they were among the
   * survivors, and only unpinned entries with `x`'s content are gone.
   */
  lemma AddItemUntrimmed(s: seq<Item>, x: Item)
    requires |Unpinned([x] + Collapse(s, x))| <= MaxUnpinned
    ensures AddItemSpec(s, x) != [] && AddItemSpec(s, x)[0] == x
    ensures IsSubsequence(AddItemSpec(s, x)[1..], s)
    ensures forall y :: y in AddItemSpec(s, x)[1..] <==> y in s && (y.isPinned || y.content != x.content)
  {
    var r := AddItemSpec(s, x);
    assert r[1..] == Collapse(s, x);
    FilterIsSubsequence(s, SurvivesCollapse(x));
    FilterMembers(s, SurvivesCollapse(x));
  }

  /** Whatever item is added, no pinned entry is ever removed. */
  lemma {:induction false} AddItemNeverDropsPinned(s: seq<Item>, x: Item)
    ensures forall y :: y in s && y.isPinned ==> y in AddItemSpec(s, x)
  {
    var inserted := [x] + Collapse(s, x);
    FilterMembers(s, SurvivesCollapse(x));
    FilterMembers(inserted, IsPinned);
    forall y | y in s && y.isPinned
      ensures y in AddItemSpec(s, x)
    {
      assert SurvivesCollapse(x)(y);
      assert y in Collapse(s, x);
      assert y in inserted;
      if |Unpinned(inserted)| > MaxUnpinned {
        assert y in Pinned(inserted);
      }
    }
  }

  /** After any `addItem`, at most 25 entries are unpinned. */
  lemma {:induction false} AddItemBound(s: seq<Item>, x: Item)
    ensures |Unpinned(AddItemSpec(s, x))| <= MaxUnpinned
  {
    var inserted := [x] + Collapse(s, x);
    if |Unpinned(inserted)| > MaxUnpinned {
      TrimmedParts(inserted);
    }
  }

  /**
   * When the cap applies, every pinned entry precedes every unpinned one and
   * the unpinned entries kept are the first 25 in list order.
   */
  lemma AddItemTrimmed(s: seq<Item>, x: Item)
    requires |Unpinned([x] + Collapse(s, x))| > MaxUnpinned
    ensures PinnedFirst(AddItemSpec(s, x))
    ensures Unpinned(AddItemSpec(s, x)) == Unpinned([x] + Collapse(s, x))[..MaxUnpinned]
  {
    var inserted := [x] + Collapse(s, x);
    var p, u := Pinned(inserted), Unpinned(inserted)[..MaxUnpinned];
    FilterMembers(inserted, IsPinned);
    FilterMembers(inserted, IsUnpinned);
    assert forall i :: 0 <= i < |u| ==> u[i] in Unpinned(inserted);
    assert forall i :: 0 <= i < |p| ==> p[i] in Pinned(inserted);
    TrimmedParts(inserted);
  }

  /**
   * After `addItem(x)` with a new item, `x` is the first unpinned entry and
   * no other unpinned entry has its content.
   */
  lemma AddItemCollapsesDuplicates(s: seq<Item>, x: Item)
    requires !x.isPinned
    ensures Unpinned(AddItemSpec(s, x)) != [] && Unpinned(AddItemSpec(s, x))[0] == x
    ensures forall y :: y in AddItemSpec(s, x) && !y.isPinned && y.content == x.content ==> y == x
  {
    AddItemUnpinned(s, x);
    var w := WithoutContent(Unpinned(s), x.content);
    var u := Take([x] + w, MaxUnpinned);
    FilterMembers(AddItemSpec(s, x), IsUnpinned);
    FilterMembers(Unpinned(s), HasOtherContent(x.content));
    forall y | y in AddItemSpec(s, x) && !y.isPinned && y.content == x.content
      ensures y == x
    {
      assert y in u;
      assert y !in w;
    }
  }

  /** The item just inserted at the front survives the cap, pinned or not. */
  lemma TrimmedKeepsHead(x: Item, c: seq<Item>)
    requires |Unpinned([x] + c)| > MaxUnpinned
    ensures x in Pinned([x] + c) + Unpinned([x] + c)[..MaxUnpinned]
  {
    var t := [x] + c;
    assert t[0] == x && t[1..] == c;
    if x.isPinned {
      assert Pinned(t)[0] == x;
    } else {
      assert Unpinned(t)[0] == x;
    }
  }

  /** The capped list keeps each entry of `t` at most as often as `t` has it. */
  lemma TrimmedSubMultiset(t: seq<Item>)
    requires |Unpinned(t)| > MaxUnpinned
    ensures multiset(Pinned(t) + Unpinned(t)[..MaxUnpinned]) <= multiset(t)
  {
    var u := Unpinned(t);
    assert u == u[..MaxUnpinned] + u[MaxUnpinned..];
    assert multiset(u[..MaxUnpinned]) <= multiset(u);
    FilterPartition(t, IsPinned, IsUnpinned);
  }

  /** `addItem` only keeps old entries and the new one, each at most as often as before. */
  lemma {:induction false} AddItemSubMultiset(s: seq<Item>, x: Item)
    ensures multiset(AddItemSpec(s, x)) <= multiset([x] + s)
  {
    var inserted := [x] + Collapse(s, x);
    FilterSubMultiset(s, SurvivesCollapse(x));
    assert multiset(inserted) <= multiset([x] + s);
    if |Unpinned(inserted)| > MaxUnpinned {
      TrimmedSubMultiset(inserted);
    }
  }

  lemma {:induction false} DistinctCountAtMostOne(s: seq<Item>, v: Item)
    requires DistinctIds(s)
    ensures multiset(s)[v] <= 1
    decreases |s|
  {
    if s != [] {
      assert s == [s[0]] + s[1..];
      assert DistinctIds(s[1..]) by {
        forall i, j | 0 <= i < |s| - 1 && 0 <= j < |s| - 1 && s[1..][i].id == s[1..][j].id
          ensures i == j
        {
          assert s[i + 1].id == s[j + 1].id;
        }
      }
      DistinctCountAtMostOne(s[1..], v);
      if s[0] == v {
        forall k | 0 <= k < |s| - 1
          ensures s[1..][k] != v
        {
          assert s[k + 1].id != s[0].id;
        }
      }
    }
  }

  lemma TwoOccurrences(r: seq<Item>, i: int, j: int)
    requires 0 <= i < j < |r| && r[i] == r[j]
    ensures multiset(r)[r[i]] >= 2
  {
    assert r == r[..j] + r[j..];
    assert r[i] == r[..j][i];
    assert r[j..][0] == r[j];
  }

  /** Two positions of a sub-multiset of a list with distinct ids carry different ids. */
  lemma IdsDifferAt(r: seq<Item>, s: seq<Item>, i: int, j: int)
    requires multiset(r) <= multiset(s) && DistinctIds(s)
    requires 0 <= i < j < |r|
    ensures r[i].id != r[j].id
  {
    if r[i] == r[j] {
      TwoOccurrences(r, i, j);
      DistinctCountAtMostOne(s, r[i]);
      assert false;
    } else {
      assert r[i] in multiset(r) && r[j] in multiset(r);
      var k :| 0 <= k < |s| && s[k] == r[i];
      var l :| 0 <= l < |s| && s[l] == r[j];
      assert k != l;
    }
  }

  /** Keeping entries at most as often as before keeps ids distinct. */
  lemma DistinctIdsOfSubMultiset(r: seq<Item>, s: seq<Item>)
    requires multiset(r) <= multiset(s) && DistinctIds(s)
    ensures DistinctIds(r)
  {
    forall i, j | 0 <= i < j < |r|
      ensures r[i].id != r[j].id
    {
      IdsDifferAt(r, s, i, j);
    }
  }

  /** Adding an item whose id is new keeps ids distinct (the UUID guarantee). */
  lemma AddItemKeepsDistinctIds(s: seq<Item>, x: Item)
    requires DistinctIds(s)
    requires forall i :: 0 <= i < |s| ==> s[i].id != x.id
    ensures DistinctIds(AddItemSpec(s, x))
  {
    var t := [x] + s;
    assert DistinctIds(t) by {
      forall i, j | 0 <= i < |t| && 0 <= j < |t| && t[i].id == t[j].id
        ensures i == j
      {
        if i > 0 && j > 0 { assert s[i - 1].id == s[j - 1].id; }
      }
    }
    AddItemSubMultiset(s, x);
    DistinctIdsOfSubMultiset(AddItemSpec(s, x), t);
  }

  /** Adding an item keeps every id below the id counter when the new one is. */
  lemma AddItemKeepsIdsBelow(s: seq<Item>, x: Item, next: ItemId)
    requires IdsBelow(s, next) && x.id < next
    ensures IdsBelow(AddItemSpec(s, x), next)
  {
    var r := AddItemSpec(s, x);
    AddItemSubMultiset(s, x);
    forall i | 0 <= i < |r|
      ensures r[i].id < next
    {
      assert r[i] in multiset([x] + s);
    }
  }

  // ---------------------------------------------------------------------
  // removeItem
  // ---------------------------------------------------------------------

  /**
   * `removeItem` keeps exactly the entries with another id, in their order:
   * the result is a subsequence of the old list holding no entry with `id`
   * and every entry that has another one.
   */
  lemma RemoveItemExact(s: seq<Item>, id: ItemId)
    ensures IsSubsequence(RemoveItemSpec(s, id), s)
    ensures forall y :: y in RemoveItemSpec(s, id) <==> y in s && y.id != id
  {
    FilterIsSubsequence(s, HasOtherId(id));
    FilterMembers(s, HasOtherId(id));
  }

  /** With distinct ids, removing the id at index `i` deletes that one entry and nothing else. */
  lemma RemoveItemDeletesOne(s: seq<Item>, i: nat)
    requires DistinctIds(s) && i < |s|
    ensures RemoveItemSpec(s, s[i].id) == s[..i] + s[i + 1..]
    ensures |RemoveItemSpec(s, s[i].id)| == |s| - 1
  {
    var id := s[i].id;
    assert s == s[..i] + ([s[i]] + s[i + 1..]);
    FilterAppend(s[..i], [s[i]] + s[i + 1..], HasOtherId(id));
    FilterAppend([s[i]], s[i + 1..], HasOtherId(id));
    FilterAll(s[..i], HasOtherId(id));
    FilterAll(s[i + 1..], HasOtherId(id));
  }

  /** Removing an id that is not present changes nothing. */
  lemma RemoveItemAbsent(s: seq<Item>, id: ItemId)
    requires forall i :: 0 <= i < |s| ==> s[i].id != id
    ensures RemoveItemSpec(s, id) == s
  {
    FilterAll(s, HasOtherId(id));
  }

  /**
   * `removeItem` undoes `addItem` when the added item has a fresh id, no
   * unpinned entry had its content and the cap does not apply.
   */
  lemma RemoveUndoesAdd(s: seq<Item>, x: Item)
    requires !x.isPinned
    requires forall i :: 0 <= i < |s| ==> s[i].id != x.id
    requires forall i :: 0 <= i < |s| && !s[i].isPinned ==> s[i].content != x.content
    requires |Unpinned(s)| < MaxUnpinned
    ensures RemoveItemSpec(AddItemSpec(s, x), x.id) == s
  {
    FilterAll(s, SurvivesCollapse(x));
    assert Collapse(s, x) == s;
    var inserted := [x] + s;
    assert inserted[1..] == s;
    assert Unpinned(inserted) == [x] + Unpinned(s);
    assert AddItemSpec(s, x) == inserted;
    assert RemoveItemSpec(inserted, x.id) == RemoveItemSpec(s, x.id);
    RemoveItemAbsent(s, x.id);
  }

  // ---------------------------------------------------------------------
  // togglePin
  // ---------------------------------------------------------------------

  /**
   * `togglePin` flips the pin of the first entry with the id and changes
   * nothing else; with no such entry it is a no-op.
   */
  lemma TogglePinEffect(s: seq<Item>, id: ItemId)
    ensures |TogglePinSpec(s, id)| == |s|
    ensures (forall j :: 0 <= j < |s| ==> s[j].id != id) ==> TogglePinSpec(s, id) == s
    ensures forall i :: 0 <= i < |s| && s[i].id == id && (forall j :: 0 <= j < i ==> s[j].id != id) ==>
      TogglePinSpec(s, id)[i].isPinned == !s[i].isPinned &&
      TogglePinSpec(s, id)[i].TogglePinned() == s[i] &&
      (forall j :: 0 <= j < |s| && j != i ==> TogglePinSpec(s, id)[j] == s[j])
  {
  }

  lemma {:induction false} FirstIndexOfSameIds(s: seq<Item>, t: seq<Item>, id: ItemId)
    requires |s| == |t| && forall j :: 0 <= j < |s| ==> s[j].id == t[j].id
    ensures FirstIndexOf(s, id) == FirstIndexOf(t, id)
    decreases |s|
  {
    if s != [] && s[0].id != id {
      FirstIndexOfSameIds(s[1..], t[1..], id);
    }
  }

  /** Toggling the same id twice restores the list. */
  lemma TogglePinTwice(s: seq<Item>, id: ItemId)
    ensures TogglePinSpec(TogglePinSpec(s, id), id) == s
  {
    var r := TogglePinSpec(s, id);
    FirstIndexOfSameIds(s, r, id);
  }

  /** `togglePin` keeps every entry's id, so distinct ids stay distinct. */
  lemma TogglePinKeepsIds(s: seq<Item>, id: ItemId, next: ItemId)
    ensures DistinctIds(s) ==> DistinctIds(TogglePinSpec(s, id))
    ensures IdsBelow(s, next) ==> IdsBelow(TogglePinSpec(s, id), next)
  {
  }

  // ---------------------------------------------------------------------
  // clearAll
  // ---------------------------------------------------------------------

  /** `clearAll` leaves exactly the pinned entries, in their original order. */
  lemma ClearAllKeepsPinned(s: seq<Item>)
    ensures IsSubsequence(ClearAllSpec(s), s)
    ensures forall y :: y in ClearAllSpec(s) <==> y in s && y.isPinned
    ensures Unpinned(ClearAllSpec(s)) == []
  {
    FilterIsSubsequence(s, IsPinned);
    FilterMembers(s, IsPinned);
    var r := ClearAllSpec(s);
    assert forall i :: 0 <= i < |r| ==> r[i] in r;
    FilterNone(r, IsUnpinned);
  }

  /** Clearing twice is the same as clearing once. */
  lemma ClearAllIdempotent(s: seq<Item>)
    ensures ClearAllSpec(ClearAllSpec(s)) == ClearAllSpec(s)
  {
    FilterMembers(s, IsPinned);
    assert forall i :: 0 <= i < |ClearAllSpec(s)| ==> ClearAllSpec(s)[i] in ClearAllSpec(s);
    FilterAll(ClearAllSpec(s), IsPinned);
  }

  /** `clearAll` keeps a subset of the entries, so ids stay distinct. */
  lemma ClearAllKeepsIds(s: seq<Item>, next: ItemId)
    ensures DistinctIds(s) ==> DistinctIds(ClearAllSpec(s))
    ensures IdsBelow(s, next) ==> IdsBelow(ClearAllSpec(s), next)
  {
    FilterSubMultiset(s, IsPinned);
    FilterMembers(s, IsPinned);
    var r := ClearAllSpec(s);
    assert forall i :: 0 <= i < |r| ==> r[i] in r;
    if DistinctIds(s) {
      DistinctIdsOfSubMultiset(ClearAllSpec(s), s);
    }
  }

  /** `removeItem` keeps a subset of the entries, so ids stay distinct. */
  lemma RemoveItemKeepsIds(s: seq<Item>, id: ItemId, next: ItemId)
    ensures DistinctIds(s) ==> DistinctIds(RemoveItemSpec(s, id))
    ensures IdsBelow(s, next) ==> IdsBelow(RemoveItemSpec(s, id), next)
  {
    FilterSubMultiset(s, HasOtherId(id));
    FilterMembers(s, HasOtherId(id));
    var r := RemoveItemSpec(s, id);
    assert forall i :: 0 <= i < |r| ==> r[i] in r;
    if DistinctIds(s) {
      DistinctIdsOfSubMultiset(RemoveItemSpec(s, id), s);
    }
  }

  // ---------------------------------------------------------------------
  // Scenarios of the XCTest suite
  // ---------------------------------------------------------------------

  /** Adding two unpinned items with the same content leaves one entry, the newer. */
  lemma DuplicatePrevention(a: Item, b: Item)
    requires !a.isPinned && !b.isPinned && a.content == b.content
    ensures AddItemSpec(AddItemSpec([], a), b) == [b]
  {
    assert AddItemSpec([], a) == [a];
    assert Collapse([a], b) == [];
  }

  /**
   * Pinning an entry and adding an unpinned item with the same content gives
   * TWO entries: the pinned one survives the collapse and the new one is
   * prepended anyway.
   */
  lemma PinnedDuplicateAddsEntry(a: Item, b: Item)
    requires !a.isPinned && !b.isPinned && a.content == b.content
    ensures TogglePinSpec(AddItemSpec([], a), a.id) == [a.TogglePinned()]
    ensures AddItemSpec(TogglePinSpec(AddItemSpec([], a), a.id), b) == [b, a.TogglePinned()]
  {
    assert AddItemSpec([], a) == [a];
    var p := a.TogglePinned();
    assert TogglePinSpec([a], a.id) == [p];
    assert Collapse([p], b) == [p];
    assert [b, p][1..] == [p];
    assert Unpinned([p]) == [];
    assert Unpinned([b, p]) == [b];
  }

  /** Two unpinned entries are all removed by `clearAll`. */
  lemma ClearAllScenario(a: Item, b: Item)
    requires !a.isPinned && !b.isPinned && a.content != b.content
    ensures |AddItemSpec(AddItemSpec([], a), b)| == 2
    ensures ClearAllSpec(AddItemSpec(AddItemSpec([], a), b)) == []
  {
    assert AddItemSpec([], a) == [a];
    assert Collapse([a], b) == [a];
    assert [b, a][1..] == [a];
    assert Unpinned([b, a]) == [b, a];
    assert ClearAllSpec([a]) == [];
  }
}
