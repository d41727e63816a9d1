/**
 * The list transforms behind the catalogue's handlers: replacing an edited
 * movie, prepending a new one, deleting by id, the visible-list filter, and
 * the two category-list updates.
 */
module Catalog {
  import opened Wrappers
  import opened Seqs
  import opened Text
  import opened Types

  /** The ids of `ms`, position by position. */
  function Ids(ms: seq<Movie>): (r: seq<string>)
    ensures |r| == |ms|
    ensures forall i :: 0 <= i < |ms| ==> r[i] == ms[i].id
  {
    if ms == [] then [] else [ms[0].id] + Ids(ms[1..])
  }

  /** Every id occurs at most once in the list. */
  predicate UniqueIds(ms: seq<Movie>) {
    NoDuplicates(Ids(ms))
  }

  // ---------------------------------------------------------------- editing

  /** Saving an edit: each entry carrying `id` becomes `edited`, every other entry stays where it is. */
  function ReplaceById(ms: seq<Movie>, id: string, edited: Movie): (r: seq<Movie>)
    ensures |r| == |ms|
    ensures forall i :: 0 <= i < |ms| ==> r[i] == (if ms[i].id == id then edited else ms[i])
  {
    if ms == [] then [] else [if ms[0].id == id then edited else ms[0]] + ReplaceById(ms[1..], id, edited)
  }

  /** Replacing with a movie that keeps the edited id leaves the id list, hence uniqueness, unchanged. */
  lemma ReplaceKeepsIds(ms: seq<Movie>, edited: Movie)
    ensures Ids(ReplaceById(ms, edited.id, edited)) == Ids(ms)
    ensures UniqueIds(ms) ==> UniqueIds(ReplaceById(ms, edited.id, edited))
  {
    var r := ReplaceById(ms, edited.id, edited);
    assert forall i :: 0 <= i < |ms| ==> Ids(r)[i] == Ids(ms)[i];
  }

  /** With no entry carrying the id, the edit changes nothing. */
  lemma ReplaceAbsentIsNoop(ms: seq<Movie>, id: string, edited: Movie)
    requires id !in Ids(ms)
    ensures ReplaceById(ms, id, edited) == ms
  {
    forall i | 0 <= i < |ms| ensures ReplaceById(ms, id, edited)[i] == ms[i] {
      assert Ids(ms)[i] == ms[i].id;
    }
  }

  /** Saving the same edit twice is the same as saving it once. */
  lemma ReplaceIdempotent(ms: seq<Movie>, edited: Movie)
    ensures ReplaceById(ReplaceById(ms, edited.id, edited), edited.id, edited)
         == ReplaceById(ms, edited.id, edited)
  {
  }

  // --------------------------------------------------------------- deleting

  /** Deleting: the entries whose id differs from `id`, in their original order. */
  function RemoveById(ms: seq<Movie>, id: string): (r: seq<Movie>)
    ensures forall m :: m in r <==> m in ms && m.id != id
    ensures id !in Ids(r)
    ensures IsSubsequence(r, ms)
  {
    if ms == [] then []
    else if ms[0].id == id then RemoveById(ms[1..], id)
    else [ms[0]] + RemoveById(ms[1..], id)
  }

  /** Deleting takes every copy of the id's entries out and keeps every other entry as often as it was there. */
  lemma {:induction false} RemoveByIdCounts(ms: seq<Movie>, id: string)
    ensures forall m :: multiset(RemoveById(ms, id))[m] == if m.id == id then 0 else multiset(ms)[m]
  {
    if ms != [] {
      RemoveByIdCounts(ms[1..], id);
      assert ms == [ms[0]] + ms[1..];
      assert multiset(ms) == multiset{ms[0]} + multiset(ms[1..]);
      if ms[0].id != id {
        var rest := RemoveById(ms[1..], id);
        assert multiset([ms[0]] + rest) == multiset{ms[0]} + multiset(rest);
      }
    }
  }

  /** Deleting an id that is not present leaves the list exactly as it was. */
  lemma {:induction false} RemoveAbsentIsNoop(ms: seq<Movie>, id: string)
    requires id !in Ids(ms)
    ensures RemoveById(ms, id) == ms
  {
    if ms != [] {
      assert Ids(ms) == [ms[0].id] + Ids(ms[1..]);
      RemoveAbsentIsNoop(ms[1..], id);
      assert ms == [ms[0]] + ms[1..];
    }
  }

  /** Deleting keeps ids unique, and deleting twice is deleting once. */
  lemma RemoveKeepsUnique(ms: seq<Movie>, id: string)
    requires UniqueIds(ms)
    ensures UniqueIds(RemoveById(ms, id))
  {
    IdsOfSubsequence(RemoveById(ms, id), ms);
    SubsequenceNoDuplicates(Ids(RemoveById(ms, id)), Ids(ms));
  }

  /** Deleting twice is deleting once. */
  lemma RemoveIdempotent(ms: seq<Movie>, id: string)
    ensures RemoveById(RemoveById(ms, id), id) == RemoveById(ms, id)
  {
    RemoveAbsentIsNoop(RemoveById(ms, id), id);
  }

  /** The ids of a subsequence form a subsequence of the ids. */
  lemma {:induction false} IdsOfSubsequence(a: seq<Movie>, b: seq<Movie>)
    requires IsSubsequence(a, b)
    ensures IsSubsequence(Ids(a), Ids(b))
    decreases |b|
  {
    if a != [] {
      assert Ids(a) == [a[0].id] + Ids(a[1..]);
      assert Ids(b) == [b[0].id] + Ids(b[1..]);
      if a[0] == b[0] && IsSubsequence(a[1..], b[1..]) {
        IdsOfSubsequence(a[1..], b[1..]);
      } else {
        IdsOfSubsequence(a, b[1..]);
      }
    }
  }

  // ---------------------------------------------------------------- saving

  /**
   * The list after a save: with a movie being edited, every entry carrying the
   * edited movie's id is replaced; otherwise the saved movie goes to the front.
   */
  function SaveMovie(ms: seq<Movie>, editing: Option<Movie>, saved: Movie): (r: seq<Movie>)
    ensures |r| == if editing.Some? then |ms| else |ms| + 1
    ensures editing.Some? ==>
      forall i :: 0 <= i < |ms| ==> r[i] == (if ms[i].id == editing.value.id then saved else ms[i])
    ensures editing.None? ==> r[0] == saved && r[1..] == ms
  {
    match editing
    case Some(e) => ReplaceById(ms, e.id, saved)
    case None => [saved] + ms
  }

  /** Adding keeps ids unique exactly when the new id is fresh. */
  lemma SaveNewUnique(ms: seq<Movie>, saved: Movie)
    requires UniqueIds(ms)
    ensures UniqueIds(SaveMovie(ms, None, saved)) <==> saved.id !in Ids(ms)
  {
    var r := SaveMovie(ms, None, saved);
    assert Ids(r) == [saved.id] + Ids(ms);
    if saved.id in Ids(ms) {
      var k :| 0 <= k < |Ids(ms)| && Ids(ms)[k] == saved.id;
      assert Ids(r)[0] == Ids(r)[k + 1];
    }
  }

  /** An edit that keeps the id leaves the set of ids and their uniqueness unchanged. */
  lemma SaveEditKeepsIds(ms: seq<Movie>, e: Movie, saved: Movie)
    requires saved.id == e.id
    ensures Ids(SaveMovie(ms, Some(e), saved)) == Ids(ms)
    ensures UniqueIds(ms) ==> UniqueIds(SaveMovie(ms, Some(e), saved))
  {
    ReplaceKeepsIds(ms, saved);
  }

  /** Adding the same movie twice yields two entries: the add path is not an upsert. */
  lemma SaveNewTwiceDuplicates(ms: seq<Movie>, saved: Movie)
    ensures SaveMovie(SaveMovie(ms, None, saved), None, saved)[..2] == [saved, saved]
    ensures !UniqueIds(SaveMovie(SaveMovie(ms, None, saved), None, saved))
  {
    var r := SaveMovie(SaveMovie(ms, None, saved), None, saved);
    assert Ids(r)[0] == r[0].id == r[1].id == Ids(r)[1];
  }

  // ------------------------------------------------------------- filtering

  /** The visible-list test: category `All` or equal, and the term found case-insensitively in title or description. */
  predicate Matches(m: Movie, activeCategory: string, searchTerm: string)
    ensures Matches(m, activeCategory, searchTerm) ==> activeCategory == "All" || m.category == activeCategory
    ensures activeCategory == "All" && searchTerm == "" ==> Matches(m, activeCategory, searchTerm)
    ensures searchTerm == "" ==> (Matches(m, activeCategory, searchTerm) <==> activeCategory == "All" || m.category == activeCategory)
  {
    IncludesEmpty(ToLower(m.title));
    assert ToLower("") == "";
    (activeCategory == "All" || m.category == activeCategory)
    && (Includes(ToLower(m.title), ToLower(searchTerm)) || Includes(ToLower(m.description), ToLower(searchTerm)))
  }

  /** The visible list: the movies that pass `Matches`, in list order. */
  function Visible(ms: seq<Movie>, activeCategory: string, searchTerm: string): (r: seq<Movie>)
    ensures forall m :: m in r <==> m in ms && Matches(m, activeCategory, searchTerm)
    ensures IsSubsequence(r, ms)
  {
    if ms == [] then []
    else if Matches(ms[0], activeCategory, searchTerm) then [ms[0]] + Visible(ms[1..], activeCategory, searchTerm)
    else Visible(ms[1..], activeCategory, searchTerm)
  }

  /** Every matching entry is shown as often as it occurs in the list; no other entry is shown. */
  lemma {:induction false} VisibleCounts(ms: seq<Movie>, activeCategory: string, searchTerm: string)
    ensures forall m :: multiset(Visible(ms, activeCategory, searchTerm))[m]
                     == if Matches(m, activeCategory, searchTerm) then multiset(ms)[m] else 0
  {
    if ms != [] {
      VisibleCounts(ms[1..], activeCategory, searchTerm);
      assert ms == [ms[0]] + ms[1..];
      assert multiset(ms) == multiset{ms[0]} + multiset(ms[1..]);
      if Matches(ms[0], activeCategory, searchTerm) {
        var rest := Visible(ms[1..], activeCategory, searchTerm);
        assert multiset([ms[0]] + rest) == multiset{ms[0]} + multiset(rest);
      }
    }
  }

  /** With category `All` and an empty search term the whole list is shown, in order. */
  lemma {:induction false} VisibleAllUnfiltered(ms: seq<Movie>)
    ensures Visible(ms, "All", "") == ms
  {
    if ms != [] {
      IncludesEmpty(ToLower(ms[0].title));
      assert ToLower("") == "";
      VisibleAllUnfiltered(ms[1..]);
      assert ms == [ms[0]] + ms[1..];
    }
  }

  /** With an empty search term, a category filter keeps exactly the movies of that category. */
  lemma VisibleByCategory(ms: seq<Movie>, category: string, m: Movie)
    requires category != "All"
    ensures m in Visible(ms, category, "") <==> m in ms && m.category == category
  {
    IncludesEmpty(ToLower(m.title));
    assert ToLower("") == "";
  }

  /** The search ignores ASCII case in the term. */
  lemma {:induction false} VisibleIgnoresTermCase(ms: seq<Movie>, activeCategory: string, term: string)
    ensures Visible(ms, activeCategory, ToLower(term)) == Visible(ms, activeCategory, term)
  {
    ToLowerIdempotent(term);
    if ms != [] {
      VisibleIgnoresTermCase(ms[1..], activeCategory, term);
    }
  }

  // ------------------------------------------------------------ categories

  /**
   * Set-based de-duplication written as a fold: `acc` is what has been kept so
   * far, and each element of `s` is appended the first time it is seen.
   */
  function DedupInto(acc: seq<string>, s: seq<string>): (r: seq<string>)
    ensures |acc| <= |r| && r[..|acc|] == acc
    ensures forall x :: x in r <==> x in acc || x in s
    ensures NoDuplicates(acc) ==> NoDuplicates(r)
    ensures IsSubsequence(r[|acc|..], s)
    decreases |s|
  {
    if s == [] then
      assert acc[|acc|..] == [];
      acc
    else if s[0] in acc then
      var r := DedupInto(acc, s[1..]);
      assert IsSubsequence(r[|acc|..], s) by { SubsequenceCons(r[|acc|..], s[0], s[1..]); }
      r
    else
      var r := DedupInto(acc + [s[0]], s[1..]);
      assert r[..|acc|] == (acc + [s[0]])[..|acc|] == acc;
      assert r[|acc|..] == [s[0]] + r[|acc| + 1..];
      assert s == [s[0]] + s[1..];
      r
  }

  /**
   * The names of `s` that a Set built from `acc` and then `s` adds, in order:
   * `s[k]` is kept exactly when it is neither in `acc` nor among `s[..k]`.
   */
  function FirstSeen(acc: seq<string>, s: seq<string>): seq<string>
    decreases |s|
  {
    if s == [] then []
    else
      var init := s[..|s| - 1];
      var last := s[|s| - 1];
      FirstSeen(acc, init) + (if last in acc || last in init then [] else [last])
  }

  /** The fold keeps exactly the first occurrence of each new name, in first-seen order. */
  lemma {:induction false} DedupIntoIsFirstSeen(acc: seq<string>, s: seq<string>)
    ensures DedupInto(acc, s) == acc + FirstSeen(acc, s)
    decreases |s|
  {
    if s == [] {
      assert acc + [] == acc;
    } else {
      var init := s[..|s| - 1];
      var last := s[|s| - 1];
      var tail := if last in acc || last in init then [] else [last];
      calc {
        DedupInto(acc, s);
        { assert s == init + [last];
          DedupIntoAppend(acc, init, [last]);
          DedupIntoSingle(DedupInto(acc, init), last); }
        DedupInto(acc, init) + tail;
        { DedupIntoIsFirstSeen(acc, init); }
        acc + FirstSeen(acc, init) + tail;
        acc + (FirstSeen(acc, init) + tail);
        acc + FirstSeen(acc, s);
      }
    }
  }

  /** Folding in one name appends it exactly when it is new. */
  lemma DedupIntoSingle(r: seq<string>, x: string)
    ensures DedupInto(r, [x]) == if x in r then r else r + [x]
  {
    assert [x][1..] == [];
  }

  /** Dropping an element from the front of the whole keeps a subsequence a subsequence. */
  lemma SubsequenceCons(a: seq<string>, x: string, b: seq<string>)
    requires IsSubsequence(a, b)
    ensures IsSubsequence(a, [x] + b)
  {
    if a != [] {
      assert ([x] + b)[1..] == b;
    }
  }

  /** A duplicate-free list is left as it is by the fold. */
  lemma {:induction false} DedupIntoDistinct(acc: seq<string>, s: seq<string>)
    requires NoDuplicates(acc + s)
    ensures DedupInto(acc, s) == acc + s
    decreases |s|
  {
    if s != [] {
      assert (acc + s)[|acc|] == s[0];
      assert s[0] !in acc by {
        forall k | 0 <= k < |acc| ensures acc[k] != s[0] {
          assert (acc + s)[k] == acc[k];
        }
      }
      assert (acc + [s[0]]) + s[1..] == acc + s;
      DedupIntoDistinct(acc + [s[0]], s[1..]);
    }
  }

  /** Folding a concatenation is folding its two parts one after the other. */
  lemma {:induction false} DedupIntoAppend(acc: seq<string>, a: seq<string>, b: seq<string>)
    ensures DedupInto(acc, a + b) == DedupInto(DedupInto(acc, a), b)
    decreases |a|
  {
    if a != [] {
      assert (a + b)[0] == a[0] && (a + b)[1..] == a[1..] + b;
      if a[0] in acc {
        DedupIntoAppend(acc, a[1..], b);
      } else {
        DedupIntoAppend(acc + [a[0]], a[1..], b);
      }
    } else {
      assert a + b == b;
    }
  }

  /** The category list loaded from storage: the defaults followed by the saved names, without repeats. */
  function MergeCategories(saved: seq<string>): (r: seq<string>)
    ensures r == DefaultCategories + FirstSeen(DefaultCategories, saved)
  {
    DedupIntoAppend([], DefaultCategories, saved);
    DefaultCategoriesShape();
    DedupIntoDistinct([], DefaultCategories);
    assert [] + DefaultCategories == DefaultCategories;
    DedupIntoIsFirstSeen(DefaultCategories, saved);
    DedupInto([], DefaultCategories + saved)
  }

  /**
   * The loaded list starts with the defaults in their order, holds exactly the
   * defaults and the saved names, has no repeats, and keeps the saved names in
   * the order they were first seen.
   */
  lemma MergeCategoriesSpec(saved: seq<string>)
    ensures var r := MergeCategories(saved);
      |DefaultCategories| <= |r| && r[..|DefaultCategories|] == DefaultCategories
      && NoDuplicates(r)
      && (forall c :: c in r <==> c in DefaultCategories || c in saved)
      && IsSubsequence(r[|DefaultCategories|..], saved)
      && r[|DefaultCategories|..] == FirstSeen(DefaultCategories, saved)
  {
    DefaultCategoriesShape();
    DedupIntoAppend([], DefaultCategories, saved);
    DedupIntoDistinct([], DefaultCategories);
    assert [] + DefaultCategories == DefaultCategories;
  }

  /** Listing a saved movie's category: appended at the end unless it is already present. */
  function AddCategory(categories: seq<string>, c: string): (r: seq<string>)
    ensures c in r
    ensures |categories| <= |r| && r[..|categories|] == categories
    ensures |r| == if c in categories then |categories| else |categories| + 1
  {
    if c in categories then categories else categories + [c]
  }

  /** Adding a category never introduces a repeat. */
  lemma AddCategoryKeepsDistinct(categories: seq<string>, c: string)
    requires NoDuplicates(categories)
    ensures NoDuplicates(AddCategory(categories, c))
  {
  }
}
