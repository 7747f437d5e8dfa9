/**
 * The pure rules of the project list (nextjs-frontend/src/components/projects.tsx): the
 * search filter, the sort orders and the header toggles that select them, the rename
 * submission, and each row's link target.  A project's `lastModified` date is modelled
 * by its timestamp, and `localeCompare` by a collation key compared lexicographically.
 */
module Projects {
  import opened Wrappers
  import opened Text

  datatype Project = Project(id: string, title: string, file: string, lastModified: int)

  // ---------------------------------------------------------------- search

  /** The filter's test: the lower-cased query occurs in the lower-cased title or file name. */
  predicate Matches(p: Project, query: string)
    ensures query == "" ==> Matches(p, query)
    ensures Matches(p, query) ==> |query| <= |p.title| || |query| <= |p.file|
  {
    Includes(ToLower(p.title), ToLower(query)) || Includes(ToLower(p.file), ToLower(query))
  }

  /** `projects.filter(...)`: the matching projects, in their list order. */
  function Filter(ps: seq<Project>, query: string): (r: seq<Project>)
    ensures |r| <= |ps|
    ensures forall p :: p in r <==> p in ps && Matches(p, query)
  {
    if ps == [] then []
    else
      var rest := Filter(ps[1..], query);
      assert forall p :: p in ps <==> p == ps[0] || p in ps[1..];
      if Matches(ps[0], query) then [ps[0]] + rest else rest
  }

  /** The filter keeps each matching project as many times as the list holds it, and drops the rest. */
  lemma {:induction false} FilterKeepsCounts(ps: seq<Project>, query: string)
    ensures forall p :: multiset(Filter(ps, query))[p] == if Matches(p, query) then multiset(ps)[p] else 0
  {
    if ps != [] {
      FilterKeepsCounts(ps[1..], query);
      var rest := Filter(ps[1..], query);
      assert ps == [ps[0]] + ps[1..];
      assert multiset(ps) == multiset{ps[0]} + multiset(ps[1..]);
      if Matches(ps[0], query) {
        assert multiset([ps[0]] + rest) == multiset{ps[0]} + multiset(rest);
      }
    }
  }

  /** `r` is `s` with some elements left out, the rest in the same order. */
  predicate IsSubsequence(r: seq<Project>, s: seq<Project>)
    decreases |s|
  {
    |r| <= |s| &&
    (r == [] || (r[0] == s[0] && IsSubsequence(r[1..], s[1..])) || IsSubsequence(r, s[1..]))
  }

  lemma {:induction false} FilterIsSubsequence(ps: seq<Project>, query: string)
    ensures IsSubsequence(Filter(ps, query), ps)
  {
    if ps != [] {
      FilterIsSubsequence(ps[1..], query);
      var rest := Filter(ps[1..], query);
      if Matches(ps[0], query) {
        assert ([ps[0]] + rest)[1..] == rest;
      }
    }
  }

  /** An empty search box shows every project. */
  lemma {:induction false} EmptyQueryKeepsAll(ps: seq<Project>)
    ensures Filter(ps, "") == ps
  {
    if ps != [] {
      EverythingIncludesEmpty(ToLower(ps[0].title));
      EmptyQueryKeepsAll(ps[1..]);
    }
  }

  /** Case does not matter: a query and its lower-cased form select the same projects. */
  lemma {:induction false} QueryCaseInsensitive(ps: seq<Project>, query: string)
    ensures Filter(ps, query) == Filter(ps, ToLower(query))
  {
    assert ToLower(ToLower(query)) == ToLower(query);
    if ps != [] {
      QueryCaseInsensitive(ps[1..], query);
    }
  }

  // ---------------------------------------------------------------- sorting

  datatype SortOrder = NewestFirst | OldestFirst | TitleAscending | TitleDescending

  /** `a` may be listed before `b` under the comparator of `order`. */
  predicate Le(order: SortOrder, collate: string -> seq<int>, a: Project, b: Project) {
    match order
    case NewestFirst => a.lastModified >= b.lastModified
    case OldestFirst => a.lastModified <= b.lastModified
    case TitleAscending => LexLe(collate(a.title), collate(b.title))
    case TitleDescending => LexLe(collate(b.title), collate(a.title))
  }

  lemma LeTotal(order: SortOrder, collate: string -> seq<int>, a: Project, b: Project)
    ensures Le(order, collate, a, b) || Le(order, collate, b, a)
  {
    LexTotal(collate(a.title), collate(b.title));
  }

  lemma LeTransitive(order: SortOrder, collate: string -> seq<int>, a: Project, b: Project, c: Project)
    requires Le(order, collate, a, b) && Le(order, collate, b, c)
    ensures Le(order, collate, a, c)
  {
    match order
    case TitleAscending => LexTransitive(collate(a.title), collate(b.title), collate(c.title));
    case TitleDescending => LexTransitive(collate(c.title), collate(b.title), collate(a.title));
    case _ =>
  }

  predicate SortedBy(order: SortOrder, collate: string -> seq<int>, s: seq<Project>) {
    forall i, j :: 0 <= i < j < |s| ==> Le(order, collate, s[i], s[j])
  }

  predicate AdjacentSorted(order: SortOrder, collate: string -> seq<int>, s: seq<Project>) {
    forall k :: 0 < k < |s| ==> Le(order, collate, s[k - 1], s[k])
  }

  lemma {:induction false} AdjacentSortedIsSorted(order: SortOrder, collate: string -> seq<int>, s: seq<Project>)
    requires AdjacentSorted(order, collate, s)
    ensures SortedBy(order, collate, s)
  {
    if |s| > 1 {
      var t := s[1..];
      assert AdjacentSorted(order, collate, t) by {
        forall k | 0 < k < |t| ensures Le(order, collate, t[k - 1], t[k]) {
          assert t[k - 1] == s[k] && t[k] == s[k + 1];
        }
      }
      AdjacentSortedIsSorted(order, collate, t);
      forall i, j | 0 <= i < j < |s| ensures Le(order, collate, s[i], s[j]) {
        if i > 0 {
          assert s[i] == t[i - 1] && s[j] == t[j - 1];
        } else if j > 1 {
          assert s[1] == t[0] && s[j] == t[j - 1];
          LeTransitive(order, collate, s[0], s[1], s[j]);
        }
      }
    }
  }

  /** The order the list is shown in: a date sort wins over a name sort; neither means filter order. */
  function ActiveOrder(alphabeticalDown: Option<bool>, dateDown: Option<bool>): (r: Option<SortOrder>)
    ensures r.None? <==> alphabeticalDown.None? && dateDown.None?
    ensures r == Some(NewestFirst) <==> dateDown == Some(true)
    ensures r == Some(OldestFirst) <==> dateDown == Some(false)
    ensures r == Some(TitleAscending) <==> dateDown.None? && alphabeticalDown == Some(true)
    ensures r == Some(TitleDescending) <==> dateDown.None? && alphabeticalDown == Some(false)
  {
    if dateDown.Some? then Some(if dateDown.value then NewestFirst else OldestFirst)
    else if alphabeticalDown.Some? then Some(if alphabeticalDown.value then TitleAscending else TitleDescending)
    else None
  }

  // ---------------------------------------------------------------- header toggles

  /** A header's own flag on click: unset becomes descending, otherwise the direction flips. */
  function NextToggle(prev: Option<bool>): (r: Option<bool>)
    ensures r.Some?
    ensures prev.Some? ==> r.value != prev.value
  {
    if prev.None? then Some(true) else Some(!prev.value)
  }

  /** After the first click a header alternates between its two directions. */
  lemma ToggleCycle(prev: Option<bool>)
    ensures NextToggle(None) == Some(true)
    ensures NextToggle(NextToggle(prev)) == (if prev.None? then Some(false) else prev)
  {
  }

  // ---------------------------------------------------------------- renaming

  /** The mapped list: the project(s) with `projectId` get title `newName`, all else is kept. */
  function Rename(ps: seq<Project>, projectId: string, newName: string): (r: seq<Project>)
    ensures |r| == |ps|
    ensures forall i :: 0 <= i < |ps| ==>
      r[i].id == ps[i].id && r[i].file == ps[i].file && r[i].lastModified == ps[i].lastModified
    ensures forall i :: 0 <= i < |ps| ==> r[i].title == (if ps[i].id == projectId then newName else ps[i].title)
  {
    seq(|ps|, i requires 0 <= i < |ps| => if ps[i].id == projectId then ps[i].(title := newName) else ps[i])
  }

  /** The list after a rename submission: unchanged for a name that trims to nothing. */
  function SubmitRename(ps: seq<Project>, projectId: string, newName: string): (r: seq<Project>)
    ensures IsBlank(newName) ==> r == ps
    ensures !IsBlank(newName) ==> r == Rename(ps, projectId, newName)
  {
    TrimEmptyIffBlank(newName);
    if Trim(newName) == "" then ps else Rename(ps, projectId, newName)
  }

  /** A rename of an id no project has changes nothing. */
  lemma RenameUnknownIdIsNoop(ps: seq<Project>, projectId: string, newName: string)
    requires forall p :: p in ps ==> p.id != projectId
    ensures SubmitRename(ps, projectId, newName) == ps
  {
    var r := SubmitRename(ps, projectId, newName);
    if !IsBlank(newName) {
      forall i | 0 <= i < |ps| ensures r[i] == ps[i] {
        assert ps[i] in ps;
      }
    }
  }

  // ---------------------------------------------------------------- row link

  const EditorRoute: string := "/editor/"
  const ProjectsRoute: string := "/projects"

  /** A row's link: the project's editor page, or the list itself while any rename is in progress. */
  function RowHref(renaming: Option<string>, id: string): (href: string)
    ensures renaming.None? ==> href == EditorRoute + id
    ensures renaming.Some? ==> href == ProjectsRoute
    ensures EditorRoute <= href <==> renaming.None?
  {
    if renaming.None? then EditorRoute + id
    else
      assert ProjectsRoute[1] != EditorRoute[1];
      ProjectsRoute
  }
}
