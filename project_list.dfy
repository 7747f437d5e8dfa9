/**
 * The project list view's state and handlers (nextjs-frontend/src/components/projects.tsx):
 * the project list, the search box, the two sort flags, and the rename in progress.  The
 * displayed rows are the filtered list copied into a fresh array and sorted in place.
 */
module ProjectList {
  import opened Wrappers
  import opened Text
  import opened Projects

  /** `sortedProjects.sort(cmp)` for the comparator of `order`: a stable insertion sort. */
  method SortInPlace(a: array<Project>, order: SortOrder, collate: string -> seq<int>)
    modifies a
    ensures SortedBy(order, collate, a[..])
    ensures multiset(a[..]) == multiset(old(a[..]))
  {
    var i := 0;
    while i < a.Length
      invariant 0 <= i <= a.Length
      invariant AdjacentSorted(order, collate, a[..i])
      invariant multiset(a[..]) == multiset(old(a[..]))
    {
      InsertAt(a, i, order, collate);
      i := i + 1;
    }
    assert a[..i] == a[..];
    AdjacentSortedIsSorted(order, collate, a[..]);
  }

  /** One pass of the insertion sort: moves `a[i]` left into the sorted prefix `a[..i]`. */
  method InsertAt(a: array<Project>, i: nat, order: SortOrder, collate: string -> seq<int>)
    requires i < a.Length
    requires AdjacentSorted(order, collate, a[..i])
    modifies a
    ensures AdjacentSorted(order, collate, a[..i + 1])
    ensures multiset(a[..]) == multiset(old(a[..]))
  {
    var j := i;
    while j > 0 && !Le(order, collate, a[j - 1], a[j])
      invariant 0 <= j <= i
      invariant forall k :: 0 < k <= i && k != j ==> Le(order, collate, a[k - 1], a[k])
      invariant 0 < j < i ==> Le(order, collate, a[j - 1], a[j + 1])
      invariant multiset(a[..]) == multiset(old(a[..]))
    {
      LeTotal(order, collate, a[j - 1], a[j]);
      Swap(a, j - 1, j);
      j := j - 1;
    }
  }

  method Swap(a: array<Project>, i: nat, j: nat)
    requires i < j < a.Length
    modifies a
    ensures a[i] == old(a[j]) && a[j] == old(a[i])
    ensures forall k :: 0 <= k < a.Length && k != i && k != j ==> a[k] == old(a[k])
    ensures multiset(a[..]) == multiset(old(a[..]))
  {
    a[i], a[j] := a[j], a[i];
  }

  /**
   * The rows shown: a permutation of the filtered list, ordered by the date flag when it
   * is set, else by the name flag, else left in filter order.
   */
  method DisplayedProjects(filtered: seq<Project>, alphabeticalDown: Option<bool>, dateDown: Option<bool>,
                           collate: string -> seq<int>) returns (r: seq<Project>)
    ensures multiset(r) == multiset(filtered)
    ensures dateDown == Some(true) ==> SortedBy(NewestFirst, collate, r)
    ensures dateDown == Some(false) ==> SortedBy(OldestFirst, collate, r)
    ensures dateDown.None? && alphabeticalDown == Some(true) ==> SortedBy(TitleAscending, collate, r)
    ensures dateDown.None? && alphabeticalDown == Some(false) ==> SortedBy(TitleDescending, collate, r)
    ensures dateDown.None? && alphabeticalDown.None? ==> r == filtered
  {
    var a := new Project[|filtered|](i requires 0 <= i < |filtered| => filtered[i]);
    assert a[..] == filtered;
    var order := ActiveOrder(alphabeticalDown, dateDown);
    if order.Some? {
      SortInPlace(a, order.value, collate);
    }
    r := a[..];
  }

  class ProjectsView {
    var projects: seq<Project>
    var searchQuery: string
    var alphabeticalDown: Option<bool>
    var dateDown: Option<bool>
    /** The id of the project whose name is being edited. */
    var renaming: Option<string>
    var newName: string

    /** At most one header sorts the list. */
    ghost predicate OneSortKey()
      reads this
    {
      alphabeticalDown.None? || dateDown.None?
    }

    constructor (initialProjects: seq<Project>)
      ensures projects == initialProjects && searchQuery == ""
      ensures alphabeticalDown == None && dateDown == Some(true)
      ensures renaming == None && newName == ""
      ensures OneSortKey()
    {
      projects := initialProjects;
      searchQuery := "";
      alphabeticalDown := None;
      dateDown := Some(true);
      renaming := None;
      newName := "";
    }

    method SetSearchQuery(query: string)
      modifies this`searchQuery
      ensures searchQuery == query
    {
      searchQuery := query;
    }

    /** Click on the "Name" header: drop the date sort and advance the name flag. */
    method OnNameHeaderClick()
      modifies this`alphabeticalDown, this`dateDown
      ensures dateDown == None && alphabeticalDown == NextToggle(old(alphabeticalDown))
      ensures OneSortKey()
    {
      dateDown := None;
      alphabeticalDown := NextToggle(alphabeticalDown);
    }

    /** Click on the "Last Modified" header: drop the name sort and advance the date flag. */
    method OnDateHeaderClick()
      modifies this`alphabeticalDown, this`dateDown
      ensures alphabeticalDown == None && dateDown == NextToggle(old(dateDown))
      ensures OneSortKey()
    {
      alphabeticalDown := None;
      dateDown := NextToggle(dateDown);
    }

    /** "Rename" in a row's context menu: edit that project's name, starting from its title. */
    method BeginRename(p: Project)
      modifies this`renaming, this`newName
      ensures renaming == Some(p.id) && newName == p.title
    {
      renaming := Some(p.id);
      newName := p.title;
    }

    /** Typing in the rename box. */
    method SetNewName(name: string)
      modifies this`newName
      ensures newName == name
    {
      newName := name;
    }

    /** Enter or blur in the rename box: apply a non-blank name, then leave rename mode either way. */
    method HandleRenameSubmit(projectId: string)
      modifies this`projects, this`renaming, this`newName
      ensures projects == SubmitRename(old(projects), projectId, old(newName))
      ensures IsBlank(old(newName)) ==> projects == old(projects)
      ensures renaming == None && newName == ""
    {
      if Trim(newName) != "" {
        projects := Rename(projects, projectId, newName);
      }
      TrimEmptyIffBlank(old(newName));
      renaming := None;
      newName := "";
    }

    /** Following a row's link leaves rename mode. */
    method OnRowLinkClick()
      modifies this`renaming, this`newName
      ensures renaming == None && newName == ""
    {
      renaming := None;
      newName := "";
    }

    /** The rows of the table: the projects matching the search, in the active sort order. */
    method Rows(collate: string -> seq<int>) returns (rows: seq<Project>)
      ensures forall p :: p in rows <==> p in projects && Matches(p, searchQuery)
      ensures multiset(rows) == multiset(Filter(projects, searchQuery))
      ensures |rows| <= |projects|
      ensures dateDown == Some(true) ==> SortedBy(NewestFirst, collate, rows)
      ensures dateDown == Some(false) ==> SortedBy(OldestFirst, collate, rows)
      ensures dateDown.None? && alphabeticalDown == Some(true) ==> SortedBy(TitleAscending, collate, rows)
      ensures dateDown.None? && alphabeticalDown == Some(false) ==> SortedBy(TitleDescending, collate, rows)
      ensures dateDown.None? && alphabeticalDown.None? ==> rows == Filter(projects, searchQuery)
    {
      var filtered := Filter(projects, searchQuery);
      rows := DisplayedProjects(filtered, alphabeticalDown, dateDown, collate);
      assert forall p :: p in rows <==> p in filtered by {
        forall p ensures p in rows <==> p in filtered {
          assert p in rows <==> p in multiset(rows);
          assert p in filtered <==> p in multiset(filtered);
        }
      }
      assert |rows| == |multiset(rows)| == |multiset(filtered)| == |filtered|;
    }
  }
}
