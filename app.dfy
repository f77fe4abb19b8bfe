/** The state of `App`: an options record and the entry list, each a state
    cell that the updaters replace wholesale, and the three input controls,
    each holding a draft that only its own button commits. */
module App {
  import opened Entries
  import opened View

  /** The options record: filter term, page size, header visibility. */
  datatype Options = Options(filter: string, pageSize: int, showHeader: bool)

  const InitialOptions: Options := Options("", 10, true)

  /** The four entries the list starts with. */
  const Seed: seq<string> := ["loan", "otravaliev", "mani", "ecok"]

  /** Owner of the canonical state; `FilteredList` is the view the list
      control is given. */
  class Coordinator {
    var options: Options
    var list: seq<string>

    constructor ()
      ensures options == InitialOptions && list == Seed
    {
      options := InitialOptions;
      list := Seed;
    }

    /** `filteredList`, recomputed from the current state on every read:
        only matching entries of the list, at most a page of them. */
    function FilteredList(): (r: seq<string>)
      reads this
      ensures forall x :: x in r ==> x in list && Matches(x, options.filter)
      ensures 0 <= options.pageSize ==> |r| <= options.pageSize
    {
      DeriveSound(list, options.filter, options.pageSize);
      Derive(list, options.filter, options.pageSize)
    }

    /** `setFilter`: only the filter changes. */
    method SetFilter(filter: string)
      modifies this
      ensures options == old(options).(filter := filter)
      ensures list == old(list)
    {
      options := options.(filter := filter);
    }

    /** `setPageSize`: only the page size changes; no clamping. */
    method SetPageSize(pageSize: int)
      modifies this
      ensures options == old(options).(pageSize := pageSize)
      ensures list == old(list)
    {
      options := options.(pageSize := pageSize);
    }

    /** `setShowHeader`: only the flag changes, so the view computed for the
        list control is equal in value to the one before. */
    method SetShowHeader(showHeader: bool)
      modifies this
      ensures options == old(options).(showHeader := showHeader)
      ensures list == old(list)
      ensures FilteredList() == old(FilteredList())
    {
      options := options.(showHeader := showHeader);
    }

    /** `onAddEntry`: the name is appended; the options stay. */
    method AddEntry(name: string)
      modifies this
      ensures list == Append(old(list), name)
      ensures |list| == |old(list)| + 1 && list[..|old(list)|] == old(list) && list[|old(list)|] == name
      ensures options == old(options)
    {
      list := Append(list, name);
    }

    /** `onRemoveEntry`: the first occurrence of the name goes, if any; the
        options stay. */
    method RemoveEntry(name: string)
      modifies this
      ensures list == RemoveFirst(old(list), name)
      ensures multiset(list) == multiset(old(list)) - multiset{name}
      ensures name !in old(list) ==> list == old(list)
      ensures options == old(options)
    {
      RemoveFirstMultiset(list, name);
      if name !in list {
        RemoveFirstAbsent(list, name);
      }
      list := RemoveFirst(list, name);
    }
  }

  /** The search box: the typed term is a draft until "Search" commits it. */
  class SearchInput {
    var term: string

    constructor ()
      ensures term == ""
    {
      term := "";
    }

    /** Typing replaces the draft and touches nothing else. */
    method Edit(text: string)
      modifies this
      ensures term == text
    {
      term := text;
    }

    /** "Search": the draft becomes the filter and is kept as typed. */
    method Search(app: Coordinator)
      modifies app
      ensures app.options == old(app.options).(filter := term)
      ensures app.list == old(app.list)
    {
      app.SetFilter(term);
    }
  }

  /** The page-size field: a numeric draft, starting at 10, until "Save page
      size" commits it. */
  class PageSizeInput {
    var size: int

    constructor ()
      ensures size == 10
    {
      size := 10;
    }

    method Edit(n: int)
      modifies this
      ensures size == n
    {
      size := n;
    }

    /** "Save page size": the draft becomes the page size, unclamped. */
    method Save(app: Coordinator)
      modifies app
      ensures app.options == old(app.options).(pageSize := size)
      ensures app.list == old(app.list)
    {
      app.SetPageSize(size);
    }
  }

  /** The list control: shows the view with a "Remove" button per row, and
      holds the draft name for "Add". */
  class List {
    var newName: string

    constructor ()
      ensures newName == ""
    {
      newName := "";
    }

    method Edit(text: string)
      modifies this
      ensures newName == text
    {
      newName := text;
    }

    /** "Add": `disabled={!newName}` and only the empty string is falsy, so
        a non-empty draft is appended and an empty one changes nothing. The
        draft is not cleared. */
    method Add(app: Coordinator)
      modifies app
      ensures newName == "" ==> app.list == old(app.list)
      ensures newName != "" ==> app.list == Append(old(app.list), newName)
      ensures app.options == old(app.options)
    {
      if newName != "" {
        app.AddEntry(newName);
      }
    }

    /** "Remove" on a displayed row passes the row's value, not its index. */
    method Remove(app: Coordinator, row: nat)
      requires row < |app.FilteredList()|
      modifies app
      ensures app.list == RemoveFirst(old(app.list), old(app.FilteredList())[row])
      ensures |app.list| == |old(app.list)| - 1
      ensures app.options == old(app.options)
    {
      var name := app.FilteredList()[row];
      RemoveDisplayedRow(app.list, app.options.filter, app.options.pageSize, row);
      app.RemoveEntry(name);
    }
  }

  /** A value shown in the view is a raw entry, so removing it always
      removes exactly one entry. */
  lemma RemoveDisplayedRow(list: seq<string>, filter: string, pageSize: int, row: nat)
    requires row < |Derive(list, filter, pageSize)|
    ensures |RemoveFirst(list, Derive(list, filter, pageSize)[row])| == |list| - 1
  {
    DeriveSound(list, filter, pageSize);
    RemoveFirstMultiset(list, Derive(list, filter, pageSize)[row]);
  }

  /** With the initial options the view is the whole seed list. */
  lemma InitialViewIsSeed()
    ensures Derive(Seed, InitialOptions.filter, InitialOptions.pageSize) == Seed
  {
    EmptyFilterKeepsAll(Seed);
    DerivePageBounds(Seed, "", 10);
  }
}
