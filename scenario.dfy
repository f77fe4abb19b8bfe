/** A walk through the app on its seed data: commit the filter
    "o", add "otto", remove "loan". Every entry here is lower-case, so a
    one-letter filter matches exactly the entries holding that letter. */
module Scenario {
  import opened Text
  import opened View
  import opened Entries
  import opened App

  /** A lower-case entry matches a one-letter lower-case filter exactly when
      it holds that letter. */
  lemma MatchesLetter(name: string, c: char)
    requires forall i :: 0 <= i < |name| ==> !IsUpper(name[i])
    requires !IsUpper(c)
    ensures Matches(name, [c]) <==> c in name
  {
    ToLowerOfLower(name);
    ToLowerOfLower([c]);
    ContainsChar(name, c);
  }

  lemma LoanMatchesO()
    ensures Matches("loan", "o")
  {
    MatchesLetter("loan", 'o');
    assert "loan"[1] == 'o';
  }

  lemma OtravalievMatchesO()
    ensures Matches("otravaliev", "o")
  {
    MatchesLetter("otravaliev", 'o');
    assert "otravaliev"[0] == 'o';
  }

  lemma ManiMissesO()
    ensures !Matches("mani", "o")
  {
    MatchesLetter("mani", 'o');
  }

  lemma EcokMatchesO()
    ensures Matches("ecok", "o")
  {
    MatchesLetter("ecok", 'o');
    assert "ecok"[2] == 'o';
  }

  lemma OttoMatchesO()
    ensures Matches("otto", "o")
  {
    MatchesLetter("otto", 'o');
    assert "otto"[0] == 'o';
  }

  /** Filtering four entries of which only the third fails to match. */
  lemma FilterAllButThird(a: string, b: string, c: string, d: string, filter: string)
    requires Matches(a, filter) && Matches(b, filter) && !Matches(c, filter) && Matches(d, filter)
    ensures Filter([b, c, d], filter) == [b, d]
    ensures Filter([a, b, c, d], filter) == [a, b, d]
  {
    assert Filter([d], filter) == [d] by {
      assert [d][1..] == [];
    }
    assert Filter([c, d], filter) == [d] by {
      assert [c, d][1..] == [d];
    }
    assert Filter([b, c, d], filter) == [b, d] by {
      assert [b, c, d][1..] == [c, d];
    }
    assert [a, b, c, d][1..] == [b, c, d];
  }

  /** Filtering the seed by "o" keeps every entry except "mani": the seed
      entry "ecok" holds an "o" too. */
  lemma FilterSeedByO()
    ensures Filter(Seed[1..], "o") == ["otravaliev", "ecok"]
    ensures Filter(Seed, "o") == ["loan", "otravaliev", "ecok"]
  {
    LoanMatchesO();
    OtravalievMatchesO();
    ManiMissesO();
    EcokMatchesO();
    FilterAllButThird("loan", "otravaliev", "mani", "ecok", "o");
    assert Seed[1..] == ["otravaliev", "mani", "ecok"];
  }

  /** An entry list ending in "otto" shows "otto" last under the filter "o". */
  lemma FilterWithOttoByO(list: seq<string>)
    ensures Filter(list + ["otto"], "o") == Filter(list, "o") + ["otto"]
  {
    assert Filter(["otto"], "o") == ["otto"] by {
      OttoMatchesO();
    }
    FilterAppend(list, ["otto"], "o");
  }

  /** The view after committing "o", before and after "otto" is added. */
  lemma SeedViewByO()
    ensures Derive(Seed, "o", 10) == ["loan", "otravaliev", "ecok"]
    ensures Derive(Seed + ["otto"], "o", 10) == ["loan", "otravaliev", "ecok", "otto"]
  {
    FilterSeedByO();
    FilterWithOttoByO(Seed);
    DerivePageBounds(Seed, "o", 10);
    DerivePageBounds(Seed + ["otto"], "o", 10);
  }

  /** "loan" is the first entry, so removing it drops the head. */
  lemma RemoveLoan()
    ensures RemoveFirst(Seed + ["otto"], "loan") == Seed[1..] + ["otto"]
  {
    var list := Seed + ["otto"];
    RemoveFirstPresent(list, "loan");
    assert IndexOf(list, "loan") == 0;
    assert list[1..] == Seed[1..] + ["otto"];
  }

  /** After "loan" is removed the view shows the three entries that hold
      an "o". */
  lemma ViewAfterRemovingLoan()
    ensures Derive(Seed[1..] + ["otto"], "o", 10) == ["otravaliev", "ecok", "otto"]
  {
    FilterSeedByO();
    FilterWithOttoByO(Seed[1..]);
    DerivePageBounds(Seed[1..] + ["otto"], "o", 10);
  }

  /** Typing "o" in the search box and pressing "Search" on the initial state. */
  method SearchForO(app: Coordinator, search: SearchInput)
    requires app.list == Seed && app.options == InitialOptions
    modifies app, search
    ensures app.list == Seed && app.options.filter == "o" && app.options.pageSize == 10
    ensures app.FilteredList() == ["loan", "otravaliev", "ecok"]
  {
    search.Edit("o");
    search.Search(app);
    SeedViewByO();
  }

  /** Typing "otto" in the list's name field and pressing "Add". */
  method AddOtto(app: Coordinator, editor: List)
    requires app.list == Seed && app.options.filter == "o" && app.options.pageSize == 10
    modifies app, editor
    ensures app.list == Seed + ["otto"] && app.options.filter == "o" && app.options.pageSize == 10
    ensures app.FilteredList() == ["loan", "otravaliev", "ecok", "otto"]
  {
    editor.Edit("otto");
    editor.Add(app);
    SeedViewByO();
  }

  /** Pressing "Remove" on the first row, which shows "loan". */
  method RemoveFirstRow(app: Coordinator, editor: List)
    requires app.list == Seed + ["otto"] && app.options.filter == "o" && app.options.pageSize == 10
    requires app.FilteredList() == ["loan", "otravaliev", "ecok", "otto"]
    modifies app
    ensures app.list == Seed[1..] + ["otto"]
    ensures app.FilteredList() == ["otravaliev", "ecok", "otto"]
  {
    editor.Remove(app, 0);
    RemoveLoan();
    ViewAfterRemovingLoan();
  }

  /** The walk-through, driven through the controls. */
  method EndToEnd() {
    var app := new Coordinator();
    var search := new SearchInput();
    var editor := new List();
    SearchForO(app, search);
    AddOtto(app, editor);
    RemoveFirstRow(app, editor);
    assert app.FilteredList() == ["otravaliev", "ecok", "otto"];
  }
}
