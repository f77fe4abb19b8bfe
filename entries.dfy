/** The two updaters of the entry list: `onAddEntry` appends with
    `concat`, `onRemoveEntry` locates the name with `indexOf` and drops that
    position with `filter`. */
module Entries {

  /** `current.concat(name)`: the name goes to the end, no uniqueness check. */
  function Append(list: seq<string>, name: string): (r: seq<string>)
    ensures |r| == |list| + 1
    ensures r[..|list|] == list && r[|list|] == name
  {
    list + [name]
  }

  /** `current.indexOf(name)`: the first position holding `name`, or -1. */
  function IndexOf(list: seq<string>, name: string): (r: int)
    ensures -1 <= r < |list|
    ensures r == -1 <==> name !in list
    ensures 0 <= r ==> list[r] == name && name !in list[..r]
  {
    if list == [] then -1
    else if list[0] == name then 0
    else
      var k := IndexOf(list[1..], name);
      if k == -1 then -1
      else
        assert list[..k + 1] == [list[0]] + list[1..][..k];
        k + 1
  }

  /** `current.filter((_, i) => i !== index)`: every position except `index`,
      so one element shorter exactly when `index` is a position of the list. */
  function WithoutPosition(list: seq<string>, index: int): (r: seq<string>)
    ensures |r| == if 0 <= index < |list| then |list| - 1 else |list|
  {
    if list == [] then []
    else (if index == 0 then [] else [list[0]]) + WithoutPosition(list[1..], index - 1)
  }

  /** Dropping an in-range position splices the list around it; any other
      index (in particular -1) keeps the list whole. */
  lemma {:induction false} WithoutPositionSplices(list: seq<string>, index: int)
    ensures WithoutPosition(list, index)
      == if 0 <= index < |list| then list[..index] + list[index + 1..] else list
  {
    if list != [] {
      WithoutPositionSplices(list[1..], index - 1);
      if 0 < index < |list| {
        assert list[..index] == [list[0]] + list[1..][..index - 1];
        assert list[index + 1..] == list[1..][index..];
      }
    }
  }

  /** The new list `onRemoveEntry(name)` produces: one element shorter
      exactly when the name is present. */
  function RemoveFirst(list: seq<string>, name: string): (r: seq<string>)
    ensures |r| == if name in list then |list| - 1 else |list|
  {
    WithoutPosition(list, IndexOf(list, name))
  }

  /** With `name` present, exactly the element at its first position goes. */
  lemma RemoveFirstPresent(list: seq<string>, name: string)
    requires name in list
    ensures var i := IndexOf(list, name);
      0 <= i < |list| && list[i] == name && name !in list[..i] &&
      RemoveFirst(list, name) == list[..i] + list[i + 1..]
  {
    WithoutPositionSplices(list, IndexOf(list, name));
  }

  /** With `name` absent, `indexOf` gives -1 and nothing is removed. */
  lemma RemoveFirstAbsent(list: seq<string>, name: string)
    requires name !in list
    ensures RemoveFirst(list, name) == list
  {
    WithoutPositionSplices(list, -1);
  }

  /** Removing an absent name again changes nothing further. */
  lemma RemoveAbsentIdempotent(list: seq<string>, name: string)
    requires name !in list
    ensures RemoveFirst(RemoveFirst(list, name), name) == RemoveFirst(list, name)
  {
    RemoveFirstAbsent(list, name);
  }

  /** Removal takes away one occurrence of `name` when there is one, and no
      other entry: the multiset of entries loses `name` once. */
  lemma RemoveFirstMultiset(list: seq<string>, name: string)
    ensures multiset(RemoveFirst(list, name)) == multiset(list) - multiset{name}
    ensures |RemoveFirst(list, name)| == if name in list then |list| - 1 else |list|
  {
    if name in list {
      RemoveFirstPresent(list, name);
      var i := IndexOf(list, name);
      assert list == list[..i] + [list[i]] + list[i + 1..];
    } else {
      RemoveFirstAbsent(list, name);
    }
  }

  /** Only the first of two equal entries is removed. */
  lemma RemoveFirstOfDuplicates()
    ensures RemoveFirst(["a", "b", "a"], "a") == ["b", "a"]
  {
    WithoutPositionSplices(["a", "b", "a"], 0);
  }

  /** Removing a freshly added name that was not there before undoes the add. */
  lemma RemoveUndoesFreshAppend(list: seq<string>, name: string)
    requires name !in list
    ensures RemoveFirst(Append(list, name), name) == list
  {
    RemoveFirstPresent(Append(list, name), name);
  }

  /** If the name was already present, removing after the add removes the
      older copy and the added one stays at the end. */
  lemma RemoveAfterAppendOfPresent(list: seq<string>, name: string)
    requires name in list
    ensures RemoveFirst(Append(list, name), name) == RemoveFirst(list, name) + [name]
  {
    var i := IndexOf(list, name);
    RemoveFirstPresent(list, name);
    RemoveFirstPresent(Append(list, name), name);
    assert Append(list, name)[..i] == list[..i];
    assert Append(list, name)[i + 1..] == list[i + 1..] + [name];
  }
}
