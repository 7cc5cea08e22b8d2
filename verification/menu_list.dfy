/** The editable menu list of the lunch roulette: what `addMenu` and `removeMenu` do to it. */
module MenuList {
  import opened JsText

  /** The list the component starts with when nothing is stored. */
  const DefaultMenus: seq<string> := ["비빔밥", "김치찌개", "된장찌개", "불고기", "짜장면", "짬뽕", "초밥", "라멘"]

  /** Fewest items the wheel needs before it can spin or lose an item. */
  const MinMenus := 2

  predicate NoDuplicates(menus: seq<string>) {
    forall i, j :: 0 <= i < j < |menus| ==> menus[i] != menus[j]
  }

  lemma DefaultMenusWellFormed()
    ensures |DefaultMenus| == 8 && NoDuplicates(DefaultMenus)
  {
  }

  /** Whether `addMenu` takes `input`: its trim is non-empty and not yet listed. */
  predicate AddAccepted(menus: seq<string>, input: string)
  {
    Trim(input) != [] && Trim(input) !in menus
  }

  /** The list after `addMenu` with the text box holding `input`. */
  function Added(menus: seq<string>, input: string): (r: seq<string>)
  {
    if AddAccepted(menus, input) then menus + [Trim(input)] else menus
  }

  /** An accepted add appends exactly the trimmed text and leaves the earlier items alone. */
  lemma AddedAppends(menus: seq<string>, input: string)
    requires AddAccepted(menus, input)
    ensures var r := Added(menus, input);
      |r| == |menus| + 1 && r[..|menus|] == menus && r[|menus|] == Trim(input) && Trimmed(r[|menus|])
  {
  }

  /** Text that is blank (only whitespace) or already listed once trimmed changes nothing. */
  lemma AddedRejects(menus: seq<string>, input: string)
    requires AllWhitespace(input) || Trim(input) in menus
    ensures Added(menus, input) == menus
  {
  }

  /** `addMenu` changes the list exactly when it accepts. */
  lemma AddedChangesIff(menus: seq<string>, input: string)
    ensures Added(menus, input) != menus <==> AddAccepted(menus, input)
  {
    if AddAccepted(menus, input) {
      assert |Added(menus, input)| == |menus| + 1;
    }
  }

  /** `addMenu` never introduces a duplicate. */
  lemma AddedKeepsNoDuplicates(menus: seq<string>, input: string)
    requires NoDuplicates(menus)
    ensures NoDuplicates(Added(menus, input))
  {
    var r := Added(menus, input);
    if AddAccepted(menus, input) {
      forall i, j | 0 <= i < j < |r| ensures r[i] != r[j] {
        if j == |menus| {
          assert r[i] == menus[i];
        } else {
          assert r[i] == menus[i] && r[j] == menus[j];
        }
      }
    }
  }

  /** Adding the same text a second time changes nothing. */
  lemma AddedTwice(menus: seq<string>, input: string)
    ensures Added(Added(menus, input), input) == Added(menus, input)
  {
    if AddAccepted(menus, input) {
      var r := Added(menus, input);
      assert r[|menus|] == Trim(input);
      assert Trim(input) in r;
    }
  }

  /** Where JavaScript's `Array.prototype.splice(start, ...)` begins for a list of length `len`:
      a negative start counts back from the end, and both ends are clamped. */
  function SpliceStart(len: nat, start: int): (k: nat)
    ensures k <= len
    ensures 0 <= start < len ==> k == start
    ensures -(len as int) <= start < 0 ==> k == len as int + start
    ensures start >= len ==> k == len
    ensures start < -(len as int) ==> k == 0
  {
    if start < 0 then (if len + start < 0 then 0 else len + start)
    else if start < len then start else len
  }

  /** `list.splice(start, 1)` on a copy of `list`: the copy without its element at the
      (clamped) start, or unchanged when the start is past the end. */
  function SpliceOne(list: seq<string>, start: int): (r: seq<string>)
    ensures var k := SpliceStart(|list|, start); |r| == if k < |list| then |list| - 1 else |list|
    ensures var k := SpliceStart(|list|, start);
      forall i :: 0 <= i < |r| ==> r[i] == if i < k then list[i] else list[i + 1]
  {
    var k := SpliceStart(|list|, start);
    if k < |list| then list[..k] + list[k + 1..] else list
  }

  /** The list after `removeMenu(index)`: refused (unchanged) at two items or fewer, otherwise
      the list spliced at `index`. Whatever the index, a list of two or more never drops below
      two, and at most one item goes. */
  function Removed(menus: seq<string>, index: int): (r: seq<string>)
    ensures |menus| >= MinMenus ==> |r| >= MinMenus
    ensures |menus| - 1 <= |r| <= |menus|
  {
    if |menus| <= MinMenus then menus else SpliceOne(menus, index)
  }

  /** The removal guard: a list of two items or fewer is left as it is. */
  lemma RemovedGuard(menus: seq<string>, index: int)
    requires |menus| <= 2
    ensures Removed(menus, index) == menus
  {
  }

  /** Above the floor, removing a valid index drops exactly that item and keeps the order
      of the others. */
  lemma RemovedAt(menus: seq<string>, index: int)
    requires |menus| > 2 && 0 <= index < |menus|
    ensures var r := Removed(menus, index);
      |r| == |menus| - 1 && r == menus[..index] + menus[index + 1..]
      && multiset(r) + multiset{menus[index]} == multiset(menus)
  {
    var r := Removed(menus, index);
    assert menus == menus[..index] + [menus[index]] + menus[index + 1..];
  }

  /** Every item left after `removeMenu` was there before. */
  lemma RemovedSubset(menus: seq<string>, index: int)
    ensures multiset(Removed(menus, index)) <= multiset(menus)
  {
    var k := SpliceStart(|menus|, index);
    if |menus| > 2 && k < |menus| {
      assert menus == menus[..k] + [menus[k]] + menus[k + 1..];
    }
  }

  /** `removeMenu` never introduces a duplicate. */
  lemma RemovedKeepsNoDuplicates(menus: seq<string>, index: int)
    requires NoDuplicates(menus)
    ensures NoDuplicates(Removed(menus, index))
  {
    var r := Removed(menus, index);
    var k := SpliceStart(|menus|, index);
    if |menus| > 2 && k < |menus| {
      forall i, j | 0 <= i < j < |r| ensures r[i] != r[j] {
        var i', j' := if i < k then i else i + 1, if j < k then j else j + 1;
        assert r[i] == menus[i'] && r[j] == menus[j'];
      }
    }
  }
}
