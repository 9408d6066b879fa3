/** `MentionList`: the `@mention` dropdown. Its one piece of state, `selectedIndex`, is
    reset to 0 whenever the items change and moved by the arrow keys; Enter hands the
    selected note to `command`. */
module MentionList {
  import opened Wrappers
  import opened Strings

  /** `MentionItem`: a note offered for linking. A missing title stands for the `null` or
      `undefined` title the suggestion filter guards against. */
  datatype MentionItem = MentionItem(id: int, title: Option<string>)

  /** The argument of `command`: `{ id: String(item.id), label: item.title }` (`label` is a Dafny keyword, hence `itemLabel`). */
  datatype MentionCommand = MentionCommand(id: string, itemLabel: Option<string>)

  /** The keys `onKeyDown` tells apart. `OtherKey`'s `name` stands for a key other than
      `"ArrowUp"`, `"ArrowDown"` and `"Enter"`: those three are the other constructors. */
  datatype Key = ArrowUp | ArrowDown | Enter | OtherKey(name: string)

  /** The number held in `selectedIndex`: an integer, or `NaN` once an arrow key was
      pressed with no items (a remainder by zero). */
  datatype Index = At(i: int) | NaN

  /** JavaScript's `%` on integers: the remainder takes the sign of the dividend. */
  function JsRem(a: int, n: int): (r: int)
    requires n != 0
    ensures a >= 0 && n > 0 ==> r == a % n
    ensures a < 0 ==> r <= 0
  {
    var m := if n < 0 then -n else n;
    if a >= 0 then a % m else -((-a) % m)
  }

  /** ArrowUp: `(prev - 1 + items.length) % items.length`. */
  function ArrowUpIndex(prev: Index, n: nat): (r: Index)
    ensures r.NaN? <==> prev.NaN? || n == 0
    ensures prev.At? && 0 <= prev.i && n > 0 ==> 0 <= r.i < n
  {
    match prev
    case NaN => NaN
    case At(i) => if n == 0 then NaN else At(JsRem(i - 1 + n, n))
  }

  /** ArrowDown: `(prev + 1) % items.length`. */
  function ArrowDownIndex(prev: Index, n: nat): (r: Index)
    ensures r.NaN? <==> prev.NaN? || n == 0
    ensures prev.At? && -1 <= prev.i && n > 0 ==> 0 <= r.i < n
  {
    match prev
    case NaN => NaN
    case At(i) => if n == 0 then NaN else At(JsRem(i + 1, n))
  }

  /** `items[selectedIndex]`: the item at that position, or `undefined`. */
  function Selected(items: seq<MentionItem>, index: Index): (r: Option<MentionItem>)
    ensures r.Some? <==> index.At? && 0 <= index.i < |items|
    ensures r.Some? ==> r.value == items[index.i]
    ensures items == [] ==> r == None
  {
    if index.At? && 0 <= index.i < |items| then Some(items[index.i]) else None
  }

  /** What Enter hands to `command` for an item. */
  function CommandFor(item: MentionItem): (c: MentionCommand)
    ensures c.itemLabel == item.title
    ensures |c.id| >= 1 && (c.id[0] == '-' <==> item.id < 0)
    ensures forall i :: (if item.id < 0 then 1 else 0) <= i < |c.id| ==> '0' <= c.id[i] <= '9'
    ensures IntValue(c.id) == item.id
  {
    MentionCommand(IntToString(item.id), item.title)
  }

  /** A remainder of a number below twice the divisor subtracts the divisor at most once. */
  lemma RemBelowTwice(a: int, n: int)
    requires n > 0 && 0 <= a < 2 * n
    ensures a % n == if a < n then a else a - n
  {
    if a >= n {
      assert a - n == a % n + (a / n - 1) * n;
    }
  }

  /** With at least one item and an index in range, both arrow keys keep the index in range;
      ArrowUp from 0 wraps to the last item and ArrowDown from the last item wraps to 0. */
  lemma ArrowsStayInRange(i: int, n: nat)
    requires 0 <= i < n
    ensures ArrowUpIndex(At(i), n) == At(if i == 0 then n - 1 else i - 1)
    ensures ArrowDownIndex(At(i), n) == At(if i == n - 1 then 0 else i + 1)
  {
    RemBelowTwice(i - 1 + n, n);
    RemBelowTwice(i + 1, n);
  }

  /** ArrowUp undoes ArrowDown and ArrowDown undoes ArrowUp. */
  lemma ArrowsAreInverse(i: int, n: nat)
    requires 0 <= i < n
    ensures ArrowUpIndex(ArrowDownIndex(At(i), n), n) == At(i)
    ensures ArrowDownIndex(ArrowUpIndex(At(i), n), n) == At(i)
  {
    ArrowsStayInRange(i, n);
    var d := ArrowDownIndex(At(i), n).i;
    ArrowsStayInRange(d, n);
    var u := ArrowUpIndex(At(i), n).i;
    ArrowsStayInRange(u, n);
  }

  /** With no items an arrow key turns the index into `NaN`, which no later arrow key
      undoes and at which Enter finds no item, whatever the items are. */
  lemma EmptyListGivesNaN(prev: Index, n: nat, items: seq<MentionItem>)
    ensures ArrowUpIndex(prev, 0) == NaN && ArrowDownIndex(prev, 0) == NaN
    ensures ArrowUpIndex(NaN, n) == NaN && ArrowDownIndex(NaN, n) == NaN
    ensures Selected(items, NaN) == None
  {
  }

  class MentionListState {
    /** The `items` prop. */
    var items: seq<MentionItem>
    /** The `selectedIndex` state cell. */
    var selectedIndex: Index

    /** The first render: the index starts at 0. */
    constructor (items: seq<MentionItem>)
      ensures this.items == items && selectedIndex == At(0)
    {
      this.items := items;
      selectedIndex := At(0);
    }

    /** New `items` arrive: the effect resets the index to 0. */
    method SetItems(newItems: seq<MentionItem>)
      modifies this
      ensures items == newItems && selectedIndex == At(0)
    {
      items := newItems;
      selectedIndex := At(0);
    }

    /** `onKeyDown`: the arrows move the index and Enter hands the selected item, if any,
        to `command` (returned here, `None` when nothing is called); each of the three
        reports the key as handled. Any other key is not handled and changes nothing. */
    method OnKeyDown(key: Key) returns (handled: bool, command: Option<MentionCommand>)
      modifies this
      ensures handled <==> !key.OtherKey?
      ensures items == old(items)
      ensures key.ArrowUp? ==> selectedIndex == ArrowUpIndex(old(selectedIndex), |items|) && command == None
      ensures key.ArrowDown? ==> selectedIndex == ArrowDownIndex(old(selectedIndex), |items|) && command == None
      ensures key.Enter? ==> selectedIndex == old(selectedIndex)
      ensures key.Enter? && Selected(items, selectedIndex).Some? ==>
                command == Some(CommandFor(Selected(items, selectedIndex).value))
      ensures key.Enter? && Selected(items, selectedIndex).None? ==> command == None
      ensures key.OtherKey? ==> selectedIndex == old(selectedIndex) && command == None
    {
      command := None;
      match key {
        case ArrowUp =>
          selectedIndex := ArrowUpIndex(selectedIndex, |items|);
          handled := true;
        case ArrowDown =>
          selectedIndex := ArrowDownIndex(selectedIndex, |items|);
          handled := true;
        case Enter =>
          var item := Selected(items, selectedIndex);
          if item.Some? {
            command := Some(CommandFor(item.value));
          }
          handled := true;
        case OtherKey(_) =>
          handled := false;
      }
    }
  }
}
