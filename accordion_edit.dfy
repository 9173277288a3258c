/**
 * The accordion block's editor: the four item-list operations and the FAQ
 * schema toggle. Each operation builds a new list from the current one and
 * hands it to the block's attribute store, which replaces the old list.
 */
module AccordionEdit {
  import opened AccordionItems
  import Decimal

  /** The item fields that `updateItem` is called with. */
  datatype Field = Title | Content | Open | Emoji

  /** A field value: rich text (possibly missing) or a flag. */
  datatype Value = Text(text: Option<string>) | Flag(flag: bool)

  /** `updateItem(index, field, value)` with the value typed by the field it goes to. */
  datatype Change = SetTitle(newTitle: string) | SetContent(newContent: string) | SetOpen(newOpen: bool) | SetEmoji(newEmoji: string)

  /** Reads `item[field]`. */
  function Get(it: Item, f: Field): Value {
    match f
    case Title => Text(it.title)
    case Content => Text(it.content)
    case Open => Flag(it.open)
    case Emoji => Text(it.emoji)
  }

  function FieldOf(c: Change): Field {
    match c
    case SetTitle(_) => Title
    case SetContent(_) => Content
    case SetOpen(_) => Open
    case SetEmoji(_) => Emoji
  }

  function ValueOf(c: Change): Value {
    match c
    case SetTitle(t) => Text(Some(t))
    case SetContent(t) => Text(Some(t))
    case SetOpen(b) => Flag(b)
    case SetEmoji(e) => Text(Some(e))
  }

  /** `item[field] = value`: the named field takes the value, every other field keeps its own. */
  function SetField(it: Item, c: Change): (r: Item)
    ensures Get(r, FieldOf(c)) == ValueOf(c)
    ensures forall f :: f != FieldOf(c) ==> Get(r, f) == Get(it, f)
  {
    match c
    case SetTitle(t) => it.(title := Some(t))
    case SetContent(t) => it.(content := Some(t))
    case SetOpen(b) => it.(open := b)
    case SetEmoji(e) => it.(emoji := Some(e))
  }

  /**
   * The record `addItem` pushes when the list held number - 1 items: closed,
   * without an emoji, and with a title and a content that carry no markup.
   */
  function NewItem(number: nat): (it: Item)
    ensures it.title.Some? && it.content.Some?
    ensures !it.open && it.emoji.None?
    ensures '<' !in it.title.value && '<' !in it.content.value
  {
    var n := Decimal.NatToString(number);
    Decimal.NatToStringHasNoAngle(number);
    Item(Some("Item " + n), Some("Content for item " + n), false, None)
  }

  /** The list after `addItem`. */
  function Appended(items: seq<Item>): (r: seq<Item>)
    ensures |r| == |items| + 1
    ensures r[..|items|] == items
    ensures r[|items|] == NewItem(|items| + 1)
  {
    items + [NewItem(|items| + 1)]
  }

  /** The list after `updateItem(index, field, value)` at a valid index. */
  function Updated(items: seq<Item>, index: int, c: Change): (r: seq<Item>)
    requires 0 <= index < |items|
    ensures |r| == |items|
    ensures Get(r[index], FieldOf(c)) == ValueOf(c)
    ensures forall f :: f != FieldOf(c) ==> Get(r[index], f) == Get(items[index], f)
    ensures forall j :: 0 <= j < |items| && j != index ==> r[j] == items[j]
  {
    items[index := SetField(items[index], c)]
  }

  /**
   * The list after `removeItem(index)`: `items.filter((_, i) => i !== index)`,
   * written as the filter it is, one position at a time from the front.
   */
  function Removed(items: seq<Item>, index: int): (r: seq<Item>)
    ensures 0 <= index < |items| ==> r == items[..index] + items[index + 1..]
    ensures !(0 <= index < |items|) ==> r == items
    decreases |items|
  {
    if items == [] then []
    else
      var rest := Removed(items[1..], index - 1);
      if index == 0 then rest else [items[0]] + rest
  }

  /** The list after `toggleItem(index)` at a valid index. */
  function Toggled(items: seq<Item>, index: int): (r: seq<Item>)
    requires 0 <= index < |items|
    ensures |r| == |items|
    ensures r[index].open == !items[index].open
    ensures r[index].title == items[index].title && r[index].content == items[index].content
    ensures r[index].emoji == items[index].emoji
    ensures forall j :: 0 <= j < |items| && j != index ==> r[j] == items[j]
  {
    items[index := items[index].(open := !items[index].open)]
  }

  /** The number in an appended item's default text is the new item count. */
  lemma AppendedDefaultText(items: seq<Item>)
    ensures var it := Appended(items)[|items|];
      exists n: string ::
        && Decimal.AllDigits(n) && Decimal.DigitsValue(n) == |items| + 1
        && |n| >= 1 && (|n| > 1 ==> n[0] != '0')
        && it.title == Some("Item " + n)
        && it.content == Some("Content for item " + n)
        && !it.open && it.emoji == None
  {
    var n := Decimal.NatToString(|items| + 1);
    Decimal.DigitsValueOfNatToString(|items| + 1);
    assert Appended(items)[|items|].title == Some("Item " + n);
  }

  /** The block's default list is exactly what `addItem` makes of an empty list. */
  lemma DefaultItemsAreFirstAppend()
    ensures Appended([]) == DefaultItems()
  {
    assert Decimal.DigitChar(1) == '1';
    assert Decimal.NatToString(1) == "1";
    assert "Item " + "1" == "Item 1";
    assert "Content for item " + "1" == "Content for item 1";
  }

  /** Removing the item just appended gives the list back. */
  lemma RemoveUndoesAppend(items: seq<Item>)
    ensures Removed(Appended(items), |items|) == items
  {
  }

  /** Toggling the same item twice restores the list. */
  lemma ToggleTwice(items: seq<Item>, index: int)
    requires 0 <= index < |items|
    ensures Toggled(Toggled(items, index), index) == items
  {
  }

  /** Toggling is updating the open field to the negation of its value. */
  lemma ToggleIsUpdateOfOpen(items: seq<Item>, index: int)
    requires 0 <= index < |items|
    ensures Toggled(items, index) == Updated(items, index, SetOpen(!items[index].open))
  {
  }

  /** A later update of the same field overrides an earlier one. */
  lemma UpdateSameFieldTwice(items: seq<Item>, index: int, c: Change, d: Change)
    requires 0 <= index < |items| && FieldOf(c) == FieldOf(d)
    ensures Updated(Updated(items, index, c), index, d) == Updated(items, index, d)
  {
  }

  /** The editor's operations never drop an item's title or content. */
  lemma OperationsKeepFieldsPresent(items: seq<Item>, index: int, c: Change)
    requires FieldsPresent(items)
    ensures FieldsPresent(Appended(items))
    ensures FieldsPresent(Removed(items, index))
    ensures 0 <= index < |items| ==> FieldsPresent(Updated(items, index, c))
    ensures 0 <= index < |items| ==> FieldsPresent(Toggled(items, index))
  {
  }

  /**
   * The state the editor component works on: the block's `items` and
   * `enableFAQSchema` attributes. Every list operation below replaces the
   * whole list, as the attribute store does, and says what the new list is.
   */
  class AccordionBlock {
    var items: seq<Item>
    var enableFAQSchema: bool

    /** A newly inserted block holds the default attributes. */
    constructor ()
      ensures items == DefaultItems() && !enableFAQSchema
    {
      items := DefaultItems();
      enableFAQSchema := false;
    }

    /** `addItem`: copy the list, push a default item, store the copy. */
    method AddItem()
      modifies this
      ensures items == Appended(old(items))
      ensures enableFAQSchema == old(enableFAQSchema)
      ensures old(FieldsPresent(items)) ==> FieldsPresent(items)
    {
      var newItems := items;
      newItems := newItems + [NewItem(|items| + 1)];
      items := newItems;
      if old(FieldsPresent(items)) {
        OperationsKeepFieldsPresent(old(items), 0, SetOpen(false));
      }
    }

    /**
     * `updateItem(index, field, value)`. At an index outside the list the
     * copy holds no item there and assigning to its field throws, so `ok`
     * is false and nothing is stored.
     */
    method UpdateItem(index: int, c: Change) returns (ok: bool)
      modifies this
      ensures ok <==> 0 <= index < |old(items)|
      ensures ok ==> items == Updated(old(items), index, c)
      ensures !ok ==> items == old(items)
      ensures enableFAQSchema == old(enableFAQSchema)
      ensures old(FieldsPresent(items)) ==> FieldsPresent(items)
    {
      var newItems := items;
      if !(0 <= index < |newItems|) {
        return false;
      }
      newItems := newItems[index := SetField(newItems[index], c)];
      items := newItems;
      ok := true;
      if old(FieldsPresent(items)) {
        OperationsKeepFieldsPresent(old(items), index, c);
      }
    }

    /** `removeItem(index)`: keep every item whose position is not index. */
    method RemoveItem(index: int)
      modifies this
      ensures items == Removed(old(items), index)
      ensures enableFAQSchema == old(enableFAQSchema)
      ensures old(FieldsPresent(items)) ==> FieldsPresent(items)
    {
      var newItems := Removed(items, index);
      items := newItems;
      if old(FieldsPresent(items)) {
        OperationsKeepFieldsPresent(old(items), index, SetOpen(false));
      }
    }

    /**
     * `toggleItem(index)`. At an index outside the list reading the copy's
     * item throws, so `ok` is false and nothing is stored.
     */
    method ToggleItem(index: int) returns (ok: bool)
      modifies this
      ensures ok <==> 0 <= index < |old(items)|
      ensures ok ==> items == Toggled(old(items), index)
      ensures !ok ==> items == old(items)
      ensures enableFAQSchema == old(enableFAQSchema)
      ensures old(FieldsPresent(items)) ==> FieldsPresent(items)
    {
      var newItems := items;
      if !(0 <= index < |newItems|) {
        return false;
      }
      newItems := newItems[index := newItems[index].(open := !newItems[index].open)];
      items := newItems;
      ok := true;
      if old(FieldsPresent(items)) {
        OperationsKeepFieldsPresent(old(items), index, SetOpen(false));
      }
    }

    /** The "Enable FAQ Schema" toggle: sets the flag and leaves the list alone. */
    method SetEnableFAQSchema(value: bool)
      modifies this
      ensures enableFAQSchema == value
      ensures items == old(items)
    {
      enableFAQSchema := value;
    }
  }
}
