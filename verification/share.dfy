/**
 * The text the screen hands to the share sheet: a header, the items still to
 * buy (or a line saying everything is bought), then the bought items when there
 * are any, one `- name (quantity)` entry per item.
 *
 * `ShareMessage` is the message as the screen assembles it; `ShareLines` is an
 * independent description of the same message as a list of lines, which the
 * lemmas below tie to the text and use to state what each section holds.
 */
module Share {
  import opened Text
  import opened Items

  // ----- the message as the screen builds it -----

  const Header: string := "🛒 **Ma Liste de Courses**\n\n"
  const ToBuyTitle: string := "📌 À acheter :\n"
  const AllBought: string := "🎉 Tout est acheté !\n"
  const BoughtTitle: string := "\n✅ Déjà acheté :\n"

  /** How one item is shown: `- name (quantity)`, without the line break. */
  function EntryLine(item: Item): (line: string)
    ensures |line| > 0 && line[0] == '-'
  {
    "- " + item.name + " (" + item.quantity + ")"
  }

  /** The entries of `items`, each on its own line, in order (the text a `forEach` appends). */
  function Entries(items: seq<Item>): string
  {
    if items == [] then []
    else Entries(items[..|items| - 1]) + EntryLine(items[|items| - 1]) + "\n"
  }

  /** The to-buy section: its title and entries, or the celebration line when there is nothing to buy. */
  function ToBuySection(toBuy: seq<Item>): string
  {
    if |toBuy| > 0 then ToBuyTitle + Entries(toBuy) else AllBought
  }

  /** The bought section: its title and entries, or nothing at all when nothing is bought. */
  function BoughtSection(bought: seq<Item>): string
  {
    if |bought| > 0 then BoughtTitle + Entries(bought) else []
  }

  /** The share message for `list`. */
  function ShareMessage(list: seq<Item>): (message: string)
    ensures Header <= message
  {
    Header + ToBuySection(WithStatus(list, false)) + BoughtSection(WithStatus(list, true))
  }

  /** `items.forEach(item => { message += `- ${item.name} (${item.quantity})\n` })`. */
  method AppendEntries(prefix: string, items: seq<Item>) returns (message: string)
    ensures message == prefix + Entries(items)
  {
    message := prefix;
    var i := 0;
    while i < |items|
      invariant 0 <= i <= |items|
      invariant message == prefix + Entries(items[..i])
    {
      message := message + EntryLine(items[i]) + "\n";
      assert items[..i + 1][..i] == items[..i];
      i := i + 1;
    }
    assert items[..i] == items;
  }

  /** When nothing is left to buy, and only then, the celebration line follows the header. */
  lemma CelebrationIffAllBought(list: seq<Item>)
    ensures AllBought <= ShareMessage(list)[|Header|..] <==> forall i :: 0 <= i < |list| ==> list[i].isBought
  {
    var message := ShareMessage(list);
    WithStatusEmptyIff(list, false);
    var toBuy := WithStatus(list, false);
    var tail := BoughtSection(WithStatus(list, true));
    assert message[|Header|..] == ToBuySection(toBuy) + tail;
    if |toBuy| > 0 {
      assert message[|Header|] == ToBuyTitle[0] != AllBought[0];
    }
  }

  // ----- the same message as lines -----

  const HeaderLine: string := "🛒 **Ma Liste de Courses**"
  const ToBuyTitleLine: string := "📌 À acheter :"
  const AllBoughtLine: string := "🎉 Tout est acheté !"
  const BoughtTitleLine: string := "✅ Déjà acheté :"

  /** One line per item, in order. */
  function EntryLines(items: seq<Item>): (lines: seq<string>)
    ensures |lines| == |items|
  {
    if items == [] then []
    else EntryLines(items[..|items| - 1]) + [EntryLine(items[|items| - 1])]
  }

  /** Line `k` shows item `k`. */
  lemma {:induction false} EntryLinesAt(items: seq<Item>, k: nat)
    requires k < |items|
    ensures EntryLines(items)[k] == EntryLine(items[k])
  {
    var init := items[..|items| - 1];
    if k < |init| {
      EntryLinesAt(init, k);
    }
  }

  const HeadLines: seq<string> := [HeaderLine, ""]

  /** The to-buy section as lines. */
  function ToBuyLines(toBuy: seq<Item>): seq<string>
  {
    if toBuy != [] then [ToBuyTitleLine] + EntryLines(toBuy) else [AllBoughtLine]
  }

  /** The bought section as lines, starting with the blank line that separates it. */
  function BoughtLines(bought: seq<Item>): seq<string>
  {
    if bought != [] then ["", BoughtTitleLine] + EntryLines(bought) else []
  }

  /** The lines of the share message: header, blank line, the to-buy section, then the bought section if any. */
  function ShareLines(list: seq<Item>): seq<string>
  {
    HeadLines + ToBuyLines(WithStatus(list, false)) + BoughtLines(WithStatus(list, true))
  }

  /** The entries text is one `- name (quantity)` line per item, in order, each ended by a line break. */
  lemma {:induction false} EntriesAsLines(items: seq<Item>)
    ensures Entries(items) == JoinLines(EntryLines(items))
  {
    if items != [] {
      var init, last := items[..|items| - 1], items[|items| - 1];
      EntriesAsLines(init);
      JoinLinesAppend(EntryLines(init), [EntryLine(last)]);
    }
  }

  lemma HeadAsLines()
    ensures JoinLines(HeadLines) == Header
  {
    assert JoinLines([""]) == "\n";
  }

  lemma ToBuyAsLines(toBuy: seq<Item>)
    ensures JoinLines(ToBuyLines(toBuy)) == ToBuySection(toBuy)
  {
    if toBuy != [] {
      EntriesAsLines(toBuy);
      JoinLinesAppend([ToBuyTitleLine], EntryLines(toBuy));
      assert JoinLines([ToBuyTitleLine]) == ToBuyTitleLine + "\n";
    } else {
      assert JoinLines([AllBoughtLine]) == AllBoughtLine + "\n";
    }
  }

  lemma BoughtAsLines(bought: seq<Item>)
    ensures JoinLines(BoughtLines(bought)) == BoughtSection(bought)
  {
    if bought != [] {
      EntriesAsLines(bought);
      JoinLinesAppend(["", BoughtTitleLine], EntryLines(bought));
      assert JoinLines([BoughtTitleLine]) == BoughtTitleLine + "\n";
      assert JoinLines(["", BoughtTitleLine]) == "\n" + BoughtTitleLine + "\n";
    }
  }

  /** The message is exactly its lines, each followed by a line break. */
  lemma ShareMessageIsJoinedLines(list: seq<Item>)
    ensures ShareMessage(list) == JoinLines(ShareLines(list))
  {
    var middle := ToBuyLines(WithStatus(list, false));
    var tail := BoughtLines(WithStatus(list, true));
    JoinLinesAppend(HeadLines + middle, tail);
    JoinLinesAppend(HeadLines, middle);
    HeadAsLines();
    ToBuyAsLines(WithStatus(list, false));
    BoughtAsLines(WithStatus(list, true));
  }

  /** Names and quantities typed on one line each, as the screen's text inputs produce. */
  predicate SingleLineFields(list: seq<Item>)
  {
    forall i :: 0 <= i < |list| ==> NoNewline(list[i].name) && NoNewline(list[i].quantity)
  }

  /** Read back line by line, the message gives exactly `ShareLines`. */
  lemma ShareMessageDecodes(list: seq<Item>)
    requires SingleLineFields(list)
    ensures SplitLines(ShareMessage(list)) == ShareLines(list)
  {
    var toBuy, bought := WithStatus(list, false), WithStatus(list, true);
    EntryLinesSingle(toBuy, list);
    EntryLinesSingle(bought, list);
    var lines := ShareLines(list);
    assert forall k :: 0 <= k < |HeadLines| ==> NoNewline(HeadLines[k]);
    assert forall k :: 0 <= k < |ToBuyLines(toBuy)| ==> NoNewline(ToBuyLines(toBuy)[k]);
    assert forall k :: 0 <= k < |BoughtLines(bought)| ==> NoNewline(BoughtLines(bought)[k]);
    ShareMessageIsJoinedLines(list);
    SplitJoinLines(lines);
  }

  /** The entry lines of items taken from a list of single-line items are single lines. */
  lemma EntryLinesSingle(items: seq<Item>, list: seq<Item>)
    requires SingleLineFields(list)
    requires forall k :: 0 <= k < |items| ==> items[k] in list
    ensures forall k :: 0 <= k < |items| ==> NoNewline(EntryLines(items)[k])
  {
    forall k | 0 <= k < |items|
      ensures NoNewline(EntryLines(items)[k])
    {
      EntryLinesAt(items, k);
    }
  }

  /** A line that does not start with `-` is not the line of any item. */
  lemma NotAnEntry(line: string, items: seq<Item>)
    requires line == [] || line[0] != '-'
    ensures line !in EntryLines(items)
  {
    forall k | 0 <= k < |items|
      ensures EntryLines(items)[k] != line
    {
      EntryLinesAt(items, k);
    }
  }

  /** The celebration line is present exactly when nothing is left to buy. */
  lemma AllBoughtLineIff(list: seq<Item>)
    ensures AllBoughtLine in ShareLines(list) <==> forall i :: 0 <= i < |list| ==> list[i].isBought
  {
    var toBuy, bought := WithStatus(list, false), WithStatus(list, true);
    WithStatusEmptyIff(list, false);
    NotAnEntry(AllBoughtLine, toBuy);
    NotAnEntry(AllBoughtLine, bought);
    assert AllBoughtLine !in HeadLines;
    assert AllBoughtLine !in BoughtLines(bought);
    assert AllBoughtLine in ToBuyLines(toBuy) <==> toBuy == [];
  }

  /** The "to buy" title is present exactly when some item is not bought. */
  lemma ToBuySectionIff(list: seq<Item>)
    ensures ToBuyTitleLine in ShareLines(list) <==> exists i :: 0 <= i < |list| && !list[i].isBought
  {
    var toBuy, bought := WithStatus(list, false), WithStatus(list, true);
    WithStatusEmptyIff(list, false);
    NotAnEntry(ToBuyTitleLine, toBuy);
    NotAnEntry(ToBuyTitleLine, bought);
    assert ToBuyTitleLine !in HeadLines;
    assert ToBuyTitleLine !in BoughtLines(bought);
    assert ToBuyTitleLine in ToBuyLines(toBuy) <==> toBuy != [];
  }

  /** The "bought" section is present exactly when some item is bought. */
  lemma BoughtSectionIff(list: seq<Item>)
    ensures BoughtTitleLine in ShareLines(list) <==> exists i :: 0 <= i < |list| && list[i].isBought
  {
    var toBuy, bought := WithStatus(list, false), WithStatus(list, true);
    WithStatusEmptyIff(list, true);
    NotAnEntry(BoughtTitleLine, toBuy);
    NotAnEntry(BoughtTitleLine, bought);
    assert BoughtTitleLine !in HeadLines;
    assert BoughtTitleLine !in ToBuyLines(toBuy);
    assert BoughtTitleLine in BoughtLines(bought) <==> bought != [];
  }

  /** The lines that show an item: those starting with `-`. */
  function ItemLines(lines: seq<string>): seq<string>
  {
    if lines == [] then []
    else
      var last := lines[|lines| - 1];
      ItemLines(lines[..|lines| - 1]) + (if |last| > 0 && last[0] == '-' then [last] else [])
  }

  lemma {:induction false} ItemLinesAppend(a: seq<string>, b: seq<string>)
    ensures ItemLines(a + b) == ItemLines(a) + ItemLines(b)
  {
    if b == [] {
      assert a + b == a;
    } else {
      assert (a + b)[..|a + b| - 1] == a + b[..|b| - 1];
      ItemLinesAppend(a, b[..|b| - 1]);
    }
  }

  lemma {:induction false} ItemLinesOfEntries(items: seq<Item>)
    ensures ItemLines(EntryLines(items)) == EntryLines(items)
  {
    if items != [] {
      var init := items[..|items| - 1];
      ItemLinesOfEntries(init);
      ItemLinesAppend(EntryLines(init), [EntryLine(items[|items| - 1])]);
    }
  }

  /** Adding an item at the end adds its line at the end. */
  lemma EntryLinesSnoc(items: seq<Item>, x: Item)
    ensures EntryLines(items + [x]) == EntryLines(items) + [EntryLine(x)]
  {
    assert (items + [x])[..|items|] == items;
  }

  /** The lines of two groups of items are the lines of each group, one after the other. */
  lemma {:induction false} EntryLinesAppend(a: seq<Item>, b: seq<Item>)
    ensures EntryLines(a + b) == EntryLines(a) + EntryLines(b)
  {
    if b == [] {
      assert a + b == a;
    } else {
      var init := b[..|b| - 1];
      assert a + b == (a + init) + [b[|b| - 1]];
      EntryLinesAppend(a, init);
      EntryLinesSnoc(a + init, b[|b| - 1]);
      EntryLinesSnoc(init, b[|b| - 1]);
      assert init + [b[|b| - 1]] == b;
    }
  }

  /** Lines none of which starts with `-` show no item. */
  lemma {:induction false} NoItemLines(lines: seq<string>)
    requires forall k :: 0 <= k < |lines| ==> lines[k] == [] || lines[k][0] != '-'
    ensures ItemLines(lines) == []
  {
    if lines != [] {
      NoItemLines(lines[..|lines| - 1]);
    }
  }

  /** The item lines of a section are its entries. */
  lemma SectionItemLines(title: seq<string>, items: seq<Item>)
    requires forall k :: 0 <= k < |title| ==> title[k] == [] || title[k][0] != '-'
    ensures ItemLines(title + EntryLines(items)) == EntryLines(items)
  {
    ItemLinesAppend(title, EntryLines(items));
    NoItemLines(title);
    ItemLinesOfEntries(items);
  }

  lemma ToBuyItemLines(toBuy: seq<Item>)
    ensures ItemLines(ToBuyLines(toBuy)) == EntryLines(toBuy)
  {
    if toBuy != [] {
      SectionItemLines([ToBuyTitleLine], toBuy);
    } else {
      NoItemLines([AllBoughtLine]);
    }
  }

  lemma BoughtItemLines(bought: seq<Item>)
    ensures ItemLines(BoughtLines(bought)) == EntryLines(bought)
  {
    if bought != [] {
      SectionItemLines(["", BoughtTitleLine], bought);
    } else {
      NoItemLines([]);
    }
  }

  /** The item lines of the message are the to-buy items then the bought items, each group in list order. */
  lemma ItemLinesInOrder(list: seq<Item>)
    ensures ItemLines(ShareLines(list)) == EntryLines(WithStatus(list, false)) + EntryLines(WithStatus(list, true))
  {
    SectionsItemLines(WithStatus(list, false), WithStatus(list, true));
  }

  lemma SectionsItemLines(toBuy: seq<Item>, bought: seq<Item>)
    ensures ItemLines(HeadLines + ToBuyLines(toBuy) + BoughtLines(bought)) == EntryLines(toBuy) + EntryLines(bought)
  {
    var middle, tail := ToBuyLines(toBuy), BoughtLines(bought);
    ItemLinesAppend(HeadLines + middle, tail);
    ItemLinesAppend(HeadLines, middle);
    HeadItemLines();
    ToBuyItemLines(toBuy);
    BoughtItemLines(bought);
  }

  lemma HeadItemLines()
    ensures ItemLines(HeadLines) == []
  {
    NoItemLines(HeadLines);
  }

  /**
   * The item lines are the lines of a rearrangement of the list: every item of
   * the list is shown on exactly one item line.
   */
  lemma EachItemOnce(list: seq<Item>)
    ensures ItemLines(ShareLines(list)) == EntryLines(WithStatus(list, false) + WithStatus(list, true))
    ensures multiset(WithStatus(list, false) + WithStatus(list, true)) == multiset(list)
  {
    ItemLinesInOrder(list);
    EntryLinesAppend(WithStatus(list, false), WithStatus(list, true));
    WithStatusPartition(list);
  }
}
