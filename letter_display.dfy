/**
 * The two text helpers of the letter view
 * (src/components/ui/bid-letter-display.tsx): the plain-text rendering
 * copied to the clipboard, and the bullet list made from a multi-line field.
 */
module BidLetterDisplay {
  import opened JsText
  import opened BidSchema

  const Separator: string := "\n\n"
  const DeliverablesLeadIn: string := "\nOur bid is based on the following key deliverables:"
  const AssumptionsLeadIn: string := "\nAnd includes the following assumptions:"

  /** The seventeen blocks of the plain-text letter, in order. */
  function LetterParts(d: BidLetterData): (parts: seq<string>)
    ensures |parts| == 17
  {
    ["Date: " + d.date,
     d.recipientName,
     "\nSubject: " + d.subjectLine,
     "\n" + d.salutation,
     "\n" + d.openingParagraph,
     "\n" + d.projectUnderstandingParagraph,
     "\n" + d.methodologyTeaser,
     "\n" + d.budgetSummary,
     DeliverablesLeadIn,
     d.keyDeliverables,
     AssumptionsLeadIn,
     d.keyAssumptions,
     "\n" + d.closingParagraph,
     "\n" + d.signOff,
     "\n" + d.senderName,
     d.senderRole,
     d.senderCompany]
  }

  /** `formatLetterAsText`: the blocks joined by a blank line. */
  function FormatLetterAsText(d: BidLetterData): (text: string)
    ensures |text| >= 6 && text[..6] == "Date: "
  {
    Join(LetterParts(d), Separator)
  }

  /** Joining splits at any point: the parts before, the separator, the parts after. */
  lemma {:induction false} JoinAppend(a: seq<string>, b: seq<string>, sep: string)
    requires |a| >= 1 && |b| >= 1
    ensures Join(a + b, sep) == Join(a, sep) + sep + Join(b, sep)
  {
    if |a| == 1 {
      JoinCons(a[0], b, sep);
    } else {
      assert (a + b)[1..] == a[1..] + b;
      JoinAppend(a[1..], b, sep);
    }
  }

  /** The text before the deliverables block. */
  function LetterHead(d: BidLetterData): string {
    Join(LetterParts(d)[..9], Separator)
  }

  /** The text after the assumptions block. */
  function LetterTail(d: BidLetterData): string {
    Join(LetterParts(d)[12..], Separator)
  }

  /** The plain text is the head, the deliverables verbatim, the assumptions
      lead-in, the assumptions verbatim and the tail, a blank line apart. */
  lemma LetterBlocks(d: BidLetterData)
    ensures FormatLetterAsText(d)
         == LetterHead(d) + Separator + (d.keyDeliverables + Separator + (AssumptionsLeadIn
            + Separator + (d.keyAssumptions + Separator + LetterTail(d))))
  {
    var p := LetterParts(d);
    assert p == p[..9] + ([p[9]] + ([p[10]] + ([p[11]] + p[12..])));
    JoinAppend(p[..9], [p[9]] + ([p[10]] + ([p[11]] + p[12..])), Separator);
    JoinCons(p[9], [p[10]] + ([p[11]] + p[12..]), Separator);
    JoinCons(p[10], [p[11]] + p[12..], Separator);
    JoinCons(p[11], p[12..], Separator);
  }

  /** The head opens with the date line, then the recipient, and closes with
      the deliverables lead-in. */
  lemma LetterHeadLayout(d: BidLetterData)
    ensures LetterHead(d) == "Date: " + d.date + Separator + (d.recipientName + Separator
                             + Join(LetterParts(d)[2..9], Separator))
    ensures LetterHead(d) == Join(LetterParts(d)[..8], Separator) + Separator + DeliverablesLeadIn
  {
    var p := LetterParts(d);
    assert p[..9] == [p[0]] + ([p[1]] + p[2..9]);
    JoinCons(p[0], [p[1]] + p[2..9], Separator);
    JoinCons(p[1], p[2..9], Separator);
    assert p[..9] == p[..8] + [p[8]];
    JoinAppend(p[..8], [p[8]], Separator);
  }

  /** The copied text opens with the date line, a blank line and the recipient. */
  lemma LetterOpening(d: BidLetterData)
    ensures var opening := "Date: " + d.date + Separator + d.recipientName;
      |opening| <= |FormatLetterAsText(d)| && FormatLetterAsText(d)[..|opening|] == opening
  {
    var p := LetterParts(d);
    var rest := Join(p[1..], Separator);
    assert p[1..][0] == d.recipientName;
    assert FormatLetterAsText(d) == p[0] + Separator + rest;
    assert rest == d.recipientName + rest[|d.recipientName|..];
  }

  /** Splitting around a blank line: the lines before, one empty line, the lines after. */
  lemma SplitAroundBlankLine(x: string, y: string)
    ensures Split(x + Separator + y, '\n') == Split(x, '\n') + [""] + Split(y, '\n')
  {
    assert x + Separator + y == x + ['\n'] + (['\n'] + y);
    SplitAroundSeparator(x, ['\n'] + y, '\n');
    assert ['\n'] + y == [] + ['\n'] + y;
    SplitAroundSeparator([], y, '\n');
  }

  /** Helper: the lines of five blocks joined by blank lines. */
  lemma SplitFiveBlocks(h: string, b1: string, b2: string, b3: string, t: string)
    ensures Split(h + Separator + (b1 + Separator + (b2 + Separator + (b3 + Separator + t))), '\n')
         == Split(h, '\n') + [""] + (Split(b1, '\n') + [""] + (Split(b2, '\n') + [""]
            + (Split(b3, '\n') + [""] + Split(t, '\n'))))
  {
    var x3 := b3 + Separator + t;
    var x2 := b2 + Separator + x3;
    var x1 := b1 + Separator + x2;
    SplitAroundBlankLine(h, x1);
    SplitAroundBlankLine(b1, x2);
    SplitAroundBlankLine(b2, x3);
    SplitAroundBlankLine(b3, t);
  }

  /** The lines of the copied text hold the lines of the deliverables and of
      the assumptions unchanged, each block between empty lines. */
  lemma CopiedLines(d: BidLetterData)
    ensures Split(FormatLetterAsText(d), '\n')
         == Split(LetterHead(d), '\n') + [""] + (Split(d.keyDeliverables, '\n') + [""]
            + (Split(AssumptionsLeadIn, '\n') + [""] + (Split(d.keyAssumptions, '\n') + [""]
            + Split(LetterTail(d), '\n'))))
  {
    LetterBlocks(d);
    SplitFiveBlocks(LetterHead(d), d.keyDeliverables, AssumptionsLeadIn, d.keyAssumptions, LetterTail(d));
  }

  // ---------------------------------------------------------------------------
  // ListFromString

  /** The second alternative of the marker pattern as written in the source:
      the three characters U+00E2 U+20AC U+00A2 ("â€¢", the Windows-1252
      reading of the UTF-8 bytes of "•"), not the bullet U+2022 itself. */
  const Mojibake: string := ['\U{E2}', '\U{20AC}', '\U{A2}']

  /** `.replace(/^(-|â€¢)\s*\/, "")`: one leading marker and the whitespace
      after it. */
  function StripMarker(t: string): (r: string)
    ensures |r| <= |t| && r == t[|t| - |r|..]
    ensures r == t || r == [] || !IsWhitespace(r[0])
  {
    if |t| >= 1 && t[0] == '-' then TrimStart(t[1..])
    else if |t| >= 3 && t[..3] == Mojibake then TrimStart(t[3..])
    else t
  }

  /** Exactly one marker and the whitespace after it go, and a text that
      starts with neither marker is left as it is. */
  lemma StripsOneMarker(t: string)
    ensures |t| >= 1 && t[0] == '-' ==> StripMarker(t) == TrimStart(t[1..])
    ensures |t| >= 3 && t[..3] == Mojibake ==> StripMarker(t) == TrimStart(t[3..])
    ensures !(|t| >= 1 && t[0] == '-') && !(|t| >= 3 && t[..3] == Mojibake) ==> StripMarker(t) == t
  {
    if |t| >= 1 && t[0] == '-' {
      assert StripMarker(t) == TrimStart(t[1..]);
      assert |t| >= 3 ==> t[..3][0] != Mojibake[0];
    } else if |t| >= 3 && t[..3] == Mojibake {
      assert StripMarker(t) == TrimStart(t[3..]);
    } else {
      assert StripMarker(t) == t;
    }
  }

  /** The text of one list item made from one line: trimmed, then one
      marker and the whitespace after it removed. */
  function CleanItem(line: string): (r: string)
    ensures r == [] || (!IsWhitespace(r[0]) && !IsWhitespace(r[|r| - 1]))
  {
    StripMarker(Trim(line))
  }

  /** Cleaning adds no character: a line without a line break gives an
      item without one. */
  lemma CleanItemAvoids(line: string, c: char)
    requires c !in line
    ensures c !in CleanItem(line)
  {
    var t := Trim(line);
    TrimAvoids(line, c);
    SliceAvoids(t, |t| - |CleanItem(line)|, |t|, c);
  }

  /** One `<li key={index}>` element: its key (the line index) and its text. */
  datatype ListItem = ListItem(key: nat, text: string)

  /** Every line cleaned, in order. */
  function CleanLines(lines: seq<string>): (r: seq<string>)
    ensures |r| == |lines| && forall i {:trigger r[i]} :: 0 <= i < |lines| ==> r[i] == CleanItem(lines[i])
    ensures forall i {:trigger r[i]} :: 0 <= i < |lines| ==>
      r[i] == [] || (!IsWhitespace(r[i][0]) && !IsWhitespace(r[i][|r[i]| - 1]))
    ensures forall i {:trigger r[i]} :: 0 <= i < |lines| && '\n' !in lines[i] ==> '\n' !in r[i]
  {
    var r := seq(|lines|, i requires 0 <= i < |lines| => CleanItem(lines[i]));
    forall i | 0 <= i < |lines| && '\n' !in lines[i] ensures '\n' !in r[i] {
      CleanItemAvoids(lines[i], '\n');
    }
    r
  }

  /** Some item has key `j`. */
  predicate HasKey(items: seq<ListItem>, j: nat) {
    exists k :: 0 <= k < |items| && items[k].key == j
  }

  /** Putting an item in front keeps every key already present. */
  lemma ConsKeepsKeys(x: ListItem, rest: seq<ListItem>)
    ensures forall j: nat :: HasKey(rest, j) ==> HasKey([x] + rest, j)
  {
    forall j: nat | HasKey(rest, j) ensures HasKey([x] + rest, j) {
      var k :| 0 <= k < |rest| && rest[k].key == j;
      assert ([x] + rest)[k + 1] == rest[k];
    }
  }

  /** The items made from the cleaned lines from index `i` on: one item per
      non-empty cleaned line, in line order, keyed by the line's index. */
  function ItemsFrom(cleaned: seq<string>, i: nat): (items: seq<ListItem>)
    requires i <= |cleaned|
    ensures |items| <= |cleaned| - i
    ensures forall k :: 0 <= k < |items| ==>
      i <= items[k].key < |cleaned| && items[k].text == cleaned[items[k].key] && items[k].text != ""
    ensures forall k, l :: 0 <= k < l < |items| ==> items[k].key < items[l].key
    ensures forall j {:trigger HasKey(items, j)} :: i <= j < |cleaned| && cleaned[j] != "" ==> HasKey(items, j)
    decreases |cleaned| - i
  {
    if i == |cleaned| then []
    else
      var rest := ItemsFrom(cleaned, i + 1);
      if cleaned[i] != "" then
        ConsKeepsKeys(ListItem(i, cleaned[i]), rest);
        assert ([ListItem(i, cleaned[i])] + rest)[0].key == i;
        [ListItem(i, cleaned[i])] + rest
      else rest
  }

  /** `ListFromString`: split on "\n", clean each line, keep the non-empty
      ones with their line index as key. */
  function ListFromString(text: string): (items: seq<ListItem>)
    ensures var cleaned := CleanLines(Split(text, '\n'));
      (forall k :: 0 <= k < |items| ==> items[k].key < |cleaned| && items[k].text == cleaned[items[k].key])
      && (forall k, l :: 0 <= k < l < |items| ==> items[k].key < items[l].key)
      && (forall i {:trigger HasKey(items, i)} :: 0 <= i < |cleaned| ==> (cleaned[i] != "" <==> HasKey(items, i)))
    ensures |items| <= Count(text, '\n') + 1
  {
    ItemsFrom(CleanLines(Split(text, '\n')), 0)
  }

  /** The items kept as text: non-empty, single-line and trimmed. */
  predicate IsItemText(t: string) {
    t != "" && '\n' !in t && !IsWhitespace(t[0]) && !IsWhitespace(t[|t| - 1])
  }

  /** Every item is non-empty, holds no line break and is already trimmed. */
  lemma ItemsAreCleanLines(text: string, k: nat)
    requires k < |ListFromString(text)|
    ensures IsItemText(ListFromString(text)[k].text)
  {
    var lines := Split(text, '\n');
    var item := ListFromString(text)[k];
    CleanItemAvoids(lines[item.key], '\n');
  }

  /** The same for every item text at once. */
  lemma AllItemsAreCleanLines(text: string)
    ensures var texts := Texts(ListFromString(text));
      forall k :: 0 <= k < |texts| ==> IsItemText(texts[k])
  {
    var items := ListFromString(text);
    forall k | 0 <= k < |items| ensures IsItemText(Texts(items)[k]) {
      ItemsAreCleanLines(text, k);
    }
  }

  /** Cleaned lines that are all non-empty are all kept. */
  lemma {:induction false} KeepsEveryLine(cleaned: seq<string>, i: nat)
    requires i <= |cleaned|
    requires forall j :: i <= j < |cleaned| ==> cleaned[j] != ""
    ensures var items := ItemsFrom(cleaned, i);
      |items| == |cleaned| - i && forall k :: 0 <= k < |items| ==> items[k] == ListItem(i + k, cleaned[i + k])
    decreases |cleaned| - i
  {
    if i < |cleaned| {
      KeepsEveryLine(cleaned, i + 1);
      var rest := ItemsFrom(cleaned, i + 1);
      var items := ItemsFrom(cleaned, i);
      assert items == [ListItem(i, cleaned[i])] + rest;
      forall k | 1 <= k < |items| ensures items[k] == ListItem(i + k, cleaned[i + k]) {
        assert items[k] == rest[k - 1];
      }
    }
  }

  /** The item texts alone, in order. */
  function Texts(items: seq<ListItem>): (r: seq<string>)
    ensures |r| == |items| && forall k {:trigger r[k]} :: 0 <= k < |items| ==> r[k] == items[k].text
  {
    seq(|items|, k requires 0 <= k < |items| => items[k].text)
  }

  /** A line whose trimmed text starts with neither marker is shown as
      trimmed. */
  lemma NoMarkerKept(line: string)
    requires var t := Trim(line); !(|t| >= 1 && t[0] == '-') && !(|t| >= 3 && t[..3] == Mojibake)
    ensures CleanItem(line) == Trim(line)
  {
  }

  /** A line opening with the real bullet U+2022 keeps it: only its
      mis-encoded form is a marker. */
  lemma RealBulletKept(line: string)
    requires |Trim(line)| >= 1 && Trim(line)[0] == '\U{2022}'
    ensures CleanItem(line) == Trim(line)
  {
    var t := Trim(line);
    if |t| >= 3 {
      assert t[..3][0] != Mojibake[0];
    }
  }

  /** A hyphen, then whitespace, then a trimmed item cleans to the item:
      exactly one marker goes, so "- - x" becomes "- x". */
  lemma HyphenStripped(item: string)
    requires item != "" && !IsWhitespace(item[0]) && !IsWhitespace(item[|item| - 1])
    ensures CleanItem("- " + item) == item
  {
    var line := "- " + item;
    TrimmedIsFixed(line);
    assert line[1..] == " " + item;
    assert (" " + item)[1..] == item;
  }

  /** The same for the mis-encoded bullet "â€¢" and the whitespace after it. */
  lemma MojibakeStripped(item: string)
    requires item != "" && !IsWhitespace(item[0]) && !IsWhitespace(item[|item| - 1])
    ensures CleanItem(Mojibake + " " + item) == item
  {
    var line := Mojibake + " " + item;
    TrimmedIsFixed(line);
    assert line[..3] == Mojibake;
    assert line[3..] == " " + item;
    assert (" " + item)[1..] == item;
  }

  /** Hyphen bullets, one item per line. */
  function Bulleted(items: seq<string>): (lines: seq<string>)
    ensures |lines| == |items| && forall k {:trigger lines[k]} :: 0 <= k < |items| ==> lines[k] == "- " + items[k]
  {
    seq(|items|, k requires 0 <= k < |items| => "- " + items[k])
  }

  /** Helper: the "- " lines of single-line items hold no line break. */
  lemma BulletedLinesUnbroken(items: seq<string>)
    requires forall k :: 0 <= k < |items| ==> '\n' !in items[k]
    ensures forall k :: 0 <= k < |items| ==> '\n' !in Bulleted(items)[k]
  {
    forall k | 0 <= k < |items| ensures '\n' !in Bulleted(items)[k] {
      assert Bulleted(items)[k] == ['-', ' '] + items[k];
    }
  }

  /** Helper: the "- " lines of trimmed items clean back to the items. */
  lemma BulletedLinesClean(items: seq<string>)
    requires forall k :: 0 <= k < |items| ==> IsItemText(items[k])
    ensures CleanLines(Bulleted(items)) == items
  {
    var lines := Bulleted(items);
    var cleaned := CleanLines(lines);
    forall k | 0 <= k < |items| ensures cleaned[k] == items[k] {
      CleanBulletedAt(items, k);
    }
  }


  /** Helper: one "- " line cleans back to its item. */
  lemma CleanBulletedAt(items: seq<string>, k: nat)
    requires k < |items| && IsItemText(items[k])
    ensures CleanLines(Bulleted(items))[k] == items[k]
  {
    HyphenStripped(items[k]);
  }
  /** Helper: an empty text has no items. */
  lemma EmptyHasNoItems()
    ensures ListFromString("") == []
  {
    assert Split("", '\n') == [""];
    assert Trim("") == "";
    assert CleanLines([""]) == [""];
  }

  /** Items that are non-empty, single-line and already trimmed survive being
      written as "- " lines and read back, in order and keyed by line. An
      item may itself start with a marker: only the added one goes. */
  lemma RoundTrip(items: seq<string>)
    requires forall k :: 0 <= k < |items| ==> IsItemText(items[k])
    ensures Texts(ListFromString(Join(Bulleted(items), "\n"))) == items
    ensures forall k :: 0 <= k < |items| ==> ListFromString(Join(Bulleted(items), "\n"))[k].key == k
  {
    if items == [] {
      assert Join(Bulleted(items), "\n") == "";
      EmptyHasNoItems();
    } else {
      ReadBackLines(items);
      AllKept(items);
    }
  }

  /** Helper: reading the "- " lines back sees exactly the items as cleaned lines. */
  lemma ReadBackLines(items: seq<string>)
    requires items != [] && forall k :: 0 <= k < |items| ==> IsItemText(items[k])
    ensures ListFromString(Join(Bulleted(items), "\n")) == ItemsFrom(items, 0)
  {
    var lines := Bulleted(items);
    BulletedLinesUnbroken(items);
    BulletedLinesClean(items);
    SplitJoin(lines, '\n');
  }

  /** Helper: when no cleaned line is empty, the items are all of them, keyed by index. */
  lemma AllKept(cleaned: seq<string>)
    requires forall k :: 0 <= k < |cleaned| ==> cleaned[k] != ""
    ensures Texts(ItemsFrom(cleaned, 0)) == cleaned
    ensures forall k :: 0 <= k < |cleaned| ==> ItemsFrom(cleaned, 0)[k].key == k
  {
    KeepsEveryLine(cleaned, 0);
  }

  /** Reading a list back from its own items, written as "- " lines, gives
      the same texts again. */
  lemma ListIsStable(text: string)
    ensures var texts := Texts(ListFromString(text));
      Texts(ListFromString(Join(Bulleted(texts), "\n"))) == texts
  {
    AllItemsAreCleanLines(text);
    RoundTrip(Texts(ListFromString(text)));
  }
}
