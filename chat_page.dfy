/**
 * The chat page's pure helpers: the HTML rendering of an assistant reply, the title shown for
 * an open conversation, and the grouping of the conversation list by day.
 */
module ChatPage {
  import opened Wrappers
  import opened Seqs
  import opened Text
  import opened Sorting

  // ---------------------------------------------------------------------------------------
  // formatResponse

  predicate IsMarker(c: char) {
    c == '-' || c == '*'
  }

  /** `line.trim().match(/^[-*]\s/)`: the trimmed line opens with a marker and white space. */
  predicate StartsListItem(line: string) {
    var t := Trim(line);
    |t| >= 2 && IsMarker(t[0]) && IsJsSpace(t[1])
  }

  /** `/^([-*])\s(.+)$/` on an already trimmed line: the text after the marker and its white space. */
  function MarkedText(t: string): (r: Option<string>)
    ensures r.Some? <==> |t| >= 3 && IsMarker(t[0]) && IsJsSpace(t[1]) && NoLineTerminator(t[2..])
    ensures r.Some? ==> r.value != [] && r.value == t[2..] && t == t[..2] + r.value
  {
    if |t| >= 3 && IsMarker(t[0]) && IsJsSpace(t[1]) && NoLineTerminator(t[2..]) then
      assert t == t[..2] + t[2..];
      Some(t[2..])
    else None
  }

  /**
   * `line.trim().match(/^([-*])\s(.+)$/)`: marker, one white-space character, then at least one
   * character up to the end with no line terminator; the result is that rest.
   */
  function ListItemText(line: string): (r: Option<string>)
    ensures r.Some? <==>
              var t := Trim(line);
              |t| >= 3 && IsMarker(t[0]) && IsJsSpace(t[1]) && NoLineTerminator(t[2..])
    ensures r.Some? ==> StartsListItem(line) && r.value != [] && r.value == Trim(line)[2..]
    ensures r.Some? ==> Trim(line) == Trim(line)[..2] + r.value
  {
    MarkedText(Trim(line))
  }

  /** One line of a list paragraph: a marked line loses its marker, another non-empty line is kept raw, an empty one vanishes. */
  function ListItem(line: string): (r: string)
    ensures r == "" <==> line == ""
    ensures ListItemText(line).Some? ==> r == "<li>" + ListItemText(line).value + "</li>"
    ensures ListItemText(line).None? && line != "" ==> r == "<li>" + line + "</li>"
  {
    match ListItemText(line)
    case Some(text) => "<li>" + text + "</li>"
    case None => if line != "" then "<li>" + line + "</li>" else ""
  }

  function NonEmpty(s: string): bool {
    s != ""
  }

  function NonBlank(s: string): bool {
    Trim(s) != ""
  }

  /** The list items of a list paragraph: the `ListItem` of each non-empty line, in order. */
  function ListItems(lines: seq<string>): (items: seq<string>)
    ensures items == Map(Filter(lines, NonEmpty), ListItem)
    ensures |items| == |Filter(lines, NonEmpty)|
    ensures forall i :: 0 <= i < |items| ==> items[i] != ""
  {
    ItemsOfNonEmptyLines(lines);
    Filter(Map(lines, ListItem), NonEmpty)
  }

  /** Mapping and then dropping empty items is dropping empty lines and then mapping. */
  lemma {:induction false} ItemsOfNonEmptyLines(lines: seq<string>)
    ensures Filter(Map(lines, ListItem), NonEmpty) == Map(Filter(lines, NonEmpty), ListItem)
  {
    if lines != [] {
      var m := Map(lines, ListItem);
      var rest := Filter(lines[1..], NonEmpty);
      ItemsOfNonEmptyLines(lines[1..]);
      assert m[1..] == Map(lines[1..], ListItem);
      assert Filter(m, NonEmpty) == (if NonEmpty(m[0]) then [m[0]] else []) + Filter(m[1..], NonEmpty);
      assert Filter(lines, NonEmpty) == (if NonEmpty(lines[0]) then [lines[0]] else []) + rest;
      if NonEmpty(lines[0]) {
        var x := [lines[0]] + rest;
        assert x[1..] == rest;
        assert Map(x, ListItem) == [ListItem(lines[0])] + Map(rest, ListItem);
      } else {
        assert Filter(lines, NonEmpty) == rest;
      }
    }
  }

  /** A paragraph is rendered as a list when one of its lines starts a list item. */
  predicate IsListParagraph(paragraph: string) {
    var lines := Split(paragraph, "\n");
    exists k :: 0 <= k < |lines| && StartsListItem(lines[k])
  }

  /**
   * The block of the `index`-th paragraph: `<ul>` of its items, or `<p>` of its trimmed
   * non-empty lines joined by `<br>`. `ListBlockOf` and `ParagraphBlockOf` state what this
   * gives for a paragraph built from its lines.
   */
  function Block(paragraph: string, index: nat): (r: string)
    ensures IsListParagraph(paragraph) ==>
              r == "<ul key=" + NatToString(index) + ">" + Concat(ListItems(Split(paragraph, "\n"))) + "</ul>"
    ensures !IsListParagraph(paragraph) ==>
              r == "<p key=" + NatToString(index) + ">" + Join(Filter(Map(Split(paragraph, "\n"), Trim), NonEmpty), "<br>") + "</p>"
  {
    var lines := Split(paragraph, "\n");
    if IsListParagraph(paragraph) then
      "<ul key=" + NatToString(index) + ">" + Concat(ListItems(lines)) + "</ul>"
    else
      "<p key=" + NatToString(index) + ">" + Join(Filter(Map(lines, Trim), NonEmpty), "<br>") + "</p>"
  }

  /** The paragraphs of a reply: its `\n\n`-separated pieces that are not blank, in order. */
  function Paragraphs(text: string): (ps: seq<string>)
    ensures forall i :: 0 <= i < |ps| ==> Trim(ps[i]) != ""
    ensures forall x :: x in ps <==> x in Split(text, "\n\n") && NonBlank(x)
  {
    FilterMembers(Split(text, "\n\n"), NonBlank);
    Filter(Split(text, "\n\n"), NonBlank)
  }

  /**
   * The paragraphs keep the order and the repetitions of the pieces: they are the pieces read
   * at strictly increasing positions, and those positions include every non-blank piece, so
   * each non-blank piece appears once per occurrence and no blank one appears at all.
   */
  lemma {:induction false} ParagraphsInOrder(text: string)
    ensures var pieces := Split(text, "\n\n");
            exists idx :: ReadAt(Paragraphs(text), pieces, idx) && Covers(pieces, idx, NonBlank)
  {
    assert Paragraphs(text) == Filter(Split(text, "\n\n"), NonBlank);
    FilterInOrder(Split(text, "\n\n"), NonBlank);
  }

  /** `paragraphs.map((paragraph, index) => …)`: one block per paragraph, numbered from 0 in order. */
  function Blocks(ps: seq<string>): (bs: seq<string>)
    ensures |bs| == |ps|
    ensures forall i :: 0 <= i < |bs| ==> bs[i] == Block(ps[i], i)
  {
    seq(|ps|, i requires 0 <= i < |ps| => Block(ps[i], i))
  }

  /** `formatResponse`: the blocks one after the other; nothing at all exactly for a blank reply. */
  function FormatResponse(text: string): (r: string)
    ensures r == "" <==> Trim(text) == ""
  {
    BlankIffNoParagraphs(text);
    var bs := Blocks(Paragraphs(text));
    assert bs != [] ==> Concat(bs) == bs[0] + Concat(bs[1..]) && |bs[0]| > 0;
    Concat(bs)
  }

  /** A reply has no paragraph exactly when it is all white space. */
  lemma {:induction false} BlankIffNoParagraphs(text: string)
    ensures Paragraphs(text) == [] <==> Trim(text) == ""
  {
    if Trim(text) == "" {
      BlankHasNoParagraphs(text);
    } else if Paragraphs(text) == [] {
      NoParagraphsIsBlank(text);
    }
  }

  lemma {:induction false} BlankHasNoParagraphs(text: string)
    requires Trim(text) == ""
    ensures Paragraphs(text) == []
  {
    TrimEmptyIffAllSpace(text);
    var pieces := Split(text, "\n\n");
    SplitPiecesWithin(text, "\n\n", IsJsSpace);
    forall k | 0 <= k < |pieces| ensures !NonBlank(pieces[k]) {
      TrimEmptyIffAllSpace(pieces[k]);
    }
    FilterNone(pieces, NonBlank);
  }

  lemma {:induction false} NoParagraphsIsBlank(text: string)
    requires Paragraphs(text) == []
    ensures Trim(text) == ""
  {
    var pieces := Split(text, "\n\n");
    forall k | 0 <= k < |pieces| ensures forall i :: 0 <= i < |pieces[k]| ==> IsJsSpace(pieces[k][i]) {
      assert pieces[k] in pieces;
      assert !NonBlank(pieces[k]);
      TrimEmptyIffAllSpace(pieces[k]);
    }
    JoinWithin(pieces, "\n\n", IsJsSpace);
    JoinSplit(text, "\n\n");
    TrimEmptyIffAllSpace(text);
  }

  /** Every line break of the paragraph is followed by a character other than a line break. */
  predicate SingleNewlines(p: string) {
    forall i :: 0 <= i < |p| && p[i] == '\n' ==> i + 1 < |p| && p[i + 1] != '\n'
  }

  lemma {:induction false} SingleNewlinesDoNotRunIn(p: string)
    requires SingleNewlines(p)
    ensures NoEarlySep(p, "\n\n")
  {
    var q := p + "\n\n";
    forall i | 0 <= i < |p| ensures !OccursAt(q, "\n\n", i) {
      if p[i] == '\n' {
        assert q[i + 1] == p[i + 1];
        assert q[i..i + 2][1] == q[i + 1];
      } else {
        assert q[i..i + 2][0] == q[i] == p[i];
      }
    }
  }

  /**
   * Paragraphs without blank lines, separated by blank lines, come back as the paragraphs, and
   * the reply renders as their blocks numbered from 0 in order.
   */
  lemma {:induction false} ParagraphsRender(ps: seq<string>)
    requires forall k :: 0 <= k < |ps| ==> SingleNewlines(ps[k]) && Trim(ps[k]) != ""
    ensures Paragraphs(Join(ps, "\n\n")) == ps
    ensures FormatResponse(Join(ps, "\n\n")) == Concat(seq(|ps|, i requires 0 <= i < |ps| => Block(ps[i], i)))
  {
    if ps == [] {
      TrimUnpadded("");
      BlankIffNoParagraphs("");
    } else {
      forall k | 0 <= k < |ps| ensures NoEarlySep(ps[k], "\n\n") {
        SingleNewlinesDoNotRunIn(ps[k]);
      }
      SplitJoinSeparated(ps, "\n\n");
      FilterAll(ps, NonBlank);
    }
    assert Blocks(Paragraphs(Join(ps, "\n\n"))) == seq(|ps|, i requires 0 <= i < |ps| => Block(ps[i], i));
  }

  /** A list line as a reply writes it: a dash, a space and the item. */
  function Bullet(item: string): string {
    "- " + item
  }

  function Li(item: string): string {
    "<li>" + item + "</li>"
  }

  /** Text that can follow a list marker: non-empty, without line terminators, not ending in white space. */
  predicate ItemText(x: string) {
    x != "" && !IsJsSpace(x[|x| - 1]) && NoLineTerminator(x)
  }

  lemma {:induction false} BulletTrims(x: string)
    requires ItemText(x)
    ensures Trim(Bullet(x)) == Bullet(x) && |Bullet(x)| >= 3
  {
    var b := Bullet(x);
    assert b[0] == '-' && b[|b| - 1] == x[|x| - 1];
    TrimUnpadded(b);
  }

  lemma {:induction false} BulletText(x: string)
    requires ItemText(x)
    ensures ListItemText(Bullet(x)) == Some(x)
  {
    var b := Bullet(x);
    assert b[0] == '-' && b[1] == ' ' && b[2..] == x && b[|b| - 1] == x[|x| - 1];
    MarkedLineText(b);
  }

  /** An unpadded line opening with a marker and a space, with no line break after them, is an item. */
  lemma {:induction false} MarkedLineText(t: string)
    requires |t| >= 3 && IsMarker(t[0]) && IsJsSpace(t[1]) && NoLineTerminator(t[2..]) && !IsJsSpace(t[|t| - 1])
    ensures ListItemText(t) == Some(t[2..])
  {
    assert MarkedText(t) == Some(t[2..]);
    assert ListItemText(t) == MarkedText(Trim(t));
    TrimUnpadded(t);
  }

  lemma {:induction false} BulletItem(x: string)
    requires ItemText(x)
    ensures StartsListItem(Bullet(x)) && ListItem(Bullet(x)) == Li(x) && '\n' !in Bullet(x)
  {
    var b := Bullet(x);
    BulletText(x);
    forall i | 0 <= i < |b| ensures b[i] != '\n' {
      if i >= 2 {
        assert b[i] == x[i - 2];
      }
    }
  }

  /** A paragraph of marked lines renders as a list whose items are the lines without their markers. */
  lemma {:induction false} ListBlockOf(items: seq<string>, index: nat)
    requires items != []
    requires forall k :: 0 <= k < |items| ==> ItemText(items[k])
    ensures Block(Join(Map(items, Bullet), "\n"), index)
            == "<ul key=" + NatToString(index) + ">" + Concat(Map(items, Li)) + "</ul>"
  {
    var lines := Map(items, Bullet);
    BulletLines(items);
    SplitJoin(lines, '\n');
    assert Split(Join(lines, "\n"), "\n") == lines;
    assert IsListParagraph(Join(lines, "\n"));
  }

  /** Marked lines have no line break, start list items, and give their items' `<li>`s. */
  lemma {:induction false} BulletLines(items: seq<string>)
    requires items != []
    requires forall k :: 0 <= k < |items| ==> ItemText(items[k])
    ensures var lines := Map(items, Bullet);
      (forall k :: 0 <= k < |lines| ==> '\n' !in lines[k]) && StartsListItem(lines[0])
      && ListItems(lines) == Map(items, Li)
  {
    var lines := Map(items, Bullet);
    forall k | 0 <= k < |lines| ensures '\n' !in lines[k] && StartsListItem(lines[k]) && ListItem(lines[k]) == Li(items[k]) {
      BulletItem(items[k]);
    }
    FilterAll(lines, NonEmpty);
    assert Map(lines, ListItem) == Map(items, Li);
  }

  /** A line of running text: unpadded, without line breaks, and not opening with a list marker. */
  predicate TextLine(l: string) {
    l != "" && !IsJsSpace(l[0]) && !IsJsSpace(l[|l| - 1]) && '\n' !in l
    && !(|l| >= 2 && IsMarker(l[0]) && IsJsSpace(l[1]))
  }

  /** A paragraph of running-text lines renders as a `<p>` of those lines joined by `<br>`. */
  lemma {:induction false} ParagraphBlockOf(lines: seq<string>, index: nat)
    requires lines != []
    requires forall k :: 0 <= k < |lines| ==> TextLine(lines[k])
    ensures Block(Join(lines, "\n"), index) == "<p key=" + NatToString(index) + ">" + Join(lines, "<br>") + "</p>"
  {
    forall k | 0 <= k < |lines| ensures Trim(lines[k]) == lines[k] && !StartsListItem(lines[k]) {
      TrimUnpadded(lines[k]);
    }
    SplitJoin(lines, '\n');
    assert Split(Join(lines, "\n"), "\n") == lines;
    assert !IsListParagraph(Join(lines, "\n"));
    assert Map(lines, Trim) == lines;
    FilterAll(lines, NonEmpty);
  }

  /** A marked line loses its marker. */
  lemma MarkedLineExample()
    ensures ListItem("- pain") == "<li>pain</li>"
  {
    TrimUnpadded("- pain");
    assert "- pain"[2..] == "pain";
  }

  /** A white-space-only line inside a list paragraph is kept as an item. */
  lemma BlankListLineExample()
    ensures ListItem("   ") == "<li>   </li>"
  {
    TrimEmptyIffAllSpace("   ");
  }

  /** A bare marker with nothing after it is not a list item and is kept raw. */
  lemma BareMarkerExample()
    ensures ListItem("-") == "<li>-</li>"
  {
    TrimUnpadded("-");
    assert |Trim("-")| < 3;
    assert ListItemText("-") == None;
  }

  // ---------------------------------------------------------------------------------------
  // generateConversationTitle

  /** The messages the page holds for the open conversation. */
  datatype PageMessage = PageMessage(chatId: string, chatMessage: string, chatResponse: string, chatCreatedAt: int)

  /** Words 10 to 19 (counting from 0) of the message, joined with single spaces. */
  function MiddleWords(message: string): (t: string)
    ensures |Split(message, " ")| <= 10 ==> t == ""
    ensures |Split(message, " ")| > 10 ==> Split(t, " ") == Slice(Split(message, " "), 10, 20)
  {
    MiddleWordsSplit(message);
    Join(Slice(Split(message, " "), 10, 20), " ")
  }

  lemma {:induction false} MiddleWordsSplit(message: string)
    ensures |Split(message, " ")| <= 10 ==> Join(Slice(Split(message, " "), 10, 20), " ") == ""
    ensures |Split(message, " ")| > 10 ==>
              Split(Join(Slice(Split(message, " "), 10, 20), " "), " ") == Slice(Split(message, " "), 10, 20)
  {
    var words := Split(message, " ");
    var picked := Slice(words, 10, 20);
    if |words| > 10 {
      SplitPiecesAvoid(message, ' ');
      SplitJoin(picked, ' ');
    }
  }

  /**
   * The title of the open conversation: `Nouvelle conversation` with no messages; otherwise
   * words 10 to 19 of the first message, cut to 90 characters and `...` when longer than 100,
   * and `Conversation` when that is empty.
   */
  function GenerateConversationTitle(messages: seq<PageMessage>): (title: string)
    ensures title != "" && |title| <= 100
    ensures messages == [] ==> title == "Nouvelle conversation"
    ensures messages != [] && MiddleWords(messages[0].chatMessage) == "" ==> title == "Conversation"
    ensures messages != [] && |Split(messages[0].chatMessage, " ")| <= 10 ==> title == "Conversation"
    ensures messages != [] && MiddleWords(messages[0].chatMessage) != "" && |MiddleWords(messages[0].chatMessage)| <= 100 ==>
              title == MiddleWords(messages[0].chatMessage)
    ensures messages != [] && |MiddleWords(messages[0].chatMessage)| > 100 ==>
              |title| == 93 && title == MiddleWords(messages[0].chatMessage)[..90] + "..."
  {
    if |messages| == 0 then "Nouvelle conversation"
    else
      var t := MiddleWords(messages[0].chatMessage);
      var cut := if |t| > 100 then t[..90] + "..." else t;
      if cut == "" then "Conversation" else cut
  }

  /** A title taken whole holds exactly words 10 to 19 of the first message. */
  lemma {:induction false} TitleIsMiddleWords(messages: seq<PageMessage>)
    requires messages != [] && |Split(messages[0].chatMessage, " ")| > 10
    requires MiddleWords(messages[0].chatMessage) != "" && |MiddleWords(messages[0].chatMessage)| <= 100
    ensures Split(GenerateConversationTitle(messages), " ") == Slice(Split(messages[0].chatMessage, " "), 10, 20)
  {
  }

  // ---------------------------------------------------------------------------------------
  // groupConversationsByDate

  /** An entry of the conversation list; `createdAt` is the time of its last message. */
  datatype Conversation = Conversation(id: string, title: string, lastMessage: string, createdAt: int, messageCount: int)

  datatype DateGroup = Today | ThisWeek | Older

  /**
   * The group of a conversation whose local day is `day`, today being `today`: today's, then
   * anything from seven days back on (later days included), then the rest.
   */
  function GroupOf(day: int, today: int): DateGroup {
    if day == today then Today else if day >= today - 7 then ThisWeek else Older
  }

  function InGroup(g: DateGroup, today: int, localDay: int -> int): Conversation -> bool {
    (c: Conversation) => GroupOf(localDay(c.createdAt), today) == g
  }

  /** The key of the descending sort on `createdAt`. */
  function Newest(c: Conversation): int {
    -c.createdAt
  }

  /**
   * `groupConversationsByDate` at time `now`, `localDay` giving the local calendar day of a
   * time: each conversation lands in the group of its day, each group newest first.
   */
  method GroupConversationsByDate(conversations: seq<Conversation>, now: int, localDay: int -> int)
    returns (today: seq<Conversation>, thisWeek: seq<Conversation>, older: seq<Conversation>)
    ensures today == SortBy(Filter(conversations, InGroup(Today, localDay(now), localDay)), Newest)
    ensures thisWeek == SortBy(Filter(conversations, InGroup(ThisWeek, localDay(now), localDay)), Newest)
    ensures older == SortBy(Filter(conversations, InGroup(Older, localDay(now), localDay)), Newest)
    ensures multiset(today) + multiset(thisWeek) + multiset(older) == multiset(conversations)
    ensures NewestFirst(today) && NewestFirst(thisWeek) && NewestFirst(older)
  {
    var day := localDay(now);
    var t, w, o := [], [], [];
    for i := 0 to |conversations|
      invariant t == Filter(conversations[..i], InGroup(Today, day, localDay))
      invariant w == Filter(conversations[..i], InGroup(ThisWeek, day, localDay))
      invariant o == Filter(conversations[..i], InGroup(Older, day, localDay))
    {
      var c := conversations[i];
      assert conversations[..i + 1] == conversations[..i] + [c];
      GroupStep(conversations[..i], c, day, localDay);
      var g := GroupOf(localDay(c.createdAt), day);
      if g == Today {
        t := t + [c];
      } else if g == ThisWeek {
        w := w + [c];
      } else {
        o := o + [c];
      }
    }
    assert conversations[..|conversations|] == conversations;
    GroupsPartition(conversations, day, localDay);
    today := SortBy(t, Newest);
    thisWeek := SortBy(w, Newest);
    older := SortBy(o, Newest);
    SortedIsNewestFirst(today);
    SortedIsNewestFirst(thisWeek);
    SortedIsNewestFirst(older);
  }

  /** Most recent conversation first. */
  predicate NewestFirst(s: seq<Conversation>) {
    forall i, j :: 0 <= i < j < |s| ==> s[i].createdAt >= s[j].createdAt
  }

  lemma {:induction false} SortedIsNewestFirst(s: seq<Conversation>)
    requires SortedBy(s, Newest)
    ensures NewestFirst(s)
  {
    forall i, j | 0 <= i < j < |s| ensures s[i].createdAt >= s[j].createdAt {
      assert Newest(s[i]) <= Newest(s[j]);
    }
  }

  /** One more conversation joins its own group's list and no other. */
  lemma {:induction false} GroupStep(prefix: seq<Conversation>, c: Conversation, day: int, localDay: int -> int)
    ensures var g := GroupOf(localDay(c.createdAt), day);
      && Filter(prefix + [c], InGroup(Today, day, localDay))
         == Filter(prefix, InGroup(Today, day, localDay)) + (if g == Today then [c] else [])
      && Filter(prefix + [c], InGroup(ThisWeek, day, localDay))
         == Filter(prefix, InGroup(ThisWeek, day, localDay)) + (if g == ThisWeek then [c] else [])
      && Filter(prefix + [c], InGroup(Older, day, localDay))
         == Filter(prefix, InGroup(Older, day, localDay)) + (if g == Older then [c] else [])
  {
    FilterAppend(prefix, [c], InGroup(Today, day, localDay));
    FilterAppend(prefix, [c], InGroup(ThisWeek, day, localDay));
    FilterAppend(prefix, [c], InGroup(Older, day, localDay));
  }

  /** Every conversation lands in exactly one group. */
  lemma {:induction false} GroupsPartition(conversations: seq<Conversation>, day: int, localDay: int -> int)
    ensures multiset(Filter(conversations, InGroup(Today, day, localDay)))
          + multiset(Filter(conversations, InGroup(ThisWeek, day, localDay)))
          + multiset(Filter(conversations, InGroup(Older, day, localDay))) == multiset(conversations)
  {
    forall j | 0 <= j < |conversations|
      ensures (if InGroup(Today, day, localDay)(conversations[j]) then 1 else 0)
            + (if InGroup(ThisWeek, day, localDay)(conversations[j]) then 1 else 0)
            + (if InGroup(Older, day, localDay)(conversations[j]) then 1 else 0) == 1
    {
      var g := GroupOf(localDay(conversations[j].createdAt), day);
      assert InGroup(Today, day, localDay)(conversations[j]) == (g == Today);
      assert InGroup(ThisWeek, day, localDay)(conversations[j]) == (g == ThisWeek);
      assert InGroup(Older, day, localDay)(conversations[j]) == (g == Older);
    }
    FilterPartition3(conversations, InGroup(Today, day, localDay), InGroup(ThisWeek, day, localDay), InGroup(Older, day, localDay));
  }
}
