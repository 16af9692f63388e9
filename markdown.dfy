/** The post page (`app/components/blog/blogDetail.tsx`): the block-level
    markdown renderer and the choice of related posts. Inline markup (bold,
    italics, links inside a line) is kept as opaque text. */
module BlogDetail {
  import opened Seqs
  import opened Strings
  import opened Data

  datatype ListKind = Unordered | Ordered

  /** The elements the renderer emits. */
  datatype Block =
    | Heading(level: nat, text: string)
    | List(kind: ListKind, items: seq<string>)
    | Quote(text: string)
    | HorizontalRule
    | Paragraph(text: string)

  /** What a single line contributes: nothing, a block of its own, or an
      item for the pending list. */
  datatype Line = Blank | Single(block: Block) | Item(kind: ListKind, text: string)

  // ---------------------------------------------------------------------
  // Classifying one line

  /** No two adjacent asterisks. */
  predicate NoDoubleStar(s: string)
  {
    forall i :: 0 <= i < |s| - 1 ==> !(s[i] == '*' && s[i + 1] == '*')
  }

  /** `s.replace(/\*\*\/g, '')`: removes the pairs of asterisks found scanning
      from the left. */
  function RemoveDoubleStars(s: string): (r: string)
    ensures |r| <= |s|
    decreases |s|
  {
    if |s| >= 2 && s[0] == '*' && s[1] == '*' then RemoveDoubleStars(s[2..])
    else if s == [] then []
    else [s[0]] + RemoveDoubleStars(s[1..])
  }

  /** Every character other than an asterisk. */
  predicate NotStar(c: char)
  {
    c != '*'
  }

  /** The removal drops asterisks only: every other character is kept, in
      order. */
  lemma {:induction false} RemoveDoubleStarsKeeps(s: string)
    ensures Filter(RemoveDoubleStars(s), NotStar) == Filter(s, NotStar)
    decreases |s|
  {
    if |s| >= 2 && s[0] == '*' && s[1] == '*' {
      RemoveDoubleStarsKeeps(s[2..]);
      assert s[1..][1..] == s[2..];
    } else if s != [] {
      RemoveDoubleStarsKeeps(s[1..]);
      var rest := RemoveDoubleStars(s[1..]);
      assert ([s[0]] + rest)[0] == s[0] && ([s[0]] + rest)[1..] == rest;
    }
  }

  /** After the removal no pair of asterisks is left. */
  lemma {:induction false} RemoveDoubleStarsClean(s: string)
    ensures NoDoubleStar(RemoveDoubleStars(s))
    ensures !Contains(RemoveDoubleStars(s), "**")
    decreases |s|
  {
    var r := RemoveDoubleStars(s);
    if |s| >= 2 && s[0] == '*' && s[1] == '*' {
      RemoveDoubleStarsClean(s[2..]);
    } else if s != [] {
      var rest := RemoveDoubleStars(s[1..]);
      RemoveDoubleStarsClean(s[1..]);
      if s[0] == '*' && |s| >= 2 {
        assert rest == [s[1]] + RemoveDoubleStars(s[2..]);
      }
      assert r == [s[0]] + rest;
      assert forall i :: 1 <= i < |r| ==> r[i] == rest[i - 1];
    }
    forall i | 0 <= i <= |r| ensures !ContainsAt(r, "**", i) {
      if i + 2 <= |r| {
        assert r[i..i + 2][0] == r[i] && r[i..i + 2][1] == r[i + 1];
      }
    }
  }

  /** The length of the text matched by `/^\d+\.\s/`, if it matches. */
  function OrderedMarker(s: string): (r: Option<nat>)
    ensures r.Some? ==> && 3 <= r.value <= |s|
                        && (forall i :: 0 <= i < r.value - 2 ==> IsDigit(s[i]))
                        && s[r.value - 2] == '.' && IsSpace(s[r.value - 1])
    ensures r.None? ==> forall k :: 1 <= k && k + 2 <= |s| && (forall i :: 0 <= i < k ==> IsDigit(s[i])) ==>
                                    !(s[k] == '.' && IsSpace(s[k + 1]))
  {
    var k := Digits(s, 0).1;
    if k >= 1 && k + 2 <= |s| && s[k] == '.' && IsSpace(s[k + 1]) then Some(k + 2) else None
  }

  /** The branch chain of the `forEach` body, on the trimmed line. */
  function Classify(line: string): (t: Line)
    ensures t.Blank? <==> forall i :: 0 <= i < |line| ==> IsSpace(line[i])
    ensures t.Single? ==> !t.block.List?
    ensures t.Single? && t.block.Heading? ==> 1 <= t.block.level <= 4
  {
    ClassifyTrimmed(Trim(line))
  }

  /** The branch chain on a line already trimmed. */
  function ClassifyTrimmed(s: string): (t: Line)
    ensures t.Blank? <==> s == []
    ensures t.Single? ==> !t.block.List?
    ensures t.Single? && t.block.Heading? ==> 1 <= t.block.level <= 4
  {
    if s == [] then Blank
    else if StartsWith(s, "# ") then Single(Heading(1, s[2..]))
    else if StartsWith(s, "## ") then Single(Heading(2, s[3..]))
    else if StartsWith(s, "### ") then Single(Heading(3, s[4..]))
    else if StartsWith(s, "#### ") then Single(Heading(4, s[5..]))
    else if StartsWith(s, "**") && EndsWith(s, "**") && |s| > 4 then
      Single(Heading(3, RemoveDoubleStars(s)))
    else if StartsWith(s, "- ") || StartsWith(s, "* ") then Item(Unordered, s[2..])
    else if OrderedMarker(s).Some? then Item(Ordered, s[OrderedMarker(s).value..])
    else if StartsWith(s, "> ") then Single(Quote(s[2..]))
    else if s == "---" || s == "***" then Single(HorizontalRule)
    else Single(Paragraph(s))
  }

  /** A line of `n` hashes and a space starts with no shorter such prefix. */
  lemma HashPrefixes(s: string)
    ensures StartsWith(s, "## ") ==> !StartsWith(s, "# ")
    ensures StartsWith(s, "### ") ==> !StartsWith(s, "# ") && !StartsWith(s, "## ")
    ensures StartsWith(s, "#### ") ==> !StartsWith(s, "# ") && !StartsWith(s, "## ") && !StartsWith(s, "### ")
  {
    if |s| >= 2 {
      assert s[..2][1] == s[1];
      assert s[..2] == "# " ==> s[1] == ' ';
    }
    if |s| >= 3 {
      assert s[..3][1] == s[1] && s[..3][2] == s[2];
    }
    if |s| >= 4 {
      assert s[..4][1] == s[1] && s[..4][2] == s[2] && s[..4][3] == s[3];
      assert s[..3][2] == s[2];
    }
    if |s| >= 5 {
      assert s[..5][3] == s[3];
    }
  }

  /** The four heading prefixes give headings of levels 1 to 4 with the
      prefix dropped. */
  lemma ClassifyHeadings(line: string)
    ensures var s := Trim(line);
            && (StartsWith(s, "# ") ==> Classify(line) == Single(Heading(1, s[2..])))
            && (StartsWith(s, "## ") ==> Classify(line) == Single(Heading(2, s[3..])))
            && (StartsWith(s, "### ") ==> Classify(line) == Single(Heading(3, s[4..])))
            && (StartsWith(s, "#### ") ==> Classify(line) == Single(Heading(4, s[5..])))
  {
    HashPrefixes(Trim(line));
  }

  /** The first characters of a line, as seen through its prefixes. */
  lemma PrefixChars(s: string)
    ensures |s| >= 2 ==> s[..2][0] == s[0] && s[..2][1] == s[1]
    ensures |s| >= 3 ==> s[..3][0] == s[0]
    ensures |s| >= 4 ==> s[..4][0] == s[0]
    ensures |s| >= 5 ==> s[..5][0] == s[0]
  {
  }

  /** A line is an unordered item exactly when it starts with "- " or
      "* ", and an ordered item exactly when it starts with a number
      marker; the item's text is the line with its marker dropped. */
  lemma ClassifyItems(s: string)
    ensures StartsWith(s, "- ") || StartsWith(s, "* ") ==> ClassifyTrimmed(s) == Item(Unordered, s[2..])
    ensures OrderedMarker(s).Some? ==> ClassifyTrimmed(s) == Item(Ordered, s[OrderedMarker(s).value..])
    ensures var t := ClassifyTrimmed(s);
            && (t.Item? && t.kind == Unordered ==> StartsWith(s, "- ") || StartsWith(s, "* "))
            && (t.Item? && t.kind == Ordered ==> OrderedMarker(s).Some?)
  {
    PrefixChars(s);
    var m := OrderedMarker(s);
    if m.Some? {
      assert IsDigit(s[0]);
    }
  }

  /** Quotes, rules and paragraphs: "> " gives a quote without its marker,
      "---" and "***" give a rule, and a paragraph of the whole line is
      what every other non-empty line gives. */
  lemma ClassifyBlocks(s: string)
    ensures StartsWith(s, "> ") ==> ClassifyTrimmed(s) == Single(Quote(s[2..]))
    ensures s == "---" || s == "***" ==> ClassifyTrimmed(s) == Single(HorizontalRule)
    ensures var t := ClassifyTrimmed(s);
            && (t == Single(HorizontalRule) ==> s == "---" || s == "***")
            && (t.Single? && t.block.Quote? ==> StartsWith(s, "> ") && t.block.text == s[2..])
  {
    PrefixChars(s);
  }

  /** The prefixes that select a branch before the paragraph fallback. */
  predicate Marked(s: string)
  {
    || StartsWith(s, "# ") || StartsWith(s, "## ") || StartsWith(s, "### ") || StartsWith(s, "#### ")
    || (StartsWith(s, "**") && EndsWith(s, "**") && |s| > 4)
    || StartsWith(s, "- ") || StartsWith(s, "* ") || OrderedMarker(s).Some?
    || StartsWith(s, "> ") || s == "---" || s == "***"
  }

  /** A non-empty line is a paragraph of its whole text exactly when no
      branch before the fallback applies. */
  lemma ClassifyParagraph(s: string)
    ensures ClassifyTrimmed(s) == Single(Paragraph(s)) <==> s != [] && !Marked(s)
    ensures ClassifyTrimmed(s).Single? && ClassifyTrimmed(s).block.Paragraph? ==> ClassifyTrimmed(s).block.text == s
  {
  }

  /** A bold line becomes a level-3 heading without any pair of asterisks. */
  lemma BoldHeading(line: string)
    requires var s := Trim(line);
             && StartsWith(s, "**") && EndsWith(s, "**") && |s| > 4
             && !StartsWith(s, "# ") && !StartsWith(s, "## ") && !StartsWith(s, "### ") && !StartsWith(s, "#### ")
    ensures Classify(line).Single? && Classify(line).block.Heading?
    ensures Classify(line).block.level == 3 && NoDoubleStar(Classify(line).block.text)
    ensures Classify(line).block.text == RemoveDoubleStars(Trim(line))
    ensures Filter(Classify(line).block.text, NotStar) == Filter(Trim(line), NotStar)
  {
    RemoveDoubleStarsClean(Trim(line));
    RemoveDoubleStarsKeeps(Trim(line));
  }

  function Tokens(lines: seq<string>): (r: seq<Line>)
    ensures |r| == |lines| && forall i :: 0 <= i < |lines| ==> r[i] == Classify(lines[i])
  {
    seq(|lines|, i requires 0 <= i < |lines| => Classify(lines[i]))
  }

  // ---------------------------------------------------------------------
  // Grouping: the specification of the renderer

  predicate IsItemOf(t: Line, k: ListKind)
  {
    t.Item? && t.kind == k
  }

  /** The number of items of kind `k` at the front of `toks`. */
  function RunLen(toks: seq<Line>, k: ListKind): (n: nat)
    ensures n <= |toks|
    ensures forall i :: 0 <= i < n ==> IsItemOf(toks[i], k)
    ensures n == |toks| || !IsItemOf(toks[n], k)
  {
    if toks != [] && IsItemOf(toks[0], k) then 1 + RunLen(toks[1..], k) else 0
  }

  /** The texts of a run of items. */
  function Texts(toks: seq<Line>): (r: seq<string>)
    requires forall i :: 0 <= i < |toks| ==> toks[i].Item?
    ensures |r| == |toks|
  {
    seq(|toks|, i requires 0 <= i < |toks| => toks[i].text)
  }

  /** The page as blocks: every single block in place, every maximal run of
      items of one kind as one list, blank lines dropped. */
  function Group(toks: seq<Line>): seq<Block>
    decreases |toks|
  {
    if toks == [] then []
    else match toks[0]
      case Blank => Group(toks[1..])
      case Single(b) => [b] + Group(toks[1..])
      case Item(k, _) =>
        var n := RunLen(toks, k);
        [List(k, Texts(toks[..n]))] + Group(toks[n..])
  }

  /** The pending list as the items it was built from. */
  function Pending(listType: Option<ListKind>, items: seq<string>): (r: seq<Line>)
    ensures listType.None? ==> r == []
    ensures listType.Some? ==> |r| == |items| && forall i :: 0 <= i < |items| ==> r[i] == Item(listType.value, items[i])
  {
    if listType.None? then [] else seq(|items|, i requires 0 <= i < |items| => Item(listType.value, items[i]))
  }

  /** Closing a non-empty pending list before anything that does not
      continue it emits that list. */
  lemma FlushGroup(k: ListKind, items: seq<string>, rest: seq<Line>)
    requires items != []
    requires rest == [] || !IsItemOf(rest[0], k)
    ensures Group(Pending(Some(k), items) + rest) == [List(k, items)] + Group(rest)
  {
    var p := Pending(Some(k), items);
    var toks := p + rest;
    assert forall i :: 0 <= i < |items| ==> toks[i] == p[i];
    assert |items| == |toks| || toks[|items|] == rest[0];
    RunLenExact(toks, k, |items|);
    assert toks[..|items|] == p && toks[|items|..] == rest;
    assert Texts(p) == items;
  }

  /** A run of `m` items followed by something else has length `m`. */
  lemma {:induction false} RunLenExact(toks: seq<Line>, k: ListKind, m: nat)
    requires m <= |toks|
    requires forall i :: 0 <= i < m ==> IsItemOf(toks[i], k)
    requires m == |toks| || !IsItemOf(toks[m], k)
    ensures RunLen(toks, k) == m
  {
    if m > 0 {
      RunLenExact(toks[1..], k, m - 1);
    }
  }

  // ---------------------------------------------------------------------
  // Properties of the grouping

  /** The items of the lists among `blocks`, in order. */
  function ListItems(blocks: seq<Block>): seq<string>
  {
    if blocks == [] then []
    else (if blocks[0].List? then blocks[0].items else []) + ListItems(blocks[1..])
  }

  /** The texts of the items among `toks`, in order. */
  function ItemTexts(toks: seq<Line>): seq<string>
  {
    if toks == [] then []
    else (if toks[0].Item? then [toks[0].text] else []) + ItemTexts(toks[1..])
  }

  /** Each block counts once, except a list, which counts its items. */
  function Weight(blocks: seq<Block>): nat
  {
    if blocks == [] then 0
    else (if blocks[0].List? then |blocks[0].items| else 1) + Weight(blocks[1..])
  }

  function NonBlankCount(toks: seq<Line>): nat
  {
    if toks == [] then 0 else (if toks[0].Blank? then 0 else 1) + NonBlankCount(toks[1..])
  }

  lemma {:induction false} ItemRunFacts(toks: seq<Line>, n: nat)
    requires n <= |toks|
    requires forall i :: 0 <= i < n ==> toks[i].Item?
    ensures ItemTexts(toks) == Texts(toks[..n]) + ItemTexts(toks[n..])
    ensures NonBlankCount(toks) == n + NonBlankCount(toks[n..])
  {
    if n > 0 {
      ItemRunFacts(toks[1..], n - 1);
      assert toks[1..][n - 1..] == toks[n..];
      assert Texts(toks[..n]) == [toks[0].text] + Texts(toks[1..][..n - 1]);
    }
  }

  /** No line is a list by itself. */
  predicate WellFormed(toks: seq<Line>)
  {
    forall i :: 0 <= i < |toks| ==> toks[i].Single? ==> !toks[i].block.List?
  }

  /** The lists hold exactly the list lines' texts, in input order; no list
      is empty; and every non-blank line accounts for one block or one
      item. */
  lemma {:induction false} GroupFacts(toks: seq<Line>)
    requires WellFormed(toks)
    ensures ListItems(Group(toks)) == ItemTexts(toks)
    ensures forall b | b in Group(toks) :: b.List? ==> b.items != []
    ensures Weight(Group(toks)) == NonBlankCount(toks)
    decreases |toks|
  {
    if toks != [] {
      match toks[0]
      case Blank =>
        GroupFacts(toks[1..]);
      case Single(b) =>
        assert !b.List?;
        GroupFacts(toks[1..]);
        assert ([b] + Group(toks[1..]))[1..] == Group(toks[1..]);
      case Item(k, _) =>
        var n := RunLen(toks, k);
        assert WellFormed(toks[n..]) by {
          forall i | 0 <= i < |toks[n..]| ensures toks[n..][i] == toks[n + i] { }
        }
        GroupFacts(toks[n..]);
        ItemRunFacts(toks, n);
        var g := [List(k, Texts(toks[..n]))] + Group(toks[n..]);
        assert g[1..] == Group(toks[n..]);
    }
  }

  // ---------------------------------------------------------------------
  // The renderer

  /** The variables the loop of `renderMarkdown` and its `flushList`
      closure share. */
  datatype RenderState = RenderState(elements: seq<Block>, currentList: seq<string>, listType: Option<ListKind>)

  /** A list type is set exactly while items are pending. */
  predicate ValidState(st: RenderState)
  {
    st.listType.None? <==> st.currentList == []
  }

  /** `flushList`: on an empty buffer nothing happens; otherwise exactly
      one list, of the pending kind, is emitted and the buffer is empty. */
  function Flush(st: RenderState): (r: RenderState)
    ensures st.currentList == [] ==> r == st
    ensures st.currentList != [] ==> r.elements == st.elements + [List(if st.listType == Some(Ordered) then Ordered else Unordered, st.currentList)]
    ensures r.currentList == []
  {
    if |st.currentList| > 0 then
      var kind := if st.listType == Some(Ordered) then Ordered else Unordered;
      RenderState(st.elements + [List(kind, st.currentList)], [], None)
    else st
  }

  /** One pass of the `forEach` body, on a classified line. */
  function Step(st: RenderState, t: Line): RenderState
  {
    match t
    case Blank => Flush(st)
    case Single(b) =>
      var f := Flush(st);
      f.(elements := f.elements + [b])
    case Item(k, text) =>
      var f := if st.listType != Some(k) then Flush(st).(listType := Some(k)) else st;
      f.(currentList := f.currentList + [text])
  }

  /** The loop over the remaining lines. */
  function Run(st: RenderState, toks: seq<Line>): RenderState
    decreases |toks|
  {
    if toks == [] then st else Run(Step(st, toks[0]), toks[1..])
  }

  lemma RunCons(st: RenderState, toks: seq<Line>)
    requires toks != []
    ensures Run(st, toks) == Run(Step(st, toks[0]), toks[1..])
  {
  }

  /** What the state stands for: the blocks emitted so far followed by the
      grouping of the pending items and the lines still to come. */
  function Meaning(st: RenderState, rest: seq<Line>): seq<Block>
  {
    st.elements + Group(Pending(st.listType, st.currentList) + rest)
  }

  lemma FlushMeaning(st: RenderState, rest: seq<Line>)
    requires ValidState(st)
    requires rest == [] || st.listType.None? || !IsItemOf(rest[0], st.listType.value)
    ensures ValidState(Flush(st)) && Flush(st).currentList == []
    ensures Meaning(Flush(st), rest) == Meaning(st, rest)
  {
    if st.currentList != [] {
      var k := st.listType.value;
      FlushGroup(k, st.currentList, rest);
      assert Flush(st) == RenderState(st.elements + [List(k, st.currentList)], [], None);
      assert Pending(None, []) + rest == rest;
      assert Meaning(Flush(st), rest) == st.elements + [List(k, st.currentList)] + Group(rest);
    }
  }

  /** One step keeps the meaning of the state. */
  lemma StepMeaning(st: RenderState, t: Line, rest: seq<Line>)
    requires ValidState(st)
    ensures ValidState(Step(st, t))
    ensures Meaning(Step(st, t), rest) == Meaning(st, [t] + rest)
  {
    match t
    case Blank => StepClosing(st, t, rest);
    case Single(b) => StepClosing(st, t, rest);
    case Item(k, text) =>
      if st.listType != Some(k) {
        StepNewList(st, k, text, rest);
      } else {
        StepSameList(st, k, text, rest);
      }
  }

  /** A blank line or a single block closes the pending list. */
  lemma StepClosing(st: RenderState, t: Line, rest: seq<Line>)
    requires ValidState(st) && !t.Item?
    ensures ValidState(Step(st, t))
    ensures Meaning(Step(st, t), rest) == Meaning(st, [t] + rest)
  {
    var f := Flush(st);
    FlushMeaning(st, [t] + rest);
    GroupNonItem(t, rest);
    FlushedMeaning(f, [t] + rest);
    if t.Single? {
      assert Step(st, t) == f.(elements := f.elements + [t.block]);
      StepSingle(f, t.block, rest);
    } else {
      assert Step(st, t) == f;
      FlushedMeaning(f, rest);
    }
  }

  /** A flushed state means its blocks followed by the grouping of the rest. */
  lemma FlushedMeaning(f: RenderState, rest: seq<Line>)
    requires f.currentList == [] && f.listType.None?
    ensures Meaning(f, rest) == f.elements + Group(rest)
  {
    assert Pending(f.listType, f.currentList) + rest == rest;
  }

  lemma StepSingle(f: RenderState, b: Block, rest: seq<Line>)
    requires f.currentList == [] && f.listType.None?
    ensures Meaning(f.(elements := f.elements + [b]), rest) == f.elements + ([b] + Group(rest))
  {
    FlushedMeaning(f.(elements := f.elements + [b]), rest);
  }

  lemma GroupNonItem(t: Line, rest: seq<Line>)
    requires !t.Item?
    ensures Group([t] + rest) == (if t.Single? then [t.block] else []) + Group(rest)
  {
    assert ([t] + rest)[1..] == rest;
  }

  /** An item of another kind closes the pending list and opens a new one. */
  lemma StepNewList(st: RenderState, k: ListKind, text: string, rest: seq<Line>)
    requires ValidState(st) && st.listType != Some(k)
    ensures ValidState(Step(st, Item(k, text)))
    ensures Meaning(Step(st, Item(k, text)), rest) == Meaning(st, [Item(k, text)] + rest)
  {
    var t := Item(k, text);
    var f := Flush(st);
    FlushMeaning(st, [t] + rest);
    assert Pending(f.listType, f.currentList) == [];
    assert [] + ([t] + rest) == [t] + rest;
    assert Step(st, t) == RenderState(f.elements, [text], Some(k));
    assert Pending(Some(k), [text]) == [t];
  }

  /** An item of the pending kind joins the pending list. */
  lemma StepSameList(st: RenderState, k: ListKind, text: string, rest: seq<Line>)
    requires ValidState(st) && st.listType == Some(k)
    ensures ValidState(Step(st, Item(k, text)))
    ensures Meaning(Step(st, Item(k, text)), rest) == Meaning(st, [Item(k, text)] + rest)
  {
    var t := Item(k, text);
    var p := Pending(st.listType, st.currentList);
    assert Step(st, t) == RenderState(st.elements, st.currentList + [text], Some(k));
    assert Pending(Some(k), st.currentList + [text]) == p + [t];
    assert p + [t] + rest == p + ([t] + rest);
  }

  /** Running the loop and flushing at the end yields the meaning of the
      starting state. */
  lemma {:induction false} RunMeaning(st: RenderState, toks: seq<Line>)
    requires ValidState(st)
    ensures Flush(Run(st, toks)).elements == Meaning(st, toks)
    decreases |toks|
  {
    if toks == [] {
      FlushMeaning(st, []);
      assert Pending(None, []) + [] == [];
    } else {
      StepMeaning(st, toks[0], toks[1..]);
      RunMeaning(Step(st, toks[0]), toks[1..]);
      assert [toks[0]] + toks[1..] == toks;
    }
  }

  /** The renderer emits the grouping of the page's lines. */
  lemma RenderIsGroup(toks: seq<Line>)
    ensures Flush(Run(RenderState([], [], None), toks)).elements == Group(toks)
  {
    RunMeaning(RenderState([], [], None), toks);
    assert Pending(None, []) + toks == toks;
  }

  /** The facts about the grouping hold for every page: lists hold exactly
      the list lines' texts in order, none is empty, and each non-blank line
      accounts for one block or one list item. */
  lemma RenderedPage(content: string)
    ensures var toks := Tokens(Split(content, '\n'));
            var blocks := Group(toks);
            && ListItems(blocks) == ItemTexts(toks)
            && (forall b | b in blocks :: b.List? ==> b.items != [])
            && Weight(blocks) == NonBlankCount(toks)
  {
    var lines := Split(content, '\n');
    var toks := Tokens(lines);
    forall i | 0 <= i < |toks|
      ensures toks[i].Single? ==> !toks[i].block.List?
    {
      assert toks[i] == Classify(lines[i]);
    }
    GroupFacts(toks);
  }

  /** The renderer's variables, as the closure sees them. */
  class MarkdownRenderer {
    var elements: seq<Block>
    var currentList: seq<string>
    var listType: Option<ListKind>

    function State(): RenderState
      reads this
    {
      RenderState(elements, currentList, listType)
    }

    constructor ()
      ensures State() == RenderState([], [], None)
    {
      elements := [];
      currentList := [];
      listType := None;
    }

    /** `flushList`: emits the pending items as one list, if there are
        any, and clears them. */
    method FlushList()
      modifies this
      ensures State() == Flush(old(State()))
    {
      if |currentList| > 0 {
        var kind := if listType == Some(Ordered) then Ordered else Unordered;
        elements := elements + [List(kind, currentList)];
        currentList := [];
        listType := None;
      }
    }

    /** The `forEach` body for one classified line. */
    method AddLine(t: Line)
      modifies this
      ensures State() == Step(old(State()), t)
    {
      match t
      case Blank =>
        FlushList();
      case Single(b) =>
        FlushList();
        elements := elements + [b];
      case Item(k, text) =>
        if listType != Some(k) {
          FlushList();
          listType := Some(k);
        }
        currentList := currentList + [text];
    }
  }

  /** `renderMarkdown`: splits the content into lines, classifies each one,
      groups the list lines and flushes the last list at the end. */
  method RenderMarkdown(content: string) returns (elements: seq<Block>)
    ensures elements == Group(Tokens(Split(content, '\n')))
  {
    var toks := Tokens(Split(content, '\n'));
    ghost var final := Run(RenderState([], [], None), toks);
    var r := new MarkdownRenderer();
    var i := 0;
    while i < |toks|
      invariant 0 <= i <= |toks|
      invariant Run(r.State(), toks[i..]) == final
    {
      ghost var before := r.State();
      r.AddLine(toks[i]);
      RunCons(before, toks[i..]);
      assert toks[i..][1..] == toks[i + 1..];
      i := i + 1;
    }
    assert toks[i..] == [];
    r.FlushList();
    elements := r.elements;
    RenderIsGroup(toks);
  }

  // ---------------------------------------------------------------------
  // Related posts

  /** The filter of the related posts: another post of the same category. */
  function RelatedTo(current: BlogPost): BlogPost -> bool
  {
    (p: BlogPost) => p.id != current.id && p.category == current.category
  }

  /** The first three other posts of the same category, in list order. */
  function RelatedPosts(posts: seq<BlogPost>, current: BlogPost): (r: seq<BlogPost>)
    ensures |r| <= 3
    ensures forall p | p in r :: p in posts && p.id != current.id && p.category == current.category
    ensures SubseqOf(r, posts)
    ensures |r| == 3 || forall p | p in posts && p.id != current.id && p.category == current.category :: p in r
    ensures var same := Filter(posts, RelatedTo(current));
            |r| == (if |same| < 3 then |same| else 3) && r == same[..|r|]
  {
    var same := Filter(posts, RelatedTo(current));
    TakeSubseq(same, posts, 3);
    var r := Take(same, 3);
    assert |r| < 3 ==> r == same;
    assert forall i :: 0 <= i < |r| ==> r[i] in same;
    r
  }
}
