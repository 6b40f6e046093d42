/** What the message formatter guarantees, proved about the fold `Format` that
    `MessageFormat.FormatMessage` computes. */
module FormatProperties {
  import opened JsText
  import opened MessageFormat
  import opened SeqFacts

  // ---------------------------------------------------------------------------
  // List markers

  lemma {:induction false} SpaceRunPrefix(gap: string, rest: string)
    requires AllSpace(gap) && (rest == [] || !IsSpace(rest[0]))
    ensures SpaceRun(gap + rest) == |gap|
    decreases |gap|
  {
    if gap != [] {
      assert (gap + rest)[1..] == gap[1..] + rest;
      SpaceRunPrefix(gap[1..], rest);
    } else {
      assert gap + rest == rest;
    }
  }

  lemma {:induction false} DigitRunPrefix(digits: string, rest: string)
    requires forall i :: 0 <= i < |digits| ==> IsDigit(digits[i])
    requires rest == [] || !IsDigit(rest[0])
    ensures DigitRun(digits + rest) == |digits|
    decreases |digits|
  {
    if digits != [] {
      assert (digits + rest)[1..] == digits[1..] + rest;
      DigitRunPrefix(digits[1..], rest);
    } else {
      assert digits + rest == rest;
    }
  }

  /** A bullet character and the white space after it are removed, then a numeric
      marker at the start of what is left. */
  lemma StripBullet(m: char, gap: string, rest: string)
    requires m in BulletMarkers && gap != [] && AllSpace(gap)
    requires rest == [] || !IsSpace(rest[0])
    ensures IsListText([m] + gap + rest)
    ensures StripMarkers([m] + gap + rest) == rest[NumberMarkerLength(rest)..]
  {
    var s := [m] + gap + rest;
    assert s[1..] == gap + rest;
    SpaceRunPrefix(gap, rest);
    assert s[1 + |gap|..] == rest;
  }

  /** Digits, a dot and white space form a numeric marker, removed as a whole: on a
      line without a bullet, `1. Buy` is a list line whose item is `Buy`. */
  lemma StripNumber(digits: string, gap: string, rest: string)
    requires digits != [] && forall i :: 0 <= i < |digits| ==> IsDigit(digits[i])
    requires gap != [] && AllSpace(gap) && (rest == [] || !IsSpace(rest[0]))
    ensures NumberMarkerLength(digits + "." + gap + rest) == |digits| + 1 + |gap|
    ensures (digits + "." + gap + rest)[|digits| + 1 + |gap|..] == rest
    ensures IsListText(digits + "." + gap + rest) && StripMarkers(digits + "." + gap + rest) == rest
  {
    var s := digits + "." + gap + rest;
    assert s == digits + ("." + gap + rest);
    DigitRunPrefix(digits, "." + gap + rest);
    assert s[|digits|] == '.' && s[|digits| + 1] == gap[0];
    assert s[|digits| + 1..] == gap + rest;
    SpaceRunPrefix(gap, rest);
    assert s[0] == digits[0] && s[0] !in BulletMarkers;
    assert BulletMarkerLength(s) == 0 && s[0..] == s;
  }

  /** Both strips apply in turn: `- 1. x` becomes `x`. */
  lemma StripBulletThenNumber(m: char, gap: string, digits: string, gap2: string, rest: string)
    requires m in BulletMarkers && gap != [] && AllSpace(gap)
    requires digits != [] && forall i :: 0 <= i < |digits| ==> IsDigit(digits[i])
    requires gap2 != [] && AllSpace(gap2) && (rest == [] || !IsSpace(rest[0]))
    ensures StripMarkers([m] + gap + (digits + "." + gap2 + rest)) == rest
  {
    var numbered := digits + "." + gap2 + rest;
    assert numbered[0] == digits[0];
    StripBullet(m, gap, numbered);
    StripNumber(digits, gap2, rest);
  }

  /** With the class as spelled, a `•` bullet is not a list marker while `€` is; with
      the class meant, `•` is. */
  lemma WrittenBulletMissesBullet()
    ensures BulletMarkerLength("\U{2022} Stop") > 0
    ensures WrittenBulletMarkerLength("\U{2022} Stop") == 0
    ensures WrittenBulletMarkerLength("\U{20AC} 5") > 0
  {
    assert "\U{2022} Stop"[0] == '\U{2022}' && "\U{2022} Stop"[1] == ' ';
    assert "\U{20AC} 5"[0] == '\U{20AC}' && "\U{20AC} 5"[1] == ' ';
  }

  // ---------------------------------------------------------------------------
  // Emphasis

  /** A line is left as one plain span exactly when no closed `**…**` pair opens in it. */
  lemma {:induction false} SplitFromNoPair(s: string, p: nat, q: nat)
    requires p <= q <= |s|
    ensures SplitFrom(s, p, q) == [Plain(s[p..])] <==> forall j :: q <= j < |s| ==> !PairAt(s, j)
    decreases |s| - q
  {
    if q < |s| {
      if PairAt(s, q) {
        var k := LazyClose(s, q + 2).value;
        assert |SplitFrom(s, p, q)| >= 2;
      } else {
        SplitFromNoPair(s, p, q + 1);
      }
    }
  }

  lemma EmphasizePlain(s: string)
    ensures Emphasize(s) == [Plain(s)] <==> forall j :: 0 <= j < |s| ==> !PairAt(s, j)
  {
    SplitFromNoPair(s, 0, 0);
    assert s[0..] == s;
  }

  // ---------------------------------------------------------------------------
  // The raw fallback

  /** Lines that produce no block: blank lines, possibly followed by one final fence
      that opens a code region nothing is written into. */
  predicate Silent(infos: seq<LineInfo>) {
    infos == []
    || (infos[0].kind == Blank && Silent(infos[1..]))
    || (|infos| == 1 && infos[0].kind == Fence)
  }

  predicate Emitted(st: FormatState) {
    |st.formatted| > 0 || |st.currentList| > 0
  }

  /** Once something has been produced, the rest of the pass cannot take it back: the
      blocks already emitted stay at the front of the output and, outside a code region,
      the pending items stay too, grouping aside. So the pass never returns to having
      produced nothing. */
  lemma {:induction false} EmittedStays(st: FormatState, infos: seq<LineInfo>)
    requires Emitted(st)
    ensures Emitted(Run(st, infos))
    ensures st.formatted <= Run(st, infos).formatted
    ensures (st.inCodeBlock ==> st.currentList == []) ==> Emit(st) <= Emit(Run(st, infos))
    decreases |infos|
  {
    if infos != [] {
      var next := Step(st, infos[0]);
      StepKeepsFormatted(st, infos[0]);
      EmittedStays(next, infos[1..]);
    }
    if st.inCodeBlock ==> st.currentList == [] {
      RunEmit(st, infos);
    }
  }

  /** A line only ever appends to the emitted blocks. */
  lemma StepKeepsFormatted(st: FormatState, info: LineInfo)
    ensures st.formatted <= Step(st, info).formatted
    ensures Emitted(st) ==> Emitted(Step(st, info))
  {
  }

  /** From the start, the pass produces nothing exactly on silent lines. */
  lemma {:induction false} SilentRun(infos: seq<LineInfo>)
    ensures Silent(infos) <==> !Emitted(Run(Initial, infos))
    decreases |infos|
  {
    if infos != [] {
      var st := Step(Initial, infos[0]);
      if infos[0].kind == Blank {
        assert st == Initial;
        SilentRun(infos[1..]);
      } else if infos[0].kind == Fence {
        assert st == FormatState([], [], true);
        if |infos| > 1 {
          var st2 := Step(st, infos[1]);
          assert Emitted(st2);
          assert infos[1..][1..] == infos[2..];
          EmittedStays(st2, infos[2..]);
        }
      } else {
        assert Emitted(st);
        EmittedStays(st, infos[1..]);
      }
    }
  }

  /** `formatMessage` falls back to the raw content, unchanged, exactly when every line
      is blank except possibly a last one that opens a code region; otherwise it
      returns a non-empty block sequence. */
  lemma FormatRawIff(content: string)
    ensures Format(content).Raw? <==> Silent(AnalyzeAll(SplitLines(content)))
    ensures Format(content).Raw? ==> Format(content).content == content
    ensures Format(content).Blocks? ==> |Format(content).blocks| > 0
  {
    SilentRun(AnalyzeAll(SplitLines(content)));
  }

  // ---------------------------------------------------------------------------
  // Shape of the block sequence

  predicate NoAdjacentLists(blocks: seq<Block>) {
    forall i :: 0 < i < |blocks| && blocks[i].ListBlock? ==> !blocks[i - 1].ListBlock?
  }

  /** What every block sequence the formatter returns satisfies: it does not start with a
      line break, every list has an item, and two lists are never adjacent (consecutive
      items always share one list). */
  predicate WellFormed(blocks: seq<Block>) {
    && (|blocks| > 0 ==> !blocks[0].LineBreak?)
    && (forall i :: 0 <= i < |blocks| && blocks[i].ListBlock? ==> |blocks[i].items| > 0)
    && NoAdjacentLists(blocks)
  }

  predicate LastIsList(blocks: seq<Block>) {
    |blocks| > 0 && blocks[|blocks| - 1].ListBlock?
  }

  /** The invariant of the pass: a code region has no pending list, and the output can
      end with a list only right after a fence opened a code region. */
  predicate StateOk(st: FormatState) {
    && WellFormed(st.formatted)
    && (st.inCodeBlock ==> st.currentList == [])
    && (LastIsList(st.formatted) ==> st.inCodeBlock)
  }

  lemma AppendOk(blocks: seq<Block>, b: Block)
    requires WellFormed(blocks) && !b.LineBreak? && !b.ListBlock?
    ensures WellFormed(blocks + [b])
  {
    var out := blocks + [b];
    assert forall i :: 0 <= i < |blocks| ==> out[i] == blocks[i];
  }

  lemma FlushOk(st: FormatState)
    requires StateOk(st) && !st.inCodeBlock
    ensures WellFormed(Flush(st.formatted, st.currentList))
  {
    var out := Flush(st.formatted, st.currentList);
    if |st.currentList| > 0 {
      assert forall i :: 0 <= i < |st.formatted| ==> out[i] == st.formatted[i];
    }
  }

  lemma StepOk(st: FormatState, info: LineInfo)
    requires StateOk(st)
    ensures StateOk(Step(st, info))
  {
    if info.kind == Fence {
      if st.inCodeBlock {
        AppendOk(st.formatted, Divider);
      } else {
        FlushOk(st);
      }
    } else if st.inCodeBlock {
      AppendOk(st.formatted, CodeLine(info.line));
    } else if info.kind == Heading {
      FlushOk(st);
      AppendOk(Flush(st.formatted, st.currentList), Header(info.trimmed));
    } else if info.kind == TextKind {
      FlushOk(st);
      AppendOk(Flush(st.formatted, st.currentList), TextLine(info.spans));
    } else if info.kind == Blank && |st.formatted| > 0 {
      var out := st.formatted + [LineBreak];
      assert forall i :: 0 <= i < |st.formatted| ==> out[i] == st.formatted[i];
    }
  }

  lemma {:induction false} RunOk(st: FormatState, infos: seq<LineInfo>)
    requires StateOk(st)
    ensures StateOk(Run(st, infos))
    decreases |infos|
  {
    if infos != [] {
      StepOk(st, infos[0]);
      RunOk(Step(st, infos[0]), infos[1..]);
    }
  }

  /** Every block sequence the formatter returns is well formed. */
  lemma FormatWellFormed(content: string)
    ensures Format(content).Blocks? ==> WellFormed(Format(content).blocks)
  {
    var fin := Run(Initial, AnalyzeAll(SplitLines(content)));
    RunOk(Initial, AnalyzeAll(SplitLines(content)));
    if !fin.inCodeBlock {
      FlushOk(fin);
    }
  }

  // ---------------------------------------------------------------------------
  // Code regions

  /** Each line, untrimmed, as a code line. */
  function CodeLines(infos: seq<LineInfo>): seq<Block> {
    if infos == [] then [] else [CodeLine(infos[0].line)] + CodeLines(infos[1..])
  }

  lemma {:induction false} CodeLinesSpec(infos: seq<LineInfo>)
    ensures |CodeLines(infos)| == |infos|
    ensures forall i :: 0 <= i < |infos| ==> CodeLines(infos)[i] == CodeLine(infos[i].line)
    decreases |infos|
  {
    if infos != [] {
      CodeLinesSpec(infos[1..]);
    }
  }

  predicate NoFence(infos: seq<LineInfo>) {
    forall i :: 0 <= i < |infos| ==> infos[i].kind != Fence
  }

  lemma StepCode(st: FormatState, info: LineInfo)
    requires st.inCodeBlock && info.kind != Fence
    ensures Step(st, info) == st.(formatted := st.formatted + [CodeLine(info.line)])
  {
  }

  /** Inside a code region every line that is not a fence is emitted verbatim, untrimmed,
      whatever rule it would fall under outside. */
  lemma {:induction false} CodeBody(st: FormatState, body: seq<LineInfo>)
    requires st.inCodeBlock && st.currentList == []
    requires NoFence(body)
    ensures Run(st, body) == st.(formatted := st.formatted + CodeLines(body))
    decreases |body|
  {
    if body != [] {
      var line := CodeLine(body[0].line);
      var rest := CodeLines(body[1..]);
      var next := st.(formatted := st.formatted + [line]);
      StepCode(st, body[0]);
      CodeBody(next, body[1..]);
      assert CodeLines(body) == [line] + rest;
      assert (st.formatted + [line]) + rest == st.formatted + ([line] + rest);
    } else {
      assert st.formatted + CodeLines(body) == st.formatted;
    }
  }

  lemma {:induction false} RunAppend(st: FormatState, a: seq<LineInfo>, b: seq<LineInfo>)
    ensures Run(st, a + b) == Run(Run(st, a), b)
    decreases |a|
  {
    if a != [] {
      assert (a + b)[0] == a[0] && (a + b)[1..] == a[1..] + b;
      RunAppend(Step(st, a[0]), a[1..], b);
    } else {
      assert a + b == b;
    }
  }

  /** A fenced region: the opening fence flushes the pending list and emits nothing, the
      lines in between become code lines, and only the closing fence emits a divider. */
  lemma FencedRegion(st: FormatState, open: LineInfo, body: seq<LineInfo>, close: LineInfo)
    requires !st.inCodeBlock
    requires open.kind == Fence && close.kind == Fence && NoFence(body)
    ensures Run(st, [open] + body + [close])
      == FormatState(Flush(st.formatted, st.currentList) + CodeLines(body) + [Divider], [], false)
  {
    var inside := Step(st, open);
    assert inside == FormatState(Flush(st.formatted, st.currentList), [], true);
    assert [open] + body + [close] == [open] + (body + [close]);
    RunAppend(st, [open], body + [close]);
    RunAppend(inside, body, [close]);
    CodeBody(inside, body);
  }

  lemma FencedRun(open: LineInfo, mid: seq<LineInfo>, close: LineInfo, last: LineInfo)
    requires open.kind == Fence && close.kind == Fence && NoFence(mid) && last.kind == Blank
    ensures Finish(Run(Initial, [open] + mid + [close] + [last])) == CodeLines(mid) + [Divider, LineBreak]
  {
    FencedRegion(Initial, open, mid, close);
    RunAppend(Initial, [open] + mid + [close], [last]);
  }

  /** The analysis of the lines, one entry per line. */
  lemma AnalyzeAllAt(lines: seq<string>)
    ensures |AnalyzeAll(lines)| == |lines|
    ensures forall i :: 0 <= i < |lines| ==> AnalyzeAll(lines)[i] == Analyze(lines[i])
  {
  }

  lemma FencedAnalysis(open: string, body: seq<string>, close: string, last: string)
    requires IsFence(Trim(open)) && IsFence(Trim(close)) && Trim(last) == []
    ensures var infos := AnalyzeAll([open] + body + [close, last]); var n := |body|;
      && |infos| == n + 3
      && infos[0].kind == Fence && infos[n + 1].kind == Fence && infos[n + 2].kind == Blank
      && infos[1..n + 1] == AnalyzeAll(body)
  {
    var lines := [open] + body + [close, last];
    var n := |body|;
    AnalyzeAllAt(lines);
    AnalyzeAllAt(body);
    assert lines[0] == open && lines[n + 1] == close && lines[n + 2] == last;
    assert lines[1..n + 1] == body;
  }

  lemma CodeLinesOfBody(body: seq<string>)
    requires forall i :: 0 <= i < |body| ==> !IsFence(Trim(body[i]))
    ensures NoFence(AnalyzeAll(body))
    ensures CodeLines(AnalyzeAll(body)) == seq(|body|, i requires 0 <= i < |body| => CodeLine(body[i]))
  {
    CodeLinesSpec(AnalyzeAll(body));
  }

  lemma SplitEnds<T>(s: seq<T>)
    requires |s| >= 2
    ensures s == [s[0]] + s[1..|s| - 1] + [s[|s| - 1]]
  {
  }

  lemma SplitAround<T>(s: seq<T>)
    requires |s| >= 3
    ensures s == [s[0]] + s[1..|s| - 2] + [s[|s| - 2]] + [s[|s| - 1]]
  {
  }

  /** A whole message that is one fenced region followed by a blank last line (what a
      final newline leaves): every line in between is shown verbatim as code, the closing
      fence adds the divider, and the blank last line adds a line break after it. */
  lemma FencedMessage(open: string, body: seq<string>, close: string, last: string)
    requires IsFence(Trim(open)) && IsFence(Trim(close)) && Trim(last) == []
    requires '\n' !in open && '\n' !in close && '\n' !in last
    requires forall i :: 0 <= i < |body| ==> '\n' !in body[i] && !IsFence(Trim(body[i]))
    ensures Format(JoinLines([open] + body + [close, last]))
      == Blocks(seq(|body|, i requires 0 <= i < |body| => CodeLine(body[i])) + [Divider, LineBreak])
  {
    var lines := [open] + body + [close, last];
    var n := |body|;
    AnalyzeAllAt(lines);
    AnalyzeAllAt(body);
    FencedSplit(open, body, close, last);
    FencedAnalysis(open, body, close, last);
    CodeLinesOfBody(body);
    var infos := AnalyzeAll(lines);
    SplitAround(infos);
    FencedRun(infos[0], infos[1..n + 1], infos[n + 1], infos[n + 2]);
    var blocks := Finish(Run(Initial, infos));
    assert blocks == CodeLines(AnalyzeAll(body)) + [Divider, LineBreak];
  }

  lemma FencedSplit(open: string, body: seq<string>, close: string, last: string)
    requires '\n' !in open && '\n' !in close && '\n' !in last
    requires NoNewlines(body)
    ensures SplitLines(JoinLines([open] + body + [close, last])) == [open] + body + [close, last]
  {
    NoNewlinesAppend([open], body);
    NoNewlinesAppend([open] + body, [close, last]);
    SplitJoinLines([open] + body + [close, last]);
  }

  predicate NoNewlines(lines: seq<string>) {
    forall i :: 0 <= i < |lines| ==> '\n' !in lines[i]
  }

  lemma NoNewlinesAppend(a: seq<string>, b: seq<string>)
    requires NoNewlines(a) && NoNewlines(b)
    ensures NoNewlines(a + b)
  {
    forall i | 0 <= i < |a + b| ensures '\n' !in (a + b)[i] {
      if i < |a| {
        assert (a + b)[i] == a[i];
      } else {
        assert (a + b)[i] == b[i - |a|];
      }
    }
  }

  // ---------------------------------------------------------------------------
  // Lists

  predicate AllListLines(infos: seq<LineInfo>) {
    forall i :: 0 <= i < |infos| ==> infos[i].kind == ListLine
  }

  /** The item of each line, in order. */
  function Items(infos: seq<LineInfo>): seq<seq<Span>> {
    if infos == [] then [] else [infos[0].item] + Items(infos[1..])
  }

  lemma {:induction false} ItemsSpec(infos: seq<LineInfo>)
    ensures |Items(infos)| == |infos|
    ensures forall i :: 0 <= i < |infos| ==> Items(infos)[i] == infos[i].item
    decreases |infos|
  {
    if infos != [] {
      ItemsSpec(infos[1..]);
    }
  }

  lemma StepList(st: FormatState, info: LineInfo)
    requires !st.inCodeBlock && info.kind == ListLine
    ensures Step(st, info) == st.(currentList := st.currentList + [info.item])
  {
  }

  /** Consecutive list lines accumulate, in order, into the pending list; nothing is
      emitted while they last. */
  lemma {:induction false} ListRun(st: FormatState, infos: seq<LineInfo>)
    requires !st.inCodeBlock && AllListLines(infos)
    ensures Run(st, infos) == st.(currentList := st.currentList + Items(infos))
    decreases |infos|
  {
    if infos != [] {
      var item := infos[0].item;
      var rest := Items(infos[1..]);
      var next := st.(currentList := st.currentList + [item]);
      StepList(st, infos[0]);
      ListRun(next, infos[1..]);
      assert Items(infos) == [item] + rest;
      assert (st.currentList + [item]) + rest == st.currentList + ([item] + rest);
    } else {
      assert st.currentList + Items(infos) == st.currentList;
    }
  }

  lemma HeaderListTextRun(head: LineInfo, items: seq<LineInfo>, tail: LineInfo)
    requires head.kind == Heading && AllListLines(items) && items != [] && tail.kind == TextKind
    ensures Finish(Run(Initial, [head] + items + [tail]))
      == [Header(head.trimmed), ListBlock(Items(items)), TextLine(tail.spans)]
  {
    var st := Step(Initial, head);
    assert st == FormatState([Header(head.trimmed)], [], false);
    RunAppend(Initial, [head], items + [tail]);
    RunAppend(st, items, [tail]);
    ListRun(st, items);
    assert [head] + items + [tail] == [head] + (items + [tail]);
    assert [] + Items(items) == Items(items);
  }

  lemma HeaderListTextSplit(head: string, items: seq<string>, tail: string)
    requires '\n' !in head && '\n' !in tail && NoNewlines(items)
    ensures SplitLines(JoinLines([head] + items + [tail])) == [head] + items + [tail]
  {
    NoNewlinesAppend([head], items);
    NoNewlinesAppend([head] + items, [tail]);
    SplitJoinLines([head] + items + [tail]);
  }

  lemma HeaderListTextAnalysis(head: string, items: seq<string>, tail: string)
    ensures var infos := AnalyzeAll([head] + items + [tail]); var n := |items|;
      && |infos| == n + 2
      && infos[0].trimmed == Trim(head) && infos[0].kind == Classify(Trim(head))
      && infos[n + 1].kind == Classify(Trim(tail)) && infos[n + 1].spans == Emphasize(Trim(tail))
      && infos[1..n + 1] == AnalyzeAll(items)
  {
    var lines := [head] + items + [tail];
    var n := |items|;
    AnalyzeAllAt(lines);
    AnalyzeAllAt(items);
    assert lines[0] == head && lines[n + 1] == tail;
    assert lines[1..n + 1] == items;
  }

  lemma ItemsOfLines(items: seq<string>)
    requires forall i :: 0 <= i < |items| ==> Classify(Trim(items[i])) == ListLine
    ensures AllListLines(AnalyzeAll(items))
    ensures Items(AnalyzeAll(items))
      == seq(|items|, i requires 0 <= i < |items| => Emphasize(StripMarkers(Trim(items[i]))))
  {
    ItemsSpec(AnalyzeAll(items));
  }

  /** A header line, then list lines, then a text line: one header, one list holding
      every item in order (markers stripped), and one text line. */
  lemma HeaderListTextMessage(head: string, items: seq<string>, tail: string)
    requires '\n' !in head && '\n' !in tail
    requires forall i :: 0 <= i < |items| ==> '\n' !in items[i]
    requires Classify(Trim(head)) == Heading && Classify(Trim(tail)) == TextKind
    requires items != [] && forall i :: 0 <= i < |items| ==> Classify(Trim(items[i])) == ListLine
    ensures Format(JoinLines([head] + items + [tail])) == Blocks([
      Header(Trim(head)),
      ListBlock(seq(|items|, i requires 0 <= i < |items| => Emphasize(StripMarkers(Trim(items[i]))))),
      TextLine(Emphasize(Trim(tail)))])
  {
    var lines := [head] + items + [tail];
    var n := |items|;
    HeaderListTextSplit(head, items, tail);
    HeaderListTextAnalysis(head, items, tail);
    ItemsOfLines(items);
    var infos := AnalyzeAll(lines);
    SplitEnds(infos);
    HeaderListTextRun(infos[0], infos[1..n + 1], infos[n + 1]);
    var blocks := Finish(Run(Initial, infos));
    assert blocks == [Header(Trim(head)), ListBlock(Items(AnalyzeAll(items))), TextLine(Emphasize(Trim(tail)))];
  }

  predicate AllBlank(infos: seq<LineInfo>) {
    forall i :: 0 <= i < |infos| ==> infos[i].kind == Blank
  }

  function LineBreaks(n: nat): (r: seq<Block>)
    ensures |r| == n && forall i :: 0 <= i < n ==> r[i] == LineBreak
  {
    seq(n, i => LineBreak)
  }

  /** Blank lines do not flush the pending list: they leave it alone and, once something
      has been emitted, push line breaks that therefore come before that list. */
  lemma {:induction false} BlankRun(st: FormatState, infos: seq<LineInfo>)
    requires !st.inCodeBlock && AllBlank(infos)
    ensures Run(st, infos)
      == st.(formatted := st.formatted + (if |st.formatted| > 0 then LineBreaks(|infos|) else []))
    decreases |infos|
  {
    if infos != [] {
      var next := Step(st, infos[0]);
      BlankRun(next, infos[1..]);
      if |st.formatted| > 0 {
        assert [LineBreak] + LineBreaks(|infos| - 1) == LineBreaks(|infos|);
      }
    } else {
      assert st.formatted + [] == st.formatted;
    }
  }

  // ---------------------------------------------------------------------------
  // A line-by-line reference

  /** The meaning of one line on its own, given whether a code region is open: what
      the formatter emits for it, before grouping list items and adding line breaks. */
  function Meaning(inCode: bool, info: LineInfo): seq<Block> {
    if info.kind == Fence then (if inCode then [Divider] else [])
    else if inCode then [CodeLine(info.line)]
    else
      match info.kind
      case Heading => [Header(info.trimmed)]
      case ListLine => [ListBlock([info.item])]
      case TextKind => [TextLine(info.spans)]
      case Blank => []
  }

  /** Only a fence opens or closes a code region. */
  function InCodeAfter(inCode: bool, info: LineInfo): bool {
    if info.kind == Fence then !inCode else inCode
  }

  /** The line-by-line reference: each line's meaning, in order, with blank lines dropped
      and list items kept apart. */
  function Reference(inCode: bool, infos: seq<LineInfo>): seq<Block>
    decreases |infos|
  {
    if infos == [] then []
    else Meaning(inCode, infos[0]) + Reference(InCodeAfter(inCode, infos[0]), infos[1..])
  }

  function Singletons(items: seq<seq<Span>>): seq<Block> {
    if items == [] then [] else [ListBlock([items[0]])] + Singletons(items[1..])
  }

  /** Blocks with line breaks removed and each list cut into one list per item. */
  function Explode(blocks: seq<Block>): seq<Block> {
    if blocks == [] then []
    else ExplodeOne(blocks[0]) + Explode(blocks[1..])
  }

  function ExplodeOne(b: Block): seq<Block> {
    if b.LineBreak? then [] else if b.ListBlock? then Singletons(b.items) else [b]
  }

  function BlocksOf(r: Rendered): seq<Block> {
    match r
    case Blocks(bs) => bs
    case Raw(_) => []
  }

  lemma {:induction false} SingletonsAppend(a: seq<seq<Span>>, b: seq<seq<Span>>)
    ensures Singletons(a + b) == Singletons(a) + Singletons(b)
    decreases |a|
  {
    if a != [] {
      assert (a + b)[0] == a[0] && (a + b)[1..] == a[1..] + b;
      SingletonsAppend(a[1..], b);
      Associative([ListBlock([a[0]])], Singletons(a[1..]), Singletons(b));
    } else {
      assert a + b == b;
    }
  }

  lemma {:induction false} ExplodeAppend(a: seq<Block>, b: seq<Block>)
    ensures Explode(a + b) == Explode(a) + Explode(b)
    decreases |a|
  {
    if a != [] {
      assert (a + b)[0] == a[0] && (a + b)[1..] == a[1..] + b;
      ExplodeAppend(a[1..], b);
      Associative(ExplodeOne(a[0]), Explode(a[1..]), Explode(b));
    } else {
      assert a + b == b;
    }
  }

  lemma ExplodeSnoc(blocks: seq<Block>, b: Block)
    ensures Explode(blocks + [b]) == Explode(blocks) + ExplodeOne(b)
  {
    ExplodeAppend(blocks, [b]);
    assert Explode([b]) == ExplodeOne(b) + Explode([]);
  }

  lemma ExplodeFlush(formatted: seq<Block>, currentList: seq<seq<Span>>)
    ensures Explode(Flush(formatted, currentList)) == Explode(formatted) + Singletons(currentList)
  {
    if |currentList| > 0 {
      ExplodeSnoc(formatted, ListBlock(currentList));
    } else {
      assert Singletons(currentList) == [];
    }
  }

  /** What a state has produced so far, grouping aside: its blocks and its pending items. */
  function Emit(st: FormatState): seq<Block> {
    Explode(st.formatted) + Singletons(st.currentList)
  }

  lemma StepFenceEmit(st: FormatState, info: LineInfo)
    requires info.kind == Fence && (st.inCodeBlock ==> st.currentList == [])
    ensures Emit(Step(st, info)) == Emit(st) + Meaning(st.inCodeBlock, info)
  {
    var flushed := Flush(st.formatted, st.currentList);
    ExplodeFlush(st.formatted, st.currentList);
    if st.inCodeBlock {
      ExplodeSnoc(flushed, Divider);
    }
  }

  lemma StepCodeEmit(st: FormatState, info: LineInfo)
    requires info.kind != Fence && st.inCodeBlock && st.currentList == []
    ensures Emit(Step(st, info)) == Emit(st) + Meaning(st.inCodeBlock, info)
  {
    ExplodeSnoc(st.formatted, CodeLine(info.line));
  }

  lemma StepClosingEmit(st: FormatState, info: LineInfo, b: Block)
    requires !st.inCodeBlock && (info.kind == Heading || info.kind == TextKind)
    requires b == (if info.kind == Heading then Header(info.trimmed) else TextLine(info.spans))
    ensures Emit(Step(st, info)) == Emit(st) + Meaning(st.inCodeBlock, info)
  {
    var flushed := Flush(st.formatted, st.currentList);
    ExplodeFlush(st.formatted, st.currentList);
    ExplodeSnoc(flushed, b);
    assert Step(st, info) == FormatState(flushed + [b], [], false);
  }

  lemma StepListEmit(st: FormatState, info: LineInfo)
    requires !st.inCodeBlock && info.kind == ListLine
    ensures Emit(Step(st, info)) == Emit(st) + Meaning(st.inCodeBlock, info)
  {
    SingletonsAppend(st.currentList, [info.item]);
    assert Singletons([info.item]) == [ListBlock([info.item])] + Singletons([]);
  }

  lemma StepBlankEmit(st: FormatState, info: LineInfo)
    requires !st.inCodeBlock && info.kind == Blank
    ensures Emit(Step(st, info)) == Emit(st) + Meaning(st.inCodeBlock, info)
  {
    if |st.formatted| > 0 {
      ExplodeSnoc(st.formatted, LineBreak);
    }
  }

  /** One line: what the step adds to the output, grouping aside, is the line's meaning. */
  lemma StepEmit(st: FormatState, info: LineInfo)
    requires st.inCodeBlock ==> st.currentList == []
    ensures Step(st, info).inCodeBlock == InCodeAfter(st.inCodeBlock, info)
    ensures Step(st, info).inCodeBlock ==> Step(st, info).currentList == []
    ensures Emit(Step(st, info)) == Emit(st) + Meaning(st.inCodeBlock, info)
  {
    if info.kind == Fence {
      StepFenceEmit(st, info);
    } else if st.inCodeBlock {
      StepCodeEmit(st, info);
    } else if info.kind == Heading {
      StepClosingEmit(st, info, Header(info.trimmed));
    } else if info.kind == TextKind {
      StepClosingEmit(st, info, TextLine(info.spans));
    } else if info.kind == ListLine {
      StepListEmit(st, info);
    } else {
      StepBlankEmit(st, info);
    }
  }

  lemma {:induction false} RunEmit(st: FormatState, infos: seq<LineInfo>)
    requires st.inCodeBlock ==> st.currentList == []
    ensures Emit(Run(st, infos)) == Emit(st) + Reference(st.inCodeBlock, infos)
    decreases |infos|
  {
    if infos != [] {
      var next := Step(st, infos[0]);
      var tail := infos[1..];
      var meaning := Meaning(st.inCodeBlock, infos[0]);
      StepEmit(st, infos[0]);
      RunEmit(next, tail);
      var later := Reference(next.inCodeBlock, tail);
      assert Run(st, infos) == Run(next, tail);
      assert Reference(st.inCodeBlock, infos) == meaning + later;
      Associative(Emit(st), meaning, later);
    } else {
      assert Emit(st) + [] == Emit(st);
    }
  }

  /** After the final flush, the output is what the pass produced before grouping, plus
      the per-line meaning of the rest. */
  lemma RunExplode(st: FormatState, infos: seq<LineInfo>)
    requires st.inCodeBlock ==> st.currentList == []
    ensures Explode(Finish(Run(st, infos))) == Emit(st) + Reference(st.inCodeBlock, infos)
  {
    RunEmit(st, infos);
    var fin := Run(st, infos);
    ExplodeFlush(fin.formatted, fin.currentList);
  }

  /** Grouping and line breaks aside, the formatter emits exactly the per-line meaning of
      the content, in line order: nothing is lost, invented or reordered. */
  lemma FormatMatchesReference(content: string)
    ensures Explode(BlocksOf(Format(content))) == Reference(false, AnalyzeAll(SplitLines(content)))
  {
    var infos := AnalyzeAll(SplitLines(content));
    RunExplode(Initial, infos);
    InitialEmitsNothing();
    FormatBlocks(content);
  }

  lemma InitialEmitsNothing()
    ensures Emit(Initial) == []
  {
    assert Explode([]) == [] && Singletons([]) == [];
  }

  /** The blocks of a rendered message are the blocks the pass produced, also when it
      falls back to the raw content (then there are none). */
  lemma FormatBlocks(content: string)
    ensures BlocksOf(Format(content)) == Finish(Run(Initial, AnalyzeAll(SplitLines(content))))
  {
  }
}
