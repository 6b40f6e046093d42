/** The chat assistant's message formatter (`formatMessage`): a pass over the lines
    of an assistant reply that turns it into display blocks: headers, bullet or
    numbered lists, code regions between `---` fences, text lines with `**bold**`
    spans, and line breaks. When no block is produced the raw text is shown. */
module MessageFormat {
  import opened Wrappers
  import opened JsText
  import opened SeqFacts

  /** An inline piece of a line: plain text, or the text between a `**` pair. */
  datatype Span = Plain(text: string) | Emph(text: string)

  datatype Block =
    | Header(text: string)
    | ListBlock(items: seq<seq<Span>>)
    | CodeLine(text: string)
    | Divider
    | TextLine(spans: seq<Span>)
    | LineBreak

  /** What the formatter hands to the renderer: blocks, or the untouched content. */
  datatype Rendered = Blocks(blocks: seq<Block>) | Raw(content: string)

  /** A trimmed line starting with this toggles a code region. */
  const FenceMarker: string := "---"
  /** A short trimmed line ending with this is a header. */
  const HeaderSuffix: string := ":"
  /** Headers are shorter than this many UTF-16 code units. */
  const HeaderLengthLimit: nat := 50
  /** The characters `[*\-•]` that open a bullet item. */
  const BulletMarkers: set<char> := {'*', '-', '\U{2022}'}
  /** The delimiter of an emphasised span. */
  const BoldDelimiter: string := "**"

  // ---------------------------------------------------------------------------
  // Line tests

  /** The length of the run of `\s` at the start of `s` (what a greedy `\s*` eats). */
  function SpaceRun(s: string): (n: nat)
    ensures n <= |s|
  {
    if s != [] && IsSpace(s[0]) then 1 + SpaceRun(s[1..]) else 0
  }

  /** The length of the run of digits at the start of `s` (what a greedy `\d*` eats). */
  function DigitRun(s: string): (n: nat)
    ensures n <= |s|
  {
    if s != [] && IsDigit(s[0]) then 1 + DigitRun(s[1..]) else 0
  }

  /** The run is the longest prefix of white space. */
  lemma {:induction false} SpaceRunSpec(s: string)
    ensures var n := SpaceRun(s); AllSpace(s[..n]) && (n == |s| || !IsSpace(s[n]))
    decreases |s|
  {
    if s != [] && IsSpace(s[0]) {
      SpaceRunSpec(s[1..]);
      assert s[..SpaceRun(s)] == [s[0]] + s[1..][..SpaceRun(s[1..])];
    }
  }

  /** How much of `s` the bullet marker `/^[\*\-•]\s+/` matches; 0 when it does not match. */
  function BulletMarkerLength(s: string): (n: nat)
    ensures n <= |s|
  {
    if |s| >= 2 && s[0] in BulletMarkers && IsSpace(s[1]) then 1 + SpaceRun(s[1..]) else 0
  }

  /** The bullet class as the source file spells it: its `•` is stored double-encoded,
      as the three characters `â`, `€` and `¢`. */
  const WrittenBulletMarkers: set<char> := {'*', '-', '\U{00E2}', '\U{20AC}', '\U{00A2}'}

  /** The bullet marker with the class as spelled; the rest of the model uses
      `BulletMarkerLength`, with the bullet character meant. */
  function WrittenBulletMarkerLength(s: string): (n: nat)
    ensures n <= |s|
    ensures n > 0 <==> |s| >= 2 && s[0] in WrittenBulletMarkers && IsSpace(s[1])
  {
    if |s| >= 2 && s[0] in WrittenBulletMarkers && IsSpace(s[1]) then 1 + SpaceRun(s[1..]) else 0
  }

  /** How much of `s` the numeric marker `/^\d+\.\s+/` matches; 0 when it does not match. */
  function NumberMarkerLength(s: string): (n: nat)
    ensures n <= |s|
  {
    var d := DigitRun(s);
    if d > 0 && d + 1 < |s| && s[d] == '.' && IsSpace(s[d + 1]) then d + 1 + SpaceRun(s[d + 1..]) else 0
  }

  /** The run is the longest prefix of digits. */
  lemma {:induction false} DigitRunSpec(s: string)
    ensures var n := DigitRun(s); (forall i :: 0 <= i < n ==> IsDigit(s[i])) && (n == |s| || !IsDigit(s[n]))
    decreases |s|
  {
    if s != [] && IsDigit(s[0]) {
      DigitRunSpec(s[1..]);
      assert forall i :: 1 <= i < DigitRun(s) ==> s[i] == s[1..][i - 1];
    }
  }

  /** After a matched numeric marker only white space is taken, and all of it. */
  lemma NumberMarkerGap(s: string, d: nat)
    requires d == DigitRun(s) && d > 0 && d + 1 < |s| && s[d] == '.' && IsSpace(s[d + 1])
    ensures var n := NumberMarkerLength(s); AllSpace(s[d + 1..n]) && (n == |s| || !IsSpace(s[n]))
  {
    var t := s[d + 1..];
    var m := SpaceRun(t);
    assert NumberMarkerLength(s) == d + 1 + m;
    SpaceRunSpec(t);
    SpaceTransfer(s, t, d + 1, m);
  }

  /** White space found at the start of a suffix is white space of the whole string. */
  lemma SpaceTransfer(s: string, t: string, o: nat, m: nat)
    requires o <= |s| && t == s[o..] && m <= |t|
    requires AllSpace(t[..m]) && (m == |t| || !IsSpace(t[m]))
    ensures AllSpace(s[o..o + m]) && (o + m == |s| || !IsSpace(s[o + m]))
  {
    assert t[..m] == s[o..o + m];
  }

  /** The numeric marker matches exactly a non-empty run of digits followed by a dot and
      white space, and then takes all the white space that follows. */
  lemma NumberMarkerSpec(s: string)
    ensures var n, d := NumberMarkerLength(s), DigitRun(s);
      && (n > 0 <==> d > 0 && d + 1 < |s| && s[d] == '.' && IsSpace(s[d + 1]))
      && (n > 0 ==> (forall i :: 0 <= i < d ==> IsDigit(s[i])) && AllSpace(s[d + 1..n]) && (n == |s| || !IsSpace(s[n])))
  {
    DigitRunSpec(s);
    var d := DigitRun(s);
    if d > 0 && d + 1 < |s| && s[d] == '.' && IsSpace(s[d + 1]) {
      NumberMarkerGap(s, d);
    }
  }

  /** The bullet marker matches exactly a marker character followed by white space, and
      then takes all the white space that follows. */
  lemma BulletMarkerSpec(s: string)
    ensures var n := BulletMarkerLength(s);
      && (n > 0 <==> |s| >= 2 && s[0] in BulletMarkers && IsSpace(s[1]))
      && (n > 0 ==> AllSpace(s[1..n]) && (n == |s| || !IsSpace(s[n])))
  {
    if |s| >= 2 && s[0] in BulletMarkers && IsSpace(s[1]) {
      SpaceRunSpec(s[1..]);
      assert s[1..][..SpaceRun(s[1..])] == s[1..BulletMarkerLength(s)];
    }
  }

  predicate IsFence(trimmed: string) {
    StartsWith(trimmed, FenceMarker)
  }

  predicate IsHeaderText(trimmed: string) {
    EndsWith(trimmed, HeaderSuffix) && Utf16Length(trimmed) < HeaderLengthLimit
  }

  predicate IsListText(trimmed: string) {
    BulletMarkerLength(trimmed) > 0 || NumberMarkerLength(trimmed) > 0
  }

  /** `trimmed.replace(bullet, '').replace(numeric, '')`: the bullet marker is removed,
      then a numeric marker at the start of what is left. */
  function StripMarkers(trimmed: string): string {
    var afterBullet := trimmed[BulletMarkerLength(trimmed)..];
    afterBullet[NumberMarkerLength(afterBullet)..]
  }

  /** The rule a trimmed line falls under, in the order the rules are tried. In a code
      region only `Fence` is looked at; every other line is code. */
  datatype LineKind = Fence | Heading | ListLine | TextKind | Blank

  function Classify(trimmed: string): (k: LineKind)
    ensures k == Fence <==> IsFence(trimmed)
    ensures k == Heading <==> !IsFence(trimmed) && IsHeaderText(trimmed)
    ensures k == ListLine <==> !IsFence(trimmed) && !IsHeaderText(trimmed) && IsListText(trimmed)
    ensures k == Blank <==> trimmed == []
  {
    if IsFence(trimmed) then Fence
    else if IsHeaderText(trimmed) then Heading
    else if IsListText(trimmed) then ListLine
    else if trimmed != [] then TextKind
    else Blank
  }

  // ---------------------------------------------------------------------------
  // Emphasis: `s.split(/\*\*(.*?)\*\*/g)`, odd pieces emphasised

  predicate BoldAt(s: string, i: nat) {
    i + 2 <= |s| && s[i] == '*' && s[i + 1] == '*'
  }

  predicate NoTerminator(s: string) {
    forall i :: 0 <= i < |s| ==> !IsLineTerminator(s[i])
  }

  /** Where the lazy `(.*?)` started at `k` stops: the first `**` it reaches before any
      line terminator, which `.` cannot cross. */
  function LazyClose(s: string, k: nat): (r: Option<nat>)
    decreases |s| - k
    ensures r.Some? ==> k <= r.value && BoldAt(s, r.value)
  {
    if k + 2 > |s| then None
    else if BoldAt(s, k) then Some(k)
    else if IsLineTerminator(s[k]) then None
    else LazyClose(s, k + 1)
  }

  /** The lazy match stops at the first `**` and only crosses characters `.` accepts;
      it fails exactly when a line terminator or the end of the line comes first. */
  lemma {:induction false} LazyCloseSpec(s: string, k: nat)
    decreases |s| - k
    ensures var r := LazyClose(s, k);
      r.Some? ==> NoTerminator(s[k..r.value]) && forall j :: k <= j < r.value ==> !BoldAt(s, j)
    ensures LazyClose(s, k).None? ==>
      forall j :: k <= j && BoldAt(s, j) ==> exists i :: k <= i < j && IsLineTerminator(s[i])
  {
    if k + 2 <= |s| && !BoldAt(s, k) && !IsLineTerminator(s[k]) {
      LazyCloseSpec(s, k + 1);
      var r := LazyClose(s, k + 1);
      if r.Some? {
        assert s[k..r.value] == [s[k]] + s[k + 1..r.value];
      }
    } else if k + 2 <= |s| && !BoldAt(s, k) {
      forall j | k <= j && BoldAt(s, j)
        ensures exists i :: k <= i < j && IsLineTerminator(s[i])
      {
        assert IsLineTerminator(s[k]);
      }
    }
  }

  /** A closed `**…**` pair opens at `q`. */
  predicate PairAt(s: string, q: nat) {
    BoldAt(s, q) && LazyClose(s, q + 2).Some?
  }

  /** What a span stood for in the line. */
  function SpanSource(sp: Span): string {
    match sp
    case Plain(t) => t
    case Emph(t) => BoldDelimiter + t + BoldDelimiter
  }

  function Unsplit(spans: seq<Span>): string {
    if spans == [] then [] else SpanSource(spans[0]) + Unsplit(spans[1..])
  }

  lemma UnsplitCons(sp: Span, rest: seq<Span>)
    ensures Unsplit([sp] + rest) == SpanSource(sp) + Unsplit(rest)
  {
    assert ([sp] + rest)[1..] == rest;
  }

  lemma UnsplitPair(a: string, b: string, rest: seq<Span>)
    ensures Unsplit([Plain(a), Emph(b)] + rest) == a + BoldDelimiter + b + BoldDelimiter + Unsplit(rest)
  {
    assert [Plain(a), Emph(b)] + rest == [Plain(a)] + ([Emph(b)] + rest);
    UnsplitCons(Plain(a), [Emph(b)] + rest);
    UnsplitCons(Emph(b), rest);
    Associative(a, BoldDelimiter + b + BoldDelimiter, Unsplit(rest));
  }

  /** A line cut around a closed pair opening at `q` and closing at `k`. */
  lemma CutAroundPair(s: string, p: nat, q: nat, k: nat)
    requires p <= q && q + 2 <= k && BoldAt(s, q) && BoldAt(s, k)
    ensures s[p..] == s[p..q] + BoldDelimiter + s[q + 2..k] + BoldDelimiter + s[k + 2..]
  {
    assert s[q..q + 2] == BoldDelimiter && s[k..k + 2] == BoldDelimiter;
    assert s[p..] == s[p..q] + s[q..q + 2] + s[q + 2..k] + s[k..k + 2] + s[k + 2..];
  }

  /** Emphasis restored around a closed pair, followed by the rest of the line restored. */
  lemma UnsplitCut(s: string, p: nat, q: nat, k: nat, rest: seq<Span>)
    requires p <= q && q + 2 <= k && BoldAt(s, q) && BoldAt(s, k)
    requires Unsplit(rest) == s[k + 2..]
    ensures Unsplit([Plain(s[p..q]), Emph(s[q + 2..k])] + rest) == s[p..]
  {
    UnsplitPair(s[p..q], s[q + 2..k], rest);
    CutAroundPair(s, p, q, k);
  }

  /** The pieces of `s[p..]` that the global split produces when the next match is
      searched from `q`, each tagged by its parity. */
  function SplitFrom(s: string, p: nat, q: nat): seq<Span>
    requires p <= q <= |s|
    decreases |s| - q
  {
    if q == |s| then
      [Plain(s[p..])]
    else if PairAt(s, q) then
      var k := LazyClose(s, q + 2).value;
      [Plain(s[p..q]), Emph(s[q + 2..k])] + SplitFrom(s, k + 2, k + 2)
    else
      SplitFrom(s, p, q + 1)
  }

  /** Plain and emphasised pieces alternate, plain first and last, and no emphasised
      piece holds a line terminator. */
  predicate Alternating(r: seq<Span>) {
    && |r| % 2 == 1
    && (forall i :: 0 <= i < |r| ==> (r[i].Emph? <==> i % 2 == 1))
    && (forall i :: 0 <= i < |r| && r[i].Emph? ==> NoTerminator(r[i].text))
  }

  lemma AlternatingPair(a: string, b: string, rest: seq<Span>)
    requires NoTerminator(b) && Alternating(rest)
    ensures Alternating([Plain(a), Emph(b)] + rest)
  {
    var r := [Plain(a), Emph(b)] + rest;
    assert forall i :: 2 <= i < |r| ==> r[i] == rest[i - 2];
  }

  /** The split alternates plain and emphasised pieces, plain first and last, and an
      emphasised piece never spans a line terminator. */
  lemma {:induction false} SplitFromParity(s: string, p: nat, q: nat)
    requires p <= q <= |s|
    decreases |s| - q
    ensures Alternating(SplitFrom(s, p, q))
  {
    if q == |s| {
      assert Alternating([Plain(s[p..])]);
    } else if PairAt(s, q) {
      var k := LazyClose(s, q + 2).value;
      LazyCloseSpec(s, q + 2);
      SplitFromParity(s, k + 2, k + 2);
      AlternatingPair(s[p..q], s[q + 2..k], SplitFrom(s, k + 2, k + 2));
    } else {
      SplitFromParity(s, p, q + 1);
    }
  }

  lemma SplitFromSkip(s: string, p: nat, q: nat)
    requires p <= q < |s| && !PairAt(s, q)
    ensures SplitFrom(s, p, q) == SplitFrom(s, p, q + 1)
  {
  }

  lemma SplitFromPair(s: string, p: nat, q: nat, k: nat)
    requires p <= q < |s| && PairAt(s, q) && k == LazyClose(s, q + 2).value
    ensures SplitFrom(s, p, q) == [Plain(s[p..q]), Emph(s[q + 2..k])] + SplitFrom(s, k + 2, k + 2)
  {
  }

  lemma UnsplitOne(t: string)
    ensures Unsplit([Plain(t)]) == t
  {
    assert [Plain(t)][1..] == [];
  }

  /** Putting the delimiters back around the emphasised pieces gives back the line. */
  lemma {:induction false} SplitFromUnsplit(s: string, p: nat, q: nat)
    requires p <= q <= |s|
    decreases |s| - q
    ensures Unsplit(SplitFrom(s, p, q)) == s[p..]
  {
    if q == |s| {
      UnsplitOne(s[p..]);
    } else if PairAt(s, q) {
      var k := LazyClose(s, q + 2).value;
      SplitFromPair(s, p, q, k);
      SplitFromUnsplit(s, k + 2, k + 2);
      UnsplitCut(s, p, q, k, SplitFrom(s, k + 2, k + 2));
    } else {
      SplitFromSkip(s, p, q);
      SplitFromUnsplit(s, p, q + 1);
    }
  }

  /** No closed pair opens at a position in `[lo, hi)`. */
  predicate NoPairIn(s: string, lo: nat, hi: nat) {
    forall j :: lo <= j < hi ==> !PairAt(s, j)
  }

  /** An emphasised span of `n` characters whose opening `**` is at `o`: the lazy match
      from after that `**` stops right after the span. */
  predicate ClosesAt(s: string, o: nat, n: nat) {
    BoldAt(s, o) && LazyClose(s, o + 2) == Some(o + 2 + n)
  }

  /** The spans, placed in `s` from `p` on, are what a leftmost, lazy global match
      leaves: a plain span that covers no position where a closed pair opens, then
      either nothing more, or an emphasised span that is exactly what the lazy match from
      its opening `**` takes, followed by the same again from after the closing `**`. */
  predicate LeftmostLazy(s: string, r: seq<Span>, p: nat)
    decreases |r|
  {
    && |r| >= 1 && r[0].Plain?
    && NoPairIn(s, p, p + |r[0].text|)
    && (|r| == 1 ||
          var o := p + |r[0].text|;
          |r| >= 3 && r[1].Emph? && ClosesAt(s, o, |r[1].text|) && LeftmostLazy(s, r[2..], o + |r[1].text| + 4))
  }

  lemma LeftmostLazyLast(s: string, p: nat)
    requires p <= |s|
    requires NoPairIn(s, p, |s|)
    ensures LeftmostLazy(s, [Plain(s[p..])], p)
  {
  }

  lemma LeftmostLazyPair(s: string, p: nat, q: nat, k: nat, rest: seq<Span>)
    requires p <= q && q + 2 <= k && BoldAt(s, q) && LazyClose(s, q + 2) == Some(k)
    requires NoPairIn(s, p, q)
    requires LeftmostLazy(s, rest, k + 2)
    ensures LeftmostLazy(s, [Plain(s[p..q]), Emph(s[q + 2..k])] + rest, p)
  {
    var r := [Plain(s[p..q]), Emph(s[q + 2..k])] + rest;
    assert r[2..] == rest;
  }

  /** Searching from `q` with no closed pair opening in `s[p..q]`, the split is leftmost
      and lazy. */
  lemma {:induction false} SplitFromLeftmostLazy(s: string, p: nat, q: nat)
    requires p <= q <= |s|
    requires NoPairIn(s, p, q)
    decreases |s| - q
    ensures LeftmostLazy(s, SplitFrom(s, p, q), p)
  {
    if q == |s| {
      LeftmostLazyLast(s, p);
    } else if PairAt(s, q) {
      var k := LazyClose(s, q + 2).value;
      var rest := SplitFrom(s, k + 2, k + 2);
      SplitFromPair(s, p, q, k);
      SplitFromLeftmostLazy(s, k + 2, k + 2);
      LeftmostLazyPair(s, p, q, k, rest);
    } else {
      SplitFromSkip(s, p, q);
      SplitFromLeftmostLazy(s, p, q + 1);
    }
  }

  /** Where the pieces of `a ** b ** rest` lie when it is `s[p..]`. */
  lemma PiecesOf(s: string, p: nat, a: string, b: string, rest: string)
    requires p <= |s| && a + BoldDelimiter + b + BoldDelimiter + rest == s[p..]
    ensures var q := p + |a|; var k := q + 2 + |b|;
      && k + 2 <= |s| && a == s[p..q] && b == s[q + 2..k] && rest == s[k + 2..]
  {
    var q := p + |a|;
    var k := q + 2 + |b|;
    var t := a + BoldDelimiter + b + BoldDelimiter + rest;
    assert |t| == |s| - p;
    assert t[..|a|] == a;
    assert t[|a| + 2..|a| + 2 + |b|] == b;
    assert t[|a| + |b| + 4..] == rest;
  }

  lemma UnsplitFirst(r: seq<Span>)
    requires |r| >= 1 && r[0].Plain?
    ensures Unsplit(r) == r[0].text + Unsplit(r[1..])
  {
  }

  /** The first piece of a split restoring `s[p..]` is where it should be, and a lone
      piece is all of `s[p..]`. */
  lemma FirstPiece(s: string, p: nat, r: seq<Span>)
    requires p <= |s| && |r| >= 1 && r[0].Plain? && Unsplit(r) == s[p..]
    ensures p + |r[0].text| <= |s| && s[p..p + |r[0].text|] == r[0].text
    ensures |r| == 1 ==> r == [Plain(s[p..])]
  {
    var a := r[0].text;
    UnsplitFirst(r);
    assert (a + Unsplit(r[1..]))[..|a|] == a;
    if |r| == 1 {
      assert r[1..] == [] && Unsplit(r[1..]) == [];
      assert r == [Plain(a)] && a == s[p..];
    }
  }

  /** Where a plain piece, an emphasised piece and the rest restoring `s[p..]` lie. */
  lemma PairSource(s: string, p: nat, a: string, b: string, rest: seq<Span>)
    requires p <= |s| && Unsplit([Plain(a), Emph(b)] + rest) == s[p..]
    ensures var q := p + |a|; var k := q + 2 + |b|;
      && k + 2 <= |s| && a == s[p..q] && b == s[q + 2..k] && Unsplit(rest) == s[k + 2..]
  {
    UnsplitPair(a, b, rest);
    PiecesOf(s, p, a, b, Unsplit(rest));
  }

  /** A split of more than one piece that is leftmost and lazy opens with a closed
      pair, which the lazy match closes right after the emphasised piece. */
  lemma PairPieceClose(s: string, p: nat, r: seq<Span>, q: nat, k: nat)
    requires |r| > 1 && LeftmostLazy(s, r, p)
    requires q == p + |r[0].text| && k == q + 2 + |r[1].text|
    ensures q < |s| && PairAt(s, q) && LazyClose(s, q + 2) == Some(k)
  {
  }

  /** Such a split's first two pieces are the text before the pair and inside it. */
  lemma PairPieceShape(s: string, p: nat, r: seq<Span>, q: nat, k: nat)
    requires p <= |s| && |r| > 1 && r[0].Plain? && r[1].Emph? && Unsplit(r) == s[p..]
    requires q == p + |r[0].text| && k == q + 2 + |r[1].text|
    ensures q + 2 <= k && k + 2 <= |s| && r == [Plain(s[p..q]), Emph(s[q + 2..k])] + r[2..]
  {
    var a, b, rest := r[0].text, r[1].text, r[2..];
    assert r == [Plain(a), Emph(b)] + rest;
    PairSource(s, p, a, b, rest);
  }

  /** Its tail restores the text after the pair and is leftmost and lazy from there. */
  lemma PairPieceTail(s: string, p: nat, r: seq<Span>, k: nat)
    requires p <= |s| && |r| > 1 && Unsplit(r) == s[p..] && LeftmostLazy(s, r, p)
    requires k == p + |r[0].text| + 2 + |r[1].text|
    ensures k + 2 <= |s| && Unsplit(r[2..]) == s[k + 2..] && LeftmostLazy(s, r[2..], k + 2)
  {
    var a, b, rest := r[0].text, r[1].text, r[2..];
    assert r == [Plain(a), Emph(b)] + rest;
    PairSource(s, p, a, b, rest);
  }

  /** Where the first plain piece of a split restoring `s[p..]` ends: at a closed pair
      when more pieces follow, at the end of `s` otherwise. */
  lemma PlainEnd(s: string, p: nat, r: seq<Span>, q: nat)
    requires p <= |s| && Unsplit(r) == s[p..] && LeftmostLazy(s, r, p)
    requires q == p + |r[0].text|
    ensures q <= |s| && NoPairIn(s, p, q)
    ensures |r| == 1 ==> q == |s| && r == [Plain(s[p..])]
  {
    FirstPiece(s, p, r);
  }

  /** A split that goes on after its first plain piece, ending at `q`, with the pair
      closing at `k`: the text before the pair and inside it, then a tail that restores
      and is leftmost and lazy from after the pair. */
  lemma PairStep(s: string, p: nat, r: seq<Span>, q: nat, k: nat) returns (t: seq<Span>)
    requires p <= |s| && |r| > 1 && Unsplit(r) == s[p..] && LeftmostLazy(s, r, p)
    requires q == p + |r[0].text| && k == q + 2 + |r[1].text|
    ensures q + 2 <= k && k + 2 <= |s| && |t| < |r|
    ensures r == [Plain(s[p..q]), Emph(s[q + 2..k])] + t
    ensures Unsplit(t) == s[k + 2..] && LeftmostLazy(s, t, k + 2)
  {
    PairPieceShape(s, p, r, q, k);
    PairPieceTail(s, p, r, k);
    t := r[2..];
  }

  /** With no closed pair opening in `s[q..q']`, the search moves on past it. */
  lemma {:induction false} SplitFromSkipTo(s: string, p: nat, q: nat, q': nat)
    requires p <= q <= q' <= |s| && NoPairIn(s, q, q')
    decreases q' - q
    ensures SplitFrom(s, p, q) == SplitFrom(s, p, q')
  {
    if q < q' {
      SplitFromSkip(s, p, q);
      SplitFromSkipTo(s, p, q + 1, q');
    }
  }

  lemma SplitFromEnd(s: string, p: nat)
    requires p <= |s|
    ensures SplitFrom(s, p, |s|) == [Plain(s[p..])]
  {
  }

  /** Only the split the leftmost lazy search finds restores `s[p..]` and is leftmost
      and lazy: the first plain piece ends where the first closed pair opens, the lazy
      match fixes the emphasised piece, and the rest follows. */
  lemma {:induction false} SplitFromUnique(s: string, p: nat, r: seq<Span>)
    requires p <= |s| && Unsplit(r) == s[p..] && LeftmostLazy(s, r, p)
    decreases |r|
    ensures r == SplitFrom(s, p, p)
  {
    var q := p + |r[0].text|;
    PlainEnd(s, p, r, q);
    SplitFromSkipTo(s, p, p, q);
    if |r| == 1 {
      SplitFromEnd(s, p);
    } else {
      var k := q + 2 + |r[1].text|;
      PairPieceClose(s, p, r, q, k);
      var t := PairStep(s, p, r, q, k);
      SplitFromUnique(s, k + 2, t);
      SplitFromPair(s, p, q, k);
    }
  }

  /** The span sequence of a line: `split` on `**(.*?)**`, odd pieces emphasised. */
  function Emphasize(s: string): seq<Span> {
    SplitFrom(s, 0, 0)
  }

  /** The spans alternate plain and emphasised, plain first and last; no emphasised
      span crosses a line terminator; and with the delimiters put back they give the
      line again, so nothing is lost or reordered. Every closed pair that starts in a
      plain span is split off, and an emphasised span ends at the first `**` after its
      opening one, as the leftmost lazy match does. */
  lemma EmphasizeSpec(s: string)
    ensures var r := Emphasize(s);
      && |r| % 2 == 1
      && (forall i :: 0 <= i < |r| ==> (r[i].Emph? <==> i % 2 == 1))
      && (forall i :: 0 <= i < |r| && r[i].Emph? ==> NoTerminator(r[i].text))
      && Unsplit(r) == s
      && LeftmostLazy(s, r, 0)
  {
    SplitFromParity(s, 0, 0);
    SplitFromUnsplit(s, 0, 0);
    SplitFromLeftmostLazy(s, 0, 0);
  }

  /** No other span sequence has the properties `EmphasizeSpec` states: they pin the
      split down. */
  lemma EmphasizeUnique(s: string, r: seq<Span>)
    requires Unsplit(r) == s && LeftmostLazy(s, r, 0)
    ensures r == Emphasize(s)
  {
    assert s[0..] == s;
    SplitFromUnique(s, 0, r);
  }

  // ---------------------------------------------------------------------------
  // The line-by-line pass, as a fold

  /** What the pass looks at in one line: the line itself, its trimmed form, the rule it
      falls under outside a code region, and the spans it would be shown with as a list
      item (markers stripped) or as a text line. */
  datatype LineInfo = LineInfo(line: string, trimmed: string, kind: LineKind, item: seq<Span>, spans: seq<Span>)

  function Analyze(line: string): LineInfo {
    var trimmed := Trim(line);
    LineInfo(line, trimmed, Classify(trimmed), Emphasize(StripMarkers(trimmed)), Emphasize(trimmed))
  }

  function AnalyzeAll(lines: seq<string>): seq<LineInfo> {
    seq(|lines|, i requires 0 <= i < |lines| => Analyze(lines[i]))
  }

  /** The variables the pass carries: `formatted`, `currentList` and `inCodeBlock`. */
  datatype FormatState = FormatState(formatted: seq<Block>, currentList: seq<seq<Span>>, inCodeBlock: bool)

  const Initial: FormatState := FormatState([], [], false)

  /** `formatted` with the pending list pushed when there is one. */
  function Flush(formatted: seq<Block>, currentList: seq<seq<Span>>): seq<Block> {
    if |currentList| > 0 then formatted + [ListBlock(currentList)] else formatted
  }

  /** One line of the pass. */
  function Step(st: FormatState, info: LineInfo): FormatState {
    if info.kind == Fence then
      var flushed := Flush(st.formatted, st.currentList);
      FormatState(if st.inCodeBlock then flushed + [Divider] else flushed, [], !st.inCodeBlock)
    else if st.inCodeBlock then
      st.(formatted := st.formatted + [CodeLine(info.line)])
    else
      match info.kind
      case Heading => FormatState(Flush(st.formatted, st.currentList) + [Header(info.trimmed)], [], false)
      case ListLine => st.(currentList := st.currentList + [info.item])
      case TextKind => FormatState(Flush(st.formatted, st.currentList) + [TextLine(info.spans)], [], false)
      case Blank => if |st.formatted| > 0 then st.(formatted := st.formatted + [LineBreak]) else st
  }

  function Run(st: FormatState, infos: seq<LineInfo>): FormatState
    decreases |infos|
  {
    if infos == [] then st else Run(Step(st, infos[0]), infos[1..])
  }

  /** The blocks the pass leaves, the pending list flushed at the end. */
  function Finish(st: FormatState): seq<Block> {
    Flush(st.formatted, st.currentList)
  }

  /** The formatter's result, the specification `FormatMessage` is proved against. */
  function Format(content: string): Rendered {
    var blocks := Finish(Run(Initial, AnalyzeAll(SplitLines(content))));
    if |blocks| > 0 then Blocks(blocks) else Raw(content)
  }

  /** `formatMessage`: the loop over the lines with its three mutable variables. */
  method FormatMessage(content: string) returns (r: Rendered)
    ensures r == Format(content)
  {
    var lines := SplitLines(content);
    ghost var infos := AnalyzeAll(lines);
    var formatted: seq<Block> := [];
    var currentList: seq<seq<Span>> := [];
    var inCodeBlock := false;
    var idx := 0;
    while idx < |lines|
      invariant 0 <= idx <= |lines|
      invariant Run(FormatState(formatted, currentList, inCodeBlock), infos[idx..]) == Run(Initial, infos)
    {
      var line := lines[idx];
      var trimmed := Trim(line);
      assert infos[idx..][0] == Analyze(line) && infos[idx..][1..] == infos[idx + 1..];
      if StartsWith(trimmed, FenceMarker) {
        if |currentList| > 0 {
          formatted := formatted + [ListBlock(currentList)];
          currentList := [];
        }
        inCodeBlock := !inCodeBlock;
        if !inCodeBlock {
          formatted := formatted + [Divider];
        }
      } else if inCodeBlock {
        formatted := formatted + [CodeLine(line)];
      } else if EndsWith(trimmed, HeaderSuffix) && Utf16Length(trimmed) < HeaderLengthLimit {
        if |currentList| > 0 {
          formatted := formatted + [ListBlock(currentList)];
          currentList := [];
        }
        formatted := formatted + [Header(trimmed)];
      } else if BulletMarkerLength(trimmed) > 0 || NumberMarkerLength(trimmed) > 0 {
        currentList := currentList + [Emphasize(StripMarkers(trimmed))];
      } else if trimmed != [] {
        if |currentList| > 0 {
          formatted := formatted + [ListBlock(currentList)];
          currentList := [];
        }
        formatted := formatted + [TextLine(Emphasize(trimmed))];
      } else if |formatted| > 0 {
        formatted := formatted + [LineBreak];
      }
      idx := idx + 1;
    }
    if |currentList| > 0 {
      formatted := formatted + [ListBlock(currentList)];
    }
    r := if |formatted| > 0 then Blocks(formatted) else Raw(content);
  }
}
