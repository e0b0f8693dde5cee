/**
 * The checklist plugin's markdown pass
 * (plugins/checklist/assets/javascripts/lib/discourse-markdown/checklist.js):
 * text tokens are split around the boxes `[ ]`, `[x]` and `[X]`, each box
 * becomes a `check_open`/`check_close` pair, and each `check_open` is then
 * tagged with the character offset of its box in the post's source, the
 * offset the toggle service is later given.
 *
 * Tokens are a datatype. A `check_open` token keeps the box's mark; its
 * class attribute is `ClassAttribute(mark)` and its `data-chk-off`
 * attribute is `offset`.
 */
module ChecklistMarkdown {
  import opened Wrappers
  import opened Text

  /** The inline tokens the pass looks at; `Other` stands for every other
      inline token, with its nesting (+1 opening, -1 closing, 0 neither). */
  datatype Inline =
    | TextToken(content: string)
    | CodeInline(code: string)
    | SoftBreak
    | HardBreak
    | CheckOpen(mark: char, offset: Option<nat>)
    | CheckClose
    | Other(nesting: int)

  /** The block tokens: an inline block with the first source line it maps
      to (when known) and its children, or any other block. */
  datatype Block =
    | InlineBlock(startLine: Option<nat>, children: seq<Inline>)
    | OtherBlock

  function Nesting(t: Inline): int {
    match t
    case CheckOpen(_, _) => 1
    case CheckClose => -1
    case Other(n) => n
    case _ => 0
  }

  /** The characters a box can hold. */
  predicate IsMark(c: char) {
    c == ' ' || c == 'x' || c == 'X'
  }

  /** `getClasses`: the icon classes of a box's mark. */
  function GetClasses(mark: char): (classes: Option<string>)
    ensures classes.Some? <==> IsMark(mark)
  {
    if mark == 'x' then Some("checked fa fa-square-check-o fa-fw")
    else if mark == 'X' then Some("checked permanent fa fa-square-check fa-fw")
    else if mark == ' ' then Some("fa fa-square-o fa-fw")
    else None
  }

  /** The class attribute `addCheckbox` gives a `check_open` token. */
  function ClassAttribute(mark: char): string
    requires IsMark(mark)
  {
    "chcklst-box " + GetClasses(mark).value
  }

  /** A checked box is drawn checked, a permanent one also permanent, and
      the three marks get three different class lists. */
  lemma ClassesDistinguishMarks()
    ensures GetClasses('x') != GetClasses('X') && GetClasses('x') != GetClasses(' ')
            && GetClasses('X') != GetClasses(' ')
    ensures OccursAt(GetClasses('x').value, "checked", 0) && OccursAt(GetClasses('X').value, "checked permanent", 0)
    ensures !OccursAt(GetClasses(' ').value, "checked", 0)
  {
    assert GetClasses('x').value[8] != GetClasses('X').value[8];
    assert GetClasses('x').value[0] != GetClasses(' ').value[0];
    assert GetClasses('X').value[0] != GetClasses(' ').value[0];
    assert GetClasses(' ').value[..7] != "checked" by {
      assert GetClasses(' ').value[0] == 'f';
    }
  }

  /** A box `[ ]`, `[x]` or `[X]` starts at `k`. */
  predicate BoxAt(s: string, k: int) {
    0 <= k && k + 3 <= |s| && s[k] == '[' && IsMark(s[k + 1]) && s[k + 2] == ']'
  }

  /** `[]` is not a box, and two boxes never overlap. */
  lemma BoxesDoNotOverlap(s: string, k: int)
    requires BoxAt(s, k)
    ensures !BoxAt(s, k + 1) && !BoxAt(s, k + 2)
    ensures !BoxAt(s[..k] + "[]" + s[k + 3..], k)
  {
    var t := s[..k] + "[]" + s[k + 3..];
    assert t[k + 1] == ']';
  }

  /** One step of the box regex: the first box at or after `from`. */
  function NextBox(s: string, from: nat): (r: Option<nat>)
    ensures r.Some? ==> from <= r.value && BoxAt(s, r.value)
    ensures forall k :: from <= k && (r.None? || k < r.value) ==> !BoxAt(s, k)
    decreases |s| - from
  {
    if from + 3 > |s| then None
    else if BoxAt(s, from) then Some(from)
    else NextBox(s, from + 1)
  }

  /** The tokens `applyCheckboxes` produces for `content[pos..]` once the
      regex has matched at least once: the text before each box (when there
      is any), the box's open/close pair, and the text after the last box. */
  function Scan(content: string, pos: nat): (ts: seq<Inline>)
    requires pos <= |content|
    ensures ts == [] <==> pos == |content|
    decreases |content| - pos
  {
    match NextBox(content, pos)
    case None => if pos < |content| then [TextToken(content[pos..])] else []
    case Some(k) =>
      (if k > pos then [TextToken(content[pos..k])] else []) + [CheckOpen(content[k + 1], None), CheckClose]
      + Scan(content, k + 3)
  }

  /** `applyCheckboxes`' result: nothing when the content holds no box. */
  function Checkboxed(content: string): (r: Option<seq<Inline>>)
    ensures r.None? <==> forall k :: !BoxAt(content, k)
  {
    if NextBox(content, 0).None? then None else Some(Scan(content, 0))
  }

  /** The token shapes `applyCheckboxes` emits: text tokens are never empty
      and never adjacent, and every box is an untagged `check_open`
      followed directly by its `check_close`. */
  predicate WellShaped(ts: seq<Inline>)
    decreases |ts|
  {
    if ts == [] then true
    else if ts[0].TextToken? then
      ts[0].content != [] && (|ts| == 1 || !ts[1].TextToken?) && WellShaped(ts[1..])
    else
      |ts| >= 2 && ts[0].CheckOpen? && ts[0].offset.None? && IsMark(ts[0].mark) && ts[1] == CheckClose
      && WellShaped(ts[2..])
  }

  /** `applyCheckboxes` emits tokens of those shapes. */
  lemma {:induction false} ScanWellShaped(content: string, pos: nat)
    requires pos <= |content|
    ensures WellShaped(Scan(content, pos))
    decreases |content| - pos
  {
    match NextBox(content, pos)
    case None =>
      if pos < |content| {
        WellShapedText(content[pos..], []);
      }
    case Some(k) =>
      ScanUnfold(content, pos, k);
      ScanWellShaped(content, k + 3);
      var box := BoxTokens(content, k) + Scan(content, k + 3);
      WellShapedBox(content[k + 1], Scan(content, k + 3));
      if k > pos {
        WellShapedText(content[pos..k], box);
      } else {
        assert Scan(content, pos) == box;
      }
  }

  lemma WellShapedBox(m: char, rest: seq<Inline>)
    requires IsMark(m) && WellShaped(rest)
    ensures WellShaped([CheckOpen(m, None), CheckClose] + rest)
  {
    var ts := [CheckOpen(m, None), CheckClose] + rest;
    assert ts[2..] == rest;
  }

  lemma WellShapedText(c: string, rest: seq<Inline>)
    requires c != [] && WellShaped(rest) && (rest == [] || !rest[0].TextToken?)
    ensures WellShaped([TextToken(c)] + rest)
  {
    var ts := [TextToken(c)] + rest;
    assert ts[1..] == rest;
  }

  /** The source characters a token stands for. */
  function Source(t: Inline): string {
    match t
    case TextToken(c) => c
    case CheckOpen(m, _) => ['[', m, ']']
    case _ => []
  }

  function Rendered(ts: seq<Inline>): string
    decreases |ts|
  {
    if ts == [] then [] else Source(ts[0]) + Rendered(ts[1..])
  }

  lemma {:induction false} RenderedAppend(a: seq<Inline>, b: seq<Inline>)
    ensures Rendered(a + b) == Rendered(a) + Rendered(b)
    decreases |a|
  {
    if a == [] {
      assert a + b == b;
    } else {
      assert (a + b)[0] == a[0] && (a + b)[1..] == a[1..] + b;
      RenderedAppend(a[1..], b);
      calc {
        Rendered(a + b);
        Source(a[0]) + Rendered(a[1..] + b);
        Source(a[0]) + (Rendered(a[1..]) + Rendered(b));
        (Source(a[0]) + Rendered(a[1..])) + Rendered(b);
      }
    }
  }

  /** The text token before a box at `k`, when the box does not start at `pos`. */
  function Before(content: string, pos: nat, k: nat): seq<Inline>
    requires pos <= k <= |content|
  {
    if k > pos then [TextToken(content[pos..k])] else []
  }

  /** The open/close pair for the box at `k`. */
  function BoxTokens(content: string, k: nat): seq<Inline>
    requires k + 3 <= |content|
  {
    [CheckOpen(content[k + 1], None), CheckClose]
  }

  lemma ScanUnfold(content: string, pos: nat, k: nat)
    requires pos <= |content| && NextBox(content, pos) == Some(k)
    ensures Scan(content, pos) == Before(content, pos, k) + BoxTokens(content, k) + Scan(content, k + 3)
  {
  }

  lemma RenderedSingle(t: Inline)
    ensures Rendered([t]) == Source(t)
  {
    assert [t][1..] == [];
    assert Source(t) + [] == Source(t);
  }

  lemma RenderedBox(m: char)
    ensures Rendered([CheckOpen(m, None), CheckClose]) == ['[', m, ']']
  {
    var box := [CheckOpen(m, None), CheckClose];
    assert box == [CheckOpen(m, None)] + [CheckClose];
    RenderedAppend([CheckOpen(m, None)], [CheckClose]);
    RenderedSingle(CheckOpen(m, None));
    RenderedSingle(CheckClose);
  }

  lemma SliceSplit<T>(s: seq<T>, i: nat, j: nat)
    requires i <= j <= |s|
    ensures s[i..] == s[i..j] + s[j..]
  {
  }

  lemma BoxSlice(content: string, k: nat)
    requires BoxAt(content, k)
    ensures content[k..k + 3] == ['[', content[k + 1], ']']
  {
    var w := content[k..k + 3];
    assert |w| == 3 && w[0] == '[' && w[1] == content[k + 1] && w[2] == ']';
  }

  /** The text before a box and the box itself read back as that stretch
      of the content. */
  lemma RenderedPieces(content: string, pos: nat, k: nat)
    requires pos <= k && k + 3 <= |content| && BoxAt(content, k)
    ensures Rendered(Before(content, pos, k) + BoxTokens(content, k)) == content[pos..k + 3]
  {
    var before := Before(content, pos, k);
    var box := BoxTokens(content, k);
    RenderedAppend(before, box);
    RenderedBox(content[k + 1]);
    BoxSlice(content, k);
    assert Rendered(box) == content[k..k + 3];
    if k > pos {
      RenderedSingle(TextToken(content[pos..k]));
    } else {
      assert content[pos..k] == [];
    }
    assert Rendered(before) == content[pos..k];
    SliceJoin(content, pos, k, k + 3);
  }

  lemma SliceJoin<T>(s: seq<T>, i: nat, j: nat, l: nat)
    requires i <= j <= l <= |s|
    ensures s[i..j] + s[j..l] == s[i..l]
  {
  }

  /** The pieces of text and the boxes, read back in order, are the content. */
  lemma {:induction false} ScanRendersContent(content: string, pos: nat)
    requires pos <= |content|
    ensures Rendered(Scan(content, pos)) == content[pos..]
    decreases |content| - pos
  {
    match NextBox(content, pos)
    case None =>
      if pos < |content| {
        RenderedSingle(TextToken(content[pos..]));
      }
    case Some(k) =>
      ScanRendersContent(content, k + 3);
      ScanUnfold(content, pos, k);
      RenderedAppend(Before(content, pos, k) + BoxTokens(content, k), Scan(content, k + 3));
      RenderedPieces(content, pos, k);
      SliceSplit(content, pos, k + 3);
  }

  /** `applyCheckboxes`, as the loop over regex matches it is. */
  method ApplyCheckboxes(content: string) returns (result: Option<seq<Inline>>)
    ensures result == Checkboxed(content)
  {
    result := None;
    var pos := 0;
    var match_ := NextBox(content, pos);
    while match_.Some?
      invariant pos <= |content|
      invariant match_ == NextBox(content, pos)
      invariant result.None? ==> pos == 0
      invariant result.Some? ==> NextBox(content, 0).Some? && result.value + Scan(content, pos) == Scan(content, 0)
      decreases |content| - pos
    {
      var k := match_.value;
      var prior := if result.Some? then result.value else [];
      if result.None? {
        assert prior + Scan(content, pos) == Scan(content, 0);
      }
      ScanAdvance(content, prior, pos, k);
      result := Some(prior + (Before(content, pos, k) + BoxTokens(content, k)));
      pos := k + 3;
      match_ := NextBox(content, pos);
    }
    if result.Some? {
      ScanEnd(content, result.value, pos);
      if pos < |content| {
        result := Some(result.value + [TextToken(content[pos..])]);
      }
    }
  }

  /** One match of the loop: the tokens pushed so far, then the text before
      the box and the box, then the scan past the box, still make up the
      whole scan. */
  lemma ScanAdvance(content: string, prior: seq<Inline>, pos: nat, k: nat)
    requires pos <= |content| && NextBox(content, pos) == Some(k)
    requires prior + Scan(content, pos) == Scan(content, 0)
    ensures k + 3 <= |content|
    ensures (prior + (Before(content, pos, k) + BoxTokens(content, k))) + Scan(content, k + 3) == Scan(content, 0)
  {
    ScanUnfold(content, pos, k);
    var pieces := Before(content, pos, k) + BoxTokens(content, k);
    assert prior + (pieces + Scan(content, k + 3)) == (prior + pieces) + Scan(content, k + 3);
  }

  /** After the last match: the remaining text, when there is any, ends the
      scan. */
  lemma ScanEnd(content: string, prior: seq<Inline>, pos: nat)
    requires pos <= |content| && NextBox(content, pos).None?
    requires prior + Scan(content, pos) == Scan(content, 0)
    ensures Scan(content, 0) == if pos < |content| then prior + [TextToken(content[pos..])] else prior
  {
    assert Scan(content, pos) == if pos < |content| then [TextToken(content[pos..])] else [];
    if pos >= |content| {
      assert prior + [] == prior;
    }
  }

  /** The number of newlines in `s`. */
  function NewlineCount(s: string): nat {
    if s == [] then 0 else NewlineCount(s[..|s| - 1]) + (if s[|s| - 1] == '\n' then 1 else 0)
  }

  /** `r` lists the offset at which each line of `s` starts: 0, then one
      past each newline, in increasing order. */
  predicate LineStarts(s: string, r: seq<nat>) {
    && |r| == 1 + NewlineCount(s) && r[0] == 0
    && Increasing(r) && AfterNewlines(s, r) && CoversNewlines(s, r)
  }

  predicate Increasing(r: seq<nat>) {
    forall j :: 0 < j < |r| ==> r[j - 1] < r[j]
  }

  /** Every start but the first follows a newline of `s`. */
  predicate AfterNewlines(s: string, r: seq<nat>) {
    forall j :: 0 < j < |r| ==> 0 < r[j] <= |s| && s[r[j] - 1] == '\n'
  }

  /** The position after every newline of `s` is a start. */
  predicate CoversNewlines(s: string, r: seq<nat>) {
    forall i :: 0 <= i < |s| && s[i] == '\n' ==> i + 1 in r
  }

  function LineOffsets(s: string): (r: seq<nat>)
    ensures LineStarts(s, r)
  {
    if s == [] then [0]
    else
      var prior := LineOffsets(s[..|s| - 1]);
      LineStartsExtend(s, prior);
      if s[|s| - 1] == '\n' then prior + [|s|] else prior
  }

  /** The line starts of a text one character longer: one more start
      exactly when that character is a newline. */
  lemma LineStartsExtend(s: string, prior: seq<nat>)
    requires s != [] && LineStarts(s[..|s| - 1], prior)
    ensures LineStarts(s, if s[|s| - 1] == '\n' then prior + [|s|] else prior)
  {
    var t := s[..|s| - 1];
    AfterNewlinesExtend(s, prior);
    if s[|s| - 1] == '\n' {
      assert prior[|prior| - 1] <= |t|;
      IncreasingSnoc(prior, |s|);
      AfterNewlinesSnoc(s, prior);
      CoversNewlinesSnoc(s, prior);
    } else {
      CoversNewlinesOther(s, prior);
    }
  }

  lemma IncreasingSnoc(r: seq<nat>, x: nat)
    requires r != [] && Increasing(r) && r[|r| - 1] < x
    ensures Increasing(r + [x])
  {
    var r' := r + [x];
    forall j | 0 < j < |r'|
      ensures r'[j - 1] < r'[j]
    {
      if j < |r| {
        assert r'[j - 1] == r[j - 1] && r'[j] == r[j];
      }
    }
  }

  lemma AfterNewlinesExtend(s: string, r: seq<nat>)
    requires s != [] && AfterNewlines(s[..|s| - 1], r)
    ensures AfterNewlines(s, r)
  {
    var t := s[..|s| - 1];
    forall j | 0 < j < |r|
      ensures 0 < r[j] <= |s| && s[r[j] - 1] == '\n'
    {
      assert t[r[j] - 1] == s[r[j] - 1];
    }
  }

  lemma AfterNewlinesSnoc(s: string, r: seq<nat>)
    requires s != [] && s[|s| - 1] == '\n' && AfterNewlines(s, r)
    ensures AfterNewlines(s, r + [|s|])
  {
    var r' := r + [|s|];
    forall j | 0 < j < |r'|
      ensures 0 < r'[j] <= |s| && s[r'[j] - 1] == '\n'
    {
      if j < |r| {
        assert r'[j] == r[j];
      }
    }
  }

  lemma CoversNewlinesSnoc(s: string, r: seq<nat>)
    requires s != [] && s[|s| - 1] == '\n' && CoversNewlines(s[..|s| - 1], r)
    ensures CoversNewlines(s, r + [|s|])
  {
    var t := s[..|s| - 1];
    var r' := r + [|s|];
    forall i | 0 <= i < |s| && s[i] == '\n'
      ensures i + 1 in r'
    {
      if i < |t| {
        assert t[i] == s[i];
        var j :| 0 <= j < |r| && r[j] == i + 1;
        assert r'[j] == i + 1;
      } else {
        assert r'[|r'| - 1] == i + 1;
      }
    }
  }

  lemma CoversNewlinesOther(s: string, r: seq<nat>)
    requires s != [] && s[|s| - 1] != '\n' && CoversNewlines(s[..|s| - 1], r)
    ensures CoversNewlines(s, r)
  {
    var t := s[..|s| - 1];
    forall i | 0 <= i < |s| && s[i] == '\n'
      ensures i + 1 in r
    {
      assert t[i] == s[i];
    }
  }

  /** `buildLineOffsets`. */
  method BuildLineOffsets(src: string) returns (offsets: seq<nat>)
    ensures offsets == LineOffsets(src)
  {
    offsets := [0];
    for i := 0 to |src|
      invariant offsets == LineOffsets(src[..i])
    {
      assert src[..i + 1][..i] == src[..i];
      if src[i] == '\n' {
        offsets := offsets + [i + 1];
      }
    }
    assert src[..|src|] == src;
  }

  /** `src.indexOf(sub, from)`, for `from` within the text. */
  function Find(s: string, sub: string, from: nat): (r: Option<nat>)
    requires from <= |s|
    ensures r.Some? ==> from <= r.value && OccursAt(s, sub, r.value)
    ensures forall k :: from <= k && (r.None? || k < r.value) ==> !OccursAt(s, sub, k)
    decreases |s| - from
  {
    if from + |sub| > |s| then None
    else if OccursAt(s, sub, from) then Some(from)
    else Find(s, sub, from + 1)
  }

  /** A search from `from` stops at or before any occurrence past `from`. */
  lemma FindReaches(s: string, sub: string, from: nat, c: nat)
    requires from <= c && OccursAt(s, sub, c)
    ensures Find(s, sub, from).Some? && Find(s, sub, from).value <= c
  {
  }

  /** The first index at or after `e` that is not a backtick. */
  function PastBackticks(s: string, e: nat): (r: nat)
    requires e <= |s|
    ensures e <= r <= |s| && (r == |s| || s[r] != '`')
    ensures forall k :: e <= k < r ==> s[k] == '`'
    decreases |s| - e
  {
    if e < |s| && s[e] == '`' then PastBackticks(s, e + 1) else e
  }

  /** The inner loop for a `code_inline` token: the first occurrence of the
      code at or after `idx` that follows a backtick, and the end of the
      backticks after it; nothing when there is none before the end of the
      text. */
  function CodeEnd(src: string, code: string, idx: nat): (r: Option<nat>)
    requires idx <= |src|
    ensures r.Some? ==> idx <= r.value <= |src|
    decreases |src| - idx
  {
    if idx >= |src| then None
    else
      match Find(src, code, idx)
      case None => None
      case Some(c) =>
        if c > 0 && src[c - 1] == '`' then Some(PastBackticks(src, c + |code|))
        else CodeEnd(src, code, c + 1)
  }

  /** Inline code the loop accepts at `c`: the code occurs there, inside
      the text, right after a backtick. */
  predicate Ticked(src: string, code: string, c: int) {
    0 < c < |src| && OccursAt(src, code, c) && src[c - 1] == '`'
  }

  /** One round of CodeEnd's loop: an occurrence not after a backtick is
      passed over. */
  lemma CodeEndPasses(src: string, code: string, idx: nat)
    requires idx < |src| && Find(src, code, idx).Some?
    requires !Ticked(src, code, Find(src, code, idx).value)
    ensures Find(src, code, idx).value < |src|
    ensures CodeEnd(src, code, idx) == CodeEnd(src, code, Find(src, code, idx).value + 1)
  {
    if |code| == 0 {
      assert OccursAt(src, code, idx);
    }
  }

  /** One round of CodeEnd's loop: an occurrence after a backtick ends it. */
  lemma CodeEndStops(src: string, code: string, idx: nat)
    requires idx < |src| && Find(src, code, idx).Some?
    requires Ticked(src, code, Find(src, code, idx).value)
    ensures CodeEnd(src, code, idx) == Some(PastBackticks(src, Find(src, code, idx).value + |code|))
  {
  }

  /** CodeEnd finds something whenever an accepted occurrence of the code
      lies at or after `idx`. */
  lemma {:induction false} CodeEndFindsTicked(src: string, code: string, idx: nat, c: nat)
    requires idx <= c && Ticked(src, code, c)
    ensures CodeEnd(src, code, idx).Some?
    decreases |src| - idx
  {
    FindReaches(src, code, idx, c);
    var e := Find(src, code, idx).value;
    if Ticked(src, code, e) {
      CodeEndStops(src, code, idx);
    } else {
      CodeEndPasses(src, code, idx);
      CodeEndFindsTicked(src, code, e + 1, c);
    }
  }

  /** CodeEnd finds something only when an accepted occurrence of the code
      lies at or after `idx`. */
  lemma {:induction false} CodeEndNoneWhenUnticked(src: string, code: string, idx: nat)
    requires idx <= |src|
    requires forall c :: idx <= c ==> !Ticked(src, code, c)
    ensures CodeEnd(src, code, idx).None?
    decreases |src| - idx
  {
    if idx < |src| && Find(src, code, idx).Some? {
      CodeEndPasses(src, code, idx);
      CodeEndNoneWhenUnticked(src, code, Find(src, code, idx).value + 1);
    }
  }

  /** Given the first accepted occurrence at or after `idx`, CodeEnd skips
      it and the backticks that close it. */
  lemma {:induction false} CodeEndSkipsFirstTicked(src: string, code: string, idx: nat, c: nat)
    requires idx <= c && Ticked(src, code, c)
    requires forall c' :: idx <= c' < c ==> !Ticked(src, code, c')
    ensures CodeEnd(src, code, idx) == Some(PastBackticks(src, c + |code|))
    decreases |src| - idx
  {
    FindReaches(src, code, idx, c);
    var e := Find(src, code, idx).value;
    if e < c {
      assert !Ticked(src, code, e);
      CodeEndPasses(src, code, idx);
      CodeEndSkipsFirstTicked(src, code, e + 1, c);
    } else {
      assert e == c;
      CodeEndStops(src, code, idx);
    }
  }

  /** An offset whose box the toggle service would refuse: the box follows
      `!` (image alt text) or `\` (an escape). */
  predicate Escaped(s: string, k: nat)
    requires k < |s|
  {
    k > 0 && (s[k - 1] == '!' || s[k - 1] == '\\')
  }

  predicate TaggableBox(s: string, k: nat) {
    BoxAt(s, k) && !Escaped(s, k)
  }

  /** The inner loop for a `check_open` token: the first box at or after
      `from` that is not escaped. */
  function UnescapedBox(src: string, from: nat): (r: Option<nat>)
    ensures r.Some? ==> from <= r.value && TaggableBox(src, r.value)
    ensures forall k: nat :: from <= k && (r.None? || k < r.value) ==> !TaggableBox(src, k)
    decreases |src| - from
  {
    match NextBox(src, from)
    case None => None
    case Some(k) =>
      if Escaped(src, k) then
        BoxesDoNotOverlap(src, k);
        UnescapedBox(src, k + 3)
      else Some(k)
  }

  /** One token of the offset-assignment loop: the token (a `check_open`
      tagged with its offset) and the new search position. */
  function AssignStep(src: string, t: Inline, pos: nat): (r: (Inline, nat))
    requires pos <= |src|
    ensures pos <= r.1 <= |src|
    ensures !t.CheckOpen? ==> r.0 == t
    // Inline code: past the first code after a backtick (CodeEndFindsTickedCode).
    ensures t.CodeInline? ==> r.1 == CodeEnd(src, t.code, pos).GetOr(pos)
    // A line break: past the next newline, if any.
    ensures (t.SoftBreak? || t.HardBreak?) ==>
              (Find(src, "\n", pos).Some? ==> r.1 == Find(src, "\n", pos).value + 1)
              && (Find(src, "\n", pos).None? ==> r.1 == pos)
    // A checkbox: tagged with the first box that is not escaped, and past it.
    ensures t.CheckOpen? ==>
              r.0.CheckOpen? && r.0.mark == t.mark
              && (UnescapedBox(src, pos).Some? ==> r.0.offset == UnescapedBox(src, pos) && r.1 == UnescapedBox(src, pos).value + 3)
              && (UnescapedBox(src, pos).None? ==> r == (t, pos))
    ensures (t.TextToken? || t.CheckClose? || t.Other?) ==> r == (t, pos)
  {
    match t
    case CodeInline(code) =>
      var e := CodeEnd(src, code, pos);
      (t, if e.Some? then e.value else pos)
    case SoftBreak =>
      var nl := Find(src, "\n", pos);
      (t, if nl.Some? then nl.value + 1 else pos)
    case HardBreak =>
      var nl := Find(src, "\n", pos);
      (t, if nl.Some? then nl.value + 1 else pos)
    case CheckOpen(mark, _) =>
      (match UnescapedBox(src, pos)
       case None => (t, pos)
       case Some(k) => (CheckOpen(mark, Some(k)), k + 3))
    case _ => (t, pos)
  }

  /** The offset-assignment loop over one block's tokens. */
  function Assign(src: string, ts: seq<Inline>, pos: nat): (r: (seq<Inline>, nat))
    requires pos <= |src|
    ensures |r.0| == |ts| && pos <= r.1 <= |src|
    decreases |ts|
  {
    if ts == [] then ([], pos)
    else
      var (t, pos') := AssignStep(src, ts[0], pos);
      var (rest, end) := Assign(src, ts[1..], pos');
      ([t] + rest, end)
  }

  /** A result with `done` in front of its tokens. */
  function Glue<T>(done: seq<T>, r: (seq<T>, nat)): (seq<T>, nat) {
    (done + r.0, r.1)
  }

  lemma GlueGlue<T>(done: seq<T>, more: seq<T>, r: (seq<T>, nat))
    ensures Glue(done, Glue(more, r)) == Glue(done + more, r)
  {
    assert done + (more + r.0) == (done + more) + r.0;
  }

  /** The offsets the tokens carry, in order. */
  function Offsets(ts: seq<Inline>): seq<nat>
    decreases |ts|
  {
    if ts == [] then []
    else (if ts[0].CheckOpen? && ts[0].offset.Some? then [ts[0].offset.value] else []) + Offsets(ts[1..])
  }

  predicate Untagged(ts: seq<Inline>) {
    forall i :: 0 <= i < |ts| && ts[i].CheckOpen? ==> ts[i].offset.None?
  }

  predicate StrictlyIncreasing(xs: seq<nat>) {
    forall i, j :: 0 <= i < j < |xs| ==> xs[i] < xs[j]
  }

  /** The offsets tagged in one block are boxes the toggle service accepts,
      at or after the search position, strictly increasing, and below the
      position the search ends at. */
  lemma {:induction false} AssignedOffsetsIncrease(src: string, ts: seq<Inline>, pos: nat)
    requires pos <= |src| && Untagged(ts)
    ensures var (out, end) := Assign(src, ts, pos);
            var offs := Offsets(out);
            StrictlyIncreasing(offs)
            && (forall i :: 0 <= i < |offs| ==> pos <= offs[i] && offs[i] + 3 <= end && TaggableBox(src, offs[i]))
    decreases |ts|
  {
    if ts != [] {
      var (t, pos') := AssignStep(src, ts[0], pos);
      assert Untagged(ts[1..]) by {
        forall i | 0 <= i < |ts[1..]| && ts[1..][i].CheckOpen? ensures ts[1..][i].offset.None? {
          assert ts[1..][i] == ts[i + 1];
        }
      }
      AssignedOffsetsIncrease(src, ts[1..], pos');
      var (rest, end) := Assign(src, ts[1..], pos');
      var out := [t] + rest;
      assert out[1..] == rest;
      var head := if t.CheckOpen? && t.offset.Some? then [t.offset.value] else [];
      assert Offsets(out) == head + Offsets(rest);
      if t.CheckOpen? && t.offset.Some? {
        assert ts[0].CheckOpen? && ts[0].offset.None?;
        assert t.offset.value + 3 == pos';
      }
    }
  }

  /** The sum of the tokens' nestings. */
  function SumNesting(ts: seq<Inline>): int
    decreases |ts|
  {
    if ts == [] then 0 else Nesting(ts[0]) + SumNesting(ts[1..])
  }

  /** What the backward pass makes of one token, given the nesting counted
      from the end of the children up to and including it: a top-level text
      token holding a box is replaced by `applyCheckboxes`' tokens. */
  function Replaced(t: Inline, nesting: int): seq<Inline> {
    if t.TextToken? && nesting == 0 && Checkboxed(t.content).Some? then Checkboxed(t.content).value else [t]
  }

  function Expanded(ts: seq<Inline>): (r: seq<Inline>)
    ensures |r| >= |ts|
    decreases |ts|
  {
    if ts == [] then [] else Replaced(ts[0], SumNesting(ts)) + Expanded(ts[1..])
  }

  /** The backward pass keeps the source text: boxes are taken out of the
      text tokens and put back as box tokens, in place. */
  lemma {:induction false} ExpandedKeepsSource(ts: seq<Inline>)
    ensures Rendered(Expanded(ts)) == Rendered(ts)
    decreases |ts|
  {
    if ts != [] {
      ExpandedKeepsSource(ts[1..]);
      var head := Replaced(ts[0], SumNesting(ts));
      RenderedAppend(head, Expanded(ts[1..]));
      if head != [ts[0]] {
        ScanRendersContent(ts[0].content, 0);
        assert ts[0].content[0..] == ts[0].content;
      }
    }
  }

  /** One token of the backward pass, taken off the front of a suffix. */
  lemma ExpandedFront(children: seq<Inline>, i: nat)
    requires i < |children|
    ensures SumNesting(children[i..]) == Nesting(children[i]) + SumNesting(children[i + 1..])
    ensures Expanded(children[i..]) == Replaced(children[i], SumNesting(children[i..])) + Expanded(children[i + 1..])
  {
    assert children[i..][0] == children[i] && children[i..][1..] == children[i + 1..];
  }

  /** The backward loop over a block's children (`arrayReplaceAt` is a
      splice). */
  method ReplaceTexts(children: seq<Inline>) returns (tokens: seq<Inline>)
    ensures tokens == Expanded(children)
  {
    tokens := children;
    var nesting := 0;
    var i := |children|;
    assert children[i..] == [] && children[..i] == children;
    while i > 0
      invariant 0 <= i <= |children|
      invariant tokens == children[..i] + Expanded(children[i..])
      invariant nesting == SumNesting(children[i..])
    {
      i := i - 1;
      ghost var tail := Expanded(children[i + 1..]);
      assert children[..i + 1] == children[..i] + [children[i]];
      ExpandedFront(children, i);
      assert tokens == children[..i] + [children[i]] + tail;
      var token := tokens[i];
      nesting := nesting + Nesting(token);
      if token.TextToken? && nesting == 0 {
        var processed := ApplyCheckboxes(token.content);
        if processed.Some? {
          assert tokens[..i] == children[..i] && tokens[i + 1..] == tail;
          tokens := tokens[..i] + processed.value + tokens[i + 1..];
        }
      }
      assert tokens == children[..i] + Replaced(children[i], nesting) + tail;
    }
  }

  /** Where a block's search starts: the start of its first line when that
      line exists, never before where the last block's search ended. */
  function BlockStart(lines: seq<nat>, startLine: Option<nat>, pos: nat): (r: nat)
    ensures r >= pos
    ensures startLine.None? ==> r == pos
  {
    if startLine.None? then pos
    else
      var lineStart := if startLine.value < |lines| then lines[startLine.value] else 0;
      if lineStart > pos then lineStart else pos
  }

  /** What `processChecklist` does to one block from search position
      `pos`: an inline block has its text tokens split around boxes and its
      boxes tagged; the search moves on. */
  function BlockStep(src: string, b: Block, pos: nat): (r: (Block, nat))
    requires pos <= |src|
    ensures pos <= r.1 <= |src|
    ensures b.OtherBlock? ==> r == (b, pos)
  {
    match b
    case OtherBlock => (b, pos)
    case InlineBlock(startLine, children) =>
      var start := BlockStart(LineOffsets(src), startLine, pos);
      BlockStartInSource(src, startLine, pos);
      var (tagged, pos') := Assign(src, Expanded(children), start);
      (InlineBlock(startLine, tagged), pos')
  }

  /** `processChecklist` over the block tokens from search position `pos`:
      the new blocks and where the search ends; the search position never
      moves back. */
  function Process(src: string, blocks: seq<Block>, pos: nat): (r: (seq<Block>, nat))
    requires pos <= |src|
    ensures |r.0| == |blocks| && pos <= r.1 <= |src|
    decreases |blocks|
  {
    if blocks == [] then ([], pos)
    else
      var (b, pos') := BlockStep(src, blocks[0], pos);
      var (rest, end) := Process(src, blocks[1..], pos');
      ([b] + rest, end)
  }

  /** A block's search starts inside the source. */
  lemma BlockStartInSource(src: string, startLine: Option<nat>, pos: nat)
    requires pos <= |src|
    ensures BlockStart(LineOffsets(src), startLine, pos) <= |src|
  {
    var lines := LineOffsets(src);
    if startLine.Some? && startLine.value < |lines| && startLine.value > 0 {
      assert lines[startLine.value] <= |src|;
    }
  }

  /** The offsets the boxes of all the blocks carry, block after block. */
  function BlockOffsets(blocks: seq<Block>): seq<nat>
    decreases |blocks|
  {
    if blocks == [] then []
    else (if blocks[0].InlineBlock? then Offsets(blocks[0].children) else []) + BlockOffsets(blocks[1..])
  }

  predicate BlocksUntagged(blocks: seq<Block>) {
    forall i :: 0 <= i < |blocks| && blocks[i].InlineBlock? ==> Untagged(blocks[i].children)
  }

  lemma UntaggedAppend(a: seq<Inline>, b: seq<Inline>)
    requires Untagged(a) && Untagged(b)
    ensures Untagged(a + b)
  {
    forall i | 0 <= i < |a + b| && (a + b)[i].CheckOpen? ensures (a + b)[i].offset.None? {
      if i >= |a| {
        assert (a + b)[i] == b[i - |a|];
      }
    }
  }

  /** The pieces `applyCheckboxes` emits carry no offset yet. */
  lemma {:induction false} WellShapedUntagged(ts: seq<Inline>)
    requires WellShaped(ts)
    ensures Untagged(ts)
    decreases |ts|
  {
    if ts != [] {
      var k := if ts[0].TextToken? then 1 else 2;
      WellShapedUntagged(ts[k..]);
      forall i | 0 <= i < |ts| && ts[i].CheckOpen? ensures ts[i].offset.None? {
        if i >= k {
          assert ts[i] == ts[k..][i - k];
        }
      }
    }
  }

  /** Splitting the text tokens around their boxes tags nothing. */
  lemma {:induction false} ExpandedUntagged(ts: seq<Inline>)
    requires Untagged(ts)
    ensures Untagged(Expanded(ts))
    decreases |ts|
  {
    if ts != [] {
      assert Untagged(ts[1..]) by {
        forall i | 0 <= i < |ts[1..]| && ts[1..][i].CheckOpen? ensures ts[1..][i].offset.None? {
          assert ts[1..][i] == ts[i + 1];
        }
      }
      ExpandedUntagged(ts[1..]);
      var head := Replaced(ts[0], SumNesting(ts));
      if ts[0].TextToken? && SumNesting(ts) == 0 && Checkboxed(ts[0].content).Some? {
        ScanWellShaped(ts[0].content, 0);
        WellShapedUntagged(head);
      } else {
        assert head == [ts[0]];
      }
      UntaggedAppend(head, Expanded(ts[1..]));
    }
  }

  lemma ConcatIncreasing(a: seq<nat>, b: seq<nat>, mid: nat)
    requires StrictlyIncreasing(a) && StrictlyIncreasing(b)
    requires forall i :: 0 <= i < |a| ==> a[i] < mid
    requires forall j :: 0 <= j < |b| ==> mid <= b[j]
    ensures StrictlyIncreasing(a + b)
  {
    forall i, j | 0 <= i < j < |a + b| ensures (a + b)[i] < (a + b)[j] {
      if j < |a| {
        assert (a + b)[i] == a[i] && (a + b)[j] == a[j];
      } else if i < |a| {
        assert (a + b)[i] == a[i] && (a + b)[j] == b[j - |a|];
      } else {
        assert (a + b)[i] == b[i - |a|] && (a + b)[j] == b[j - |a|];
      }
    }
  }

  /** Across all the blocks of one `processChecklist` pass, the offsets
      tagged are boxes the toggle service accepts, in strictly increasing
      order: no box is tagged twice and the n-th tagged box is the n-th
      source box so tagged. */
  lemma {:induction false} ProcessedOffsetsIncrease(src: string, blocks: seq<Block>, pos: nat)
    requires pos <= |src| && BlocksUntagged(blocks)
    ensures var (out, end) := Process(src, blocks, pos);
            var offs := BlockOffsets(out);
            StrictlyIncreasing(offs)
            && (forall i :: 0 <= i < |offs| ==> pos <= offs[i] && offs[i] + 3 <= end && TaggableBox(src, offs[i]))
    decreases |blocks|
  {
    if blocks != [] {
      var (b, next) := BlockStep(src, blocks[0], pos);
      assert BlocksUntagged(blocks[1..]) by {
        forall i | 0 <= i < |blocks[1..]| && blocks[1..][i].InlineBlock?
          ensures Untagged(blocks[1..][i].children)
        {
          assert blocks[1..][i] == blocks[i + 1];
        }
      }
      ProcessedOffsetsIncrease(src, blocks[1..], next);
      var (rest, end) := Process(src, blocks[1..], next);
      var out := [b] + rest;
      assert out[0] == b && out[1..] == rest;
      var head := if b.InlineBlock? then Offsets(b.children) else [];
      assert BlockOffsets(out) == head + BlockOffsets(rest);
      assert StrictlyIncreasing(head)
             && forall i :: 0 <= i < |head| ==> pos <= head[i] && head[i] + 3 <= next && TaggableBox(src, head[i])
      by {
        if blocks[0].InlineBlock? {
          var start := BlockStart(LineOffsets(src), blocks[0].startLine, pos);
          BlockStartInSource(src, blocks[0].startLine, pos);
          ExpandedUntagged(blocks[0].children);
          AssignedOffsetsIncrease(src, Expanded(blocks[0].children), start);
        }
      }
      ConcatIncreasing(head, BlockOffsets(rest), next);
    }
  }

  lemma ProcessCons(src: string, blocks: seq<Block>, pos: nat)
    requires pos <= |src| && blocks != []
    ensures Process(src, blocks, pos)
            == Glue([BlockStep(src, blocks[0], pos).0], Process(src, blocks[1..], BlockStep(src, blocks[0], pos).1))
  {
  }

  lemma AssignCons(src: string, ts: seq<Inline>, pos: nat)
    requires pos <= |src| && ts != []
    ensures Assign(src, ts, pos)
            == Glue([AssignStep(src, ts[0], pos).0], Assign(src, ts[1..], AssignStep(src, ts[0], pos).1))
  {
  }

  /** The markdown state the pass works on: the source and the block tokens
      it rewrites. */
  class MarkdownState {
    const src: string
    var tokens: seq<Block>

    constructor (src: string, tokens: seq<Block>)
      ensures this.src == src && this.tokens == tokens
    {
      this.src := src;
      this.tokens := tokens;
    }

    /** `processChecklist`. */
    method ProcessChecklist()
      modifies this
      ensures tokens == Process(src, old(tokens), 0).0
    {
      var lineOffsets := BuildLineOffsets(src);
      var searchPos: nat := 0;
      var blocks := tokens;
      assert blocks[0..] == blocks && tokens[..0] == [];
      assert Process(src, blocks, 0) == Glue([], Process(src, blocks, 0)) by {
        assert [] + Process(src, blocks, 0).0 == Process(src, blocks, 0).0;
      }
      for j := 0 to |blocks|
        invariant |tokens| == |blocks| && searchPos <= |src|
        invariant tokens[j..] == blocks[j..]
        invariant Process(src, blocks, 0) == Glue(tokens[..j], Process(src, blocks[j..], searchPos))
      {
        ProcessCons(src, blocks[j..], searchPos);
        assert tokens[j] == tokens[j..][0] == blocks[j..][0];
        assert blocks[j..][1..] == blocks[j + 1..];
        var b, next := ProcessBlock(lineOffsets, tokens[j], searchPos);
        GlueGlue(tokens[..j], [b], Process(src, blocks[j + 1..], next));
        var old_ := tokens;
        tokens := tokens[j := b];
        assert tokens[..j + 1] == old_[..j] + [b];
        assert tokens[j + 1..] == old_[j + 1..];
        searchPos := next;
      }
      assert blocks[|blocks|..] == [] && tokens[..|blocks|] == tokens && tokens + [] == tokens;
    }

    /** The body of `processChecklist`'s loop, for one block. */
    method ProcessBlock(lineOffsets: seq<nat>, b: Block, pos: nat) returns (b': Block, searchPos: nat)
      requires pos <= |src| && lineOffsets == LineOffsets(src)
      ensures (b', searchPos) == BlockStep(src, b, pos)
    {
      if b.OtherBlock? {
        return b, pos;
      }
      searchPos := BlockStart(lineOffsets, b.startLine, pos);
      assert searchPos <= |src| by {
        if b.startLine.Some? && b.startLine.value < |lineOffsets| && b.startLine.value > 0 {
          assert lineOffsets[b.startLine.value] <= |src|;
        }
      }
      var children := ReplaceTexts(b.children);
      children, searchPos := AssignOffsets(children, searchPos);
      b' := InlineBlock(b.startLine, children);
    }

    /** The offset-assignment loop over one block's tokens. */
    method AssignOffsets(ts: seq<Inline>, pos: nat) returns (tagged: seq<Inline>, searchPos: nat)
      requires pos <= |src|
      ensures (tagged, searchPos) == Assign(src, ts, pos)
    {
      tagged := ts;
      searchPos := pos;
      assert ts[0..] == ts && tagged[..0] == [];
      assert Assign(src, ts, pos) == Glue([], Assign(src, ts, pos)) by {
        assert [] + Assign(src, ts, pos).0 == Assign(src, ts, pos).0;
      }
      assert Assign(src, ts, pos) == Glue(tagged[..0], Assign(src, ts[0..], searchPos));
      for i := 0 to |ts|
        invariant |tagged| == |ts| && searchPos <= |src|
        invariant tagged[i..] == ts[i..]
        invariant Assign(src, ts, pos) == Glue(tagged[..i], Assign(src, ts[i..], searchPos))
      {
        AssignCons(src, ts[i..], searchPos);
        assert tagged[i] == tagged[i..][0] == ts[i..][0];
        assert ts[i..][1..] == ts[i + 1..];
        var t, next := AssignStep(src, tagged[i], searchPos).0, AssignStep(src, tagged[i], searchPos).1;
        GlueGlue(tagged[..i], [t], Assign(src, ts[i + 1..], next));
        var old_ := tagged;
        tagged := tagged[i := t];
        assert tagged[..i + 1] == old_[..i] + [t];
        assert tagged[i + 1..] == old_[i + 1..];
        searchPos := next;
      }
      assert ts[|ts|..] == [] && tagged[..|ts|] == tagged && tagged + [] == tagged;
    }
  }
}
