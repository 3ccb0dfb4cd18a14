/** The anchor file of src/core/conversationCheckpoints.ts as text: one anchor a line, appended to,
    possibly torn by a crash, listed in full or read from its end. */
module AnchorFiles {
  import opened Prelude
  import opened Checkpoints

  type Text = seq<char>

  // JSON text of anchors. parse also refuses what lacks the shape of an anchor.
  datatype Codec = Codec(parse: Text -> Option<Anchor>, show: Anchor -> Text)

  // What is taken from JSON: an anchor's text is one line, reads back as that anchor, and no other
  // stretch of it reads as an anchor at all.
  ghost predicate Json(c: Codec) {
    && (forall a: Anchor :: '\n' !in c.show(a) && c.show(a) != [] && c.parse(c.show(a)) == Some(a))
    && (forall a: Anchor, i: nat, j: nat :: i <= j <= |c.show(a)| && j - i < |c.show(a)| ==>
          c.parse(c.show(a)[i..j]) == None)
  }

  // ---------------------------------------------------------------- lines

  // split('\n'): always at least one line.
  function Lines(text: Text): (r: seq<Text>)
    ensures r != []
  {
    if text == [] then [[]]
    else
      var front, last := Lines(text[..|text| - 1]), text[|text| - 1];
      if last == '\n' then front + [[]]
      else front[..|front| - 1] + [front[|front| - 1] + [last]]
  }

  // Two texts put together: the last line of the first runs into the first line of the second.
  function Joined(a: seq<Text>, b: seq<Text>): seq<Text>
    requires a != [] && b != []
  {
    a[..|a| - 1] + [a[|a| - 1] + b[0]] + b[1..]
  }

  lemma {:induction false} LinesJoin(a: Text, b: Text)
    ensures Lines(a + b) == Joined(Lines(a), Lines(b))
    decreases |b|
  {
    if b == [] {
      assert a + b == a;
      assert Lines(a)[|Lines(a)| - 1] + [] == Lines(a)[|Lines(a)| - 1];
    } else {
      var front, last := b[..|b| - 1], b[|b| - 1];
      assert (a + b)[..|a + b| - 1] == a + front;
      LinesJoin(a, front);
      JoinedStep(Lines(a), Lines(front), last);
    }
  }

  lemma JoinedStep(a: seq<Text>, b: seq<Text>, last: char)
    requires a != [] && b != []
    ensures var whole := Joined(a, b);
            Joined(a, b + [[]]) == whole + [[]]
            && Joined(a, b[..|b| - 1] + [b[|b| - 1] + [last]]) == whole[..|whole| - 1] + [whole[|whole| - 1] + [last]]
  {
    if |b| == 1 {
      assert a[|a| - 1] + (b[0] + [last]) == a[|a| - 1] + b[0] + [last];
    }
  }

  lemma {:induction false} OneLine(line: Text)
    requires '\n' !in line
    ensures Lines(line) == [line]
    decreases |line|
  {
    if line != [] {
      OneLine(line[..|line| - 1]);
      assert line == line[..|line| - 1] + [line[|line| - 1]];
    }
  }

  // ---------------------------------------------------------------- the two readers

  function ParsedLines(c: Codec, lines: seq<Text>): seq<Anchor> {
    if lines == [] then []
    else
      var p := c.parse(lines[|lines| - 1]);
      ParsedLines(c, lines[..|lines| - 1]) + if p.Some? then [p.value] else []
  }

  function Listed(c: Codec, text: Text): seq<Anchor> {
    ParsedLines(c, Lines(text))
  }

  function LastParsed(c: Codec, lines: seq<Text>): Option<Anchor> {
    if lines == [] then None
    else if c.parse(lines[|lines| - 1]).Some? then c.parse(lines[|lines| - 1])
    else LastParsed(c, lines[..|lines| - 1])
  }

  function LastOf(anchors: seq<Anchor>): Option<Anchor> {
    if anchors == [] then None else Some(anchors[|anchors| - 1])
  }

  lemma {:induction false} LastParsedIsLast(c: Codec, lines: seq<Text>)
    ensures LastParsed(c, lines) == LastOf(ParsedLines(c, lines))
  {
    if lines != [] {
      LastParsedIsLast(c, lines[..|lines| - 1]);
    }
  }

  lemma {:induction false} ParsedLinesSplit(c: Codec, a: seq<Text>, b: seq<Text>)
    ensures ParsedLines(c, a + b) == ParsedLines(c, a) + ParsedLines(c, b)
    decreases |b|
  {
    if b == [] {
      assert a + b == a;
    } else {
      assert (a + b)[..|a + b| - 1] == a + b[..|b| - 1];
      ParsedLinesSplit(c, a, b[..|b| - 1]);
    }
  }

  lemma {:induction false} LastParsedSplit(c: Codec, a: seq<Text>, b: seq<Text>)
    ensures LastParsed(c, a + b) == if LastParsed(c, b).Some? then LastParsed(c, b) else LastParsed(c, a)
    decreases |b|
  {
    if b == [] {
      assert a + b == a;
    } else {
      assert (a + b)[..|a + b| - 1] == a + b[..|b| - 1];
      LastParsedSplit(c, a, b[..|b| - 1]);
    }
  }

  lemma OneParsed(c: Codec, line: Text)
    ensures ParsedLines(c, [line]) == if c.parse(line).Some? then [c.parse(line).value] else []
    ensures LastParsed(c, [line]) == c.parse(line)
  {
    var lines := [line];
    assert lines[..|lines| - 1] == [];
  }

  // No line has a proper end that reads as an anchor.
  ghost predicate NoTailParses(c: Codec, text: Text) {
    forall k, i: nat :: 0 <= k < |Lines(text)| && 0 < i <= |Lines(text)[k]| ==> c.parse(Lines(text)[k][i..]) == None
  }

  function Window(text: Text, size: nat): Text {
    text[|text| - (if |text| < size then |text| else size)..]
  }

  method ListCheckpoints(c: Codec, text: Text) returns (out: seq<Anchor>)
    ensures out == Listed(c, text)
  {
    var lines := Lines(text);
    out := [];
    for i := 0 to |lines|
      invariant out == ParsedLines(c, lines[..i])
    {
      var parsed := c.parse(lines[i]);
      if parsed.Some? {
        out := out + [parsed.value];
      }
      assert lines[..i + 1][..i] == lines[..i];
    }
    assert lines[..|lines|] == lines;
  }

  // What the tail read finds: the last anchor that parses in the window, else the last of the file.
  function TailRead(c: Codec, text: Text, size: nat): Option<Anchor> {
    var found := LastParsed(c, Lines(Window(text, size)));
    if found.Some? then found else LastOf(Listed(c, text))
  }

  // The tail read, as it is done: only the last size characters are looked at, from the last line back.
  method ReadLastCheckpoint(c: Codec, text: Text, size: nat) returns (last: Option<Anchor>)
    ensures last == TailRead(c, text, size)
    ensures NoTailParses(c, text) ==> last == LastOf(Listed(c, text))
  {
    TailReadIsRight(c, text, size);
    var lines := Lines(Window(text, size));
    var i := |lines|;
    assert lines[..i] == lines;
    while i > 0
      invariant 0 <= i <= |lines|
      invariant LastParsed(c, lines) == LastParsed(c, lines[..i])
    {
      i := i - 1;
      assert lines[..i + 1][..i] == lines[..i];
      last := c.parse(lines[i]);
      if last.Some? { return; }
    }
    var all := ListCheckpoints(c, text);
    last := if |all| > 0 then Some(all[|all| - 1]) else None;
  }

  function Before(text: Text, size: nat): Text {
    text[..|text| - |Window(text, size)|]
  }

  // The window opens inside a line, what it has of that line reads as an anchor and nothing behind it
  // does, and the file up to that line ends with another anchor, or with none.
  predicate Misread(c: Codec, text: Text, size: nat) {
    var a, b := Lines(Before(text, size)), Lines(Window(text, size));
    && a[|a| - 1] != []
    && c.parse(b[0]).Some? && LastParsed(c, b[1..]).None?
    && c.parse(b[0]) != LastParsed(c, a[..|a| - 1] + [a[|a| - 1] + b[0]])
  }

  /**
    The fast form finds what the full list ends with exactly when it does not misread the line that
    its window cuts.
   */
  lemma TailReadExactly(c: Codec, text: Text, size: nat)
    ensures TailRead(c, text, size) == LastOf(Listed(c, text)) <==> !Misread(c, text, size)
  {
    var a, b := Lines(Before(text, size)), Lines(Window(text, size));
    assert text == Before(text, size) + Window(text, size);
    LinesJoin(Before(text, size), Window(text, size));
    LastParsedIsLast(c, Lines(text));
    assert b == [b[0]] + b[1..];
    CutLineExactly(c, a[..|a| - 1], a[|a| - 1], b[0], b[1..]);
  }

  // The lines of the window are head and rest; head ends the line that begins with tail.
  lemma CutLineExactly(c: Codec, front: seq<Text>, tail: Text, head: Text, rest: seq<Text>)
    ensures var seen, all := LastParsed(c, [head] + rest), LastParsed(c, front + [tail + head] + rest);
            seen.None? || seen == all <==>
            !(tail != [] && c.parse(head).Some? && LastParsed(c, rest).None?
              && c.parse(head) != LastParsed(c, front + [tail + head]))
  {
    LastParsedSplit(c, [head], rest);
    OneParsed(c, head);
    LastParsedSplit(c, front + [tail + head], rest);
    if tail == [] {
      assert tail + head == head;
      LastParsedSplit(c, front, [head]);
    }
  }

  lemma TailReadIsRight(c: Codec, text: Text, size: nat)
    ensures NoTailParses(c, text) ==> TailRead(c, text, size) == LastOf(Listed(c, text))
  {
    TailReadExactly(c, text, size);
    var a, b := Lines(Before(text, size)), Lines(Window(text, size));
    assert text == Before(text, size) + Window(text, size);
    LinesJoin(Before(text, size), Window(text, size));
    if NoTailParses(c, text) {
      FirstLineParses(c, text, a, b);
    }
  }

  // A line that does not parse although its end does: read through a window that holds just the end.
  lemma FragmentIsMisread(c: Codec, a: Anchor)
    requires c.parse("x") == Some(a) && c.parse("yx") == None
    ensures TailRead(c, "yx", 1) == Some(a) && Listed(c, "yx") == []
  {
    OneLine("yx");
    OneLine("x");
    OneParsed(c, "yx");
    OneParsed(c, "x");
    assert Window("yx", 1) == "x";
  }

  // The first line of the window parses only if it is a whole line.
  lemma FirstLineParses(c: Codec, text: Text, a: seq<Text>, b: seq<Text>)
    requires a != [] && b != [] && NoTailParses(c, text) && Lines(text) == Joined(a, b)
    ensures c.parse(b[0]).Some? ==> a[|a| - 1] + b[0] == b[0]
  {
    var whole, n := Lines(text)[|a| - 1], |a[|a| - 1]|;
    assert whole == a[|a| - 1] + b[0];
    if n > 0 {
      assert whole[n..] == b[0];
      assert c.parse(whole[n..]) == None;
    } else {
      assert whole == b[0];
    }
  }

  // ---------------------------------------------------------------- appending

  predicate Torn(text: Text) {
    text != [] && text[|text| - 1] != '\n'
  }

  // What an append writes: a newline first if the last line is torn, so that nothing merges with it.
  function Addition(c: Codec, text: Text, a: Anchor): Text {
    (if Torn(text) then ['\n'] else []) + c.show(a) + ['\n']
  }

  // All lines but the last, which is empty after a newline.
  function Complete(text: Text): seq<Text> {
    Lines(text)[..|Lines(text)| - 1]
  }

  lemma AfterNewline(c: Codec, text: Text, more: Text)
    requires !Torn(text)
    ensures Listed(c, text + more) == ParsedLines(c, Complete(text)) + Listed(c, more)
  {
    LinesJoin(text, more);
    var a, b := Lines(text), Lines(more);
    assert a[|a| - 1] + b[0] == b[0];
    assert Joined(a, b) == Complete(text) + b;
    ParsedLinesSplit(c, Complete(text), b);
  }

  lemma EndsInNewline(c: Codec, text: Text)
    requires !Torn(text) && c.parse([]) == None
    ensures Listed(c, text) == ParsedLines(c, Complete(text))
  {
    assert Lines(text)[|Lines(text)| - 1] == [];
  }

  lemma NewlineKeepsList(c: Codec, text: Text)
    requires c.parse([]) == None
    ensures Listed(c, text + ['\n']) == Listed(c, text) && !Torn(text + ['\n'])
  {
    assert (text + ['\n'])[..|text|] == text;
    assert (Lines(text) + [[]])[..|Lines(text)|] == Lines(text);
  }

  lemma NothingParsesAsEmpty(c: Codec, a: Anchor)
    requires Json(c)
    ensures c.parse([]) == None
  {
    assert c.show(a)[0..0] == [];
  }

  // A stretch of an anchor's text adds the anchor if it is all of it, and nothing otherwise.
  lemma PartListed(c: Codec, a: Anchor, k: nat)
    requires Json(c) && k <= |c.show(a)|
    ensures Listed(c, c.show(a)[..k]) == if k == |c.show(a)| then [a] else []
  {
    var part := c.show(a)[..k];
    OneLine(part);
    assert part == c.show(a)[0..k];
    OneParsed(c, part);
    if k == |c.show(a)| {
      assert part == c.show(a);
    }
  }

  /**
    A crash after any number of bytes of an append, to any file whatever: the anchors listed are
    those listed before, and the new one if all of its text got there.
   */
  lemma CrashedAppend(c: Codec, text: Text, a: Anchor, k: nat)
    requires Json(c) && k <= |Addition(c, text, a)|
    ensures var whole := k >= |Addition(c, text, a)| - 1;
            Listed(c, text + Addition(c, text, a)[..k]) == Listed(c, text) + if whole then [a] else []
  {
    NothingParsesAsEmpty(c, a);
    var add := Addition(c, text, a);
    if Torn(text) {
      if k == 0 {
        assert text + add[..0] == text;
      } else {
        assert text + add[..k] == (text + ['\n']) + add[1..k];
        assert add[1..] == c.show(a) + ['\n'];
        assert add[1..k] == (c.show(a) + ['\n'])[..k - 1];
        NewlineKeepsList(c, text);
        CrashedLine(c, text + ['\n'], a, k - 1);
      }
    } else {
      assert add == c.show(a) + ['\n'];
      CrashedLine(c, text, a, k);
    }
  }

  lemma CrashedLine(c: Codec, text: Text, a: Anchor, k: nat)
    requires Json(c) && !Torn(text) && k <= |c.show(a)| + 1
    ensures Listed(c, text + (c.show(a) + ['\n'])[..k]) == Listed(c, text) + if k >= |c.show(a)| then [a] else []
  {
    var n := |c.show(a)|;
    NothingParsesAsEmpty(c, a);
    if k <= n {
      assert (c.show(a) + ['\n'])[..k] == c.show(a)[..k];
      PartAppended(c, text, a, k);
    } else {
      PartAppended(c, text, a, n);
      assert text + (c.show(a) + ['\n'])[..k] == (text + c.show(a)[..n]) + ['\n'];
      NewlineKeepsList(c, text + c.show(a)[..n]);
    }
  }

  lemma PartAppended(c: Codec, text: Text, a: Anchor, k: nat)
    requires Json(c) && !Torn(text) && k <= |c.show(a)|
    ensures Listed(c, text + c.show(a)[..k]) == Listed(c, text) + if k == |c.show(a)| then [a] else []
  {
    NothingParsesAsEmpty(c, a);
    PartListed(c, a, k);
    EndsInNewline(c, text);
    AfterNewline(c, text, c.show(a)[..k]);
  }

  // ---------------------------------------------------------------- rewriting

  // map(show).join('\n')
  function Join(c: Codec, kept: seq<Anchor>): Text {
    if kept == [] then []
    else if |kept| == 1 then c.show(kept[0])
    else Join(c, kept[..|kept| - 1]) + ['\n'] + c.show(kept[|kept| - 1])
  }

  // The new file of a compaction or a truncation, which is renamed over the old one.
  function Rewritten(c: Codec, kept: seq<Anchor>): Text {
    Join(c, kept) + ['\n']
  }

  lemma {:induction false} RewriteListsKept(c: Codec, kept: seq<Anchor>)
    requires Json(c) && kept != []
    ensures Listed(c, Join(c, kept)) == kept && OnlyAnchorText(c, Lines(Join(c, kept)))
    ensures Listed(c, Rewritten(c, kept)) == kept && OnlyAnchorText(c, Lines(Rewritten(c, kept)))
    decreases |kept|
  {
    var front, a := kept[..|kept| - 1], kept[|kept| - 1];
    NothingParsesAsEmpty(c, a);
    assert c.show(a)[..|c.show(a)|] == c.show(a);
    if |kept| == 1 {
      OneLine(c.show(a));
      PartListed(c, a, |c.show(a)|);
      assert Stretch(c, c.show(a));
    } else {
      RewriteListsKept(c, front);
      var before := Rewritten(c, front);
      assert Join(c, kept) == before + c.show(a)[..|c.show(a)|];
      PartAppended(c, before, a, |c.show(a)|);
      PartStaysAnchorText(c, before, a, |c.show(a)|);
      assert kept == front + [a];
    }
    NewlineKeepsList(c, Join(c, kept));
    NewlineStaysAnchorText(c, Join(c, kept), a);
  }

  // ---------------------------------------------------------------- every run

  // An append, with how many of its bytes reached the file; or a rewrite that took place.
  datatype FileOp = Append(anchor: Anchor, bytes: nat) | Rewrite(kept: seq<Anchor>)

  function Written(c: Codec, text: Text, op: FileOp): Text {
    match op
    case Append(a, bytes) =>
      var add := Addition(c, text, a);
      text + add[..if bytes < |add| then bytes else |add|]
    case Rewrite(kept) => Rewritten(c, kept)
  }

  predicate Whole(c: Codec, text: Text, op: FileOp) {
    op.Append? && op.bytes >= |Addition(c, text, op.anchor)| - 1
  }

  function File(c: Codec, ops: seq<FileOp>): Text {
    if ops == [] then [] else Written(c, File(c, ops[..|ops| - 1]), ops[|ops| - 1])
  }

  function Survivors(c: Codec, ops: seq<FileOp>): seq<Anchor> {
    if ops == [] then []
    else
      var front, op := ops[..|ops| - 1], ops[|ops| - 1];
      if op.Rewrite? then op.kept else Survivors(c, front) + if Whole(c, File(c, front), op) then [op.anchor] else []
  }

  // Every line is a stretch of some anchor's text.
  ghost predicate OnlyAnchorText(c: Codec, lines: seq<Text>) {
    forall k :: 0 <= k < |lines| ==> Stretch(c, lines[k])
  }

  ghost predicate Stretch(c: Codec, line: Text) {
    exists a: Anchor, j: nat :: j <= |c.show(a)| && line == c.show(a)[..j]
  }

  /**
    After any sequence of appends, each cut off by a crash wherever it may be, and of rewrites, the
    file lists exactly the anchors kept by the last rewrite and those whose text got there whole since,
    in order.
   */
  lemma {:induction false} FileListsSurvivors(c: Codec, ops: seq<FileOp>)
    requires Json(c) && forall op :: op in ops && op.Rewrite? ==> op.kept != []
    ensures Listed(c, File(c, ops)) == Survivors(c, ops)
    ensures OnlyAnchorText(c, Lines(File(c, ops)))
    decreases |ops|
  {
    var some: Anchor := Anchor(0, 0, map[], {}, "");
    NothingParsesAsEmpty(c, some);
    if ops == [] {
      assert c.show(some)[..0] == [];
      NothingListed(c);
    } else {
      var front, op := ops[..|ops| - 1], ops[|ops| - 1];
      assert op in ops;
      FileListsSurvivors(c, front);
      match op
      case Rewrite(kept) => RewriteListsKept(c, kept);
      case Append(a, bytes) =>
        var text, add := File(c, front), Addition(c, File(c, front), a);
        CrashedAppend(c, text, a, if bytes < |add| then bytes else |add|);
        LinesStayAnchorText(c, text, a, if bytes < |add| then bytes else |add|);
    }
  }

  lemma NothingListed(c: Codec)
    requires c.parse([]) == None
    ensures Listed(c, []) == []
  {
    OneParsed(c, []);
  }

  lemma LinesStayAnchorText(c: Codec, text: Text, a: Anchor, k: nat)
    requires Json(c) && OnlyAnchorText(c, Lines(text)) && k <= |Addition(c, text, a)|
    ensures OnlyAnchorText(c, Lines(text + Addition(c, text, a)[..k]))
  {
    var add := Addition(c, text, a);
    assert c.show(a)[..0] == [];
    if Torn(text) {
      if k == 0 {
        assert text + add[..0] == text;
      } else {
        assert text + add[..k] == (text + ['\n']) + add[1..k];
        assert add[1..] == c.show(a) + ['\n'];
        assert add[1..k] == (c.show(a) + ['\n'])[..k - 1];
        NewlineStaysAnchorText(c, text, a);
        assert !Torn(text + ['\n']);
        LineStaysAnchorText(c, text + ['\n'], a, k - 1);
      }
    } else {
      assert add == c.show(a) + ['\n'];
      LineStaysAnchorText(c, text, a, k);
    }
  }

  lemma LineStaysAnchorText(c: Codec, text: Text, a: Anchor, k: nat)
    requires Json(c) && OnlyAnchorText(c, Lines(text)) && !Torn(text) && k <= |c.show(a)| + 1
    ensures OnlyAnchorText(c, Lines(text + (c.show(a) + ['\n'])[..k]))
  {
    var n := |c.show(a)|;
    var m := if k < n then k else n;
    var part := c.show(a)[..m];
    PartStaysAnchorText(c, text, a, m);
    if k <= n {
      assert (c.show(a) + ['\n'])[..k] == part;
    } else {
      assert text + (c.show(a) + ['\n'])[..k] == (text + part) + ['\n'];
      NewlineStaysAnchorText(c, text + part, a);
    }
  }

  lemma PartStaysAnchorText(c: Codec, text: Text, a: Anchor, k: nat)
    requires Json(c) && OnlyAnchorText(c, Lines(text)) && !Torn(text) && k <= |c.show(a)|
    ensures OnlyAnchorText(c, Lines(text + c.show(a)[..k]))
  {
    var part := c.show(a)[..k];
    OneLine(part);
    LinesJoin(text, part);
    var lines := Lines(text);
    assert lines[|lines| - 1] + part == part;
    assert Lines(text + part) == lines[..|lines| - 1] + [part];
    assert Stretch(c, part);
  }

  lemma NewlineStaysAnchorText(c: Codec, text: Text, a: Anchor)
    requires OnlyAnchorText(c, Lines(text))
    ensures OnlyAnchorText(c, Lines(text + ['\n']))
  {
    assert (text + ['\n'])[..|text|] == text;
    assert c.show(a)[..0] == [];
    assert Stretch(c, []);
  }

  // So the tail read is right after any such run.
  lemma AnchorTextHasNoTails(c: Codec, text: Text)
    requires Json(c) && OnlyAnchorText(c, Lines(text))
    ensures NoTailParses(c, text)
  {
    forall k, i: nat | 0 <= k < |Lines(text)| && 0 < i <= |Lines(text)[k]|
      ensures c.parse(Lines(text)[k][i..]) == None
    {
      var line := Lines(text)[k];
      assert Stretch(c, line);
      var a: Anchor, j: nat :| j <= |c.show(a)| && line == c.show(a)[..j];
      assert line[i..] == c.show(a)[i..j];
    }
  }

  // After any such sequence the tail read finds the last of them, whatever its window.
  method ReadLastAfter(c: Codec, ghost ops: seq<FileOp>, text: Text, size: nat) returns (last: Option<Anchor>)
    requires Json(c) && text == File(c, ops) && forall op :: op in ops && op.Rewrite? ==> op.kept != []
    ensures last == LastOf(Survivors(c, ops))
  {
    FileListsSurvivors(c, ops);
    AnchorTextHasNoTails(c, text);
    last := ReadLastCheckpoint(c, text, size);
  }
}
