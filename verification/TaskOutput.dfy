/** The output of a background task: bounded tail in memory, byte-counted rotating log on disk
    (src/core/backgroundTaskManager.ts). */
module TaskOutputs {
  import opened Prelude

  const MAX_OUTPUT_BUFFER: nat := 200_000

  // ---------------------------------------------------------------- text and its two lengths

  // A Unicode scalar value: decoded output holds no lone surrogate.
  type Scalar = c: nat | c < 0x11_0000 && !(0xD800 <= c < 0xE000) witness 0

  type Text = seq<Scalar>

  function Utf16(c: Scalar): (units: seq<nat>)
    ensures 1 <= |units| <= 2
  {
    if c < 0x1_0000 then [c]
    else [0xD800 + (c - 0x1_0000) / 0x400, 0xDC00 + (c - 0x1_0000) % 0x400]
  }

  type Byte = b: int | 0 <= b < 0x100

  // UTF-8, as RFC 3629 gives it in section 3.
  function Utf8(c: Scalar): (bytes: seq<Byte>)
    ensures 1 <= |bytes| <= 4
  {
    if c < 0x80 then [c]
    else if c < 0x800 then [0xC0 + c / 0x40, 0x80 + c % 0x40]
    else if c < 0x1_0000 then [0xE0 + c / 0x1000, 0x80 + c / 0x40 % 0x40, 0x80 + c % 0x40]
    else [0xF0 + c / 0x4_0000, 0x80 + c / 0x1000 % 0x40, 0x80 + c / 0x40 % 0x40, 0x80 + c % 0x40]
  }

  function Units(text: Text): seq<nat> {
    if text == [] then [] else Units(text[..|text| - 1]) + Utf16(text[|text| - 1])
  }

  function Bytes(text: Text): seq<Byte> {
    if text == [] then [] else Bytes(text[..|text| - 1]) + Utf8(text[|text| - 1])
  }

  lemma {:induction false} UnitsOfSum(a: Text, b: Text)
    ensures Units(a + b) == Units(a) + Units(b)
    decreases |b|
  {
    if b == [] {
      assert a + b == a;
    } else {
      var front, last := b[..|b| - 1], b[|b| - 1];
      assert (a + b)[..|a + b| - 1] == a + front;
      UnitsOfSum(a, front);
      assert Units(a + front) + Utf16(last) == Units(a) + (Units(front) + Utf16(last));
    }
  }

  lemma {:induction false} BytesOfSum(a: Text, b: Text)
    ensures Bytes(a + b) == Bytes(a) + Bytes(b)
    decreases |b|
  {
    if b == [] {
      assert a + b == a;
    } else {
      var front, last := b[..|b| - 1], b[|b| - 1];
      assert (a + b)[..|a + b| - 1] == a + front;
      BytesOfSum(a, front);
      assert Bytes(a + front) + Utf8(last) == Bytes(a) + (Bytes(front) + Utf8(last));
    }
  }

  // The scalar value that a first unit, or a first byte, and what follows it stand for.
  function OfUtf16(units: seq<nat>): int
    requires 1 <= |units| <= 2
  {
    var first: int := units[0];
    if |units| == 1 then first
    else
      var second: int := units[1];
      0x1_0000 + (first - 0xD800) * 0x400 + (second - 0xDC00)
  }

  function Less(b: int, mark: int): int { b - mark }

  function OfUtf8(bytes: seq<Byte>): int
    requires 1 <= |bytes| <= 4
  {
    match |bytes|
    case 1 => bytes[0]
    case 2 => Less(bytes[0], 0xC0) * 0x40 + Less(bytes[1], 0x80)
    case 3 => Less(bytes[0], 0xE0) * 0x1000 + Less(bytes[1], 0x80) * 0x40 + Less(bytes[2], 0x80)
    case _ =>
      Less(bytes[0], 0xF0) * 0x4_0000 + Less(bytes[1], 0x80) * 0x1000
      + Less(bytes[2], 0x80) * 0x40 + Less(bytes[3], 0x80)
  }

  lemma SixBits(c: nat)
    ensures c == c / 0x40 * 0x40 + c % 0x40
    ensures c / 0x40 == c / 0x1000 * 0x40 + c / 0x40 % 0x40
    ensures c / 0x1000 == c / 0x4_0000 * 0x40 + c / 0x1000 % 0x40
  {
    assert c / 0x40 / 0x40 == c / 0x1000;
    assert c / 0x1000 / 0x40 == c / 0x4_0000;
  }

  // Both encodings read back, and the number of bytes is the standard's.
  lemma Utf16ReadsBack(c: Scalar)
    ensures OfUtf16(Utf16(c)) == c
  {
  }

  lemma Utf8ReadsBack(c: Scalar)
    ensures OfUtf8(Utf8(c)) == c
    ensures |Utf8(c)| == if c < 0x80 then 1 else if c < 0x800 then 2 else if c < 0x1_0000 then 3 else 4
  {
    SixBits(c);
  }

  // ---------------------------------------------------------------- the tail buffer

  function Last<T>(s: seq<T>, n: nat): seq<T> {
    if |s| <= n then s else s[|s| - n..]
  }

  // Keeping a tail and then appending loses nothing that the tail of the whole would hold.
  lemma LastOfLast<T>(a: seq<T>, b: seq<T>, n: nat)
    ensures Last(Last(a, n) + b, n) == Last(a + b, n)
  {
    if |a| > n {
      var kept := a[|a| - n..] + b;
      assert kept == (a + b)[|a| - n..];
      if |b| > 0 {
        assert kept[|kept| - n..] == (a + b)[|a + b| - n..];
      }
    }
  }

  // ---------------------------------------------------------------- the log

  // Every byte that reached the disk, split by where it is: rotated out, in the .1 file, in the log;
  // and the counter of the log's bytes.
  datatype Log = Log(dropped: seq<Byte>, rotated: seq<Byte>, current: seq<Byte>, counter: nat)

  const NEW_LOG := Log([], [], [], 0)

  function Persisted(log: Log): seq<Byte> {
    log.dropped + log.rotated + log.current
  }

  function OnDisk(log: Log): seq<Byte> {
    log.rotated + log.current
  }

  // How an append ends: all of the chunk is written, or an exception comes after some bytes of it.
  datatype Landing = Whole | Torn(bytes: nat)

  function Part(data: seq<Byte>, landing: Landing): seq<Byte> {
    match landing
    case Whole => data
    case Torn(n) => data[..if n < |data| then n else |data|]
  }

  function Rotated(log: Log, renamed: bool): Log {
    if renamed then Log(log.dropped + log.rotated, log.current, [], 0) else log
  }

  // The counter takes a chunk in only when the append returns.
  function Written(log: Log, data: seq<Byte>, landing: Landing): Log {
    log.(current := log.current + Part(data, landing), counter := log.counter + if landing.Whole? then |data| else 0)
  }

  // How the file operations of one append end, should they be attempted.
  datatype Luck = Luck(preRename: bool, landing: Landing, postRename: bool)

  function RotatedIf(log: Log, due: bool, renamed: bool): Log {
    if due then Rotated(log, renamed) else log
  }

  // Before the append: rotate if the chunk would not fit. After it: rotate if the log is too large.
  predicate PreDue(log: Log, data: seq<Byte>, cap: nat) {
    log.counter + |data| > cap && log.counter > 0
  }

  function Prepared(log: Log, data: seq<Byte>, cap: nat, renamed: bool): Log {
    RotatedIf(log, PreDue(log, data, cap), renamed)
  }

  function Trimmed(log: Log, cap: nat, renamed: bool): Log {
    RotatedIf(log, log.counter > cap, renamed)
  }

  function Appended(log: Log, data: seq<Byte>, cap: nat, luck: Luck): Log {
    Trimmed(Written(Prepared(log, data, cap, luck.preRename), data, luck.landing), cap, luck.postRename)
  }

  lemma RotationLosesNothing(log: Log, due: bool, renamed: bool)
    ensures Persisted(RotatedIf(log, due, renamed)) == Persisted(log)
  {
    assert log.dropped + log.rotated + log.current + [] == Persisted(log);
  }

  // What reached the disk only ever grows, by what the append wrote.
  lemma AppendedExtendsStream(log: Log, data: seq<Byte>, cap: nat, luck: Luck)
    ensures Persisted(Appended(log, data, cap, luck)) == Persisted(log) + Part(data, luck.landing)
  {
    var a := Prepared(log, data, cap, luck.preRename);
    RotationLosesNothing(log, PreDue(log, data, cap), luck.preRename);
    var b := Written(a, data, luck.landing);
    assert Persisted(b) == Persisted(a) + Part(data, luck.landing);
    RotationLosesNothing(b, b.counter > cap, luck.postRename);
  }

  lemma OnDiskIsNewest(log: Log)
    ensures |OnDisk(log)| <= |Persisted(log)|
    ensures OnDisk(log) == Last(Persisted(log), |OnDisk(log)|)
  {
    assert Persisted(log) == log.dropped + OnDisk(log);
  }

  // The counter is within the cap after every append whose last rename, if due, succeeds.
  lemma AppendBoundsCounter(log: Log, data: seq<Byte>, cap: nat, luck: Luck)
    requires luck.postRename
    ensures Appended(log, data, cap, luck).counter <= cap
  {
  }

  // While appends succeed, nothing is dropped before the two files hold more than the cap together,
  // and the chunk just appended is still there, at the end.
  ghost predicate Retains(log: Log, cap: nat) {
    log.counter == |log.current| && (log.dropped != [] ==> |OnDisk(log)| > cap)
  }

  lemma AppendRetains(log: Log, data: seq<Byte>, cap: nat, luck: Luck)
    requires Retains(log, cap) && luck.landing.Whole?
    ensures Retains(Appended(log, data, cap, luck), cap)
    ensures |data| <= |OnDisk(Appended(log, data, cap, luck))|
    ensures data == Last(OnDisk(Appended(log, data, cap, luck)), |data|)
  {
    var a := Prepared(log, data, cap, luck.preRename);
    var b := Written(a, data, Whole);
    PreparedRetains(log, data, cap, luck.preRename);
    assert OnDisk(b) == OnDisk(a) + data;
    TrimmedRetains(b, cap, luck.postRename);
    assert b.current == a.current + data;
  }

  lemma PreparedRetains(log: Log, data: seq<Byte>, cap: nat, renamed: bool)
    requires Retains(log, cap)
    ensures var a := Prepared(log, data, cap, renamed);
            a.counter == |a.current| && (a.dropped != [] ==> |OnDisk(a)| + |data| > cap)
  {
    assert log.current + [] == log.current;
  }

  lemma TrimmedRetains(log: Log, cap: nat, renamed: bool)
    requires Retains(log, cap)
    ensures Retains(Trimmed(log, cap, renamed), cap)
    ensures OnDisk(Trimmed(log, cap, renamed)) in {OnDisk(log), log.current}
  {
    assert log.current + [] == log.current;
  }

  // ---------------------------------------------------------------- a whole life of the log

  // Each chunk with the luck it met.
  type Feed = seq<(seq<Byte>, Luck)>

  function Fed(feed: Feed, cap: nat): Log {
    if feed == [] then NEW_LOG
    else
      var f := feed[|feed| - 1];
      Appended(Fed(feed[..|feed| - 1], cap), f.0, cap, f.1)
  }

  // The bytes that reached the disk.
  function Stream(feed: Feed): seq<Byte> {
    if feed == [] then [] else Stream(feed[..|feed| - 1]) + Part(feed[|feed| - 1].0, feed[|feed| - 1].1.landing)
  }

  lemma {:induction false} FedIsStream(feed: Feed, cap: nat)
    ensures Persisted(Fed(feed, cap)) == Stream(feed)
  {
    if feed != [] {
      var front, f := feed[..|feed| - 1], feed[|feed| - 1];
      FedIsStream(front, cap);
      AppendedExtendsStream(Fed(front, cap), f.0, cap, f.1);
    }
  }

  // After any run, failures included, the rotated file followed by the log is the end of the bytes
  // that reached the disk.
  lemma FilesEndStream(feed: Feed, cap: nat)
    ensures OnDisk(Fed(feed, cap)) == Last(Stream(feed), |OnDisk(Fed(feed, cap))|)
  {
    FedIsStream(feed, cap);
    OnDiskIsNewest(Fed(feed, cap));
  }

  // The bytes that failed appends have left in the current log file since it was started.
  function Stray(feed: Feed, cap: nat): nat {
    if feed == [] then 0
    else
      var front, f := feed[..|feed| - 1], feed[|feed| - 1];
      var log := Fed(front, cap);
      var a := Prepared(log, f.0, cap, f.1.preRename);
      var b := Written(a, f.0, f.1.landing);
      if b.counter > cap && f.1.postRename then 0
      else
        (if PreDue(log, f.0, cap) && f.1.preRename then 0 else Stray(front, cap))
        + if f.1.landing.Whole? then 0 else |Part(f.0, f.1.landing)|
  }

  /**
    Over every run the log file is as long as its counter and those stray bytes together: the counter
    never says too much, and it is the file's size exactly when no append to that file failed
    part-way.
   */
  lemma {:induction false} CounterMissesStrayBytes(feed: Feed, cap: nat)
    ensures |Fed(feed, cap).current| == Fed(feed, cap).counter + Stray(feed, cap)
  {
    if feed != [] {
      CounterMissesStrayBytes(feed[..|feed| - 1], cap);
    }
  }

  // So the file is within the cap after every append whose last rename, if due, succeeds, but for the
  // stray bytes.
  lemma FileWithinCap(feed: Feed, cap: nat)
    requires feed != [] && feed[|feed| - 1].1.postRename
    ensures |Fed(feed, cap).current| <= cap + Stray(feed, cap)
  {
    CounterMissesStrayBytes(feed, cap);
    var f := feed[|feed| - 1];
    AppendBoundsCounter(Fed(feed[..|feed| - 1], cap), f.0, cap, f.1);
  }

  // Two appends that fail part-way fill the log past its cap, and no rotation comes.
  lemma StrayBytesPassTheCap(x: Byte, renames: bool)
    ensures var f := ([x, x], Luck(renames, Torn(1), renames));
            Fed([f, f], 1).current == [x, x] && Fed([f, f], 1).counter == 0
  {
    var f := ([x, x], Luck(renames, Torn(1), renames));
    var one: Feed := [f];
    assert one[..0] == [] && [f, f][..1] == one;
    assert Fed(one, 1) == Appended(NEW_LOG, [x, x], 1, f.1);
    assert Part([x, x], Torn(1)) == [x];
  }

  // If every append succeeds, what is on disk ends the output itself, the counter is the file's size,
  // and the front of the output is dropped only to keep more than the cap.
  lemma {:induction false} FilesKeepTheCap(feed: Feed, cap: nat)
    requires forall f :: f in feed ==> f.1.landing.Whole?
    ensures Retains(Fed(feed, cap), cap)
  {
    if feed != [] {
      var front, f := feed[..|feed| - 1], feed[|feed| - 1];
      assert f in feed;
      FilesKeepTheCap(front, cap);
      AppendRetains(Fed(front, cap), f.0, cap, f.1);
    }
  }

  // If the appends and the renames before them succeed, and no chunk is larger than the cap, neither
  // file ever outgrows the cap, and the chunk just appended is in the log.
  predicate Smooth(f: (seq<Byte>, Luck), cap: nat) {
    |f.0| <= cap && f.1.preRename && f.1.landing.Whole?
  }

  ghost predicate Small(log: Log, cap: nat) {
    |log.current| == log.counter <= cap && |log.rotated| <= cap
  }

  lemma AppendStaysSmall(log: Log, data: seq<Byte>, cap: nat, luck: Luck)
    requires Small(log, cap) && Smooth((data, luck), cap)
    ensures var after := Appended(log, data, cap, luck);
            Small(after, cap) && |data| <= |after.current| && data == Last(after.current, |data|)
  {
    var a := Prepared(log, data, cap, true);
    var b := Written(a, data, Whole);
    assert b.counter <= cap;
    assert b.current == a.current + data;
  }

  lemma {:induction false} FilesStaySmall(feed: Feed, cap: nat)
    requires forall f :: f in feed ==> Smooth(f, cap)
    ensures Small(Fed(feed, cap), cap)
    ensures feed != [] ==>
      var data, log := feed[|feed| - 1].0, Fed(feed, cap);
      |data| <= |log.current| && data == Last(log.current, |data|)
    decreases |feed|
  {
    if feed != [] {
      var front, f := feed[..|feed| - 1], feed[|feed| - 1];
      assert f in feed;
      FilesStaySmall(front, cap);
      AppendStaysSmall(Fed(front, cap), f.0, cap, f.1);
    }
  }

  // ---------------------------------------------------------------- the object

  class OutputLog {
    const cap: nat
    const toFile: bool
    var output: seq<nat>
    var totalOutputBytes: nat
    var currentFileBytes: nat
    var current: Option<seq<Byte>>  // the log file; gone when it could not be made again after a rename
    var rotated: Option<seq<Byte>>
    ghost var received: Text
    ghost var dropped: seq<Byte>
    ghost var feed: Feed

    ghost function OnFile(): Log
      reads this
    {
      Log(dropped, rotated.GetOr([]), current.GetOr([]), currentFileBytes)
    }

    // Memory holds the tail of what was received.
    ghost predicate Remembers()
      reads this
    {
      output == Last(Units(received), MAX_OUTPUT_BUFFER) && totalOutputBytes == |Bytes(received)|
    }

    // And the files are what the feed made of them.
    ghost predicate Valid()
      reads this
    {
      Remembers() && OnFile() == Fed(feed, cap)
    }

    constructor (cap: nat, toFile: bool)
      requires cap > 0
      ensures Valid() && received == [] && feed == []
      ensures this.cap == cap && this.toFile == toFile
    {
      this.cap, this.toFile := cap, toFile;
      output, totalOutputBytes, currentFileBytes := [], 0, 0;
      current, rotated := if toFile then Some([]) else None, None;
      received, dropped, feed := [], [], [];
    }

    // The counter restarts only if the rename took place.
    method RotateFile() returns (ghost renamed: bool)
      requires toFile
      modifies `currentFileBytes, `current, `rotated, `dropped
      ensures OnFile() == Rotated(old(OnFile()), renamed)
    {
      var works := *;
      if current.None? || !works {
        return false;
      }
      dropped := dropped + rotated.GetOr([]);
      rotated := current;
      var recreated := *;
      current := if recreated then Some([]) else None;
      currentFileBytes := 0;
      renamed := true;
    }

    // appendFileSync writes the chunk in pieces and may throw after any of them.
    method Persist(data: seq<Byte>) returns (ghost landing: Landing)
      requires toFile
      modifies `currentFileBytes, `current
      ensures OnFile() == Written(old(OnFile()), data, landing)
    {
      var works, written := *, *;
      if works {
        current := Some(current.GetOr([]) + data);
        currentFileBytes := currentFileBytes + |data|;
        return Whole;
      }
      landing := Torn(if written < 0 then 0 else written);
      if written > 0 {
        current := Some(current.GetOr([]) + data[..if written < |data| then written else |data|]);
      } else {
        assert current.GetOr([]) + [] == current.GetOr([]);
      }
    }

    /**
      Whatever fails, memory holds the last 200000 units of everything received; the files and the
      counter take the chunk in as Appended says, so the laws of Fed hold of them.
     */
    method AppendOutput(data: Text)
      requires Valid()
      modifies this
      ensures Valid() && received == old(received) + data
      ensures if toFile
        then |feed| == |old(feed)| + 1 && feed[..|old(feed)|] == old(feed) && feed[|old(feed)|].0 == Bytes(data)
        else feed == old(feed)
    {
      var chunk := Bytes(data);
      Remember(data, |chunk|);
      if toFile {
        ghost var luck := PersistWithRotation(chunk);
        feed := feed + [(chunk, luck)];
        assert feed[..|feed| - 1] == old(feed);
      }
    }

    method Remember(data: Text, chunkBytes: nat)
      requires Remembers() && chunkBytes == |Bytes(data)|
      modifies `output, `totalOutputBytes, `received
      ensures Remembers() && received == old(received) + data
    {
      Receives(received, data);
      totalOutputBytes := totalOutputBytes + chunkBytes;
      AddToTail(Units(data));
      received := received + data;
    }

    method AddToTail(units: seq<nat>)
      modifies `output
      ensures output == Last(old(output) + units, MAX_OUTPUT_BUFFER)
    {
      output := output + units;
      if |output| > MAX_OUTPUT_BUFFER {
        output := output[|output| - MAX_OUTPUT_BUFFER..];
      }
    }

    method PersistWithRotation(chunk: seq<Byte>) returns (ghost luck: Luck)
      requires toFile
      modifies `currentFileBytes, `current, `rotated, `dropped
      ensures OnFile() == Appended(old(OnFile()), chunk, cap, luck)
    {
      luck := Luck(true, Whole, true);
      if currentFileBytes + |chunk| > cap && currentFileBytes > 0 {
        var renamed := RotateFile();
        luck := luck.(preRename := renamed);
      }
      assert OnFile() == Prepared(old(OnFile()), chunk, cap, luck.preRename);
      var landing := Persist(chunk);
      luck := luck.(landing := landing);
      if currentFileBytes > cap && currentFileBytes > 0 {
        var renamed := RotateFile();
        luck := luck.(postRename := renamed);
      }
    }

    lemma Receives(before: Text, data: Text)
      ensures Last(Last(Units(before), MAX_OUTPUT_BUFFER) + Units(data), MAX_OUTPUT_BUFFER)
              == Last(Units(before + data), MAX_OUTPUT_BUFFER)
      ensures |Bytes(before + data)| == |Bytes(before)| + |Bytes(data)|
    {
      LastOfLast(Units(before), Units(data), MAX_OUTPUT_BUFFER);
      UnitsOfSum(before, data);
      BytesOfSum(before, data);
    }
  }
}
