/**
 * `add_clone_devices` of src/clone/clone-generator.c: read the clonetab line
 * by line, skip blank and comment lines, reject lines with fewer than four
 * words, and generate the units of every other line, gathering the first
 * error while going on with the rest.
 */
module CloneTab {
  import opened Errors
  import opened Text
  import opened Effects
  import opened CloneUnits

  /** How reading the table ends after its last line. */
  datatype End = Eof | ReadFailed(err: Errno)

  /**
   * The clonetab as the generator sees it: either opening it failed, or the
   * lines `read_stripped_line` returns (already stripped) and how reading ends.
   */
  datatype Table = Unopenable(err: Errno) | Readable(lines: seq<string>, end: End)

  /** One result of `read_stripped_line`. */
  datatype Read = ReadLine(line: string) | AtEof | ReadError(err: Errno)

  /** What `read_stripped_line` returns once `n` lines have been read. */
  function ReadStrippedLine(t: Table, n: nat): (rd: Read)
    requires t.Readable? && n <= |t.lines|
    ensures rd.ReadLine? <==> n < |t.lines|
  {
    if n < |t.lines| then ReadLine(t.lines[n])
    else if t.end.Eof? then AtEof
    else ReadError(t.end.err)
  }

  /** The words the five `%ms` conversions store: the first five words of the line. */
  function ScanFields(line: string): (fields: seq<string>)
    ensures |fields| == if |Tokens(line)| < 5 then |Tokens(line)| else 5
    ensures fields == Tokens(line)[..|fields|]
  {
    var ws := Tokens(line);
    if |ws| <= 5 then ws else ws[..5]
  }

  /** What the driver does with one line. */
  datatype LineKind = Ignored | Malformed | Accepted(entry: Entry)

  predicate IsComment(line: string) {
    line == [] || line[0] == '#'
  }

  /** What the loop does with a line, in the order the source tests it. */
  function Classify(line: string): LineKind {
    if IsComment(line) then Ignored
    else
      var fields := ScanFields(line);
      if |fields| < 4 || |fields| > 5 then Malformed
      else Accepted(Entry(fields[0], fields[1], fields[2], fields[3],
                          if |fields| == 5 then Some(fields[4]) else None))
  }

  /**
   * Empty and `#` lines are ignored; a line of fewer than four words is
   * malformed; any other line is an entry made of its first four words and
   * its fifth if there is one, further words being dropped.
   */
  lemma ClassifyMeaning(line: string)
    ensures Classify(line).Ignored? <==> IsComment(line)
    ensures Classify(line).Malformed? <==> !IsComment(line) && |Tokens(line)| < 4
    ensures Classify(line).Accepted? ==>
      var ws := Tokens(line);
      && |ws| >= 4
      && Classify(line).entry == Entry(ws[0], ws[1], ws[2], ws[3], if |ws| >= 5 then Some(ws[4]) else None)
  {
  }

  /** `RET_GATHER(ret, r)`: keep the first negative status. */
  function Gather(ret: Status, r: Status): Status {
    if r < 0 && ret >= 0 then r else ret
  }

  /**
   * The loop's state after some lines: the gathered status, the log, the
   * result of each entry generated, and the numbers of the lines rejected.
   */
  datatype Progress = Progress(ret: Status, steps: seq<Step>, results: seq<Status>, rejected: seq<nat>)

  /** The loop of `add_clone_devices` over `lines`, line numbers counting from 1. */
  function Drive(h: Helpers, io: Io, done: seq<Step>, lines: seq<string>): Progress
    decreases |lines|
  {
    if lines == [] then Progress(0, done, [], [])
    else
      var p := Drive(h, io, done, lines[..|lines| - 1]);
      match Classify(lines[|lines| - 1])
      case Ignored => p
      case Malformed => p.(rejected := p.rejected + [|lines|])
      case Accepted(e) =>
        var o := Generate(h, io, p.steps, e);
        Progress(Gather(p.ret, o.status), o.steps, p.results + [o.status], p.rejected)
  }

  /** The result of `add_clone_devices`: its status, the log, and the lines rejected. */
  datatype Outcome = Outcome(status: Status, steps: seq<Step>, rejected: seq<nat>)

  function RunTable(h: Helpers, io: Io, done: seq<Step>, t: Table): Outcome {
    if t.Unopenable? then Outcome(0, done, [])
    else
      var p := Drive(h, io, done, t.lines);
      if t.end.Eof? then Outcome(p.ret, p.steps, p.rejected)
      else Outcome(t.end.err, p.steps, p.rejected)
  }

  /**
   * `add_clone_devices`: any failure to open the table returns 0; a read
   * error returns at once; every line read advances the line counter.
   */
  method AddCloneDevices(dir: OutputDir, h: Helpers, t: Table) returns (r: Status, rejected: seq<nat>)
    modifies dir
    ensures var o := RunTable(h, dir.io, old(dir.steps), t);
      r == o.status && dir.steps == o.steps && rejected == o.rejected
  {
    if t.Unopenable? {
      return 0, [];
    }
    ghost var done := dir.steps;
    ghost var results: seq<Status> := [];
    var cloneLine: nat := 0;
    var ret: Status := 0;
    rejected := [];
    while true
      invariant cloneLine <= |t.lines|
      invariant Drive(h, dir.io, done, t.lines[..cloneLine]) == Progress(ret, dir.steps, results, rejected)
      decreases |t.lines| - cloneLine
    {
      var rd := ReadStrippedLine(t, cloneLine);
      if rd.ReadError? {
        assert t.lines[..cloneLine] == t.lines;
        return rd.err, rejected;
      }
      if rd.AtEof? {
        break;
      }
      var line := rd.line;
      cloneLine := cloneLine + 1;
      assert t.lines[..cloneLine][..cloneLine - 1] == t.lines[..cloneLine - 1];
      if line == [] || line[0] == '#' {
        continue;
      }
      var fields := ScanFields(line);
      if |fields| < 4 || |fields| > 5 {
        rejected := rejected + [cloneLine];
        continue;
      }
      var k := GenerateCloneUnits(dir, h, fields[0], fields[1], fields[2], fields[3],
                                  if |fields| == 5 then Some(fields[4]) else None);
      ret := Gather(ret, k);
      results := results + [k];
    }
    assert t.lines[..cloneLine] == t.lines;
    r := ret;
  }

  // Reference definitions, each folding from the front of the table.

  /** The accepted entries of `lines`, in order. */
  function Entries(lines: seq<string>): seq<Entry> {
    if lines == [] then [] else EntryOf(lines[0]) + Entries(lines[1..])
  }

  /** The entry a line gives, if it gives one. */
  function EntryOf(line: string): seq<Entry> {
    if Classify(line).Accepted? then [Classify(line).entry] else []
  }

  /** The results and the log of generating the units of `es` one after the other. */
  datatype Batch = Batch(results: seq<Status>, steps: seq<Step>)

  function RunEntries(h: Helpers, io: Io, done: seq<Step>, es: seq<Entry>): Batch
    decreases |es|
  {
    if es == [] then Batch([], done)
    else
      var o := Generate(h, io, done, es[0]);
      var rest := RunEntries(h, io, o.steps, es[1..]);
      Batch([o.status] + rest.results, rest.steps)
  }

  /** The first negative status of `rs`, or 0 if there is none. */
  function FirstNegative(rs: seq<Status>): Status {
    if rs == [] then 0 else if rs[0] < 0 then rs[0] else FirstNegative(rs[1..])
  }

  /** Entries of a table split in two are the entries of each part. */
  lemma {:induction false} EntriesAppend(a: seq<string>, b: seq<string>)
    ensures Entries(a + b) == Entries(a) + Entries(b)
    decreases |a|
  {
    if a != [] {
      assert (a + b)[0] == a[0];
      assert (a + b)[1..] == a[1..] + b;
      EntriesAppend(a[1..], b);
    } else {
      assert a + b == b;
    }
  }

  lemma {:induction false} RunEntriesSnoc(h: Helpers, io: Io, done: seq<Step>, es: seq<Entry>, e: Entry)
    ensures var b := RunEntries(h, io, done, es);
      var o := Generate(h, io, b.steps, e);
      RunEntries(h, io, done, es + [e]) == Batch(b.results + [o.status], o.steps)
    decreases |es|
  {
    if es == [] {
      assert es + [e] == [e];
    } else {
      var o := Generate(h, io, done, es[0]);
      assert (es + [e])[1..] == es[1..] + [e];
      RunEntriesSnoc(h, io, o.steps, es[1..], e);
    }
  }

  /** Gathering keeps the first negative status. */
  lemma {:induction false} GatherFirstNegative(rs: seq<Status>, r: Status)
    ensures FirstNegative(rs + [r]) == Gather(FirstNegative(rs), r)
    decreases |rs|
  {
    if rs != [] {
      assert (rs + [r])[1..] == rs[1..] + [r];
      GatherFirstNegative(rs[1..], r);
    }
  }

  /**
   * Every accepted entry is generated, in table order, whatever earlier
   * entries did: the log and the results of the loop are those of
   * generating the table's entries one after the other; ignored and
   * malformed lines add nothing. The gathered status is the first negative
   * result, or 0 if there is none.
   */
  lemma {:induction false} DriveRunsEveryEntry(h: Helpers, io: Io, done: seq<Step>, lines: seq<string>)
    ensures var p, b := Drive(h, io, done, lines), RunEntries(h, io, done, Entries(lines));
      p.steps == b.steps && p.results == b.results && p.ret == FirstNegative(p.results)
    decreases |lines|
  {
    if lines != [] {
      var init, last := lines[..|lines| - 1], lines[|lines| - 1];
      assert lines == init + [last];
      DriveRunsEveryEntry(h, io, done, init);
      EntriesAppend(init, [last]);
      assert Entries([last]) == EntryOf(last) by {
        assert [last][1..] == [];
      }
      var p := Drive(h, io, done, init);
      match Classify(last)
      case Ignored =>
        assert Entries(lines) == Entries(init);
      case Malformed =>
        assert Entries(lines) == Entries(init);
      case Accepted(e) =>
        RunEntriesSnoc(h, io, done, Entries(init), e);
        GatherFirstNegative(p.results, Generate(h, io, p.steps, e).status);
    }
  }

  /** The 1-based numbers of the malformed lines of `lines`, in order. */
  function MalformedNumbers(lines: seq<string>): seq<nat>
    decreases |lines|
  {
    if lines == [] then []
    else
      MalformedNumbers(lines[..|lines| - 1])
      + if Classify(lines[|lines| - 1]).Malformed? then [|lines|] else []
  }

  /** The loop rejects exactly the malformed lines, numbering every line read. */
  lemma {:induction false} DriveRejects(h: Helpers, io: Io, done: seq<Step>, lines: seq<string>)
    ensures Drive(h, io, done, lines).rejected == MalformedNumbers(lines)
    decreases |lines|
  {
    if lines != [] {
      DriveRejects(h, io, done, lines[..|lines| - 1]);
    }
  }

  /** The malformed line numbers are exactly those of the malformed lines. */
  lemma {:induction false} MalformedNumbersExactly(lines: seq<string>)
    ensures forall n: int :: n in MalformedNumbers(lines) <==>
      1 <= n <= |lines| && Classify(lines[n - 1]).Malformed?
    decreases |lines|
  {
    if lines != [] {
      var init, last := lines[..|lines| - 1], lines[|lines| - 1];
      MalformedNumbersExactly(init);
      var before, ms := MalformedNumbers(init), MalformedNumbers(lines);
      var bad := Classify(last).Malformed?;
      assert ms == before + if bad then [|lines|] else [];
      forall n: int ensures n in ms <==> 1 <= n <= |lines| && Classify(lines[n - 1]).Malformed? {
        if 1 <= n <= |init| {
          assert lines[n - 1] == init[n - 1];
        } else if n == |lines| {
          assert lines[n - 1] == last;
          assert n !in before;
        } else {
          assert n !in before;
        }
      }
    }
  }

  /** The malformed line numbers are in increasing order. */
  lemma {:induction false} MalformedNumbersIncreasing(lines: seq<string>)
    ensures forall i, j :: 0 <= i < j < |MalformedNumbers(lines)| ==>
      MalformedNumbers(lines)[i] < MalformedNumbers(lines)[j]
    decreases |lines|
  {
    if lines != [] {
      var init := lines[..|lines| - 1];
      MalformedNumbersIncreasing(init);
      MalformedNumbersBounded(init);
    }
  }

  /** Every malformed line number is the number of a line. */
  lemma {:induction false} MalformedNumbersBounded(lines: seq<string>)
    ensures forall i :: 0 <= i < |MalformedNumbers(lines)| ==> 1 <= MalformedNumbers(lines)[i] <= |lines|
    decreases |lines|
  {
    if lines != [] {
      MalformedNumbersBounded(lines[..|lines| - 1]);
    }
  }

  /**
   * The line counter counts every line read, ignored ones included: the
   * rejected line numbers are, in increasing order, exactly the 1-based
   * numbers of the malformed lines.
   */
  lemma RejectedLines(h: Helpers, io: Io, done: seq<Step>, lines: seq<string>)
    ensures forall n: int :: n in Drive(h, io, done, lines).rejected <==>
      1 <= n <= |lines| && Classify(lines[n - 1]).Malformed?
    ensures forall i, j :: 0 <= i < j < |Drive(h, io, done, lines).rejected| ==>
      Drive(h, io, done, lines).rejected[i] < Drive(h, io, done, lines).rejected[j]
  {
    DriveRejects(h, io, done, lines);
    MalformedNumbersExactly(lines);
    MalformedNumbersIncreasing(lines);
  }

  /**
   * Inserting an ignored or malformed line anywhere in the table changes
   * neither the status, nor what is written, nor the entries' results.
   */
  lemma IgnoredLineNeutral(h: Helpers, io: Io, done: seq<Step>, a: seq<string>, line: string, b: seq<string>)
    requires !Classify(line).Accepted?
    ensures var p, q := Drive(h, io, done, a + [line] + b), Drive(h, io, done, a + b);
      p.ret == q.ret && p.steps == q.steps && p.results == q.results
  {
    EntriesSkip(a, line, b);
    DriveRunsEveryEntry(h, io, done, a + [line] + b);
    DriveRunsEveryEntry(h, io, done, a + b);
  }

  /** A line that is not an entry contributes no entry, wherever it stands. */
  lemma {:induction false} EntriesSkip(a: seq<string>, line: string, b: seq<string>)
    requires !Classify(line).Accepted?
    ensures Entries(a + [line] + b) == Entries(a + b)
    decreases |a|
  {
    var l, r := a + [line] + b, a + b;
    if a == [] {
      assert l == [line] + b && l[0] == line && l[1..] == b;
      assert r == b;
    } else {
      assert l[0] == a[0] && l[1..] == a[1..] + [line] + b;
      assert r[0] == a[0] && r[1..] == a[1..] + b;
      EntriesSkip(a[1..], line, b);
    }
  }

  /**
   * The outcome of the whole table: a table that cannot be opened, for
   * whatever reason, is success with nothing written; otherwise every entry
   * of the lines read is generated in order, and the status is the first
   * negative entry result, or 0, when reading reaches the end, but the read
   * error itself when reading fails, whatever was gathered before it.
   */
  lemma TableOutcome(h: Helpers, io: Io, done: seq<Step>, t: Table)
    ensures t.Unopenable? ==> RunTable(h, io, done, t) == Outcome(0, done, [])
    ensures t.Readable? ==>
      var o, b := RunTable(h, io, done, t), RunEntries(h, io, done, Entries(t.lines));
      && o.steps == b.steps
      && o.status == (if t.end.ReadFailed? then t.end.err else FirstNegative(b.results))
  {
    if t.Readable? {
      DriveRunsEveryEntry(h, io, done, t.lines);
    }
  }

  /**
   * A line of six words is an entry, not a malformed line: its sixth word is
   * dropped.
   */
  lemma SixWordsAccepted()
    ensures Classify("n s d m o x") == Accepted(Entry("n", "s", "d", "m", Some("o")))
  {
    var ws := ["n", "s", "d", "m", "o", "x"];
    assert Join(ws) == "n s d m o x";
    TokensJoin(ws);
    ClassifyMeaning("n s d m o x");
  }

  /** A line of three words is malformed. */
  lemma ThreeWordsMalformed()
    ensures Classify("a b c") == Malformed
  {
    var ws := ["a", "b", "c"];
    assert Join(ws) == "a b c";
    TokensJoin(ws);
    ClassifyMeaning("a b c");
  }

  /** A line of four words is an entry without options. */
  lemma FourWordsAccepted()
    ensures Classify("n s d m") == Accepted(Entry("n", "s", "d", "m", None))
  {
    var ws := ["n", "s", "d", "m"];
    assert Join(ws) == "n s d m";
    TokensJoin(ws);
    ClassifyMeaning("n s d m");
  }

  /**
   * A table of a malformed line and then an entry: the first is rejected as
   * line 1, and the status and the log are those of generating the entry
   * alone.
   */
  lemma MalformedThenEntry(h: Helpers, io: Io, done: seq<Step>, bad: string, good: string)
    requires Classify(bad).Malformed? && Classify(good).Accepted?
    ensures var g := Generate(h, io, done, Classify(good).entry);
      RunTable(h, io, done, Readable([bad, good], Eof)) == Outcome(g.status, g.steps, [1])
  {
    var lines := [bad, good];
    assert lines[..1] == [bad];
    assert lines[..1][..0] == [];
    assert Drive(h, io, done, [bad]) == Progress(0, done, [], [1]);
    var g := Generate(h, io, done, Classify(good).entry);
    assert Drive(h, io, done, lines) == Progress(Gather(0, g.status), g.steps, [g.status], [1]);
  }

  /**
   * A table of a three-word line and a four-word line: the first is
   * rejected as line 1, the second is generated, and the status is the
   * second's result alone, 0 when its units were written.
   */
  lemma MalformedLineKeepsStatus(h: Helpers, io: Io, done: seq<Step>)
    ensures var o, g := RunTable(h, io, done, Readable(["a b c", "n s d m"], Eof)),
                        Generate(h, io, done, Entry("n", "s", "d", "m", None));
      o == Outcome(g.status, g.steps, [1])
  {
    ThreeWordsMalformed();
    FourWordsAccepted();
    MalformedThenEntry(h, io, done, "a b c", "n s d m");
  }
}
