/** Reading the lines of a history file from last to first in fixed-size chunks. */
module ReverseLines {
  import opened Wrappers

  type Byte = b: int | 0 <= b < 256

  const NEWLINE: Byte := 10
  const RETURN: Byte := 13

  function Min(a: int, b: int): int {
    if a <= b then a else b
  }

  /** `bytes.split(b"\n")`: the pieces between newlines, never none. */
  function Split(s: seq<Byte>): (pieces: seq<seq<Byte>>)
    ensures |pieces| >= 1
  {
    if s == [] then [[]]
    else
      var rest := Split(s[1..]);
      if s[0] == NEWLINE then [[]] + rest else [[s[0]] + rest[0]] + rest[1..]
  }

  function Join(pieces: seq<seq<Byte>>): seq<Byte>
    requires |pieces| >= 1
  {
    if |pieces| == 1 then pieces[0] else pieces[0] + [NEWLINE] + Join(pieces[1..])
  }

  /** `Split` is the one way of cutting a file into newline-free pieces that joins back to it. */
  lemma {:induction false} SplitJoin(s: seq<Byte>)
    ensures Join(Split(s)) == s
    ensures forall i :: 0 <= i < |Split(s)| ==> NEWLINE !in Split(s)[i]
  {
    if s != [] {
      SplitJoin(s[1..]);
      var rest := Split(s[1..]);
      if s[0] == NEWLINE {
        assert Split(s)[1..] == rest;
      } else {
        assert Split(s)[1..] == rest[1..];
      }
    }
  }

  lemma {:induction false} JoinSplit(pieces: seq<seq<Byte>>)
    requires |pieces| >= 1
    requires forall i :: 0 <= i < |pieces| ==> NEWLINE !in pieces[i]
    ensures Split(Join(pieces)) == pieces
  {
    SplitWhole(pieces[0]);
    if |pieces| > 1 {
      JoinSplit(pieces[1..]);
      var tail := [NEWLINE] + Join(pieces[1..]);
      assert tail[1..] == Join(pieces[1..]);
      assert Split(tail) == [[]] + pieces[1..];
      assert pieces[0] + tail == Join(pieces);
      hide Split, Join;
      SplitConcat(pieces[0], tail);
      assert pieces[0] + [] == pieces[0];
    }
  }

  lemma {:induction false} SplitWhole(s: seq<Byte>)
    requires NEWLINE !in s
    ensures Split(s) == [s]
  {
    if s != [] {
      SplitWhole(s[1..]);
      assert [s[0]] + s[1..] == s;
    }
  }

  /** Two lists of pieces, the last of the left and the first of the right made one. */
  function Glue(l: seq<seq<Byte>>, r: seq<seq<Byte>>): seq<seq<Byte>>
    requires |l| >= 1 && |r| >= 1
  {
    l[..|l| - 1] + [l[|l| - 1] + r[0]] + r[1..]
  }

  lemma GlueCons(c: Byte, l: seq<seq<Byte>>, r: seq<seq<Byte>>)
    requires |l| >= 1 && |r| >= 1
    ensures Glue([[]] + l, r) == [[]] + Glue(l, r)
    ensures Glue([[c] + l[0]] + l[1..], r) == [[c] + Glue(l, r)[0]] + Glue(l, r)[1..]
  {
    var g := Glue(l, r);
    var headed := [[c] + l[0]] + l[1..];
    assert headed[|headed| - 1] + r[0] == if |l| == 1 then [c] + (l[0] + r[0]) else l[|l| - 1] + r[0];
  }

  lemma SplitCons(c: Byte, s: seq<Byte>)
    ensures Split([c] + s) == if c == NEWLINE then [[]] + Split(s) else [[c] + Split(s)[0]] + Split(s)[1..]
  {
    assert ([c] + s)[1..] == s;
  }

  /** Splitting a concatenation glues the two splits. */
  lemma {:induction false} SplitConcat(a: seq<Byte>, b: seq<Byte>)
    ensures Split(a + b) == Glue(Split(a), Split(b))
  {
    if a == [] {
      assert a + b == b;
      assert [] + Split(b)[0] == Split(b)[0];
    } else {
      SplitConcat(a[1..], b);
      SplitCons(a[0], a[1..]);
      SplitCons(a[0], a[1..] + b);
      assert a + b == [a[0]] + (a[1..] + b) && a == [a[0]] + a[1..];
      GlueCons(a[0], Split(a[1..]), Split(b));
      hide Glue, Split;
    }
  }

  /** A line `bytes.strip` leaves nothing of. */
  predicate IsBlank(line: seq<Byte>) {
    forall i :: 0 <= i < |line| ==> line[i] in {9, 10, 11, 12, 13, 32}
  }

  function StripReturns(line: seq<Byte>): seq<Byte> {
    if line != [] && line[|line| - 1] == RETURN then StripReturns(line[..|line| - 1]) else line
  }

  /** What one line contributes: nothing if blank, else its text without trailing carriage returns. */
  function Yielded(line: seq<Byte>, decode: seq<Byte> -> string): seq<string> {
    if IsBlank(line) then [] else [decode(StripReturns(line))]
  }

  /** The reference: every line contributes in turn, the last line first. */
  function NewestFirst(lines: seq<seq<Byte>>, decode: seq<Byte> -> string): seq<string> {
    if lines == [] then []
    else Yielded(lines[|lines| - 1], decode) + NewestFirst(lines[..|lines| - 1], decode)
  }

  lemma {:induction false} NewestConcat(a: seq<seq<Byte>>, b: seq<seq<Byte>>, decode: seq<Byte> -> string)
    ensures NewestFirst(a + b, decode) == NewestFirst(b, decode) + NewestFirst(a, decode)
  {
    if b == [] {
      assert a + b == a;
    } else {
      assert (a + b)[..|a + b| - 1] == a + b[..|b| - 1];
      NewestConcat(a, b[..|b| - 1], decode);
    }
  }

  /** Reading one more chunk turns its first piece into the new remainder and completes the others. */
  lemma ChunkStep(before: seq<Byte>, chunk: seq<Byte>)
    ensures var pieces := Split(chunk);
            Split(before + chunk) == Split(before + pieces[0]) + pieces[1..] && NEWLINE !in pieces[0]
  {
    var pieces := Split(chunk);
    SplitJoin(chunk);
    SplitWhole(pieces[0]);
    SplitConcat(before, chunk);
    SplitConcat(before, pieces[0]);
  }

  /** Reading the chunk before what is already split moves its complete lines over. */
  lemma ReadStep(file: seq<Byte>, position: nat, readSize: nat, remainder: seq<Byte>, complete: seq<seq<Byte>>)
    requires position + readSize <= |file|
    requires Split(file) == Split(file[..position + readSize] + remainder) + complete
    ensures var pieces := Split(file[position..position + readSize] + remainder);
            NEWLINE !in pieces[0] && Split(file) == Split(file[..position] + pieces[0]) + (pieces[1..] + complete)
  {
    var chunk := file[position..position + readSize] + remainder;
    assert file[..position + readSize] + remainder == file[..position] + chunk;
    ChunkStep(file[..position], chunk);
    hide Split;
  }

  /** The generator's inner loop over the complete lines of one chunk. */
  method YieldReversed(lines: seq<seq<Byte>>, decode: seq<Byte> -> string) returns (yielded: seq<string>)
    ensures yielded == NewestFirst(lines, decode)
  {
    yielded := [];
    assert lines[|lines|..] == [];
    for i := |lines| downto 0
      invariant yielded == NewestFirst(lines[i..], decode)
    {
      assert [lines[i]] + lines[i + 1..] == lines[i..];
      NewestConcat([lines[i]], lines[i + 1..], decode);
      assert NewestFirst([lines[i]], decode) == Yielded(lines[i], decode);
      if !IsBlank(lines[i]) {
        yielded := yielded + [decode(StripReturns(lines[i]))];
      }
    }
    assert lines[0..] == lines;
  }

  /** For every file and every chunk size the reader yields the lines of the newline split, newest first. */
  method IterLinesReverse(file: seq<Byte>, chunkSize: int, decode: seq<Byte> -> string) returns (yielded: seq<string>)
    requires chunkSize >= 1
    ensures yielded == NewestFirst(Split(file), decode)
  {
    hide Split;
    var position := |file|;
    var remainder: seq<Byte> := [];
    yielded := [];
    ghost var complete: seq<seq<Byte>> := [];
    assert file[..position] + remainder == file;
    while position > 0
      invariant 0 <= position <= |file|
      invariant NEWLINE !in remainder
      invariant Split(file) == Split(file[..position] + remainder) + complete
      invariant yielded == NewestFirst(complete, decode)
      decreases position
    {
      var readSize := Min(chunkSize, position);
      position := position - readSize;
      var chunk := file[position..position + readSize] + remainder;
      ReadStep(file, position, readSize, remainder, complete);
      var lines := Split(chunk);
      remainder, lines := lines[0], lines[1..];
      var newer := YieldReversed(lines, decode);
      NewestConcat(lines, complete, decode);
      yielded, complete := yielded + newer, lines + complete;
    }
    assert file[..0] + remainder == remainder;
    SplitWhole(remainder);
    NewestConcat([remainder], complete, decode);
    assert NewestFirst([remainder], decode) == Yielded(remainder, decode);
    if !IsBlank(remainder) {
      yielded := yielded + [decode(StripReturns(remainder))];
    }
  }

  /** The lines that parse into a wanted entry. */
  function Wanted<Entry>(lines: seq<string>, parse: string -> Option<Entry>, keep: Entry -> bool): seq<Entry> {
    if lines == [] then []
    else
      var rest := Wanted(lines[..|lines| - 1], parse, keep);
      match parse(lines[|lines| - 1])
      case Some(e) => if keep(e) then rest + [e] else rest
      case None => rest
  }

  function Unparsed<Entry>(lines: seq<string>, parse: string -> Option<Entry>): nat {
    if lines == [] then 0
    else Unparsed(lines[..|lines| - 1], parse) + (if parse(lines[|lines| - 1]).None? then 1 else 0)
  }

  lemma {:induction false} WantedPrefix<Entry>(lines: seq<string>, n: nat, parse: string -> Option<Entry>,
                                               keep: Entry -> bool)
    requires n <= |lines|
    ensures Wanted(lines[..n], parse, keep) <= Wanted(lines, parse, keep)
  {
    if n == |lines| {
      assert lines[..n] == lines;
    } else {
      assert lines[..|lines| - 1][..n] == lines[..n];
      WantedPrefix(lines[..|lines| - 1], n, parse, keep);
    }
  }

  const HISTORY_MAX_LIMIT: int := 1000
  const CHUNK: int := 65536

  function Clamped(limit: int): int {
    if limit < 1 then 1 else Min(limit, HISTORY_MAX_LIMIT)
  }

  /** The consuming loop: lines are taken until `cap` entries have been kept. */
  method TakeEntries<Entry>(lines: seq<string>, cap: nat, parse: string -> Option<Entry>, keep: Entry -> bool)
    returns (entries: seq<Entry>, skipped: nat, seen: nat)
    requires cap >= 1
    ensures seen <= |lines| && |entries| <= cap
    ensures entries == Wanted(lines[..seen], parse, keep)
    ensures skipped == Unparsed(lines[..seen], parse)
    ensures |entries| < cap ==> seen == |lines|
    ensures |entries| == cap ==> seen > 0 && |Wanted(lines[..seen - 1], parse, keep)| == cap - 1
  {
    entries, skipped, seen := [], 0, 0;
    while seen < |lines|
      invariant seen <= |lines| && |entries| < cap
      invariant entries == Wanted(lines[..seen], parse, keep)
      invariant skipped == Unparsed(lines[..seen], parse)
    {
      assert lines[..seen + 1][..seen] == lines[..seen];
      var parsed := parse(lines[seen]);
      seen := seen + 1;
      if parsed.None? {
        skipped := skipped + 1;
      } else if keep(parsed.value) {
        entries := entries + [parsed.value];
        if |entries| >= cap {
          return;
        }
      }
    }
  }

  const HISTORY_STATUSES := {"queued", "sent", "muted"}

  datatype InvalidFilter = InvalidEvent | InvalidStatus

  datatype Page<Entry> = Page(found: bool, entries: seq<Entry>, skipped: nat)

  /** A filter left empty is no filter. */
  function Given(filter: Option<string>): Option<string> {
    if filter == Some("") then None else filter
  }

  function Passes<Entry>(event: Option<string>, status: Option<string>, eventOf: Entry -> string,
                         statusOf: Entry -> string)
    : Entry -> bool
  {
    (e: Entry) =>
      && (Given(event).Some? ==> eventOf(e) == event.value)
      && (Given(status).Some? ==> statusOf(e) == status.value)
  }

  /**
   The history page: refused if a filter is malformed, empty if there is no file, and else the newest entries
   that pass the filters, cut at the clamped limit, together with the number of unreadable lines among the
   `seen` lines read up to the cut.
   */
  method ReadHistory<Entry>(file: Option<seq<Byte>>, limit: int, event: Option<string>, status: Option<string>,
                            validEvent: string -> bool, decode: seq<Byte> -> string, parse: string -> Option<Entry>,
                            eventOf: Entry -> string, statusOf: Entry -> string)
    returns (r: Result<Page<Entry>, InvalidFilter>, seen: nat)
    ensures r == Err(InvalidEvent) <==> Given(event).Some? && !validEvent(event.value)
    ensures r == Err(InvalidStatus) <==>
              && (Given(event).Some? ==> validEvent(event.value))
              && Given(status).Some? && status.value !in HISTORY_STATUSES
    ensures r.Ok? && file.None? ==> r.value == Page(false, [], 0)
    ensures r.Ok? && file.Some? ==>
              var all, keep := NewestFirst(Split(file.value), decode), Passes(event, status, eventOf, statusOf);
              && r.value.found && seen <= |all|
              && r.value.entries <= Wanted(all, parse, keep)
              && |r.value.entries| == Min(Clamped(limit), |Wanted(all, parse, keep)|)
              && r.value.skipped == Unparsed(all[..seen], parse)
              && (|r.value.entries| < Clamped(limit) ==> seen == |all|)
              && (|r.value.entries| == Clamped(limit) ==>
                    seen > 0 && |Wanted(all[..seen - 1], parse, keep)| == |r.value.entries| - 1)
  {
    seen := 0;
    if Given(event).Some? && !validEvent(event.value) {
      return Err(InvalidEvent), seen;
    }
    if Given(status).Some? && status.value !in HISTORY_STATUSES {
      return Err(InvalidStatus), seen;
    }
    if file.None? {
      return Ok(Page(false, [], 0)), seen;
    }
    var keep := Passes(event, status, eventOf, statusOf);
    var lines := IterLinesReverse(file.value, CHUNK, decode);
    hide Split, NewestFirst, Passes;
    var entries, skipped;
    entries, skipped, seen := TakeEntries(lines, Clamped(limit), parse, keep);
    WantedPrefix(lines, seen, parse, keep);
    assert lines[..|lines|] == lines;
    r := Ok(Page(true, entries, skipped));
  }

  // ----- what the reader and the page mean -----

  /** Newest first, two files' lines in a row give the later one's first; a line gives itself, unless it is blank. */
  lemma LineYields(body: seq<Byte>, tail: seq<Byte>, decode: seq<Byte> -> string)
    requires body == [] || body[|body| - 1] != 13
    requires forall i :: 0 <= i < |tail| ==> tail[i] == 13
    ensures NewestFirst([body + tail], decode) ==
            if forall i :: 0 <= i < |body| ==> body[i] in {9, 10, 11, 12, 13, 32} then [] else [decode(body)]
  {
    StripsReturns(body, tail);
    var line := body + tail;
    var lines := [line];
    assert lines[..0] == [] && NewestFirst(lines, decode) == Yielded(line, decode);
    if IsBlank(line) {
      forall i | 0 <= i < |body| ensures body[i] in {9, 10, 11, 12, 13, 32} {
        assert line[i] == body[i];
      }
    } else {
      assert forall k :: |body| <= k < |line| ==> line[k] == tail[k - |body|];
      var i :| 0 <= i < |line| && line[i] !in {9, 10, 11, 12, 13, 32};
      assert line[i] == body[i];
    }
  }

  lemma {:induction false} StripsReturns(body: seq<Byte>, tail: seq<Byte>)
    requires body == [] || body[|body| - 1] != 13
    requires forall i :: 0 <= i < |tail| ==> tail[i] == 13
    ensures StripReturns(body + tail) == body
  {
    if tail == [] {
      assert body + tail == body;
    } else {
      var line := body + tail;
      assert line[..|line| - 1] == body + tail[..|tail| - 1] && line[|line| - 1] == tail[|tail| - 1];
      StripsReturns(body, tail[..|tail| - 1]);
    }
  }

  /** A line feed is what separates lines. */
  lemma LinesAre(file: seq<Byte>)
    ensures forall i :: 0 <= i < |Split(file)| ==> 10 !in Split(file)[i]
    ensures Split([10]) == [[], []]
  {
    SplitJoin(file);
    assert [10][1..] == [];
  }

  /** An entry is wanted exactly if some line parses to it and it passes, and as often; every other line is counted. */
  lemma {:induction false} EveryLineCounts<Entry>(lines: seq<string>, parse: string -> Option<Entry>,
                                                  keep: Entry -> bool)
    ensures forall e :: e in Wanted(lines, parse, keep) <==> keep(e) && exists l :: l in lines && parse(l) == Some(e)
    ensures |Wanted(lines, parse, (e: Entry) => true)| + Unparsed(lines, parse) == |lines|
  {
    if lines != [] {
      var before, last := lines[..|lines| - 1], lines[|lines| - 1];
      EveryLineCounts(before, parse, keep);
      assert lines == before + [last];
    }
  }

  /** At most a thousand entries, and at least one. */
  lemma LimitIs(limit: int)
    ensures 1 <= Clamped(limit) <= 1000
    ensures 1 <= limit <= 1000 ==> Clamped(limit) == limit
    ensures limit > 1000 ==> Clamped(limit) == 1000
    ensures limit < 1 ==> Clamped(limit) == 1
  {
  }

  /** An entry passes if it agrees with each filter that is not empty; a status is one of three. */
  lemma FiltersAre<Entry>(event: Option<string>, status: Option<string>, eventOf: Entry -> string,
                          statusOf: Entry -> string, e: Entry)
    ensures Passes(event, status, eventOf, statusOf)(e) <==>
            && (event == None || event == Some("") || eventOf(e) == event.value)
            && (status == None || status == Some("") || statusOf(e) == status.value)
    ensures forall s :: s in HISTORY_STATUSES <==> s == "queued" || s == "sent" || s == "muted"
  {
  }
}
