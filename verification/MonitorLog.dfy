/**
 The watch log: two generations of newline-terminated records, appended to in place, rotated by renaming
 and repaired after a crash at any byte.
 */
module MonitorLog {
  import opened Common

  const MAX_LOG: nat := 0x80_0000
  const MAX_BATCH: nat := 0x40_0000
  const NEWLINE: byte := 10

  type Line = seq<byte>
  type Id = seq<byte>

  /** `eventID`: the identity in a record, if it is a well-formed event. */
  type Identify = Line -> Option<Id>

  predicate NoNewline(s: seq<byte>) { forall i | 0 <= i < |s| :: s[i] != NEWLINE }

  /** A record as it can be written: some bytes without a newline, and an identity. */
  predicate IsRecord(idOf: Identify, line: Line) { line != [] && NoNewline(line) && idOf(line).Some? }

  function IdAt(idOf: Identify, line: Line): Id
    requires idOf(line).Some?
  {
    idOf(line).value
  }

  // ----- one file

  function Text(lines: seq<Line>): seq<byte> {
    if lines == [] then [] else Text(lines[..|lines| - 1]) + lines[|lines| - 1] + [NEWLINE]
  }

  function Total(lines: seq<Line>): nat {
    if lines == [] then 0 else Total(lines[..|lines| - 1]) + |lines[|lines| - 1]| + 1
  }

  lemma {:induction false} TextSize(lines: seq<Line>)
    ensures |Text(lines)| == Total(lines)
    decreases |lines|
  {
    if lines != [] { TextSize(lines[..|lines| - 1]); }
  }

  lemma TextWith(lines: seq<Line>, line: Line)
    ensures Text(lines + [line]) == Text(lines) + line + [NEWLINE]
    ensures Total(lines + [line]) == Total(lines) + |line| + 1
  {
    assert (lines + [line])[..|lines|] == lines;
  }

  /** A file's bytes are complete lines and a tail without a newline. */
  ghost predicate Parses(raw: seq<byte>, lines: seq<Line>, torn: seq<byte>) {
    raw == Text(lines) + torn && NoNewline(torn) && forall i | 0 <= i < |lines| :: NoNewline(lines[i])
  }

  lemma TextEnds(lines: seq<Line>)
    requires lines != []
    ensures Text(lines) != [] && Text(lines)[|Text(lines)| - 1] == NEWLINE
  {
  }

  lemma TornUnique(a: seq<byte>, s: seq<byte>, b: seq<byte>, t: seq<byte>)
    requires a + s == b + t && NoNewline(s) && NoNewline(t)
    requires a == [] || a[|a| - 1] == NEWLINE
    requires b == [] || b[|b| - 1] == NEWLINE
    ensures a == b && s == t
  {
    var all := a + s;
    assert forall k | |a| <= k < |all| :: all[k] == s[k - |a|];
    assert forall k | |b| <= k < |all| :: (b + t)[k] == t[k - |b|];
    assert a != [] ==> all[|a| - 1] == NEWLINE;
    assert b != [] ==> all[|b| - 1] == NEWLINE;
    assert a == all[..|a|] && b == all[..|b|] && s == all[|a|..] && t == all[|b|..];
  }

  lemma {:induction false} LinesUnique(x: seq<Line>, y: seq<Line>)
    requires Text(x) == Text(y)
    requires forall i | 0 <= i < |x| :: NoNewline(x[i])
    requires forall i | 0 <= i < |y| :: NoNewline(y[i])
    ensures x == y
    decreases |x|
  {
    if x == [] {
      if y != [] { TextEnds(y); }
    } else {
      TextEnds(x);
      var m, n := |x| - 1, |y| - 1;
      assert y != [];
      if m > 0 { TextEnds(x[..m]); }
      if n > 0 { TextEnds(y[..n]); }
      assert Text(x)[..|Text(x)| - 1] == Text(x[..m]) + x[m];
      assert Text(y)[..|Text(y)| - 1] == Text(y[..n]) + y[n];
      TornUnique(Text(x[..m]), x[m], Text(y[..n]), y[n]);
      LinesUnique(x[..m], y[..n]);
      assert x == x[..m] + [x[m]] && y == y[..n] + [y[n]];
    }
  }

  /** There is one way to read a file, so what a repair keeps is determined by its bytes. */
  lemma ParsesOnce(raw: seq<byte>, x: seq<Line>, s: seq<byte>, y: seq<Line>, t: seq<byte>)
    requires Parses(raw, x, s) && Parses(raw, y, t)
    ensures x == y && s == t
  {
    if x != [] { TextEnds(x); }
    if y != [] { TextEnds(y); }
    TornUnique(Text(x), s, Text(y), t);
    LinesUnique(x, y);
  }

  /** Reading a file: its complete lines and what a repair cuts off. */
  method Split(raw: seq<byte>) returns (lines: seq<Line>, torn: seq<byte>)
    ensures Parses(raw, lines, torn)
  {
    lines, torn := [], [];
    var i := 0;
    while i < |raw|
      invariant 0 <= i <= |raw|
      invariant Parses(raw[..i], lines, torn)
    {
      assert raw[..i + 1] == raw[..i] + [raw[i]];
      if raw[i] == NEWLINE {
        TextWith(lines, torn);
        lines, torn := lines + [torn], [];
      } else {
        torn := torn + [raw[i]];
      }
      i := i + 1;
    }
    assert raw[..|raw|] == raw;
  }

  // ----- two generations

  /** The complete records of the older and of the newer file. */
  datatype Generations = Generations(older: seq<Line>, newer: seq<Line>)

  function Kept(g: Generations): seq<Line> { g.older + g.newer }

  ghost predicate Has(idOf: Identify, lines: seq<Line>, id: Id) {
    exists i | 0 <= i < |lines| :: lines[i] != [] && idOf(lines[i]) == Some(id)
  }

  /** `seen` is exactly the set of the identities of `lines`. */
  ghost predicate IsSeen(idOf: Identify, lines: seq<Line>, seen: set<Id>) {
    forall id :: id in seen <==> Has(idOf, lines, id)
  }

  ghost predicate Distinct(idOf: Identify, lines: seq<Line>) {
    forall i, j | 0 <= i < j < |lines| :: idOf(lines[i]) != idOf(lines[j])
  }

  ghost predicate AllRecords(idOf: Identify, lines: seq<Line>) {
    forall i | 0 <= i < |lines| :: IsRecord(idOf, lines[i])
  }

  /** What every append, rotation and crash keeps. */
  ghost predicate LogOk(idOf: Identify, g: Generations) {
    && AllRecords(idOf, Kept(g)) && Distinct(idOf, Kept(g))
    && Total(g.older) <= MAX_LOG && Total(g.newer) <= MAX_LOG
  }

  function Rotated(g: Generations, total: nat): Generations {
    if Total(g.newer) + total > MAX_LOG then Generations(g.newer, []) else g
  }

  /** The records of `events` whose identity is not yet kept are added, in order. */
  ghost function Added(idOf: Identify, g: Generations, events: seq<Line>): (r: Generations)
    ensures r.older == g.older
  {
    if events == [] then g
    else
      var n := |events| - 1;
      var r := Added(idOf, g, events[..n]);
      if idOf(events[n]).Some? && Has(idOf, Kept(r), IdAt(idOf, events[n])) then r
      else Generations(r.older, r.newer + [events[n]])
  }

  /** The log after the first `m` events of a batch: a full log is rotated first, by the whole batch's size. */
  ghost function Appended(idOf: Identify, g: Generations, events: seq<Line>, m: nat): Generations
    requires m <= |events|
  {
    Added(idOf, Rotated(g, Total(events)), events[..m])
  }

  lemma RotatedOk(idOf: Identify, g: Generations, total: nat)
    requires LogOk(idOf, g)
    ensures LogOk(idOf, Rotated(g, total))
    ensures total <= MAX_LOG ==> Total(Rotated(g, total).newer) + total <= MAX_LOG
  {
    var r := Rotated(g, total);
    if r != g {
      var off := |g.older|;
      assert forall i | 0 <= i < |Kept(r)| :: Kept(r)[i] == Kept(g)[off + i];
    }
  }

  lemma OneAdded(idOf: Identify, g: Generations, e: Line)
    requires AllRecords(idOf, Kept(g)) && Distinct(idOf, Kept(g)) && IsRecord(idOf, e) &&
              !Has(idOf, Kept(g), IdAt(idOf, e))
    ensures var r := Generations(g.older, g.newer + [e]);
            AllRecords(idOf, Kept(r)) && Distinct(idOf, Kept(r)) && Kept(r) == Kept(g) + [e]
  {
    assert g.older + (g.newer + [e]) == (g.older + g.newer) + [e];
  }

  lemma {:induction false} AddedOk(idOf: Identify, g: Generations, events: seq<Line>)
    requires AllRecords(idOf, Kept(g)) && Distinct(idOf, Kept(g)) && AllRecords(idOf, events)
    ensures var r := Added(idOf, g, events);
            && AllRecords(idOf, Kept(r)) && Distinct(idOf, Kept(r))
            && Total(g.newer) <= Total(r.newer) <= Total(g.newer) + Total(events)
    decreases |events|
  {
    if events != [] {
      var n := |events| - 1;
      var r := Added(idOf, g, events[..n]);
      AddedOk(idOf, g, events[..n]);
      if !Has(idOf, Kept(r), IdAt(idOf, events[n])) {
        OneAdded(idOf, r, events[n]);
        TextWith(r.newer, events[n]);
      }
    }
  }

  lemma {:induction false} TotalPrefix(events: seq<Line>, m: nat)
    requires m <= |events|
    ensures Total(events[..m]) <= Total(events)
    decreases |events|
  {
    if m == |events| {
      assert events[..m] == events;
    } else {
      TotalPrefix(events[..|events| - 1], m);
      assert events[..|events| - 1][..m] == events[..m];
    }
  }

  /** Every point an append can reach is again a log of distinct records in two files of bounded size. */
  lemma AppendedOk(idOf: Identify, g: Generations, events: seq<Line>, m: nat)
    requires LogOk(idOf, g) && AllRecords(idOf, events) && Total(events) <= MAX_BATCH && m <= |events|
    ensures LogOk(idOf, Appended(idOf, g, events, m))
  {
    RotatedOk(idOf, g, Total(events));
    AddedOk(idOf, Rotated(g, Total(events)), events[..m]);
    TotalPrefix(events, m);
  }

  lemma SeenWith(idOf: Identify, lines: seq<Line>, e: Line, seen: set<Id>)
    requires IsSeen(idOf, lines, seen) && e != [] && idOf(e).Some?
    ensures IsSeen(idOf, lines + [e], seen + {IdAt(idOf, e)})
  {
    var all := lines + [e];
    forall id ensures id in seen + {IdAt(idOf, e)} <==> Has(idOf, all, id) {
      if Has(idOf, lines, id) {
        var i :| 0 <= i < |lines| && lines[i] != [] && idOf(lines[i]) == Some(id);
        assert all[i] == lines[i];
      }
      assert all[|lines|] == e;
    }
  }

  // ----- the log object

  /** Complete lines that `loadLog` accepts. */
  ghost predicate Readable(idOf: Identify, lines: seq<Line>) {
    forall i | 0 <= i < |lines| :: lines[i] == [] || idOf(lines[i]).Some?
  }

  datatype FileRead = FileRead(text: seq<byte>, ids: set<Id>)

  /** What reading one file gives: an error for a file too long or a bad complete record, else its repair. */
  ghost predicate IsRead(idOf: Identify, raw: seq<byte>, lines: seq<Line>, r: Option<FileRead>) {
    && (r.Some? <==> |raw| <= MAX_LOG && Readable(idOf, lines))
    && (r.Some? ==> r.value.text == Text(lines) && IsSeen(idOf, lines, r.value.ids))
  }

  method ReadFile(idOf: Identify, raw: seq<byte>) returns (r: Option<FileRead>)
    ensures forall lines, torn | Parses(raw, lines, torn) :: IsRead(idOf, raw, lines, r)
  {
    if |raw| > MAX_LOG {
      return None;
    }
    var lines, torn := Split(raw);
    r := ReadLines(idOf, raw[..|raw| - |torn|], lines);
    assert raw[..|raw| - |torn|] == Text(lines);
    forall l, t | Parses(raw, l, t) ensures IsRead(idOf, raw, l, r) {
      ParsesOnce(raw, lines, torn, l, t);
    }
  }

  method ReadLines(idOf: Identify, text: seq<byte>, lines: seq<Line>) returns (r: Option<FileRead>)
    ensures r.Some? <==> Readable(idOf, lines)
    ensures r.Some? ==> r.value.text == text && IsSeen(idOf, lines, r.value.ids)
  {
    var ids: set<Id> := {};
    var i := 0;
    while i < |lines|
      invariant 0 <= i <= |lines|
      invariant Readable(idOf, lines[..i]) && IsSeen(idOf, lines[..i], ids)
    {
      assert lines[..i + 1] == lines[..i] + [lines[i]];
      if lines[i] != [] {
        if idOf(lines[i]).None? {
          return None;
        }
        SeenWith(idOf, lines[..i], lines[i], ids);
        ids := ids + {idOf(lines[i]).value};
      } else {
        SeenBlank(idOf, lines[..i], ids);
      }
      i := i + 1;
    }
    assert lines[..|lines|] == lines;
    r := Some(FileRead(text, ids));
  }

  lemma SeenBlank(idOf: Identify, lines: seq<Line>, seen: set<Id>)
    requires IsSeen(idOf, lines, seen)
    ensures IsSeen(idOf, lines + [[]], seen)
  {
    var all: seq<Line> := lines + [[]];
    forall id ensures id in seen <==> Has(idOf, all, id) {
      if Has(idOf, lines, id) {
        var i :| 0 <= i < |lines| && lines[i] != [] && idOf(lines[i]) == Some(id);
        assert all[i] == lines[i];
      }
      assert all[|lines|] == [];
    }
  }

  lemma SeenBoth(idOf: Identify, x: seq<Line>, y: seq<Line>, a: set<Id>, b: set<Id>)
    requires IsSeen(idOf, x, a) && IsSeen(idOf, y, b)
    ensures IsSeen(idOf, x + y, a + b)
  {
    var all := x + y;
    forall id ensures id in a + b <==> Has(idOf, all, id) {
      if Has(idOf, x, id) {
        var i :| 0 <= i < |x| && x[i] != [] && idOf(x[i]) == Some(id);
        assert all[i] == x[i];
      }
      if Has(idOf, y, id) {
        var i :| 0 <= i < |y| && y[i] != [] && idOf(y[i]) == Some(id);
        assert all[|x| + i] == y[i];
      }
    }
  }

  /** How a call that writes ends: refused before any write, cut short by the death of the process, or done. */
  datatype Outcome = Refused | Died | Done

  predicate Acceptable(idOf: Identify, events: seq<Line>) {
    Total(events) <= MAX_BATCH && forall i | 0 <= i < |events| :: idOf(events[i]).Some?
  }

  /** Everything an append can leave behind: nothing done, or the batch up to event `m`. */
  ghost predicate Reached(idOf: Identify, g: Generations, events: seq<Line>, g': Generations) {
    g' == g || exists m | 0 <= m <= |events| :: g' == Appended(idOf, g, events, m)
  }

  class Log {
    const idOf: Identify
    var older: seq<byte>
    var newer: seq<byte>
    var size: nat
    var seen: set<Id>
    ghost var g: Generations

    /** The two files hold `g`, and the newer one may end in a torn record. */
    ghost predicate OnDisk(torn: seq<byte>)
      reads this
    {
      && Parses(older, g.older, []) && Parses(newer, g.newer, torn) && LogOk(idOf, g) && |newer| <= MAX_LOG
    }

    ghost predicate Valid()
      reads this
    {
      OnDisk([]) && size == |newer| && IsSeen(idOf, Kept(g), seen)
    }

    /** A new directory. */
    constructor (idOf: Identify)
      ensures Valid() && this.idOf == idOf && g == Generations([], [])
    {
      this.idOf := idOf;
      older, newer, size, seen := [], [], 0, {};
      g := Generations([], []);
    }

    /** `loadLog`: after a crash that left `torn`, exactly the whole records remain, on disk and in `seen`. */
    method Load(ghost torn: seq<byte>) returns (ok: bool)
      requires OnDisk(torn)
      modifies this
      ensures ok && Valid() && g == old(g)
    {
      var first := ReadFile(idOf, older);
      var second := ReadFile(idOf, newer);
      assert IsRead(idOf, older, g.older, first) && IsRead(idOf, newer, g.newer, second);
      TextSize(g.older);
      KeptReadable(idOf, g);
      if first.None? || second.None? {
        return false;
      }
      SeenBoth(idOf, g.older, g.newer, first.value.ids, second.value.ids);
      older, newer := first.value.text, second.value.text;
      size, seen := |newer|, first.value.ids + second.value.ids;
      assert Text(g.older) + [] == Text(g.older) && Text(g.newer) + [] == Text(g.newer);
      ok := true;
    }

    /** The size and identity checks before any write. */
    method Preflight(events: seq<Line>) returns (total: nat, ok: bool)
      ensures ok <==> Acceptable(idOf, events)
      ensures ok ==> total == Total(events)
    {
      total := 0;
      var i := 0;
      while i < |events|
        invariant 0 <= i <= |events|
        invariant total == Total(events[..i]) <= MAX_BATCH
        invariant forall j | 0 <= j < i :: idOf(events[j]).Some?
      {
        assert events[..i + 1] == events[..i] + [events[i]];
        TextWith(events[..i], events[i]);
        TotalPrefix(events, i + 1);
        total := total + |events[i]| + 1;
        if total > MAX_BATCH || idOf(events[i]).None? {
          return total, false;
        }
        i := i + 1;
      }
      assert events[..|events|] == events;
      ok := true;
    }

    /** The rename of the newer file over the older one, and the reload. */
    method Rotate()
      requires Valid()
      modifies this
      ensures Valid() && g == Generations(old(g).newer, [])
    {
      older, newer := newer, [];
      g := Generations(g.newer, []);
      RotatedOk(idOf, old(g), MAX_LOG + 1);
      assert Text([]) + [] == [];
      var ok := Load([]);
    }

    /** One record, of which at most `budget` bytes reach the disk. */
    method WriteRecord(e: Line, budget: nat) returns (left: nat, died: bool, ghost torn: seq<byte>)
      requires Valid() && IsRecord(idOf, e) && !Has(idOf, Kept(g), IdAt(idOf, e)) && |newer| + |e| + 1 <= MAX_LOG
      modifies this
      ensures !died ==> Valid() && g == Generations(old(g).older, old(g).newer + [e])
      ensures !died ==> |newer| == old(|newer|) + |e| + 1
      ensures died ==> OnDisk(torn) && g == old(g)
    {
      var line := e + [NEWLINE];
      if budget < |line| {
        torn := line[..budget];
        newer := newer + line[..budget];
        assert newer == Text(g.newer) + torn;
        return 0, true, torn;
      }
      RecordAdded(idOf, g, newer, e, seen);
      newer := newer + line;
      size := size + |line|;
      seen := seen + {idOf(e).value};
      g := Generations(g.older, g.newer + [e]);
      left, died, torn := budget - |line|, false, [];
    }

    /**
     `appendLog` in a process that dies after `budget` file-system effects: a rename, or one byte written.
     Wherever it dies, the files hold the log before the call or the batch up to some event, whole, and
     perhaps the beginning of the next one.
     */
    method Append(events: seq<Line>, budget: nat) returns (r: Outcome, ghost torn: seq<byte>)
      requires Valid() && forall i | 0 <= i < |events| :: events[i] != [] && NoNewline(events[i])
      modifies this
      ensures r.Refused? <==> !Acceptable(idOf, events)
      ensures r.Refused? ==> Valid() && g == old(g)
      ensures r.Done? ==> Valid() && g == Appended(idOf, old(g), events, |events|)
      ensures r.Died? ==> OnDisk(torn) && Reached(idOf, old(g), events, g)
    {
      torn := [];
      var total, ok := Preflight(events);
      if !ok {
        return Refused, torn;
      }
      TextSize(g.newer);
      RotatedOk(idOf, g, total);
      var left := budget;
      if size + total > MAX_LOG {
        if left == 0 {
          return Died, torn;
        }
        left := left - 1;
        Rotate();
      }
      assert g == Rotated(old(g), total);
      var died;
      ghost var m;
      died, torn, m := WriteAll(events, total, left);
      assert g == Appended(idOf, old(g), events, m);
      r := if died then Died else Done;
    }

    /** The write loop; records whose identity is already kept are skipped. */
    method WriteAll(events: seq<Line>, ghost total: nat, budget: nat)
      returns (died: bool, ghost torn: seq<byte>, ghost m: nat)
      requires Valid() && AllRecords(idOf, events) && total == Total(events) && Total(g.newer) + total <= MAX_LOG
      modifies this
      ensures m <= |events| && g == Added(idOf, old(g), events[..m])
      ensures if died then OnDisk(torn) else Valid() && m == |events|
    {
      var left := budget;
      var i := 0;
      died, torn, m := false, [], 0;
      while i < |events|
        invariant 0 <= i == m <= |events|
        invariant Valid() && g == Added(idOf, old(g), events[..i])
        invariant Total(g.newer) <= Total(old(g).newer) + Total(events[..i])
      {
        var e := events[i];
        assert events[..i + 1][..i] == events[..i];
        TotalPrefix(events, i + 1);
        TextSize(g.newer);
        if idOf(e).value !in seen {
          left, died, torn := WriteRecord(e, left);
          if died {
            return;
          }
          TextSize(g.newer);
        }
        i, m := i + 1, m + 1;
      }
    }
  }

  lemma RecordAdded(idOf: Identify, g: Generations, newer: seq<byte>, e: Line, seen: set<Id>)
    requires Parses(newer, g.newer, []) && LogOk(idOf, g) && IsSeen(idOf, Kept(g), seen)
    requires IsRecord(idOf, e) && !Has(idOf, Kept(g), IdAt(idOf, e)) && |newer| + |e| + 1 <= MAX_LOG
    ensures var r := Generations(g.older, g.newer + [e]);
            && Parses(newer + (e + [NEWLINE]), r.newer, []) && LogOk(idOf, r)
            && IsSeen(idOf, Kept(r), seen + {IdAt(idOf, e)})
  {
    OneAdded(idOf, g, e);
    TextWith(g.newer, e);
    TextSize(g.newer);
    SeenWith(idOf, Kept(g), e, seen);
    assert newer + (e + [NEWLINE]) == Text(g.newer + [e]) + [];
  }

  lemma KeptReadable(idOf: Identify, g: Generations)
    requires AllRecords(idOf, Kept(g))
    ensures Readable(idOf, g.older) && Readable(idOf, g.newer)
  {
    assert forall i | 0 <= i < |g.older| :: g.older[i] == Kept(g)[i];
    assert forall i | 0 <= i < |g.newer| :: g.newer[i] == Kept(g)[|g.older| + i];
  }

  // ----- replaying one batch over any number of crashes

  /** A record with the same identity in `long` is at least as long: only the timestamps of attempts differ. */
  ghost predicate Fits(idOf: Identify, long: seq<Line>, r: Line) {
    exists j | 0 <= j < |long| :: idOf(long[j]) == idOf(r) && |r| <= |long[j]|
  }

  ghost predicate AllFit(idOf: Identify, long: seq<Line>, lines: seq<Line>) {
    forall i | 0 <= i < |lines| :: Fits(idOf, long, lines[i])
  }

  lemma TotalWithout(lines: seq<Line>, j: nat)
    requires j < |lines|
    ensures Total(lines) == Total(lines[..j] + lines[j + 1..]) + |lines[j]| + 1
    decreases |lines|
  {
    var n := |lines| - 1;
    if j < n {
      TotalWithout(lines[..n], j);
      var rest := lines[..n][..j] + lines[..n][j + 1..];
      assert lines[..j] + lines[j + 1..] == rest + [lines[n]];
      TextWith(rest, lines[n]);
    } else {
      assert lines[..j] + lines[j + 1..] == lines[..n];
    }
  }

  lemma FitsWithout(idOf: Identify, long: seq<Line>, j: nat, r: Line)
    requires j < |long| && Fits(idOf, long, r) && idOf(long[j]) != idOf(r)
    ensures Fits(idOf, long[..j] + long[j + 1..], r)
  {
    var i :| 0 <= i < |long| && idOf(long[i]) == idOf(r) && |r| <= |long[i]|;
    var rest := long[..j] + long[j + 1..];
    assert rest[if i < j then i else i - 1] == long[i];
  }

  /** Distinct records that fit a batch take no more room than the batch. */
  lemma {:induction false} TotalFits(idOf: Identify, own: seq<Line>, long: seq<Line>)
    requires Distinct(idOf, own) && AllFit(idOf, long, own)
    ensures Total(own) <= Total(long)
    decreases |own|
  {
    if own != [] {
      var n := |own| - 1;
      assert Fits(idOf, long, own[n]);
      var j :| 0 <= j < |long| && idOf(long[j]) == idOf(own[n]) && |own[n]| <= |long[j]|;
      var rest := long[..j] + long[j + 1..];
      forall i | 0 <= i < n ensures Fits(idOf, rest, own[..n][i]) {
        assert Fits(idOf, long, own[i]) && idOf(own[i]) != idOf(own[n]);
        FitsWithout(idOf, long, j, own[i]);
      }
      TotalFits(idOf, own[..n], rest);
      TotalWithout(long, j);
    }
  }

  /** An attempt at `batch` went from `g` to `g'` and wrote the records `wrote`. */
  ghost predicate Attempt(idOf: Identify, g: Generations, batch: seq<Line>, g': Generations, wrote: seq<Line>) {
    || (g' == g && wrote == [])
    || ((exists m | 0 <= m <= |batch| :: g' == Appended(idOf, g, batch, m)) &&
        g'.newer == Rotated(g, Total(batch)).newer + wrote)
  }

  /** Every way an append can end, dead or done, is an attempt. */
  lemma ReachedAttempt(idOf: Identify, g: Generations, batch: seq<Line>, g': Generations) returns (wrote: seq<Line>)
    requires Reached(idOf, g, batch, g')
    ensures Attempt(idOf, g, batch, g', wrote)
  {
    wrote := [];
    if g' != g {
      var m :| 0 <= m <= |batch| && g' == Appended(idOf, g, batch, m);
      wrote := AddedTail(idOf, Rotated(g, Total(batch)), batch[..m]);
    }
  }

  lemma {:induction false} AddedTail(idOf: Identify, g: Generations, events: seq<Line>) returns (wrote: seq<Line>)
    ensures Added(idOf, g, events).newer == g.newer + wrote
    ensures forall i | 0 <= i < |wrote| :: wrote[i] in events
    decreases |events|
  {
    wrote := [];
    if events != [] {
      var n := |events| - 1;
      wrote := AddedTail(idOf, g, events[..n]);
      var r := Added(idOf, g, events[..n]);
      if !(idOf(events[n]).Some? && Has(idOf, Kept(r), IdAt(idOf, events[n]))) {
        assert (g.newer + wrote) + [events[n]] == g.newer + (wrote + [events[n]]);
        wrote := wrote + [events[n]];
      }
    }
  }

  lemma TailFits(idOf: Identify, g: Generations, batch: seq<Line>, m: nat, wrote: seq<Line>, long: seq<Line>)
    requires m <= |batch| && Added(idOf, g, batch[..m]).newer == g.newer + wrote && AllFit(idOf, long, batch)
    ensures AllFit(idOf, long, wrote)
  {
    var tail := AddedTail(idOf, g, batch[..m]);
    assert wrote == (g.newer + wrote)[|g.newer|..] && tail == (g.newer + tail)[|g.newer|..];
    forall i | 0 <= i < |wrote| ensures Fits(idOf, long, wrote[i]) {
      assert tail[i] in batch[..m];
      var j :| 0 <= j < m && batch[..m][j] == tail[i];
      assert Fits(idOf, long, batch[j]);
    }
  }

  /**
   Since `g0`, exactly the records `w` have been written and none of them has been rotated away: either no
   rotation has happened, or one has, after the first `k` of them.
   */
  ghost predicate Replaying(g0: Generations, g: Generations, w: seq<Line>, k: int) {
    if k < 0 then g.older == g0.older && g.newer == g0.newer + w
    else k <= |w| && g.older == g0.newer + w[..k] && g.newer == w[k..]
  }

  lemma DistinctSuffix(idOf: Identify, x: seq<Line>, y: seq<Line>)
    requires Distinct(idOf, x + y)
    ensures Distinct(idOf, y)
  {
    forall i, j | 0 <= i < j < |y| ensures idOf(y[i]) != idOf(y[j]) {
      assert y[i] == (x + y)[|x| + i] && y[j] == (x + y)[|x| + j];
    }
  }

  /** A second rotation within one batch's replays cannot happen: two half generations fit one file. */
  lemma NoSecondRotation(idOf: Identify, g0: Generations, g: Generations, w: seq<Line>, k: nat, long: seq<Line>,
      total: nat)
    requires Replaying(g0, g, w, k) && LogOk(idOf, g) && AllFit(idOf, long, w)
    requires Total(long) <= MAX_BATCH && total <= MAX_BATCH
    ensures Rotated(g, total) == g
  {
    var own, all := w[k..], Kept(g);
    assert all == g.older + own;
    DistinctSuffix(idOf, g.older, own);
    forall i | 0 <= i < |own| ensures Fits(idOf, long, own[i]) {
      assert Fits(idOf, long, w[k + i]);
    }
    TotalFits(idOf, own, long);
  }

  lemma AttemptReplays(idOf: Identify, g0: Generations, g: Generations, w: seq<Line>, k: int,
                       batch: seq<Line>, g': Generations, wrote: seq<Line>, long: seq<Line>) returns (k': int)
    requires Replaying(g0, g, w, k) && LogOk(idOf, g) && AllFit(idOf, long, w) && Total(long) <= MAX_BATCH
    requires Attempt(idOf, g, batch, g', wrote) && AllRecords(idOf, batch) && Total(batch) <= MAX_BATCH
    requires AllFit(idOf, long, batch)
    ensures Replaying(g0, g', w + wrote, k') && LogOk(idOf, g') && AllFit(idOf, long, w + wrote)
  {
    if g' == g && wrote == [] {
      assert w + [] == w;
      return k;
    }
    var m :| 0 <= m <= |batch| && g' == Appended(idOf, g, batch, m);
    var r := Rotated(g, Total(batch));
    AppendedOk(idOf, g, batch, m);
    TailFits(idOf, r, batch, m, wrote, long);
    FitBoth(idOf, long, w, wrote);
    if k >= 0 { NoSecondRotation(idOf, g0, g, w, k, long, Total(batch)); }
    k' := if r == g then k else |w|;
    ReplayingOn(g0, g, w, k, r, g', wrote, k');
  }

  lemma ReplayingOn(g0: Generations, g: Generations, w: seq<Line>, k: int, r: Generations, g': Generations,
                    wrote: seq<Line>, k': int)
    requires Replaying(g0, g, w, k) && g'.older == r.older && g'.newer == r.newer + wrote
    requires (r == g && k' == k) || (r == Generations(g.newer, []) && k < 0 && k' == |w|)
    ensures Replaying(g0, g', w + wrote, k')
  {
    var all := w + wrote;
    if k' != k {
      assert all[..k'] == w && all[k'..] == wrote && [] + wrote == wrote;
    } else if k < 0 {
      assert (g0.newer + w) + wrote == g0.newer + all;
    } else {
      assert all[..k] == w[..k] && all[k..] == w[k..] + wrote;
    }
  }

  lemma FitBoth(idOf: Identify, long: seq<Line>, x: seq<Line>, y: seq<Line>)
    requires AllFit(idOf, long, x) && AllFit(idOf, long, y)
    ensures AllFit(idOf, long, x + y)
  {
  }

  function Flat(writes: seq<seq<Line>>): seq<Line> {
    if writes == [] then [] else Flat(writes[..|writes| - 1]) + writes[|writes| - 1]
  }

  /** Attempts at one batch of changes, each from where the crash of the one before left the log. */
  ghost predicate Replays(idOf: Identify, logs: seq<Generations>, batches: seq<seq<Line>>, writes: seq<seq<Line>>,
      long: seq<Line>) {
    && |logs| == |batches| + 1 && |writes| == |batches| && LogOk(idOf, logs[0]) && Total(long) <= MAX_BATCH
    && forall i | 0 <= i < |batches| ::
         && Attempt(idOf, logs[i], batches[i], logs[i + 1], writes[i])
         && AllRecords(idOf, batches[i]) && Total(batches[i]) <= MAX_BATCH && AllFit(idOf, long, batches[i])
  }

  lemma {:induction false} ReplayKept(
    idOf: Identify, logs: seq<Generations>, batches: seq<seq<Line>>, writes: seq<seq<Line>>, long: seq<Line>, n: nat)
    returns (k: int)
    requires Replays(idOf, logs, batches, writes, long) && n <= |batches|
    ensures Replaying(logs[0], logs[n], Flat(writes[..n]), k) && LogOk(idOf, logs[n])
    ensures AllFit(idOf, long, Flat(writes[..n]))
    decreases n
  {
    if n == 0 {
      k := -1;
      assert writes[..0] == [] && logs[0].newer + [] == logs[0].newer;
    } else {
      k := ReplayKept(idOf, logs, batches, writes, long, n - 1);
      assert writes[..n][..n - 1] == writes[..n - 1];
      assert Attempt(idOf, logs[n - 1], batches[n - 1], logs[n - 1 + 1], writes[n - 1]);
      k := AttemptReplays(idOf, logs[0], logs[n - 1], Flat(writes[..n - 1]), k, batches[n - 1], logs[n], writes[n - 1],
          long);
    }
  }

  lemma {:induction false} AddedHas(idOf: Identify, g: Generations, events: seq<Line>, i: nat)
    requires i < |events| && AllRecords(idOf, events)
    ensures Has(idOf, Kept(Added(idOf, g, events)), IdAt(idOf, events[i]))
    decreases |events|
  {
    var n := |events| - 1;
    var r, after := Added(idOf, g, events[..n]), Added(idOf, g, events);
    if after != r { assert Kept(after) == Kept(r) + [events[n]]; }
    if i < n {
      AddedHas(idOf, g, events[..n], i);
      var j :| 0 <= j < |Kept(r)| && Kept(r)[j] != [] && idOf(Kept(r)[j]) == Some(IdAt(idOf, events[i]));
      assert Kept(after)[j] == Kept(r)[j];
    } else if after != r {
      assert Kept(after)[|Kept(r)|] == events[n];
    }
  }

  lemma Regroup(x: seq<Line>, y: seq<Line>, z: seq<Line>)
    ensures x + (y + z) == (x + y) + z
  {
  }

  lemma Rejoin(x: seq<Line>, y: seq<Line>, k: nat)
    requires k <= |y|
    ensures (x + y[..k]) + y[k..] == x + y
  {
  }

  /** Everything the replays wrote is still there, behind what `g0` still contributes. */
  lemma ReplayingKeeps(idOf: Identify, g0: Generations, g: Generations, w: seq<Line>, k: int)
    requires Replaying(g0, g, w, k) && LogOk(idOf, g)
    ensures Kept(g) == (if k < 0 then Kept(g0) else g0.newer) + w
    ensures Distinct(idOf, w)
  {
    var base := if k < 0 then Kept(g0) else g0.newer;
    if k < 0 { Regroup(g0.older, g0.newer, w); } else { Rejoin(g0.newer, w, k); }
    DistinctSuffix(idOf, base, w);
  }

  /**
   Exactly once.  However many attempts at the same batch of changes are cut at whatever byte, once one of
   them completes, every change of the batch is in the retained files exactly once; and over all attempts
   together no identity was written twice, and each one the log did not hold before was written once.
   */
  lemma ReplayedOnce(
    idOf: Identify, logs: seq<Generations>, batches: seq<seq<Line>>, writes: seq<seq<Line>>, long: seq<Line>, e: Line)
    requires Replays(idOf, logs, batches, writes, long) && batches != []
    requires var n := |batches| - 1; logs[n + 1] == Appended(idOf, logs[n], batches[n], |batches[n]|) && e in batches[n]
    ensures var last := logs[|batches|];
            && Has(idOf, Kept(last), IdAt(idOf, e)) && Distinct(idOf, Kept(last)) && Distinct(idOf, Flat(writes))
            && (!Has(idOf, Kept(logs[0]), IdAt(idOf, e)) ==> Has(idOf, Flat(writes), IdAt(idOf, e)))
  {
    var n, w := |batches| - 1, Flat(writes);
    var last, id := logs[n + 1], IdAt(idOf, e);
    var k := ReplayKept(idOf, logs, batches, writes, long, n + 1);
    assert writes[..n + 1] == writes;
    ReplayingKeeps(idOf, logs[0], last, w, k);
    assert AllRecords(idOf, batches[n]) && batches[n][..|batches[n]|] == batches[n];
    var i :| 0 <= i < |batches[n]| && batches[n][i] == e;
    AddedHas(idOf, Rotated(logs[n], Total(batches[n])), batches[n], i);
    SplitHas(idOf, if k < 0 then Kept(logs[0]) else logs[0].newer, w, id);
    if k >= 0 && Has(idOf, logs[0].newer, id) { SuffixHas(idOf, logs[0].older, logs[0].newer, id); }
  }

  lemma SplitHas(idOf: Identify, x: seq<Line>, y: seq<Line>, id: Id)
    requires Has(idOf, x + y, id)
    ensures Has(idOf, x, id) || Has(idOf, y, id)
  {
    var i :| 0 <= i < |x + y| && (x + y)[i] != [] && idOf((x + y)[i]) == Some(id);
    if i < |x| { assert x[i] == (x + y)[i]; } else { assert y[i - |x|] == (x + y)[i]; }
  }

  lemma SuffixHas(idOf: Identify, x: seq<Line>, y: seq<Line>, id: Id)
    requires Has(idOf, y, id)
    ensures Has(idOf, x + y, id)
  {
    var i :| 0 <= i < |y| && y[i] != [] && idOf(y[i]) == Some(id);
    assert (x + y)[|x| + i] == y[i];
  }
}
