/** The two CSV writers: the blank table generated for a new automaton, and
    the debug dump of a linked automaton's table. Both are modelled as the
    lines they write, and both round-trip through the loader. */
module CsvWriters {
  import opened Wrappers
  import opened Catalog
  import opened CsvLoader

  /** generate_automaton_csv_file's failures (codes 1 and 2). */
  datatype GenError = AlreadyExists | NotCreated

  /** dump_automaton_to_csv's failures (codes 1 and 2). */
  datatype DumpError = FileExists | WriteFail

  /** Each item preceded by a comma: the cells of a line after its first. */
  function Cells(items: seq<string>): string {
    if |items| == 0 then "" else "," + items[0] + Cells(items[1..])
  }

  function Repeat(ch: char, n: nat): (r: string)
    ensures |r| == n && forall i :: 0 <= i < n ==> r[i] == ch
  {
    if n == 0 then "" else [ch] + Repeat(ch, n - 1)
  }

  /** `n` empty cells. */
  function Empties(n: nat): (r: seq<string>)
    ensures |r| == n && forall i :: 0 <= i < n ==> r[i] == ""
  {
    seq(n, _ => "")
  }

  function Prefixed(p: string, names: seq<string>): (r: seq<string>)
    ensures |r| == |names| && forall i :: 0 <= i < |r| ==> r[i] == p + names[i]
  {
    seq(|names|, i requires 0 <= i < |names| => p + names[i])
  }

  // ---------------------------------------------------------------------------
  // The blank table

  /** The header: a comma and the event's name for each event in array order. */
  function GenHeader(a: Automaton): (r: string)
    ensures EventsReady(a) ==> ParseEventLine(a, r) == Ok(Ids(|a.events|))
  {
    var r := Cells(EventNames(a)) + "\n";
    assert EventsReady(a) ==> ParseEventLine(a, r) == Ok(Ids(|a.events|)) by {
      if EventsReady(a) {
        PrefixedEmpty(EventNames(a));
        CellsNewline(EventNames(a));
        HeaderReadsBack(a, "");
      }
    }
    r
  }

  /** The commas written after a state's name and its own comma: one fewer
      than there are events, so that the row holds one empty cell per event. */
  function BlankTail(n: nat): (r: string)
    ensures n > 0 ==> r == Repeat(',', n - 1)
  {
    if n == 0 then "" else Repeat(',', n - 1)
  }

  /** The same buffer as written: the byte before the terminator is never
      set, so it holds whatever `g` the allocation left there, and a zero
      byte ends the string early. */
  function BlankTailAsWritten(n: nat, g: char): (r: string)
    ensures g == '\0' ==> r == BlankTail(n)
    ensures n > 0 && g != '\0' ==> r == BlankTail(n) + [g]
  {
    if n == 0 then "" else Repeat(',', n - 1) + (if g == '\0' then "" else [g])
  }

  function GenRow(name: string, tail: string): (r: string)
    ensures IsCommas(tail) ==> r == name + Cells(Empties(|tail| + 1)) + "\n"
    ensures 0 < |r| && r[|r| - 1] == '\n'
    ensures '\n' in r[..|r| - 1] <==> '\n' in name + tail
  {
    var r := name + "," + tail + "\n";
    assert IsCommas(tail) ==> r == name + Cells(Empties(|tail| + 1)) + "\n" by {
      if IsCommas(tail) {
        EmptiesCells(|tail| + 1);
        assert tail == Repeat(',', |tail|);
      }
    }
    assert r[..|r| - 1] == name + "," + tail;
    r
  }

  /** `s` is a run of commas. */
  predicate IsCommas(s: string) {
    forall i :: 0 <= i < |s| ==> s[i] == ','
  }

  /** The lines of the blank table: the header, then one row per state. */
  function GenLines(a: Automaton): (r: seq<string>)
    ensures |r| == |a.states| + 1 && r[0] == GenHeader(a)
    ensures forall j :: 0 <= j < |a.states| ==> r[j + 1] == GenRow(a.states[j].name, BlankTail(|a.events|))
  {
    [GenHeader(a)] + seq(|a.states|, j requires 0 <= j < |a.states| =>
                           GenRow(a.states[j].name, BlankTail(|a.events|)))
  }

  function GenLinesAsWritten(a: Automaton, g: char): (r: seq<string>)
    ensures |r| == |a.states| + 1 && r[0] == GenHeader(a)
    ensures g == '\0' ==> r == GenLines(a)
  {
    [GenHeader(a)] + seq(|a.states|, j requires 0 <= j < |a.states| =>
                           GenRow(a.states[j].name, BlankTailAsWritten(|a.events|, g)))
  }

  /** generate_automaton_csv_file, corrected: an existing file is left
      alone, a file that cannot be created is reported, and otherwise the
      blank table is written. */
  function GenerateCsv(a: Automaton, exists_: bool, writable: bool): (r: Result<seq<string>, GenError>)
    ensures exists_ <==> r == Err(AlreadyExists)
    ensures r == Err(NotCreated) <==> !exists_ && !writable
    ensures r.Ok? ==> r.value == GenLines(a)
  {
    if exists_ then Err(AlreadyExists)
    else if !writable then Err(NotCreated)
    else Ok(GenLines(a))
  }

  /** generate_automaton_csv_file as written, with the unset byte `g`. */
  function GenerateCsvAsWritten(a: Automaton, exists_: bool, writable: bool, g: char)
    : (r: Result<seq<string>, GenError>)
    ensures exists_ <==> r == Err(AlreadyExists)
    ensures r == Err(NotCreated) <==> !exists_ && !writable
    ensures r.Ok? ==> r.value == GenLinesAsWritten(a, g)
  {
    if exists_ then Err(AlreadyExists)
    else if !writable then Err(NotCreated)
    else Ok(GenLinesAsWritten(a, g))
  }

  // ---------------------------------------------------------------------------
  // The dump

  /** The dump's header: a comma, a space and the name, for each event. */
  function DumpHeader(a: Automaton): (r: string)
    ensures EventsReady(a) ==> ParseEventLine(a, r) == Ok(Ids(|a.events|))
  {
    var r := Cells(Prefixed(" ", EventNames(a))) + "\n";
    assert EventsReady(a) ==> ParseEventLine(a, r) == Ok(Ids(|a.events|)) by {
      if EventsReady(a) {
        CellsNewline(Prefixed(" ", EventNames(a)));
        HeaderReadsBack(a, " ");
      }
    }
    r
  }

  /** Every state has a slot per event, each naming an existing transition. */
  predicate Dumpable(a: Automaton) {
    forall s :: 0 <= s < |a.states| ==> |a.states[s].slots| >= |a.events| && SlotsOk(a, a.states[s])
  }

  /** A slot's cell: empty for NULL, else the transition's name. */
  function DumpCell(a: Automaton, slot: Option<nat>): (r: string)
    requires slot.Some? ==> slot.value < |a.transitions|
    ensures TransitionsReady(a) ==> SeparatorFree(r) && CellValue(a, r) == slot
  {
    match slot
    case None => ""
    case Some(t) => a.transitions[t].name
  }

  function DumpCells(a: Automaton, s: nat): (r: seq<string>)
    requires Dumpable(a) && s < |a.states|
    ensures |r| == |a.events|
    ensures forall e :: 0 <= e < |r| ==> r[e] == DumpCell(a, a.states[s].slots[e])
  {
    seq(|a.events|, e requires 0 <= e < |a.events| => DumpCell(a, a.states[s].slots[e]))
  }

  /** A state's line: its name, then one cell per event in id order. */
  function DumpRow(a: Automaton, s: nat): (r: string)
    requires Dumpable(a) && s < |a.states|
    ensures EventsReady(a) && StatesReady(a) && TransitionsReady(a) ==>
              HeaderFits(a, Ids(|a.events|)) && ParseRow(a, Ids(|a.events|), r) == Ok(a)
  {
    var r := a.states[s].name + Cells(DumpCells(a, s)) + "\n";
    assert EventsReady(a) && StatesReady(a) && TransitionsReady(a) ==>
             HeaderFits(a, Ids(|a.events|)) && ParseRow(a, Ids(|a.events|), r) == Ok(a) by {
      if EventsReady(a) && StatesReady(a) && TransitionsReady(a) {
        DumpRowReadsBack(a, s);
      }
    }
    r
  }

  /** Reading a dumped row back into the automaton it came from changes
      nothing: every cell names the transition its slot holds. */
  lemma DumpRowReadsBack(a: Automaton, s: nat)
    requires EventsReady(a) && StatesReady(a) && TransitionsReady(a) && Dumpable(a) && s < |a.states|
    ensures HeaderFits(a, Ids(|a.events|))
    ensures ParseRow(a, Ids(|a.events|), a.states[s].name + Cells(DumpCells(a, s)) + "\n") == Ok(a)
  {
    var ev := Ids(|a.events|);
    var cells := AllDumpCells(a);
    assert HeaderFits(a, ev) by {
      forall k | 0 <= k < |ev| ensures IdFits(a, ev[k]) {
      }
    }
    assert IdsFit(a) by {
      forall e | 0 <= e < |a.events| ensures IdFits(a, a.events[e].id) {
      }
    }
    DumpCellsReady(a);
    assert cells[s] == DumpCells(a, s);
    RowReadsBack(a, ev, s, cells[s]);
    FilledRow(a, cells, a, s);
    var c := FillSlots(a, s, ev, 0, cells[s]);
    assert c.states == a.states;
  }

  function DumpLines(a: Automaton): (r: seq<string>)
    requires Dumpable(a)
    ensures |r| == |a.states| + 1 && r[0] == DumpHeader(a)
    ensures forall j :: 0 <= j < |a.states| ==> r[j + 1] == DumpRow(a, j)
  {
    [DumpHeader(a)] + seq(|a.states|, j requires 0 <= j < |a.states| => DumpRow(a, j))
  }

  /** dump_automaton_to_csv: an existing file is kept unless `overwrite`
      is set, an unwritable one is reported, and otherwise the table is
      written. */
  function DumpAutomaton(a: Automaton, exists_: bool, overwrite: bool, writable: bool)
    : (r: Result<seq<string>, DumpError>)
    requires Dumpable(a)
    ensures r == Err(FileExists) <==> exists_ && !overwrite
    ensures r == Err(WriteFail) <==> (!exists_ || overwrite) && !writable
    ensures r.Ok? ==> r.value == DumpLines(a)
  {
    if exists_ && !overwrite then Err(FileExists)
    else if !writable then Err(WriteFail)
    else Ok(DumpLines(a))
  }

  // ---------------------------------------------------------------------------
  // Reading the lines back

  /** The text from a line's second cell on, after its comma: the cells
      separated by commas and the last one ended by the newline. */
  function Tail(items: seq<string>): string
    requires |items| > 0
  {
    if |items| == 1 then items[0] + "\n" else items[0] + "," + Tail(items[1..])
  }

  lemma {:induction false} CellsNewline(items: seq<string>)
    requires |items| > 0
    ensures Cells(items) + "\n" == "," + Tail(items)
  {
    if |items| == 1 {
      assert items[1..] == [];
    } else {
      CellsNewline(items[1..]);
      assert Cells(items) + "\n" == "," + items[0] + (Cells(items[1..]) + "\n");
    }
  }

  lemma {:induction false} EmptiesCells(n: nat)
    ensures Cells(Empties(n)) == Repeat(',', n)
  {
    if n > 0 {
      assert Empties(n)[1..] == Empties(n - 1);
      EmptiesCells(n - 1);
    }
  }

  predicate NameChars(s: string) {
    forall i :: 0 <= i < |s| ==> IsNameChar(s[i])
  }

  /** The ids of the events the names denote, in order. */
  function HeaderIds(a: Automaton, names: seq<string>): (r: seq<nat>)
    requires forall k :: 0 <= k < |names| ==> FindEvent(a, names[k]).Some?
    ensures |r| == |names|
  {
    seq(|names|, k requires 0 <= k < |names| => a.events[FindEvent(a, names[k]).value].id)
  }

  lemma HeaderIdsCons(a: Automaton, names: seq<string>)
    requires |names| > 0
    requires forall k :: 0 <= k < |names| ==> FindEvent(a, names[k]).Some?
    ensures HeaderIds(a, names) == [a.events[FindEvent(a, names[0]).value].id] + HeaderIds(a, names[1..])
  {
    var l := HeaderIds(a, names);
    var r := [a.events[FindEvent(a, names[0]).value].id] + HeaderIds(a, names[1..]);
    forall k | 0 <= k < |l| ensures l[k] == r[k] {
      if k > 0 {
        assert names[1..][k - 1] == names[k];
      }
    }
  }

  /** One header cell: an optional space, a name and the separator ending it
      add the named event's id to the columns read so far. */
  lemma HeaderCellStep(a: Automaton, sp: string, n0: string, rest: string, acc: seq<nat>)
    requires sp == "" || sp == " "
    requires |acc| < |a.events|
    requires forall k :: 0 <= k < |acc| ==> IsEventId(a, acc[k])
    requires NameChars(n0) && FindEvent(a, n0).Some?
    requires |rest| > 0 && IsSeparator(rest[0])
    ensures IsEventId(a, a.events[FindEvent(a, n0).value].id)
    ensures EventLineFrom(a, (sp + n0) + rest, false, "", acc)
            == EventLineFrom(a, rest[1..], false, "", acc + [a.events[FindEvent(a, n0).value].id])
  {
    SeparatorEndsCell(a, rest, n0, acc);
    CellName(a, sp, n0, rest, acc);
  }

  /** The optional space and the name of a cell are read into the current
      name. */
  lemma CellName(a: Automaton, sp: string, n0: string, rest: string, acc: seq<nat>)
    requires sp == "" || sp == " "
    requires |acc| < |a.events|
    requires forall k :: 0 <= k < |acc| ==> IsEventId(a, acc[k])
    requires NameChars(n0)
    ensures EventLineFrom(a, (sp + n0) + rest, false, "", acc) == EventLineFrom(a, rest, false, n0, acc)
  {
    if sp == "" {
      assert sp + n0 == n0;
      UnspacedName(a, n0, rest, acc);
    } else {
      SpacedNameAccumulates(a, n0, rest, acc);
    }
  }

  lemma UnspacedName(a: Automaton, n0: string, rest: string, acc: seq<nat>)
    requires |acc| < |a.events|
    requires forall k :: 0 <= k < |acc| ==> IsEventId(a, acc[k])
    requires NameChars(n0)
    ensures EventLineFrom(a, n0 + rest, false, "", acc) == EventLineFrom(a, rest, false, n0, acc)
  {
    NameAccumulates(a, n0, rest, "", acc);
    assert "" + n0 == n0;
  }

  /** A separator after a known name adds its event's id. */
  lemma SeparatorEndsCell(a: Automaton, rest: string, cur: string, acc: seq<nat>)
    requires |acc| < |a.events|
    requires forall k :: 0 <= k < |acc| ==> IsEventId(a, acc[k])
    requires FindEvent(a, cur).Some?
    requires |rest| > 0 && IsSeparator(rest[0])
    ensures IsEventId(a, a.events[FindEvent(a, cur).value].id)
    ensures EventLineFrom(a, rest, false, cur, acc)
            == EventLineFrom(a, rest[1..], false, "", acc + [a.events[FindEvent(a, cur).value].id])
  {
  }

  lemma {:induction false} HeaderTailParses(a: Automaton, sp: string, names: seq<string>, acc: seq<nat>)
    requires sp == "" || sp == " "
    requires |names| > 0 && |acc| + |names| <= |a.events|
    requires forall k :: 0 <= k < |acc| ==> IsEventId(a, acc[k])
    requires forall k :: 0 <= k < |names| ==> NameChars(names[k]) && FindEvent(a, names[k]).Some?
    ensures EventLineFrom(a, Tail(Prefixed(sp, names)), false, "", acc) == Ok(acc + HeaderIds(a, names))
    decreases |names|
  {
    if |names| == 1 {
      HeaderLastCell(a, sp, names, acc);
    } else {
      var id := a.events[FindEvent(a, names[0]).value].id;
      SeparatorEndsCell(a, "\n", names[0], acc);
      var tail := names[1..];
      assert forall k :: 0 <= k < |tail| ==> tail[k] == names[k + 1];
      HeaderTailParses(a, sp, tail, acc + [id]);
      HeaderTailStep(a, sp, names, acc);
    }
  }

  /** The last header cell, followed by the line's newline. */
  lemma HeaderLastCell(a: Automaton, sp: string, names: seq<string>, acc: seq<nat>)
    requires sp == "" || sp == " "
    requires |names| == 1 && |acc| + 1 <= |a.events|
    requires forall k :: 0 <= k < |acc| ==> IsEventId(a, acc[k])
    requires NameChars(names[0]) && FindEvent(a, names[0]).Some?
    ensures EventLineFrom(a, Tail(Prefixed(sp, names)), false, "", acc) == Ok(acc + HeaderIds(a, names))
  {
    TailSplit(sp, names);
    HeaderCellStep(a, sp, names[0], "\n", acc);
    HeaderIdsCons(a, names);
    var acc' := acc + [a.events[FindEvent(a, names[0]).value].id];
    assert "\n"[1..] == "";
    assert EventLineFrom(a, "", false, "", acc') == Ok(acc');
    assert HeaderIds(a, names[1..]) == [];
    assert acc + HeaderIds(a, names) == acc';
  }

  /** A header cell that is not the last, given that the cells after it
      parse. */
  lemma HeaderTailStep(a: Automaton, sp: string, names: seq<string>, acc: seq<nat>)
    requires sp == "" || sp == " "
    requires |names| > 1 && |acc| + |names| <= |a.events|
    requires forall k :: 0 <= k < |acc| ==> IsEventId(a, acc[k])
    requires NameChars(names[0]) && FindEvent(a, names[0]).Some?
    requires forall k :: 1 <= k < |names| ==> FindEvent(a, names[k]).Some?
    requires var acc' := acc + [a.events[FindEvent(a, names[0]).value].id];
      EventLineFrom(a, Tail(Prefixed(sp, names[1..])), false, "", acc') == Ok(acc' + HeaderIds(a, names[1..]))
    ensures EventLineFrom(a, Tail(Prefixed(sp, names)), false, "", acc) == Ok(acc + HeaderIds(a, names))
  {
    var rest := "," + Tail(Prefixed(sp, names[1..]));
    TailSplit(sp, names);
    HeaderCellStep(a, sp, names[0], rest, acc);
    HeaderIdsCons(a, names);
    var acc' := acc + [a.events[FindEvent(a, names[0]).value].id];
    assert acc' + HeaderIds(a, names[1..]) == acc + HeaderIds(a, names);
  }

  /** The header tail is its first cell and, after a separator, the rest. */
  lemma TailSplit(sp: string, names: seq<string>)
    requires |names| > 0
    ensures var rest := if |names| == 1 then "\n" else "," + Tail(Prefixed(sp, names[1..]));
      && Tail(Prefixed(sp, names)) == (sp + names[0]) + rest
      && |rest| > 0 && IsSeparator(rest[0])
      && rest[1..] == if |names| == 1 then "" else Tail(Prefixed(sp, names[1..]))
  {
    var items := Prefixed(sp, names);
    if |names| > 1 {
      assert items[1..] == Prefixed(sp, names[1..]);
    }
  }

  /** `0, 1, ..., n-1`. */
  function Ids(n: nat): (r: seq<nat>)
    ensures |r| == n && forall i :: 0 <= i < n ==> r[i] == i
  {
    seq(n, i => i)
  }

  /** The events can be written as a header and read back: at least one,
      ids equal to positions, distinct names of letters and `_`. */
  predicate EventsReady(a: Automaton) {
    && |a.events| > 0
    && (forall i :: 0 <= i < |a.events| ==> a.events[i].id == i && NameChars(a.events[i].name))
    && (forall i, j :: 0 <= i < j < |a.events| ==> a.events[i].name != a.events[j].name)
  }

  /** Every state has one slot per event and a distinct name with no
      separator in it. */
  predicate StatesReady(a: Automaton) {
    && (forall s :: 0 <= s < |a.states| ==>
          |a.states[s].slots| == |a.events| && SeparatorFree(a.states[s].name))
    && (forall i, j :: 0 <= i < j < |a.states| ==> a.states[i].name != a.states[j].name)
  }

  lemma FindDistinctEvent(a: Automaton, k: nat)
    requires EventsReady(a) && k < |a.events|
    ensures FindEvent(a, a.events[k].name) == Some(k)
  {
  }

  lemma FindDistinctState(a: Automaton, k: nat)
    requires StatesReady(a) && k < |a.states|
    ensures FindState(a, a.states[k].name) == Some(k)
  {
  }

  /** Both headers read back as the columns 0, 1, ..., n-1. */
  lemma HeaderReadsBack(a: Automaton, sp: string)
    requires sp == "" || sp == " "
    requires EventsReady(a)
    ensures ParseEventLine(a, "," + Tail(Prefixed(sp, EventNames(a)))) == Ok(Ids(|a.events|))
  {
    var names := EventNames(a);
    forall k | 0 <= k < |names| ensures NameChars(names[k]) && FindEvent(a, names[k]) == Some(k) {
      FindDistinctEvent(a, k);
    }
    HeaderTailParses(a, sp, names, []);
    assert HeaderIds(a, names) == Ids(|a.events|);
    var line := "," + Tail(Prefixed(sp, names));
    assert line[0] == ',' && line[1..] == Tail(Prefixed(sp, names));
    assert [] + HeaderIds(a, names) == HeaderIds(a, names);
  }

  /** The sequence of slot writes a row's cells make, column by column. */
  function FillSlots(a: Automaton, k: nat, ev: seq<nat>, c: nat, cells: seq<string>): (r: Automaton)
    requires k < |a.states| && HeaderFits(a, ev) && c + |cells| <= |ev|
    ensures SameShape(a, r)
    ensures forall j :: 0 <= j < |a.states| && j != k ==> r.states[j] == a.states[j]
    decreases |cells|
  {
    if |cells| == 0 then a
    else
      var b := SetSlot(a, k, ev[c], CellValue(a, cells[0]));
      SameShapeKeepsFit(a, b, ev);
      FillSlots(b, k, ev, c + 1, cells[1..])
  }

  /** With columns 0, 1, ..., the cells from column `c` on land in the slots
      of the same numbers, and every other slot is untouched. */
  lemma {:induction false} FillSlotsInOrder(a: Automaton, k: nat, ev: seq<nat>, c: nat, cells: seq<string>)
    requires k < |a.states| && HeaderFits(a, ev) && c + |cells| <= |ev|
    requires forall i :: 0 <= i < |ev| ==> ev[i] == i
    ensures forall e :: 0 <= e < |a.states[k].slots| ==>
      FillSlots(a, k, ev, c, cells).states[k].slots[e]
        == if c <= e < c + |cells| then CellValue(a, cells[e - c]) else a.states[k].slots[e]
    decreases |cells|
  {
    if |cells| > 0 {
      var b := SetSlot(a, k, ev[c], CellValue(a, cells[0]));
      SameShapeKeepsFit(a, b, ev);
      FillSlotsInOrder(b, k, ev, c + 1, cells[1..]);
      forall e | 0 <= e < |a.states[k].slots|
        ensures FillSlots(a, k, ev, c, cells).states[k].slots[e]
          == if c <= e < c + |cells| then CellValue(a, cells[e - c]) else a.states[k].slots[e]
      {
        if c + 1 <= e < c + |cells| {
          assert cells[1..][e - (c + 1)] == cells[e - c];
        }
      }
    }
  }

  lemma {:induction false} RowTailParses(a: Automaton, ev: seq<nat>, cells: seq<string>, k: nat, c: nat)
    requires k < |a.states| && HeaderFits(a, ev)
    requires |cells| > 0 && c + |cells| <= |ev|
    requires forall i :: 0 <= i < |cells| ==> SeparatorFree(cells[i])
    ensures RowFrom(a, ev, Tail(cells), Some(k), "", c, false) == Ok(FillSlots(a, k, ev, c, cells))
    decreases |cells|
  {
    var rest := if |cells| == 1 then "\n" else "," + Tail(cells[1..]);
    assert Tail(cells) == cells[0] + rest;
    CellAccumulates(a, ev, cells[0], rest, Some(k), "", c, false);
    assert "" + cells[0] == cells[0];
    var b := SetSlot(a, k, ev[c], CellValue(a, cells[0]));
    SameShapeKeepsFit(a, b, ev);
    assert IsSeparator(rest[0]);
    assert RowFrom(a, ev, rest, Some(k), cells[0], c, false) == RowFrom(b, ev, rest[1..], Some(k), "", c + 1, false);
    if |cells| == 1 {
      assert rest[1..] == "";
    } else {
      assert rest[1..] == Tail(cells[1..]);
      RowTailParses(b, ev, cells[1..], k, c + 1);
    }
  }

  /** A state row read back: the state it names gets the slots its cells
      denote. */
  lemma RowReadsBack(a: Automaton, ev: seq<nat>, k: nat, cells: seq<string>)
    requires k < |a.states| && HeaderFits(a, ev) && StatesReady(a)
    requires |cells| == |ev| == |a.events| > 0 && forall i :: 0 <= i < |ev| ==> ev[i] == i
    requires forall i :: 0 <= i < |cells| ==> SeparatorFree(cells[i])
    ensures ParseRow(a, ev, a.states[k].name + Cells(cells) + "\n") == Ok(FillSlots(a, k, ev, 0, cells))
  {
    var name := a.states[k].name;
    CellsNewline(cells);
    assert name + Cells(cells) + "\n" == name + ("," + Tail(cells));
    CellAccumulates(a, ev, name, "," + Tail(cells), None, "", 0, false);
    assert "" + name == name;
    FindDistinctState(a, k);
    assert ("," + Tail(cells))[1..] == Tail(cells);
    RowTailParses(a, ev, cells, k, 0);
  }

  /** The automaton whose state `j` has the slots that the cells `cells[j]`
      denote. */
  function Applied(a: Automaton, cells: seq<seq<string>>): (r: Automaton)
    requires |cells| == |a.states|
    requires forall j :: 0 <= j < |cells| ==> |cells[j]| == |a.states[j].slots|
    ensures SameShape(a, r)
  {
    a.(states := seq(|a.states|, j requires 0 <= j < |a.states| =>
         a.states[j].(slots := seq(|cells[j]|, i requires 0 <= i < |cells[j]| => CellValue(a, cells[j][i])))))
  }

  /** The state rows built from `cells`. */
  function RowLines(a: Automaton, cells: seq<seq<string>>): (r: seq<string>)
    requires |cells| == |a.states|
    ensures |r| == |a.states|
    ensures forall j :: 0 <= j < |r| ==> r[j] == a.states[j].name + Cells(cells[j]) + "\n"
  {
    seq(|a.states|, j requires 0 <= j < |a.states| => a.states[j].name + Cells(cells[j]) + "\n")
  }

  predicate CellsReady(a: Automaton, cells: seq<seq<string>>) {
    && |cells| == |a.states|
    && forall j :: 0 <= j < |cells| ==>
         |cells[j]| == |a.events| && forall i :: 0 <= i < |cells[j]| ==> SeparatorFree(cells[j][i])
  }

  lemma {:induction false} LoadRows(a: Automaton, cells: seq<seq<string>>, c: Automaton, m: nat)
    requires EventsReady(a) && StatesReady(a) && CellsReady(a, cells)
    requires SameShape(a, c) && m <= |a.states|
    requires forall j :: 0 <= j < m ==> c.states[j] == Applied(a, cells).states[j]
    requires forall j :: m <= j < |a.states| ==> Fits(RowLines(a, cells)[j])
    requires IdsFit(c) && HeaderFits(c, Ids(|a.events|))
    ensures LoadFrom(c, RowLines(a, cells)[m..], Some(Ids(|a.events|))) == Ok(Applied(a, cells))
    decreases |a.states| - m
  {
    var rows := RowLines(a, cells);
    var ev := Ids(|a.events|);
    if m == |a.states| {
      assert rows[m..] == [];
      AllRowsLoaded(a, cells, c);
    } else {
      LoadRowStep(a, cells, c, m);
      LoadRows(a, cells, FillSlots(c, m, ev, 0, cells[m]), m + 1);
    }
  }

  /** Once every row is loaded the automaton is the one the cells denote. */
  lemma AllRowsLoaded(a: Automaton, cells: seq<seq<string>>, c: Automaton)
    requires CellsReady(a, cells) && StatesReady(a) && SameShape(a, c)
    requires forall j :: 0 <= j < |a.states| ==> c.states[j] == Applied(a, cells).states[j]
    ensures c == Applied(a, cells)
  {
    assert c.states == Applied(a, cells).states;
  }

  /** Loading row `m` fills in exactly that state's slots, as the cells
      denote them. */
  lemma LoadRowStep(a: Automaton, cells: seq<seq<string>>, c: Automaton, m: nat)
    requires EventsReady(a) && StatesReady(a) && CellsReady(a, cells)
    requires SameShape(a, c) && m < |a.states|
    requires Fits(RowLines(a, cells)[m])
    requires IdsFit(c) && HeaderFits(c, Ids(|a.events|))
    requires forall j :: 0 <= j < m ==> c.states[j] == Applied(a, cells).states[j]
    ensures var ev := Ids(|a.events|);
      var c' := FillSlots(c, m, ev, 0, cells[m]);
      && SameShape(a, c') && IdsFit(c') && HeaderFits(c', ev)
      && (forall j :: 0 <= j < m + 1 ==> c'.states[j] == Applied(a, cells).states[j])
      && LoadFrom(c, RowLines(a, cells)[m..], Some(ev)) == LoadFrom(c', RowLines(a, cells)[m + 1..], Some(ev))
  {
    var rows := RowLines(a, cells);
    var ev := Ids(|a.events|);
    FilledRow(a, cells, c, m);
    assert rows[m..][0] == rows[m] && rows[m..][1..] == rows[m + 1..];
    assert StatesReady(c);
    RowReadsBack(c, ev, m, cells[m]);
  }

  lemma FilledRow(a: Automaton, cells: seq<seq<string>>, c: Automaton, m: nat)
    requires StatesReady(a) && CellsReady(a, cells)
    requires SameShape(a, c) && m < |a.states|
    requires IdsFit(c) && HeaderFits(c, Ids(|a.events|))
    ensures var ev := Ids(|a.events|);
      var c' := FillSlots(c, m, ev, 0, cells[m]);
      && SameShape(a, c') && IdsFit(c') && HeaderFits(c', ev)
      && c'.states[m] == Applied(a, cells).states[m]
  {
    var ev := Ids(|a.events|);
    var c' := FillSlots(c, m, ev, 0, cells[m]);
    FillSlotsInOrder(c, m, ev, 0, cells[m]);
    assert c'.states[m].slots == Applied(a, cells).states[m].slots;
    SameShapeKeepsFit(c, c', ev);
    assert IdsFit(c') by {
      forall e | 0 <= e < |c'.events| ensures IdFits(c', c'.events[e].id) {
        assert IdFits(c, c.events[e].id);
      }
    }
  }

  /** Reading back a header and the rows built from `cells` into any
      automaton of the same shape gives the slots the cells denote. */
  lemma TableReadsBack(a: Automaton, b: Automaton, sp: string, cells: seq<seq<string>>)
    requires sp == "" || sp == " "
    requires EventsReady(a) && StatesReady(a) && CellsReady(a, cells) && SameShape(a, b)
    requires Fits(Cells(Prefixed(sp, EventNames(a))) + "\n")
    requires forall j :: 0 <= j < |a.states| ==> Fits(RowLines(a, cells)[j])
    ensures IdsFit(b)
    ensures LoadCsv(b, Some([Cells(Prefixed(sp, EventNames(a))) + "\n"] + RowLines(a, cells)))
            == Ok(Applied(a, cells))
  {
    var header := Cells(Prefixed(sp, EventNames(a))) + "\n";
    var lines := [header] + RowLines(a, cells);
    var ev := Ids(|a.events|);
    assert EventNames(b) == EventNames(a);
    CellsNewline(Prefixed(sp, EventNames(a)));
    HeaderReadsBack(b, sp);
    assert HeaderFits(b, ev);
    assert IdsFit(b) by {
      forall e | 0 <= e < |b.events| ensures IdFits(b, b.events[e].id) {
        assert b.events[e].id == ev[e];
      }
    }
    assert lines[0] == header && lines[1..] == RowLines(a, cells)[0..];
    LoadRows(a, cells, b, 0);
  }

  /** Every slot of every state NULL. */
  function Blank(a: Automaton): (r: Automaton)
    ensures SameShape(a, r)
    ensures forall s :: 0 <= s < |a.states| ==> forall e :: 0 <= e < |r.states[s].slots| ==> r.states[s].slots[e].None?
  {
    a.(states := seq(|a.states|, j requires 0 <= j < |a.states| =>
         a.states[j].(slots := seq(|a.states[j].slots|, _ => None))))
  }

  /** The cells of the blank table: every cell of every row empty. */
  function BlankCells(a: Automaton): (r: seq<seq<string>>)
    ensures |r| == |a.states|
  {
    seq(|a.states|, _ => Empties(|a.events|))
  }

  lemma GenLinesAreTable(a: Automaton)
    requires |a.events| > 0
    ensures GenLines(a) == [Cells(EventNames(a)) + "\n"] + RowLines(a, BlankCells(a))
  {
    var n := |a.events|;
    var cells := BlankCells(a);
    EmptiesCells(n);
    assert "," + BlankTail(n) == Cells(Empties(n));
    forall j | 0 <= j < |a.states| ensures GenLines(a)[j + 1] == RowLines(a, cells)[j] {
      assert a.states[j].name + "," + BlankTail(n) + "\n" == a.states[j].name + ("," + BlankTail(n)) + "\n";
    }
  }

  lemma PrefixedEmpty(names: seq<string>)
    ensures Prefixed("", names) == names
  {
    forall i | 0 <= i < |names| ensures Prefixed("", names)[i] == names[i] {
      assert "" + names[i] == names[i];
    }
  }

  lemma AppliedBlank(a: Automaton)
    requires StatesReady(a)
    ensures Applied(a, BlankCells(a)) == Blank(a)
  {
    var cells := BlankCells(a);
    EmptiesCells(|a.events|);
    forall j | 0 <= j < |a.states| ensures Applied(a, cells).states[j] == Blank(a).states[j] {
      assert Applied(a, cells).states[j].slots == Blank(a).states[j].slots;
    }
    assert Applied(a, cells).states == Blank(a).states;
  }

  /** Round trip of the blank table: loading it into the automaton it was
      generated from (or any of the same shape) leaves every slot NULL. */
  lemma GenReadsBack(a: Automaton, b: Automaton)
    requires EventsReady(a) && StatesReady(a) && SameShape(a, b)
    requires forall k :: 0 <= k < |GenLines(a)| ==> Fits(GenLines(a)[k])
    ensures IdsFit(b)
    ensures LoadCsv(b, Some(GenLines(a))) == Ok(Blank(a))
  {
    GenLinesAreTable(a);
    PrefixedEmpty(EventNames(a));
    EmptiesCells(|a.events|);
    TableReadsBack(a, b, "", BlankCells(a));
    AppliedBlank(a);
  }

  /** The transitions can be written as cells and read back: distinct,
      non-empty names with no separator in them. */
  predicate TransitionsReady(a: Automaton) {
    && (forall t :: 0 <= t < |a.transitions| ==>
          a.transitions[t].name != "" && SeparatorFree(a.transitions[t].name))
    && (forall i, j :: 0 <= i < j < |a.transitions| ==> a.transitions[i].name != a.transitions[j].name)
  }

  lemma DumpCellReadsBack(a: Automaton, slot: Option<nat>)
    requires TransitionsReady(a) && (slot.Some? ==> slot.value < |a.transitions|)
    ensures SeparatorFree(DumpCell(a, slot))
    ensures CellValue(a, DumpCell(a, slot)) == slot
  {
  }

  /** Round trip of the dump: loading it into an automaton of the same shape
      restores every state's slot table exactly. */
  lemma DumpReadsBack(a: Automaton, b: Automaton)
    requires EventsReady(a) && StatesReady(a) && TransitionsReady(a) && Dumpable(a)
    requires SameShape(a, b)
    requires forall k :: 0 <= k < |DumpLines(a)| ==> Fits(DumpLines(a)[k])
    ensures IdsFit(b)
    ensures LoadCsv(b, Some(DumpLines(a))) == Ok(a)
  {
    DumpCellsReady(a);
    DumpLinesAreTable(a);
    TableReadsBack(a, b, " ", AllDumpCells(a));
  }

  lemma DumpLinesAreTable(a: Automaton)
    requires Dumpable(a)
    ensures DumpLines(a) == [Cells(Prefixed(" ", EventNames(a))) + "\n"] + RowLines(a, AllDumpCells(a))
    ensures forall j :: 0 <= j < |a.states| ==> RowLines(a, AllDumpCells(a))[j] == DumpLines(a)[j + 1]
  {
    var cells := AllDumpCells(a);
    forall j | 0 <= j < |a.states| ensures DumpLines(a)[j + 1] == RowLines(a, cells)[j] {
    }
  }

  function AllDumpCells(a: Automaton): (r: seq<seq<string>>)
    requires Dumpable(a)
    ensures |r| == |a.states| && forall j :: 0 <= j < |r| ==> r[j] == DumpCells(a, j)
  {
    seq(|a.states|, j requires 0 <= j < |a.states| => DumpCells(a, j))
  }

  /** The dumped cells are well-formed and denote exactly the slots. */
  lemma DumpCellsReady(a: Automaton)
    requires EventsReady(a) && StatesReady(a) && TransitionsReady(a) && Dumpable(a)
    ensures CellsReady(a, AllDumpCells(a))
    ensures Applied(a, AllDumpCells(a)) == a
  {
    var cells := AllDumpCells(a);
    forall j, i | 0 <= j < |a.states| && 0 <= i < |a.events|
      ensures SeparatorFree(cells[j][i]) && CellValue(a, cells[j][i]) == a.states[j].slots[i]
    {
      DumpCellReadsBack(a, a.states[j].slots[i]);
    }
    forall j | 0 <= j < |a.states| ensures Applied(a, cells).states[j] == a.states[j] {
      assert Applied(a, cells).states[j].slots == a.states[j].slots;
    }
    assert Applied(a, cells).states == a.states;
  }

  /** A one-event, one-state automaton without transitions. */
  const Tiny: Automaton := Automaton("a", [Event(0, "e")], [State(0, "s", [None], None, None, None)], [], None, false)

  lemma TinyLines()
    ensures GenLinesAsWritten(Tiny, ',') == [",e\n", "s,,\n"]
    ensures GenLines(Tiny) == [",e\n", "s,\n"]
  {
    assert EventNames(Tiny) == ["e"];
    assert Cells(["e"]) == ",e" by {
      assert ["e"][1..] == [];
    }
    assert GenHeader(Tiny) == ",e\n";
    assert BlankTailAsWritten(1, ',') == ",";
    assert BlankTail(1) == "";
    assert GenRow("s", ",") == "s,,\n";
    assert GenRow("s", "") == "s,\n";
  }

  /** The unset byte matters: when it happens to be a comma, the generated
      row has one cell too many and the table no longer loads, where the
      corrected generator's table loads with every slot NULL. */
  lemma UnsetByteBreaksTable()
    ensures GenLinesAsWritten(Tiny, ',') == [",e\n", "s,,\n"]
    ensures LoadCsv(Tiny, Some(GenLinesAsWritten(Tiny, ','))) == Err(ParseFailed)
  {
    TinyLines();
    assert Fits(",e\n") && Fits("s,,\n");
    ExcessCellWrittenFirst();
    var lines := [",e\n", "s,,\n"];
    assert lines[1..] == ["s,,\n"] && ["s,,\n"][1..] == [];
    assert LoadFrom(Tiny, ["s,,\n"], Some([0])) == Err(ParseFailed);
  }

  /** The corrected blank table of the same automaton loads back. */
  lemma TinyBlankReadsBack()
    ensures LoadCsv(Tiny, Some(GenLines(Tiny))) == Ok(Tiny)
  {
    TinyLines();
    var lines := GenLines(Tiny);
    assert lines == [",e\n", "s,\n"];
    assert Fits(lines[0]) && Fits(lines[1]);
    GenReadsBack(Tiny, Tiny);
    assert Blank(Tiny).states[0] == Tiny.states[0];
    assert Blank(Tiny) == Tiny;
  }

}
