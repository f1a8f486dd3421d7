/** The CSV lookup table of an automaton: a header row naming the events by
    column, then one row per state whose cells name the transition the state
    follows on that column's event.

    A file is the sequence of lines `fgets` hands over, each with its newline
    when it has one. The loader fills in the slots of an automaton whose
    events, states and transitions already exist. */
module CsvLoader {
  import opened Wrappers
  import opened Catalog

  /** Size of the line buffer: at most MaxCsvLineLen - 1 characters fit. */
  const MaxCsvLineLen: nat := 4096

  /** parse_csv_event_line's failures (codes 1, 2 and 3). */
  datatype HeaderError = BadChar | BadEvent | TooManyEvents

  /** parse_csv_file_line's failures (codes 2 and 3). `ColumnFault` is not a
      code of the C: it marks a cell whose column has no header entry being
      written through, which the corrected parser rejects beforehand. */
  datatype RowError = BadStateName | TooManyCells | ColumnFault

  /** load_automaton_csv_file's failures (codes 1, 2 and 3). */
  datatype LoadError = LoadFailed | ParseFailed | BadEventLine

  /** Characters an event name in the header may contain. */
  predicate IsNameChar(ch: char) {
    ch == '_' || ('a' <= ch <= 'z') || ('A' <= ch <= 'Z')
  }

  predicate IsSeparator(ch: char) {
    ch == ',' || ch == '\n'
  }

  predicate SeparatorFree(s: string) {
    forall i :: 0 <= i < |s| ==> !IsSeparator(s[i])
  }

  /** `id` is the id of one of the automaton's events. */
  predicate IsEventId(a: Automaton, id: nat) {
    exists e :: 0 <= e < |a.events| && a.events[e].id == id
  }

  // ---------------------------------------------------------------------------
  // The header row

  /** The header scan over the rest `s` of the line. `first` holds while
      still inside the first cell, `cur` is the name read so far, and `acc`
      the event ids of the completed columns. */
  function EventLineFrom(a: Automaton, s: string, first: bool, cur: string, acc: seq<nat>)
    : (r: Result<seq<nat>, HeaderError>)
    requires |acc| <= |a.events|
    requires forall k :: 0 <= k < |acc| ==> IsEventId(a, acc[k])
    ensures r.Ok? ==> |r.value| <= |a.events| && acc <= r.value
    ensures r.Ok? ==> forall k :: 0 <= k < |r.value| ==> IsEventId(a, r.value[k])
    decreases |s|
  {
    if |s| == 0 then Ok(acc)
    else if |acc| >= |a.events| then Err(TooManyEvents)
    else if first then EventLineFrom(a, s[1..], s[0] != ',', "", acc)
    else if IsSeparator(s[0]) then
      match FindEvent(a, cur)
      case None => Err(BadEvent)
      case Some(e) => EventLineFrom(a, s[1..], false, "", acc + [a.events[e].id])
    else if IsNameChar(s[0]) then EventLineFrom(a, s[1..], false, cur + [s[0]], acc)
    else if s[0] == ' ' then EventLineFrom(a, s[1..], false, cur, acc)
    else Err(BadChar)
  }

  /** parse_csv_event_line: the event id of each header column, in column
      order; never more columns than the automaton has events, and every
      entry the id of one of its events. */
  function ParseEventLine(a: Automaton, line: string): (r: Result<seq<nat>, HeaderError>)
    ensures r.Ok? ==> |r.value| <= |a.events|
    ensures r.Ok? ==> forall k :: 0 <= k < |r.value| ==> IsEventId(a, r.value[k])
  {
    EventLineFrom(a, line, true, "", [])
  }

  /** Whatever precedes the first comma of the header is ignored, as long as
      the automaton has at least one event. */
  lemma {:induction false} FirstCellIgnored(a: Automaton, p: string, s: string)
    requires |a.events| > 0 && ',' !in p
    ensures ParseEventLine(a, p + s) == ParseEventLine(a, s)
  {
    FirstCellSkip(a, p, s);
    FirstCellSkip(a, [], s);
  }

  lemma {:induction false} FirstCellSkip(a: Automaton, p: string, s: string)
    requires |a.events| > 0 && ',' !in p
    ensures EventLineFrom(a, p + s, true, "", []) == EventLineFrom(a, s, true, "", [])
    decreases |p|
  {
    if |p| > 0 {
      assert (p + s)[0] == p[0] && (p + s)[1..] == p[1..] + s;
      assert p[0] != ',';
      FirstCellSkip(a, p[1..], s);
    } else {
      assert p + s == s;
    }
  }

  /** An automaton without events rejects every non-empty header: the column
      bound is tested before the first character is looked at. */
  lemma NoEventsRejectsHeader(a: Automaton, line: string)
    requires |a.events| == 0 && |line| > 0
    ensures ParseEventLine(a, line) == Err(TooManyEvents)
  {
  }

  /** A character other than a separator, a letter, `_` or a space after the
      first comma makes the header fail with BadChar. */
  lemma BadCharRejected(a: Automaton, ch: char, rest: string)
    requires |a.events| > 0
    requires !IsSeparator(ch) && !IsNameChar(ch) && ch != ' '
    ensures ParseEventLine(a, [','] + [ch] + rest) == Err(BadChar)
  {
    var line := [','] + [ch] + rest;
    assert line[0] == ',' && line[1..] == [ch] + rest;
    assert ([ch] + rest)[0] == ch;
    assert EventLineFrom(a, line, true, "", []) == EventLineFrom(a, [ch] + rest, false, "", []);
  }

  /** A header column naming no event makes the header fail with BadEvent. */
  lemma UnknownEventRejected(a: Automaton, name: string, rest: string)
    requires |a.events| > 0 && FindEvent(a, name).None?
    requires forall i :: 0 <= i < |name| ==> IsNameChar(name[i])
    ensures ParseEventLine(a, [','] + name + [','] + rest) == Err(BadEvent)
  {
    assert ([','] + name + [','] + rest)[1..] == name + ([','] + rest);
    NameAccumulates(a, name, [','] + rest, "", []);
    assert ("" + name) == name;
  }

  /** Name characters of a header cell are appended to the cell read so far. */
  lemma {:induction false} NameAccumulates(a: Automaton, name: string, s: string, cur: string, acc: seq<nat>)
    requires |acc| < |a.events|
    requires forall k :: 0 <= k < |acc| ==> IsEventId(a, acc[k])
    requires forall i :: 0 <= i < |name| ==> IsNameChar(name[i])
    ensures EventLineFrom(a, name + s, false, cur, acc) == EventLineFrom(a, s, false, cur + name, acc)
    decreases |name|
  {
    if |name| > 0 {
      assert (name + s)[0] == name[0] && (name + s)[1..] == name[1..] + s;
      assert !IsSeparator(name[0]);
      NameAccumulates(a, name[1..], s, cur + [name[0]], acc);
      assert cur + [name[0]] + name[1..] == cur + name;
    } else {
      assert name + s == s && cur + name == cur;
    }
  }

  /** The same, with the spaces a cell may also contain skipped. */
  lemma {:induction false} SpacedNameAccumulates(a: Automaton, name: string, s: string, acc: seq<nat>)
    requires |acc| < |a.events|
    requires forall k :: 0 <= k < |acc| ==> IsEventId(a, acc[k])
    requires forall i :: 0 <= i < |name| ==> IsNameChar(name[i])
    ensures EventLineFrom(a, " " + name + s, false, "", acc) == EventLineFrom(a, s, false, name, acc)
  {
    assert (" " + name + s)[0] == ' ' && (" " + name + s)[1..] == name + s;
    NameAccumulates(a, name, s, "", acc);
    assert "" + name == name;
  }

  // ---------------------------------------------------------------------------
  // State rows

  /** The slot for event id `id` exists in every state of the automaton. */
  predicate IdFits(a: Automaton, id: nat) {
    forall s :: 0 <= s < |a.states| ==> id < |a.states[s].slots|
  }

  predicate HeaderFits(a: Automaton, ev: seq<nat>) {
    forall k :: 0 <= k < |ev| ==> IdFits(a, ev[k])
  }

  /** `b` differs from `a` at most in the contents of the state slots. */
  predicate SameShape(a: Automaton, b: Automaton) {
    && b.name == a.name && b.events == a.events && b.transitions == a.transitions
    && b.startState == a.startState && b.luaLoaded == a.luaLoaded
    && |b.states| == |a.states|
    && forall s :: 0 <= s < |a.states| ==>
         b.states[s] == a.states[s].(slots := b.states[s].slots)
         && |b.states[s].slots| == |a.states[s].slots|
  }

  /** Every bound slot of every state names an existing transition. */
  predicate SlotsValid(a: Automaton) {
    forall s :: 0 <= s < |a.states| ==> SlotsOk(a, a.states[s])
  }

  /** Bind slot `e` of state `s` to `v`. */
  function SetSlot(a: Automaton, s: nat, e: nat, v: Option<nat>): (b: Automaton)
    requires s < |a.states| && e < |a.states[s].slots|
    ensures SameShape(a, b)
    ensures b.states[s].slots == a.states[s].slots[e := v]
    ensures forall j :: 0 <= j < |a.states| && j != s ==> b.states[j] == a.states[j]
  {
    a.(states := a.states[s := a.states[s].(slots := a.states[s].slots[e := v])])
  }

  /** What a data cell binds: nothing when empty, otherwise the transition of
      that name, or nothing when there is no such transition. */
  function CellValue(a: Automaton, cell: string): (r: Option<nat>)
    ensures cell == "" ==> r.None?
    ensures cell != "" ==> r == FindTransition(a, cell)
  {
    if cell == "" then None else FindTransition(a, cell)
  }

  /** The row scan over the rest `s` of the line. `st` is the row's state
      once the first cell has been read, `cur` the cell read so far and `c`
      the column of the current cell. With `asWritten` a cell beyond the
      header's columns is written through before the bound is tested; the
      corrected scan tests first. */
  function RowFrom(a: Automaton, ev: seq<nat>, s: string, st: Option<nat>, cur: string,
                   c: nat, asWritten: bool): (r: Result<Automaton, RowError>)
    requires st.Some? ==> st.value < |a.states|
    requires HeaderFits(a, ev)
    ensures r.Ok? ==> SameShape(a, r.value)
    ensures r.Ok? && st.Some? ==>
              forall j :: 0 <= j < |a.states| && j != st.value ==> r.value.states[j] == a.states[j]
    ensures r.Ok? && SlotsValid(a) ==> SlotsValid(r.value)
    decreases |s|
  {
    if |s| == 0 then Ok(a)
    else if !IsSeparator(s[0]) then RowFrom(a, ev, s[1..], st, cur + [s[0]], c, asWritten)
    else match st
      case None =>
        (match FindState(a, cur)
         case None => Err(BadStateName)
         case Some(k) => RowFrom(a, ev, s[1..], Some(k), "", 0, asWritten))
      case Some(k) =>
        if c >= |ev| then (if asWritten then Err(ColumnFault) else Err(TooManyCells))
        else
          var b := SetSlot(a, k, ev[c], CellValue(a, cur));
          RowFrom(b, ev, s[1..], st, "", c + 1, asWritten)
  }

  /** parse_csv_file_line, corrected: the first cell names the state, every
      later cell (ended by a comma or the newline) binds the slot of its
      column's event; a cell beyond the header's columns is refused before
      anything is written. Only the named state changes. */
  function ParseRow(a: Automaton, ev: seq<nat>, line: string): (r: Result<Automaton, RowError>)
    requires HeaderFits(a, ev)
    ensures r.Ok? ==> SameShape(a, r.value)
    ensures r.Ok? && SlotsValid(a) ==> SlotsValid(r.value)
    ensures r != Err(ColumnFault)
  {
    NeverFaults(a, ev, line, None, "", 0);
    RowFrom(a, ev, line, None, "", 0, false)
  }

  lemma {:induction false} NeverFaults(a: Automaton, ev: seq<nat>, s: string, st: Option<nat>, cur: string, c: nat)
    requires st.Some? ==> st.value < |a.states|
    requires HeaderFits(a, ev)
    ensures RowFrom(a, ev, s, st, cur, c, false) != Err(ColumnFault)
    decreases |s|
  {
    if |s| == 0 {
    } else if !IsSeparator(s[0]) {
      NeverFaults(a, ev, s[1..], st, cur + [s[0]], c);
    } else if st.None? {
      match FindState(a, cur)
      case None =>
      case Some(k) => NeverFaults(a, ev, s[1..], Some(k), "", 0);
    } else if c < |ev| {
      var b := SetSlot(a, st.value, ev[c], CellValue(a, cur));
      NeverFaults(b, ev, s[1..], st, "", c + 1);
    }
  }

  /** parse_csv_file_line as written: the slot write for a cell happens
      before the cell count is tested, so a cell past the header's columns
      indexes the column table past the entries the header filled in. */
  function ParseRowAsWritten(a: Automaton, ev: seq<nat>, line: string): (r: Result<Automaton, RowError>)
    requires HeaderFits(a, ev)
    ensures r.Ok? ==> SameShape(a, r.value)
    ensures r != Err(TooManyCells)
  {
    NeverTooMany(a, ev, line, None, "", 0);
    RowFrom(a, ev, line, None, "", 0, true)
  }

  lemma {:induction false} NeverTooMany(a: Automaton, ev: seq<nat>, s: string, st: Option<nat>, cur: string, c: nat)
    requires st.Some? ==> st.value < |a.states|
    requires HeaderFits(a, ev)
    ensures RowFrom(a, ev, s, st, cur, c, true) != Err(TooManyCells)
    decreases |s|
  {
    if |s| == 0 {
    } else if !IsSeparator(s[0]) {
      NeverTooMany(a, ev, s[1..], st, cur + [s[0]], c);
    } else if st.None? {
      match FindState(a, cur)
      case None =>
      case Some(k) => NeverTooMany(a, ev, s[1..], Some(k), "", 0);
    } else if c < |ev| {
      var b := SetSlot(a, st.value, ev[c], CellValue(a, cur));
      NeverTooMany(b, ev, s[1..], st, "", c + 1);
    }
  }

  /** The two row parsers differ only in how an excess cell fails. */
  lemma {:induction false} RowAsWrittenAgrees(a: Automaton, ev: seq<nat>, s: string, st: Option<nat>,
                                              cur: string, c: nat)
    requires st.Some? ==> st.value < |a.states|
    requires HeaderFits(a, ev)
    ensures RowFrom(a, ev, s, st, cur, c, true) == Err(ColumnFault)
            <==> RowFrom(a, ev, s, st, cur, c, false) == Err(TooManyCells)
    ensures RowFrom(a, ev, s, st, cur, c, true) != Err(ColumnFault) ==>
            RowFrom(a, ev, s, st, cur, c, true) == RowFrom(a, ev, s, st, cur, c, false)
    decreases |s|
  {
    if |s| == 0 {
    } else if !IsSeparator(s[0]) {
      RowAsWrittenAgrees(a, ev, s[1..], st, cur + [s[0]], c);
    } else if st.None? {
      match FindState(a, cur)
      case None =>
      case Some(k) => RowAsWrittenAgrees(a, ev, s[1..], Some(k), "", 0);
    } else if c < |ev| {
      var b := SetSlot(a, st.value, ev[c], CellValue(a, cur));
      RowAsWrittenAgrees(b, ev, s[1..], st, "", c + 1);
    }
  }

  /** A row whose first cell names no state fails with BadStateName. */
  lemma UnknownStateRejected(a: Automaton, ev: seq<nat>, name: string, rest: string)
    requires HeaderFits(a, ev) && SeparatorFree(name) && FindState(a, name).None?
    ensures ParseRow(a, ev, name + "," + rest) == Err(BadStateName)
  {
    CellAccumulates(a, ev, name, "," + rest, None, "", 0, false);
    assert name + "," + rest == name + ("," + rest);
    assert "" + name == name;
  }

  /** Characters of a cell other than the separators, spaces included, are
      kept: the data rows are not validated. */
  lemma {:induction false} CellAccumulates(a: Automaton, ev: seq<nat>, p: string, q: string,
                                           st: Option<nat>, cur: string, c: nat, asWritten: bool)
    requires st.Some? ==> st.value < |a.states|
    requires HeaderFits(a, ev) && SeparatorFree(p)
    ensures RowFrom(a, ev, p + q, st, cur, c, asWritten) == RowFrom(a, ev, q, st, cur + p, c, asWritten)
    decreases |p|
  {
    if |p| > 0 {
      assert (p + q)[0] == p[0] && (p + q)[1..] == p[1..] + q;
      CellAccumulates(a, ev, p[1..], q, st, cur + [p[0]], c, asWritten);
      assert cur + [p[0]] + p[1..] == cur + p;
    } else {
      assert p + q == q && cur + p == cur;
    }
  }

  // ---------------------------------------------------------------------------
  // The whole file

  /** `fgets` returns the line whole: it is shorter than the buffer, and
      either ends in its newline or is the file's unterminated last line and
      leaves room in the buffer. Any other line is skipped. */
  predicate Fits(line: string) {
    |line| < MaxCsvLineLen
    && ((|line| > 0 && line[|line| - 1] == '\n') || |line| < MaxCsvLineLen - 1)
  }

  /** Every state has a slot for the id of every event. */
  predicate IdsFit(a: Automaton) {
    forall e :: 0 <= e < |a.events| ==> IdFits(a, a.events[e].id)
  }

  lemma SameShapeKeepsFit(a: Automaton, b: Automaton, ev: seq<nat>)
    requires SameShape(a, b) && HeaderFits(a, ev)
    ensures HeaderFits(b, ev)
  {
    forall k, s | 0 <= k < |ev| && 0 <= s < |b.states|
      ensures ev[k] < |b.states[s].slots|
    {
      assert IdFits(a, ev[k]);
    }
  }

  lemma HeaderIdsFit(a: Automaton, ev: seq<nat>)
    requires IdsFit(a) && forall k :: 0 <= k < |ev| ==> IsEventId(a, ev[k])
    ensures HeaderFits(a, ev)
  {
    forall k | 0 <= k < |ev| ensures IdFits(a, ev[k]) {
      var e :| 0 <= e < |a.events| && a.events[e].id == ev[k];
      assert IdFits(a, a.events[e].id);
    }
  }

  lemma SameShapeTrans(a: Automaton, b: Automaton, c: Automaton)
    requires SameShape(a, b) && SameShape(b, c)
    ensures SameShape(a, c)
  {
  }

  /** The load loop from line `k` on; `header` holds the column table once
      the first line that fits has been read. */
  function LoadFrom(a: Automaton, lines: seq<string>, header: Option<seq<nat>>)
    : (r: Result<Automaton, LoadError>)
    requires IdsFit(a)
    requires header.Some? ==> HeaderFits(a, header.value)
    ensures r.Ok? ==> SameShape(a, r.value)
    ensures r.Ok? && SlotsValid(a) ==> SlotsValid(r.value)
    ensures r != Err(LoadFailed)
    decreases |lines|
  {
    if |lines| == 0 then Ok(a)
    else if !Fits(lines[0]) then LoadFrom(a, lines[1..], header)
    else match header
      case None =>
        (match ParseEventLine(a, lines[0])
         case Err(_) => Err(BadEventLine)
         case Ok(ev) =>
           HeaderIdsFit(a, ev);
           LoadFrom(a, lines[1..], Some(ev)))
      case Some(ev) =>
        match ParseRow(a, ev, lines[0])
        case Err(_) => Err(ParseFailed)
        case Ok(b) =>
          SameShapeKeepsFit(a, b, ev);
          assert IdsFit(b) by {
            forall e | 0 <= e < |b.events| ensures IdFits(b, b.events[e].id) {
              assert IdFits(a, a.events[e].id);
            }
          }
          var r := LoadFrom(b, lines[1..], header);
          r
  }

  /** load_automaton_csv_file: a missing file is LoadFailed; otherwise the
      first line that fits is the header and every later one a state row,
      and the first failure ends the load. Only slot contents change. */
  function LoadCsv(a: Automaton, file: Option<seq<string>>): (r: Result<Automaton, LoadError>)
    requires IdsFit(a)
    ensures file.None? <==> r == Err(LoadFailed)
    ensures r.Ok? ==> SameShape(a, r.value)
    ensures r.Ok? && SlotsValid(a) ==> SlotsValid(r.value)
  {
    match file
    case None => Err(LoadFailed)
    case Some(lines) => LoadFrom(a, lines, None)
  }

  /** A line too long for the buffer is skipped whole, wherever it stands. */
  lemma OverlongLineSkipped(a: Automaton, line: string, rest: seq<string>)
    requires IdsFit(a) && |line| >= MaxCsvLineLen
    ensures LoadCsv(a, Some([line] + rest)) == LoadCsv(a, Some(rest))
  {
    assert ([line] + rest)[1..] == rest;
  }

  /** The excess cell that shows the difference: one event, a header naming
      it, and a state row with two cells. The corrected parser refuses the
      second cell; the parser as written writes through a column the header
      never filled in. */
  lemma ExcessCellWrittenFirst()
    ensures var a := Automaton("a", [Event(0, "e")],
                               [State(0, "s", [None], None, None, None)], [], None, false);
      && ParseEventLine(a, ",e\n") == Ok([0])
      && ParseRowAsWritten(a, [0], "s,,\n") == Err(ColumnFault)
      && ParseRow(a, [0], "s,,\n") == Err(TooManyCells)
  {
    var a := Automaton("a", [Event(0, "e")], [State(0, "s", [None], None, None, None)], [], None, false);
    assert FindEvent(a, "e") == Some(0);
    assert FindState(a, "s") == Some(0);
    assert ",e\n"[1..] == "e\n";
    assert "e\n"[1..] == "\n";
    assert "\n"[1..] == "" && [] + [a.events[0].id] == [0];
    assert EventLineFrom(a, "", false, "", [0]) == Ok([0]);
    assert EventLineFrom(a, "\n", false, "e", []) == Ok([0]);
    assert EventLineFrom(a, "e\n", false, "", []) == Ok([0]);
    assert "s,,\n"[1..] == ",,\n";
    assert ",,\n"[1..] == ",\n";
    assert ",\n"[1..] == "\n";
  }
}
